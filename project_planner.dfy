/** `ProjectPlanner`: the older, single-class planner. It keeps its own rules: progress
    over top-level tasks and phase flags, top-level lookups for completing and removing
    tasks, a duplicate check in `addTask` and `addSubtask`, and a one-level completion of
    the parent in `completeSubtask`. */
module ProjectPlanner {
  import opened Model
  import Splice
  import Percent
  import opened TaskService
  import opened Progress
  import ProgressReporter

  // ---------------------------------------------------------------------------
  // Progress over top-level tasks and phase flags

  /** `every(t => t.executed)`. */
  predicate AllExecuted(ts: seq<Task>)
  {
    forall i :: 0 <= i < |ts| ==> ts[i].executed
  }

  lemma {:induction false} AllExecutedCount(ts: seq<Task>)
    ensures CountExecuted(ts) == |ts| <==> AllExecuted(ts)
  {
    if ts != [] {
      AllExecutedCount(ts[1..]);
      assert AllExecuted(ts) <==> ts[0].executed && AllExecuted(ts[1..]) by {
        assert forall i :: 1 <= i < |ts| ==> ts[i] == ts[1..][i - 1];
      }
    }
  }

  /** `phases.filter(phase => phase.executed).length`. */
  function FlaggedPhases(m: seq<PhaseEntry>): (n: nat)
    ensures n <= |m|
  {
    if m == [] then 0 else (if m[0].1.executed then 1 else 0) + FlaggedPhases(m[1..])
  }

  /** `getProgress()`: the executed share of the top-level tasks of all phases, and the
      share of phases whose own flag is set; both are 0 while there is no task at all,
      however many phases there are. */
  function ProgressOf(m: seq<PhaseEntry>): (r: ProgressReporter.Basic)
    ensures |AllTasks(m)| == 0 ==> r == ProgressReporter.Basic(0.0, 0.0)
    ensures 0.0 <= r.tasks <= 100.0 && 0.0 <= r.phases <= 100.0
    ensures r.tasks == 100.0 <==> |AllTasks(m)| > 0 && AllExecuted(AllTasks(m))
    ensures r.tasks > 0.0 <==> CountExecuted(AllTasks(m)) > 0
    ensures r.phases == 100.0 <==> |AllTasks(m)| > 0 && FlaggedPhases(m) == |m|
  {
    var tasks := AllTasks(m);
    if |tasks| == 0 then ProgressReporter.Basic(0.0, 0.0)
    else
      AllExecutedCount(tasks);
      ProgressReporter.Basic(Percent.Percentage(CountExecuted(tasks), |tasks|), Percent.Percentage(FlaggedPhases(m), |m|))
  }

  /** The planner and the progress services disagree as soon as subtasks exist: one
      executed task over one open subtask is complete here and half done there. */
  lemma TopLevelOnly(t: Task, s: Task)
    requires t.executed && t.subtasks == Present([s])
    requires !s.executed && s.subtasks == Absent
    ensures ProgressOf([("fase", Phase("Fase", false, [t]))]).tasks == 100.0
    ensures ProjectProgressOf([("fase", Phase("Fase", false, [t]))]).tasks.percentage == 50.0
  {
    var m := [("fase", Phase("Fase", false, [t]))];
    assert m[..0] == [] && m[..|m| - 1] == [];
    assert AllTasks(m) == [t];
    assert [t][1..] == [];
    assert CountExecuted([t]) == 1;
    LeavesFlat([s]);
    assert Flatten([t]) == [t, s] by {
      assert Flatten([t]) == FlattenTask(t) + Flatten([]);
      assert FlattenSubtasks(t) == Flatten([s]);
    }
    assert [t, s][1..] == [s] && [s][1..] == [];
    assert CountExecuted([t, s]) == 1;
    assert TasksCompleted(m) == 1 && TasksTotal(m) == 2;
    assert Percent.Percentage(1, 2) == 50.0;
  }

  // ---------------------------------------------------------------------------
  // Top-level status changes

  /** The phase after `completeTask` on its top-level task `k`: that task's flag is set,
      nothing else of it changes (`updated_at` included), and the phase's flag becomes
      whether every top-level task is now executed. */
  function TaskCompleted(p: Phase, k: nat): (r: Phase)
    requires k < |p.tasks|
    ensures r.name == p.name && |r.tasks| == |p.tasks|
    ensures r.tasks[k].executed && r.tasks[k].(executed := p.tasks[k].executed) == p.tasks[k]
    ensures forall j :: 0 <= j < |p.tasks| && j != k ==> r.tasks[j] == p.tasks[j]
    ensures r.executed <==> forall j :: 0 <= j < |p.tasks| && j != k ==> p.tasks[j].executed
  {
    var tasks := p.tasks[k := p.tasks[k].(executed := true)];
    Phase(p.name, AllExecuted(tasks), tasks)
  }

  /** The phase after `pendingTask` on its top-level task `k`: that task's flag and the
      phase's flag are cleared. */
  function TaskReopened(p: Phase, k: nat): (r: Phase)
    requires k < |p.tasks|
    ensures r.name == p.name && !r.executed && |r.tasks| == |p.tasks|
    ensures !r.tasks[k].executed && r.tasks[k].(executed := p.tasks[k].executed) == p.tasks[k]
    ensures forall j :: 0 <= j < |p.tasks| && j != k ==> r.tasks[j] == p.tasks[j]
  {
    Phase(p.name, false, p.tasks[k := p.tasks[k].(executed := false)])
  }

  // ---------------------------------------------------------------------------
  // Duplicate ids

  /** No two top-level tasks of the array share an id. */
  predicate TopIdsUnique(ts: seq<Task>)
  {
    forall i, j :: 0 <= i < j < |ts| ==> ts[i].id != ts[j].id
  }

  // ---------------------------------------------------------------------------
  // Completing a subtask

  /** The forest after `completeSubtask(taskId)`: the first node with the id is executed
      and stamped; then, if it names a parent, the first node with the parent's id in the
      updated forest is executed and stamped too when it has a list whose members are all
      executed. Nothing above the parent is looked at. */
  function SubtaskCompleted(ts: seq<Task>, taskId: string, today: string): seq<Task>
    requires FindInForest(ts, taskId).Some?
  {
    var t := FindInForest(ts, taskId).value;
    var ts1 := ReplaceInForest(ts, taskId, StatusUpdated(t, true, today));
    if t.parentId.Some? && t.parentId.value != "" then
      match FindInForest(ts1, t.parentId.value)
      case Some(parent) =>
        if parent.subtasks.Present? && AllExecuted(parent.subtasks.items) then
          ReplaceInForest(ts1, t.parentId.value, StatusUpdated(parent, true, today))
        else ts1
      case None => ts1
    else ts1
  }

  /** What `completeSubtask` does to the tree, step by step. First the task (the first
      node with its id) is set executed and stamped, and that is the only entry of the
      pre-order (id, executed) view that changes. Then, when the task names a parent that
      is found, that parent (the first node with the parent's id) ends executed exactly when
      it already was or its list is now all executed; only its own entry of the view changes,
      and nothing above it is touched. Without a parent, or when it is not found, the first
      step is the whole effect. */
  lemma SubtaskCompletedEffect(ts: seq<Task>, taskId: string, today: string)
    requires FindInForest(ts, taskId).Some?
    ensures IndexOfId(Flatten(ts), taskId).Some?
    ensures
      var t := FindInForest(ts, taskId).value;
      var done := StatusUpdated(t, true, today);
      var ts1 := ReplaceInForest(ts, taskId, done);
      var r := SubtaskCompleted(ts, taskId, today);
      var j := IndexOfId(Flatten(ts), taskId).value;
      && FindInForest(ts1, taskId) == Some(done)
      && Marks(Flatten(ts1)) == Marks(Flatten(ts))[j := Mark(taskId, true)]
      && (t.parentId.None? || t.parentId.value == "" || FindInForest(ts1, t.parentId.value).None? ==> r == ts1)
      && (t.parentId.Some? && t.parentId.value != "" && FindInForest(ts1, t.parentId.value).Some? ==>
            var pid := t.parentId.value;
            var p := FindInForest(ts1, pid).value;
            var allDone := p.subtasks.Present? && AllExecuted(p.subtasks.items);
            && FindInForest(r, pid) == Some(if allDone then StatusUpdated(p, true, today) else p)
            && (FindInForest(r, pid).value.executed <==> p.executed || allDone)
            && IndexOfId(Flatten(ts1), pid).Some?
            && Marks(Flatten(ts1))[IndexOfId(Flatten(ts1), pid).value] == Mark(pid, p.executed)
            && Marks(Flatten(r)) ==
                 if allDone then Marks(Flatten(ts1))[IndexOfId(Flatten(ts1), pid).value := Mark(pid, true)]
                 else Marks(Flatten(ts1)))
  {
    var t := FindInForest(ts, taskId).value;
    var done := StatusUpdated(t, true, today);
    var ts1 := ReplaceInForest(ts, taskId, done);
    SetStatusMarks(ts, taskId, true, today);
    FindAfterReplace(ts, taskId, done);
    if t.parentId.Some? && t.parentId.value != "" && FindInForest(ts1, t.parentId.value).Some? {
      var pid := t.parentId.value;
      var p := FindInForest(ts1, pid).value;
      SetStatusMarks(ts1, pid, true, today);
      if p.subtasks.Present? && AllExecuted(p.subtasks.items) {
        FindAfterReplace(ts1, pid, StatusUpdated(p, true, today));
      }
    }
  }

  /** At most two nodes change, and only by being set executed: the count of nodes stays,
      the completed count grows by two at most, and the task's own entry of the pre-order
      view ends executed whatever happens to its parent. */
  lemma SubtaskCompletedCounts(ts: seq<Task>, taskId: string, today: string)
    requires FindInForest(ts, taskId).Some?
    ensures FlatTotal(SubtaskCompleted(ts, taskId, today)) == FlatTotal(ts)
    ensures FlatCompleted(ts) <= FlatCompleted(SubtaskCompleted(ts, taskId, today)) <= FlatCompleted(ts) + 2
    ensures FindInForest(ts, taskId).value.executed ==> FlatCompleted(ts) <= FlatCompleted(SubtaskCompleted(ts, taskId, today)) <= FlatCompleted(ts) + 1
    ensures IndexOfId(Flatten(ts), taskId).Some?
    ensures |Marks(Flatten(SubtaskCompleted(ts, taskId, today)))| == |Flatten(ts)|
    ensures Marks(Flatten(SubtaskCompleted(ts, taskId, today)))[IndexOfId(Flatten(ts), taskId).value] == Mark(taskId, true)
  {
    var t := FindInForest(ts, taskId).value;
    SetStatusInForest(ts, taskId, true, today);
    SubtaskCompletedEffect(ts, taskId, today);
    var ts1 := ReplaceInForest(ts, taskId, StatusUpdated(t, true, today));
    if t.parentId.Some? && t.parentId.value != "" && FindInForest(ts1, t.parentId.value).Some? {
      SetStatusInForest(ts1, t.parentId.value, true, today);
    }
  }

  /** Completion climbs one level only: completing the only grandchild completes its
      parent, but the grandparent stays open although all its subtasks are then done. */
  lemma OneLevelOnly(today: string)
    ensures
      var c := Task("1.1.1", "c", false, Absent, Some("1.1"), None, "d", "d");
      var p := Task("1.1", "p", false, Present([c]), Some("1"), None, "d", "d");
      var g := Task("1", "g", false, Present([p]), None, None, "d", "d");
      var c' := c.(executed := true, updatedAt := today);
      var p' := p.(executed := true, updatedAt := today, subtasks := Present([c']));
      && FindInForest([g], "1.1.1").Some?
      && SubtaskCompleted([g], "1.1.1", today) == [g.(subtasks := Present([p']))]
  {
    var c := Task("1.1.1", "c", false, Absent, Some("1.1"), None, "d", "d");
    var p := Task("1.1", "p", false, Present([c]), Some("1"), None, "d", "d");
    var g := Task("1", "g", false, Present([p]), None, None, "d", "d");
    var c' := c.(executed := true, updatedAt := today);
    var p1 := p.(subtasks := Present([c']));
    var p' := p.(executed := true, updatedAt := today, subtasks := Present([c']));
    assert [g][1..] == [] && [p][1..] == [] && [c][1..] == [] && [p1][1..] == [] && [c'][1..] == [];
    assert FindInForest([c], "1.1.1") == Some(c);
    assert FindInTask(p, "1.1.1") == Some(c);
    assert FindInForest([p], "1.1.1") == Some(c);
    assert FindInTask(g, "1.1.1") == Some(c);
    assert FindInForest([g], "1.1.1") == Some(c);
    assert ReplaceInForest([c], "1.1.1", c') == [c'];
    assert ReplaceInTask(p, "1.1.1", c') == p1;
    assert ReplaceInForest([p], "1.1.1", c') == [p1];
    var g1 := g.(subtasks := Present([p1]));
    assert ReplaceInTask(g, "1.1.1", c') == g1;
    assert ReplaceInForest([g], "1.1.1", c') == [g1];
    assert FindInTask(p1, "1.1") == Some(p1);
    assert FindInForest([p1], "1.1") == Some(p1);
    assert FindInTask(g1, "1.1") == Some(p1);
    assert FindInForest([g1], "1.1") == Some(p1);
    assert AllExecuted([c']);
    assert ReplaceInForest([p1], "1.1", p') == [p'];
    assert ReplaceInTask(g1, "1.1", p') == g.(subtasks := Present([p']));
  }

  // ---------------------------------------------------------------------------
  // The planner object

  /** What `loadProject` finds on disk: no file, a file that does not parse, or a parsed
      JSON value, possibly `null`. */
  datatype Stored = Missing | Unreadable | Parsed(value: Option<Project>)

  /** `createDefaultProject()`. */
  function DefaultProject(today: string): (p: Project)
    ensures p.name == "Novo Projeto" && p.lastUpdate == today && p.phases == []
  {
    Project("Novo Projeto", today, [])
  }

  class ProjectPlanner {
    /** The document held in the `project` field. */
    const project: ProjectDoc
    /** Every document written by `saveProject`, oldest first. */
    ghost var saved: seq<Project>

    ghost predicate Valid()
      reads this, project
    {
      project.Valid()
    }

    /** `new ProjectPlanner(path)` loads the document; a missing or unreadable file is
        replaced by a saved default project, a `null` document by an unsaved one. */
    constructor (stored: Stored, today: string)
      requires stored.Parsed? && stored.value.Some? ==> UniqueKeys(stored.value.value.phases)
      ensures Valid() && fresh(project)
      ensures stored.Parsed? && stored.value.Some? ==> project.Value() == stored.value.value && saved == []
      ensures stored.Parsed? && stored.value.None? ==> project.Value() == DefaultProject(today) && saved == []
      ensures !stored.Parsed? ==> project.Value() == DefaultProject(today) && saved == [DefaultProject(today)]
    {
      match stored
      case Parsed(Some(p)) =>
        project := new ProjectDoc(p);
        saved := [];
      case Parsed(None) =>
        project := new ProjectDoc(DefaultProject(today));
        saved := [];
      case _ =>
        project := new ProjectDoc(DefaultProject(today));
        saved := [DefaultProject(today)];
    }

    twostate predicate Rejected()
      reads this, project
    {
      project.Value() == old(project.Value()) && saved == old(saved)
    }

    /** The record became `phases`, `last_update` became `today`, one save. */
    twostate predicate Committed(phases: seq<PhaseEntry>, today: string)
      reads this, project
    {
      && project.Value() == old(project.Value()).(lastUpdate := today, phases := phases)
      && saved == old(saved) + [project.Value()]
    }

    /** The record became `phases` and was saved, `last_update` untouched. */
    twostate predicate SavedOnly(phases: seq<PhaseEntry>)
      reads this, project
    {
      && project.Value() == old(project.Value()).(phases := phases)
      && saved == old(saved) + [project.Value()]
    }

    /** The stamp and the save that end most commands. */
    method Stamp(today: string)
      modifies this, project
      ensures project.Value() == old(project.Value()).(lastUpdate := today)
      ensures saved == old(saved) + [project.Value()]
    {
      project.lastUpdate := today;
      saved := saved + [project.Value()];
    }

    /** `getProgress()`. */
    function GetProgress(): (r: ProgressReporter.Basic)
      reads this, project
      ensures r == ProgressOf(project.phases)
    {
      ProgressOf(project.phases)
    }

    /** `completeTask(phaseId, taskId)`: the first top-level task with the id. */
    method CompleteTask(phaseId: string, taskId: string, today: string) returns (o: Outcome)
      requires Valid()
      modifies this, project
      ensures Valid()
      ensures !HasKey(old(project.phases), phaseId) ==>
        o == Failed("Fase \"" + phaseId + "\" não encontrada") && Rejected()
      ensures HasKey(old(project.phases), phaseId) ==>
        var p := Get(old(project.phases), phaseId).value;
        && (IndexOfId(p.tasks, taskId).None? ==>
              o == Failed("Tarefa \"" + taskId + "\" não encontrada na fase \"" + phaseId + "\"") && Rejected())
        && (IndexOfId(p.tasks, taskId).Some? ==>
              o == Done && Committed(Put(old(project.phases), phaseId, TaskCompleted(p, IndexOfId(p.tasks, taskId).value)), today))
    {
      var phase := Get(project.phases, phaseId);
      if phase.None? {
        return Failed("Fase \"" + phaseId + "\" não encontrada");
      }
      var k := IndexOfId(phase.value.tasks, taskId);
      if k.None? {
        return Failed("Tarefa \"" + taskId + "\" não encontrada na fase \"" + phaseId + "\"");
      }
      var doc := new PhaseDoc(phase.value);
      var task := new TaskDoc(doc.tasks[k.value]);
      task.executed := true;
      doc.tasks := doc.tasks[k.value := task.Value()];
      doc.executed := AllExecuted(doc.tasks);
      project.phases := Put(project.phases, phaseId, doc.Value());
      Stamp(today);
      o := Done;
    }

    /** `pendingTask(phaseId, taskId)`. */
    method PendingTask(phaseId: string, taskId: string, today: string) returns (o: Outcome)
      requires Valid()
      modifies this, project
      ensures Valid()
      ensures !HasKey(old(project.phases), phaseId) ==>
        o == Failed("Fase \"" + phaseId + "\" não encontrada") && Rejected()
      ensures HasKey(old(project.phases), phaseId) ==>
        var p := Get(old(project.phases), phaseId).value;
        && (IndexOfId(p.tasks, taskId).None? ==>
              o == Failed("Tarefa \"" + taskId + "\" não encontrada na fase \"" + phaseId + "\"") && Rejected())
        && (IndexOfId(p.tasks, taskId).Some? ==>
              o == Done && Committed(Put(old(project.phases), phaseId, TaskReopened(p, IndexOfId(p.tasks, taskId).value)), today))
    {
      var phase := Get(project.phases, phaseId);
      if phase.None? {
        return Failed("Fase \"" + phaseId + "\" não encontrada");
      }
      var k := IndexOfId(phase.value.tasks, taskId);
      if k.None? {
        return Failed("Tarefa \"" + taskId + "\" não encontrada na fase \"" + phaseId + "\"");
      }
      var doc := new PhaseDoc(phase.value);
      var task := new TaskDoc(doc.tasks[k.value]);
      task.executed := false;
      doc.tasks := doc.tasks[k.value := task.Value()];
      doc.executed := false;
      project.phases := Put(project.phases, phaseId, doc.Value());
      Stamp(today);
      o := Done;
    }

    /** `addPhase(phaseId, name)`. */
    method AddPhase(phaseId: string, name: string, today: string) returns (o: Outcome)
      requires Valid()
      modifies this, project
      ensures Valid()
      ensures o.Failed? <==> HasKey(old(project.phases), phaseId)
      ensures o.Failed? ==> o.message == "Fase \"" + phaseId + "\" já existe" && Rejected()
      ensures o.Done? ==> Committed(Put(old(project.phases), phaseId, Phase(name, false, [])), today)
      ensures o.Done? ==> Keys(project.phases) == Keys(old(project.phases)) + [phaseId]
    {
      if Get(project.phases, phaseId).Some? {
        return Failed("Fase \"" + phaseId + "\" já existe");
      }
      project.phases := Put(project.phases, phaseId, Phase(name, false, []));
      Stamp(today);
      o := Done;
    }

    /** `addTask(phaseId, taskId, name)`: refuses a top-level id already in the phase, so
        top-level ids that were distinct stay distinct. Both dates are `today`. */
    method AddTask(phaseId: string, taskId: string, name: string, today: string) returns (o: Outcome)
      requires Valid()
      modifies this, project
      ensures Valid()
      ensures !HasKey(old(project.phases), phaseId) ==>
        o == Failed("Fase \"" + phaseId + "\" não encontrada") && Rejected()
      ensures HasKey(old(project.phases), phaseId) ==>
        var p := Get(old(project.phases), phaseId).value;
        var tasks := p.tasks + [CreateTask(taskId, name, None, today)];
        && (IndexOfId(p.tasks, taskId).Some? ==>
              o == Failed("Tarefa \"" + taskId + "\" já existe na fase \"" + phaseId + "\"") && Rejected())
        && (IndexOfId(p.tasks, taskId).None? ==>
              && o == Done
              && Committed(Put(old(project.phases), phaseId, p.(tasks := tasks)), today)
              && (TopIdsUnique(p.tasks) ==> TopIdsUnique(tasks)))
    {
      var phase := Get(project.phases, phaseId);
      if phase.None? {
        return Failed("Fase \"" + phaseId + "\" não encontrada");
      }
      if IndexOfId(phase.value.tasks, taskId).Some? {
        return Failed("Tarefa \"" + taskId + "\" já existe na fase \"" + phaseId + "\"");
      }
      var doc := new PhaseDoc(phase.value);
      doc.tasks := doc.tasks + [CreateTask(taskId, name, None, today)];
      project.phases := Put(project.phases, phaseId, doc.Value());
      Stamp(today);
      o := Done;
    }

    /** `removePhase(phaseId)`. */
    method RemovePhase(phaseId: string, today: string) returns (o: Outcome)
      requires Valid()
      modifies this, project
      ensures Valid()
      ensures o.Failed? <==> !HasKey(old(project.phases), phaseId)
      ensures o.Failed? ==> o.message == "Fase \"" + phaseId + "\" não encontrada" && Rejected()
      ensures o.Done? ==> Committed(Delete(old(project.phases), phaseId), today)
      ensures o.Done? ==> !HasKey(project.phases, phaseId) && |project.phases| == |old(project.phases)| - 1
    {
      if Get(project.phases, phaseId).None? {
        return Failed("Fase \"" + phaseId + "\" não encontrada");
      }
      DeleteProperties(project.phases, phaseId);
      project.phases := Delete(project.phases, phaseId);
      Stamp(today);
      o := Done;
    }

    /** `removeTask(phaseId, taskId)`: the first top-level task with the id is cut out. */
    method RemoveTask(phaseId: string, taskId: string, today: string) returns (o: Outcome)
      requires Valid()
      modifies this, project
      ensures Valid()
      ensures !HasKey(old(project.phases), phaseId) ==>
        o == Failed("Fase \"" + phaseId + "\" não encontrada") && Rejected()
      ensures HasKey(old(project.phases), phaseId) ==>
        var p := Get(old(project.phases), phaseId).value;
        && (IndexOfId(p.tasks, taskId).None? ==>
              o == Failed("Tarefa \"" + taskId + "\" não encontrada na fase \"" + phaseId + "\"") && Rejected())
        && (IndexOfId(p.tasks, taskId).Some? ==>
              var k := IndexOfId(p.tasks, taskId).value;
              && o == Done
              && Committed(Put(old(project.phases), phaseId, p.(tasks := Splice.Remove(p.tasks, k))), today)
              && multiset(p.tasks) == multiset(Splice.Remove(p.tasks, k)) + multiset{p.tasks[k]})
    {
      var phase := Get(project.phases, phaseId);
      if phase.None? {
        return Failed("Fase \"" + phaseId + "\" não encontrada");
      }
      var taskIndex := IndexOfId(phase.value.tasks, taskId);
      if taskIndex.None? {
        return Failed("Tarefa \"" + taskId + "\" não encontrada na fase \"" + phaseId + "\"");
      }
      var doc := new PhaseDoc(phase.value);
      doc.tasks := Splice.Remove(doc.tasks, taskIndex.value);
      project.phases := Put(project.phases, phaseId, doc.Value());
      Stamp(today);
      o := Done;
    }

    /** `addSubtask(phaseId, parentTaskId, subtaskId, name)`. The parent is the first node
        with its id at any depth. Its missing list is created BEFORE the new id is checked
        against every node of the phase, so a refused call still leaves the empty list in
        the document (unsaved). An accepted call saves without stamping `last_update`, and
        the new id then occurs exactly once in the phase. */
    method AddSubtask(phaseId: string, parentTaskId: string, subtaskId: string, name: string, today: string)
      returns (o: Outcome)
      requires Valid()
      modifies this, project
      ensures Valid()
      ensures FindTask(old(project.Value()), phaseId, parentTaskId).task.None? ==>
        o == Failed("Tarefa pai " + parentTaskId + " não encontrada na fase " + phaseId) && Rejected()
      ensures FindTask(old(project.Value()), phaseId, parentTaskId).task.Some? ==>
        var p := Get(old(project.phases), phaseId).value;
        var parent := FindInForest(p.tasks, parentTaskId).value;
        IdCount(Marks(Flatten(p.tasks)), subtaskId) > 0 ==>
          && o == Failed("Já existe uma tarefa com o ID " + subtaskId)
          && saved == old(saved)
          && (parent.subtasks.Present? ==> project.Value() == old(project.Value()))
          && (parent.subtasks.Absent? ==>
                && project.Value() != old(project.Value())
                && project.Value() == old(project.Value()).(phases := Put(old(project.phases), phaseId,
                     p.(tasks := ReplaceInForest(p.tasks, parentTaskId, parent.(subtasks := Present([])))))))
      ensures FindTask(old(project.Value()), phaseId, parentTaskId).task.Some? ==>
        var p := Get(old(project.phases), phaseId).value;
        var parent := FindInForest(p.tasks, parentTaskId).value;
        var child := CreateTask(subtaskId, name, Some(parentTaskId), today);
        var after := ReplaceInForest(p.tasks, parentTaskId, WithSubtask(parent, child));
        IdCount(Marks(Flatten(p.tasks)), subtaskId) == 0 ==>
          && o == Done
          && SavedOnly(Put(old(project.phases), phaseId, p.(tasks := after)))
          && IdCount(Marks(Flatten(after)), subtaskId) == 1
          && FlatTotal(after) == FlatTotal(p.tasks) + 1
    {
      var found := FindTask(project.Value(), phaseId, parentTaskId);
      if found.task.None? || found.phase.None? {
        return Failed("Tarefa pai " + parentTaskId + " não encontrada na fase " + phaseId);
      }
      var phase := found.phase.value;
      var newSubtask := CreateTask(subtaskId, name, Some(parentTaskId), today);
      SubtaskFacts(phase.tasks, parentTaskId, newSubtask);
      var parentTask := new TaskDoc(found.task.value);
      ghost var original, created := project.phases, false;
      var listed := phase;
      if parentTask.subtasks.Absent? {
        parentTask.subtasks := Present([]);
        ListCreationShows(project.phases, phaseId, phase, parentTaskId);
        listed := phase.(tasks := ReplaceInForest(phase.tasks, parentTaskId, parentTask.Value()));
        project.phases := Put(project.phases, phaseId, listed);
        created := true;
      }
      var existing := FindTask(project.Value(), phaseId, subtaskId).task;
      if existing.Some? {
        return Failed("Já existe uma tarefa com o ID " + subtaskId);
      }
      parentTask.subtasks := Present(parentTask.subtasks.items + [newSubtask]);
      if created {
        PutTwice(original, phaseId, listed, phase.(tasks := ReplaceInForest(phase.tasks, parentTaskId, parentTask.Value())));
      }
      project.phases := Put(project.phases, phaseId,
        phase.(tasks := ReplaceInForest(phase.tasks, parentTaskId, parentTask.Value())));
      saved := saved + [project.Value()];
      o := Done;
    }

    /** `completeSubtask(phaseId, taskId)`: see `SubtaskCompleted`; saved without stamping
        `last_update`. */
    method CompleteSubtask(phaseId: string, taskId: string, today: string) returns (o: Outcome)
      requires Valid()
      modifies this, project
      ensures Valid()
      ensures o.Failed? <==> FindTask(old(project.Value()), phaseId, taskId).task.None?
      ensures o.Failed? ==> o.message == "Tarefa " + taskId + " não encontrada na fase " + phaseId && Rejected()
      ensures o.Done? ==>
        var p := Get(old(project.phases), phaseId).value;
        SavedOnly(Put(old(project.phases), phaseId, p.(tasks := SubtaskCompleted(p.tasks, taskId, today))))
    {
      var found := FindTask(project.Value(), phaseId, taskId);
      if found.task.None? {
        return Failed("Tarefa " + taskId + " não encontrada na fase " + phaseId);
      }
      var phase := found.phase.value;
      var task := new TaskDoc(found.task.value);
      task.executed := true;
      task.updatedAt := today;
      var tasks := ReplaceInForest(phase.tasks, taskId, task.Value());
      if task.parentId.Some? && task.parentId.value != "" {
        var parentFound := FindInForest(tasks, task.parentId.value);
        if parentFound.Some? && parentFound.value.subtasks.Present? {
          var parentTask := new TaskDoc(parentFound.value);
          if AllExecuted(parentTask.subtasks.items) {
            parentTask.executed := true;
            parentTask.updatedAt := today;
            tasks := ReplaceInForest(tasks, task.parentId.value, parentTask.Value());
          }
        }
      }
      project.phases := Put(project.phases, phaseId, phase.(tasks := tasks));
      saved := saved + [project.Value()];
      o := Done;
    }
  }

  /** What `addSubtask` relies on in the phase's forest: the duplicate search finds the
      new id in the forest, with or without the created list, exactly when some node
      carries it; an accepted subtask adds one node and one occurrence of its id. */
  lemma SubtaskFacts(ts: seq<Task>, parentId: string, child: Task)
    requires FindInForest(ts, parentId).Some? && child.subtasks == Absent
    ensures
      var parent := FindInForest(ts, parentId).value;
      var listed := ReplaceInForest(ts, parentId, WithSubtaskList(parent));
      var after := ReplaceInForest(ts, parentId, WithSubtask(parent, child));
      && (FindInForest(ts, child.id).None? <==> IdCount(Marks(Flatten(ts)), child.id) == 0)
      && (FindInForest(listed, child.id).None? <==> IdCount(Marks(Flatten(ts)), child.id) == 0)
      && IdCount(Marks(Flatten(after)), child.id) == IdCount(Marks(Flatten(ts)), child.id) + 1
      && FlatTotal(after) == FlatTotal(ts) + 1
  {
    var parent := FindInForest(ts, parentId).value;
    SubtaskListKeepsMarks(ts, parentId);
    FindNoneIffNoMark(ts, child.id);
    FindNoneIffNoMark(ReplaceInForest(ts, parentId, WithSubtaskList(parent)), child.id);
    AddSubtaskInForest(ts, parentId, child);
  }

  /** Creating the missing list is visible in the record: the phase's first node with the
      parent's id is no longer the one that was there. */
  lemma ListCreationShows(m: seq<PhaseEntry>, phaseId: string, phase: Phase, parentId: string)
    requires Get(m, phaseId) == Some(phase)
    requires FindInForest(phase.tasks, parentId).Some?
    requires FindInForest(phase.tasks, parentId).value.subtasks.Absent?
    ensures
      var parent := FindInForest(phase.tasks, parentId).value;
      Put(m, phaseId, phase.(tasks := ReplaceInForest(phase.tasks, parentId, parent.(subtasks := Present([]))))) != m
  {
    var parent := FindInForest(phase.tasks, parentId).value;
    var listed := ReplaceInForest(phase.tasks, parentId, WithSubtaskList(parent));
    FindAfterReplace(phase.tasks, parentId, WithSubtaskList(parent));
    assert FindInForest(listed, parentId) != FindInForest(phase.tasks, parentId);
    assert Get(Put(m, phaseId, phase.(tasks := listed)), phaseId) != Get(m, phaseId);
  }
}
