/** `ProjectService`: the orchestrator over a loaded project document. Every command
    either fails with the source's message and leaves the document as it was, or changes
    the document, stamps `last_update` and saves it exactly once. */
module ProjectService {
  import opened Model
  import Splice
  import TaskService
  import PhaseService
  import opened Progress
  import ProgressCalculator
  import ProgressReporter

  /** A task array after the task at index `k` is cut out and pushed back: same tasks,
      that one last, the others in their old order. */
  function ToEnd(ts: seq<Task>, k: nat): (r: seq<Task>)
    requires k < |ts|
    ensures |r| == |ts| && r[|ts| - 1] == ts[k]
    ensures r[..|ts| - 1] == Splice.Remove(ts, k)
    ensures multiset(r) == multiset(ts)
  {
    var r := Splice.Remove(ts, k) + [ts[k]];
    assert r[..|ts| - 1] == Splice.Remove(ts, k);
    r
  }

  /** The phase record after `moveTask(sourceId, targetId, taskId)` succeeds, or `None`
      when the source has no top-level task with the id. The target is the source's
      phase itself when the ids are equal. */
  function TaskMoved(m: seq<PhaseEntry>, sourceId: string, targetId: string, taskId: string)
    : (r: Option<seq<PhaseEntry>>)
    requires HasKey(m, sourceId) && HasKey(m, targetId)
    ensures r.None? <==> TaskService.IndexOfId(Get(m, sourceId).value.tasks, taskId).None?
    ensures r.Some? ==> UniqueKeys(m) ==> UniqueKeys(r.value)
    ensures r.Some? ==> forall id :: id != sourceId && id != targetId ==> Get(r.value, id) == Get(m, id)
    ensures r.Some? ==>
      var s, t := Get(m, sourceId).value, Get(m, targetId).value;
      var k := TaskService.IndexOfId(s.tasks, taskId).value;
      && (sourceId != targetId ==>
            && Get(r.value, sourceId) == Some(s.(tasks := Splice.Remove(s.tasks, k)))
            && Get(r.value, targetId) == Some(t.(tasks := t.tasks + [s.tasks[k]])))
      && (sourceId == targetId ==> Get(r.value, sourceId) == Some(s.(tasks := ToEnd(s.tasks, k))))
  {
    var s := Get(m, sourceId).value;
    var t := Get(m, targetId).value;
    match TaskService.IndexOfId(s.tasks, taskId)
    case None => None
    case Some(k) =>
      if sourceId == targetId then Some(Put(m, sourceId, s.(tasks := ToEnd(s.tasks, k))))
      else
        var task := s.tasks[k];
        Some(Put(Put(m, sourceId, s.(tasks := Splice.Remove(s.tasks, k))), targetId, t.(tasks := t.tasks + [task])))
  }

  /** The body of `moveTask` once both phases are found: the phase objects bound in the
      record (one object when the ids are equal) go through `moveTaskBetweenPhases` with
      the target's length as the position. */
  method MoveInRecord(m: seq<PhaseEntry>, sourceId: string, targetId: string, taskId: string)
    returns (r: Option<seq<PhaseEntry>>)
    requires HasKey(m, sourceId) && HasKey(m, targetId)
    ensures r == TaskMoved(m, sourceId, targetId, taskId)
  {
    var sourcePhase, targetPhase := Get(m, sourceId).value, Get(m, targetId).value;
    var targetPosition := |targetPhase.tasks|;
    var source := new PhaseDoc(sourcePhase);
    var target: PhaseDoc;
    if sourceId == targetId {
      target := source;
    } else {
      target := new PhaseDoc(targetPhase);
    }
    var moved := TaskService.MoveTaskBetweenPhases(source, target, taskId, targetPosition);
    if !moved {
      return None;
    }
    var k := TaskService.IndexOfId(sourcePhase.tasks, taskId).value;
    var task := sourcePhase.tasks[k];
    if sourceId == targetId {
      Splice.InsertPastEnd(Splice.Remove(sourcePhase.tasks, k), targetPosition, task);
      r := Some(Put(m, sourceId, source.Value()));
    } else {
      Splice.InsertPastEnd(targetPhase.tasks, targetPosition, task);
      r := Some(Put(Put(m, sourceId, source.Value()), targetId, target.Value()));
    }
  }

  class ProjectService {
    /** The document `repository.load()` returned; its object is kept for the service's
        whole life and only its fields change. */
    const project: ProjectDoc
    /** Every document handed to `repository.save`, oldest first. */
    ghost var saved: seq<Project>

    ghost predicate Valid()
      reads this, project
    {
      project.Valid()
    }

    constructor (loaded: Project)
      requires UniqueKeys(loaded.phases)
      ensures Valid() && fresh(project)
      ensures project.Value() == loaded && saved == []
    {
      project := new ProjectDoc(loaded);
      saved := [];
    }

    /** A thrown error: nothing changed, nothing saved. */
    twostate predicate Rejected()
      reads this, project
    {
      project.Value() == old(project.Value()) && saved == old(saved)
    }

    /** A completed command: the phase record is `phases`, `last_update` is `today`, the
        name is kept, and the new document was saved once. */
    twostate predicate Committed(phases: seq<PhaseEntry>, today: string)
      reads this, project
    {
      && project.Value() == old(project.Value()).(lastUpdate := today, phases := phases)
      && saved == old(saved) + [project.Value()]
    }

    /** `updateAndSave()`; `today` stands for `new Date().toLocaleDateString('pt-BR')`. */
    method UpdateAndSave(today: string)
      modifies this, project
      ensures project.Value() == old(project.Value()).(lastUpdate := today)
      ensures saved == old(saved) + [project.Value()]
    {
      project.lastUpdate := today;
      saved := saved + [project.Value()];
    }

    /** `addPhase(id, name)`: an existing id is refused, a new one is bound to an empty
        phase placed last. */
    method AddPhase(id: string, name: string, today: string) returns (o: Outcome)
      requires Valid()
      modifies this, project
      ensures Valid()
      ensures o.Failed? <==> HasKey(old(project.phases), id)
      ensures o.Failed? ==> o.message == "Fase " + id + " já existe" && Rejected()
      ensures o.Done? ==> Committed(Put(old(project.phases), id, PhaseService.CreatePhase(name)), today)
      ensures o.Done? ==> Keys(project.phases) == Keys(old(project.phases)) + [id]
    {
      if Get(project.phases, id).Some? {
        return Failed("Fase " + id + " já existe");
      }
      project.phases := Put(project.phases, id, PhaseService.CreatePhase(name));
      UpdateAndSave(today);
      o := Done;
    }

    /** `renamePhase(id, newName)`: the phase object is renamed where it is bound. */
    method RenamePhase(id: string, newName: string, today: string) returns (o: Outcome)
      requires Valid()
      modifies this, project
      ensures Valid()
      ensures o.Failed? <==> !HasKey(old(project.phases), id)
      ensures o.Failed? ==> o.message == "Fase " + id + " não encontrada" && Rejected()
      ensures o.Done? ==>
        var p := Get(old(project.phases), id).value;
        && Committed(Put(old(project.phases), id, p.(name := newName)), today)
        && Keys(project.phases) == Keys(old(project.phases))
    {
      var phase := Get(project.phases, id);
      if phase.None? {
        return Failed("Fase " + id + " não encontrada");
      }
      var doc := new PhaseDoc(phase.value);
      PhaseService.RenamePhase(doc, newName);
      project.phases := Put(project.phases, id, doc.Value());
      UpdateAndSave(today);
      o := Done;
    }

    /** `movePhase(id, newPosition)`: fails when the phase service refuses the move. */
    method MovePhase(id: string, newPosition: int, today: string) returns (o: Outcome)
      requires Valid()
      modifies this, project
      ensures Valid()
      ensures o.Failed? <==> PhaseService.MovedPhases(old(project.phases), id, newPosition).None?
      ensures o.Failed? ==> o.message == "Não foi possível mover a fase " + id && Rejected()
      ensures o.Done? ==> Committed(PhaseService.MovedPhases(old(project.phases), id, newPosition).value, today)
    {
      var moved := PhaseService.MovePhase(project, id, newPosition);
      if !moved {
        return Failed("Não foi possível mover a fase " + id);
      }
      UpdateAndSave(today);
      o := Done;
    }

    /** `removePhase(id)`. */
    method RemovePhase(id: string, today: string) returns (o: Outcome)
      requires Valid()
      modifies this, project
      ensures Valid()
      ensures o.Failed? <==> !HasKey(old(project.phases), id)
      ensures o.Failed? ==> o.message == "Fase " + id + " não encontrada" && Rejected()
      ensures o.Done? ==> Committed(Delete(old(project.phases), id), today)
      ensures o.Done? ==> !HasKey(project.phases, id) && |project.phases| == |old(project.phases)| - 1
    {
      DeleteProperties(project.phases, id);
      var removed := PhaseService.RemovePhase(project, id);
      if !removed {
        return Failed("Fase " + id + " não encontrada");
      }
      UpdateAndSave(today);
      o := Done;
    }

    /** `addTask(phaseId, taskId, name)`: a new top-level task is pushed, without any check
        that the id is free; `now` is its creation time. */
    method AddTask(phaseId: string, taskId: string, name: string, now: string, today: string)
      returns (o: Outcome)
      requires Valid()
      modifies this, project
      ensures Valid()
      ensures o.Failed? <==> !HasKey(old(project.phases), phaseId)
      ensures o.Failed? ==> o.message == "Fase " + phaseId + " não encontrada" && Rejected()
      ensures o.Done? ==>
        var p := Get(old(project.phases), phaseId).value;
        var t := TaskService.CreateTask(taskId, name, None, now);
        && Committed(Put(old(project.phases), phaseId, p.(tasks := p.tasks + [t])), today)
        && FlatTotal(Get(project.phases, phaseId).value.tasks) == FlatTotal(p.tasks) + 1
        && FlatCompleted(Get(project.phases, phaseId).value.tasks) == FlatCompleted(p.tasks)
    {
      var phase := Get(project.phases, phaseId);
      if phase.None? {
        return Failed("Fase " + phaseId + " não encontrada");
      }
      var doc := new PhaseDoc(phase.value);
      TaskService.AddTask(doc, taskId, name, now);
      AppendLeafCounts(phase.value.tasks, TaskService.CreateTask(taskId, name, None, now));
      project.phases := Put(project.phases, phaseId, doc.Value());
      UpdateAndSave(today);
      o := Done;
    }

    /** `addSubtask(phaseId, parentTaskId, subtaskId, name)`: the first node with the
        parent's id, at any depth, gets its list created if missing and the new subtask
        pushed onto it. The new node lands right after the parent's last descendant in
        pre-order, and nothing stops its id from being taken already. */
    method AddSubtask(phaseId: string, parentTaskId: string, subtaskId: string, name: string,
                      now: string, today: string) returns (o: Outcome)
      requires Valid()
      modifies this, project
      ensures Valid()
      ensures o.Failed? <==> TaskService.FindTask(old(project.Value()), phaseId, parentTaskId).task.None?
      ensures o.Failed? ==>
        o.message == "Tarefa pai " + parentTaskId + " não encontrada na fase " + phaseId && Rejected()
      ensures o.Done? ==>
        var p := Get(old(project.phases), phaseId).value;
        var parent := TaskService.FindInForest(p.tasks, parentTaskId).value;
        var child := TaskService.CreateTask(subtaskId, name, Some(parentTaskId), now);
        var after := TaskService.ReplaceInForest(p.tasks, parentTaskId, TaskService.WithSubtask(parent, child));
        && Committed(Put(old(project.phases), phaseId, p.(tasks := after)), today)
        && FlatTotal(after) == FlatTotal(p.tasks) + 1
        && FlatCompleted(after) == FlatCompleted(p.tasks)
        && TaskService.IdCount(TaskService.Marks(Flatten(after)), subtaskId)
           == TaskService.IdCount(TaskService.Marks(Flatten(p.tasks)), subtaskId) + 1
    {
      var found := TaskService.FindTask(project.Value(), phaseId, parentTaskId);
      if found.task.None? {
        return Failed("Tarefa pai " + parentTaskId + " não encontrada na fase " + phaseId);
      }
      var phase := found.phase.value;
      var parentTask := new TaskDoc(found.task.value);
      if parentTask.subtasks.Absent? {
        parentTask.subtasks := Present([]);
      }
      var subtask := TaskService.CreateTask(subtaskId, name, Some(parentTaskId), now);
      parentTask.subtasks := Present(parentTask.subtasks.items + [subtask]);
      TaskService.AddSubtaskInForest(phase.tasks, parentTaskId, subtask);
      project.phases := Put(project.phases, phaseId,
        phase.(tasks := TaskService.ReplaceInForest(phase.tasks, parentTaskId, parentTask.Value())));
      UpdateAndSave(today);
      o := Done;
    }

    /** `moveTask(sourcePhaseId, targetPhaseId, taskId)`: the first top-level task with the
        id leaves the source and is appended to the target. Naming the same phase twice
        moves the task to the end of that phase. */
    method MoveTask(sourcePhaseId: string, targetPhaseId: string, taskId: string, today: string)
      returns (o: Outcome)
      requires Valid()
      modifies this, project
      ensures Valid()
      ensures !HasKey(old(project.phases), sourcePhaseId) || !HasKey(old(project.phases), targetPhaseId) ==>
        o == Failed("Fase de origem ou destino não encontrada") && Rejected()
      ensures HasKey(old(project.phases), sourcePhaseId) && HasKey(old(project.phases), targetPhaseId) ==>
        && (o.Failed? <==> TaskMoved(old(project.phases), sourcePhaseId, targetPhaseId, taskId).None?)
        && (o.Failed? ==> o == Failed("Tarefa " + taskId + " não encontrada na fase " + sourcePhaseId) && Rejected())
        && (o.Done? ==> Committed(TaskMoved(old(project.phases), sourcePhaseId, targetPhaseId, taskId).value, today))
    {
      var sourcePhase := Get(project.phases, sourcePhaseId);
      var targetPhase := Get(project.phases, targetPhaseId);
      if sourcePhase.None? || targetPhase.None? {
        return Failed("Fase de origem ou destino não encontrada");
      }
      var r := MoveInRecord(project.phases, sourcePhaseId, targetPhaseId, taskId);
      if r.None? {
        return Failed("Tarefa " + taskId + " não encontrada na fase " + sourcePhaseId);
      }
      project.phases := r.value;
      UpdateAndSave(today);
      o := Done;
    }

    /** `completeTask(phaseId, taskId)`: the first node with the id, at any depth, is marked
        executed and its `updated_at` set to `now`. */
    method CompleteTask(phaseId: string, taskId: string, now: string, today: string) returns (o: Outcome)
      requires Valid()
      modifies this, project
      ensures Valid()
      ensures o.Failed? <==> TaskService.FindTask(old(project.Value()), phaseId, taskId).task.None?
      ensures o.Failed? ==> o.message == "Tarefa " + taskId + " não encontrada na fase " + phaseId && Rejected()
      ensures o.Done? ==> StatusSet(phaseId, taskId, true, now, today)
    {
      o := SetStatus(phaseId, taskId, true, now, today);
    }

    /** `pendingTask(phaseId, taskId)`: the same with the flag cleared. */
    method PendingTask(phaseId: string, taskId: string, now: string, today: string) returns (o: Outcome)
      requires Valid()
      modifies this, project
      ensures Valid()
      ensures o.Failed? <==> TaskService.FindTask(old(project.Value()), phaseId, taskId).task.None?
      ensures o.Failed? ==> o.message == "Tarefa " + taskId + " não encontrada na fase " + phaseId && Rejected()
      ensures o.Done? ==> StatusSet(phaseId, taskId, false, now, today)
    {
      o := SetStatus(phaseId, taskId, false, now, today);
    }

    /** The committed effect of a status change: only the found node's flag and timestamp
        change (the phase's own flag is not touched), the phase keeps its size, its
        completed count moves by the change of that one flag, and a second search finds
        the updated node. */
    twostate predicate StatusSet(phaseId: string, taskId: string, executed: bool, now: string, today: string)
      reads this, project
    {
      var p := Get(old(project.phases), phaseId);
      && p.Some? && TaskService.FindInForest(p.value.tasks, taskId).Some?
      && var t := TaskService.FindInForest(p.value.tasks, taskId).value;
      var after := TaskService.ReplaceInForest(p.value.tasks, taskId, TaskService.StatusUpdated(t, executed, now));
      && Committed(Put(old(project.phases), phaseId, p.value.(tasks := after)), today)
      && FlatTotal(after) == FlatTotal(p.value.tasks)
      && FlatCompleted(after) + (if t.executed then 1 else 0) == FlatCompleted(p.value.tasks) + (if executed then 1 else 0)
      && TaskService.FindInForest(after, taskId) == Some(TaskService.StatusUpdated(t, executed, now))
    }

    method SetStatus(phaseId: string, taskId: string, executed: bool, now: string, today: string)
      returns (o: Outcome)
      requires Valid()
      modifies this, project
      ensures Valid()
      ensures o.Failed? <==> TaskService.FindTask(old(project.Value()), phaseId, taskId).task.None?
      ensures o.Failed? ==> o.message == "Tarefa " + taskId + " não encontrada na fase " + phaseId && Rejected()
      ensures o.Done? ==> StatusSet(phaseId, taskId, executed, now, today)
    {
      var found := TaskService.FindTask(project.Value(), phaseId, taskId);
      if found.task.None? {
        return Failed("Tarefa " + taskId + " não encontrada na fase " + phaseId);
      }
      var phase := found.phase.value;
      var task := new TaskDoc(found.task.value);
      TaskService.UpdateTaskStatus(task, executed, now);
      TaskService.SetStatusInForest(phase.tasks, taskId, executed, now);
      TaskService.FindAfterReplace(phase.tasks, taskId, task.Value());
      project.phases := Put(project.phases, phaseId,
        phase.(tasks := TaskService.ReplaceInForest(phase.tasks, taskId, task.Value())));
      UpdateAndSave(today);
      o := Done;
    }

    /** `getProgress()`: the two project percentages. */
    method GetProgress() returns (r: ProgressReporter.Basic)
      ensures r == ProgressReporter.BasicOf(ProjectProgressOf(project.phases))
      ensures 0.0 <= r.tasks <= 100.0 && 0.0 <= r.phases <= 100.0
      ensures r.tasks == 100.0 <==>
        0 < FlatTotal(AllTasks(project.phases)) && FlatCompleted(AllTasks(project.phases)) == FlatTotal(AllTasks(project.phases))
    {
      var progress := ProgressCalculator.CalculateProjectProgress(project.Value());
      ProjectProgressBounds(project.phases);
      r := ProgressReporter.Basic(progress.tasks.percentage, progress.phases.percentage);
    }

    /** `getDetailedProgress()`. */
    method GetDetailedProgress() returns (r: ProgressReporter.Detailed)
      requires Valid()
      ensures r.geral == ProgressReporter.BasicOf(ProjectProgressOf(project.phases))
      ensures r.fases == MapValues(project.phases, ProgressReporter.ReportOf)
      ensures Keys(r.fases) == Keys(project.phases)
    {
      r := ProgressReporter.GetDetailedProgress(project.Value());
    }
  }

  /** Pushing one fresh leaf adds one node, and one completed node when it is executed. */
  lemma AppendLeafCounts(ts: seq<Task>, t: Task)
    requires t.subtasks == Absent
    ensures FlatTotal(ts + [t]) == FlatTotal(ts) + 1
    ensures FlatCompleted(ts + [t]) == FlatCompleted(ts) + (if t.executed then 1 else 0)
  {
    FlattenAppend(ts, [t]);
    LeavesFlat([t]);
    CountExecutedAppend(Flatten(ts), [t]);
    assert [t][1..] == [];
  }
}
