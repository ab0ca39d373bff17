/** `PhaseService`: creating, renaming, reordering and removing phases, and the recursive
    count of a phase's tasks at every depth. */
module PhaseService {
  import opened Model
  import Splice
  import Percent

  /** `createPhase(name)`. */
  function CreatePhase(name: string): (p: Phase)
    ensures p.name == name && !p.executed && p.tasks == []
  {
    Phase(name, false, [])
  }

  /** `renamePhase(phase, newName)`: only the name changes. */
  method RenamePhase(phase: PhaseDoc, newName: string)
    modifies phase
    ensures phase.Value() == old(phase.Value()).(name := newName)
  {
    phase.name := newName;
  }

  // ---------------------------------------------------------------------------
  // Reordering the phase record

  /** The entries after `movePhase(project, id, newPosition)`, or `None` when it returns
      `false`. */
  function MovedPhases(m: seq<PhaseEntry>, id: string, newPosition: int): (r: Option<seq<PhaseEntry>>)
    ensures r.None? <==> !HasKey(m, id) || newPosition < 0 || newPosition >= |m|
    ensures r.Some? ==>
      var k := KeyIndex(m, id).value;
      && |r.value| == |m|
      && r.value[newPosition] == m[k]
      && Splice.Remove(r.value, newPosition) == Splice.Remove(m, k)
      && multiset(r.value) == multiset(m)
  {
    match KeyIndex(m, id)
    case None => None
    case Some(k) =>
      if newPosition < 0 || newPosition >= |m| then None
      else
        Splice.MoveProperties(m, k, newPosition);
        Some(Splice.Move(m, k, newPosition))
  }

  lemma {:induction false} UniqueKeysRemove(m: seq<PhaseEntry>, i: nat)
    requires UniqueKeys(m) && i < |m|
    ensures UniqueKeys(Splice.Remove(m, i))
    ensures forall j :: 0 <= j < |m| - 1 ==> Splice.Remove(m, i)[j].0 != m[i].0
  {
    var r := Splice.Remove(m, i);
    forall a, b | 0 <= a < b < |r| ensures r[a].0 != r[b].0 {
      var a', b' := if a < i then a else a + 1, if b < i then b else b + 1;
      assert r[a] == m[a'] && r[b] == m[b'];
    }
    forall j | 0 <= j < |r| ensures r[j].0 != m[i].0 {
      var j' := if j < i then j else j + 1;
      assert r[j] == m[j'];
    }
  }

  lemma {:induction false} UniqueKeysInsert(m: seq<PhaseEntry>, i: nat, e: PhaseEntry)
    requires UniqueKeys(m) && i <= |m|
    requires forall j :: 0 <= j < |m| ==> m[j].0 != e.0
    ensures UniqueKeys(Splice.InsertAt(m, i, e))
  {
    var r := Splice.InsertAt(m, i, e);
    forall a, b | 0 <= a < b < |r| ensures r[a].0 != r[b].0 {
      if a != i && b != i {
        var a', b' := if a < i then a else a - 1, if b < i then b else b - 1;
        assert r[a] == m[a'] && r[b] == m[b'];
      } else if a == i {
        assert r[b] == m[b - 1];
      } else {
        assert r[a] == m[a];
      }
    }
  }

  /** With unique keys, a key is bound to a phase exactly when that pair is an entry. */
  lemma {:induction false} GetIffEntry(m: seq<PhaseEntry>, key: string, p: Phase)
    requires UniqueKeys(m)
    ensures Get(m, key) == Some(p) <==> (key, p) in m
  {
    if (key, p) in m {
      var i :| 0 <= i < |m| && m[i] == (key, p);
      GetUnique(m, i);
    }
  }

  /** Two unique-key entry lists holding the same pairs bind every key alike. */
  lemma {:induction false} SameEntriesSameGet(a: seq<PhaseEntry>, b: seq<PhaseEntry>)
    requires UniqueKeys(a) && UniqueKeys(b) && multiset(a) == multiset(b)
    ensures forall key :: Get(a, key) == Get(b, key)
  {
    forall key ensures Get(a, key) == Get(b, key) {
      match Get(a, key)
      case Some(p) =>
        GetIffEntry(a, key, p);
        assert (key, p) in multiset(a);
        GetIffEntry(b, key, p);
      case None =>
        if Get(b, key).Some? {
          var q := Get(b, key).value;
          GetIffEntry(b, key, q);
          assert (key, q) in multiset(b);
          GetIffEntry(a, key, q);
        }
    }
  }

  /** A successful move keeps the record well formed and every key bound to its phase. */
  lemma {:induction false} MovedPhasesKeepsBindings(m: seq<PhaseEntry>, id: string, newPosition: int)
    requires UniqueKeys(m) && MovedPhases(m, id, newPosition).Some?
    ensures UniqueKeys(MovedPhases(m, id, newPosition).value)
    ensures forall key :: Get(MovedPhases(m, id, newPosition).value, key) == Get(m, key)
    ensures MovedPhases(m, id, newPosition).value[newPosition].0 == id
  {
    var k := KeyIndex(m, id).value;
    var r := MovedPhases(m, id, newPosition).value;
    UniqueKeysRemove(m, k);
    UniqueKeysInsert(Splice.Remove(m, k), newPosition, m[k]);
    assert r == Splice.InsertAt(Splice.Remove(m, k), newPosition, m[k]);
    SameEntriesSameGet(r, m);
  }

  /** `movePhase`: the entries are spliced, then the record is rebuilt by assigning them
      one by one into a fresh object. */
  method MovePhase(project: ProjectDoc, id: string, newPosition: int) returns (moved: bool)
    requires project.Valid()
    modifies project
    ensures project.Valid()
    ensures moved == MovedPhases(old(project.phases), id, newPosition).Some?
    ensures project.phases == if moved then MovedPhases(old(project.phases), id, newPosition).value else old(project.phases)
    ensures project.name == old(project.name) && project.lastUpdate == old(project.lastUpdate)
  {
    var phases := project.phases;
    var currentIndex := KeyIndex(phases, id);
    if currentIndex.None? || newPosition < 0 || newPosition >= |phases| {
      return false;
    }
    var entry := phases[currentIndex.value];
    phases := Splice.Remove(phases, currentIndex.value);
    phases := Splice.InsertAt(phases, newPosition, entry);
    MovedPhasesKeepsBindings(project.phases, id, newPosition);
    var acc := Rebuild(phases);
    project.phases := acc;
    moved := true;
  }

  /** The `reduce` that assigns each entry into a fresh object, in order: with unique keys
      every assignment adds a new key last, so the record comes out in the entries' order. */
  method Rebuild(entries: seq<PhaseEntry>) returns (acc: seq<PhaseEntry>)
    requires UniqueKeys(entries)
    ensures acc == entries
  {
    acc := [];
    for i := 0 to |entries|
      invariant acc == entries[..i]
    {
      var (id, phase) := entries[i];
      assert !HasKey(acc, id);
      acc := Put(acc, id, phase);
      KeysAppend(entries[..i], id, phase);
      KeysSameFirsts(acc, entries[..i + 1]);
      assert entries[..i + 1] == entries[..i] + [(id, phase)];
    }
    assert entries[..|entries|] == entries;
  }

  /** `removePhase(project, id)`: `false` when the key is absent, else exactly that key is
      deleted. */
  method RemovePhase(project: ProjectDoc, id: string) returns (removed: bool)
    requires project.Valid()
    modifies project
    ensures project.Valid()
    ensures removed == HasKey(old(project.phases), id)
    ensures project.phases == Delete(old(project.phases), id)
    ensures project.name == old(project.name) && project.lastUpdate == old(project.lastUpdate)
  {
    if Get(project.phases, id).None? {
      return false;
    }
    DeleteProperties(project.phases, id);
    project.phases := Delete(project.phases, id);
    removed := true;
  }

  // ---------------------------------------------------------------------------
  // Progress of one phase

  datatype PhaseProgress = PhaseProgress(completed: nat, total: nat, percentage: real)

  /** The closure `countTasks`: visits each task, counts it, then recurses into its
      subtasks, adding to the running counters. */
  method CountTasks(tasks: seq<Task>, completed0: nat, total0: nat) returns (completed: nat, total: nat)
    ensures total == total0 + FlatTotal(tasks)
    ensures completed == completed0 + FlatCompleted(tasks)
    decreases tasks
  {
    completed, total := completed0, total0;
    for i := 0 to |tasks|
      invariant total == total0 + FlatTotal(tasks[..i])
      invariant completed == completed0 + FlatCompleted(tasks[..i])
    {
      var task := tasks[i];
      total := total + 1;
      if task.executed {
        completed := completed + 1;
      }
      var below: seq<Task> := [];
      if task.subtasks.Present? {
        below := task.subtasks.items;
        assert task.subtasks < task;
        completed, total := CountTasks(below, completed, total);
      }
      assert Flatten(below) == FlattenSubtasks(task);
      StepCounts(tasks, i);
    }
    assert tasks[..|tasks|] == tasks;
  }

  /** Counting the tasks before index `i` and then the subtree of `tasks[i]`. */
  lemma StepCounts(tasks: seq<Task>, i: nat)
    requires i < |tasks|
    ensures FlatTotal(tasks[..i + 1]) == FlatTotal(tasks[..i]) + 1 + |FlattenSubtasks(tasks[i])|
    ensures FlatCompleted(tasks[..i + 1]) ==
      FlatCompleted(tasks[..i]) + (if tasks[i].executed then 1 else 0) + CountExecuted(FlattenSubtasks(tasks[i]))
  {
    assert tasks[..i + 1] == tasks[..i] + [tasks[i]];
    FlattenAppend(tasks[..i], [tasks[i]]);
    assert Flatten([tasks[i]]) == FlattenTask(tasks[i]) + Flatten([tasks[i]][1..]);
    assert Flatten([tasks[i]]) == [tasks[i]] + FlattenSubtasks(tasks[i]);
    CountExecutedAppend(Flatten(tasks[..i]), [tasks[i]] + FlattenSubtasks(tasks[i]));
    CountExecutedAppend([tasks[i]], FlattenSubtasks(tasks[i]));
  }

  /** `calculatePhaseProgress(phase)`: every task at every depth is counted once. */
  method CalculatePhaseProgress(phase: Phase) returns (r: PhaseProgress)
    ensures r.total == FlatTotal(phase.tasks) && r.completed == FlatCompleted(phase.tasks)
    ensures r.percentage == Percent.Percentage(r.completed, r.total)
  {
    var completed, total := CountTasks(phase.tasks, 0, 0);
    var percentage := if total > 0 then (completed as real / total as real) * 100.0 else 0.0;
    r := PhaseProgress(completed, total, percentage);
  }

  function Leaf(id: string, done: bool, now: string): Task
  {
    Task(id, id, done, Absent, None, None, now, now)
  }

  /** The counts of the phase-progress examples: a task with one done and one open
      subtask, a fully done chain of three levels, no tasks, and an open parent over two
      done subtasks. */
  lemma PhaseProgressExamples(now: string)
    ensures
      var mixed := [Task("1", "1", true, Present([Leaf("1.1", true, now), Leaf("1.2", false, now)]), None, None, now, now)];
      && FlatCompleted(mixed) == 2 && FlatTotal(mixed) == 3
    ensures
      var chain := [Task("1", "1", true, Present([Task("1.1", "1.1", true, Present([Leaf("1.1.1", true, now)]), None, None, now, now)]), None, None, now, now)];
      && FlatCompleted(chain) == 3 && FlatTotal(chain) == 3 && Percent.Percentage(3, 3) == 100.0
    ensures FlatCompleted([]) == 0 && FlatTotal([]) == 0 && Percent.Percentage(0, 0) == 0.0
    ensures
      var openParent := [Task("1", "1", false, Present([Leaf("1.1", true, now), Leaf("1.2", true, now)]), None, None, now, now)];
      && FlatCompleted(openParent) == 2 && FlatTotal(openParent) == 3
  {
    var a, b := Leaf("1.1", true, now), Leaf("1.2", false, now);
    var t := Task("1", "1", true, Present([a, b]), None, None, now, now);
    TwoLeaves(t, a, b);
    var c := Leaf("1.1.1", true, now);
    var m := Task("1.1", "1.1", true, Present([c]), None, None, now, now);
    var top := Task("1", "1", true, Present([m]), None, None, now, now);
    OneChild(m, c);
    OneChild(top, m);
    assert Flatten([top]) == [top, m, c] by {
      FlattenSingle(top);
      assert FlattenTask(c) == [c] + FlattenSubtasks(c);
    }
    assert [top, m, c][1..] == [m, c] && [m, c][1..] == [c] && [c][1..] == [];
    assert CountExecuted([c]) == 1 + CountExecuted([]);
    assert CountExecuted([m, c]) == 1 + CountExecuted([c]);
    assert CountExecuted([top, m, c]) == 3;
    var b' := Leaf("1.2", true, now);
    var o := Task("1", "1", false, Present([a, b']), None, None, now, now);
    TwoLeaves(o, a, b');
  }

  lemma TwoLeaves(t: Task, a: Task, b: Task)
    requires t.subtasks == Present([a, b]) && a.subtasks == Absent && b.subtasks == Absent
    ensures Flatten([t]) == [t, a, b]
    ensures CountExecuted([t, a, b]) == (if t.executed then 1 else 0) + (if a.executed then 1 else 0) + (if b.executed then 1 else 0)
  {
    FlattenSingle(b);
    assert FlattenSubtasks(b) == [];
    assert [a, b][1..] == [b];
    assert Flatten([a, b]) == FlattenTask(a) + Flatten([b]);
    assert FlattenSubtasks(a) == [];
    FlattenSingle(t);
    assert [t, a, b][1..] == [a, b] && [a, b][1..] == [b] && [b][1..] == [];
    assert CountExecuted([b]) == (if b.executed then 1 else 0) + CountExecuted([]);
    assert CountExecuted([a, b]) == (if a.executed then 1 else 0) + CountExecuted([b]);
  }

  lemma OneChild(t: Task, c: Task)
    requires t.subtasks == Present([c])
    ensures FlattenTask(t) == [t] + FlattenTask(c)
  {
    FlattenSingle(c);
  }
}
