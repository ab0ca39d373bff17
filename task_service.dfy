/** `TaskService`: finding a task anywhere in a phase's forest, creating tasks, and the
    in-place edits of a phase's top-level array and of a task's fields. */
module TaskService {
  import opened Model
  import Splice

  // ---------------------------------------------------------------------------
  // Depth-first search

  /** `findTaskRecursive` on a single node: the node itself, else its subtasks. */
  function FindInTask(t: Task, id: string): (r: Option<Task>)
    decreases t, 1
    ensures r.Some? ==> r.value.id == id
  {
    if t.id == id then Some(t) else FindBelow(t, id)
  }

  function FindBelow(t: Task, id: string): (r: Option<Task>)
    decreases t, 0
    ensures r.Some? ==> r.value.id == id
  {
    match t
    case Task(_, _, _, Present(ss), _, _, _, _) => FindInForest(ss, id)
    case _ => None
  }

  /** `findTaskRecursive(tasks)`: siblings left to right, each one searched in full before
      the next. */
  function FindInForest(ts: seq<Task>, id: string): (r: Option<Task>)
    decreases ts
    ensures r.Some? ==> r.value.id == id
  {
    if ts == [] then None
    else match FindInTask(ts[0], id)
      case Some(found) => Some(found)
      case None => FindInForest(ts[1..], id)
  }

  /** First index of a task with `id` in a flat sequence: `findIndex(t => t.id === id)`. */
  function IndexOfId(s: seq<Task>, id: string): (r: Option<nat>)
    ensures r.Some? ==> r.value < |s| && s[r.value].id == id
    ensures r.Some? ==> forall j :: 0 <= j < r.value ==> s[j].id != id
    ensures r.None? <==> forall j :: 0 <= j < |s| ==> s[j].id != id
  {
    if s == [] then None
    else if s[0].id == id then Some(0)
    else match IndexOfId(s[1..], id)
      case None => None
      case Some(k) => Some(k + 1)
  }

  /** The first node with `id` in a flat sequence. */
  function FirstWithId(s: seq<Task>, id: string): Option<Task>
  {
    match IndexOfId(s, id)
    case None => None
    case Some(k) => Some(s[k])
  }

  lemma {:induction false} IndexOfIdAppend(a: seq<Task>, b: seq<Task>, id: string)
    ensures IndexOfId(a + b, id) ==
      match IndexOfId(a, id)
      case Some(k) => Some(k)
      case None => match IndexOfId(b, id) case None => None case Some(k) => Some(|a| + k)
  {
    if a == [] {
      assert a + b == b;
    } else {
      assert (a + b)[0] == a[0];
      assert (a + b)[1..] == a[1..] + b;
      IndexOfIdAppend(a[1..], b, id);
    }
  }

  /** The recursive search returns the first node with the id in pre-order. */
  lemma {:induction false} FindIsPreOrder(ts: seq<Task>, id: string)
    ensures FindInForest(ts, id) == FirstWithId(Flatten(ts), id)
    decreases ts
  {
    if ts != [] {
      FindInTaskIsPreOrder(ts[0], id);
      FindIsPreOrder(ts[1..], id);
      IndexOfIdAppend(FlattenTask(ts[0]), Flatten(ts[1..]), id);
    }
  }

  lemma {:induction false} FindInTaskIsPreOrder(t: Task, id: string)
    ensures FindInTask(t, id) == FirstWithId(FlattenTask(t), id)
    decreases t
  {
    IndexOfIdAppend([t], FlattenSubtasks(t), id);
    match t
    case Task(_, _, _, Present(ss), _, _, _, _) => FindIsPreOrder(ss, id);
    case _ =>
  }

  /** Nothing is found exactly when no node of the forest, at any depth, has the id. */
  lemma FindNoneIffAbsent(ts: seq<Task>, id: string)
    ensures FindInForest(ts, id).None? <==> forall t :: t in Flatten(ts) ==> t.id != id
  {
    FindIsPreOrder(ts, id);
  }

  /** `findTask`'s result: `{ task, phase }`. */
  datatype Found = Found(task: Option<Task>, phase: Option<Phase>)

  /** `findTask(project, phaseId, taskId)`: no phase means no task either; with the phase,
      the task is the first pre-order node with the id. */
  function FindTask(project: Project, phaseId: string, taskId: string): (r: Found)
    ensures r.phase.None? <==> !HasKey(project.phases, phaseId)
    ensures r.phase.None? ==> r.task.None?
    ensures r.phase.Some? ==> Get(project.phases, phaseId) == r.phase
    ensures r.phase.Some? ==> r.task == FirstWithId(Flatten(r.phase.value.tasks), taskId)
  {
    match Get(project.phases, phaseId)
    case None => Found(None, None)
    case Some(phase) =>
      FindIsPreOrder(phase.tasks, taskId);
      Found(FindInForest(phase.tasks, taskId), Some(phase))
  }

  // ---------------------------------------------------------------------------
  // Creating and editing tasks

  /** `createTask(id, name, parentId?)`; `now` stands for `new Date().toISOString()`. */
  function CreateTask(id: string, name: string, parentId: Option<string>, now: string): (t: Task)
    ensures t.id == id && t.name == name && t.parentId == parentId
    ensures !t.executed && t.subtasks == Absent && t.description == None
    ensures t.createdAt == now && t.updatedAt == now
  {
    Task(id, name, false, Absent, parentId, None, now, now)
  }

  /** `addTask(phase, id, name)`: one new task at the end, nothing else touched. */
  method AddTask(phase: PhaseDoc, id: string, name: string, now: string)
    modifies phase
    ensures phase.tasks == old(phase.tasks) + [CreateTask(id, name, None, now)]
    ensures phase.name == old(phase.name) && phase.executed == old(phase.executed)
  {
    var task := CreateTask(id, name, None, now);
    phase.tasks := phase.tasks + [task];
  }

  /** The task after `updateTaskStatus(task, executed)`. */
  function StatusUpdated(t: Task, executed: bool, now: string): (r: Task)
    ensures r.executed == executed && r.updatedAt == now
    ensures r.(executed := t.executed, updatedAt := t.updatedAt) == t
  {
    t.(executed := executed, updatedAt := now)
  }

  /** The task after `renameTask(task, newName)`. */
  function Renamed(t: Task, newName: string, now: string): (r: Task)
    ensures r.name == newName && r.updatedAt == now
    ensures r.(name := t.name, updatedAt := t.updatedAt) == t
  {
    t.(name := newName, updatedAt := now)
  }

  /** Setting the same status twice leaves the flag where the first call put it. */
  lemma StatusUpdateIdempotent(t: Task, executed: bool, now1: string, now2: string)
    ensures StatusUpdated(StatusUpdated(t, executed, now1), executed, now2).executed == executed
    ensures StatusUpdated(StatusUpdated(t, executed, now1), executed, now2) == StatusUpdated(t, executed, now2)
  {
  }

  method UpdateTaskStatus(task: TaskDoc, executed: bool, now: string)
    modifies task
    ensures task.Value() == StatusUpdated(old(task.Value()), executed, now)
  {
    task.executed := executed;
    task.updatedAt := now;
  }

  method RenameTask(task: TaskDoc, newName: string, now: string)
    modifies task
    ensures task.Value() == Renamed(old(task.Value()), newName, now)
  {
    task.name := newName;
    task.updatedAt := now;
  }

  /** `findTaskById(phase, id)`: the first top-level task with the id; subtasks are not
      searched. */
  function FindTaskById(phase: Phase, id: string): (r: Option<Task>)
    ensures r.Some? ==> r.value in phase.tasks && r.value.id == id
    ensures r.Some? ==> IndexOfId(phase.tasks, id).Some? && r.value == phase.tasks[IndexOfId(phase.tasks, id).value]
    ensures r.None? <==> forall t :: t in phase.tasks ==> t.id != id
  {
    FirstWithId(phase.tasks, id)
  }

  // ---------------------------------------------------------------------------
  // Reordering

  /** `moveTask`'s effect on the array, or `None` when it returns `false`. */
  function MovedWithin(tasks: seq<Task>, id: string, newPosition: int): (r: Option<seq<Task>>)
    ensures r.None? <==> IndexOfId(tasks, id).None? || newPosition < 0 || newPosition >= |tasks|
    ensures r.Some? ==>
      var k := IndexOfId(tasks, id).value;
      && |r.value| == |tasks|
      && multiset(r.value) == multiset(tasks)
      && r.value[newPosition] == tasks[k]
      && Splice.Remove(r.value, newPosition) == Splice.Remove(tasks, k)
  {
    match IndexOfId(tasks, id)
    case None => None
    case Some(k) =>
      if newPosition < 0 || newPosition >= |tasks| then None
      else
        Splice.MoveProperties(tasks, k, newPosition);
        Some(Splice.Move(tasks, k, newPosition))
  }

  method MoveTask(phase: PhaseDoc, id: string, newPosition: int) returns (moved: bool)
    modifies phase
    ensures moved == MovedWithin(old(phase.tasks), id, newPosition).Some?
    ensures phase.tasks == if moved then MovedWithin(old(phase.tasks), id, newPosition).value else old(phase.tasks)
    ensures phase.name == old(phase.name) && phase.executed == old(phase.executed)
  {
    var taskIndex := IndexOfId(phase.tasks, id);
    if taskIndex.None? || newPosition < 0 || newPosition >= |phase.tasks| {
      return false;
    }
    var task := phase.tasks[taskIndex.value];
    phase.tasks := Splice.Remove(phase.tasks, taskIndex.value);
    phase.tasks := Splice.InsertAt(phase.tasks, newPosition, task);
    moved := true;
  }

  /** `moveTaskBetweenPhases` on two different phases: the source loses the task, the
      target gains it at `newPosition` (which may be the target's length). */
  function MovedAcross(source: seq<Task>, target: seq<Task>, id: string, newPosition: int)
    : (r: Option<(seq<Task>, seq<Task>)>)
    ensures r.None? <==> IndexOfId(source, id).None? || newPosition < 0 || newPosition > |target|
    ensures r.Some? ==>
      var k := IndexOfId(source, id).value;
      && r.value.0 == Splice.Remove(source, k)
      && |r.value.0| == |source| - 1 && |r.value.1| == |target| + 1
      && r.value.1[newPosition] == source[k]
      && Splice.Remove(r.value.1, newPosition) == target
      && multiset(r.value.0) + multiset(r.value.1) == multiset(source) + multiset(target)
  {
    match IndexOfId(source, id)
    case None => None
    case Some(k) =>
      if newPosition < 0 || newPosition > |target| then None
      else
        var moved := Splice.InsertAt(target, newPosition, source[k]);
        assert Splice.Remove(moved, newPosition) == target;
        Some((Splice.Remove(source, k), moved))
  }

  /** The source and the target may be the same phase object: the task is then cut out
      first and put back at `newPosition` of the shortened array, at its end when
      `newPosition` equals the original length. */
  method MoveTaskBetweenPhases(source: PhaseDoc, target: PhaseDoc, id: string, newPosition: int)
    returns (moved: bool)
    modifies source, target
    ensures source != target ==>
      && moved == MovedAcross(old(source.tasks), old(target.tasks), id, newPosition).Some?
      && (source.tasks, target.tasks) ==
           if moved then MovedAcross(old(source.tasks), old(target.tasks), id, newPosition).value
           else (old(source.tasks), old(target.tasks))
    ensures source == target ==>
      && moved == (IndexOfId(old(source.tasks), id).Some? && 0 <= newPosition <= |old(source.tasks)|)
      && source.tasks ==
           if moved then
             var k := IndexOfId(old(source.tasks), id).value;
             Splice.InsertAt(Splice.Remove(old(source.tasks), k), newPosition, old(source.tasks)[k])
           else old(source.tasks)
    ensures source.name == old(source.name) && source.executed == old(source.executed)
    ensures target.name == old(target.name) && target.executed == old(target.executed)
  {
    var taskIndex := IndexOfId(source.tasks, id);
    if taskIndex.None? || newPosition < 0 || newPosition > |target.tasks| {
      return false;
    }
    var task := source.tasks[taskIndex.value];
    source.tasks := Splice.Remove(source.tasks, taskIndex.value);
    target.tasks := Splice.InsertAt(target.tasks, newPosition, task);
    moved := true;
  }

  // ---------------------------------------------------------------------------
  // Writing through the reference that `findTask` returns

  /** The forest after the first pre-order node with `id` is replaced by `n`: what an
      assignment to a field of the object found by `findTask` does to the phase. */
  function ReplaceInForest(ts: seq<Task>, id: string, n: Task): seq<Task>
    decreases ts
  {
    if ts == [] then []
    else if FindInTask(ts[0], id).Some? then [ReplaceInTask(ts[0], id, n)] + ts[1..]
    else [ts[0]] + ReplaceInForest(ts[1..], id, n)
  }

  function ReplaceInTask(t: Task, id: string, n: Task): Task
    decreases t, 1
  {
    if t.id == id then n else ReplaceBelow(t, id, n)
  }

  function ReplaceBelow(t: Task, id: string, n: Task): Task
    decreases t, 0
  {
    match t
    case Task(i, nm, e, Present(ss), p, d, c, u) => Task(i, nm, e, Present(ReplaceInForest(ss, id, n)), p, d, c, u)
    case _ => t
  }

  /** What the counts see of a node: its id and its flag. */
  datatype Mark = Mark(id: string, executed: bool)

  function Marks(s: seq<Task>): (r: seq<Mark>)
    ensures |r| == |s|
  {
    if s == [] then [] else [Mark(s[0].id, s[0].executed)] + Marks(s[1..])
  }

  lemma {:induction false} MarksAppend(a: seq<Task>, b: seq<Task>)
    ensures Marks(a + b) == Marks(a) + Marks(b)
  {
    if a == [] {
      assert a + b == b;
    } else {
      assert (a + b)[0] == a[0];
      assert (a + b)[1..] == a[1..] + b;
      MarksAppend(a[1..], b);
    }
  }

  /** Replacing the first node with `id` splices the new node's subtree into the pre-order
      in place of the old one's; the ancestors and every other node keep their id and flag.
      `pre` and `post` are the nodes before and after the replaced subtree. */
  lemma {:induction false} ReplaceSplicesPreOrder(ts: seq<Task>, id: string, n: Task)
    returns (pre: seq<Task>, post: seq<Task>)
    requires FindInForest(ts, id).Some?
    ensures Flatten(ts) == pre + FlattenTask(FindInForest(ts, id).value) + post
    ensures IndexOfId(pre, id).None?
    ensures Marks(Flatten(ReplaceInForest(ts, id, n))) == Marks(pre) + Marks(FlattenTask(n)) + Marks(post)
    decreases ts, 1
  {
    if FindInTask(ts[0], id).Some? {
      pre, post := ReplaceSplicesHead(ts, id, n);
    } else {
      pre, post := ReplaceSplicesRest(ts, id, n);
    }
  }

  /** The first match lies in the first tree of the forest. */
  lemma {:induction false} ReplaceSplicesHead(ts: seq<Task>, id: string, n: Task)
    returns (pre: seq<Task>, post: seq<Task>)
    requires ts != [] && FindInTask(ts[0], id).Some?
    ensures Flatten(ts) == pre + FlattenTask(FindInForest(ts, id).value) + post
    ensures IndexOfId(pre, id).None?
    ensures Marks(Flatten(ReplaceInForest(ts, id, n))) == Marks(pre) + Marks(FlattenTask(n)) + Marks(post)
    decreases ts, 0
  {
    var rest := ts[1..];
    var r := ReplaceInForest(ts, id, n);
    assert Flatten(ts) == FlattenTask(ts[0]) + Flatten(rest);
    var p, q := ReplaceSplicesTask(ts[0], id, n);
    pre, post := p, q + Flatten(rest);
    var t0 := ReplaceInTask(ts[0], id, n);
    assert r == [t0] + rest;
    assert Flatten(r) == FlattenTask(t0) + Flatten(rest) by {
      assert r[0] == t0 && r[1..] == rest;
    }
    calc {
      Marks(Flatten(r));
      { MarksAppend(FlattenTask(t0), Flatten(rest)); }
      Marks(FlattenTask(t0)) + Marks(Flatten(rest));
      (Marks(p) + Marks(FlattenTask(n)) + Marks(q)) + Marks(Flatten(rest));
      Marks(p) + Marks(FlattenTask(n)) + (Marks(q) + Marks(Flatten(rest)));
      { MarksAppend(q, Flatten(rest)); }
      Marks(pre) + Marks(FlattenTask(n)) + Marks(post);
    }
  }

  /** The first tree holds no match, so the match lies further right. */
  lemma {:induction false} ReplaceSplicesRest(ts: seq<Task>, id: string, n: Task)
    returns (pre: seq<Task>, post: seq<Task>)
    requires ts != [] && FindInTask(ts[0], id).None? && FindInForest(ts, id).Some?
    ensures Flatten(ts) == pre + FlattenTask(FindInForest(ts, id).value) + post
    ensures IndexOfId(pre, id).None?
    ensures Marks(Flatten(ReplaceInForest(ts, id, n))) == Marks(pre) + Marks(FlattenTask(n)) + Marks(post)
    decreases ts, 0
  {
    var rest := ts[1..];
    var head := FlattenTask(ts[0]);
    var p, q := ReplaceSplicesPreOrder(rest, id, n);
    pre, post := head + p, q;
    var found := FindInForest(rest, id).value;
    assert FindInForest(ts, id) == Some(found);
    calc {
      Flatten(ts);
      head + Flatten(rest);
      head + (p + FlattenTask(found) + q);
      pre + FlattenTask(found) + post;
    }
    FindInTaskIsPreOrder(ts[0], id);
    IndexOfIdAppend(head, p, id);
    var r := ReplaceInForest(ts, id, n);
    var r1 := ReplaceInForest(rest, id, n);
    assert r == [ts[0]] + r1;
    assert Flatten(r) == head + Flatten(r1) by {
      assert r[0] == ts[0] && r[1..] == r1;
    }
    calc {
      Marks(Flatten(r));
      { MarksAppend(head, Flatten(r1)); }
      Marks(head) + Marks(Flatten(r1));
      Marks(head) + (Marks(p) + Marks(FlattenTask(n)) + Marks(q));
      (Marks(head) + Marks(p)) + Marks(FlattenTask(n)) + Marks(q);
      { MarksAppend(head, p); }
      Marks(pre) + Marks(FlattenTask(n)) + Marks(post);
    }
  }

  lemma {:induction false} ReplaceSplicesTask(t: Task, id: string, n: Task)
    returns (pre: seq<Task>, post: seq<Task>)
    requires FindInTask(t, id).Some?
    ensures FlattenTask(t) == pre + FlattenTask(FindInTask(t, id).value) + post
    ensures IndexOfId(pre, id).None?
    ensures Marks(FlattenTask(ReplaceInTask(t, id, n))) == Marks(pre) + Marks(FlattenTask(n)) + Marks(post)
    decreases t
  {
    if t.id == id {
      pre, post := [], [];
    } else {
      pre, post := ReplaceSplicesBelow(t, id, n);
    }
  }

  /** The match lies strictly below `t`: `t` itself is kept, with its subtasks replaced. */
  lemma {:induction false} ReplaceSplicesBelow(t: Task, id: string, n: Task)
    returns (pre: seq<Task>, post: seq<Task>)
    requires t.id != id && FindBelow(t, id).Some?
    ensures FlattenTask(t) == pre + FlattenTask(FindInTask(t, id).value) + post
    ensures IndexOfId(pre, id).None?
    ensures Marks(FlattenTask(ReplaceInTask(t, id, n))) == Marks(pre) + Marks(FlattenTask(n)) + Marks(post)
    decreases t, 0
  {
    assert t.subtasks.Present?;
    var ss := t.subtasks.items;
    assert FindBelow(t, id) == FindInForest(ss, id);
    var p, q := ReplaceSplicesPreOrder(ss, id, n);
    pre, post := [t] + p, q;
    var found := FindInForest(ss, id).value;
    assert FlattenSubtasks(t) == Flatten(ss);
    calc {
      FlattenTask(t);
      [t] + Flatten(ss);
      [t] + (p + FlattenTask(found) + q);
      pre + FlattenTask(found) + post;
    }
    assert IndexOfId(pre, id).None? by {
      IndexOfIdAppend([t], p, id);
    }
    var r1 := ReplaceInForest(ss, id, n);
    var t' := t.(subtasks := Present(r1));
    assert ReplaceInTask(t, id, n) == t';
    assert FlattenTask(t') == [t'] + Flatten(r1);
    assert Marks([t']) == Marks([t]);
    calc {
      Marks(FlattenTask(t'));
      { MarksAppend([t'], Flatten(r1)); }
      Marks([t']) + Marks(Flatten(r1));
      Marks([t]) + (Marks(p) + Marks(FlattenTask(n)) + Marks(q));
      (Marks([t]) + Marks(p)) + Marks(FlattenTask(n)) + Marks(q);
      { MarksAppend([t], p); }
      Marks(pre) + Marks(FlattenTask(n)) + Marks(post);
    }
  }

  /** Writing the first match and searching again finds the written node. */
  lemma {:induction false} FindAfterReplace(ts: seq<Task>, id: string, n: Task)
    requires FindInForest(ts, id).Some? && n.id == id
    ensures FindInForest(ReplaceInForest(ts, id, n), id) == Some(n)
    decreases ts
  {
    var r := ReplaceInForest(ts, id, n);
    if FindInTask(ts[0], id).Some? {
      FindAfterReplaceTask(ts[0], id, n);
      assert r[0] == ReplaceInTask(ts[0], id, n);
    } else {
      FindAfterReplace(ts[1..], id, n);
      assert r[0] == ts[0] && r[1..] == ReplaceInForest(ts[1..], id, n);
    }
  }

  lemma {:induction false} FindAfterReplaceTask(t: Task, id: string, n: Task)
    requires FindInTask(t, id).Some? && n.id == id
    ensures FindInTask(ReplaceInTask(t, id, n), id) == Some(n)
    decreases t
  {
    if t.id != id {
      assert t.subtasks.Present?;
      var ss := t.subtasks.items;
      FindAfterReplace(ss, id, n);
      var t' := t.(subtasks := Present(ReplaceInForest(ss, id, n)));
      assert ReplaceInTask(t, id, n) == t';
      assert FindBelow(t', id) == FindInForest(ReplaceInForest(ss, id, n), id);
    }
  }

  // ---------------------------------------------------------------------------
  // Counting over marks

  function DoneCount(ms: seq<Mark>): (c: nat)
    ensures c <= |ms|
  {
    if ms == [] then 0 else (if ms[0].executed then 1 else 0) + DoneCount(ms[1..])
  }

  lemma {:induction false} DoneCountAppend(a: seq<Mark>, b: seq<Mark>)
    ensures DoneCount(a + b) == DoneCount(a) + DoneCount(b)
  {
    if a == [] {
      assert a + b == b;
    } else {
      assert (a + b)[1..] == a[1..] + b;
      DoneCountAppend(a[1..], b);
    }
  }

  lemma {:induction false} CountExecutedIsDoneCount(s: seq<Task>)
    ensures CountExecuted(s) == DoneCount(Marks(s))
  {
    if s != [] {
      CountExecutedIsDoneCount(s[1..]);
    }
  }

  /** How many nodes carry `id`. */
  function IdCount(ms: seq<Mark>, id: string): (c: nat)
    ensures c <= |ms|
  {
    if ms == [] then 0 else (if ms[0].id == id then 1 else 0) + IdCount(ms[1..], id)
  }

  lemma {:induction false} IdCountAppend(a: seq<Mark>, b: seq<Mark>, id: string)
    ensures IdCount(a + b, id) == IdCount(a, id) + IdCount(b, id)
  {
    if a == [] {
      assert a + b == b;
    } else {
      assert (a + b)[1..] == a[1..] + b;
      IdCountAppend(a[1..], b, id);
    }
  }

  lemma {:induction false} IdCountZero(s: seq<Task>, id: string)
    ensures IdCount(Marks(s), id) == 0 <==> IndexOfId(s, id).None?
  {
    if s != [] {
      IdCountZero(s[1..], id);
    }
  }

  /** The search fails exactly when no node of the forest carries the id. */
  lemma FindNoneIffNoMark(ts: seq<Task>, id: string)
    ensures FindInForest(ts, id).None? <==> IdCount(Marks(Flatten(ts)), id) == 0
  {
    FindIsPreOrder(ts, id);
    IdCountZero(Flatten(ts), id);
  }

  // ---------------------------------------------------------------------------
  // What the orchestrators write through a found task

  /** `if (!task.subtasks) task.subtasks = []`. */
  function WithSubtaskList(t: Task): (r: Task)
    ensures r.subtasks.Present?
    ensures t.subtasks.Present? ==> r == t
    ensures t.subtasks.Absent? ==> r == t.(subtasks := Present([]))
  {
    if t.subtasks.Absent? then t.(subtasks := Present([])) else t
  }

  /** `task.subtasks.push(child)` once the list exists. */
  function WithSubtask(t: Task, child: Task): (r: Task)
    ensures r.subtasks == Present(WithSubtaskList(t).subtasks.items + [child])
    ensures r.(subtasks := t.subtasks) == t
  {
    var l := WithSubtaskList(t);
    l.(subtasks := Present(l.subtasks.items + [child]))
  }

  /** The marks of a subtree: its root's, then those of the nodes below it. */
  lemma MarksOfTask(t: Task)
    ensures Marks(FlattenTask(t)) == [Mark(t.id, t.executed)] + Marks(FlattenSubtasks(t))
  {
    MarksAppend([t], FlattenSubtasks(t));
  }

  /** `ReplaceSplicesPreOrder` read on marks, with the position of the replaced node. */
  lemma {:induction false} ReplaceMarks(ts: seq<Task>, id: string, n: Task)
    returns (pre: seq<Mark>, post: seq<Mark>)
    requires FindInForest(ts, id).Some?
    ensures IndexOfId(Flatten(ts), id) == Some(|pre|)
    ensures Marks(Flatten(ts)) == pre + Marks(FlattenTask(FindInForest(ts, id).value)) + post
    ensures Marks(Flatten(ReplaceInForest(ts, id, n))) == pre + Marks(FlattenTask(n)) + post
  {
    var t := FindInForest(ts, id).value;
    var p, q := ReplaceSplicesPreOrder(ts, id, n);
    pre, post := Marks(p), Marks(q);
    IndexOfIdAppend(p, FlattenTask(t) + q, id);
    assert Flatten(ts) == p + (FlattenTask(t) + q);
    MarksAppend(p, FlattenTask(t));
    MarksAppend(p + FlattenTask(t), q);
  }

  /** Setting the flag of the first node with `id`: that node's mark changes and every
      other node of the forest keeps its id and flag; nothing is added or removed. */
  lemma {:induction false} SetStatusMarks(ts: seq<Task>, id: string, executed: bool, now: string)
    requires FindInForest(ts, id).Some?
    ensures IndexOfId(Flatten(ts), id).Some?
    ensures
      var t := FindInForest(ts, id).value;
      var after := ReplaceInForest(ts, id, StatusUpdated(t, executed, now));
      var j := IndexOfId(Flatten(ts), id).value;
      && Marks(Flatten(ts))[j] == Mark(id, t.executed)
      && Marks(Flatten(after)) == Marks(Flatten(ts))[j := Mark(id, executed)]
  {
    var t := FindInForest(ts, id).value;
    var n := StatusUpdated(t, executed, now);
    var pre, post := ReplaceMarks(ts, id, n);
    var below := Marks(FlattenSubtasks(t));
    assert FlattenSubtasks(n) == FlattenSubtasks(t);
    MarksOfTask(t);
    MarksOfTask(n);
    assert Marks(Flatten(ts)) == pre + [Mark(id, t.executed)] + (below + post);
    assert Marks(Flatten(ReplaceInForest(ts, id, n))) == pre + [Mark(id, executed)] + (below + post);
    UpdateMiddle(pre, Mark(id, t.executed), Mark(id, executed), below + post);
  }

  lemma UpdateMiddle<T>(pre: seq<T>, a: T, b: T, post: seq<T>)
    ensures (pre + [a] + post)[|pre|] == a
    ensures (pre + [a] + post)[|pre| := b] == pre + [b] + post
  {
    var l, r := (pre + [a] + post)[|pre| := b], pre + [b] + post;
    assert forall k :: 0 <= k < |l| ==> l[k] == r[k];
  }

  lemma {:induction false} DoneCountUpdate(ms: seq<Mark>, j: nat, m: Mark)
    requires j < |ms|
    ensures DoneCount(ms[j := m]) + (if ms[j].executed then 1 else 0) == DoneCount(ms) + (if m.executed then 1 else 0)
  {
    if j > 0 {
      assert ms[j := m][1..] == ms[1..][j - 1 := m];
      DoneCountUpdate(ms[1..], j - 1, m);
    }
  }

  /** The counts after a status change: the total stays, the completed count moves by the
      change of the one flag. */
  lemma SetStatusInForest(ts: seq<Task>, id: string, executed: bool, now: string)
    requires FindInForest(ts, id).Some?
    ensures
      var t := FindInForest(ts, id).value;
      var after := ReplaceInForest(ts, id, StatusUpdated(t, executed, now));
      && FlatTotal(after) == FlatTotal(ts)
      && FlatCompleted(after) + (if t.executed then 1 else 0) == FlatCompleted(ts) + (if executed then 1 else 0)
  {
    var t := FindInForest(ts, id).value;
    var after := ReplaceInForest(ts, id, StatusUpdated(t, executed, now));
    SetStatusMarks(ts, id, executed, now);
    var j := IndexOfId(Flatten(ts), id).value;
    assert |Marks(Flatten(after))| == |Marks(Flatten(ts))|;
    CountExecutedIsDoneCount(Flatten(ts));
    CountExecutedIsDoneCount(Flatten(after));
    DoneCountUpdate(Marks(Flatten(ts)), j, Mark(id, executed));
  }

  /** Appending a subtask under the first node with `parentId` inserts exactly one node
      into the pre-order, right after the parent's last descendant; every existing node
      keeps its id and flag. Nothing stops the new id from being present already. */
  lemma {:induction false} AddSubtaskInForest(ts: seq<Task>, parentId: string, child: Task)
    requires FindInForest(ts, parentId).Some? && child.subtasks == Absent
    ensures IndexOfId(Flatten(ts), parentId).Some?
    ensures
      var p := FindInForest(ts, parentId).value;
      var after := ReplaceInForest(ts, parentId, WithSubtask(p, child));
      var e := IndexOfId(Flatten(ts), parentId).value + |FlattenTask(p)|;
      && e <= |Flatten(ts)|
      && Marks(Flatten(after)) == Marks(Flatten(ts))[..e] + [Mark(child.id, child.executed)] + Marks(Flatten(ts))[e..]
      && FlatTotal(after) == FlatTotal(ts) + 1
      && FlatCompleted(after) == FlatCompleted(ts) + (if child.executed then 1 else 0)
      && IdCount(Marks(Flatten(after)), child.id) == IdCount(Marks(Flatten(ts)), child.id) + 1
  {
    var p := FindInForest(ts, parentId).value;
    var n := WithSubtask(p, child);
    var after := ReplaceInForest(ts, parentId, n);
    var pre, post := ReplaceMarks(ts, parentId, n);
    var items := WithSubtaskList(p).subtasks.items;
    assert FlattenSubtasks(p) == Flatten(items);
    assert FlattenSubtasks(n) == Flatten(items + [child]);
    FlattenAppend(items, [child]);
    assert FlattenSubtasks(child) == [];
    assert Flatten([child]) == FlattenTask(child) + Flatten([child][1..]);
    assert Flatten([child]) == [child];
    MarksAppend(Flatten(items), [child]);
    MarksOfTask(p);
    MarksOfTask(n);
    var m := [Mark(child.id, child.executed)];
    assert Marks([child]) == m;
    var a := pre + Marks(FlattenTask(p));
    assert Marks(FlattenTask(n)) == Marks(FlattenTask(p)) + m;
    var ms := Marks(Flatten(ts));
    var e := |pre| + |FlattenTask(p)|;
    assert ms == a + post;
    assert ms[..e] == a && ms[e..] == post;
    assert Marks(Flatten(after)) == a + m + post;
    CountExecutedIsDoneCount(Flatten(ts));
    CountExecutedIsDoneCount(Flatten(after));
    DoneCountAppend(a, post);
    DoneCountAppend(a + m, post);
    DoneCountAppend(a, m);
    IdCountAppend(a, post, child.id);
    IdCountAppend(a + m, post, child.id);
    IdCountAppend(a, m, child.id);
  }

  /** Creating a missing subtask list changes no node's id or flag. */
  lemma {:induction false} SubtaskListKeepsMarks(ts: seq<Task>, id: string)
    requires FindInForest(ts, id).Some?
    ensures
      var t := FindInForest(ts, id).value;
      Marks(Flatten(ReplaceInForest(ts, id, WithSubtaskList(t)))) == Marks(Flatten(ts))
  {
    var t := FindInForest(ts, id).value;
    var pre, post := ReplaceMarks(ts, id, WithSubtaskList(t));
    assert FlattenSubtasks(WithSubtaskList(t)) == FlattenSubtasks(t);
    MarksOfTask(t);
    MarksOfTask(WithSubtaskList(t));
  }
}
