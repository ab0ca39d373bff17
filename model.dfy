/** The project document: the shapes of `ITask`, `IPhase` and `IProject`, the ordered
    phase record, the pre-order view of a task forest, and the mutable objects that the
    services update in place. */
module Model {
  import Splice

  datatype Option<T> = None | Some(value: T)

  /** A command's way out: normal return, or the `Error` it throws with its message. */
  datatype Outcome = Done | Failed(message: string)

  /** `ITask`. Timestamps are opaque strings supplied by the caller. */
  datatype Task = Task(
    id: string,
    name: string,
    executed: bool,
    subtasks: Subtasks,
    parentId: Option<string>,
    description: Option<string>,
    createdAt: string,
    updatedAt: string)

  /** The optional `subtasks` array: a missing array and an empty one are different
      documents (the report draws a wrapper for an empty one). */
  datatype Subtasks = Absent | Present(items: seq<Task>)

  /** `IPhase`. */
  datatype Phase = Phase(name: string, executed: bool, tasks: seq<Task>)

  /** One `[phaseId, phase]` pair of `Object.entries(project.phases)`. */
  type PhaseEntry = (string, Phase)

  /** `IProject`: `phases` lists the record's entries in enumeration order. */
  datatype Project = Project(name: string, lastUpdate: string, phases: seq<PhaseEntry>)

  // ---------------------------------------------------------------------------
  // Records (`Record<string, V>`) as ordered maps

  /** The entries of a JavaScript object in enumeration order; an object never holds a
      key twice. */
  predicate UniqueKeys<V>(m: seq<(string, V)>)
  {
    forall i, j :: 0 <= i < j < |m| ==> m[i].0 != m[j].0
  }

  function Keys<V>(m: seq<(string, V)>): (ks: seq<string>)
    ensures |ks| == |m|
    ensures forall i :: 0 <= i < |m| ==> ks[i] == m[i].0
  {
    if m == [] then [] else [m[0].0] + Keys(m[1..])
  }

  /** Position of `id` among the entries, as `findIndex` on `Object.entries` finds it. */
  function KeyIndex<V>(m: seq<(string, V)>, id: string): (r: Option<nat>)
    ensures r.Some? ==> r.value < |m| && m[r.value].0 == id
    ensures r.Some? ==> forall j :: 0 <= j < r.value ==> m[j].0 != id
    ensures r.None? <==> forall j :: 0 <= j < |m| ==> m[j].0 != id
  {
    if m == [] then None
    else if m[0].0 == id then Some(0)
    else match KeyIndex(m[1..], id)
      case None => None
      case Some(k) => Some(k + 1)
  }

  predicate HasKey<V>(m: seq<(string, V)>, id: string)
  {
    KeyIndex(m, id).Some?
  }

  /** `record[id]`, with `undefined` as `None`. */
  function Get<V>(m: seq<(string, V)>, id: string): Option<V>
  {
    match KeyIndex(m, id)
    case None => None
    case Some(k) => Some(m[k].1)
  }

  /** `record[id] = p`: an existing key keeps its place, a new key goes last. */
  function Put<V>(m: seq<(string, V)>, id: string, p: V): (r: seq<(string, V)>)
    ensures UniqueKeys(m) ==> UniqueKeys(r)
    ensures Get(r, id) == Some(p)
    ensures forall k :: k != id ==> Get(r, k) == Get(m, k)
    ensures HasKey(m, id) ==> Keys(r) == Keys(m)
    ensures !HasKey(m, id) ==> Keys(r) == Keys(m) + [id]
  {
    match KeyIndex(m, id)
    case Some(k) =>
      var r := m[k := (id, p)];
      assert forall j :: 0 <= j < |r| ==> r[j].0 == m[j].0;
      KeysSameFirsts(r, m);
      assert forall key :: KeyIndex(r, key) == KeyIndex(m, key) by {
        forall key ensures KeyIndex(r, key) == KeyIndex(m, key) {
          KeyIndexSameFirsts(r, m, key);
        }
      }
      r
    case None =>
      var r := m + [(id, p)];
      KeysAppend(m, id, p);
      assert forall key :: key != id ==> KeyIndex(r, key) == KeyIndex(m, key) by {
        forall key | key != id ensures KeyIndex(r, key) == KeyIndex(m, key) {
          KeyIndexAppend(m, (id, p), key);
        }
      }
      KeyIndexAppend(m, (id, p), id);
      r
  }

  /** Assigning the same key twice: the second value is all that remains. */
  lemma PutTwice<V>(m: seq<(string, V)>, id: string, a: V, b: V)
    ensures Put(Put(m, id, a), id, b) == Put(m, id, b)
  {
    match KeyIndex(m, id)
    case Some(k) =>
      var r := m[k := (id, a)];
      KeyIndexSameFirsts(r, m, id);
    case None =>
      KeyIndexAppend(m, (id, a), id);
      assert (m + [(id, a)])[|m| := (id, b)] == m + [(id, b)];
  }

  /** `delete record[id]`. */
  function Delete<V>(m: seq<(string, V)>, id: string): (r: seq<(string, V)>)
  {
    match KeyIndex(m, id)
    case None => m
    case Some(k) => Splice.Remove(m, k)
  }

  lemma KeysSameFirsts<V>(a: seq<(string, V)>, b: seq<(string, V)>)
    requires |a| == |b| && forall j :: 0 <= j < |a| ==> a[j].0 == b[j].0
    ensures Keys(a) == Keys(b)
  {
  }

  /** Filling a record entry by entry: assigning the next entry's image extends the
      filled record by exactly that entry, because its key is new. */
  lemma MapValuesStep<V, W>(m: seq<(string, V)>, f: V -> W, i: nat)
    requires UniqueKeys(m) && i < |m|
    ensures Put(MapValues(m[..i], f), m[i].0, f(m[i].1)) == MapValues(m[..i + 1], f)
  {
    var acc := MapValues(m[..i], f);
    assert KeyIndex(acc, m[i].0).None? by {
      forall j | 0 <= j < |acc| ensures acc[j].0 != m[i].0 {
        assert acc[j].0 == m[j].0;
      }
    }
    assert Put(acc, m[i].0, f(m[i].1)) == acc + [(m[i].0, f(m[i].1))];
    assert m[..i + 1][..i] == m[..i];
  }

  /** Entries with the same keys in the same places find every key at the same index. */
  lemma KeyIndexSameFirsts<V, W>(a: seq<(string, W)>, b: seq<(string, V)>, key: string)
    requires |a| == |b| && forall j :: 0 <= j < |a| ==> a[j].0 == b[j].0
    ensures KeyIndex(a, key) == KeyIndex(b, key)
  {
    if a != [] && a[0].0 != key {
      KeyIndexSameFirsts(a[1..], b[1..], key);
    }
  }

  lemma KeysAppend<V>(m: seq<(string, V)>, id: string, p: V)
    ensures Keys(m + [(id, p)]) == Keys(m) + [id]
  {
  }

  lemma KeyIndexAppend<V>(m: seq<(string, V)>, e: (string, V), key: string)
    ensures KeyIndex(m + [e], key) ==
      (if KeyIndex(m, key).Some? then KeyIndex(m, key) else if e.0 == key then Some(|m|) else None)
  {
    if m != [] {
      assert (m + [e])[1..] == m[1..] + [e];
      KeyIndexAppend(m[1..], e, key);
    }
  }

  /** With unique keys, `id` is present exactly when some entry carries it, and the
      entry found for a key is the only one that carries it. */
  lemma {:induction false} GetUnique<V>(m: seq<(string, V)>, i: nat)
    requires UniqueKeys(m) && i < |m|
    ensures Get(m, m[i].0) == Some(m[i].1)
  {
    var k := KeyIndex(m, m[i].0).value;
    assert k <= i;
    assert k == i;
  }

  /** `delete` removes exactly the one key and keeps every other binding. */
  lemma {:induction false} DeleteProperties<V>(m: seq<(string, V)>, id: string)
    requires UniqueKeys(m)
    ensures UniqueKeys(Delete(m, id))
    ensures Get(Delete(m, id), id) == None
    ensures forall key :: key != id ==> Get(Delete(m, id), key) == Get(m, key)
    ensures |Delete(m, id)| == if HasKey(m, id) then |m| - 1 else |m|
  {
    match KeyIndex(m, id)
    case None =>
    case Some(k) =>
      var r := Splice.Remove(m, k);
      forall i | 0 <= i < |r| ensures r[i].0 != id {
        if i >= k { assert r[i] == m[i + 1]; }
      }
      forall key | key != id ensures Get(r, key) == Get(m, key) {
        match KeyIndex(m, key)
        case None =>
          assert forall j :: 0 <= j < |r| ==> r[j].0 != key by {
            forall j | 0 <= j < |r| ensures r[j].0 != key {
              if j >= k { assert r[j] == m[j + 1]; }
            }
          }
        case Some(i) =>
          var j := if i < k then i else i - 1;
          assert i != k;
          assert r[j] == m[i];
          GetUnique(r, j);
      }
  }

  /** `delete` keeps the remaining keys in their order, and an absent key changes nothing. */
  lemma DeleteKeepsOrder<V>(m: seq<(string, V)>, id: string)
    ensures !HasKey(m, id) ==> Delete(m, id) == m
    ensures HasKey(m, id) ==> Keys(Delete(m, id)) == Splice.Remove(Keys(m), KeyIndex(m, id).value)
  {
    if HasKey(m, id) {
      var k := KeyIndex(m, id).value;
      assert Keys(Splice.Remove(m, k)) == Splice.Remove(Keys(m), k);
    }
  }

  /** A record filled by `out[id] = f(value)` for each entry in enumeration order. */
  function MapValues<V, W>(m: seq<(string, V)>, f: V -> W): (r: seq<(string, W)>)
    ensures |r| == |m|
    ensures forall i :: 0 <= i < |m| ==> r[i] == (m[i].0, f(m[i].1))
  {
    if m == [] then [] else MapValues(m[..|m| - 1], f) + [(m[|m| - 1].0, f(m[|m| - 1].1))]
  }

  /** The filled record has the same keys in the same order, each bound to the image of
      its value. */
  lemma {:induction false} MapValuesBindings<V, W>(m: seq<(string, V)>, f: V -> W)
    ensures Keys(MapValues(m, f)) == Keys(m)
    ensures UniqueKeys(m) ==> UniqueKeys(MapValues(m, f))
    ensures forall key :: Get(MapValues(m, f), key) == match Get(m, key) case None => None case Some(v) => Some(f(v))
  {
    var r := MapValues(m, f);
    forall key ensures Get(r, key) == match Get(m, key) case None => None case Some(v) => Some(f(v)) {
      KeyIndexSameFirsts(r, m, key);
    }
  }

  // ---------------------------------------------------------------------------
  // The task forest in pre-order

  /** Every node of the forest, each task before its subtasks, siblings left to right:
      the order in which the recursive searches and counts visit the nodes. */
  function Flatten(ts: seq<Task>): seq<Task>
    decreases ts
  {
    if ts == [] then [] else FlattenTask(ts[0]) + Flatten(ts[1..])
  }

  function FlattenTask(t: Task): (r: seq<Task>)
    decreases t
    ensures |r| >= 1 && r[0] == t
  {
    [t] + FlattenSubtasks(t)
  }

  /** The pre-order of the nodes below `t`, empty when its `subtasks` array is missing. */
  function FlattenSubtasks(t: Task): seq<Task>
    decreases t, 0
  {
    match t
    case Task(_, _, _, Present(ss), _, _, _, _) => Flatten(ss)
    case _ => []
  }

  lemma {:induction false} FlattenAppend(a: seq<Task>, b: seq<Task>)
    ensures Flatten(a + b) == Flatten(a) + Flatten(b)
  {
    if a != [] {
      assert (a + b)[0] == a[0];
      assert (a + b)[1..] == a[1..] + b;
      FlattenAppend(a[1..], b);
    } else {
      assert a + b == b;
    }
  }

  lemma FlattenSingle(t: Task)
    ensures Flatten([t]) == FlattenTask(t)
  {
    assert [t][1..] == [];
  }

  /** A flat sequence of tasks none of which has a subtask list is its own pre-order. */
  lemma {:induction false} LeavesFlat(ts: seq<Task>)
    requires forall i :: 0 <= i < |ts| ==> ts[i].subtasks == Absent
    ensures Flatten(ts) == ts
  {
    if ts != [] {
      LeavesFlat(ts[1..]);
      assert FlattenSubtasks(ts[0]) == [];
    }
  }

  /** Flatten splits around any index: the nodes before `ts[i]`, the subtree of `ts[i]`,
      the nodes after it. */
  lemma {:induction false} FlattenSplit(ts: seq<Task>, i: nat)
    requires i < |ts|
    ensures Flatten(ts) == Flatten(ts[..i]) + FlattenTask(ts[i]) + Flatten(ts[i + 1..])
  {
    assert ts == ts[..i] + ([ts[i]] + ts[i + 1..]);
    FlattenAppend(ts[..i], [ts[i]] + ts[i + 1..]);
    assert Flatten([ts[i]] + ts[i + 1..]) == FlattenTask(ts[i]) + Flatten(ts[i + 1..]) by {
      assert ([ts[i]] + ts[i + 1..])[1..] == ts[i + 1..];
    }
  }

  /** The number of executed tasks in a flat sequence of nodes. */
  function CountExecuted(s: seq<Task>): (n: nat)
    ensures n <= |s|
  {
    if s == [] then 0 else (if s[0].executed then 1 else 0) + CountExecuted(s[1..])
  }

  lemma {:induction false} CountExecutedAppend(a: seq<Task>, b: seq<Task>)
    ensures CountExecuted(a + b) == CountExecuted(a) + CountExecuted(b)
  {
    if a != [] {
      assert (a + b)[0] == a[0];
      assert (a + b)[1..] == a[1..] + b;
      CountExecutedAppend(a[1..], b);
    } else {
      assert a + b == b;
    }
  }

  /** Total and completed tasks of a forest at every depth: `calculatePhaseProgress`'s
      counters. */
  function FlatTotal(ts: seq<Task>): nat
  {
    |Flatten(ts)|
  }

  function FlatCompleted(ts: seq<Task>): (n: nat)
    ensures n <= FlatTotal(ts)
  {
    CountExecuted(Flatten(ts))
  }

  // ---------------------------------------------------------------------------
  // The objects that the services change in place

  /** A phase object (`IPhase`) whose fields the services assign. */
  class PhaseDoc {
    var name: string
    var executed: bool
    var tasks: seq<Task>

    constructor (p: Phase)
      ensures Value() == p
    {
      name, executed, tasks := p.name, p.executed, p.tasks;
    }

    function Value(): Phase
      reads this
    {
      Phase(name, executed, tasks)
    }
  }

  /** A task object (`ITask`) whose fields the services assign. */
  class TaskDoc {
    var id: string
    var name: string
    var executed: bool
    var subtasks: Subtasks
    var parentId: Option<string>
    var description: Option<string>
    var createdAt: string
    var updatedAt: string

    constructor (t: Task)
      ensures Value() == t
    {
      id, name, executed, subtasks := t.id, t.name, t.executed, t.subtasks;
      parentId, description, createdAt, updatedAt := t.parentId, t.description, t.createdAt, t.updatedAt;
    }

    function Value(): Task
      reads this
    {
      Task(id, name, executed, subtasks, parentId, description, createdAt, updatedAt)
    }
  }

  /** A project object (`IProject`) whose fields the services assign. */
  class ProjectDoc {
    var name: string
    var lastUpdate: string
    var phases: seq<PhaseEntry>

    ghost predicate Valid()
      reads this
    {
      UniqueKeys(phases)
    }

    constructor (p: Project)
      requires UniqueKeys(p.phases)
      ensures Valid() && Value() == p
    {
      name, lastUpdate, phases := p.name, p.lastUpdate, p.phases;
    }

    function Value(): Project
      reads this
    {
      Project(name, lastUpdate, phases)
    }
  }
}
