/** The pure parts of `HTMLTemplate`: escaping, the renderer's own phase progress, and
    the shape of the rendered tree (which element carries the "concluída" modifier, where
    the nested wrappers go, what is escaped and what is inserted raw). The literal markup
    itself is not modelled: a rendered element is a value holding its class attribute, its
    raw id, its escaped name and its optional wrapper of children. */
module HtmlTemplate {
  import opened Model
  import Percent

  // ---------------------------------------------------------------------------
  // escapeHtml

  /** The characters that must never appear raw in the output. */
  predicate Special(c: char)
  {
    c == '<' || c == '>' || c == '\'' || c == '"'
  }

  /** The entries of the replacement map; any other character is kept. */
  function EscapeChar(c: char): (r: string)
    ensures forall i :: 0 <= i < |r| ==> !Special(r[i])
    ensures c != '&' && !Special(c) ==> r == [c]
    ensures |r| > 0 && (r[0] == '&' <==> c == '&' || Special(c))
  {
    match c
    case '&' => "&amp;"
    case '<' => "&lt;"
    case '>' => "&gt;"
    case '\'' => "&#039;"
    case '"' => "&quot;"
    case _ => [c]
  }

  /** `text.replace(/[&<>'"]/g, m => map[m])`: one replacement per character. */
  function EscapeHtml(s: string): (r: string)
    ensures forall i :: 0 <= i < |r| ==> !Special(r[i])
    ensures |r| >= |s|
  {
    if s == [] then [] else EscapeChar(s[0]) + EscapeHtml(s[1..])
  }

  /** Escaping works character by character, so it distributes over concatenation. */
  lemma {:induction false} EscapeAppend(a: string, b: string)
    ensures EscapeHtml(a + b) == EscapeHtml(a) + EscapeHtml(b)
  {
    if a == [] {
      assert a + b == b;
    } else {
      assert (a + b)[0] == a[0] && (a + b)[1..] == a[1..] + b;
      EscapeAppend(a[1..], b);
    }
  }

  /** Text with none of the five characters comes out unchanged. */
  lemma {:induction false} EscapePlain(s: string)
    requires forall i :: 0 <= i < |s| ==> s[i] != '&' && !Special(s[i])
    ensures EscapeHtml(s) == s
  {
    if s != [] {
      EscapePlain(s[1..]);
    }
  }

  predicate StartsWith(r: string, prefix: string)
  {
    |prefix| <= |r| && r[..|prefix|] == prefix
  }

  /** The first character of escaped text and how many characters encode it: one of the
      five entities, or the character itself. */
  function DecodeFirst(r: string): (d: (char, nat))
    requires |r| > 0
    ensures 1 <= d.1 <= |r|
  {
    if r[0] != '&' then (r[0], 1)
    else if StartsWith(r, "&amp;") then ('&', 5)
    else if StartsWith(r, "&lt;") then ('<', 4)
    else if StartsWith(r, "&gt;") then ('>', 4)
    else if StartsWith(r, "&#039;") then ('\'', 6)
    else if StartsWith(r, "&quot;") then ('"', 6)
    else ('&', 1)
  }

  /** Reading the five entities back: the decoder that undoes `EscapeHtml`. */
  function Unescape(r: string): string
    decreases |r|
  {
    if r == [] then [] else var (c, n) := DecodeFirst(r); [c] + Unescape(r[n..])
  }

  lemma DecodeEscaped(c: char, rest: string)
    ensures DecodeFirst(EscapeChar(c) + rest) == (c, |EscapeChar(c)|)
  {
    var e := EscapeChar(c);
    var r := e + rest;
    assert r[..|e|] == e;
    if c == '<' || c == '>' {
      assert r[1] != "&amp;"[1];
    } else if c == '\'' || c == '"' {
      assert r[1] != "&amp;"[1] && r[1] != "&lt;"[1] && r[1] != "&gt;"[1];
    }
    if c == '"' {
      assert r[1] != "&#039;"[1];
    }
  }

  lemma UnescapeStep(c: char, rest: string)
    ensures Unescape(EscapeChar(c) + rest) == [c] + Unescape(rest)
  {
    var e := EscapeChar(c);
    DecodeEscaped(c, rest);
    assert (e + rest)[|e|..] == rest;
  }

  /** Escaping loses nothing: decoding the output gives the text back. */
  lemma {:induction false} UnescapeEscape(s: string)
    ensures Unescape(EscapeHtml(s)) == s
  {
    if s != [] {
      UnescapeEscape(s[1..]);
      UnescapeStep(s[0], EscapeHtml(s[1..]));
    }
  }

  /** A character that escaping replaces makes the output strictly longer. */
  lemma {:induction false} EscapeGrows(s: string, i: nat)
    requires i < |s| && (s[i] == '&' || Special(s[i]))
    ensures |EscapeHtml(s)| > |s|
  {
    if i > 0 {
      EscapeGrows(s[1..], i - 1);
    }
  }

  /** Escaping leaves a text alone exactly when it holds none of the five characters. */
  lemma EscapeKeepsIff(s: string)
    ensures EscapeHtml(s) == s <==> forall i :: 0 <= i < |s| ==> s[i] != '&' && !Special(s[i])
  {
    if forall i :: 0 <= i < |s| ==> s[i] != '&' && !Special(s[i]) {
      EscapePlain(s);
    } else {
      var i :| 0 <= i < |s| && (s[i] == '&' || Special(s[i]));
      EscapeGrows(s, i);
    }
  }

  // ---------------------------------------------------------------------------
  // calculatePhaseProgress of the renderer

  datatype Counts = Counts(total: nat, completed: nat)

  /** `countTasks(tasks)`: a `reduce` from `{ total: 0, completed: 0 }`. */
  function CountTasks(ts: seq<Task>): Counts
    decreases ts, 1
  {
    CountFold(ts, Counts(0, 0))
  }

  /** The `reduce` itself: each task folded into the accumulator in turn. */
  function CountFold(ts: seq<Task>, acc: Counts): Counts
    decreases ts, 0
  {
    if ts == [] then acc else CountFold(ts[1..], CountStep(acc, ts[0]))
  }

  /** The reducer: count the task, then add its subtasks' own `countTasks`. */
  function CountStep(acc: Counts, t: Task): Counts
    decreases t
  {
    var acc' := Counts(acc.total + 1, acc.completed + (if t.executed then 1 else 0));
    match t
    case Task(_, _, _, Present(ss), _, _, _, _) =>
      var sub := CountTasks(ss);
      Counts(acc'.total + sub.total, acc'.completed + sub.completed)
    case _ => acc'
  }

  /** The fold counts exactly the forest's nodes and executed nodes at every depth: the
      same figures as the services' flattened counts. */
  lemma {:induction false} CountTasksIsFlat(ts: seq<Task>)
    ensures CountTasks(ts) == Counts(FlatTotal(ts), FlatCompleted(ts))
    decreases ts, 1
  {
    CountFoldIsFlat(ts, Counts(0, 0));
  }

  lemma {:induction false} CountFoldIsFlat(ts: seq<Task>, acc: Counts)
    ensures CountFold(ts, acc) == Counts(acc.total + FlatTotal(ts), acc.completed + FlatCompleted(ts))
    decreases ts, 0
  {
    if ts != [] {
      CountStepIsFlat(acc, ts[0]);
      CountFoldIsFlat(ts[1..], CountStep(acc, ts[0]));
      assert Flatten(ts) == FlattenTask(ts[0]) + Flatten(ts[1..]);
      CountExecutedAppend(FlattenTask(ts[0]), Flatten(ts[1..]));
    }
  }

  lemma {:induction false} CountStepIsFlat(acc: Counts, t: Task)
    ensures CountStep(acc, t) == Counts(acc.total + |FlattenTask(t)|, acc.completed + CountExecuted(FlattenTask(t)))
    decreases t
  {
    assert FlattenTask(t) == [t] + FlattenSubtasks(t);
    CountExecutedAppend([t], FlattenSubtasks(t));
    assert [t][1..] == [];
    match t
    case Task(_, _, _, Present(ss), _, _, _, _) =>
      CountTasksIsFlat(ss);
    case _ =>
  }

  /** A phase with at least one top-level task has at least one node to divide by. */
  lemma NonEmptyForest(ts: seq<Task>)
    requires |ts| > 0
    ensures FlatTotal(ts) >= 1
  {
    assert Flatten(ts) == FlattenTask(ts[0]) + Flatten(ts[1..]);
  }

  /** `calculatePhaseProgress(phase)` of the renderer: 0 without top-level tasks, else the
      executed share of all nodes. It is the services' percentage for the same phase. */
  function RenderProgress(p: Phase): (r: real)
    ensures r == Percent.Percentage(FlatCompleted(p.tasks), FlatTotal(p.tasks))
    ensures |p.tasks| == 0 ==> r == 0.0
    ensures 0.0 <= r <= 100.0
  {
    if |p.tasks| == 0 then 0.0
    else
      var counts := CountTasks(p.tasks);
      CountTasksIsFlat(p.tasks);
      NonEmptyForest(p.tasks);
      (counts.completed as real / counts.total as real) * 100.0
  }

  // ---------------------------------------------------------------------------
  // The rendered tree

  /** The three kinds of element, named by their class block. */
  datatype Level = FaseLevel | TarefaLevel | SubtarefaLevel

  function Block(l: Level): string
  {
    match l
    case FaseLevel => "fase"
    case TarefaLevel => "tarefa"
    case SubtarefaLevel => "subtarefa"
  }

  /** The class attribute: the block, plus the `--concluida` modifier for an executed node. */
  function ClassOf(l: Level, executed: bool): string
  {
    if executed then Block(l) + " " + Block(l) + "--concluida" else Block(l)
  }

  const Modifier: string := "--concluida"

  /** What a reader of the page checks: the class attribute ends with the modifier. */
  predicate HasModifier(classes: string)
  {
    |Modifier| <= |classes| && classes[|classes| - |Modifier|..] == Modifier
  }

  /** The modifier appears exactly on executed nodes, at every level. */
  lemma ModifierIffExecuted(l: Level, executed: bool)
    ensures HasModifier(ClassOf(l, executed)) <==> executed
  {
    var c := ClassOf(l, executed);
    if executed {
      assert c[|c| - |Modifier|..] == Modifier;
    } else {
      assert |c| < |Modifier|;
    }
  }

  /** A rendered task or subtask element. */
  datatype Item = Item(classes: string, id: string, name: string, nested: Nested)

  /** The nested `__subtarefas` wrapper, drawn only for a node that has a list (even an
      empty one). */
  datatype Nested = NoWrapper | Wrapper(classes: string, items: seq<Item>)

  /** `generateTasks` (level `tarefa`) and `generateSubtasks` (level `subtarefa`): every
      list below either level is drawn with `generateSubtasks`. */
  function RenderItems(l: Level, ts: seq<Task>): (r: seq<Item>)
    decreases ts
    ensures |r| == |ts|
  {
    if ts == [] then [] else [RenderItem(l, ts[0])] + RenderItems(l, ts[1..])
  }

  function RenderItem(l: Level, t: Task): Item
    decreases t
  {
    match t
    case Task(id, name, executed, Present(ss), _, _, _, _) =>
      Item(ClassOf(l, executed), id, EscapeHtml(name), Wrapper(Block(l) + "__subtarefas", RenderItems(SubtarefaLevel, ss)))
    case _ =>
      Item(ClassOf(l, t.executed), t.id, EscapeHtml(t.name), NoWrapper)
  }

  /** The rendered elements in document order: each element, then those in its wrapper. */
  function ItemsFlat(items: seq<Item>): seq<Item>
    decreases items
  {
    if items == [] then [] else ItemFlat(items[0]) + ItemsFlat(items[1..])
  }

  function ItemFlat(it: Item): seq<Item>
    decreases it
  {
    match it
    case Item(_, _, _, Wrapper(_, children)) => [it] + ItemsFlat(children)
    case _ => [it]
  }

  /** What a reader sees of one element: its raw id, whether it is marked completed, its
      displayed name and whether it opens a nested wrapper. */
  datatype View = View(id: string, marked: bool, name: string, wrapped: bool)

  function ItemViews(items: seq<Item>): (r: seq<View>)
    ensures |r| == |items|
  {
    if items == [] then []
    else [View(items[0].id, HasModifier(items[0].classes), items[0].name, items[0].nested.Wrapper?)] + ItemViews(items[1..])
  }

  /** What each node of the forest should look like on the page. */
  function TaskViews(ts: seq<Task>): (r: seq<View>)
    ensures |r| == |ts|
  {
    if ts == [] then []
    else [View(ts[0].id, ts[0].executed, EscapeHtml(ts[0].name), ts[0].subtasks.Present?)] + TaskViews(ts[1..])
  }

  lemma {:induction false} ItemViewsAppend(a: seq<Item>, b: seq<Item>)
    ensures ItemViews(a + b) == ItemViews(a) + ItemViews(b)
  {
    if a == [] {
      assert a + b == b;
    } else {
      assert (a + b)[0] == a[0] && (a + b)[1..] == a[1..] + b;
      ItemViewsAppend(a[1..], b);
    }
  }

  lemma {:induction false} TaskViewsAppend(a: seq<Task>, b: seq<Task>)
    ensures TaskViews(a + b) == TaskViews(a) + TaskViews(b)
  {
    if a == [] {
      assert a + b == b;
    } else {
      assert (a + b)[0] == a[0] && (a + b)[1..] == a[1..] + b;
      TaskViewsAppend(a[1..], b);
    }
  }

  /** The page mirrors the forest node for node, to any depth and in pre-order: same ids
      (raw), the modifier exactly on executed nodes, escaped names, and a wrapper exactly
      where the node has a subtask list. */
  lemma {:induction false} RenderMirrorsForest(l: Level, ts: seq<Task>)
    ensures ItemViews(ItemsFlat(RenderItems(l, ts))) == TaskViews(Flatten(ts))
    decreases ts
  {
    if ts != [] {
      var items := RenderItems(l, ts);
      assert items[0] == RenderItem(l, ts[0]) && items[1..] == RenderItems(l, ts[1..]);
      RenderMirrorsTask(l, ts[0]);
      RenderMirrorsForest(l, ts[1..]);
      ItemViewsAppend(ItemFlat(items[0]), ItemsFlat(items[1..]));
      assert Flatten(ts) == FlattenTask(ts[0]) + Flatten(ts[1..]);
      TaskViewsAppend(FlattenTask(ts[0]), Flatten(ts[1..]));
    }
  }

  lemma {:induction false} RenderMirrorsTask(l: Level, t: Task)
    ensures ItemViews(ItemFlat(RenderItem(l, t))) == TaskViews(FlattenTask(t))
    decreases t
  {
    var it := RenderItem(l, t);
    ModifierIffExecuted(l, t.executed);
    assert FlattenTask(t) == [t] + FlattenSubtasks(t);
    TaskViewsAppend([t], FlattenSubtasks(t));
    assert [t][1..] == [];
    assert [it][1..] == [];
    match t
    case Task(_, _, _, Present(ss), _, _, _, _) =>
      RenderMirrorsForest(SubtarefaLevel, ss);
      ItemViewsAppend([it], ItemsFlat(RenderItems(SubtarefaLevel, ss)));
    case _ =>
  }

  /** One rendered phase: its class attribute, its raw id, its escaped title, the
      renderer's progress and its tasks. */
  datatype PhaseView = PhaseView(classes: string, id: string, title: string, progress: real, tasks: seq<Item>)

  /** `generatePhases(project)`: one element per entry, in enumeration order. */
  function RenderPhases(m: seq<PhaseEntry>): (r: seq<PhaseView>)
    ensures |r| == |m|
    ensures forall i :: 0 <= i < |m| ==>
      && r[i].id == m[i].0
      && r[i].title == EscapeHtml(m[i].1.name)
      && (HasModifier(r[i].classes) <==> m[i].1.executed)
      && r[i].progress == Percent.Percentage(FlatCompleted(m[i].1.tasks), FlatTotal(m[i].1.tasks))
      && ItemViews(ItemsFlat(r[i].tasks)) == TaskViews(Flatten(m[i].1.tasks))
  {
    if m == [] then []
    else
      var (id, p) := m[0];
      ModifierIffExecuted(FaseLevel, p.executed);
      RenderMirrorsForest(TarefaLevel, p.tasks);
      [PhaseView(ClassOf(FaseLevel, p.executed), id, EscapeHtml(p.name), RenderProgress(p), RenderItems(TarefaLevel, p.tasks))]
        + RenderPhases(m[1..])
  }

  /** The page: title and heading escaped, `last_update` raw, then the phases. */
  datatype Page = Page(title: string, heading: string, lastUpdate: string, phases: seq<PhaseView>)

  /** `generateHTML(project)`, as the values it places into the markup. */
  function RenderPage(project: Project): (r: Page)
    ensures r.title == r.heading == EscapeHtml(project.name)
    ensures r.lastUpdate == project.lastUpdate
    ensures r.phases == RenderPhases(project.phases)
    ensures |r.phases| == |project.phases|
  {
    Page(EscapeHtml(project.name), EscapeHtml(project.name), project.lastUpdate, RenderPhases(project.phases))
  }
}
