/** The shapes and the meaning of the progress figures shared by the calculator, the
    status analyser, the reporter and both progress services: per-project sums of the
    per-phase counts, the completed-phase rule, the three-way phase status and the
    top-level task statistics. */
module Progress {
  import opened Model
  import Percent

  /** `{ completed, total, percentage }`. */
  datatype Stats = Stats(completed: nat, total: nat, percentage: real)

  /** `calculateProjectProgress`'s result. */
  datatype ProjectProgress = ProjectProgress(tasks: Stats, phases: Stats)

  function StatsOf(completed: nat, total: nat): Stats
  {
    Stats(completed, total, Percent.Percentage(completed, total))
  }

  /** A phase counts as completed when it has at least one task and every task, at every
      depth, is executed. */
  predicate PhaseDone(p: Phase)
  {
    FlatTotal(p.tasks) > 0 && FlatCompleted(p.tasks) == FlatTotal(p.tasks)
  }

  // The sums are defined from the last entry, in the order the loops visit the phases.

  function TasksCompleted(m: seq<PhaseEntry>): nat
  {
    if m == [] then 0 else TasksCompleted(m[..|m| - 1]) + FlatCompleted(m[|m| - 1].1.tasks)
  }

  function TasksTotal(m: seq<PhaseEntry>): nat
  {
    if m == [] then 0 else TasksTotal(m[..|m| - 1]) + FlatTotal(m[|m| - 1].1.tasks)
  }

  function PhasesCompleted(m: seq<PhaseEntry>): (n: nat)
    ensures n <= |m|
  {
    if m == [] then 0 else PhasesCompleted(m[..|m| - 1]) + (if PhaseDone(m[|m| - 1].1) then 1 else 0)
  }

  /** What `calculateProjectProgress` returns for a project whose record has entries `m`. */
  function ProjectProgressOf(m: seq<PhaseEntry>): ProjectProgress
  {
    ProjectProgress(StatsOf(TasksCompleted(m), TasksTotal(m)), StatsOf(PhasesCompleted(m), |m|))
  }

  /** Every task of every phase, top-level only, phase after phase: `flatMap(p => p.tasks)`. */
  function AllTasks(m: seq<PhaseEntry>): seq<Task>
  {
    if m == [] then [] else AllTasks(m[..|m| - 1]) + m[|m| - 1].1.tasks
  }

  /** The summed per-phase counts are the counts of the whole project's forest: no task is
      counted twice or missed. */
  lemma {:induction false} SumsAreFlatCounts(m: seq<PhaseEntry>)
    ensures TasksTotal(m) == FlatTotal(AllTasks(m))
    ensures TasksCompleted(m) == FlatCompleted(AllTasks(m))
  {
    if m != [] {
      var init := m[..|m| - 1];
      SumsAreFlatCounts(init);
      FlattenAppend(AllTasks(init), m[|m| - 1].1.tasks);
      CountExecutedAppend(Flatten(AllTasks(init)), Flatten(m[|m| - 1].1.tasks));
    }
  }

  /** The project figures are well formed: no more completed than total, every percentage
      within 0..100, and all six figures 0 for a project without phases. */
  lemma ProjectProgressBounds(m: seq<PhaseEntry>)
    ensures var r := ProjectProgressOf(m);
      && r.tasks.completed <= r.tasks.total
      && r.phases.completed <= r.phases.total == |m|
      && 0.0 <= r.tasks.percentage <= 100.0 && 0.0 <= r.phases.percentage <= 100.0
    ensures m == [] ==> ProjectProgressOf(m) == ProjectProgress(Stats(0, 0, 0.0), Stats(0, 0, 0.0))
  {
    SumsAreFlatCounts(m);
  }

  /** Every phase counts as completed exactly when each one is non-empty and fully done. */
  lemma {:induction false} AllPhasesCompleted(m: seq<PhaseEntry>)
    ensures PhasesCompleted(m) == |m| <==> forall i :: 0 <= i < |m| ==> PhaseDone(m[i].1)
  {
    if m != [] {
      var init := m[..|m| - 1];
      AllPhasesCompleted(init);
      assert forall i :: 0 <= i < |init| ==> init[i] == m[i];
    }
  }

  // ---------------------------------------------------------------------------
  // Phase status

  datatype Status = NaoIniciada | EmAndamento | Concluida

  /** The label the reports print. */
  function Label(s: Status): string
  {
    match s
    case NaoIniciada => "não iniciada"
    case EmAndamento => "em andamento"
    case Concluida => "concluída"
  }

  /** `percentage === 100 ? 'concluída' : percentage > 0 ? 'em andamento' : 'não iniciada'`. */
  function Classify(percentage: real): Status
  {
    if percentage == 100.0 then Concluida
    else if percentage > 0.0 then EmAndamento
    else NaoIniciada
  }

  /** The status read on the counts: done means non-empty and all done, started means
      some but not all done, and not started means nothing done. */
  lemma StatusOfCounts(completed: nat, total: nat)
    requires completed <= total
    ensures Classify(Percent.Percentage(completed, total)) == Concluida <==> 0 < total && completed == total
    ensures Classify(Percent.Percentage(completed, total)) == EmAndamento <==> 0 < completed < total
    ensures Classify(Percent.Percentage(completed, total)) == NaoIniciada <==> completed == 0
  {
  }

  /** `{ pendentes, emAndamento, concluidas }`. */
  datatype TaskStats = TaskStats(pendentes: nat, emAndamento: int, concluidas: nat)

  /** `getPhaseStatus`'s result. */
  datatype PhaseStatus = PhaseStatus(progress: real, status: Status, taskStats: TaskStats)

  /** `tasks.filter(t => !t.executed).length`: the open top-level tasks. */
  function Pending(ts: seq<Task>): nat
  {
    if ts == [] then 0 else (if ts[0].executed then 0 else 1) + Pending(ts[1..])
  }

  /** Every top-level task is either open or executed. */
  lemma {:induction false} PendingPlusExecuted(ts: seq<Task>)
    ensures Pending(ts) + CountExecuted(ts) == |ts|
  {
    if ts != [] {
      PendingPlusExecuted(ts[1..]);
    }
  }
}
