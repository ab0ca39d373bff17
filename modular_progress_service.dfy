/** The `ProgressService` of the `progress` folder: the same project figures and status
    rule as the calculator and the analyser, but its own `emAndamento` count and its own
    report shape. */
module ModularProgressService {
  import opened Model
  import opened Progress
  import Percent
  import ProgressCalculator
  import StatusAnalyzer

  /** `tasks.filter(t => !t.executed && t.id !== '').length`. */
  function InProgress(ts: seq<Task>): nat
  {
    if ts == [] then 0 else (if !ts[0].executed && ts[0].id != "" then 1 else 0) + InProgress(ts[1..])
  }

  /** `emAndamento` never exceeds `pendentes`, equals it when every top-level id is
      non-empty, and is 0 (the analyser's value) exactly when no open top-level task has a
      non-empty id. */
  lemma {:induction false} InProgressVersusPending(ts: seq<Task>)
    ensures InProgress(ts) <= Pending(ts)
    ensures (forall i :: 0 <= i < |ts| ==> ts[i].id != "") ==> InProgress(ts) == Pending(ts)
    ensures InProgress(ts) == 0 <==> forall i :: 0 <= i < |ts| && !ts[i].executed ==> ts[i].id == ""
  {
    if ts != [] {
      InProgressVersusPending(ts[1..]);
      assert forall i :: 1 <= i < |ts| ==> ts[i] == ts[1..][i - 1];
    }
  }

  /** `getPhaseStatus(phase)` of this variant. */
  function GetPhaseStatus(phase: Phase): (r: PhaseStatus)
    ensures r.progress == Percent.Percentage(FlatCompleted(phase.tasks), FlatTotal(phase.tasks))
    ensures r.status == Concluida <==> PhaseDone(phase)
    ensures r.status == EmAndamento <==> 0 < FlatCompleted(phase.tasks) < FlatTotal(phase.tasks)
    ensures r.status == NaoIniciada <==> FlatCompleted(phase.tasks) == 0
    ensures r.taskStats.pendentes == Pending(phase.tasks)
    ensures r.taskStats.concluidas == CountExecuted(phase.tasks)
    ensures r.taskStats.emAndamento == InProgress(phase.tasks)
    ensures 0 <= r.taskStats.emAndamento <= r.taskStats.pendentes
  {
    var completed, total := FlatCompleted(phase.tasks), FlatTotal(phase.tasks);
    var percentage := if total > 0 then (completed as real / total as real) * 100.0 else 0.0;
    StatusOfCounts(completed, total);
    InProgressVersusPending(phase.tasks);
    PhaseStatus(percentage, Classify(percentage),
      TaskStats(Pending(phase.tasks), InProgress(phase.tasks), CountExecuted(phase.tasks)))
  }

  /** The two `getPhaseStatus` variants agree on everything but `emAndamento`, and agree on
      that too exactly when no open top-level task has a non-empty id. */
  lemma VariantsAgree(phase: Phase)
    ensures var a, b := StatusAnalyzer.GetPhaseStatus(phase), GetPhaseStatus(phase);
      && a.progress == b.progress && a.status == b.status
      && a.taskStats.pendentes == b.taskStats.pendentes
      && a.taskStats.concluidas == b.taskStats.concluidas
      && (a.taskStats.emAndamento == b.taskStats.emAndamento <==>
            forall i :: 0 <= i < |phase.tasks| && !phase.tasks[i].executed ==> phase.tasks[i].id == "")
  {
    InProgressVersusPending(phase.tasks);
  }

  datatype Detailed = Detailed(projectProgress: ProjectProgress, phaseDetails: seq<(string, PhaseStatus)>)

  /** `getDetailedProgress(project)`: the project figures, then `phaseDetails[id] = ...`
      for each phase in enumeration order. */
  method GetDetailedProgress(project: Project) returns (r: Detailed)
    requires UniqueKeys(project.phases)
    ensures r.projectProgress == ProjectProgressOf(project.phases)
    ensures r.phaseDetails == MapValues(project.phases, GetPhaseStatus)
    ensures Keys(r.phaseDetails) == Keys(project.phases) && UniqueKeys(r.phaseDetails)
    ensures forall id :: Get(r.phaseDetails, id) == (match Get(project.phases, id) case None => None case Some(p) => Some(GetPhaseStatus(p)))
  {
    var projectProgress := ProgressCalculator.CalculateProjectProgress(project);
    var phases := project.phases;
    var phaseDetails: seq<(string, PhaseStatus)> := [];
    for i := 0 to |phases|
      invariant phaseDetails == MapValues(phases[..i], GetPhaseStatus)
    {
      var (phaseName, phase) := phases[i];
      MapValuesStep(phases, GetPhaseStatus, i);
      phaseDetails := Put(phaseDetails, phaseName, GetPhaseStatus(phase));
    }
    assert phases[..|phases|] == phases;
    MapValuesBindings(phases, GetPhaseStatus);
    r := Detailed(projectProgress, phaseDetails);
  }
}
