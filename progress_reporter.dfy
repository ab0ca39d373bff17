/** `ProgressReporter`: the detailed report (overall percentages plus one entry per
    phase) and the basic one. */
module ProgressReporter {
  import opened Model
  import opened Progress
  import ProgressCalculator
  import StatusAnalyzer

  /** One `fases` entry. */
  datatype PhaseReport = PhaseReport(nome: string, progresso: real, status: Status, tarefas: TaskStats)

  /** `{ tasks, phases }`: the two overall percentages. */
  datatype Basic = Basic(tasks: real, phases: real)

  datatype Detailed = Detailed(geral: Basic, fases: seq<(string, PhaseReport)>)

  /** The entry written for one phase: its name and the analyser's result. */
  function ReportOf(phase: Phase): (e: PhaseReport)
    ensures e.nome == phase.name
    ensures var s := StatusAnalyzer.GetPhaseStatus(phase);
      e.progresso == s.progress && e.status == s.status && e.tarefas == s.taskStats
  {
    var s := StatusAnalyzer.GetPhaseStatus(phase);
    PhaseReport(phase.name, s.progress, s.status, s.taskStats)
  }

  function BasicOf(p: ProjectProgress): Basic
  {
    Basic(p.tasks.percentage, p.phases.percentage)
  }

  /** `getDetailedProgress(project)`: the overall percentages, then `fases[id] = ...` for
      each phase in enumeration order. */
  method GetDetailedProgress(project: Project) returns (r: Detailed)
    requires UniqueKeys(project.phases)
    ensures r.geral == BasicOf(ProjectProgressOf(project.phases))
    ensures r.fases == MapValues(project.phases, ReportOf)
    ensures Keys(r.fases) == Keys(project.phases) && UniqueKeys(r.fases)
    ensures forall id :: Get(r.fases, id) == (match Get(project.phases, id) case None => None case Some(p) => Some(ReportOf(p)))
  {
    var progress := ProgressCalculator.CalculateProjectProgress(project);
    var phases := project.phases;
    var fases: seq<(string, PhaseReport)> := [];
    for i := 0 to |phases|
      invariant fases == MapValues(phases[..i], ReportOf)
    {
      var (phaseId, phase) := phases[i];
      MapValuesStep(phases, ReportOf, i);
      fases := Put(fases, phaseId, ReportOf(phase));
    }
    assert phases[..|phases|] == phases;
    MapValuesBindings(phases, ReportOf);
    r := Detailed(BasicOf(progress), fases);
  }

  /** `getBasicProgress(project)`: the calculator's two percentages. */
  method GetBasicProgress(project: Project) returns (r: Basic)
    ensures r == BasicOf(ProjectProgressOf(project.phases))
    ensures 0.0 <= r.tasks <= 100.0 && 0.0 <= r.phases <= 100.0
  {
    var progress := ProgressCalculator.CalculateProjectProgress(project);
    ProjectProgressBounds(project.phases);
    r := Basic(progress.tasks.percentage, progress.phases.percentage);
  }
}
