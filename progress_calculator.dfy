/** `ProgressCalculator`: the project's summed progress and one phase's progress. */
module ProgressCalculator {
  import opened Model
  import opened Progress
  import Percent
  import PhaseService

  /** `calculateProjectProgress(project)`: one pass over the phases, adding each phase's
      recursive counts and counting the non-empty, fully done phases. */
  method CalculateProjectProgress(project: Project) returns (r: ProjectProgress)
    ensures r == ProjectProgressOf(project.phases)
    ensures r.tasks.completed == FlatCompleted(AllTasks(project.phases))
    ensures r.tasks.total == FlatTotal(AllTasks(project.phases))
    ensures r.phases.total == |project.phases|
  {
    var phases := project.phases;
    var tasksCompleted, tasksTotal, phasesCompleted := 0, 0, 0;
    var phasesTotal := |phases|;
    for i := 0 to |phases|
      invariant tasksCompleted == TasksCompleted(phases[..i])
      invariant tasksTotal == TasksTotal(phases[..i])
      invariant phasesCompleted == PhasesCompleted(phases[..i])
    {
      var phaseProgress := PhaseService.CalculatePhaseProgress(phases[i].1);
      tasksCompleted := tasksCompleted + phaseProgress.completed;
      tasksTotal := tasksTotal + phaseProgress.total;
      if phaseProgress.completed == phaseProgress.total && phaseProgress.total > 0 {
        phasesCompleted := phasesCompleted + 1;
      }
      assert phases[..i + 1][..i] == phases[..i];
    }
    assert phases[..|phases|] == phases;
    SumsAreFlatCounts(phases);
    r := ProjectProgress(
      Stats(tasksCompleted, tasksTotal, if tasksTotal > 0 then (tasksCompleted as real / tasksTotal as real) * 100.0 else 0.0),
      Stats(phasesCompleted, phasesTotal, if phasesTotal > 0 then (phasesCompleted as real / phasesTotal as real) * 100.0 else 0.0));
  }

  /** `calculatePhaseProgress(phase)`: the phase service's counts, percentage recomputed. */
  method CalculatePhaseProgress(phase: Phase) returns (r: Stats)
    ensures r.completed == FlatCompleted(phase.tasks) && r.total == FlatTotal(phase.tasks)
    ensures r.percentage == Percent.Percentage(r.completed, r.total)
    ensures r.total == 0 ==> r.percentage == 0.0
  {
    var progress := PhaseService.CalculatePhaseProgress(phase);
    r := Stats(progress.completed, progress.total,
      if progress.total > 0 then (progress.completed as real / progress.total as real) * 100.0 else 0.0);
  }

  /** Two phases, {one of two tasks done} and {its one task done}: tasks 2 of 3 and
      phases 1 of 2. */
  lemma TwoPhaseExample(a: Task, b: Task, c: Task)
    requires a.subtasks == Absent && b.subtasks == Absent && c.subtasks == Absent
    requires a.executed && !b.executed && c.executed
    ensures
      var m := [("fase1", Phase("Fase 1", false, [a, b])), ("fase2", Phase("Fase 2", false, [c]))];
      var r := ProjectProgressOf(m);
      && r.tasks.completed == 2 && r.tasks.total == 3
      && r.phases.completed == 1 && r.phases.total == 2 && r.phases.percentage == 50.0
  {
    LeavesFlat([a, b]);
    LeavesFlat([c]);
    assert [a, b][1..] == [b] && [b][1..] == [] && [c][1..] == [];
    var m := [("fase1", Phase("Fase 1", false, [a, b])), ("fase2", Phase("Fase 2", false, [c]))];
    assert m[..1] == [m[0]] && m[..1][..0] == [] && m[..|m| - 1] == m[..1];
    assert CountExecuted([a, b]) == 1 + CountExecuted([b]) == 1;
    assert CountExecuted([c]) == 1 + CountExecuted([]) == 1;
    assert FlatCompleted([a, b]) == 1 && FlatTotal([a, b]) == 2;
    assert FlatCompleted([c]) == 1 && FlatTotal([c]) == 1;
    assert TasksCompleted(m[..1]) == 1 && TasksTotal(m[..1]) == 2 && PhasesCompleted(m[..1]) == 0;
  }
}
