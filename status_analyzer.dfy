/** `StatusAnalyzer`: the status of one phase and its top-level task statistics. */
module StatusAnalyzer {
  import opened Model
  import opened Progress
  import Percent

  /** `getPhaseStatus(phase)`. The progress and the status come from the recursive counts;
      the task statistics look at the top-level tasks only, and `emAndamento` is what is
      left of the length after the open and the executed tasks, which is nothing. */
  function GetPhaseStatus(phase: Phase): (r: PhaseStatus)
    ensures r.progress == Percent.Percentage(FlatCompleted(phase.tasks), FlatTotal(phase.tasks))
    ensures r.status == Concluida <==> PhaseDone(phase)
    ensures r.status == EmAndamento <==> 0 < FlatCompleted(phase.tasks) < FlatTotal(phase.tasks)
    ensures r.status == NaoIniciada <==> FlatCompleted(phase.tasks) == 0
    ensures r.taskStats.pendentes == Pending(phase.tasks)
    ensures r.taskStats.concluidas == CountExecuted(phase.tasks)
    ensures r.taskStats.pendentes + r.taskStats.concluidas == |phase.tasks|
    ensures r.taskStats.emAndamento == 0
  {
    var completed, total := FlatCompleted(phase.tasks), FlatTotal(phase.tasks);
    var percentage := if total > 0 then (completed as real / total as real) * 100.0 else 0.0;
    var pendentes := Pending(phase.tasks);
    var concluidas := CountExecuted(phase.tasks);
    PendingPlusExecuted(phase.tasks);
    StatusOfCounts(completed, total);
    var emAndamento := |phase.tasks| - (pendentes + concluidas);
    PhaseStatus(percentage, Classify(percentage), TaskStats(pendentes, emAndamento, concluidas))
  }

  /** The empty, half-done and fully done phases of the analyser's examples. */
  lemma StatusExamples(a: Task, b: Task)
    requires a.subtasks == Absent && b.subtasks == Absent && a.executed
    ensures GetPhaseStatus(Phase("Fase", false, [])) == PhaseStatus(0.0, NaoIniciada, TaskStats(0, 0, 0))
    ensures !b.executed ==> GetPhaseStatus(Phase("Fase", false, [a, b])) == PhaseStatus(50.0, EmAndamento, TaskStats(1, 0, 1))
    ensures b.executed ==> GetPhaseStatus(Phase("Fase", false, [a, b])) == PhaseStatus(100.0, Concluida, TaskStats(0, 0, 2))
  {
    LeavesFlat([a, b]);
    assert [a, b][1..] == [b] && [b][1..] == [];
    assert CountExecuted([a, b]) == 1 + CountExecuted([b]);
    assert CountExecuted([b]) == (if b.executed then 1 else 0) + CountExecuted([]);
    assert Pending([a, b]) == Pending([b]);
    assert Pending([b]) == (if b.executed then 0 else 1) + Pending([]);
    assert FlatTotal([a, b]) == 2;
  }
}
