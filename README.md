# zPlanner task tree and progress — a Dafny model

zPlanner keeps a project plan as one document: a project name, a `last_update` date and an
ordered record of phases. Each phase holds an ordered list of tasks, and each task may hold a
nested `subtasks` list of any depth. This project models the code that changes that tree and
the code that measures progress over it:

- `TaskService`: pre-order lookup, creation, status/rename updates, in-place moves within a
  phase and between phases.
- `PhaseService`: creation, rename, removal, reordering by rebuilding the ordered record, and
  the recursive completed/total count.
- The progress engine: the legacy `ProgressService`, the modular `progress/ProgressService`,
  `ProgressCalculator`, `StatusAnalyzer` and `ProgressReporter`.
- The two orchestrators that hold the document and save it after each command:
  - `ProjectService`, built on the services;
  - `ProjectPlanner`, the older monolith with its own rules.
- The pure parts of the HTML report: `escapeHtml`, the renderer's phase progress, and the
  shape of the rendered tree (class modifier, nested wrappers, escaped and raw values).

Modules, one per source file or shared concept:

- `Splice` (`splice.dfy`): `Array.prototype.splice` for removing one element and inserting one.
- `Model` (`model.dfy`): `ITask`, `IPhase` and `IProject` as datatypes.
  - `subtasks?` is `Absent | Present(items)`, so a missing list and an empty list stay distinct.
  - The phases record is a sequence of `(id, phase)` pairs with unique ids, in enumeration order.
  - The objects the services mutate in place are the classes `PhaseDoc`, `TaskDoc` and `ProjectDoc`.
  - Also: the pre-order flattening `Flatten` and its counts.
- `Percent` (`percent.dfy`): the guarded percentage `total > 0 ? completed / total * 100 : 0`.
- `TaskService`, `PhaseService`: the two service files.
- `Progress` (`progress.dfy`): the shared definitions of the progress engine (sums over
  phases, the three-way status).
- `ProgressCalculator`, `StatusAnalyzer`, `ProgressReporter`, `ModularProgressService`: the
  progress files.
  - The legacy `services/ProgressService.ts` repeats the calculator, analyzer and reporter
    code line for line, so its rows below point at those members.
- `ProjectService`, `ProjectPlanner`: the two orchestrators.
  - Each holds the document in a `ProjectDoc` field and keeps a ghost log `saved` of every
    document written by `save`.
  - A thrown error is an `Outcome` value `Failed(message)` carrying the source's exact message.
- `HtmlTemplate` (`html_template.dfy`): the report renderer's pure parts.

Some source objects are mutated through a reference into the tree, such as `task.executed = true`
on a task found by `findTask`. These updates are modelled as replacing the first pre-order
match of the id with the node's new value (`TaskService.ReplaceInForest`). That is exact for a
document read from JSON, where no two nodes are the same object. The clock
(`new Date().toISOString()` for task stamps, `toLocaleDateString('pt-BR')` for `last_update`)
is the parameter `now` or `today`.

## Model

| member | source | states |
|---|---|---|
| Splice.Remove | src/services/TaskService.ts:56 | removing index i keeps the elements before i, shifts the rest left by one, and the multiset loses exactly s[i] |
| Splice.InsertAt | src/services/TaskService.ts:57 | inserting at i (clamped to the length, as `splice` does) places x there, keeps the prefix, shifts the suffix right, and adds exactly x to the multiset |
| Splice.InsertPastEnd | src/services/TaskService.ts:68 | inserting at or past the end appends |
| Splice.MoveProperties | src/services/TaskService.ts:56-57 | remove-then-insert keeps length and multiset, puts the moved element at the new index, and the others keep their relative order |
| Splice.RemoveThenInsertSame | src/services/TaskService.ts:56-57 | re-inserting a removed element at its old index restores the array |
| Model.Keys | src/interfaces/IProject.ts:6 | the key list of the phases record, one key per entry in order |
| Model.KeyIndex | src/services/PhaseService.ts:19 | the index of the first entry with the key, or none exactly when no entry has it |
| Model.Put | src/services/ProjectService.ts:30 | assignment `phases[id] = p`: the key then maps to p, every other key is unchanged, an existing key keeps its place and a new key goes last; unique keys stay unique |
| Model.PutTwice | src/ProjectPlanner.ts:226-244 | two writes to the same key equal the last one |
| Model.KeysSameFirsts | src/services/PhaseService.ts:30-33 | records with the same ids in the same order have the same key list |
| Model.MapValuesStep | src/services/progress/ProgressReporter.ts:29-37 | one `forEach` step writing `fases[id]` extends the record mapped so far by one entry |
| Model.KeyIndexSameFirsts | src/services/PhaseService.ts:19 | the lookup depends only on the ids |
| Model.KeysAppend | src/services/ProjectService.ts:30 | appending an entry appends its key |
| Model.KeyIndexAppend | src/services/ProjectService.ts:26 | lookup in an extended record finds the old entry first, else the new one |
| Model.GetUnique | src/services/PhaseService.ts:30-33 | with unique ids every entry is what its key reads |
| Model.DeleteKeepsOrder | src/services/PhaseService.ts:38-42 | `delete` of a present key removes exactly its position from the key order; of an absent key changes nothing |
| Model.DeleteProperties | src/services/PhaseService.ts:38-42 | `delete phases[id]` removes that key only, keeps ids unique, and shrinks the record by one exactly when the key was there |
| Model.MapValues | src/services/progress/ProgressReporter.ts:29-37 | a record built per phase has the same ids in the same order, each with its computed value |
| Model.MapValuesBindings | src/services/progress/ProgressService.ts:124-126 | the built record has exactly the project's phase ids, unique, each mapped to the value computed from that phase |
| Model.FlattenTask | src/services/PhaseService.ts:48-56 | a task's pre-order listing starts with the task itself |
| Model.FlattenAppend | src/services/PhaseService.ts:49 | flattening distributes over concatenation of sibling lists |
| Model.FlattenSingle | src/services/PhaseService.ts:52-54 | a one-task forest flattens to that task's listing |
| Model.LeavesFlat | src/services/PhaseService.ts:52 | a forest with no subtask lists is its own listing |
| Model.FlattenSplit | src/services/TaskService.ts:10-19 | the listing of a forest is the listing before task i, then task i's, then the rest |
| Model.CountExecuted | src/services/PhaseService.ts:51 | the executed count never exceeds the number of tasks |
| Model.CountExecutedAppend | src/services/PhaseService.ts:51 | executed counts add over concatenation |
| Model.FlatCompleted | src/services/PhaseService.ts:44-58 | the completed count over every depth is at most the total over every depth |
| Model.PhaseDoc.constructor | src/interfaces/IPhase.ts:3-7 | a mutable phase object holds exactly the given value |
| Model.TaskDoc.constructor | src/interfaces/ITask.ts:1-10 | a mutable task object holds exactly the given value |
| Model.ProjectDoc.constructor | src/interfaces/IProject.ts:3-7 | a loaded document holds the given value and its record has unique ids |
| Percent.Percentage | src/services/PhaseService.ts:59 | 0 when the total is 0; between 0 and 100 when completed ≤ total; 100 exactly when completed = total > 0; positive exactly when both counts are positive |
| Percent.RatioBounds | src/services/PhaseService.ts:59 | the ratio completed/total lies in [0, 1], is 1 exactly when equal and positive exactly when completed > 0 |
| Percent.PercentageMonotone | src/services/PhaseService.ts:59 | more completed tasks never lower the percentage |
| TaskService.FindInTask | src/services/TaskService.ts:10-19 | a task found under a node carries the requested id |
| TaskService.FindBelow | src/services/TaskService.ts:13-16 | a task found in a node's subtasks carries the requested id |
| TaskService.FindInForest | src/services/TaskService.ts:10-19 | a task found in the forest carries the requested id |
| TaskService.IndexOfId | src/services/TaskService.ts:51 | `findIndex`: the first top-level index with the id, or none exactly when no top-level task has it |
| TaskService.IndexOfIdAppend | src/services/TaskService.ts:51 | `findIndex` over a concatenation looks in the first part, then in the second with an offset |
| TaskService.FindIsPreOrder | src/services/TaskService.ts:10-19 | the recursive search returns the first task with the id in pre-order (task before its subtasks, siblings left to right) |
| TaskService.FindInTaskIsPreOrder | src/services/TaskService.ts:11-16 | under one node the search returns the first pre-order match in that node's listing |
| TaskService.FindNoneIffAbsent | src/ProjectPlanner.ts:200-216 | the search yields nothing exactly when no task at any depth has the id |
| TaskService.FindTask | src/services/TaskService.ts:6-22 | both results are null exactly when the phase id is not a key; otherwise the phase is that key's phase and the task is the first pre-order match, or null |
| TaskService.CreateTask | src/services/TaskService.ts:24-33 | a new task has the given id, name and parent, is not executed, has no subtask list and no description, and both stamps are `now` |
| TaskService.AddTask | src/services/TaskService.ts:35-38 | `push`: the phase's tasks become the old tasks plus exactly one new task at the end; name and executed unchanged |
| TaskService.StatusUpdated | src/services/TaskService.ts:40-43 | the updated task has the given executed flag and the new stamp, and no other field differs |
| TaskService.Renamed | src/services/TaskService.ts:45-48 | the renamed task has the new name and stamp, and no other field differs |
| TaskService.StatusUpdateIdempotent | src/services/TaskService.ts:40-43 | setting the same status twice equals setting it once (with the later stamp) |
| TaskService.UpdateTaskStatus | src/services/TaskService.ts:40-43 | the task object becomes `StatusUpdated` of its old value |
| TaskService.RenameTask | src/services/TaskService.ts:45-48 | the task object becomes `Renamed` of its old value |
| TaskService.FindTaskById | src/services/TaskService.ts:72-74 | `find` at top level only: the result is the first top-level task with the id; none exactly when no top-level task has it |
| TaskService.MovedWithin | src/services/TaskService.ts:50-59 | refused exactly when the id is not at top level or the position is outside [0, length); otherwise same length and multiset, the moved task at the new position, the others in their old relative order |
| TaskService.MoveTask | src/services/TaskService.ts:50-59 | the method returns whether the move is allowed and leaves the array as `MovedWithin` says, unchanged when refused |
| TaskService.MovedAcross | src/services/TaskService.ts:61-70 | refused exactly when the id is not at top level of the source or the position is outside [0, target length]; otherwise the source loses that task, the target gains it at the position and is otherwise unchanged, and no task is lost or duplicated |
| TaskService.MoveTaskBetweenPhases | src/services/TaskService.ts:61-70 | two distinct phases change as `MovedAcross` says; when both arguments are the same phase object the second `splice` sees the shortened array, and the method states that case too |
| TaskService.Marks | src/services/TaskService.ts:10-19 | the (id, executed) view of a listing has one entry per task |
| TaskService.MarksAppend | src/services/TaskService.ts:10-19 | that view distributes over concatenation |
| TaskService.ReplaceSplicesPreOrder | src/services/TaskService.ts:10-21 | writing through the reference to the first match replaces exactly that node's block in the pre-order listing and leaves the rest of the listing in place |
| TaskService.ReplaceSplicesHead | src/services/TaskService.ts:11-16 | the same, when the match lies in the first top-level tree |
| TaskService.ReplaceSplicesRest | src/services/TaskService.ts:11-16 | the same, when the match lies after the first top-level tree |
| TaskService.ReplaceSplicesTask | src/services/TaskService.ts:12-16 | the same, inside one tree |
| TaskService.ReplaceSplicesBelow | src/services/TaskService.ts:13-16 | the same, inside one tree's subtasks |
| TaskService.FindAfterReplace | src/services/ProjectService.ts:104-109 | after the write, searching the same id finds the written node |
| TaskService.FindAfterReplaceTask | src/services/TaskService.ts:12-16 | the same, inside one tree |
| TaskService.DoneCount | src/services/PhaseService.ts:51 | at most one completed per entry |
| TaskService.DoneCountAppend | src/services/PhaseService.ts:51 | completed counts add over concatenation |
| TaskService.CountExecutedIsDoneCount | src/services/PhaseService.ts:51 | counting on tasks and on their (id, executed) view agree |
| TaskService.IdCount | src/ProjectPlanner.ts:230-233 | the number of nodes carrying an id is at most the listing length |
| TaskService.IdCountAppend | src/ProjectPlanner.ts:230-233 | id counts add over concatenation |
| TaskService.IdCountZero | src/services/TaskService.ts:51 | an id occurs zero times exactly when `findIndex` finds nothing |
| TaskService.FindNoneIffNoMark | src/ProjectPlanner.ts:230-233 | the recursive search finds nothing exactly when no node at any depth carries the id |
| TaskService.WithSubtaskList | src/services/ProjectService.ts:78-80 | the node gets an empty list when it had none, and is unchanged when it had one |
| TaskService.WithSubtask | src/services/ProjectService.ts:78-83 | the node's list becomes its list (created if missing) plus the new child, nothing else changes |
| TaskService.MarksOfTask | src/services/TaskService.ts:12-16 | a tree's view is its root's entry followed by its subtasks' view |
| TaskService.ReplaceMarks | src/services/TaskService.ts:10-21 | the first match sits at a definite position of the view, and the write replaces only its block there |
| TaskService.SetStatusMarks | src/services/ProjectService.ts:103-121 | setting a node's status changes exactly one entry of the view, the first with that id |
| TaskService.UpdateMiddle | src/services/ProjectService.ts:109 | updating the middle element of `pre + [a] + post` gives `pre + [b] + post` |
| TaskService.DoneCountUpdate | src/services/ProjectService.ts:109 | changing one entry moves the completed count by that entry's change only |
| TaskService.SetStatusInForest | src/services/ProjectService.ts:103-121 | setting one node's status keeps the total and moves the completed count by exactly the flag's change |
| TaskService.AddSubtaskInForest | src/services/ProjectService.ts:71-85 | pushing a leaf under the parent inserts exactly one entry at the end of the parent's block: total +1, completed + the child's flag, the child's id once more |
| TaskService.SubtaskListKeepsMarks | src/ProjectPlanner.ts:225-227 | creating an empty list leaves every node and every count as it was |
| PhaseService.CreatePhase | src/services/PhaseService.ts:5-11 | a new phase has the given name, is not executed and has no tasks |
| PhaseService.RenamePhase | src/services/PhaseService.ts:13-15 | only the name changes |
| PhaseService.MovedPhases | src/services/PhaseService.ts:17-36 | refused exactly when the id is absent or the position is outside [0, count); otherwise same length and entries, the moved entry at the position, the others in their old relative order |
| PhaseService.UniqueKeysRemove | src/services/PhaseService.ts:26 | removing an entry keeps ids unique and the removed id no longer occurs |
| PhaseService.UniqueKeysInsert | src/services/PhaseService.ts:27 | inserting an entry with a fresh id keeps ids unique |
| PhaseService.GetIffEntry | src/services/PhaseService.ts:30-33 | with unique ids a key reads a phase exactly when that pair is an entry |
| PhaseService.SameEntriesSameGet | src/services/PhaseService.ts:30-33 | two unique-id records with the same entries read the same at every key |
| PhaseService.MovedPhasesKeepsBindings | src/services/PhaseService.ts:25-33 | a move keeps ids unique, keeps every id mapped to the same phase and puts the moved id at the position |
| PhaseService.MovePhase | src/services/PhaseService.ts:17-36 | the method returns whether the move is allowed and leaves the record as `MovedPhases` says, unchanged when refused; name and `last_update` untouched |
| PhaseService.Rebuild | src/services/PhaseService.ts:30-33 | the `reduce` that rebuilds the record from its entries gives back the same record |
| PhaseService.RemovePhase | src/services/PhaseService.ts:38-42 | returns whether the key was there and leaves the record without that key, everything else kept |
| PhaseService.CountTasks | src/services/PhaseService.ts:48-56 | the recursive counter adds the number of tasks at every depth to `total` and the number of executed ones to `completed` |
| PhaseService.StepCounts | src/services/PhaseService.ts:49-54 | one loop step adds the task and its whole subtree to both counts |
| PhaseService.CalculatePhaseProgress | src/services/PhaseService.ts:44-62 | completed and total are the counts over every depth and the percentage is their guarded ratio |
| PhaseService.PhaseProgressExamples | src/services/PhaseService.ts:44-62 | the worked cases 2/3, 3/3 (100%), 0/0 (0%) and 2/3 with an open parent |
| PhaseService.TwoLeaves | src/services/PhaseService.ts:48-56 | a task with two leaf subtasks lists as the task then the two leaves, counting each flag once |
| PhaseService.OneChild | src/services/PhaseService.ts:52-54 | a task with one child lists as the task then the child's listing |
| Progress.PhasesCompleted | src/services/ProgressService.ts:27-29 | the number of completed phases never exceeds the number of phases |
| Progress.SumsAreFlatCounts | src/services/ProgressService.ts:22-25 | the summed task counts equal the counts over every task of every phase |
| Progress.ProjectProgressBounds | src/services/ProgressService.ts:13-44 | completed ≤ total for tasks and phases, phases total is the number of phases, both percentages in [0, 100], and all six figures are 0 for a project without phases |
| Progress.AllPhasesCompleted | src/services/ProgressService.ts:27-29 | every phase counts as completed exactly when every phase is non-empty and fully done |
| Progress.StatusOfCounts | src/services/ProgressService.ts:58-63 | the status is `concluída` exactly when completed = total > 0, `em andamento` exactly when 0 < completed < total, `não iniciada` exactly when completed = 0 |
| Progress.PendingPlusExecuted | src/services/ProgressService.ts:54-56 | top-level pending plus top-level executed is the number of top-level tasks |
| ProgressCalculator.CalculateProjectProgress | src/services/progress/ProgressCalculator.ts:9-40 | the loop sums each phase's counts over every depth, counts non-empty fully done phases, and reports guarded percentages |
| ProgressCalculator.CalculatePhaseProgress | src/services/progress/ProgressCalculator.ts:42-52 | the phase counts over every depth with the guarded percentage, 0 for an empty phase |
| ProgressCalculator.TwoPhaseExample | src/services/progress/ProgressCalculator.ts:23-25 | phases {2 tasks, 1 done} and {1 task, done} give tasks 2/3 and phases 1/2 (50%) |
| StatusAnalyzer.GetPhaseStatus | src/services/progress/StatusAnalyzer.ts:8-36 | progress is the guarded percentage over every depth; status by the three-way rule on the counts; pending and done count top-level tasks, add up to the number of top-level tasks, and `emAndamento` is always 0 |
| StatusAnalyzer.StatusExamples | src/services/progress/StatusAnalyzer.ts:8-36 | empty phase: 0%, não iniciada, (0,0,0); half done: 50%, em andamento, (1,0,1); all done: 100%, concluída, (0,0,2) |
| ProgressReporter.ReportOf | src/services/progress/ProgressReporter.ts:30-36 | an entry carries the phase's name and the analyzer's progress, status and task stats |
| ProgressReporter.GetDetailedProgress | src/services/progress/ProgressReporter.ts:22-46 | `geral` holds the calculator's two percentages; `fases` has exactly the project's phase ids, each mapped to its phase's entry |
| ProgressReporter.GetBasicProgress | src/services/progress/ProgressReporter.ts:48-54 | the calculator's two percentages, both in [0, 100] |
| ModularProgressService.InProgressVersusPending | src/services/progress/ProgressService.ts:88-92 | this variant's `emAndamento` counts pending tasks with a non-empty id: never more than `pendentes`, equal when no id is empty, 0 exactly when every pending task has an empty id |
| ModularProgressService.GetPhaseStatus | src/services/progress/ProgressService.ts:73-99 | same progress, status, `pendentes` and `concluidas` as the analyzer; `emAndamento` is the number of open top-level tasks whose id is non-empty, so between 0 and `pendentes` |
| ModularProgressService.VariantsAgree | src/services/progress/ProgressService.ts:88-92 | the two status variants agree on everything except `emAndamento`, which agrees exactly when every pending top-level task has an empty id |
| ModularProgressService.GetDetailedProgress | src/services/progress/ProgressService.ts:106-132 | `projectProgress` is the project progress; `phaseDetails` has exactly the phase ids, each mapped to its phase's status |
| ProjectService.ToEnd | src/services/ProjectService.ts:95-96 | moving a task to the end of its own phase keeps the multiset, puts it last and keeps the others in order |
| ProjectService.TaskMoved | src/services/ProjectService.ts:87-101 | refused exactly when the task is not at top level of the source; otherwise the source loses the task at its first index and the target gets it appended at its end (within one phase the task goes to the end), ids stay unique and the other phases are unchanged |
| ProjectService.MoveInRecord | src/services/ProjectService.ts:95-96 | moving through `moveTaskBetweenPhases` at position `target.length` produces `TaskMoved`, also when source and target are the same phase |
| ProjectService.ProjectService.constructor | src/services/ProjectService.ts:13-23 | the service holds the loaded document, nothing saved yet |
| ProjectService.ProjectService.UpdateAndSave | src/services/ProjectService.ts:138-141 | `last_update` becomes today, nothing else changes, and exactly that document is saved once |
| ProjectService.ProjectService.AddPhase | src/services/ProjectService.ts:25-32 | fails exactly when the id exists, with its message and no change or save; otherwise a fresh phase is added last under the id, stamped and saved once |
| ProjectService.ProjectService.RenamePhase | src/services/ProjectService.ts:34-42 | fails exactly when the phase is absent; otherwise only that phase's name changes, in place, stamped and saved once |
| ProjectService.ProjectService.MovePhase | src/services/ProjectService.ts:44-50 | fails exactly when the move is refused; otherwise the record becomes the moved one, stamped and saved once |
| ProjectService.ProjectService.RemovePhase | src/services/ProjectService.ts:52-58 | fails exactly when the phase is absent; otherwise exactly that key goes, stamped and saved once |
| ProjectService.ProjectService.AddTask | src/services/ProjectService.ts:60-69 | fails exactly when the phase is absent; otherwise one new task is appended with no duplicate check, total +1, completed unchanged, stamped and saved once |
| ProjectService.ProjectService.AddSubtask | src/services/ProjectService.ts:71-85 | fails exactly when the parent is found nowhere in the phase; otherwise the parent's list is created if missing and gets the new child with that parent id; total +1, completed unchanged, the child's id occurs once more (no duplicate check); stamped and saved once |
| ProjectService.ProjectService.MoveTask | src/services/ProjectService.ts:87-101 | fails with its message when either phase is absent, or exactly when the task is not top-level in the source; otherwise the task leaves the source and is appended at the end of the target, as `TaskMoved` states; stamped and saved once |
| ProjectService.ProjectService.CompleteTask | src/services/ProjectService.ts:103-111 | fails exactly when the task is found nowhere in the phase; otherwise that node alone becomes executed with a new stamp, the search then finds it so, total unchanged and completed adjusted by the flag's change; no parent or phase flag changes; stamped and saved once |
| ProjectService.ProjectService.PendingTask | src/services/ProjectService.ts:113-121 | the same with executed = false |
| ProjectService.ProjectService.SetStatus | src/services/ProjectService.ts:104-110 | the shared body of the two: look up at any depth, set the flag through the reference, stamp and save |
| ProjectService.ProjectService.GetProgress | src/services/ProjectService.ts:123-129 | the two percentages of the project progress, in [0, 100], tasks 100 exactly when every task at every depth is executed and there is one |
| ProjectService.ProjectService.GetDetailedProgress | src/services/ProjectService.ts:131-136 | the reporter's result for the held document, one entry per phase id |
| ProjectService.AppendLeafCounts | src/services/ProjectService.ts:66-67 | appending a leaf adds one to the total and its flag to the completed count |
| ProjectPlanner.AllExecutedCount | src/ProjectPlanner.ts:111 | `every(t => t.executed)` holds exactly when the executed count is the length |
| ProjectPlanner.FlaggedPhases | src/ProjectPlanner.ts:78 | phases counted by their own `executed` flag, at most the number of phases |
| ProjectPlanner.ProgressOf | src/ProjectPlanner.ts:75-90 | top-level tasks only: (0, 0) when there are no tasks even if phases exist; both in [0, 100]; tasks 100 exactly when every top-level task is executed, positive exactly when one is; phases 100 exactly when there are tasks and every phase's flag is set |
| ProjectPlanner.TopLevelOnly | src/ProjectPlanner.ts:80-82 | an executed task with one open subtask reads 100% here but 50% in the services' progress |
| ProjectPlanner.TaskCompleted | src/ProjectPlanner.ts:110-111 | the task becomes executed (no other field changes, no stamp), the other tasks are untouched, and the phase flag becomes whether every other top-level task is executed |
| ProjectPlanner.TaskReopened | src/ProjectPlanner.ts:128-129 | the task and the phase both become not executed, other tasks untouched |
| ProjectPlanner.SubtaskCompletedEffect | src/ProjectPlanner.ts:258-281 | for every tree and every id found in it: the task's own entry (its first pre-order match) becomes executed and nothing else changes; then, when its `parentId` names a node found in the tree, that parent's entry becomes executed exactly when every child in its list is executed, and every other entry keeps its id and flag |
| ProjectPlanner.SubtaskCompletedCounts | src/ProjectPlanner.ts:258-281 | completing a subtask keeps the total, leaves the task's own entry executed, and raises the completed count by at most two (the task and its parent), by at most one when the task was already done |
| ProjectPlanner.OneLevelOnly | src/ProjectPlanner.ts:269-278 | completing the only grandchild completes its parent but not the grandparent |
| ProjectPlanner.DefaultProject | src/ProjectPlanner.ts:36-42 | the default document is named `Novo Projeto`, dated today and has no phases |
| ProjectPlanner.ProjectPlanner.constructor | src/ProjectPlanner.ts:31-61 | a parsed document is held as read, nothing saved; a `null` document becomes the default, not saved; a missing or unreadable file becomes the default, saved once |
| ProjectPlanner.ProjectPlanner.Stamp | src/ProjectPlanner.ts:113-114 | `last_update` becomes today and the document is saved once |
| ProjectPlanner.ProjectPlanner.GetProgress | src/ProjectPlanner.ts:75-90 | the held document's top-level progress as `ProgressOf` states it |
| ProjectPlanner.ProjectPlanner.CompleteTask | src/ProjectPlanner.ts:99-115 | missing phase, then missing top-level task, fail with their messages and no change; otherwise the phase becomes `TaskCompleted`, stamped and saved once |
| ProjectPlanner.ProjectPlanner.PendingTask | src/ProjectPlanner.ts:117-133 | the same checks; otherwise the phase becomes `TaskReopened`, stamped and saved once |
| ProjectPlanner.ProjectPlanner.AddPhase | src/ProjectPlanner.ts:135-148 | fails exactly when the id exists; otherwise an empty open phase is added last, stamped and saved once |
| ProjectPlanner.ProjectPlanner.AddTask | src/ProjectPlanner.ts:150-170 | missing phase fails; a top-level id already in the phase fails; otherwise one new task is appended, stamped and saved once, and unique top-level ids stay unique |
| ProjectPlanner.ProjectPlanner.RemovePhase | src/ProjectPlanner.ts:172-181 | fails exactly when the phase is absent; otherwise exactly that key goes, stamped and saved once |
| ProjectPlanner.ProjectPlanner.RemoveTask | src/ProjectPlanner.ts:183-198 | missing phase or missing top-level task fails; otherwise the first top-level match alone is removed, stamped and saved once |
| ProjectPlanner.ProjectPlanner.AddSubtask | src/ProjectPlanner.ts:218-246 | a missing parent fails with no change; a subtask id found anywhere in the phase fails without saving, yet a parent that had no list keeps the new empty list in memory; otherwise the child is appended, its id occurs exactly once, the total grows by one, and the document is saved without touching `last_update` |
| ProjectPlanner.ProjectPlanner.CompleteSubtask | src/ProjectPlanner.ts:258-281 | fails exactly when the task is found nowhere in the phase; otherwise the tree becomes `SubtaskCompleted`, whose effect `SubtaskCompletedEffect` states (the task, then its parent when all its children are done, executed and stamped), and is saved without touching `last_update` |
| ProjectPlanner.SubtaskFacts | src/ProjectPlanner.ts:225-244 | the duplicate check answers the same before and after the list is created, and the push adds one node and one occurrence of the id |
| ProjectPlanner.ListCreationShows | src/ProjectPlanner.ts:225-227 | creating the missing list is a visible change of the document |
| HtmlTemplate.EscapeChar | src/templates/HTMLTemplate.ts:122-128 | a replaced character becomes its entity, every other character stays as it is, and no output contains a raw `<`, `>`, `'` or `"` |
| HtmlTemplate.EscapeHtml | src/templates/HTMLTemplate.ts:121-130 | the output holds no raw `<`, `>`, `'` or `"` and is never shorter than the input |
| HtmlTemplate.EscapeAppend | src/templates/HTMLTemplate.ts:129 | escaping distributes over concatenation |
| HtmlTemplate.EscapePlain | src/templates/HTMLTemplate.ts:129 | text without the five characters is unchanged |
| HtmlTemplate.DecodeFirst | src/templates/HTMLTemplate.ts:122-128 | decoding one unit consumes at least one character |
| HtmlTemplate.DecodeEscaped | src/templates/HTMLTemplate.ts:122-128 | each entity decodes back to its character, whatever follows it |
| HtmlTemplate.UnescapeStep | src/templates/HTMLTemplate.ts:129 | decoding an escaped character followed by anything gives the character, then the rest decoded |
| HtmlTemplate.UnescapeEscape | src/templates/HTMLTemplate.ts:121-130 | escaping loses nothing: decoding the output gives back the text |
| HtmlTemplate.EscapeGrows | src/templates/HTMLTemplate.ts:129 | any replaced character makes the output strictly longer |
| HtmlTemplate.EscapeKeepsIff | src/templates/HTMLTemplate.ts:121-130 | escaping leaves a text unchanged exactly when it has none of the five characters |
| HtmlTemplate.CountTasksIsFlat | src/templates/HTMLTemplate.ts:99-115 | the `reduce` count gives the number of tasks and of executed tasks at every depth |
| HtmlTemplate.CountFoldIsFlat | src/templates/HTMLTemplate.ts:100-114 | folding from an accumulator adds those counts to it |
| HtmlTemplate.CountStepIsFlat | src/templates/HTMLTemplate.ts:101-111 | one reducer step adds the task and its whole subtree |
| HtmlTemplate.NonEmptyForest | src/templates/HTMLTemplate.ts:97 | a phase with top-level tasks has a positive total, so the division is safe |
| HtmlTemplate.RenderProgress | src/templates/HTMLTemplate.ts:96-119 | 0 with no top-level tasks, otherwise the same percentage as the services for that phase, always in [0, 100] |
| HtmlTemplate.ModifierIffExecuted | src/templates/HTMLTemplate.ts:43 | the class attribute ends in `--concluida` exactly when the node is executed, at each of the three levels |
| HtmlTemplate.RenderItems | src/templates/HTMLTemplate.ts:58-75 | one element per task, in order |
| HtmlTemplate.ItemViews | src/templates/HTMLTemplate.ts:68-70 | one view per element |
| HtmlTemplate.TaskViews | src/templates/HTMLTemplate.ts:68-70 | one expected view per task |
| HtmlTemplate.ItemViewsAppend | src/templates/HTMLTemplate.ts:74 | element views distribute over `join` |
| HtmlTemplate.TaskViewsAppend | src/templates/HTMLTemplate.ts:74 | task views distribute over concatenation |
| HtmlTemplate.RenderMirrorsForest | src/templates/HTMLTemplate.ts:58-94 | in document order, the rendered elements match the tasks at every depth one for one: raw id, the modifier exactly on executed nodes, escaped name, a nested wrapper exactly where a subtask list exists (even an empty one) |
| HtmlTemplate.RenderMirrorsTask | src/templates/HTMLTemplate.ts:77-94 | the same for one task and its subtree |
| HtmlTemplate.RenderPhases | src/templates/HTMLTemplate.ts:38-56 | one element per phase in order, with the raw id, the escaped name, the modifier exactly when the phase is executed, the renderer's progress, and tasks that mirror the forest |
| HtmlTemplate.RenderPage | src/templates/HTMLTemplate.ts:13-36 | title and heading are the escaped project name, `last_update` is inserted raw, and the phases are `RenderPhases` of the record in its order, one element per phase |

## Left out

- Files, JSON and the repository: `loadProject` and `saveProject` bodies, `FileProjectRepository`
  and `HTMLExportService`. A save is one entry appended to the ghost log `saved`; the load outcome
  is the `Stored` value given to the `ProjectPlanner` constructor. The `ProjectService`
  constructor receives the loaded document directly.
- `saveProject` failing with `Erro ao salvar projeto`: every save is assumed to succeed.
- Floating point: percentages are exact reals, not IEEE doubles.
  - `ProjectPlanner.ProgressOf` does not model `Number(x.toFixed(1))` rounding, because rounding a real to one decimal has no counterpart without floating-point text conversion.
  - `Percent.Percentage` is the exact ratio, so values like 66.66666666666666 are not reproduced.
- Clock: timestamps are the parameters `now` and `today` and are not checked for format.
- JavaScript key order (integer-like keys enumerate first): the phases record keeps insertion order.
- `ProjectService.ProjectService.GetDetailedProgress` requires unique phase ids, which a JavaScript record always has.
- Object identity: a reference into the tree is modelled by value. `ProjectService.ProjectService.AddSubtask`, `ProjectService.ProjectService.CompleteTask`, `ProjectService.ProjectService.PendingTask`, `ProjectService.ProjectService.SetStatus`, `ProjectPlanner.ProjectPlanner.AddSubtask` and `ProjectPlanner.ProjectPlanner.CompleteSubtask` write the updated node back at its first pre-order match. That is the node the source mutates as long as no object occurs twice in the tree; when one does, the source changes every occurrence and the model only the first.
- `PhaseService.MovePhase` and `ProjectService.ProjectService.MovePhase` take an integer position. The command handler parses it with `parseInt`, which can give NaN: the range check then passes and `splice` inserts the phase at the front. That path is not modelled, because a NaN position has no integer counterpart.
- `Model.Get` treats a key as present only when it was stored. In JavaScript, `record[id]` for inherited names such as `constructor` or `toString` yields a truthy value, so the record lookups of `ProjectService`, `PhaseService` and `ProjectPlanner` would read such an id as present. Prototype members are not modelled.
- The literal markup of `generateHTML`, the CSS of `StyleTemplate` and `ProjectPlanner.generateHTML`:
  the rendered tree is modelled as values (class attribute, id, name, wrapper). The markup text
  around them is not.
- `ProjectPlanner.listTasks`, `listTasksWithSubtasks` and `getProject`, `ProjectService.getProject`:
  they only return the held document or a projection of it.
- The command line (`cli.ts`, the handlers, `CommandRegistry`, `HelpMessages`) and the console output.
