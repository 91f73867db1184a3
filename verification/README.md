# Verified model of the pipelines declarative executor's operator and viewer

The repository runs declarative pipelines. Its operator keeps runs and schedules in tables, starts Kubernetes Jobs,
watches them, and fires schedules; its user interface edits runs, draws pipelines and shows logs. This project models
five parts of it in Dafny and proves what they promise.

- **Pipeline graph.** A stage tree is compiled to boxes and edges. `Layout` is the specification, `LayoutEngine` the
  loops that compute it. `Geometry`, `Spacing`, `Flow` and `Rails` prove that boxes do not overlap and stand no
  further apart than they have to, and that edges and handles meet them; `Captions` says what each box shows; `Names`,
  `Precedence`, `EdgeIds`, `Collapse` and `Erasure` prove that edges mean the order of the pipeline, that ids are
  unique and that collapsing a group is erasure.
- **Secrets.** `Secrets` masks and merges secure variables. `MergeLaws` says line by line what any text becomes;
  `SecretLaws` proves the round trip through a masked edit, `FormEdits` the one that also passes the form of the user
  interface and `FormPairs` that of the form alone (`Lines` holds the line splitting of both languages).
- **Operator.** `Records` are the tables. `Runs`, `Queue`, `Reconciler`, `Schedules` and `Dispatcher` say what each
  call leaves in them; `Services`, `Workers` and `ScheduleServices` are the classes that update them in place, every
  method proved to leave exactly that. `Operator` is the whole as a state machine: each committed session is one
  event, in any order, with the answers of storage, cluster and Jobs left open. `Outcomes`, `Claims`,
  `ScheduleOutcomes` and `Refusals` say what each event does in the words of the tables, without those functions, and
  why a call is refused; `Effects` shows each event from one row. `Lifecycle`, `Capacity`, `Fairness`, `Progress`,
  `Agreement`, `Roots`, `Dispatch`, `Polling` and `SkipPolicy` prove what holds over every sequence of events,
  `TwoDispatchers` shows one in which the `skip` policy fails and `LostUpdates` two that leave a row behind its input,
  `Edits` joins rows, inputs and secrets over an unchanged edit, and `Reachable` puts the invariants together.
- **Text.** `Ansi` turns log text into HTML and is proved against a reader of HTML and a reference interpreter, and
  `AnsiLaws` says what that shows of each control sequence. `Routing` reads and prints paths; `Paths` says which.
- **Forms.** `Forms` evaluates a declarative form and assembles a run. `FormLaws` says when it does and what its
  variable texts hold, `PayloadLaws` whose value each part of a payload is; `EnvLines` reads such texts back.

What the code cannot decide is a parameter: whether storage, the cluster and deletions answer, what phase and
diagnostic a Job has, which rows other sessions have locked, the clock, and the ids drawn, which are new. Times are
integers of one unit. The cron library is a function from an expression and a time to the next instant, or nothing
where it raises; the theorems that need it assume that it returns the least occurrence strictly after its base.
Statuses that arrive from a Job are arbitrary: nothing assumes that a finished run stays finished, and the theorems
name the deliveries that revive one.

Where the code and its description differ, the model follows the code:

- `schedule_service.py` describes a row as the masked form of what is stored. An update stores the new input (line
  134) before it asks for a new anchor (line 147) and before it commits (line 150), and nothing puts the old one back.
  When an accepted expression has no next occurrence, or the commit fails, the new input stays under the unchanged
  row; `Agreement.UpdateAgrees` gives the exact condition, and `Agreement.SchedulesAlwaysAgree` that of whole
  sequences of events. The first cause is only real where `schedules_min_interval_seconds` is zero
  (`LostUpdates.LostAnchorExample`): otherwise the sampling (`cron_utils.py:43-46`) has found eight occurrences before
  anything is stored, so the library would have to find occurrences without the zone and none with it
  (`Agreement.SamplingKeepsAnchor`). The second is real at every setting (`LostUpdates.LostCommitExample`), and with
  an interval the only one (`Agreement.OnlyCommitsFail`, `Agreement.IntervalKeepsAgreement`).
- Deleting a run or a schedule deletes what is stored before it commits (`run_service.py:359-363`,
  `schedule_service.py:171-175`), so a failed commit leaves a row without its input: `Agreement.StepStored`.
- `docs/pde_operator.md` says that `skip` holds a firing while the previous run is active. Between claim and fire
  there is no run yet, so a claim that is not fired holds nothing back: `SkipPolicy.NeverOverlaps` shows that a
  schedule stays at one exactly if no tick claims it beside a pending claim. One dispatcher never does
  (`SkipPolicy.OneDispatcherNeverOverlaps`); two that are an occurrence apart do, at the default settings
  (`TwoDispatchers.TwoDispatchersOverlap`).
- A line of secure variables without an equals sign does not survive a masked edit: `SecretLaws.MaskThenMerge` gives
  the exact condition.

`dafny verify dfyconfig.toml` checks the project.

## Model

| member | source | states |
|---|---|---|
| Geometry.NoOverlap | argocd_extension/ui/src/components/pipeline-viewer/layout.ts:83-224 | for every report and collapsed set, in page coordinates: two boxes overlap exactly when one is an ancestor of the other; a descendant keeps GROUP_PAD inside its group, any other two boxes are GAP_Y apart on some axis |
| Geometry.StageNeat | argocd_extension/ui/src/components/pipeline-viewer/layout.ts:174-189 | the induction behind it for one stage of any kind: its boxes stay inside the segment it reports, none outside its parent |
| Geometry.RowNeat | argocd_extension/ui/src/components/pipeline-viewer/layout.ts:191-224 | the same for a row of stages laid side by side |
| Captions.DrawnExactlyIf | argocd_extension/ui/src/components/pipeline-viewer/layout.ts:47-189 | for every report and collapsed set, whatever the ids: a box with an id, caption and status is drawn exactly if it is that of a stage in sight, 168 by 44, of a nested pipeline in sight, or of a rail of a block in sight, with a handle for each branch |
| Spacing.NoSpareRoom | argocd_extension/ui/src/components/pipeline-viewer/layout.ts:83-172 | branches stand 16 apart between the ends of their rails, each handle at the exact middle of a branch, and an open group is just as large as what it holds with 20 around it and its header |
| Rails.HandlesMeetBoxes | argocd_extension/ui/src/components/pipeline-viewer/layout.ts:98-110 | on the page, every numbered handle of a rail is level with the vertical middle of the box at the other end of its edge |
| Flow.EdgesRunForward | argocd_extension/ui/src/components/pipeline-viewer/layout.ts:37-45 | every edge joins boxes of one group, from left to right, with exactly 72 between stages and 56 behind a split rail, and at least that before a merge rail; a drawing has one entry and one exit |
| Precedence.LeadsMeansBefore | argocd_extension/ui/src/components/pipeline-viewer/layout.ts:191-224 | directed reachability in the drawing is exactly the order of the stage tree, rails included |
| Precedence.EdgesMeanPrecedence | argocd_extension/ui/src/components/pipeline-viewer/layout.ts:200-213 | two stages or groups are joined by a path exactly when they stand on one level and descend from different positions of its list, earlier to later; reachability moves right inside one group, so nothing leads back to itself |
| Precedence.StagesTransitive | argocd_extension/ui/src/components/pipeline-viewer/layout.ts:191-224 | the order of the stage tree is transitive |
| Precedence.StageLevel | argocd_extension/ui/src/components/pipeline-viewer/layout.ts:174-189 | which boxes of a stage's drawing stand on its own level |
| Precedence.RowLevel | argocd_extension/ui/src/components/pipeline-viewer/layout.ts:191-224 | which boxes of a row stand on its level |
| Erasure.CollapseErases | argocd_extension/ui/src/components/pipeline-viewer/layout.ts:127-172 | for all trees: collapsing more groups leaves exactly the nodes without a collapsed ancestor, in order, with ids and parents, none larger or further right or down; and exactly the edges that start at the box of one of those nodes, in order; with plain, distinct sibling ids these are the edges whose source is the id of one |
| Collapse.HiddenMeansInside | argocd_extension/ui/src/components/pipeline-viewer/layout.ts:136-157 | a node is erased exactly when some ancestor is collapsed |
| Names.NodesWellFormed | argocd_extension/ui/src/components/pipeline-viewer/layout.ts:92-93 | with plain, distinct sibling ids no two nodes share an id, exactly the rails have rail ids, and the parent a node names is the one node of that id and stands before it |
| Names.RailNames | argocd_extension/ui/src/components/pipeline-viewer/railMetrics.ts:5-7 | an id looks like a rail's exactly when its last segment is `split` or `merge` |
| EdgeIds.EdgeIdsUnique | argocd_extension/ui/src/components/pipeline-viewer/layout.ts:25-35 | with plain, distinct sibling ids all edge ids differ |
| EdgeIds.IdDeterminesEnds | argocd_extension/ui/src/components/pipeline-viewer/layout.ts:25-35 | an edge id, though it joins paths with plain punctuation, determines source and target |
| LayoutEngine.ConnectSegments | argocd_extension/ui/src/components/pipeline-viewer/layout.ts:37-45 | the two loops push exactly the edges of the specification |
| LayoutEngine.ConnectBranch | argocd_extension/ui/src/components/pipeline-viewer/layout.ts:108-109 | one edge from the split rail to each entry and from each exit to the merge rail, handles numbered by branch |
| LayoutEngine.PlaceParallelBlock | argocd_extension/ui/src/components/pipeline-viewer/layout.ts:83-125 | the loop with its running position, width and centres computes the specified block |
| LayoutEngine.PlaceNestedPipeline | argocd_extension/ui/src/components/pipeline-viewer/layout.ts:127-172 | the group and, unless collapsed or empty, its contents as specified |
| LayoutEngine.PlaceStage | argocd_extension/ui/src/components/pipeline-viewer/layout.ts:174-189 | dispatch to block, group or leaf |
| LayoutEngine.PlaceStages | argocd_extension/ui/src/components/pipeline-viewer/layout.ts:191-224 | the loop over a stage list computes the specified row |
| LayoutEngine.PlaceReport | argocd_extension/ui/src/components/pipeline-viewer/layout.ts:226-236 | the entry point, with the empty report |
| Secrets.MaskSecureVars | pde_operator/src/pde_operator/utils/input_crypto_utils.py:47-61 | the line loop computes the specified mask |
| Secrets.MergeMaskedSecure | pde_operator/src/pde_operator/utils/input_crypto_utils.py:63-93 | both loops compute the specified merge, and the error names the first key that cannot be kept |
| MergeLaws.MaskMeans | pde_operator/src/pde_operator/utils/input_crypto_utils.py:47-61 | a masked text has a line for each line of the text: a blank one as it is, the key of a pair, nothing of any other |
| MergeLaws.MergeMeans | pde_operator/src/pde_operator/utils/input_crypto_utils.py:63-93 | for any two texts: the merge succeeds exactly if every line that keeps a value has its key on a stored line; the result then has one line for each line that holds something, in order, a kept one with the value of the last stored line of its key, any other as submitted |
| MergeLaws.BecomesOne | pde_operator/src/pde_operator/utils/input_crypto_utils.py:84-91 | that determines each line of the result |
| MergeLaws.UnknownIsFirst | pde_operator/src/pde_operator/utils/input_crypto_utils.py:87-89 | a merge that fails names the key of the first line that keeps a value nobody stored |
| MergeLaws.EditChangesOne | pde_operator/src/pde_operator/utils/input_crypto_utils.py:63-93 | submitting a masked text with a new value for one of its keys changes that line and leaves every other with its latest value |
| SecretLaws.MaskThenMerge | pde_operator/src/pde_operator/utils/input_crypto_utils.py:47-93 | submitting a masked text against its original always succeeds, and gives back its lines, each with the latest value of its key, exactly when every line that is not blank has `=` or is just the mask |
| SecretLaws.BareLineIsLost | pde_operator/src/pde_operator/utils/input_crypto_utils.py:59-60 | a line without `=` loses its text on the way |
| SecretLaws.MaskHidesValues | pde_operator/src/pde_operator/utils/input_crypto_utils.py:47-61 | the mask depends only on keys and line structure |
| SecretLaws.SplitMultilineEntries | argocd_extension/ui/src/lib/runs.ts:11-18 | the split, trim and filter loop as specified |
| SecretLaws.ParsePairs | argocd_extension/ui/src/lib/runs.ts:25-36 | the pair loop as specified |
| SecretLaws.PairsToText | argocd_extension/ui/src/lib/runs.ts:38-47 | the printing loop as specified |
| FormPairs.PairsComeBack | argocd_extension/ui/src/lib/runs.ts:11-47 | the pairs of the form come back from their text exactly if their keys and values are good ones |
| SecretLaws.FormKeepsMask | argocd_extension/ui/src/lib/runs.ts:11-47 | the form gives a masked text back exactly when every line that is not blank has a non-empty trimmed key without `;` that does not begin with `#` |
| FormEdits.FormThenMerge | argocd_extension/ui/src/lib/runs.ts:25-85 | an unchanged edit through the form gives back every line, each with the latest value of its key, exactly when every line that is not blank has a key the form keeps |
| Services.RunInputStorage.Store | pde_operator/src/pde_operator/services/run_input_storage.py:27-36 | the keyed store gains or replaces one input, or fails and keeps all |
| Services.RunInputStorage.Load | pde_operator/src/pde_operator/services/run_input_storage.py:38-47 | the input under an id, or none when it is missing or cannot be decrypted |
| Services.RunInputStorage.Delete | pde_operator/src/pde_operator/services/run_input_storage.py:49-54 | the keyed store loses one input, or fails and keeps all |
| Services.RunService.CreateRun | pde_operator/src/pde_operator/services/run_service.py:45-74 | whole new state and error of creating a run: profile, stored input, masked row, Job without a queue, commit |
| Services.RunService.AddAndStart | pde_operator/src/pde_operator/services/run_service.py:342-352 | the row is added with its Job when there is no queue; a refused Job or a failed commit leaves no row |
| Services.RunService.RetryRun | pde_operator/src/pde_operator/services/run_service.py:202-251 | whole new state and error of a retry, in the order its conditions are asked |
| Services.RunService.CancelRun | pde_operator/src/pde_operator/services/run_service.py:171-200 | whole new state and error of a cancel, with and without a Job |
| Services.RunService.DeleteRun | pde_operator/src/pde_operator/services/run_service.py:354-364 | row and input go together; the cleanup error leaves both, and a failed commit the row without its input |
| Services.RunService.ApplyStatusFields | pde_operator/src/pde_operator/services/run_service.py:371-382 | name and start written once, any known status taken over, a terminal one with its finishing time |
| Services.RunService.DeliverStatus | pde_operator/src/pde_operator/services/run_service.py:253-266 | whole new state of a status delivery |
| Services.RunService.ApplyReportFinishCode | pde_operator/src/pde_operator/utils/finish_utils.py:34-39 | a report's code is taken unless the operator has set its own |
| Services.RunService.DeliverReport | pde_operator/src/pde_operator/services/run_service.py:268-279 | whole new state of a report delivery |
| Services.RunService.UploadArtifacts | pde_operator/src/pde_operator/services/run_service.py:293-331 | whole new state of an upload of any of the artifacts, the debug one included; a storage failure leaves the row |
| Workers.QueueService.FreeSlots | pde_operator/src/pde_operator/services/queue_service.py:93-106 | limit minus active runs, never negative, none without a limit |
| Workers.QueueService.WaitingInOrder | pde_operator/src/pde_operator/services/queue_service.py:57-66 | the waiting unlocked rows, of any two the one created earlier first and of one instant the smaller id, cut to the free slots |
| Workers.QueueService.AdmitRun | pde_operator/src/pde_operator/services/queue_service.py:73-87 | one waiting run: failed without profile, left when refused, else started |
| Workers.QueueService.AdmitOnce | pde_operator/src/pde_operator/services/queue_service.py:48-91 | the admission loop: every row after a tick, and how many got their Job |
| Workers.JobReconciler.ReconcileRun | pde_operator/src/pde_operator/services/job_reconciler.py:66-135 | one run against every phase, cancel and timeout, and exactly when its row is touched |
| Workers.JobReconciler.ReconcileOnce | pde_operator/src/pde_operator/services/job_reconciler.py:48-64 | the loop over active runs: every row after a tick and how many were touched; a question that fails is raised and changes none |
| ScheduleServices.ScheduleService.WellSpaced | pde_operator/src/pde_operator/utils/cron_utils.py:78-89 | the sampling loop: whether eight occurrences exist in UTC, none closer to the last than the interval |
| ScheduleServices.ScheduleService.ValidateCron | pde_operator/src/pde_operator/services/schedule_service.py:269-274 | an expression is accepted by the library and, where an interval is set, by the sampling |
| ScheduleServices.ScheduleService.ApplyRequest | pde_operator/src/pde_operator/services/schedule_service.py:249-267 | the columns a request sets, secrets masked |
| ScheduleServices.ScheduleService.CreateSchedule | pde_operator/src/pde_operator/services/schedule_service.py:77-111 | whole new state and error of creating a schedule, including the input that is left when the anchor or the commit fails |
| ScheduleServices.ScheduleService.UpdateSchedule | pde_operator/src/pde_operator/services/schedule_service.py:113-153 | whole new state and error of an update, including the input stored before the anchor or the commit fails |
| ScheduleServices.ScheduleService.SetEnabled | pde_operator/src/pde_operator/services/schedule_service.py:155-166 | enabling anchors, disabling clears the anchor, no change is no change |
| ScheduleServices.ScheduleService.DeleteSchedule | pde_operator/src/pde_operator/services/schedule_service.py:168-176 | row and input go together; the cleanup error leaves both, and a failed commit the row without its input |
| ScheduleServices.ScheduleService.DeleteAllSchedules | pde_operator/src/pde_operator/services/schedule_service.py:311-324 | rows first, then each input, those that fail left behind |
| ScheduleServices.ScheduleService.Fire | pde_operator/src/pde_operator/services/schedule_service.py:178-205 | a run from the stored input and the row's other columns, tagged with the schedule |
| ScheduleServices.ScheduleService.ApplyFireResult | pde_operator/src/pde_operator/services/schedule_service.py:228-243 | the outcome columns; the last run only when there is one |
| ScheduleServices.ScheduleService.RecordFire | pde_operator/src/pde_operator/services/schedule_service.py:215-226 | the outcome committed, or nothing changed and the failure raised |
| ScheduleServices.ScheduleService.TriggerNow | pde_operator/src/pde_operator/services/schedule_service.py:207-213 | whole new state and error of a manual trigger; a failed firing is not recorded, and a failed record is raised though the run is there |
| ScheduleServices.ScheduleDispatcher.ActiveRunRefs | pde_operator/src/pde_operator/services/schedule_dispatcher.py:123-136 | exactly which schedules of a batch have an unfinished run |
| ScheduleServices.ScheduleDispatcher.ClaimRow | pde_operator/src/pde_operator/services/schedule_dispatcher.py:81-102 | one due row: disabled, healed, missed, held back or left to be fired |
| ScheduleServices.ScheduleDispatcher.ClaimDue | pde_operator/src/pde_operator/services/schedule_dispatcher.py:62-105 | the claiming loop: every row after it and the claims in order |
| ScheduleServices.ScheduleDispatcher.Fire | pde_operator/src/pde_operator/services/schedule_dispatcher.py:107-121 | one claim fired and recorded, also when it fails or its row is gone; a failed record is raised |
| ScheduleServices.ScheduleDispatcher.FireDueOnce | pde_operator/src/pde_operator/services/schedule_dispatcher.py:53-60 | claim once, then fire each claim in a session of its own, and count the runs; one that raises abandons the rest |
| Outcomes.CreateOutcome | pde_operator/src/pde_operator/services/run_service.py:45-74 | a request makes a run exactly if its profile is there, its input is stored, the Job it needs at once is not refused and the commit goes through, and the run shows what was asked for |
| Outcomes.RetryOutcome | pde_operator/src/pde_operator/services/run_service.py:202-251 | a retry makes a run exactly if the other failed or was cancelled, its state, profile and input are there and the rest goes well; what is asked for replaces what the other had, all else is the other's |
| Outcomes.CancelOutcome | pde_operator/src/pde_operator/services/run_service.py:171-200 | exactly an unfinished run nobody has cancelled is: at once if it waits, else by request |
| Outcomes.DeleteOutcome | pde_operator/src/pde_operator/services/run_service.py:354-364 | what was stored goes first, then the row; a failed commit keeps the row alone |
| Outcomes.DeliveryOutcome | pde_operator/src/pde_operator/services/run_service.py:253-266 | a delivery sets the status it names whatever the run's was, its finishing time where it is then over, name and start once, and nothing else |
| Outcomes.NamedStatus | pde_operator/src/pde_operator/services/run_service.py:413-420 | a text names a status exactly if it is its name with white space around it |
| Outcomes.ReportOutcome | pde_operator/src/pde_operator/services/run_service.py:268-279 | a report sets its time, and its code unless the operator has set one |
| Outcomes.UploadOutcome | pde_operator/src/pde_operator/services/run_service.py:293-331 | an upload sets exactly the columns of what it brings |
| Outcomes.TickOutcome | pde_operator/src/pde_operator/services/job_reconciler.py:66-135 | how a complete tick ends a run that holds a Job: SUCCESS exactly if the Job succeeded, otherwise CANCELLED exactly if a cancel was asked for and FAILED exactly if not, once the Job is over or missing, or active past the grace or the timeout; with the code that says which, unless one is kept; else the row is unchanged |
| Outcomes.TickAnswered | pde_operator/src/pde_operator/services/job_reconciler.py:48-64 | a tick happens exactly if the cluster answers for every run that holds a Job; otherwise it changes nothing |
| Outcomes.TickCounts | pde_operator/src/pde_operator/services/job_reconciler.py:48-64 | the runs a complete tick counts are those it ends |
| Workers.StartedGotJob | pde_operator/src/pde_operator/services/queue_service.py:57-91 | what a tick of the queue counts is the number of runs that have got their Job |
| Fairness.TakenUp | pde_operator/src/pde_operator/services/queue_service.py:57-106 | a tick takes a run up exactly if it waits in a free row and fewer that do so were created before it than slots are left |
| Fairness.AdmitOutcome | pde_operator/src/pde_operator/services/queue_service.py:48-91 | whose turn has come gets the Job of its name unless that is refused, or fails without its profile; every other run is unchanged |
| Claims.BatchTakesUp | pde_operator/src/pde_operator/services/schedule_dispatcher.py:66-76 | a tick takes up a row exactly if it is enabled, free and due and fewer such rows come before it than the batch holds: those without an anchor first, then the longest overdue |
| Claims.ClaimOutcome | pde_operator/src/pde_operator/services/schedule_dispatcher.py:62-105 | what a tick makes of each row, and that it is claimed exactly if it occurs again, was planned, is within its grace and is not held back by an unfinished run |
| Claims.ClaimsInOrder | pde_operator/src/pde_operator/services/schedule_dispatcher.py:73-102 | a tick claims the longest overdue first, of one instant the smaller id |
| Claims.FireOutcome | pde_operator/src/pde_operator/services/schedule_dispatcher.py:107-121 | a claim makes the run its schedule asks for, or none, and its row keeps how that went |
| Claims.TriggerOutcome | pde_operator/src/pde_operator/services/schedule_service.py:207-213 | firing by hand makes that run too, and keeps only a success |
| Claims.FiresInOrder | pde_operator/src/pde_operator/services/schedule_dispatcher.py:53-60 | a tick fires its claims one after the other, all of them unless an outcome is lost: that firing is the last, and is raised |
| Claims.CountIsRuns | pde_operator/src/pde_operator/services/schedule_dispatcher.py:53-60 | the number a tick returns is that of the runs it made |
| ScheduleOutcomes.AcceptedExactlyIf | pde_operator/src/pde_operator/utils/cron_utils.py:33-89 | an expression is taken exactly if the library takes it and, where an interval is set, eight occurrences from now on exist without the zone, each at least that far from the one before |
| ScheduleOutcomes.CreateScheduleOutcome | pde_operator/src/pde_operator/services/schedule_service.py:77-111 | a schedule is made exactly if what is asked for is valid, is stored, has a next occurrence where it is enabled, and is committed; it then shows what was asked for and is due at that occurrence |
| ScheduleOutcomes.UpdateOutcome | pde_operator/src/pde_operator/services/schedule_service.py:113-153 | the same for an update; a row that stays enabled with its expression keeps its anchor, any other enabled one gets the next occurrence |
| ScheduleOutcomes.SwitchOutcome | pde_operator/src/pde_operator/services/schedule_service.py:155-166 | switching on makes a schedule due at its next occurrence and is refused without one; off, it is never due |
| ScheduleOutcomes.DeleteScheduleOutcome | pde_operator/src/pde_operator/services/schedule_service.py:168-176 | what was stored goes first, then the row; a failed commit keeps the row alone |
| ScheduleOutcomes.DeleteAllOutcome | pde_operator/src/pde_operator/services/schedule_service.py:311-324 | every row goes, and what is stored for each unless that fails; runs keep theirs |
| Refusals.CreateRefused | pde_operator/src/pde_operator/services/run_service.py:45-74 | the error of creating a run is that of the first check that fails, in the order the code asks |
| Refusals.RetryRefused | pde_operator/src/pde_operator/services/run_service.py:202-251 | the same for a retry |
| Refusals.CancelRefused | pde_operator/src/pde_operator/services/run_service.py:171-200 | the same for a cancel |
| Refusals.DeleteRefused | pde_operator/src/pde_operator/services/run_service.py:354-364 | the same for a deletion, of a run and of a schedule |
| Refusals.DeliveryRefused | pde_operator/src/pde_operator/services/run_service.py:253-331 | the same for what a Job delivers |
| Refusals.CreateScheduleRefused | pde_operator/src/pde_operator/services/schedule_service.py:77-111 | the same for a new schedule |
| Refusals.UpdateRefused | pde_operator/src/pde_operator/services/schedule_service.py:113-153 | the same for an update |
| Refusals.SwitchRefused | pde_operator/src/pde_operator/services/schedule_service.py:155-166 | the same for switching a schedule |
| Refusals.TriggerRefused | pde_operator/src/pde_operator/services/schedule_service.py:207-213 | the same for firing by hand, the failed record included |
| Effects.RunsOfStep | pde_operator/src/pde_operator/services/run_service.py:45-382 | every event, seen from one row: each run row after it, where new rows come from, and that only a delete removes one |
| Effects.SchedulesOfStep | pde_operator/src/pde_operator/services/schedule_service.py:77-243 | the same for schedule rows |
| Lifecycle.AlwaysSane | pde_operator/src/pde_operator/services/run_service.py:371-382 | in every reachable state a terminal run has its finishing time, and a Job name is the one made from the id, with a progress time |
| Lifecycle.HistoryOfRun | pde_operator/src/pde_operator/services/run_service.py:171-266 | between any two points of any sequence of events Job name, cancel time, name, start and inputs are written at most once, an operator finish code is only replaced by one, and only a status delivery sets progress back |
| Lifecycle.RunKeeps | pde_operator/src/pde_operator/services/job_reconciler.py:66-135 | one event: sane again, nothing written twice, rank lowered only by a status delivery, a Job name given only by a tick to a queued run |
| Lifecycle.DeliveryKeeps | pde_operator/src/pde_operator/services/run_service.py:371-382 | an arbitrary status document keeps all that |
| Capacity.ConcurrencyBound | pde_operator/src/pde_operator/services/queue_service.py:48-106 | over every sequence of events the runs with a Job never exceed the limit plus the finished runs deliveries revived |
| Capacity.AdmitWithinLimit | pde_operator/src/pde_operator/services/queue_service.py:93-106 | a tick admits no more than fit, and none at or above the limit |
| Capacity.RevivalTakesSlot | pde_operator/src/pde_operator/services/run_service.py:376-378 | each revival takes one slot more, so the extra term is needed |
| Fairness.FirstComeFirstServed | pde_operator/src/pde_operator/services/queue_service.py:57-91 | over every sequence of events in which a run waits all the time, one created later, or at the same time with a larger id, gets its Job only in a tick in which the Job of the earlier was refused or its row locked |
| Fairness.UndeliveredWaits | pde_operator/src/pde_operator/services/run_service.py:253-266 | a run that waits in the end and got no status delivery has waited all the time |
| Fairness.TickInOrder | pde_operator/src/pde_operator/services/queue_service.py:57-66 | the same inside one tick, for leaving the queue in any way |
| Fairness.TickDrains | pde_operator/src/pde_operator/services/queue_service.py:57-91 | a tick without refusals takes exactly the smaller of free slots and waiting runs out of the queue, each with its Job or failed for its profile |
| Progress.TickEnds | pde_operator/src/pde_operator/services/job_reconciler.py:66-142 | whatever the cluster reports, the first complete tick at or after the deadline ends the run |
| Progress.BoundedTermination | pde_operator/src/pde_operator/services/job_reconciler.py:48-142 | in every reachable state with complete ticks at most an interval apart no run holds a Job past its deadline, or what it last heard, plus the interval |
| Progress.CancelTakesEffect | pde_operator/src/pde_operator/services/job_reconciler.py:99-120 | a cancelled run that no delivery reopens is over by its grace plus the interval |
| Agreement.RunsAlwaysAgree | pde_operator/src/pde_operator/services/run_service.py:50-68 | in every reachable state, whatever fails, each run row is the masked form of what is stored for it, with its retry variables |
| Agreement.StepStored | pde_operator/src/pde_operator/services/run_service.py:359-363 | one event leaves something stored for every row exactly unless it is a deletion whose commit fails after the cleanup |
| Agreement.InputsAlwaysStored | pde_operator/src/pde_operator/services/schedule_service.py:168-176 | so in every reachable state something is stored for every row if no deletion is interrupted like that |
| Agreement.SchedulesAlwaysAgree | pde_operator/src/pde_operator/services/schedule_service.py:92-106 | the schedule rows are the masked form of what is stored for them at every point of a sequence of events exactly if no update on the way breaks that for its row |
| Agreement.UpdateAgrees | pde_operator/src/pde_operator/services/schedule_service.py:118-150 | an update keeps the agreement exactly unless its input is stored, it then gets no anchor where it needs one or fails to commit, and it was going to change a shown column |
| LostUpdates.LostAnchorExample | pde_operator/src/pde_operator/services/schedule_service.py:134-147 | a run from empty tables, with an interval of zero, that ends with the new input under the old row: an accepted expression has no occurrences |
| LostUpdates.LostCommitExample | pde_operator/src/pde_operator/services/schedule_service.py:134-150 | the same at the default settings, by an update whose commit fails |
| Agreement.SamplingKeepsAnchor | pde_operator/src/pde_operator/utils/cron_utils.py:43-46 | with a minimum interval set an anchor is lost only if the library takes the expression and its zone, finds occurrences without the zone and none with it |
| Agreement.OnlyCommitsFail | pde_operator/src/pde_operator/services/schedule_service.py:134-150 | with an interval set, and zones that take no accepted expression all its occurrences, an update leaves its row behind exactly if it is stored and its commit fails |
| Agreement.IntervalKeepsAgreement | pde_operator/src/pde_operator/utils/cron_utils.py:43-46 | then, with all updates committed, the agreement holds of each schedule row at every point of any sequence of events |
| Agreement.InputFixed | pde_operator/src/pde_operator/services/run_service.py:225-227 | what is stored for a run never changes while the run is there, and is lost exactly to a deletion of the run that is interrupted |
| Agreement.RetryInput | pde_operator/src/pde_operator/services/run_service.py:225-244 | a retry stores its parent's input with only the retry variables replaced |
| Agreement.FireInput | pde_operator/src/pde_operator/services/schedule_service.py:178-205 | a fired run stores the pipeline kept for its schedule |
| Agreement.FiredCarriesSchedule | pde_operator/src/pde_operator/services/schedule_service.py:178-205 | whether by dispatcher or by hand, a fired run carries what the schedule stored at that moment |
| Edits.UnchangedUpdate | pde_operator/src/pde_operator/services/schedule_service.py:118-134 | an update that submits what the row shows keeps the stored pipeline and, line by line, its secrets, exactly when every line survives masking |
| Edits.UnchangedFormUpdate | argocd_extension/ui/src/lib/runs.ts:25-85 | when the shown secrets first pass through the form, exactly when every line has a key the form keeps |
| Roots.ChainsKeepTheirRoot | pde_operator/src/pde_operator/services/run_service.py:225-244 | in every reachable state each run shows, and carries as long as its input is there, the pipeline, profile and template its chain of retries began with, and shares that root with the run it retries, however many runs of the chain are deleted |
| Roots.FirstIsRoot | pde_operator/src/pde_operator/services/run_service.py:45-74 | a run that is no retry is its own root, and its root says what is stored for it |
| Dispatch.AlwaysOrderly | pde_operator/src/pde_operator/services/schedule_dispatcher.py:80-121 | with any number of dispatchers, stale readings, lost claims and edits: enabled means anchored, anchors and claims are occurrences, the instants claimed for a schedule strictly increase and are claimed within the grace, and no claim makes two runs |
| Dispatch.NoReplay | pde_operator/src/pde_operator/services/schedule_dispatcher.py:23-27 | two runs the dispatcher made for one schedule stand for different planned instants |
| Dispatch.RowAnchors | pde_operator/src/pde_operator/services/schedule_service.py:142-161 | one event: a row keeps its anchor, or gets one after the clock, or is claimed and gets one after the reading |
| Polling.TickClaimsAll | pde_operator/src/pde_operator/services/schedule_dispatcher.py:80-96 | one tick claims all occurrences since the last exactly when there is at most one and it is not missed |
| Polling.ClaimsArePolled | pde_operator/src/pde_operator/services/schedule_dispatcher.py:62-105 | for an unedited `allow` schedule the log gains, over any sequence of events, exactly what each tick claims |
| Polling.ExactlyOnce | pde_operator/src/pde_operator/services/schedule_dispatcher.py:62-105 | under healthy polling every occurrence after the anchor and up to the last tick is claimed exactly once, in order |
| Polling.OccurrencesIncrease | pde_operator/src/pde_operator/utils/cron_utils.py:48-59 | the list of occurrences those claims are compared with strictly increases |
| SkipPolicy.NeverOverlaps | pde_operator/src/pde_operator/services/schedule_dispatcher.py:78-102 | with any number of dispatchers, a fixed `skip` policy, no manual triggers and no revived runs, a schedule has at most one unfinished run or pending claim at every point exactly if no tick claims it beside a pending claim |
| SkipPolicy.LoadAtTick | pde_operator/src/pde_operator/services/schedule_dispatcher.py:78-103 | one tick keeps a `skip` schedule at one unfinished run or pending claim exactly if it does not claim it beside a pending claim |
| SkipPolicy.OneDispatcherNeverOverlaps | pde_operator/src/pde_operator/services/schedule_dispatcher.py:53-60 | with one dispatcher that condition always holds, so there is never a second, also between claim and fire |
| TwoDispatchers.TwoDispatchersOverlap | pde_operator/src/pde_operator/services/schedule_dispatcher.py:62-121 | a run from empty tables at the default settings, with a lawful library, that ends with two claims of one `skip` schedule |
| Reachable.EveryReachableState | pde_operator/src/pde_operator/services/schedule_dispatcher.py:53-121 | the invariants together, from empty tables |
| Ansi.AnsiToHtml | argocd_extension/ui/src/lib/ansi.ts:63-103 | for every text, reading the HTML back gives exactly the characters and colours of the reference, which also means that spans are balanced and never nested |
| Ansi.HtmlShows | argocd_extension/ui/src/lib/ansi.ts:63-103 | the same from any point of the text with any colour in force |
| Ansi.ApplySgr | argocd_extension/ui/src/lib/ansi.ts:41-61 | the parameter loop leaves the colour set by the last command that sets one |
| AnsiLaws.NumberOfDecimal | argocd_extension/ui/src/lib/ansi.ts:93-93 | the decimal text of any number is read as that number |
| AnsiLaws.CodesAreRead | argocd_extension/ui/src/lib/ansi.ts:93-93 | codes written in decimal with semicolons between them are read as they are |
| AnsiLaws.ColourSets | argocd_extension/ui/src/lib/ansi.ts:41-97 | for any number, text and colour: after `ESC[38;5;n m` the text is shown in the colour of that number |
| AnsiLaws.SingleCode | argocd_extension/ui/src/lib/ansi.ts:41-97 | `ESC[m`, `ESC[0m` and `ESC[39m` end the colour, any other single code leaves it |
| AnsiLaws.CodesInTurn | argocd_extension/ui/src/lib/ansi.ts:41-61 | codes in one sequence do what they would do one after the other in sequences of their own |
| AnsiLaws.OtherLetter | argocd_extension/ui/src/lib/ansi.ts:86-97 | a sequence that ends in another letter than `m` shows nothing and changes nothing |
| AnsiLaws.OtherEscape | argocd_extension/ui/src/lib/ansi.ts:64-64 | an escape swallows the character after it unless that ends the line, and is shown at the end of a text |
| AnsiLaws.BrokenSequence | argocd_extension/ui/src/lib/ansi.ts:64-64 | a sequence without its letter loses only its `ESC[` |
| AnsiLaws.PlainIsShown | argocd_extension/ui/src/lib/ansi.ts:63-103 | text without escapes is shown as it is |
| AnsiLaws.Levels | argocd_extension/ui/src/lib/ansi.ts:5-39 | the six levels of the cube and the two dozen greys |
| AnsiLaws.RedWord | argocd_extension/ui/src/lib/ansi.ts:63-103 | a word between `ESC[38;5;196m` and `ESC[0m` is red and what follows is not |
| Ansi.EscapeIsPerChar | argocd_extension/ui/src/lib/ansi.ts:1-3 | three replacements one after the other escape each character once |
| Ansi.Palette | argocd_extension/ui/src/lib/ansi.ts:5-39 | the middle of the palette is the cube of six levels of red, green and blue |
| Ansi.ColorsQuotable | argocd_extension/ui/src/lib/ansi.ts:5-39 | no colour can end the attribute it is written in |
| Ansi.OpenColor | argocd_extension/ui/src/lib/ansi.ts:77-83 | the open span ends before a new one begins |
| Ansi.Close | argocd_extension/ui/src/lib/ansi.ts:70-75 | the open span ends once |
| Routing.RouteRoundTrip | argocd_extension/ui/src/app/routing.ts:49-157 | a route comes back from its path exactly if it is canonical, for every prefix |
| Routing.PathRoundTrip | argocd_extension/ui/src/app/routing.ts:49-157 | for every path, reading, writing and reading again gives the same route |
| Routing.ParsedIsCanonical | argocd_extension/ui/src/app/routing.ts:49-112 | what is read from any path is canonical |
| Routing.PathOfParts | argocd_extension/ui/src/app/routing.ts:114-157 | the path of a canonical route is the prefix and its segments |
| Paths.CatalogScreens | argocd_extension/ui/src/app/routing.ts:55-63 | the paths of the catalog and the routes they are read as and written from |
| Paths.RunScreens | argocd_extension/ui/src/app/routing.ts:64-110 | those of the runs: their lists, and the three views of one |
| Paths.OtherScreens | argocd_extension/ui/src/app/routing.ts:69-101 | those of the settings, and of creating and retrying a run |
| Paths.ProfileScreens | argocd_extension/ui/src/app/routing.ts:78-86 | those of the profiles |
| Paths.ScheduleScreens | argocd_extension/ui/src/app/routing.ts:87-98 | those of the schedules, with and without a template |
| Paths.LongestMatch | argocd_extension/ui/src/app/routing.ts:49-112 | any path below the prefix is read as the route with the longest address it begins with, whatever follows, and as the catalog where there is none |
| Paths.Elsewhere | argocd_extension/ui/src/app/routing.ts:51-52 | and so is any path that is not below the prefix |
| Paths.SegmentsJoin | argocd_extension/ui/src/app/routing.ts:52-52 | the segments of a text are those before a slash and those after it, without empty ones |
| Lines.SplitAtBoundary | pde_operator/src/pde_operator/utils/input_crypto_utils.py:51-52 | a text is split at each of Python's line boundaries, a carriage return with its line feed being one |
| EnvLines.ParseKeyValueLines | pde_operator/src/pde_operator/utils/env_utils.py:86-99 | the line loop as specified |
| EnvLines.TextRoundTrip | pde_operator/src/pde_operator/utils/env_utils.py:86-105 | a map is read back from its lines, in whatever order, exactly if its names and values are good |
| EnvLines.ReadIsGood | pde_operator/src/pde_operator/utils/env_utils.py:91-98 | what a line can set at all: a trimmed name and a value without trailing space |
| Forms.Evaluate | pde_operator/src/pde_operator/declarative_templates/services/form_state.py:22-41 | the loops resolve values and compute which fields show and are required, or fail at the first unsupported condition |
| Forms.CollectSubmitted | pde_operator/src/pde_operator/declarative_templates/engine.py:37-49 | the submission loop, and its first error |
| Forms.GetSingleton | pde_operator/src/pde_operator/declarative_templates/engine.py:86-104 | the search for the first bound field with a value or a default |
| Forms.AssemblePayload | pde_operator/src/pde_operator/declarative_templates/engine.py:51-84 | the assembly loop and every field of the payload |
| Forms.BuildRunPayload | pde_operator/src/pde_operator/declarative_templates/engine.py:27-31 | the three phases one after the other |
| FormLaws.BuildsExactlyIf | pde_operator/src/pde_operator/declarative_templates/engine.py:27-56 | a payload exists exactly if every condition looked at can be evaluated, no visible required field is empty, every visible non-empty value validates, and there is pipeline data |
| FormLaws.CollectedAt | pde_operator/src/pde_operator/declarative_templates/engine.py:37-49 | the submitted values are exactly those of the fields that are not empty, hidden ones included |
| FormLaws.PayloadVariables | pde_operator/src/pde_operator/declarative_templates/engine.py:58-73 | the plain and secure texts stand for exactly the submitted variables, none in both, and are read back by a Job exactly if names and values are good |
| PayloadLaws.PayloadHolds | pde_operator/src/pde_operator/declarative_templates/engine.py:51-104 | for every payload: pipeline data, profile, log level and dry run are what the first field of the table bound to them that has a user's value or a default says, the user's before the default, and otherwise `default`, `INFO` and false; the environment stands for the submitted fields bound to it |
| PayloadLaws.ValuesRead | pde_operator/src/pde_operator/declarative_templates/engine.py:106-118 | how a value is written among the pipeline's variables and elsewhere, and which values are true |
| PayloadLaws.ConditionMeans | pde_operator/src/pde_operator/declarative_templates/services/rsql.py:17-41 | a condition compares what it sees of a field with a text or another field; a missing or null field is seen as empty |
| PayloadLaws.ChoicesInTurn | pde_operator/src/pde_operator/declarative_templates/validators/field.py:23-36 | a choice of several is valid exactly if each piece between its commas is an option or empty |
| PayloadLaws.StateMeans | pde_operator/src/pde_operator/declarative_templates/services/form_state.py:28-41 | when a field shows and is required |
| FormLaws.VariablesReadBack | pde_operator/src/pde_operator/declarative_templates/engine.py:72-73 | the sorted text of some variables is read back exactly if they are good |

## Left out

- Node styling and `toStageDetail`: they do not influence positions, ids, edges or captions.
- What the drawing library does with duplicate ids, when sibling ids repeat: geometry and erasure are proved for all
  trees, with a parent being the nearest preceding node of the id; the other graph laws ask for plain, distinct ids.
- JavaScript strings as UTF-16 units: texts are sequences of characters, so a character beyond the basic plane right
  after an escape counts as one. Numbers in control sequences are exact.
- Services.RunInputStorage.Delete: the other objects under an id and the number deleted, because only the input is kept.
- Services.RunService.UploadArtifacts: objects that a failed upload leaves behind, because no step reads them.
- ScheduleServices.ScheduleService.CreateSchedule: the branch for declarative templates, whose forms are modelled apart.
- Encryption, tokens, Kubernetes, object storage and database calls beyond their outcomes. A deletion of artifacts that
  fails half way is not modelled: inputs are there or not, and can be read or not.
- `progress_json`, `execution_url`, names and descriptions of schedules: columns no other step reads. `deliver_log` is
  the upload of a log alone.
- Resolution of simple and declarative templates before a run or schedule is created, profile and template editing,
  listing and pagination.
- The text `schedule:<id>` of `triggered_by`, and the texts of errors: the id and the kind of error stand for them.
- Row objects of the database session: rows are values; a method changes its copy field by field and commits it, so
  aliasing between two loads of one row in a session is not captured.
- Interleaving inside one session: each commit is one event. Only claim and fire are separate, as in the code; a firing
  commits its run and its outcome as one event, in which the outcome may be lost.
- croniter, time zones and daylight saving: what the library returns is a parameter. The sampled check of a minimum
  interval looks at eight occurrences only, so the spacing of all of them is an assumption where it is needed, and so is
  that an accepted expression that occurs without its zone occurs with it (`Agreement.ZonesAgree`).
- Failed commits of the calls that store and delete no input (cancelling, deliveries, switching a schedule, deleting all
  schedules, the ticks of the workers): they leave the tables as they were, and are the absence of the event. Jobs that
  were started before such a commit are not modelled.
- Several readings of the clock inside one call: each call has one.
- Parsing of RSQL text and of regular expressions: conditions come parsed or as unsupported, patterns are any predicate.
  Values of forms that are neither text, truth value nor null are known by their text and truth alone.
- YAML parsing of form contracts; a contract may repeat a field name, as the dictionary of fields allows.
- Browser history and the canonicalising redirects of routes.
