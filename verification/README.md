# A verified model of kubesim

kubesim answers capacity questions about a Kubernetes cluster: it lets a real kube-scheduler place
simulated pods on a fake API server, job by job, and for a *prediction* job it searches the number of
nodes that the apps need. This project models that machinery in Dafny and proves what it keeps.

| file | what it models |
|---|---|
| `Float64.dfy` | `int(1.2 * float64(n))` and its siblings, with binary64 rounding |
| `NodeSearch.dfy` | the bounds of the node-count search as a function of the verdicts it gets |
| `Reports.dfy` | printing and parsing a stop reason; the per-node histogram of a report |
| `Cluster.dfy` | nodes, pods and their store, the pending pod, the scheduler |
| `Runs.dfy` | what placement runs do to the cluster as a function of the scheduler, and what their reports say |
| `Placement.dfy` | one placement run as a state machine, with its Go channels |
| `Switches.dfy` | splitting nodes into access switches, the switch index, what a prediction saves of it |
| `Prediction.dfy` | what a finished prediction has established |
| `Fifo.dfy` | the slice-plus-map job queue |
| `Simulator.dfy` | the `Kubesim` class: runs, jobs, fake cluster, search loop, worker round, report closure |
| `JobBoard.dfy` | pushers, the worker and report readers as interleaved atomic steps |
| `Refinement.dfy` | the class against the job board: pushes, worker rounds with others in between, reports |

## How the system appears in the model

* **The kube-scheduler** is an arbitrary function of what it sees, that is the node store, the pod store and
  the pending pod (`Cluster.Scene`), and of the moment. A moment is a count of answers and never repeats, so
  any behaviour is covered, also one that contradicts itself. It gives each pending pod exactly one answer: a
  node, or an Unschedulable condition. Since it may depend on anything it sees, a contract about its answers
  fixes the stores at the time of each one.
* **UUIDs** come from a counter (`Common.Name`): two generated names are never equal.
* **The API server** stores copies, so pods and nodes are maps of values. Calls on fresh names succeed;
  deleting a missing pod and creating an existing one fail, as they do there.
* **Channels** record sends and whether they are closed. Sending on or closing a closed channel panics in
  Go; here it is a violated precondition, so the absence of such panics is proved for all runs.
* **Concurrency**: each critical section is one event. A report read is three events, because the queue
  is looked at while the report lock, but not the queue lock, is held.
* **A run** is specified by a function (`Runs.RunOf`, `Runs.AfterRun`) of the scheduler and of the world in
  which it starts: both stores, the supply of names, the moment. Jobs chain it (`Runs.AfterRuns`).
* Placing pods of one app, reporting and cleaning the status is written out in each job of the source; the
  model has it once (`Kubesim.RunApp`). The pure step functions of `Placement.dfy` and `NodeSearch.dfy` are
  the specifications that the methods of the class meet.

## What came out false, and exactly when it holds

* `generateMaxNode` has no case for 3001 to 4000 nodes. Then the bounds start crossed and the search never
  stops, whatever the scheduler does (`NodeSearch.GapNeverStops`); outside that gap it always stops, given
  that some node count is enough (`NodeSearch.StopsExactlyOutsideGap`).
* A key pushed again while a stale slot of it is still queued takes that slot and overtakes other jobs
  (`Fifo.RepushOvertakes`). Push is an append exactly when the key is not live and nothing live stands behind
  a stale slot of it (`Fifo.PushAppendsExactly`). The service pushes every job under a fresh UUID, so there
  Push always appends.
* The vertical job's retry never changes its verdict, because the failed first pass stays in front of the
  saved list (`Runs.SecondPassIsIgnored`): with a scheduler that only objects to node selectors, the retry
  places every pod and the job still reads as failed (`Runs.RetryInVain`).
* A job that ended with an error reads as "processing" for ever (`JobBoard.FailedJobIsRead` is such a
  history). An answer is true at some instant of its read except when it says "processing" of a job that had
  failed before the read began (`JobBoard.AnswerWasTrue`); a read that answers "processing" overlaps the
  job's processing exactly when the job had not failed before (`JobBoard.FailedReadsProcessing`).
* A vertical job leaves no trace exactly when its old pods can all be deleted one after the other and equal
  the store's own, or when not even the first of them is there (`Simulator.Kubesim.VerticalEmulator`).
  A pod listed twice is lost: its second delete fails and nothing puts it back (`Cluster.ListedTwiceIsLost`).
  The push closure lists pods twice when two requested apps select the same pods, or when a selector has no
  "app" label and so selects the whole namespace (pkg/scheduler/scheduler_emulator.go:126-163).
  A pod listed before one that is gone when the job starts is lost too (`Cluster.ListedGoneIsLost`). The push
  closure runs beside the worker: while a job for the same app is running, it lists the job's simulated pods,
  which carry their template's labels, and they are gone when the vertical job's turn comes.
* The factors of `generateMaxNode` are not quite fractions of the count: 1.2 and 1.3 give the exact product
  rounded down, but 1.4 can be one less. 5500 nodes give 7699, not 7700
  (`NodeSearch.MaxNodeIs`, `NodeSearch.MaxNodeAt5500`).
* A prediction without apps reads as "", not as "succeed" (`Prediction.SavedTogether`).
* Every prediction empties the whole node store, real nodes included: the node list is not filtered, although
  the comment speaks of simulator nodes (`Simulator.Kubesim.DeleteNodes`).

## Model

| member | source | states |
|---|---|---|
| NodeSearch.StartShape | pkg/scheduler/simulator.go:1092-1096 | outside the gap the search starts with a proper interval of width at least 2, whose upper bound is the one of `MaxNodeFor` |
| NodeSearch.MaxNodeIs | pkg/scheduler/simulator.go:1166-1183 | below 2^48 generateMaxNode is a function of whole numbers: 10, 2n, 6n/5, 13n/10, nothing in the gap, 7n/5 or one less |
| NodeSearch.MaxNodeAt5500 | pkg/scheduler/simulator.go:1178-1179 | 5500 nodes give 7699 |
| NodeSearch.OuterBounds | pkg/scheduler/simulator.go:1130-1143 | in any run FmaxNode is the first one plus a multiple of 100, FminNode the first one halved so many times |
| NodeSearch.WalkSettled | pkg/scheduler/simulator.go:1099-1161 | after any verdicts: a bound has moved exactly when its count was tried with the matching verdict, all trials lie outside the open interval; at the end the saved count succeeded and the one below failed |
| NodeSearch.TrialsFresh | pkg/scheduler/simulator.go:1096-1143 | only positive counts are tried, none twice |
| NodeSearch.WidensOneSide | pkg/scheduler/simulator.go:1130-1143 | growing FmaxNode and halving FminNode never happen in the same run |
| NodeSearch.VerdictsNeverClash | pkg/scheduler/simulator.go:1107-1115 | whatever the scheduler answers, the trials made are those of some monotone oracle |
| NodeSearch.SavedIsLeast | pkg/scheduler/simulator.go:1118-1155 | with a monotone oracle the saved count is the least feasible one over all naturals, the 0/1 exit included |
| NodeSearch.StepBurnsFuel | pkg/scheduler/simulator.go:1107-1143 | every round lowers one measure, also the two rounds that widen the interval |
| NodeSearch.TrialBound | pkg/scheduler/simulator.go:1099-1161 | trials of any run are at most the fuel of the start, the last trial on the empty cluster included |
| NodeSearch.TrialBoundClosed | pkg/scheduler/simulator.go:1083-1161 | that bound spelled out, with the values of `MaxNodeFor` and once in n, k and e alone: trials, the last one on the empty cluster included, are at most ceil(log2(width)) plus 7 per expansion by 100, or plus 1+2+...+e+1 for the halvings from below 2^e |
| NodeSearch.GapNeverStops | pkg/scheduler/simulator.go:1169-1180 | for 3001 to 4000 nodes no sequence of verdicts stops the search |
| NodeSearch.StopsExactlyOutsideGap | pkg/scheduler/simulator.go:1092-1161 | a number of trials that always suffices exists if and only if NodeNumber is not in 3001..4000 |
| Float64.ScaleExact | pkg/scheduler/simulator.go:1174-1179 | below 2^48 the truncated products with 1.2 and 1.3 are the exact ones rounded down |
| Float64.ScaleShort | pkg/scheduler/simulator.go:1174-1179 | below 2^48 the truncated product with 1.4 is the exact one rounded down, but one less exactly when that is whole and above 7/8 of the next power of two |
| Float64.ShortAt5500 | pkg/scheduler/simulator.go:1178-1179 | a count within the range of that branch for which the product is one less |
| Float64.ScaleBounds | pkg/scheduler/simulator.go:1174-1179 | the upper bound exceeds the lower one by at least 2 and is at most 1.5 times it |
| Prediction.SearchKeeps | pkg/scheduler/simulator.go:1096-1143 | every probe lies strictly between the bounds, and moved bounds are exactly the probed counts |
| Prediction.PredictionIsLeast | pkg/scheduler/simulator.go:1118-1155 | the finished job's count is the least feasible one for the oracle that the trials follow |
| Prediction.LeastForScheduler | pkg/scheduler/simulator.go:1118-1155 | of the scheduler itself: when on the task's clusters the number of nodes decides whether all apps fit, and more nodes never hurt, the saved count is the least on which they fit |
| Prediction.ThresholdIsSaved | pkg/scheduler/simulator.go:1083-1164 | when the scheduler places pods from c nodes on and refuses them below, c is saved |
| Prediction.OracleExists | pkg/scheduler/simulator.go:1118-1155 | every finished job has a monotone oracle that agrees with all its trials, the one on the empty cluster included |
| Prediction.PredictionTrialBound | pkg/scheduler/simulator.go:1098-1161 | number of CreateApps trials of a finished job |
| Prediction.SavedTogether | pkg/scheduler/simulator.go:1118-1155 | saved report list, switches and count belong to one successful trial, made on exactly the nodes that the switches list, with the labels and capacity of the request, among the pods that were there; their number is the saved count; the job reads as succeeded |
| Simulator.Kubesim.PredictionEmulator | pkg/scheduler/simulator.go:1083-1164 | terminates within the trial bound, and saves review and list of the search's outcome under the key, never a nil list; every trial is made on nodes with the request's labels and capacity, among the real pods; no simulated pod is left, the node store is empty |
| Simulator.Kubesim.FinishAtMax | pkg/scheduler/simulator.go:1118-1129 | the exit that saves maxNode |
| Simulator.Kubesim.FinishAtZero | pkg/scheduler/simulator.go:1144-1155 | the exit that tries the empty cluster and saves 0 or 1 |
| Simulator.Kubesim.CreateApps | pkg/scheduler/simulator.go:1185-1235 | go exactly when every run ended Schedulable, each run among the pods of the runs before it; success names, counts, one report per run made; no simulated pod left |
| Runs.GoIffAllFit | pkg/scheduler/simulator.go:1196-1218 | a trial says go if and only if each app fits beside the apps before it |
| Runs.PlacedAllFit | pkg/scheduler/simulator.go:1196-1218 | where the scheduler places every pod it is asked about, all apps fit |
| Runs.EarlierAppsTakeRoom | pkg/scheduler/simulator.go:1196-1222 | two apps that fit alone on a cluster with one place do not fit one after the other |
| Simulator.Kubesim.CreateFakeNode | pkg/scheduler/simulator.go:1237-1245 | the store holds exactly the asked number of nodes, all with the labels and capacity of the request, and the access map is its index |
| Simulator.Kubesim.SwitchList | pkg/scheduler/simulator.go:1253-1261 | every switch of the access map once, with its nodes and their number |
| Simulator.Kubesim.SavePrediction | pkg/scheduler/simulator.go:1247-1275 | each switch of the access map is saved once with its length; both result maps change together |
| Simulator.Kubesim.AddNodes | pkg/scheduler/simulator.go:1472-1507 | from any store the node count becomes NodeNumber; the new nodes are as requested; the access map indexes the last batch only, whose size overwrites NodeNumber |
| Simulator.Kubesim.AddNodeBatch | pkg/scheduler/simulator.go:1404-1435 | the new nodes, built as requested, grouped by switch label are the access map, host names are the nodes' own, the sizes follow the strategy |
| Simulator.Kubesim.AddSwitch | pkg/scheduler/simulator.go:1417-1431 | one fresh switch with freshly named nodes, built as requested from the shared label map |
| Simulator.Kubesim.BuildFakeNode | pkg/node/config.go:35-50 | the labels written into the caller's map, and the copy the stored node keeps: the request's own labels stay, the fixed ones have their values; the capacity is the request's in bytes |
| Simulator.Kubesim.DeleteNodes | pkg/scheduler/simulator.go:1510-1527 | all nodes and all simulated pods are gone |
| Simulator.Kubesim.ListNodes | pkg/scheduler/simulator.go:1530-1538 | every node of the store, once |
| Switches.BuildNode | pkg/scheduler/simulator.go:1457-1469 | sizes add up to the count, as few switches as possible, all full but the last |
| Switches.BuildRulesNode | pkg/scheduler/simulator.go:1437-1455 | the same above 90 nodes; up to 90 two switches that differ by at most one |
| Switches.IndexGrows | pkg/scheduler/simulator.go:1417-1432 | one more switch keeps the access map the exact index of the nodes |
| Switches.Conservation | pkg/scheduler/simulator.go:1253-1261 | saved node numbers add up to the nodes there are, at most 45 each, name lists disjoint and covering |
| Cluster.PendingIsTemplate | pkg/scheduler/simulator.go:767-789 | the pending pod is the template but for its name, no node, the scheduler's name, the provisioner label and the annotation, with their values |
| Runs.RunIsAnswers | pkg/scheduler/simulator.go:704-734 | the pods of a run are running pods of the template, each on the node named by the scheduler when it saw those before it; a run that ends early has met a refusal |
| Runs.RunExtends | pkg/scheduler/simulator.go:704-798 | a run adds exactly its bound pods, under fresh names, to the store |
| Runs.RunsAccumulate | pkg/scheduler/simulator.go:877-887 | an app runs among the pods of the start and all pods that earlier apps have bound |
| Runs.RunsKeepReal | pkg/scheduler/simulator.go:877-887 | several runs leave the real pods and the nodes as they are |
| Placement.RunInvariant | pkg/scheduler/simulator.go:704-798 | for any answers: live until stopped, stopped after at most `replicas` answers, fully bound exactly when all of them placed |
| Placement.OnePending | pkg/scheduler/simulator.go:767-798 | while a run is live exactly one pod is pending |
| Placement.RunStarts | pkg/scheduler/simulator.go:148-163 | the first nextPod makes the run live |
| Placement.LastBindStops | pkg/scheduler/simulator.go:720-727 | the last binding sends once on the open stop channel, all replicas bound |
| Placement.BindGoesOn | pkg/scheduler/simulator.go:729-733 | an earlier binding leaves a live run with one more pod |
| Placement.RefusalKeeps | pkg/scheduler/simulator.go:749-765 | a refusal sends once on the open stop channel, removes the pending pod, fewer pods than replicas |
| Placement.RunCloses | pkg/scheduler/simulator.go:169-171 | closing the stop channel after its one send finishes the run; only the first run ever closed its other channels |
| Placement.AskedAsSpecified | pkg/scheduler/simulator.go:767-798 | in a live run the scheduler sees the nodes, the pods of the start and those bound so far, and the stored pending pod |
| Placement.AskedAboutTemplate | pkg/scheduler/simulator.go:767-789 | that pod asks for what the template asks for, node selector included, and is on no node |
| Placement.AnswerStep | pkg/scheduler/simulator.go:704-765 | each answer of the scheduler takes the run one step on in `RunOf`: same bound pods, same store, same names, same moment |
| Placement.ReportShowsRun | pkg/scheduler/report.go:265-279 | the report built from a concluded run tells what the run did: outcome and reason, and in the histogram each node at most once, with the number of pods bound to it, and every node that got one |
| Simulator.Kubesim.UpdatePodRequest | pkg/scheduler/simulator.go:148-159 | new channels and request fields, nothing else |
| Simulator.Kubesim.NextPod | pkg/scheduler/simulator.go:767-798 | one more pod of the template (`PendingPod`) in the store, counted in `simulated` |
| Simulator.Kubesim.Bind | pkg/scheduler/simulator.go:704-734 | the pending pod is bound and recorded; then either the stop reason, the closed channels and one send, or the next pending pod; no channel panics |
| Simulator.Kubesim.Close | pkg/scheduler/simulator.go:736-747 | closes the last pair of channels the first time only; no channel is closed twice |
| Simulator.Kubesim.Update | pkg/scheduler/simulator.go:749-765 | an Unschedulable condition ends the run, any other changes nothing |
| Simulator.Kubesim.SchedulerPod | pkg/scheduler/simulator.go:162-172 | the run ends as `RunOf` says: its bound pods, the store, names and moment after it, the stop reason; its stop channel had one send and is closed |
| Simulator.Kubesim.Report | pkg/scheduler/simulator.go:131-139 | the report of the one template |
| Simulator.Kubesim.CleanStatusPods | pkg/scheduler/simulator.go:142-145 | from the state of an ended run to one ready for the next run (`Idle`), with the stop reason, the channels and the counters of the run still there |
| Simulator.Kubesim.RunApp | pkg/scheduler/simulator.go:877-887 | one app's run on the accumulating store, reported; the world is exactly the one after the run, so its pods stay; ready for the next run |
| Simulator.Kubesim.CleanPod | pkg/scheduler/simulator.go:1315-1332 | exactly the pods without the provisioner label remain |
| Simulator.Kubesim.AppsEmulator | pkg/scheduler/simulator.go:872-901 | one report per app, each run among the pods of the runs before it, is saved under the key; no simulated pod is left |
| Simulator.Kubesim.VerticalEmulator | pkg/scheduler/simulator.go:997-1081 | succeeds exactly when the old pods can be deleted one after the other; the passes run on the store without them; leaves the store as it was exactly when they are then the store's own, or when not even the first could be deleted; after an error the pods before the first that could not be deleted are gone and nothing is saved |
| Simulator.Kubesim.DeleteOldPods | pkg/scheduler/simulator.go:1001-1007 | all old pods go, or those before the first that is missing or was deleted before |
| Runs.OldPodsTakeRoom | pkg/scheduler/simulator.go:1001-1027 | a replacement on a cluster with one place fits once the old pod is away, and not before |
| Cluster.StuckLeavesTrace | pkg/scheduler/simulator.go:1001-1007 | a job that got stuck leaves the store as it was exactly when it got stuck at once |
| Cluster.StuckOnce | pkg/scheduler/simulator.go:1001-1007 | where deleting gets stuck is determined by the store and the pods |
| Cluster.ListedTwiceIsLost | pkg/scheduler/simulator.go:1001-1007 | a pod that equals the store's own, listed twice, is deleted and not put back |
| Cluster.ListedGoneIsLost | pkg/scheduler/simulator.go:1001-1007 | a pod listed before one that is gone is deleted and not put back |
| Simulator.Kubesim.VerticalPasses | pkg/scheduler/simulator.go:1009-1066 | the second pass runs exactly when the first has an Unschedulable report, without node selectors, on the store cleaned of the first, and is appended to it |
| Runs.SecondPassIsIgnored | pkg/scheduler/simulator.go:1036-1062 | the job reads as failed exactly when not all apps fit in the first pass |
| Runs.RetryInVain | pkg/scheduler/simulator.go:1036-1062 | a scheduler and a pod for which the first pass fails, the retry places everything, and the status is failed |
| Cluster.RoundTripRestores | pkg/scheduler/simulator.go:1001-1075 | taking pods away and putting them back restores the store exactly when they match it |
| Runs.TypeTellsOutcome | pkg/scheduler/report.go:265-279 | Type is Unschedulable exactly when an answer was a refusal, exactly when replicas fall short, exactly when the app does not fit |
| Reports.PrintThenParse | pkg/scheduler/report.go:153-162 | parsing a printed stop reason gives back the word and the trimmed first line of the message |
| Reports.TrimCutsSpaces | pkg/scheduler/report.go:159 | trimming returns the inner part between the first and the last character that is no space |
| Reports.DecimalReads | pkg/scheduler/simulator.go:723 | the printed digits, the first being the most significant, stand for the count, without a leading zero |
| Reports.DecimalInjective | pkg/scheduler/simulator.go:723 | the printed replica count determines the count |
| Reports.AllPlacedParses | pkg/scheduler/simulator.go:723 | what Bind prints is parsed back whole |
| Reports.RefusalParses | pkg/scheduler/simulator.go:754 | what Update prints is parsed back to Unschedulable and its message |
| Reports.CountPod | pkg/scheduler/report.go:210-225 | one more pod in its template's histogram |
| Reports.ParsePodsReview | pkg/scheduler/report.go:199-233 | each node at most once per template, exact counts, all counts add up to the number of pods, for any number of templates |
| Reports.GetReport | pkg/scheduler/report.go:265-279 | desired and actual replicas, parsed reason, histograms |
| Fifo.FIFOQueue.Push | pkg/queue/fifo.go:48-56 | where the entry goes, for any key; an append for a key without a slot |
| Fifo.FIFOQueue.Pop | pkg/queue/fifo.go:58-72 | takes the first entry; empty exactly when nothing is live |
| Fifo.FIFOQueue.Front | pkg/queue/fifo.go:74-87 | drops stale slots only; shows the first entry |
| Fifo.FrontThenPop | pkg/queue/fifo.go:58-87 | Pop returns what Front returned |
| Fifo.ContentsExact | pkg/queue/fifo.go:26-37 | the queue holds each live entry once and nothing else |
| Fifo.PushPlaces | pkg/queue/fifo.go:48-56 | a pushed entry stands at the first slot of its key |
| Fifo.PushAppendsExactly | pkg/queue/fifo.go:48-56 | when Push is an append |
| Fifo.RepushOvertakes | pkg/queue/fifo.go:58-69 | a, b, a, Pop, c, a: the last a, pushed after c, comes out before it |
| Fifo.PopTakesFirst | pkg/queue/fifo.go:58-72 | a Pop removes exactly the first entry, for any keys |
| Simulator.Kubesim.ServeNext | pkg/scheduler/simulator.go:821-867 | one worker round: the front job is taken out of the queue; the results that its type calls for are saved and no others change; what it leaves in the store, after a failed vertical job too; no simulated pod survives |
| Simulator.Kubesim.RunJob | pkg/scheduler/simulator.go:834-865 | the switch over job types: the results that are saved, and what each type leaves in the stores |
| Simulator.Kubesim.EmulatorReport | pkg/scheduler/scheduler_emulator.go:206-250 | status, list and review that a reader gets |
| Simulator.Kubesim.DeriveStatus | pkg/scheduler/scheduler_emulator.go:215-225 | failed exactly when some report is Unschedulable, "" for an empty list |
| JobBoard.AlwaysInv | pkg/scheduler/simulator.go:821-867 | the board's invariant in every reachable state |
| JobBoard.ExactlyOnePlace | pkg/scheduler/simulator.go:821-867 | a pushed job is in exactly one of queued, in progress, recorded, ended with error |
| JobBoard.PushOrder | pkg/queue/fifo.go:48-72 | jobs are taken and finished in push order |
| JobBoard.PhaseForward | pkg/scheduler/simulator.go:821-867 | a job only moves forward |
| JobBoard.AnswerWasTrue | pkg/scheduler/scheduler_emulator.go:210-239 | for every interleaving, a reader's answer about a pushed job was true at some instant of its read if and only if it is not "processing" of a job that had ended with an error before |
| JobBoard.ReadsNeverGoBack | pkg/scheduler/scheduler_emulator.go:210-239 | successive reads of a pushed job never go backwards |
| JobBoard.FailedJobIsRead | pkg/scheduler/scheduler_emulator.go:231-233 | a history in which a failed job is read as processing |
| JobBoard.FailedReadsProcessing | pkg/scheduler/scheduler_emulator.go:231-233 | a job that failed before the read is reported as processing; a finished read that says "processing" overlaps the job's processing if and only if the job had not failed before it began |
| JobBoard.ReviewWithReports | pkg/scheduler/simulator.go:1271-1274 | a prediction's review and its report list are seen together or not at all |
| Refinement.ServeNextRefines | pkg/scheduler/simulator.go:821-867 | the worker round of the class is a Pop of the board and, if there was a job, one event that ends it, enabled when no reader holds the lock: an error exactly when the job saves nothing |
| Refinement.RoundCommutes | pkg/scheduler/simulator.go:821-867 | with any pushes and steps of reads between the Pop and the ending event, that event stays enabled but for readers, and the board ends as if the round had been made in one go and the pushes after it |
| Refinement.PushesFirst | pkg/scheduler/simulator.go:821-833 | pushes that follow a Pop which took a job lead to the same board, and the same job taken, when they come before it |
| Refinement.PushRefines | pkg/scheduler/scheduler_emulator.go:170-171 | pushing on the queue of the class is a Push of the board |
| Refinement.ReadAnswers | pkg/scheduler/scheduler_emulator.go:206-239 | the steps of a read that nobody interrupts end in the finding of its state |
| Refinement.EmulatorReportRefines | pkg/scheduler/scheduler_emulator.go:206-250 | the status string of the closure is the one that the board's finding stands for |
| Refinement.StatusTellsFinding | pkg/scheduler/scheduler_emulator.go:215-233 | different findings never share a status string |

## Left out

- HTTP routes, command line, deployment files, `SyncWithClient` and the watch functions, `createScheduler`, health and metrics: plumbing around the modelled core.
- Informer timing and the kube-scheduler's own queue: replaced by exactly one answer per pending pod.
- API failures other than a missing or an already existing pod: several paths drop the error or wait for ever on the stop channel.
- Simulator.Kubesim.VerticalEmulator: assumes that no simulated pod is in the store when the job starts, as holds between jobs (`Simulator.Kubesim.ServeNext`), and that simulated pods among the old pods are therefore gone: no other pod has meanwhile been given one of their generated names.
- Simulator.Kubesim.PredictionEmulator: assumes that some node count is enough for the apps; without one the source's loop has no exit either.
- Replica counts below 1: the parsers turn 0 into 1, and a negative count is no valid deployment; such a run would end only by a refusal.
- Negative node counts, and label maps or capacities that are absent: probing a negative count slices an empty list, and a nil map or pointer panics.
- 64-bit overflow of node counts and capacities; the conversions to int32 in what is saved are modelled (`Common.Int32`).
- `appsPodEmulator`: nothing pushes a job of that type.
- `HorizontalEmulator`: the same code as `appsEmulator`, so one method stands for both; the push closures, with their deployment look-ups, are not modelled.
- HTTP add-node, delete-node and deprecated emulator handlers while the worker runs: they share the simulator without a lock; the worker is taken to own it.
- `GetNodeInfo` percentages, the counters of `ListNodes`, resource sums of a report, pretty-printing: easy members.
- `Kubesim.stopped` and `Kubesim.report`: written, never read by the modelled code.
- The label map of a request stays shared with the job after a prediction; nothing reads it afterwards.
- Pod fields beyond those of `Reports.Pod` (volumes, affinity, tolerations and so on), which the deep copy passes on, and node conditions and system information, which are the same for every built node.
