# Rebalancer planner: a verified model

The Rebalancer Operator watches how loaded the nodes of a cluster are and evicts pods from hot nodes so that the
scheduler can place them on cold ones. This project models its planner and its reconcile loop in Dafny and proves what
they guarantee: what one plan does to the imbalance of the cluster, which entries of a plan the budgets let through, and
what the planner's memory of past evictions enforces over every run of rounds.

`dafny verify dfyconfig.toml` checks the whole project.

## Layout

| file | content |
|---|---|
| `Arithmetic.dfy`, `Sums.dfy` | named products; sums over maps and lists that do not depend on the traversal |
| `Imbalance.dfy` | the variance of utilization, as a specification and as the two-pass loop |
| `Cluster.dfy` | pods, policies, budgets, node sizes, the weighted utilization |
| `Greedy.dfy` | what the greedy search computes, as functions over values |
| `PlanTheorems.dfy` | acceptance, soundness, the stopping rule and the telescoping of scores for every plan |
| `UsageTheorems.dfy` | running utilization against recomputed utilization, conservation, unset weights |
| `Transfers.dfy`, `SubsetTheorems.dfy` | executing any part of a plan in any order; the range of utilization |
| `TargetTheorems.dfy` | which target the search picks |
| `Admission.dfy` | the budget pass over the sorted plan: exact count and optimality |
| `Window.dfy` | eviction records, the sliding hour, pruned histories |
| `Rounds.dfy`, `HourlyBudget.dfy` | runs of rounds as a transition system: accounting, backoff, hourly budget |
| `Planning.dfy` | classification, simulation, evaluation, in-place moves and the greedy loop over node objects |
| `PlannerState.dfy` | the planner object: histories compacted in place, candidate filter, plan, budgets |
| `Traces.dfy` | rounds with the cluster, the plan and the walk behind them, and what holds of those |
| `Requests.dfy` | which pods a round asks the eviction API to evict |
| `Controller.dfy` | `Reconcile` as one traced round, and rounds in sequence |
| `TwoNodes.dfy`, `ManyNodes.dfy`, `Reachability.dfy` | clusters that make the planner plan any given list of pods |
| `BudgetKept.dfy` | for which policies the hourly budget is kept over every run |
| `Promises.dfy` | what plans and rounds promise in the fields of pods, nodes and policies, constants written out |
| `Counterexamples.dfy` | clusters on which plans do harm, or are made below the target |

The source changes things in place, so its loops are methods here: node states and the planner are classes, the
namespace histories are slices of arrays that are compacted inside their own buffer. Each method is proved against a
function over values (`Walk`, `Best`, `Admit`, `Executed`, `After`), and the theorems are about those functions.
`Reconcile` ties them together: its round satisfies `TracedFrom`, that is `RoundFrom` for the entries and `PlannedFrom`
for the walk behind them, and `Serve` shows that consecutive rounds form a `TracedRun`, which is what the theorems over
runs speak of. `RoundFrom` alone forgets the cluster; `RoundIsReachable` shows that little is lost: whatever round it
admits for allowed namespaces, some cluster makes the planner come up with it, if the policy leaves room for moves at all.

## Modelling choices

- Utilization, CPU and scores are `real`; rounding is not modelled. Memory and times are unbounded `int`, times in
  nanoseconds. `math.MaxFloat64` as the first best variance becomes "no best yet".
- Reading a map visits its keys in an arbitrary order, and `SortBy` promises an ordered permutation and nothing about
  equal keys.
- The clock is an object whose reading never decreases and is otherwise arbitrary. The eviction API is an object that
  answers success, failure or "too many requests" as it likes and keeps every request with its answer, so that contracts
  can say which evictions were asked for and not only which were recorded.
- Whether a pod can be scheduled on a node is a relation `fits` fixed for a plan, because planned moves change node
  usage only. The label selector, pinning, disruption budget and local storage screens are one flag of a pod, and the
  lookup of a priority class another.
- Pod names are pairs of namespace and name; the source joins them with a slash for its visited set.
- `Plan` and `Execute` are split into several methods here (`Triage`, `FindMoves`, `IsCandidate`, `AdmitPlan`,
  `ReportBudgets`, `ExecuteOne`); the branches are those of the source.

## What the proofs found

- **The hourly disruption budget can be exceeded.** The documentation (docs/README.md, testing playbook, step 2) expects
  a second eviction to stay pending under `maxDisruptionsPerHour: 1`. The window check in `canDisruptNamespace` does not
  count what the current plan has already admitted, so one plan may admit two pods. Over every run an hour holds at
  most `d - 1 + k` evictions, where `k` is the most one plan may admit for the namespace (`SlidingHour`), and that many
  are reached (`OverBudget`). On clusters whose nodes use at most `g` times what they can allocate, the budget itself is
  kept over every run, for weights that are not negative, if and only if the policy is dry, or `k` is at most 1, or the
  policy shuts the namespace out, or nodes cannot be both hot and cold with a variance above the target
  (`HourlyBudgetExactlyWhen`). With evictions switched on and the other defaults left as they are, it is not kept even
  for `g = 1` (`DefaultsExceedBudgets`).
- **Unset weights break the running utilization.** Classification replaces weights of 0 and 0 by 0.7 and 0.3, the
  simulation does not. Running and recomputed utilization agree at the end of a plan if and only if weights are set or no
  candidate improves on the start (`IncrementalExactlyWithWeights`). On a concrete cluster the plan made without weights
  raises the very variance that the cluster was classified with (`UnsetWeightsCanHurt`).
- **Part of a plan can do harm.** What any selection of the moves does to the variance is given exactly, by their own
  drops and their overlaps with the earlier moves left out (`SelectionHelpsExactlyWhen`). Moves between nodes of the
  same size never work against each other (`MatchedIsInHarmony`), and a plan without such conflicts helps whatever part
  of it is carried out, in any order (`AnySelectionOfThePlanHelps`). Between nodes of different sizes, or when requests
  exceed what the source node uses, two concrete clusters show harm (`MixedSizesCanHurt`, `IdleRequestsCanHurt`).
- **Class preference is a veto, not an attraction.** It only decides whether a target is eligible; among eligible targets
  the least variance wins whatever the class (`AcceptedExactly`). The documentation speaks of a destination bias.
- **A plan for a cluster already at or below the target may still contain one move**, because the target is looked at
  only after a move has been accepted: exactly one if some candidate improves on the start, none otherwise
  (`StoppingRule`, and a concrete cluster in `MoveBelowTarget`).
- **A blocked namespace is missing from the reported budgets** instead of being reported with 0, because only namespaces
  with an admitted entry are reported (`ClosedAdmitsNothing` with the contract of `Plan`).

## Model

| member | source | states |
|---|---|---|
| Imbalance.ComputeVariance | controllers/planner/planner.go:373-388 | the two passes, each in an arbitrary order, return the population variance, and 0 for no nodes |
| Imbalance.OrderDoesNotMatter | controllers/planner/planner.go:377-387 | summing along any listing of the nodes gives the same mean and variance |
| Imbalance.MeanOfSquares | controllers/planner/planner.go:377-387 | the variance is the mean of squares minus the squared mean |
| Imbalance.VarianceNonNegative | controllers/planner/planner.go:382-387 | the variance is never negative, and zero if and only if all nodes are equally utilized |
| Imbalance.VarianceBounded | controllers/planner/planner.go:382-387 | utilization within a range of width w has a variance of at most w squared over 4 |
| Imbalance.VarianceOfShift | controllers/planner/planner.go:751-786 | moving d from one node to another changes n times the variance by 2d(target + d - source) |
| Planning.SortBy | controllers/planner/planner.go:696-698 | an ordered permutation |
| Planning.ClassifyNode | controllers/planner/planner.go:334-360 | CPU and memory utilization are the shares of what the node can allocate, the weighted one is their weighted sum, and the temperature follows the thresholds, hot first |
| Planning.ClassifyNodes | controllers/planner/planner.go:328-371 | every node is in exactly one class, each list holds its nodes once, hottest or coldest first, and usage is untouched |
| Planning.SimulateVariance | controllers/planner/planner.go:751-786 | the predicted utilization changes two nodes and comes with its variance; SimulatedExactly gives it number by number |
| Planning.EvaluateCandidate | controllers/planner/planner.go:702-749 | the loop over cold nodes returns the choice of Best: move, utilization and variance |
| Planning.ApplyMove | controllers/planner/planner.go:788-809 | in place, the source loses the demand with CPU floored at zero, the target gains it, other nodes keep theirs |
| Planning.GreedyPlan | controllers/planner/planner.go:667-700 | the loop makes exactly the moves of Walk, leaves its usages in the node states, and sorts the moves by score |
| PlanTheorems.BestIsChosen | controllers/planner/planner.go:716-746 | the best target has the least variance of all eligible nodes and is the earliest of those; none only if none is eligible |
| PlanTheorems.AcceptedExactly | controllers/planner/planner.go:671-748 | a candidate is accepted iff some cold node where it fits lowers the variance, by more than 0.01 if other classes are preferred; preference never admits a rise |
| PlanTheorems.StepKeepsInvariant | controllers/planner/planner.go:673-694 | one candidate keeps usage equal to the replayed moves, variance equal to start plus drops, distinct sound moves, and the target rule |
| PlanTheorems.PlanIsSound | controllers/planner/planner.go:671-694 | moves are of distinct candidates, from hot nodes to cold nodes where they fit, with negative scores, so the missing-node branches are never taken |
| PlanTheorems.PlanIsEmptyExactly | controllers/planner/planner.go:673-682 | the plan is empty iff at the start no candidate improves on any cold node |
| PlanTheorems.StoppingRule | controllers/planner/planner.go:668-694 | variance falls with each move, only the last may reach the target, and from a start at or below it there is exactly one move if some candidate improves on the start, else none |
| PlanTheorems.WalkStopsAtTarget | controllers/planner/planner.go:673-694 | the walk equals trying every candidate, or stops right after an accepted move at or below the target |
| PlanTheorems.ScoresTelescope | controllers/planner/planner.go:684-699 | in any sorted order the scores sum to final minus initial variance, plus 0.01 per non-preferred and minus 0.01 per preferred target |
| UsageTheorems.SimulationAgrees | controllers/planner/planner.go:768-808 | for a hot source and a cold target the simulated utilization is the one recomputed after the applied move, despite different floors |
| UsageTheorems.SimulatedExactly | controllers/planner/planner.go:751-786 | the source keeps what the pod leaves of its CPU and memory, neither below zero, the target gains the whole request, other nodes are unchanged, and nothing changes if a node is missing |
| UsageTheorems.NothingLeftBehind | controllers/planner/planner.go:769-777 | a pod that asks for more memory than its node uses leaves no memory term behind, and with weights not negative no entry of the source is ever negative |
| UsageTheorems.MovedExactly | controllers/planner/planner.go:788-809 | an applied move floors the source's CPU at zero, lets its memory go into debt, and gives the target the whole request |
| UsageTheorems.IncrementalIsExact | controllers/planner/planner.go:667-690 | at the end of every plan the running utilization and variance equal those recomputed from usage, and each move's drop is its effect |
| UsageTheorems.IncrementalExactlyWithWeights | controllers/planner/planner.go:259-265 | with utilization classified under defaulted weights, running and recomputed utilization agree at the end iff weights are set or no candidate improves on the start |
| UsageTheorems.MovesConserve | controllers/planner/planner.go:788-809 | total memory is kept, and total CPU grows by exactly what the floor cut off |
| Transfers.SelectionBounds | controllers/planner/planner.go:684-689 | making some of the moves leaves hot nodes no lower and others no higher than making all |
| Transfers.SelectionVariance | controllers/planner/planner.go:677-688 | the exact variance after any selection of transfers, in any order: their own drops, less twice their overlaps with the earlier transfers left out |
| SubsetTheorems.ReplayIsExact | controllers/planner/planner.go:802-808 | when usage covers the plan, replaying any selection never clamps |
| SubsetTheorems.SelectionHelpsExactlyWhen | controllers/planner/planner.go:294-308 | when usage covers a greedy plan, a selection of its moves lowers the recomputed variance iff their drops outweigh the overlaps they miss, and by at least those drops iff the missed overlaps are not negative together |
| SubsetTheorems.AnySelectionOfThePlanHelps | controllers/planner/planner.go:294-308 | if no planned move works against an earlier one, any nonempty selection, in any order, strictly lowers the recomputed variance, at least by its own drops |
| SubsetTheorems.MatchedIsInHarmony | controllers/planner/planner.go:768-783 | moves between nodes of equal size never work against each other |
| SubsetTheorems.LaterAlone | controllers/planner/planner.go:677-689 | in a plan of two moves, the later alone keeps its gain iff the two do not work against each other |
| SubsetTheorems.RangeContracts | controllers/planner/planner.go:677-689 | every move leaves its target below where its source was, and no node ever leaves the starting range of utilization |
| TargetTheorems.LeastLoadedTarget | controllers/planner/planner.go:702-748 | on nodes of one size without preference, the target is the first least loaded node that takes the pod, accepted iff the gap exceeds the pod's load |
| Counterexamples.MixedSizesCanHurt | controllers/planner/planner.go:768-783 | under the default thresholds, a cluster with two node sizes for which executing one of two planned moves raises the variance |
| Counterexamples.IdleRequestsCanHurt | controllers/planner/planner.go:769-776 | the same on equal nodes whose pods request more than the source uses |
| Counterexamples.UnsetWeightsCanHurt | controllers/planner/planner.go:259-265 | under the defaults but without weights, a cluster below its target for which a whole plan raises the variance it was classified with |
| Counterexamples.MoveBelowTarget | controllers/planner/planner.go:668-694 | under all defaults, a cluster below its target that gets a plan of one move |
| Admission.AdmitWithinBudgets | controllers/planner/planner.go:293-308 | the pass respects the cluster limit, the cap per namespace and each closed window, whatever the clock does |
| Admission.CountsAddUp | controllers/planner/planner.go:300-303 | the namespace counts sum to the part of the cluster limit used |
| Admission.ExactAdmissionCount | controllers/planner/planner.go:286-308 | with windows fixed, the number admitted is the smaller of the limit and the sum of the namespace quotas |
| Admission.AdmitTakesMost | controllers/planner/planner.go:294-308 | no choice within the budgets has more entries |
| Admission.AdmissionIsOptimal | controllers/planner/planner.go:294-308 | over a list sorted by negative scores, no choice within the budgets has a smaller total score |
| Window.KeptReadsTheSame | controllers/planner/planner.go:885-893 | a history pruned at an earlier time and the full log agree on the last hour from then on |
| Window.PruningKeeps | controllers/planner/planner.go:888-898 | pruning drops only records over an hour old |
| PlannerState.Compact | controllers/planner/planner.go:888-893 | compaction inside the buffer keeps exactly the later times, in order |
| PlannerState.AppendAndCopy | controllers/planner/planner.go:872-873 | the new time follows the kept ones in a fresh buffer |
| PlannerState.Planner.constructor | controllers/planner/planner.go:60-76 | a new planner remembers nothing |
| PlannerState.Planner.LastEvicted | controllers/planner/planner.go:848-856 | the time of the pod's latest record in the full log, if any |
| PlannerState.Planner.Prune | controllers/planner/planner.go:885-898 | the namespace's history becomes exactly the full log's last hour, and other namespaces keep theirs |
| PlannerState.Planner.HistoryIsFaithful | controllers/planner/planner.go:859-919 | whatever operations have run, a history is sorted and from now on shows the same last hour as the full log |
| PlannerState.Planner.CanDisruptNamespace | controllers/planner/planner.go:876-900 | true iff the plan's count is below the cap and the full log's last hour is below the hourly limit; without an SLO or with a limit of 0 the cap alone decides |
| PlannerState.Planner.RemainingNamespaceBudget | controllers/planner/planner.go:902-929 | the tighter of the cap and what the full log's last hour leaves, or -1 |
| PlannerState.Planner.RecordEviction | controllers/planner/planner.go:858-874 | the full log gains one record at the current time, the pruned history follows, other namespaces are untouched |
| PlannerState.Planner.TakeSnapshot | controllers/planner/planner.go:192-230 | fresh node states hold what was read, and each pod carries its namespace's SLO and its latest record |
| PlannerState.Planner.FilterCandidates | controllers/planner/planner.go:447-510 | every result passes all screens at the end, every pod that passed them at the start is there, lowest priority first; a result evicted before has been left alone for the policy's backoff, or 15 minutes if it sets none |
| PlannerState.Planner.Triage | controllers/planner/planner.go:259-279 | nodes split by temperature under the effective weights and candidates only when there are hot and cold nodes |
| PlannerState.Planner.AdmitPlan | controllers/planner/planner.go:291-308 | the entries allowed are those of Admit with each window looked at when its turn comes, no more than maxEvictionsPerMinute, or one if that is not positive, and the counts are theirs |
| PlannerState.Planner.ReportBudgets | controllers/planner/planner.go:309-323 | each namespace drawn on gets what its budget leaves after the plan's count, never below zero, or -1 |
| PlannerState.ReportedIsRoomLeft | controllers/planner/planner.go:309-323 | a reported budget is the number of further evictions that the cap and the hour still allow beyond the plan, 0 if none, -1 if neither limits |
| Rounds.ClosedAdmitsNothing | controllers/planner/planner.go:297-309 | a namespace whose window is closed whenever it is looked at gets no entry admitted, whatever the sign of its limit, so its budget is not reported |
| PlannerState.Planner.Plan | controllers/planner/planner.go:250-326 | a sorted permutation of the greedy moves, admitted against the full log at the recorded times, which is left unchanged |
| Rounds.ExecutedExactly | controllers/policy_controller.go:72-92 | an entry is evicted iff it is allowed, the API accepts it, and no allowed entry before it was refused |
| Rounds.RoundAccounting | controllers/policy_controller.go:62-92 | a round records at most its limit, nothing when dry, and exactly the accepted entries before a refusal |
| Rounds.RunAccounting | controllers/policy_controller.go:73-87 | n rounds record at most the sum of their limits |
| Rounds.RoundEvictsOnce | controllers/planner/planner.go:671-690 | a round never records a pod twice |
| Rounds.BackoffIsKept | controllers/planner/planner.go:549-554 | two records of one pod in any run are at least the backoff of the later policy apart, or 15 minutes if it sets none |
| HourlyBudget.SlidingHour | controllers/planner/planner.go:876-900 | in every run, any hour holds at most d - 1 + k records of a namespace with hourly limit d and at most k admitted per plan |
| Promises.MovableUnlessReason | controllers/planner/planner.go:457-500 | a pod is movable iff none of ten reasons speaks against it, each in the fields of pod and policy with its constant written out |
| Promises.PlannedPodsAreFree | controllers/planner/planner.go:276-284 | nothing spoke against the pod of any planned move when candidates had been filtered, and the move carries its request, with 0.05 cores or 50 MiB for none |
| Promises.FreePodsAreCandidates | controllers/planner/planner.go:447-510 | with a cold node, every pod that nothing spoke against when filtering started is a candidate, and priorities never fall along the candidates |
| Promises.BandsDecide | controllers/planner/planner.go:259-271 | a node is hot iff its shares of CPU and memory, weighted by the policy or by 0.7 and 0.3, reach the hot band, and cold iff they do not and lie in the cold band |
| Promises.ScoresMeasureFalls | controllers/planner/planner.go:714-747 | each planned move goes where its pod fits; its score less the class term of -0.01, 0.01 or 0 is the change of the recomputed variance, a fall, and of more than 0.01 for a node of no class asked for |
| Promises.EvictedPodsWereFree | controllers/policy_controller.go:72-88 | every eviction recorded in a round is of a pod of the cluster that sat on a node in the hot band and that nothing spoke against, with its namespace's SLO looked up in the cluster |
| Promises.RoundWithinNumber | controllers/planner/planner.go:286-303 | a round records at most maxEvictionsPerMinute evictions, or one if that is not positive |
| Promises.AdmittedExactly | controllers/planner/planner.go:286-308 | with windows fixed, exactly the smaller of that number and the sum of the namespace quotas is admitted |
| Promises.UnlimitedAdmission | controllers/planner/planner.go:876-882 | if no namespace has an hourly limit, for want of an SLO or because it is 0, windows never matter: the number admitted is that with no window closed |
| Reachability.RoundIsReachable | controllers/planner/planner.go:250-326 | whatever round can start with a log, if its namespaces are allowed and nodes at up to g times their size can be hot and cold above the target, is the round of some such cluster, walk and sorted plan |
| Reachability.RunIsReachable | controllers/policy_controller.go:34-96 | the same for whole runs |
| BudgetKept.ShortPlan | controllers/planner/planner.go:271-279 | with load up to g times the nodes' sizes, if nodes cannot be hot and cold above the target, a plan has at most one move |
| BudgetKept.HourlyBudgetExactlyWhen | controllers/planner/planner.go:877-900 | over every run on nodes with load up to g times their size the hourly limit holds if the policy is dry, or one plan can admit at most one pod of the namespace, or the namespace is shut out; with weights not negative it holds iff one of these is so or nodes cannot be hot and cold above the target |
| BudgetKept.HourlyBudgetAtAnyLoad | controllers/planner/planner.go:351-360 | with no bound on load the last condition is that the hot band reaches down to 0 or the cold band does not reach up to it |
| BudgetKept.OverBudget | controllers/planner/planner.go:294-303 | otherwise, for clusters within that load, a run with an hour of d - 1 + k evictions: d - 1 one by one, then k in one plan |
| BudgetKept.DefaultsExceedBudgets | api/v1/rebalancepolicy_types.go:22-66 | with all defaults but evictions switched on, no hourly limit of any namespace is always kept, even if no node uses more than it can allocate |
| BudgetKept.DefaultsOverrunByTwo | api/v1/rebalancepolicy_types.go:22-66 | an hour can then hold exactly two evictions more than the limit, and never more |
| Traces.TraceIsSound | controllers/planner/planner.go:276-284 | the plan made for a snapshot consists of sound moves of distinct filtered pods |
| Traces.TracedSelectionHelps | controllers/policy_controller.go:73-92 | what a round executes of its plan strictly lowers the recomputed variance of the cluster it read, if no planned move works against an earlier one |
| Traces.TracedAdmissionIsOptimal | controllers/planner/planner.go:286-308 | with the clock standing still, the entries the plan allows score least among all choices within the budgets, and are the most |
| Requests.RequestsWithinLimit | controllers/policy_controller.go:72-77 | requests made for the allowed entries never exceed the policy's number |
| Controller.Evictor.Evict | controllers/executors/eviction.go:25-37 | one request for a pod with a name, whose answer is returned; none for a pod without, which fails |
| Controller.PolicyReconciler.Execute | controllers/policy_controller.go:72-92 | the API is asked for exactly the allowed entries with a name, in order, up to and including the first refusal; what it evicted is what is recorded and counted |
| Controller.PolicyReconciler.Reconcile | controllers/policy_controller.go:34-96 | one call is one traced round on the log it found: planned from the cluster, admitted, executed and recorded; the API is asked for nothing when dry and otherwise for the allowed entries up to a refusal, within the policy's number; no status after a refusal |
| Controller.PolicyReconciler.Serve | controllers/policy_controller.go:117-123 | serialised rounds from an empty log form a traced run, each with its cluster and plan behind it, and the log holds exactly the pods the API evicted |

## Left out

- SimulateVariance: nodes without allocatable CPU or memory; the source classifies them as idle (planner.go:338-343) but its simulation skips them or divides by zero (planner.go:768-783).
- SelectionHelpsExactlyWhen: weights are not negative and usage covers the plan; what a selection does when the floors cut off usage is not given exactly, only that it can do harm (IdleRequestsCanHurt).
- RangeContracts: nodes joined by a move are of equal size.
- HourlyBudgetExactlyWhen: for negative weights, which the schema of a policy does not rule out, only the three sufficient conditions are stated, not when else the limit holds; utilization then no longer grows with load.
- HourlyBudgetAtAnyLoad: weights are not negative, as above.
- SlidingHour: the hourly limit of the namespace is the same in all rounds of the run; a limit changed between rounds is not covered.
- BackoffIsKept: the planner's memory starts empty and lives as long as the process; a restart forgets it, in the source as in the model.
- ExactAdmissionCount: speaks of windows that do not change while a plan is admitted; with a moving clock only AdmitWithinBudgets is stated.
- FilterCandidates: the selector, pinning, disruption budget, local storage and priority class lookups are flags of a pod; the mark set on matching pods (planner.go:501) is never read and not kept.
- Scheduling predicates (controllers/planner/predicates.go): an arbitrary relation between pods and nodes; nothing is claimed about planned moves respecting anti-affinity together.
- Reading metrics, nodes, pods, budgets and classes, and the errors of doing so: a round starts from an arbitrary cluster.
- Floating point rounding, 32-bit and 64-bit integer limits, and the truncation of memory requests to whole bytes.
- The text of reasons, events, metrics, plan statistics, the requeue delay, status patching and its errors.
- The mutex: methods of the planner are taken as atomic.
- A rate per clock minute: the limit named per minute is applied per plan (planner.go:286-303).
- Hysteresis as protection against churn: classification keeps no earlier state (planner.go:351-360), it only widens both bands.
- The dashboard, charts, deployment and the manager's wiring.
