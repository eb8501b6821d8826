# Waveoff, modelled and proved

Waveoff decides whether a new version of an agent may replace the running one. This project models the parts of it that
carry invariants, and proves what those parts promise.

- **Rollouts** (`Traffic.dfy`, `Routing.dfy`, `Rollout.dfy`, `RolloutSafety.dfy`, `RolloutRoutes.dfy`,
  `RolloutClearance.dfy`, `RolloutProgress.dfy`, `RolloutLimits.dfy`, `RolloutDecisions.dfy`, `RolloutOrder.dfy`,
  `Controller.dfy`, `LivePromotion.dfy`). A rollout is a persisted phase machine beside a router. A reconcile reads the persisted status once and then issues route writes
  and status writes; each write is answered with success, refusal, a lost acknowledgement (applied, but reported as
  failed), or a crash, and any number of reconciles may be cut short anywhere. The router is abstract, a Gateway API
  route, or an Istio virtual service, and the two concrete ones are proved against their in-place edits. Safety,
  finality of rollback and termination hold over every run.
- **Gate statistics** (`Analysis.dfy`, `Missingness.dfy`, `Sequential.dfy`, `SequentialWidth.dfy`,
  `SequentialGate.dfy`, `Bootstrap.dfy`, `BootstrapMeaning.dfy`). The loops over observations are methods proved against specification functions over reals and exact integers; `ln` and `sqrt`
  are parameters with the laws they obey.
- **Replay** (`Replay.dfy`, `ReplayRun.dfy`, `ReplayMeaning.dfy`). The span index and its consumed set refine a linear scan; the divergence
  report is characterised exactly.
- **Shadow suppression** (`Suppressor.dfy`, `SuppressorRun.dfy`, `SuppressorAnswers.dfy`). Requests are events of a state machine. The running form
  stores the result object first and completes it in place, and is proved equal to the machine's step.
- **Identity and diff** (`Projection.dfy`, `Identity.dfy`, `ProjectionFields.dfy`, `Compare.dfy`, `CompareRun.dfy`,
  `DiffListing.dfy`, `DiffReach.dfy`, `LineDiff.dfy`). What a
  projection determines, and what the separately written list of changes can and cannot be trusted for. Canonicalisation
  and SHA-256 are one function on projections, taken not to collide on the two manifests compared where a statement says
  so.
- **Pairing and accounting** (`ReplayStage.dfy`, `Pairing.dfy`, `Accounting.dfy`, `ScoreMeaning.dfy`).
- **Recording** (`Sink.dfy`, `SinkMeaning.dfy`, `Utf8.dfy`, `Cassette.dfy`, `CassetteMeaning.dfy`). The sink is a machine whose steps belong to producers, the
  worker and the caller of Close, in any order; the blob store is one whose steps belong to any number of writers.

`Basics.dfy`, `Sorting.dfy` and `Names.dfy` hold what these share. Where the source changes state, the state is a class or
an array whose methods are proved equal to a function of the old state, and the promises are proved about that function:
what each decision, edit, answer and count is, said case by case without that function, and what holds over every run.
`dafny verify dfyconfig.toml` checks the whole project.

Where the code and its own comments or documentation differ, the model follows the code:

- An unmeasured metric sets none of pass, inferior or indeterminate (`internal/analysis/sequential.go`, line 119), and the
  sequential decision then promotes, although the comment there says an absent measurement is not a pass:
  `UnmeasuredPrimaryPromotes`.
- Past its duration budget a stage is rolled back whether or not automatic rollback is enabled: `RollbackEnds`.
  But a stage waved off with no trigger firing is not looked at again: `ScheduledExactly`.
- A rollback withdraws only its own stage's route, although the event it records says that all traffic was returned
  (`internal/rollout/controller.go`, line 295). That is so exactly when no other route was left with the candidate by the
  last stage that moved it: `RollbackClearsExactly`, `RollbackLeavesOtherRoutes`.
- A stage whose name repeats an earlier one is never run, and the rollout is promoted without it: `RepeatsAreNeverRun`,
  `RepeatedNamePromotes`.
- Setting a Gateway API split keeps only the two named backends, although it is meant to change weights and nothing else
  (`internal/traffic/gatewayapi.go`, lines 54-58): `BackendsKeptExactly`, `ThirdBackendDropped`.
- A behavioural verdict need not come with any tagged change: `SilentExactlyWhen`, `EmptyPolicyIsSilent`,
  `TenIsSilent`.
- A retry of a write is answered with another object when its arguments name one invented since: `RetriesAgree`,
  `RetryMeetsAnother`.
- Items scored in both arms without the primary metric are in none of the four missingness counts, and an arm name in
  another letter case is paired by one function and ignored by the other: `OfflineConserves`, `UppercaseCountsTwice`,
  `UnnamedIsCounted`.
- A session excluded when it is selected again loses the refs it had: `TwoRefsPerSession`, `RepeatedSessionLosesRefs`.
- A level above 1 can cross the bootstrap bounds, so that a metric both passes and is inferior; validation does not refuse
  one for a guardrail: `Bootstrap.OrderedExactly`, `HighLevelInverts`. The sequential bounds cross above 2, or above 4 in an
  unpaired design: `SequentialGate.OrderedExactly`, `HighLevelReadsBoth`.
- An inline payload that is not UTF-8 does not read back, although the writer expects binary payloads to be large enough to
  be offloaded (`internal/cassette/writer.go`, lines 158-160): `WrittenPayloadsReadBack`, `BinaryBodyChanges`.
- A record accepted after the sink's worker has exited is never written: `NothingAfterExit`, `AcceptedAfterExit`.

## Model

| member | source | states |
|---|---|---|
| `RolloutSafety.ReconcileKeeps` | `internal/rollout/controller.go:95-185` | One reconcile, however its writes are answered and wherever it stops, leaves a safe status and routes, and never changes or loses a promoted stage |
| `RolloutSafety.RunsAreSafe` | `internal/rollout/controller.go:95-324` | Over any number of attempts with crashes and lost acknowledgements, from a fully incumbent route, the status stays well shaped, the routes carry only what entered stages authorise, and rolled-back stages stay withdrawn |
| `RolloutSafety.PromotedMeansEveryStage` | `internal/rollout/controller.go:117-185` | In every run, phase Promoted means every stage of the spec has its own promoted entry, in order |
| `RolloutSafety.PromotionsPersist` | `internal/rollout/controller.go:543-551` | Promoted entries survive unchanged whatever follows |
| `RolloutSafety.RollbackIsFinal` | `internal/rollout/controller.go:106-108` | Once a stage is persisted as rolled back, its route is wholly the incumbent's with no mirror, and nothing later in the generation changes any route or the status |
| `RolloutSafety.RollbackClearsSharedRoute` | `internal/rollout/live.go:276-288` | When the stages up to the rolled-back one move traffic at one place only, its rollback clears every route |
| `RolloutSafety.EnterKeeps` | `internal/rollout/live.go:242-269` | Entering a stage, cut short anywhere, leaves routes authorised by that stage |
| `RolloutSafety.WithdrawKeeps` | `internal/rollout/live.go:276-288` | Withdrawing, cut short anywhere, leaves routes still authorised; completed, it leaves the incumbent alone |
| `RolloutSafety.NextIsAfterPassed` | `internal/rollout/controller.go:520-533` | With distinct names, the next stage is the one just after the promoted prefix |
| `RolloutSafety.RecordCurrent` | `internal/rollout/controller.go:543-551` | Recording the current stage replaces its entry or appends it, after the promoted prefix |
| `RolloutRoutes.CandidateTrafficIsEarned` | `internal/rollout/live.go:242-269` | In every run, whatever share of traffic or copies reaches the candidate is that of a stage which the run entered and all of whose predecessors are persisted as promoted; the two arms add up to 100 |
| `RolloutRoutes.RouteMoves` | `internal/rollout/controller.go:188-324` | One attempt moves only the route of the stage being worked on, to a mix of what was there and what that stage, or its withdrawal, asks for |
| `RolloutRoutes.WhatPasses` | `internal/rollout/controller.go:246-324` | One attempt passes at most one stage; it moves no route then, and a live stage passes only after it has begun |
| `RolloutClearance.RunsSettle` | `internal/rollout/live.go:242-269` | In every run each route carries what the last passed stage to move it asked for, or less, except the route of the stage being worked on; with no such stage it is the incumbent's |
| `RolloutClearance.RolledBackWasRollable` | `internal/rollout/live.go:107-239` | A run rolls back only a stage whose spec allows it to be entered and rolled back, behind stages that can all pass |
| `RolloutClearance.RollbackClearsExactly` | `internal/rollout/controller.go:280-298` | Every rollback of a stage, in every run, leaves all traffic with the incumbent exactly when, if the stage can be rolled back at all, the last earlier stage to move each other route left it with the incumbent: a check on the spec |
| `RolloutClearance.RollbackLeavesOtherRoutes` | `internal/rollout/live.go:276-288` | Otherwise there is a run whose rollback leaves such a route carrying what its last stage put there |
| `RolloutDecisions.RollbackEnds` | `internal/rollout/controller.go:280-298` | A completed pass that calls for a rollback leaves the stage rolled back with that trigger and its route the incumbent's alone, or holds; past the budget it calls for one whatever the evidence and whether or not rollback is automatic |
| `RolloutDecisions.RollsBackExactlyWhen` | `internal/rollout/live.go:110-207` | A step rolls back, and for which trigger, exactly when: its budget is past; else a write divergence is found and fires; else there are observations, no verdict and an unavailable analyzer fires; else the evidence waves off and, with an inferior guardrail, a violation fires, or without one a gate failure does |
| `RolloutDecisions.StepMeaning` | `internal/rollout/live.go:107-239` | Exactly when a step fails, and exactly when it promotes; it reports the share the candidate is read to have |
| `RolloutDecisions.OfflinePassEnds` | `internal/rollout/controller.go:139-185` | A completed offline pass promotes its stage for Promote, leaves the rollout waved off for WaveOff, and held for Inconclusive or a failure; only the first adds a promoted entry |
| `RolloutDecisions.BeginningEnds` | `internal/rollout/controller.go:246-278` | A completed pass that begins a stage leaves its route carrying exactly what the stage asks for and its entry running from now, or holds |
| `RolloutDecisions.OtherwiseEnds` | `internal/rollout/controller.go:298-324` | A completed pass that does not roll back moves no route, and records the stage promoted, running or held as the step says |
| `RolloutDecisions.OtherwiseHeld` | `internal/rollout/controller.go:188-244` | A live stage with no sources, no known router, or without sequential test or sticky sessions is held, its route untouched |
| `RolloutDecisions.OtherPasses` | `internal/rollout/controller.go:95-136` | A pass over a finished rollout changes nothing; one with missing manifests holds, and one with every stage promoted completes it |
| `RolloutDecisions.FollowedUp` | `internal/rollout/controller.go:298-324` | A completed pass is followed by another at once exactly when it leaves the rollout unfinished with its stage promoted, and by none when it ends the rollout |
| `RolloutDecisions.EveryPromotionWasDecided` | `internal/rollout/controller.go:95-324` | In every run each promoted entry was recorded by an attempt that worked on its stage: offline one whose replay said Promote, live one whose step in that world promoted |
| `RolloutOrder.NeverServedTwice` | `internal/rollout/live.go:242-288` | In every run of a spec with distinct stage names, wherever its passes are cut short, no candidate both serves requests and receives copies of them on one route |
| `RolloutOrder.ShareGoesFirst` | `internal/rollout/live.go:276-288` | Any attempt at a stage that has begun, wherever it is cut short, leaves its route reading as before or the candidate without a share: the share is withdrawn before the copies are |
| `RolloutProgress.ReconcileProgresses` | `internal/rollout/controller.go:246-324` | No attempt raises the rank, and one that completes a poll interval after the last completed one lowers it or ends the rollout |
| `RolloutProgress.RolloutsEnd` | `internal/rollout/controller.go:95-324` | With completed passes a poll interval apart, and crashed or failed attempts as close as may be, at most rank-many complete without ending the rollout |
| `RolloutProgress.ScheduledExactly` | `internal/rollout/controller.go:312-322` | A pass that completes and leaves the rollout unfinished is followed by another unless, exactly, the evidence waved off the stage and no trigger fired; then the routes stay as they are and nothing is scheduled to look at the budget |
| `RolloutLimits.RunsAreAccounted` | `internal/rollout/controller.go:520-533` | Whatever the stages are called, entries have distinct names of the spec, and Promoted means every name is promoted |
| `RolloutLimits.PromotedCountsNames` | `internal/rollout/controller.go:520-533` | Promoted means one entry per distinct name; one per stage exactly when no name repeats |
| `RolloutLimits.NextIsFirstOfName` | `internal/rollout/controller.go:520-533` | The next stage is always the first of its name |
| `RolloutLimits.RepeatsAreNeverRun` | `internal/rollout/controller.go:520-533` | In every run, every attempt works on, records and moves the route of a first stage of its name only; a route only repeats use is never touched |
| `RolloutLimits.RepeatedNamePromotes` | `internal/rollout/controller.go:117-185` | A run of a spec with a repeated name reaches Promoted with its second, live stage never entered |
| `RolloutOrder.WithdrawSucceeds` | `internal/rollout/live.go:276-288` | With its writes acknowledged a withdrawal succeeds exactly when the route takes the split, even where the router cannot mirror |
| `RolloutOrder.EnterSucceeds` | `internal/rollout/live.go:242-269` | With its writes acknowledged, exactly when a stage can be entered: a live one with or without a mirror, a shadow one only with |
| `RolloutOrder.AcknowledgedPassesFinish` | `internal/rollout/controller.go:95-324` | A pass whose writes are all acknowledged finishes, whatever it decides |
| `LivePromotion.StepPromotesExactlyWhen` | `internal/rollout/live.go:107-239` | With the in-process sequential analyzer, at every level, a step promotes exactly when it is in its window, no enabled write divergence fired, the sample is trusted, every guardrail is established and not breached, and the primary is too or is unmeasured |
| `LivePromotion.MeasuredPromotionIsEarned` | `internal/rollout/live.go:107-239` | With a value of the primary per arm, at every level, promotion means its whole interval is on the acceptable side of the margin, and every guardrail's too |
| `LivePromotion.EvidenceRollsBackExactlyWhen` | `internal/rollout/live.go:107-239` | With the in-process analyzer, exactly when a step rolls back on evidence: a breached guardrail on a trusted sample for a violation, else a breached primary for a gate failure, and an invalid request for an unavailable analyzer, each only where that trigger is enabled |
| `LivePromotion.EveryPromotionWasEarned` | `internal/rollout/live.go:107-239` | In every run whose verdicts come from that analyzer, each promoted live stage was promoted on a trusted sample with every guardrail established and the primary established or unmeasured |
| `Controller.RolloutObject.RecordStage` | `internal/rollout/controller.go:543-551` | The in-place replace-or-append leaves the stage list the specification function gives |
| `Controller.RolloutObject.StageStatus` | `internal/rollout/controller.go:407-414` | The loop finds the entry of that name, or a fresh one |
| `Controller.RolloutObject.NextStage` | `internal/rollout/controller.go:520-533` | The map-filling loop finds the first stage whose name has no promoted entry |
| `Controller.Cluster.WriteStatus` | `internal/rollout/controller.go:578-585` | A status write is applied, refused, lost or crashes, exactly as the next answer says |
| `Controller.Cluster.Hold` | `internal/rollout/controller.go:557-565` | Holding rewrites the phase, never the routes |
| `Controller.Cluster.Enter` | `internal/rollout/live.go:242-269` | The router writes of entry, in order, give the machine's entry step |
| `Controller.Cluster.Withdraw` | `internal/rollout/live.go:276-288` | The router writes of withdrawal, in order, give the machine's withdrawal step |
| `Controller.Cluster.AdvanceLive` | `internal/rollout/controller.go:188-324` | The imperative live advance is the machine's step |
| `Controller.Cluster.RunOffline` | `internal/rollout/controller.go:117-185` | The imperative offline stage is the machine's step |
| `Controller.Cluster.Reconcile` | `internal/rollout/controller.go:95-185` | The whole reconcile is the machine's pass, so the theorems over runs are about it |
| `Gateway.GatewayAPI.SetSplit` | `internal/traffic/gatewayapi.go:32-52` | The in-place edit of the rule gives the reweighted rule or leaves it alone |
| `Gateway.GatewayAPI.ReadBack` | `internal/traffic/gatewayapi.go:89-113` | The split read is the one the backends carry |
| `Gateway.GatewayAPI.SetMirror` | `internal/traffic/gatewayapi.go:122-170` | The in-place edit of the filters gives the mirrored rule or leaves it alone |
| `Gateway.CandidatePort` | `internal/traffic/gatewayapi.go:177-191` | The port is that of the first backend of the candidate's name |
| `Gateway.SplitReadsBack` | `internal/traffic/gatewayapi.go:32-113` | After a successful split the split read is the one written exactly when the two backend names differ; the mirror is untouched |
| `Gateway.SplitAccepted` | `internal/traffic/gatewayapi.go:32-86` | A split is accepted exactly when its weights are not negative and not both zero and both names have a backend |
| `Gateway.SplitKeepsTheRest` | `internal/traffic/gatewayapi.go:54-86` | After a split each of the two backends is the last of its name with only its weight changed, and the filters are as they were |
| `Gateway.WideWeightsWrap` | `internal/traffic/gatewayapi.go:54-113` | A weight too wide for 32 bits wraps around, so that the split read back is the one written exactly when both fit |
| `Gateway.ReadMeaning` | `internal/traffic/gatewayapi.go:89-113` | The share read for an arm is the weight of the last backend of its name, 1 when it has none, and 0 without a backend |
| `Gateway.BackendsKeptExactly` | `internal/traffic/gatewayapi.go:54-86` | A successful split leaves the set of backend names as it was exactly when every backend is the incumbent's or the candidate's |
| `Gateway.ThirdBackendDropped` | `internal/traffic/gatewayapi.go:54-86` | A third backend with a quarter of the weight is gone after the two arms are reweighted |
| `Gateway.WithoutMirrorMeaning` | `internal/traffic/gatewayapi.go:122-170` | Removing a mirror removes every mirror to the candidate and keeps all other filters, in order |
| `Gateway.MirrorReadsBack` | `internal/traffic/gatewayapi.go:122-170` | After a successful mirror change the split is untouched and the mirror is as asked |
| `Gateway.MirrorKeepsTheRest` | `internal/traffic/gatewayapi.go:122-191` | A mirror change keeps the backends and the other filters in order, and an added mirror is last and has the port of the first backend of the candidate's name |
| `Istio.VirtualService.SetSplit` | `internal/traffic/istio.go:38-82` | The in-place edits of the destination maps give the reweighted route or leave it alone |
| `Istio.VirtualService.ReadBack` | `internal/traffic/istio.go:85-114` | The split read is the one the destinations carry |
| `Istio.VirtualService.SetMirror` | `internal/traffic/istio.go:121-146` | The in-place edits of the mirror keys give the mirrored route or leave it alone |
| `Istio.WeightAfter` | `internal/traffic/istio.go:38-82` | After reweighting, the two named destinations carry the split and every other keeps its weight |
| `Istio.SplitReadsBack` | `internal/traffic/istio.go:38-114` | After a successful split the split read is the one written exactly when the two names differ or the candidate's share is zero; the mirror and every other destination's weight are untouched |
| `Istio.SplitKeepsTheRest` | `internal/traffic/istio.go:38-82` | After a split every destination keeps its subset and host, and only the named ones' weights change |
| `Istio.ReadMeaning` | `internal/traffic/istio.go:85-146` | The share read for an arm is the weight of its last destination, 0 when it has none; a mirror counts when it goes to the candidate, at 100 when no percentage is set |
| `Istio.MirrorReadsBack` | `internal/traffic/istio.go:121-146` | After a successful mirror change the split is untouched and the mirror is as asked |
| `Istio.MirrorKeepsTheRest` | `internal/traffic/istio.go:121-146` | A mirror change from 0 to 100 keeps the destinations and sets, or clears, both mirror keys |
| `Routing.SplitReadsBack` | `internal/traffic/traffic.go:63-72` | Whatever the router, an accepted split between two different names is the split the rollout reads back, and the mirror it reads is untouched; what becomes of other backends is in BackendsKeptExactly |
| `Routing.MirrorReadsBack` | `internal/traffic/traffic.go:74-79` | Whatever the router, after an accepted mirror change the rollout reads exactly the share asked for and the split as it was |
| `Routing.SplitIdempotent` | `internal/traffic/traffic.go:63-72` | Whatever the router, setting a split again changes nothing |
| `Routing.MirrorIdempotent` | `internal/traffic/traffic.go:74-79` | Whatever the router, setting a mirror again changes nothing |
| `Routing.OtherRulesKept` | `internal/traffic/traffic.go:63-79` | Both edits change the first rule of a route only and keep every other |
| `Routing.MirrorAccepted` | `internal/traffic/gatewayapi.go:122-191` | Exactly which mirror changes each router accepts, and which it cannot express |
| `Missingness.McNemarExact` | `internal/analysis/missingness.go:146-169` | The accumulating loop computes twice the smaller exact binomial tail, at most 1 |
| `Missingness.PValueMeaning` | `internal/analysis/missingness.go:146-169` | It is in (0,1], symmetric, and 1 exactly when the counts differ by at most one |
| `Missingness.PValueFalls` | `internal/analysis/missingness.go:146-169` | It never rises when the larger count grows |
| `Missingness.PValueFallsFar` | `internal/analysis/missingness.go:146-169` | The same for growth by any amount |
| `Missingness.TailComplement` | `internal/analysis/missingness.go:146-169` | The two tails of the fair binomial add up to everything |
| `Missingness.CheckMissingness` | `internal/analysis/missingness.go:89-140` | The check passes by drop rate and by asymmetry exactly as specified |
| `Missingness.PassesExactly` | `internal/analysis/missingness.go:89-140` | The check passes exactly when something was attempted, at most the limit of items dropped, and the doubled lower tail of a fair coin is at least the level, with the defaults as numbers |
| `Missingness.OneSidedFails` | `internal/analysis/missingness.go:89-140` | Failures of one arm alone fail it once a run of that many heads is rarer than half the level |
| `Missingness.MoreFailuresNeverRescue` | `internal/analysis/missingness.go:89-140` | A failing check still fails when the already worse arm fails more |
| `Missingness.EvenFailuresPass` | `internal/analysis/missingness.go:89-140` | Discordant counts at most one apart pass exactly when the drop rate allows, at levels up to 1 |
| `Analysis.Validate` | `internal/analysis/analysis.go:264-303` | The loop accepts exactly the valid requests |
| `Analysis.Arms` | `internal/analysis/analysis.go:306-316` | Each arm's values of the metric, in order, where present |
| `Analysis.Values` | `internal/analysis/analysis.go:323-335` | The values of items that carry the metric under both arms, aligned |
| `Analysis.MeasuredMeaning` | `internal/analysis/analysis.go:323-335` | The aligned values are of exactly the observations both arms measured, in order |
| `Analysis.ArmScoresMeaning` | `internal/analysis/analysis.go:306-316` | An arm's values are of exactly its observations that carry the metric, in order |
| `Analysis.CheckThreshold` | `internal/analysis/bootstrap.go:260-281` | The loop finds the worst value and reads it against the threshold |
| `Analysis.ThresholdMeaning` | `internal/analysis/bootstrap.go:260-281` | A threshold passes exactly when every value is on its acceptable side, and is inferior otherwise |
| `Sequential.ComputeInterval` | `internal/analysis/sequential.go:195-257` | The loop over running sums computes the interval of the accumulated state |
| `Sequential.StakeIsPredictable` | `internal/analysis/sequential.go:195-257` | The stake for an observation depends only on those before it |
| `Sequential.Observe` | `internal/analysis/sequential.go:215-257` | After any observation the running variance stays positive, the stake is in (0, 0.9] and the total stake has grown |
| `Sequential.SumsMatch` | `internal/analysis/sequential.go:195-257` | The running sums are the sums of stakes and of staked observations |
| `SequentialWidth.EstimatesMatch` | `internal/analysis/sequential.go:205-253` | The running mean, variance and penalty are those of the earlier values: each value adds 4 times its squared surprise times the price of its stake |
| `SequentialWidth.StakeMeaning` | `internal/analysis/sequential.go:215-234` | A stake is the root of twice the log level over variance, count and log count, capped at half the inverse width and at 0.9 |
| `SequentialWidth.WidthMeaning` | `internal/analysis/sequential.go:238-257` | The interval lies evenly about the weighted mean, and its width is twice the range times log level plus penalty over total stake |
| `Sequential.WeightedSumInRange` | `internal/analysis/sequential.go:195-257` | The staked sum lies between the bounds times the total stake |
| `Sequential.MeanInRange` | `internal/analysis/sequential.go:195-257` | The weighted mean lies within the observations' bounds |
| `Sequential.IntervalContainsMean` | `internal/analysis/sequential.go:195-257` | For a level in (0,2) the interval strictly contains the weighted mean |
| `Sequential.MiddleCrosses` | `internal/analysis/sequential.go:195-257` | Above a level of 2, one observation at the middle of the range gives bounds that cross |
| `SequentialGate.ComputeMetric` | `internal/analysis/sequential.go:100-179` | The field assignments give the specified reading of a metric |
| `SequentialGate.MetricMeaning` | `internal/analysis/sequential.go:100-179` | Which scores a metric is read from in each design, at which level, and when there is no interval |
| `SequentialGate.UnpairedInterval` | `internal/analysis/sequential.go:137-160` | An unpaired metric's interval is about the candidate's weighted mean less the incumbent's, as wide as the two arms' at half the level |
| `SequentialGate.PairedInterval` | `internal/analysis/sequential.go:137-160` | A paired metric's interval is about the weighted mean of the differences, over -1 to 1 unless a range is set |
| `SequentialGate.DefaultsAreExplicit` | `internal/analysis/sequential.go:66-112` | Writing the default levels out changes nothing in the answer |
| `SequentialGate.Analyze` | `internal/analysis/sequential.go:54-98` | The loop over guardrails gives the specified verdict, or an error for an invalid request |
| `SequentialGate.ReadingMeaning` | `internal/analysis/sequential.go:100-179` | At every level a metric passes exactly when it is established, is inferior exactly when it is breached, and is indeterminate exactly when measured and neither |
| `SequentialGate.ExactlyOneReading` | `internal/analysis/sequential.go:100-179` | A measured metric has exactly one of pass, inferior and indeterminate, at every level at which bounds cannot cross and for every threshold; an unmeasured one has none |
| `SequentialGate.DecisionMeaning` | `internal/analysis/sequential.go:282-324` | At every level, exactly when the verdict is promote, and exactly when it is wave-off |
| `SequentialGate.InferiorGuardrails` | `internal/analysis/sequential.go:282-324` | A guardrail of the verdict is inferior exactly when one of the request is breached |
| `SequentialGate.UnmeasuredPrimaryPromotes` | `internal/analysis/sequential.go:119-122` | A valid request whose primary is unmeasured, with nothing against it, is promoted |
| `SequentialGate.UnmeasuredRequestExists` | `internal/analysis/sequential.go:119-122` | Such a request exists |
| `SequentialGate.MetricIntervalOrdered` | `internal/analysis/sequential.go:100-179` | The interval's bounds do not cross at any level up to 2 for a paired design and up to 4 for an unpaired one, and are apart below it |
| `SequentialGate.OrderedExactly` | `internal/analysis/sequential.go:100-179` | Whatever is observed the bounds stay in order, exactly up to that level or where the range is empty |
| `SequentialGate.HighLevelReadsBoth` | `internal/analysis/sequential.go:100-179` | At every level above it an accepted request has one metric that both passes and is inferior |
| `Bootstrap.BootstrapCI` | `internal/analysis/bootstrap.go:213-243` | The array of resampled means, sorted, gives the percentile interval |
| `Bootstrap.DrawSumRange` | `internal/analysis/bootstrap.go:213-243` | Whatever is drawn, a resample's sum lies between the extremes times its size |
| `BootstrapMeaning.MeansAreMeans` | `internal/analysis/bootstrap.go:213-235` | The value of a resample is the mean of what it drew |
| `BootstrapMeaning.IntervalMeaning` | `internal/analysis/bootstrap.go:237-257` | At every level the bounds are quantiles of the resampled means, with half the level outside on each side |
| `BootstrapMeaning.MetricIntervalMeaning` | `internal/analysis/bootstrap.go:134-180` | A metric's bounds are those of resampled candidate-less-incumbent differences, at its level or 5% |
| `BootstrapMeaning.DefaultsAreExplicit` | `internal/analysis/bootstrap.go:100-131` | Writing the default levels and the default drop limit out changes nothing in the answer |
| `Bootstrap.PositionMonotone` | `internal/analysis/bootstrap.go:245-257` | A larger proportion never picks an earlier position |
| `Bootstrap.BoundsWithin` | `internal/analysis/bootstrap.go:213-257` | Whatever is drawn, at every level both bounds lie between the smallest and largest difference |
| `Bootstrap.BoundsMeaning` | `internal/analysis/bootstrap.go:213-257` | Whatever is drawn, for a level up to 1 the bounds are ordered and lie between the smallest and largest difference |
| `Bootstrap.OrderedExactly` | `internal/analysis/bootstrap.go:213-257` | The bounds are ordered for all differences and draws exactly when there is one resample, or an even number and the level is at most 1, or an odd number n and the level is below (n+1)/n |
| `Bootstrap.HighLevelInverts` | `internal/analysis/bootstrap.go:134-203` | For any number of resamples but one, an accepted request has a guardrail at level 2 that both passes and is inferior |
| `Bootstrap.ComputeMetric` | `internal/analysis/bootstrap.go:134-203` | The field assignments give the specified reading of a metric |
| `Bootstrap.ReadingMeaning` | `internal/analysis/bootstrap.go:134-203` | At every level a metric passes exactly when it is established, is inferior exactly when it is breached, and is indeterminate exactly when measured and neither |
| `Bootstrap.ExactlyOneReading` | `internal/analysis/bootstrap.go:134-203` | A measured metric has exactly one of pass, inferior and indeterminate, at every level that keeps bounds in order and for every threshold; an unmeasured one has none |
| `Bootstrap.Analyze` | `internal/analysis/bootstrap.go:53-131` | The loop over guardrails gives the specified verdict, or an error for an invalid request |
| `Bootstrap.PromotionMeaning` | `internal/analysis/bootstrap.go:284-351` | At every level, promotion exactly when the sample is trusted, every guardrail is established and not breached, there are at least 30 pairs, and the primary is established |
| `BootstrapMeaning.WaveOffMeaning` | `internal/analysis/bootstrap.go:284-351` | At every level, wave-off exactly when the sample is trusted and a guardrail is breached, or every guardrail is established, there are at least thirty pairs and the primary is breached and not established |
| `ReplayIndex.Index.constructor` | `internal/replay/index.go:87-111` | The three maps hold, for each key, what a pass over the step spans finds for it |
| `ReplayIndex.Index.Lookup` | `internal/replay/index.go:140-183` | The map lookup returns what a linear scan with the same consumed set returns, and consumes that span |
| `ReplayIndex.ScanGroup` | `internal/replay/index.go:140-192` | Scanning the spans grouped under a key is scanning all spans for that key |
| `ReplayIndex.ScanMeaning` | `internal/replay/index.go:140-183` | A match is an unserved step sharing what its kind promises; a miss means no unserved step has the request's hash or tool |
| `ReplayMeaning.MatchedExactly` | `internal/replay/index.go:140-192` | Exactly which span is matched: the last recorded under that number when unserved and its input agrees; else the first unserved with that input; else the first unserved call of that tool with those arguments; else the first unserved call of it |
| `ReplayIndex.StaysConsumed` | `internal/replay/index.go:140-192` | A served span stays served |
| `ReplayIndex.NothingServedTwice` | `internal/replay/index.go:140-192` | In any run of requests no recorded step is served twice |
| `ReplayPolicy.NewPolicy` | `internal/replay/mode.go:93-104` | The loops leave a tool the effect of its last entry, and the live tools named |
| `ReplayPolicy.WhatEachActionMeans` | `internal/replay/mode.go:107-173` | Exactly when a request is served, run live, or answered without running, by mode, effect and match |
| `ReplayTracker.Tracker.Observe` | `internal/replay/divergence.go:134-151` | Observing a request adds its step, its divergence if any, and its count |
| `ReplayTracker.Tracker.Compare` | `internal/replay/divergence.go:159-207` | The comparison with the recorded step at the position adds at most one divergence |
| `ReplayTracker.Tracker.Finish` | `internal/replay/divergence.go:211-222` | Finishing adds one missing step per recorded position not reached |
| `ReplayTracker.CleanExactlyWhenFaithful` | `internal/replay/divergence.go:134-222` | A finished report is clean exactly when the replay took as many steps as the recording and agrees at each |
| `ReplayMeaning.ReportedExactly` | `internal/replay/divergence.go:134-222` | Exactly which divergences a finished report lists, by position and kind |
| `ReplayMeaning.TallyMeaning` | `internal/replay/divergence.go:134-151` | The refused and no-op counts are the numbers of steps with those actions |
| `ReplayMeaning.RecordedMeaning` | `internal/replay/index.go:117-131` | The recorded sequence is the step spans by number, those of one number in file order |
| `ReplayTracker.FinishedIncreasing` | `internal/replay/divergence.go:159-222` | Divergences are listed in strictly increasing step order |
| `ReplayTracker.FaithfulConsumes` | `internal/replay/server.go:209-244` | A faithful replay is matched exactly at each step, by that step's own span |
| `ReplayTracker.FaithfulReplayIsClean` | `internal/replay/server.go:209-244` | Repeating the whole recording matches exactly everywhere, in every mode, and reports nothing |
| `ReplayTracker.RunsAreContained` | `internal/replay/mode.go:107-173` | In any run no tool runs live but a read that hybrid mode names live, none is answered from the recording but a read, and each answer from it is a recorded step nothing before was answered from |
| `ReplayTracker.Server.Handle` | `internal/replay/server.go:209-244` | A request is looked up at the tracker's position, decided, and observed |
| `Suppression.OnlyHarmlessForwarded` | `internal/recorder/suppress.go:90-152` | Over any run, nothing reaches the live server but non-POST traffic, other methods, and tools classified read |
| `Suppression.StoredWasInvented` | `internal/recorder/registry.go:61-79` | Whatever is stored for a session was invented for a write of that session |
| `Suppression.StoredCarriesId` | `internal/recorder/suppress.go:161-186` | Between requests every stored object carries its own identifier |
| `Suppression.IncompleteExactlyWhenNew` | `internal/recorder/suppress.go:167-182` | Between a request's two registrations its identifier stands for an object without one exactly when the request is the first to use it since the session was last evicted |
| `Suppression.SessionsAreIsolated` | `internal/recorder/registry.go:89-107` | A session is only answered with objects of its own writes, named in its own arguments |
| `Suppression.HeldExactly` | `internal/recorder/registry.go:61-118` | Unless the same write comes again, an object is held exactly as long as no registration reads a clock more than the time to live after its session's last registration, and it is held unchanged |
| `Suppression.TimelyKeepsAlive` | `internal/recorder/registry.go:111-118` | Within the time to live of when it was last seen, a session is kept alive whatever anyone does |
| `Suppression.MintKeeps` | `internal/recorder/registry.go:61-79` | One registration, reading the clock twice, keeps what a session holds exactly when it does not evict the session |
| `Suppression.WritesReadBack` | `internal/recorder/suppress.go:121-128` | After a suppressed write, while its session is kept alive, a call naming its identifier is answered from that session; with exactly its object, if it names no other and the hash tells the session's other writes from it |
| `Suppression.RetriesAgree` | `internal/recorder/suppress.go:161-186` | A retry is answered as the first attempt was exactly when its arguments name nothing invented since, and never forwarded |
| `Suppression.RetryMeetsAnother` | `internal/recorder/suppress.go:121-128` | A run in which a write, made again, is answered with the object of another write that its arguments name |
| `Suppression.RetryAddsNothing` | `internal/recorder/registry.go:61-79` | A retry while the session is alive leaves the first object in place and adds none |
| `Suppression.ContainsMeaning` | `internal/recorder/registry.go:100-105` | An identifier is found exactly when it occurs anywhere in the arguments |
| `Suppression.IdsTellApart` | `internal/recorder/registry.go:62-63` | Equal identifiers, with names free of the separator and no collision on the texts hashed, mean the same session, tool and arguments; equal ones give equal identifiers |
| `Suppression.AnswerNames` | `internal/recorder/suppress.go:161-195` | The answer to a suppressed write names its tool, its effect and its identifier, and reports no error |
| `SuppressionAnswers.AnsweredExactly` | `internal/recorder/suppress.go:90-152` | Exactly which answer each request gets |
| `SuppressionAnswers.TalliedByAnswer` | `internal/recorder/suppress.go:90-152` | Each tally counts its own answers |
| `SuppressionAnswers.EmittedMeaning` | `internal/recorder/suppress.go:215-264` | Over any run, everything recorded is of a suppressed write with its classified effect, or of a refused call with none |
| `Suppression.RunsAreAccounted` | `internal/recorder/suppress.go:215-264` | Every readable POST is in exactly one count, every call not forwarded or replayed is recorded once, and a session's steps are numbered without gaps |
| `SuppressorRun.SyntheticRegistry.EvictLocked` | `internal/recorder/registry.go:111-118` | The deleting loop leaves exactly the sessions seen since the cutoff |
| `SuppressorRun.SyntheticRegistry.Mint` | `internal/recorder/registry.go:61-79` | The registry holds the very object given, unless its identifier is taken |
| `SuppressorRun.SyntheticRegistry.Lookup` | `internal/recorder/registry.go:89-107` | The loop finds an object named in the arguments exactly when there is one |
| `SuppressorRun.MintView` | `internal/recorder/registry.go:61-79` | A registration shows whatever its object holds by now |
| `SuppressorRun.Suppressor.SuppressCall` | `internal/recorder/suppress.go:161-186` | Storing, completing in place and storing again equals registering the complete object twice |
| `SuppressorRun.Suppressor.EmitStep` | `internal/recorder/suppress.go:230-264` | The step takes the session's next number |
| `SuppressorRun.Suppressor.HandleWrite` | `internal/recorder/suppress.go:143-147` | A write gives the machine's suppressed state |
| `SuppressorRun.Suppressor.HandleUnclassified` | `internal/recorder/suppress.go:132-141` | An unclassified tool gives the machine's refused state |
| `SuppressorRun.Suppressor.ServeHTTP` | `internal/recorder/suppress.go:90-152` | The handler is the machine's step |
| `JsonPaths.ReadWhatWasSet` | `internal/digest/project.go:171-183` | A value set at a path is read back there |
| `JsonPaths.SetElsewhere` | `internal/digest/project.go:171-183` | Setting one path leaves every path apart from it alone |
| `JsonPaths.BuildIsInjective` | `internal/digest/project.go:171-183` | Over separate paths, an object determines which values were written |
| `Projection.Proj.Str` | `internal/digest/project.go:185-194` | A string is written unless the scope or its emptiness leaves it out |
| `Projection.Proj.Strs` | `internal/digest/project.go:196-209` | A list of strings is written unless the scope or its emptiness leaves it out |
| `Projection.Proj.F64` | `internal/digest/project.go:213-219` | A number is written whenever it is present, zero or not |
| `Projection.Proj.I64` | `internal/digest/project.go:221-227` | An integer is written whenever it is present, zero or not |
| `Projection.ProjectJudge` | `internal/digest/project.go:85-103` | A judge's item holds its own fields and its calibration's |
| `Projection.Project` | `internal/digest/project.go:26-108` | The builder, writing in order, makes the object of the listed entries |
| `ProjectionFields.ModelFields` | `internal/digest/project.go:29-44` | The agent, its image and its model are found at their own paths; the behavioural image is what follows the first @ |
| `ProjectionFields.ParameterFields` | `internal/digest/project.go:45-49` | So is each model parameter: a number when set, zero or not |
| `ProjectionFields.ListFields` | `internal/digest/project.go:51-103` | The three lists hold one item an element, by name, and are absent when empty |
| `ProjectionFields.ContextFields` | `internal/digest/project.go:76-83` | Retrieval and policy are found at their own paths, a set policy even when empty |
| `ProjectionFields.PromptFields` | `internal/digest/project.go:55-62` | A prompt's name, digest and, in content, source are found at their own keys |
| `ProjectionFields.ToolFields` | `internal/digest/project.go:65-74` | A tool's five fields are found at their own keys, the optional two unless empty |
| `ProjectionFields.JudgeFields` | `internal/digest/project.go:85-103` | A judge's name, model and rubric are found at their own keys |
| `ProjectionFields.CalibrationFields` | `internal/digest/project.go:85-103` | A calibration is found in content only, its time to the whole second and absent at the zero time |
| `ProjectionFields.ImageMeaning` | `internal/digest/project.go:110-123` | The behavioural identity of an image is what follows the first @ of its reference |
| `Identity.NamedInSorted` | `internal/digest/project.go:125-133` | Stable sorting by name does not change which element a name stands for |
| `Identity.ListsAreNameKeyedSets` | `internal/digest/project.go:125-133` | With unique names, sorted lists of items are equal exactly when every name contributes the same item |
| `Identity.EntriesAreSeparate` | `internal/digest/project.go:26-108` | The sixteen entries of a projection are at sixteen separate paths |
| `Identity.PromptMeaning` | `internal/digest/classify.go:90-167` | A prompt's item determines its name and digest, and its source in the content scope only |
| `Identity.ToolMeaning` | `internal/digest/classify.go:90-167` | A tool's item determines the whole tool |
| `Identity.JudgeMeaning` | `internal/digest/classify.go:90-167` | A judge's item determines its name, model and rubric, and its calibration in the content scope only |
| `Identity.ProjectionMeaning` | `internal/digest/project.go:26-108` | With unique names, projections are equal exactly when the manifests agree on every field the scope covers |
| `Identity.ContentDeterminesBehavior` | `internal/digest/classify.go:90-167` | Equal content projections give equal behaviour projections, names unique or not |
| `Identity.OrderNeverMatters` | `internal/digest/project.go:125-133` | List order never reaches a projection |
| `Diff.ListedInOrder` | `internal/diff/model.go:275-282` | Changes are listed by plane and element, and an element's changes keep their order |
| `DiffReach.PlanesInOrder` | `internal/diff/model.go:19-34` | Changes are listed in the order code, model, prompts, tools, retrieval, policy, judges |
| `DiffListing.ListedExactly` | `internal/diff/compare.go:80-355` | A comparison lists a field of an element exactly when it differs as shown; a judge that moved, for its calibration unless it was measured again since |
| `DiffReach.TagMeaning` | `internal/diff/compare.go:80-355` | For each tag, exactly which differences between the manifests put a change with it on the list |
| `DiffReach.ReachMeaning` | `internal/diff/model.go:220-241` | A comparison reaches the model, or moves the gate, exactly when some field the model or the judges see differs as displayed |
| `DiffReach.ChangesAreFaithful` | `internal/diff/compare.go:80-355` | Every listed change shows what each manifest has at that plane, element and field, its kind, and is severe exactly when it touches security or the gate |
| `DiffReach.NumberShown` | `internal/diff/model.go:304-316` | A number shows without its trailing zeros and then point, an absent one as unset |
| `DiffReach.DigestShown` | `internal/diff/model.go:294-302` | A long digest shows as its first four hex digits |
| `DiffReach.ImageShown` | `internal/diff/model.go:284-292` | An image reference shows with its digest shortened |
| `Diff.TaggedExactly` | `internal/diff/compare.go:80-355` | A tagged or severe change is listed exactly when some displayed behavioural field differs |
| `Diff.ToolsQuiet` | `internal/diff/compare.go:190-250` | No tagged tool change exactly when every name stands for the same tool on both sides |
| `Diff.PromptsQuiet` | `internal/diff/compare.go:135-170` | No tagged prompt change exactly when every name has the same digest on both sides |
| `Diff.JudgesQuiet` | `internal/diff/compare.go:286-355` | No tagged judge change exactly when every name has the same model and rubric on both sides |
| `Diff.ModelQuiet` | `internal/diff/compare.go:115-133` | No model change exactly when every model field displays the same |
| `Diff.CodeQuiet` | `internal/diff/compare.go:91-104` | No tagged image change exactly when the references display the same or pin the same bytes |
| `Diff.EqualBehaviorLooksSame` | `internal/diff/compare.go:33-78` | Equal behaviour projections display the same, names unique or not |
| `Diff.ProvenanceIsQuiet` | `internal/diff/model.go:220-241` | Under an identical or provenance-only verdict, with a digest that does not collide on the two manifests, no change is tagged or severe, so both counts are zero |
| `Diff.VerdictMeaning` | `internal/diff/compare.go:69-76` | With unique names and such a digest each verdict says exactly how the manifests agree |
| `Diff.SilentExactlyWhen` | `internal/diff/compare.go:33-78` | With unique names and such a digest, a behavioural verdict lists nothing tagged exactly when the manifests display the same and differ in a field whose display hides it |
| `Diff.EmptyPolicyIsSilent` | `internal/diff/compare.go:271-284` | An empty policy digest against no policy: behavioural, with nothing tagged listed |
| `Diff.TenIsSilent` | `internal/diff/model.go:304-309` | A temperature moved from 1 to 10: behavioural, with nothing tagged listed, because trailing zeros are trimmed |
| `DiffRun.Index` | `internal/diff/compare.go:357-363` | The map gives the last element of each name |
| `Identity.LastOfName` | `internal/diff/compare.go:357-363` | Where a name repeats it stands for its last element |
| `DiffRun.Union` | `internal/diff/compare.go:365-382` | The union is every name of either side, once, in order |
| `DiffRun.CompareCode` | `internal/diff/compare.go:91-104` | The method lists the specified change |
| `DiffRun.ComparePrompts` | `internal/diff/compare.go:135-170` | The loop lists the specified changes |
| `DiffRun.CompareTools` | `internal/diff/compare.go:190-250` | The loop lists the specified changes |
| `DiffRun.CompareJudges` | `internal/diff/compare.go:286-328` | The loop lists the specified changes |
| `DiffRun.Compare` | `internal/diff/compare.go:33-78` | The whole comparison is the specified one |
| `DiffRun.ReachModel` | `internal/diff/model.go:222-230` | The loop counts the changes tagged input or model |
| `DiffRun.ChangeGate` | `internal/diff/model.go:233-241` | The loop counts the changes tagged gate |
| `DiffRun.CountReach` | `internal/diff/model.go:220-241` | A comparison that finds no behavioural difference counts zero and zero |
| `LineDiff.LineDiffCounts` | `internal/diff/linediff.go:13-35` | The table is filled so that its corner is the length of a longest common subsequence, and the counts follow from it |
| `LineDiff.FillRow` | `internal/diff/linediff.go:13-35` | A row of the table holds the lengths for its suffixes |
| `LineDiff.LcsIsMaximal` | `internal/diff/linediff.go:13-35` | No common subsequence is longer |
| `LineDiff.LcsIsReached` | `internal/diff/linediff.go:13-35` | A common subsequence of that length exists |
| `LineDiff.CountsAreFewest` | `internal/diff/linediff.go:13-35` | Every edit script between the bodies inserts and removes at least the counts |
| `LineDiff.BestScript` | `internal/diff/linediff.go:13-35` | A script with exactly the counts turns one body into the other |
| `LineDiff.NothingMovedMeansEqual` | `internal/diff/linediff.go:13-35` | Both counts are zero exactly when the lines are the same |
| `LineDiff.SameLines` | `internal/diff/linediff.go:37-44` | Bodies have the same lines exactly when they differ only in line endings and trailing newlines |
| `LineDiff.LinesReadBack` | `internal/diff/linediff.go:37-44` | Text is split into the lines it was written as, whichever way each of them ends |
| `ReplayStage.DropItem` | `internal/rollout/stage.go:324-332` | The in-place filter keeps every other item's refs, in order |
| `ReplayStage.ReplaySession` | `internal/rollout/stage.go:122-160` | One session queues both refs, or drops whatever it had queued |
| `ReplayStage.RunOfflineReplay` | `internal/rollout/stage.go:107-166` | The loop gives the specified batch, or the specified failure |
| `ReplayStage.RefsArePairs` | `internal/rollout/stage.go:117-161` | The refs are one incumbent and one candidate per surviving session, in order |
| `ReplayStage.RefsInOrder` | `internal/rollout/stage.go:117-161` | Ref 2k is the incumbent's and ref 2k+1 the candidate's of surviving session k |
| `ReplayStage.KeptMeaning` | `internal/rollout/stage.go:117-161` | A session survives exactly when some attempt at it and every later one were usable on both arms |
| `ReplayStage.BatchExactly` | `internal/rollout/stage.go:107-166` | The stage fails exactly when an incumbent replay does, or a candidate one after a usable incumbent; and it counts every attempt not usable on both arms |
| `ReplayStage.TwoRefsPerSession` | `internal/rollout/stage.go:117-161` | There are two refs per session not excluded, exactly when no session is measured and later excluded |
| `ReplayStage.RepeatedSessionLosesRefs` | `internal/rollout/stage.go:117-166` | A session measured and then excluded when repeated leaves no refs at all, where one session was not excluded |
| `ReplayStage.DistinctSessionsPairUp` | `internal/rollout/stage.go:117-161` | With distinct sessions the refs are a pair per usable session and nothing else |
| `Pairing.Pairs` | `internal/score/score.go:143-174` | The map-building loop gives the complete pairs and the dropped items, by item |
| `Pairing.PairsAreComplete` | `internal/score/score.go:129-174` | Every item is paired or dropped, once, and paired exactly when both arms scored the metric |
| `ScoreMeaning.PairsMeaning` | `internal/score/score.go:129-174` | A pair is, exactly, the last result of its item folding to each arm, both usable and carrying the metric |
| `ScoreMeaning.DroppedMeaning` | `internal/score/score.go:129-174` | The dropped are, exactly, the items with a result and no pair |
| `ScoreMeaning.ListedByName` | `internal/score/score.go:143-174` | Both lists are in strictly ascending order of name |
| `Accounting.MissingnessOf` | `internal/rollout/stage.go:233-271` | The loops count the items each arm failed |
| `Accounting.OfflineTotal` | `internal/rollout/stage.go:233-271` | The four counts add up to the items attempted, less those scored in both arms, plus the pairs |
| `ScoreMeaning.OfflineFailures` | `internal/rollout/stage.go:233-271` | Which arm each item is charged to offline, by its last result under each arm |
| `Accounting.OfflineConserves` | `internal/rollout/stage.go:228-271` | The counts are the attempts less the items scored without the primary metric, exactly when no pair was completed by an arm in another case |
| `Accounting.ItemsFromSessions` | `internal/rollout/stage.go:179-209` | Results for selected sessions are for no more items than sessions |
| `Accounting.UppercaseCountsTwice` | `internal/rollout/stage.go:242-249` | An arm in another case makes its item count twice |
| `Accounting.ObservationsFrom` | `internal/rollout/observations.go:231-292` | The loops give one observation an item, in first-scored order, and the live counts |
| `Accounting.ArmsAttempted` | `internal/rollout/observations.go:266-272` | The nested map holds exactly the arms each item has results under |
| `Accounting.LiveTotal` | `internal/rollout/observations.go:252-291` | The live counts cover the items with results under both arms and any other item scored on both sides |
| `ScoreMeaning.LiveFailures` | `internal/rollout/observations.go:252-291` | Which arm each item is charged to live, by its usable results on each side |
| `ScoreMeaning.SidesMeaning` | `internal/rollout/observations.go:231-250` | Each side of an observation is the last usable result for its item on that side |
| `ScoreMeaning.ObservedInOrder` | `internal/rollout/observations.go:231-260` | One observation for each item with a usable result, in the order first scored |
| `Accounting.LiveConserves` | `internal/rollout/observations.go:262-291` | They are the items with results under both arms, unless an item scored on both sides names no incumbent |
| `Accounting.UnnamedIsCounted` | `internal/rollout/observations.go:252-291` | An incumbent in another case: one item counted, with no item attempted under both arms |
| `Sink.RunsAreSafe` | `internal/recorder/sink.go:112-215` | In every interleaving nothing offered is lost or duplicated, accepted records are handled in order, files hold exactly their written records, and earlier recordings are untouched |
| `Sink.EveryRecordIsSomewhere` | `internal/recorder/sink.go:112-168` | Each offered record is dropped, queued, in hand, written or failed, and in only one |
| `Sink.FilesKeepAcceptanceOrder` | `internal/recorder/sink.go:153-198` | A session's file holds its records in acceptance order |
| `Sink.ClosedForGood` | `internal/corpus/corpus.go:108-132` | A closed cassette is never reopened, replaced or changed |
| `Sink.ExitFlushes` | `internal/recorder/sink.go:137-148` | The worker exits with everything accepted handled and no cassette open |
| `Sink.NothingAfterExit` | `internal/recorder/sink.go:112-151` | After the exit nothing more is written, whatever is accepted |
| `Sink.AcceptedAfterExit` | `internal/recorder/sink.go:112-151` | A record offered after the exit is accepted, and stays queued and unwritten whatever follows |
| `Sink.DrainProgresses` | `internal/recorder/sink.go:137-148` | A draining worker is never stuck and each of its steps brings it nearer to exiting |
| `SinkMeaning.DroppedExactly` | `internal/recorder/sink.go:112-124` | A record is dropped exactly when the queue is full |
| `SinkMeaning.WrittenExactly` | `internal/recorder/sink.go:153-198` | A record in hand is written exactly when it encodes and its cassette is open or can be created anew, and touches no other cassette |
| `SinkMeaning.ClosedExactly` | `internal/recorder/sink.go:202-215` | A sweep closes exactly the cassettes last written longer ago than the idle time, and counts failures |
| `SinkMeaning.StaysOpen` | `internal/recorder/sink.go:126-215` | Over any steps, a cassette stays open until the idle time has passed since it was written |
| `SinkRun.CassetteSink.Record` | `internal/recorder/sink.go:112-124` | A record is queued, or dropped and counted when the queue is full |
| `SinkRun.CassetteSink.CassetteFor` | `internal/recorder/sink.go:170-198` | The session's cassette is found or created; a recorded session is refused |
| `SinkRun.CassetteSink.Write` | `internal/recorder/sink.go:153-168` | The record in hand is written or counted as failed |
| `SinkRun.CassetteSink.CloseIdle` | `internal/recorder/sink.go:202-215` | Exactly the quiet cassettes, or all, are closed, and failures to close are counted |
| `SinkRun.CassetteSink.Run` | `internal/recorder/sink.go:126-151` | The worker's loop, in whatever order its channels are ready, is a run of the machine; it exits exactly when it finds the sink closing, with the queue empty |
| `SinkRun.CassetteSink.DrainAndStop` | `internal/recorder/sink.go:137-148` | The draining loop is a run of the machine that ends with the queue empty and the worker gone |
| `SinkRun.CassetteSink.Close` | `internal/recorder/sink.go:388-394` | Closing twice is closing once |
| `Cas.FS.Put` | `internal/cas/fs.go:47-101` | A body is stored under its digest unless it is there already; it is an error exactly when it cannot be staged, or is not there and its directory or its name cannot be made |
| `Cas.FS.Get` | `internal/cas/fs.go:103-119` | A digest gives the bytes stored under it, or an error |
| `CassetteMeaning.StoredExactly` | `internal/cas/fs.go:47-101` | Exactly when a writer is told its body is stored, after finding the blob there, renaming its own, or losing the rename to another's |
| `Cas.RunsAreSound` | `internal/cas/fs.go:47-101` | In every interleaving of writers each blob hashes to its name and none disappears; if no two of the bodies there are collide, none changes |
| `Cas.StoredReadsBack` | `internal/cas/fs.go:47-119` | A writer told its body is stored can read exactly that body back, if no two of the bodies there are collide |
| `Cassette.HandledPayload` | `internal/cassette/writer.go:137-172` | A handled payload reads back as its redacted body exactly when, offloaded, its digest names no other bytes and, inline, it is UTF-8; inline, what is not UTF-8 is replaced |
| `Cassette.WrittenPayloadsReadBack` | `internal/cassette/writer.go:107-172` | The line written is the last of the file, and each payload read from it is exactly its redacted body except, offloaded, where its digest already named other bytes and, inline, where it is not UTF-8 |
| `Cassette.SoundStoreReadsBack` | `internal/cassette/reader.go:107-127` | With a sound store, and no collisions among the bodies it holds and is given, an offloaded payload reads back as it was and an inline one with what is not UTF-8 replaced |
| `Cassette.BinaryBodyChanges` | `internal/cassette/writer.go:157-162` | An inline body of the byte 255 reads back as three other bytes |
| `CassetteMeaning.PayloadAttributes` | `internal/cassette/writer.go:145-172` | A payload leaves its size and its redacted bytes inline, or beyond the threshold the reference to them, and fails exactly when the store does |
| `CassetteMeaning.PayloadLabels` | `internal/cassette/writer.go:145-156` | The labels noted are those there were and those that fired, each once |
| `CassetteMeaning.LineCarries` | `internal/cassette/writer.go:107-142` | A line carries the schema, the kind, the step number and every attribute it was given |
| `CassetteMeaning.ResolvedExactly` | `internal/cassette/reader.go:107-127` | A payload that was offloaded and cannot be found is an error, never empty |
| `Utf8.UnchangedExactly` | `internal/cassette/writer.go:137-141` | Bytes written as a JSON string come back unchanged exactly when they are well-formed UTF-8 (section 4 of RFC 3629) |
| `Utf8.ValidMeaning` | `internal/cassette/writer.go:137-141` | Bytes are well-formed exactly when they are the encoding of some characters, by the table in section 3 of RFC 3629 |
| `Utf8.SanitizedMeaning` | `internal/cassette/writer.go:137-141` | Read back, a character's encoding is kept and each byte that begins none becomes U+FFFD |
| `Utf8.SanitizedIsValid` | `internal/cassette/reader.go:74-79` | What comes back is well-formed, so writing it again changes nothing |
| `Cassette.WriterRuns` | `internal/cassette/writer.go:107-142` | Over any run the store stays sound, store and file only grow, and the step counter counts the unnumbered spans |
| `Cassette.NumberGiven` | `internal/cassette/writer.go:120-127` | The number a span is given is how many came before it without one |
| `CassetteRun.CassetteWriter.AdoptHeader` | `internal/cassette/writer.go:90-98` | A header is adopted at most once |
| `CassetteRun.CassetteWriter.HandlePayload` | `internal/cassette/writer.go:145-172` | The in-place edits of the attributes give the specified ones |
| `CassetteRun.CassetteWriter.WriteSpan` | `internal/cassette/writer.go:107-142` | The method is the specified step, errors included |
| `CassetteRun.CassetteReader.Resolve` | `internal/cassette/reader.go:107-127` | The reader resolves a payload inline, by reference, or to an error |

## Left out

- HTTP transport, Kubernetes clients, webhooks, sidecar injection, pinning, subprocesses, S3, OTLP and MCP clients: the answers they give are inputs of the model.
- JSON and YAML decoding and encoding, RFC 8785 formatting (section 3.2), SHA-256 and the redaction patterns: functions given as parameters. Of a span's JSON only the encoding of text is modelled; bytes in an attribute that is no payload come back as base64 text.
- Cassette lines longer than 64 MiB, which the reader refuses (`internal/cassette/reader.go`, line 24): every line written is taken to be read.
- Floating point: rounding, NaN and infinities, and the error of the log-gamma form of the binomial tail. Observations are reals, and the binomial tail is exact.
- Statistical coverage of the intervals: no probabilistic error rate is stated.
- The remote analyzer, the scorers and the judge check: their verdicts are inputs, and any verdict is allowed.
- CompareActivity: the finding about write attempts is an input of a live step.
- Reasons, details, exclusion messages, renderers and CLI flags: text only. The line counts shown beside a prompt are proved in `LineDiff` but not attached to a change.
- Kubernetes API details: timestamps persisted to whole seconds, stale cache reads, and optimistic-lock conflicts other than as a refused write.
- The other fields of a scorer's ref (paths, manifest digest, degradation): a ref is its item and its arm.
- Which router the witness runs use: the runs that show a rollback leaving traffic elsewhere are over the abstract router, whose routes can always be read, weighted and mirrored.
- Two traffic targets on one route object: each place is a route of its own, so edits of one object through two places do not meet.
- The direction of time: a pass may read an earlier time than the last, as when a clock is set back. `RolloutsEnd` alone supposes that time does not run backwards.
- Generation changes within a run: a run is of one generation, and a changed generation starts from a reset status.
- Sticky sessions: whether the router can pin sessions is an input of the pass.
- Serving of protocol spans and the shape of recorded responses in replay: protocol traffic is not counted as steps, and the recording's step spans are its model and tool steps.
- The nested maps inside one projected object: `SetPath` replaces values where the source shares and edits the inner maps, which nothing outside the builder can see.
- Concurrent requests to the suppressor: each request is one event. `IncompleteExactlyWhenNew` says what another request served between a write's two registrations could see.
- Partial writes: a span that fails to encode, or a cassette record that fails, leaves nothing in the file.
- The recorder's span attributes and OpenTelemetry naming: a record is its session and its body.
- Case folding of arm names: a function given as a parameter that keeps the two lowercase names.
- Calling `Finish` on a tracker twice: the second call would list the missing steps again.
- Blob store and corpus listing, deletion and retention, and the S3 forms of both.
