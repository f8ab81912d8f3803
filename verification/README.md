# Verification models of the MAVIS v2 runtime

Dafny models of the decision logic of a two-arm robot cell runtime, with proofs of what every
run keeps. `dafny verify dfyconfig.toml` checks everything.

| file | what it models |
|---|---|
| `PathDensify.dfy`, `RailSweep.dfy` | the path check over all configurations and rail positions |
| `StepRatio.dfy`, `PlanExecutor.dfy`, `JointCap.dfy` | steps measured in caps, the waypoint executor, the per-tick joint cap |
| `PlanLifecycle.dfy` | plan states, arrivals behind the safety gate, the gate-hold watch |
| `FaultSafety.dfy` | driver faults, re-seeding and recovery beside the sender thread |
| `PressEdges.dfy`, `TrackerAnchor.dfy` | controller press edges and their actions; clutch anchors |
| `ActionLayout.dfy`, `ActionSlots.dfy`, `ActionFilling.dfy`, `ActionRoundTrip.dfy`, `ActionSource.dfy` | which arms a policy drives, its chunk slots, its watermark |
| `RowBudget.dfy`, `Replay.dfy` | spreading a policy row over ticks, replaying a recorded column |
| `TakeoverGate.dfy`, `EpisodeBoundary.dfy`, `OnlineDagger.dfy` | who drives an arm, episode boundaries, the training coordinator |
| `RailHoming.dfy` | exclusion of track-homing jobs |
| `Prelude.dfy` | options, results, small real arithmetic |

Each stateful component is a value with step functions, a class whose methods are proved
against those functions, and lemmas over every run of the steps. Floats are reals. Where two
threads interleave, the steps are the code's atomic sections. Where a property is false of the
code, the code is kept, a lemma gives a failing input, a run from the initial state where the
property is about runs, and another says for all of them exactly when the property holds:

| property | fails in | holds exactly when |
|---|---|---|
| nothing is put for a faulted arm | `QueuedTargetIsSent` | `PutsForAStoppedArm`, `FaultedPutsExactly` |
| nothing of before a fault is sent after the recovery | `RecoveryInOneDrain`, `FaultBetweenChoiceAndNote` | `WhatAFaultLeaves`, `WhatARecoveryLeaves`, `SendableIsPending` |
| one boundary per episode | `UnseenEpisodeHasNoBoundary`, `PassedOverEpisode` | `BoundaryLaw` |
| plan states match the executor | `OrphanMarksFailed`, `OrphanLoadsBesideReplay` | `OrphanedResult`, `BooksStaySettled` |
| a goto starts with a clean watch | `GotoInheritsTheClock` (two runs) | `EndOfMotion`, `IdleClock`, `GotosFirstTick` |
| done means nothing moves or executes | `DoneWithOneHeld`, `DoneBesideReplay`, `ReplayEndsBesidePlan`, `SwallowedArrival` | `DoneTooEarly` |
| an arm said to execute moves | `SwallowedArrival` | `StaleBegins` |
| no served row is below the watermark | `ServedBelowTheMark` | `DropBetweenCheckAndFill`, `AboveTheMark` |
| capping keeps an executor step | `CarriageCutAtEqualCaps` | `PlanStepPasses` |
| the first row is replayed | `FirstRowSkipped` | `FirstRowServed` |
| every loaded plan ends | `EmptyPlanNeverEnds` | `PlanIsWalked` |

Two places where code and comments differ; the models follow the code. Arrivals are compared
with a library closeness test whose default relative part (1e-5) comes on top of the 1e-9 the
comments speak of, so a plan may be done some micrometres off its goal (`ArrivedOffTheGoal`).
The carriage bound of the per-tick cap has no tolerance while the executor's ratio has one, so
with equal carriage caps a validated step can lose a sliver of its carriage motion.

## Model

| member | source | states |
|---|---|---|
| `PathDensify.DensifyPath` | `src/apollo_mavis_v2_runtime/devices/rail_sweep.py:118-134` | the nested loops list exactly the cut-up polyline: every segment in the least number of equal pieces that keeps the largest joint step within the limit, the last waypoint once |
| `PathDensify.PiecesAreLeast` | `src/apollo_mavis_v2_runtime/devices/rail_sweep.py:129` | the pieces of a segment are the least number that keeps every arm joint within the step, carriage not counted |
| `PathDensify.WalkEnds` | `src/apollo_mavis_v2_runtime/devices/rail_sweep.py:118-134` | the list opens at the start posture and closes at the last waypoint itself |
| `PathDensify.NeighboursAreClose` | `src/apollo_mavis_v2_runtime/devices/rail_sweep.py:118-134` | any two neighbouring configurations differ by at most the step in every arm joint, across segment borders too |
| `PathDensify.PathIsCovered` | `src/apollo_mavis_v2_runtime/devices/rail_sweep.py:118-134` | every point of the polyline has a checked configuration within one step of it in every joint |
| `PathDensify.SweepIsEven` | `src/apollo_mavis_v2_runtime/devices/rail_sweep.py:137-140` | rail positions are evenly spaced from one end of the travel to the other |
| `PathDensify.SweepCount` | `src/apollo_mavis_v2_runtime/devices/rail_sweep.py:137-140` | one gap less than positions: the count of steps nearest to the travel, halves to the even one, at least one |
| `PathDensify.SweepCovers` | `src/apollo_mavis_v2_runtime/devices/rail_sweep.py:137-140` | wherever the carriage is on its travel a swept position is within three quarters of a step |
| `RailSweep.CheckPath` | `src/apollo_mavis_v2_runtime/devices/rail_sweep.py:425-545` | clear exactly when, at every configuration and rail position, each violating pair violated at every earlier configuration there, is not in contact and is no closer than the tolerance below any earlier distance; otherwise the first bad cell in visiting order with its pair, reason and count; error cases; the twin posture is put back; a clear path was checked and tolerated, for every carriage position of the travel, with the carriage within three quarters of a step of it |
| `RailSweep.ClearPathIsCovered` | `src/apollo_mavis_v2_runtime/devices/rail_sweep.py:425-545` | any posture on a path found clear, with the carriage anywhere, has a checked and tolerated posture within one joint step and three quarters of a carriage step |
| `RailSweep.SweepCell` | `src/apollo_mavis_v2_runtime/devices/rail_sweep.py:465-518` | one cell accepts exactly into the next whitelist, or names an intolerable pair with a true reason |
| `RailSweep.AcceptedCell` | `src/apollo_mavis_v2_runtime/devices/rail_sweep.py:471-516` | an accepted cell is tolerable and the updated dictionary holds, for each pair still violating, its largest distance so far; cleared pairs are re-armed |
| `RailSweep.RejectedPair` | `src/apollo_mavis_v2_runtime/devices/rail_sweep.py:474-506` | a rejected pair breaks the declarative condition, for the reason given |
| `RailSweep.NeighbourTestIsWeaker` | `src/apollo_mavis_v2_runtime/devices/rail_sweep.py:507-512` | comparing neighbours only would let a creeping pair through that the sweep blocks |
| `StepRatio.RatioIsLeast` | `src/apollo_mavis_v2_runtime/control/joint_panel.py:173-183` | the ratio is the least number of caps the step fits into, joints, carriage and lever-weighted Cartesian bound together |
| `StepRatio.CapMeasureIsHomogeneous` | `src/apollo_mavis_v2_runtime/control/joint_panel.py:173-185` | a fraction of a step measures that fraction of its ratio |
| `StepRatio.CapMeasureResolves` | `src/apollo_mavis_v2_runtime/control/joint_panel.py:187` | with caps well above the arrival tolerance, a step the arrival test takes for nothing is at most half a cap |
| `PlanExecution.PlanExecutor.Load` | `src/apollo_mavis_v2_runtime/control/joint_panel.py:130-132` | replaces one arm's waypoints, from the first on, and no other arm's |
| `PlanExecution.PlanExecutor.Cancel` | `src/apollo_mavis_v2_runtime/control/joint_panel.py:134-140` | idles one arm and leaves the others |
| `PlanExecution.PlanExecutor.Step` | `src/apollo_mavis_v2_runtime/control/joint_panel.py:162-193` | one tick of one arm is the specified tick on its course, and the commanded posture is within the configured joint, carriage and, where given, lever-weighted bounds of the last; other arms keep theirs |
| `PlanExecution.PartsDrop` | `src/apollo_mavis_v2_runtime/control/joint_panel.py:184-185` | when a fraction g of n ticks is left, what is left of the segment is again cut into exactly g*n parts: the rounded-up count drops by one per tick |
| `PlanExecution.MoveAdvances` | `src/apollo_mavis_v2_runtime/control/joint_panel.py:184-186` | every tick of a segment advances by the same n-th of it, along the straight line |
| `PlanExecution.NotThereYet` | `src/apollo_mavis_v2_runtime/control/joint_panel.py:187` | before the last tick of a segment the posture is never taken for the waypoint |
| `PlanExecution.SegmentRun` | `src/apollo_mavis_v2_runtime/control/joint_panel.py:162-193` | fed its own output, the executor walks a segment in exactly max(1, ceil(ratio - eps)) ticks through equally spaced postures and lands on the waypoint itself |
| `PlanExecution.EqualSteps` | `src/apollo_mavis_v2_runtime/control/joint_panel.py:149-160` | all steps of a segment are the same n-th of it; together they exceed n caps by the tolerance at most, and with two or more none is under half a cap |
| `PlanExecution.VisitsEveryWaypoint` | `src/apollo_mavis_v2_runtime/control/joint_panel.py:130-193` | a plan reaches every waypoint exactly and in order, at the sum of the tick counts up to it, and ends idle on the last |
| `PlanExecution.StaysOnTheLine` | `src/apollo_mavis_v2_runtime/control/joint_panel.py:81-95` | at every tick before the end the arm is on the leg it heads along and the next tick is the next equal step of that leg |
| `PlanExecution.PlanEnds` | `src/apollo_mavis_v2_runtime/control/joint_panel.py:186-193` | the arm is idle exactly from the total tick count on, on the last waypoint |
| `PlanExecution.PlanWalks` | `src/apollo_mavis_v2_runtime/control/joint_panel.py:162-193` | under the executor's own caps every plan has such a walk, with every step within the caps up to its leg's share of the tolerance and over half of them when a leg takes several |
| `PlanExecution.PlanIsWalked` | `src/apollo_mavis_v2_runtime/control/joint_panel.py:81-193` | for every start and every waypoint list, the executor fed its own output under its own caps reaches each waypoint exactly and in order at the sum of the per-segment counts, steps along the leg in equal steps within the caps in between, and is idle exactly from the total on, on the last waypoint |
| `PlanExecution.ConfiguredPlan` | `src/apollo_mavis_v2_runtime/control/joint_panel.py:115-193` | the same from the configuration alone, with the lever-weighted way written out: each leg takes the least number of ticks the configured bounds allow, the Cartesian one exactly when step and levers are both configured, and no tick exceeds one of them by more than the tolerance |
| `PlanExecution.TickExactly` | `src/apollo_mavis_v2_runtime/control/joint_panel.py:162-193` | one tick, from the configuration: one of the least number of equal parts; within a nanometre or nanoradian of the waypoint in every slot it counts as there, and the last waypoint is handed back itself |
| `PlanExecution.EmptyPlanNeverEnds` | `src/apollo_mavis_v2_runtime/control/joint_panel.py:168-170` | a plan loaded without waypoints stays active for good and commands nothing |
| `JointCap.CapKeepsDirection` | `src/apollo_mavis_v2_runtime/control/loop.py:655-676` | the capped joint step is the asked one times one common factor, one unless it was cut; a cut step is exactly one cap long |
| `JointCap.CapBoundsTheStep` | `src/apollo_mavis_v2_runtime/control/loop.py:668-676` | every joint and the lever-weighted step stay within their bounds, up to the tolerance |
| `JointCap.CutExactly` | `src/apollo_mavis_v2_runtime/control/loop.py:655-676` | a step is cut exactly when a joint or the lever-weighted way is over its bound and the tolerance, and then it fits into one cap and nothing shorter |
| `JointCap.SameBound` | `src/apollo_mavis_v2_runtime/control/loop.py:594-612` | loop and executor read the same Cartesian bound from the configuration |
| `JointCap.BadCapHolds` | `src/apollo_mavis_v2_runtime/control/loop.py:660-667` | a cap that is not positive lets no joint move and reports any asked motion |
| `JointCap.CapKeepsRailInTravel` | `src/apollo_mavis_v2_runtime/control/loop.py:664-680` | the commanded carriage is always inside its travel and moves one cap at most from a command that was |
| `JointCap.RailGoesNearest` | `src/apollo_mavis_v2_runtime/control/loop.py:677-680` | the carriage goes as far towards where it is asked as one cap and its travel allow |
| `JointCap.CapIsIdempotent` | `src/apollo_mavis_v2_runtime/control/loop.py:614-681` | capping twice is capping once |
| `JointCap.CapKeepsExactly` | `src/apollo_mavis_v2_runtime/control/loop.py:668-680` | a step passes unchanged exactly when its joints are within the caps and the tolerance and its carriage is in travel and within one cap, without tolerance |
| `JointCap.PlanStepPasses` | `src/apollo_mavis_v2_runtime/control/loop.py:614-681` | an executor step under caps no looser is never cut in its joints, and passes unchanged exactly when its carriage part is within the loop's cap |
| `JointCap.LegIsNeverBent` | `src/apollo_mavis_v2_runtime/control/loop.py:625-634` | with the executor's carriage cap under the loop's by the tolerance, no step of a validated leg is changed |
| `JointCap.CarriageCutAtEqualCaps` | `src/apollo_mavis_v2_runtime/control/loop.py:678` | with equal carriage caps there is an executor step whose carriage the loop cuts |
| `ActionLayout.SessionBlocksAreWellNamed` | `src/apollo_mavis_v2_runtime/recorder/features.py:64-74` | blocks of different arms share no name, whatever the arm ids are, and no block is empty |
| `ActionLayout.BlockNames` | `src/apollo_mavis_v2_runtime/recorder/features.py:64-74` | a block lists the arm and a dimension with an underscore between, in the order of the dimensions, with the carriage of the arm's last entry |
| `ActionLayout.KeepsSessionOrder` | `src/apollo_mavis_v2_runtime/dora_bridge/policy_source.py:175` | the resolved arms stand in session order |
| `ActionLayout.ActionBlockLayout` | `src/apollo_mavis_v2_runtime/dora_bridge/policy_source.py:101-135` | the greedy match succeeds exactly when some order of the arms concatenates to the names, returns the layout of that order, and its errors name what is missing |
| `ActionLayout.OrderIsUnique` | `src/apollo_mavis_v2_runtime/dora_bridge/policy_source.py:112-116` | a list of names is the concatenation of one list of arms at most |
| `ActionLayout.CoveredIsDriven` | `src/apollo_mavis_v2_runtime/dora_bridge/policy_source.py:165-167` | the arms whose whole block appears among the names are exactly those concatenated |
| `ActionLayout.ResolveDrivenArms` | `src/apollo_mavis_v2_runtime/dora_bridge/policy_source.py:138-175` | announced or inferred, the result is exactly the arms whose blocks were concatenated, in session order, or a refusal when there is no such list |
| `ActionLayout.LegacySpecIsUnderstood` | `src/apollo_mavis_v2_runtime/dora_bridge/policy_source.py:146-152` | a policy without an arms list that names whole blocks in any order is understood, in one way only |
| `ActionSlots.RowIsCurrent` | `src/apollo_mavis_v2_runtime/dora_bridge/policy_source.py:427-434` | the served row is the one whose time it is: row 0 at once, one per chunk_dt after, the last from then on |
| `ActionSlots.MaskIsTheDeltas` | `src/apollo_mavis_v2_runtime/dora_bridge/policy_source.py:92-98` | in delta_ee every dimension but the gripper rescales, in the other spaces none |
| `ActionSlots.MasksFollowMeta` | `src/apollo_mavis_v2_runtime/dora_bridge/policy_source.py:92-98` | each arm's mask is that of its own block |
| `ActionSlots.AcceptedExactly` | `src/apollo_mavis_v2_runtime/dora_bridge/policy_source.py:632-693` | exactly which messages are accepted, and what the late ones are late for |
| `ActionFilling.WholeCellFills` | `src/apollo_mavis_v2_runtime/dora_bridge/policy_source.py:694-704` | a whole-cell message gives each driven arm exactly its announced columns |
| `ActionSlots.SplitAction` | `src/apollo_mavis_v2_runtime/dagger/policy_runner.py:348-360` | each arm gets the slice of its own width at its own offset |
| `ActionRoundTrip.RoundTrip` | `src/apollo_mavis_v2_runtime/dora_bridge/policy_source.py:523-562` | after an accepted whole-cell message in any block order the source has an action, and taking it apart hands every driven arm the current row's values under its own names, deltas rescaled, the rest as sent, and nothing to the other arms |
| `ActionRoundTrip.SessionNamesAreDistinct` | `src/apollo_mavis_v2_runtime/recorder/features.py:64-74` | no two cells of a session's announced action carry the same name |
| `ActionSlots.SessionIsValid` | `src/apollo_mavis_v2_runtime/dora_bridge/policy_source.py:460-493` | what the arm resolution accepts makes a session the source can serve |
| `ActionSlots.NewestIsLatest` | `src/apollo_mavis_v2_runtime/dora_bridge/policy_source.py:549-550` | the reported time is that of the newest row of any driven arm |
| `ActionSlots.ActiveSinceExactly` | `src/apollo_mavis_v2_runtime/dora_bridge/policy_source.py:427-434` | the current row became active a whole number of rows after the receipt, not in the future and less than a row ago unless it is the last |
| `ActionSlots.ReportedTime` | `src/apollo_mavis_v2_runtime/dora_bridge/policy_source.py:541-557` | the time of an action is the latest at which the row of any driven arm became active |
| `ActionSource.NoRowBelowTheMark` | `src/apollo_mavis_v2_runtime/dora_bridge/policy_source.py:672-677` | as long as no drop or restart comes while a message is between check and fill, every served row answers an observation above the watermark |
| `ActionSource.RunKeeps` | `src/apollo_mavis_v2_runtime/dora_bridge/policy_source.py:588-592` | over every run the watermark is that of the newest drop or start, and the slots are well-formed |
| `ActionSource.AboveTheMark` | `src/apollo_mavis_v2_runtime/dora_bridge/policy_source.py:672-704` | over every run with checks and fills apart: a served row answers an observation above the watermark exactly unless a drop or restart at or above it, not taken back, came between the check of its message and the fill |
| `ActionSource.ServedFrom` | `src/apollo_mavis_v2_runtime/dora_bridge/policy_source.py:694-706` | a served row comes from the newest message filled in for its arm since the newest clear, and the event that checked it is the one whose time and observation it carries |
| `ActionSource.NothingOldAfterADrop` | `src/apollo_mavis_v2_runtime/dora_bridge/policy_source.py:588-592` | after a drop every served row was filled in after it and, but for the one message in flight at the drop, answers an observation made after it |
| `ActionSource.DropBetweenCheckAndFill` | `src/apollo_mavis_v2_runtime/dora_bridge/policy_source.py:672-704` | from every reachable state: with a drop between check and fill the row is served, and it is below the new mark exactly if the publisher already had its observation at the drop |
| `ActionSource.ServedBelowTheMark` | `src/apollo_mavis_v2_runtime/dora_bridge/policy_source.py:672-704` | from the start: an accepted message whose observation is the publisher's newest is overtaken by a drop and served below the new mark |
| `ActionSource.VersionIsNewest` | `src/apollo_mavis_v2_runtime/dora_bridge/policy_source.py:626-700` | over every run actions carry the version of the newest message filled in or announcement |
| `ActionSource.SilentWhenPausedOrEmpty` | `src/apollo_mavis_v2_runtime/dora_bridge/policy_source.py:529-553` | no output exactly while paused or without any chunk |
| `ActionSource.ExternalPolicySource.OnAction` | `src/apollo_mavis_v2_runtime/dora_bridge/policy_source.py:632-713` | an undisturbed message is checked and filled in as specified |
| `ActionSource.ExternalPolicySource.CheckAction` | `src/apollo_mavis_v2_runtime/dora_bridge/policy_source.py:632-693` | the checks outside the lock: the first failing one refuses and counts, nothing else changes |
| `ActionSource.ExternalPolicySource.FillAction` | `src/apollo_mavis_v2_runtime/dora_bridge/policy_source.py:694-706` | the fill under the lock, whatever came since the check |
| `ActionSource.ExternalPolicySource.LatestAction` | `src/apollo_mavis_v2_runtime/dora_bridge/policy_source.py:523-562` | the session action composed from the slots |
| `ActionSource.ExternalPolicySource.Requery` | `src/apollo_mavis_v2_runtime/dora_bridge/policy_source.py:588-592` | clears the slots and moves the watermark to the publisher's newest observation |
| `RowBudget.RowsAreConserved` | `src/apollo_mavis_v2_runtime/dagger/policy_runner.py:223-244` | between gate events, what was handed out and what is left add up to the distinct rows received, per coordinate, with the budget between 0 and 1 |
| `RowBudget.SpreadsEvenly` | `src/apollo_mavis_v2_runtime/dagger/policy_runner.py:223-244` | after any run, n ticks of one share on a new row hand out min(n shares, one) of it and of what was left of the row before |
| `RowBudget.FirstTickIsShare` | `src/apollo_mavis_v2_runtime/dagger/policy_runner.py:241` | the first tick of a first row hands out exactly its share of it |
| `RowBudget.NoShareNoMotion` | `src/apollo_mavis_v2_runtime/dagger/policy_runner.py:241` | a share that is not positive hands out nothing |
| `RowBudget.ActionAnchor.Spread` | `src/apollo_mavis_v2_runtime/dagger/policy_runner.py:223-244` | one tick hands out the share of the tick, none if negative and no more than is left, of a new row with what was left of the last one, or of the row being spread |
| `RowBudget.ActionAnchor.OnGateEvent` | `src/apollo_mavis_v2_runtime/dagger/policy_runner.py:216-221` | a handback opens the slew window, an episode reset does not; every switch drops the half-applied row |
| `Replay.ReplaySource.Latest` | `src/apollo_mavis_v2_runtime/dagger/replay_source.py:129-141` | the row due now, clamped to the recording, with its own time and the rows to come |
| `Replay.ClockOnRowAxis` | `src/apollo_mavis_v2_runtime/dagger/replay_source.py:123-127` | equally spaced ticks are equally spaced in rows |
| `Replay.RowDueExactly` | `src/apollo_mavis_v2_runtime/dagger/replay_source.py:123-127` | the row due is the one whose period contains the time since the start and the slack |
| `Replay.RowsInTurn` | `src/apollo_mavis_v2_runtime/dagger/replay_source.py:123-141` | with ticks shorter than a row, the rows come one by one from the first: anything that starts right and is kept on a row and into the next holds throughout |
| `Replay.ReplayIsAccurate` | `src/apollo_mavis_v2_runtime/dagger/replay_source.py:186-188` | with ticks shorter than a row and the first in the first row, every row is received once, and by the finish each coordinate is off the recorded total by at most rho*M/(1-rho), or what the late first tick missed of the first row if that is more |
| `Replay.PromptStart` | `src/apollo_mavis_v2_runtime/dagger/replay_source.py:123-127` | rho*M/(1-rho) alone is enough when the first tick comes within one tick of the start and a tick is long against the clock's slack |
| `Replay.FirstRowServed` | `src/apollo_mavis_v2_runtime/dagger/replay_source.py:123-127` | a first tick within one tick of the start is on the first row exactly unless the clock's slack carries it past that row |
| `Replay.FirstRowSkipped` | `src/apollo_mavis_v2_runtime/dagger/replay_source.py:123-127` | for every period there are ticks shorter than it whose first one, a tick after the start, is already on the second row |
| `Replay.ReplayByTheClock` | `src/apollo_mavis_v2_runtime/dagger/replay_source.py:123-141` | from tick times alone: ticks every dt, shorter than a row, the first within dt and on the first row; every row is received once and the total is off by at most rho*M/(1-rho), or the first tick's loss where the slack matters |
| `PressEdges.HistoryIsTheTail` | `src/apollo_mavis_v2_runtime/devices/tracker.py:318-338` | adopting a state appends its press edges to the full log and keeps exactly the newest eight of it |
| `PressEdges.OneDirectionPerClick` | `src/apollo_mavis_v2_runtime/devices/tracker.py:303-316` | while one click is held at most one edge names a direction: the first position outside the deadzone |
| `PressEdges.DirectionByPosition` | `src/apollo_mavis_v2_runtime/devices/tracker.py:276-284` | where on the pad each direction lies, and where none |
| `PressEdges.DirectionIsNamed` | `src/apollo_mavis_v2_runtime/devices/tracker.py:320-328` | the edge of a held click names the direction of the first position outside the deadzone, once, and no other |
| `PressEdges.EveryPressIsLogged` | `src/apollo_mavis_v2_runtime/devices/tracker.py:331-334` | over any series of states menu and grip are logged once for each time they go down, the trigger never |
| `PressEdges.RunIsConsistent` | `src/apollo_mavis_v2_runtime/devices/tracker.py:287-338` | over every interleaving of inputs, poses and ticks the remembered edges are the end of the log, numbered one by one, and the loop never reads ahead of the slot |
| `PressEdges.FiresAtMostOnce` | `src/apollo_mavis_v2_runtime/control/loop.py:1521-1539` | actions fire at most once per edge, in press order, and only for edges bound to them |
| `PressEdges.FiresExactlyOnce` | `src/apollo_mavis_v2_runtime/control/loop.py:1521-1539` | with fresh ticks and at most eight edges between two reads the fired actions are exactly those of the log from the silently adopted edge to the last read |
| `PressEdges.EveryPressFires` | `src/apollo_mavis_v2_runtime/devices/tracker.py:373-400` | press by press: the arm is switched on for exactly the presses bound to the next arm and back for exactly those bound to the previous one |
| `PressEdges.TickFires` | `src/apollo_mavis_v2_runtime/control/loop.py:1530-1539` | what one tick fires: the log from the last read to the sample, as far as remembered; nothing on a stale sample |
| `PressEdges.TrackerReader.OnController` | `src/apollo_mavis_v2_runtime/devices/tracker.py:866-894` | a state is adopted with its edges and re-published exactly when a button or held code changed and a pose is known |
| `PressEdges.HeldIsDown` | `src/apollo_mavis_v2_runtime/devices/tracker.py:341-370` | each code is held exactly while the input bound to it is down |
| `PressEdges.EdgeExactly` | `src/apollo_mavis_v2_runtime/devices/tracker.py:866-893` | a state is re-published exactly on the first one, a change of one of the six buttons, or of a held code |
| `PressEdges.DeviceClicks.DeviceClickEdge` | `src/apollo_mavis_v2_runtime/control/loop.py:1521-1539` | fires the sample's entries newer than the counter seen, and moves the counter even when it fires nothing |
| `TakeoverGate.RunIsSound` | `src/apollo_mavis_v2_runtime/dagger/gate.py:31-106` | over every run one arm at most is taken over, the log replays to the modes with consecutive numbers, and the human only follows that arm's transition at least t_blend old |
| `TakeoverGate.TickAdvances` | `src/apollo_mavis_v2_runtime/dagger/gate.py:78-87` | a tick hands exactly the transitions that are old enough to the human |
| `TakeoverGate.ResetFrees` | `src/apollo_mavis_v2_runtime/dagger/gate.py:89-98` | after an episode boundary no arm is taken over and no transition runs |
| `TakeoverGate.LogIsNotOrderedByTime` | `src/apollo_mavis_v2_runtime/dagger/gate.py:94-97` | a reset is stamped zero, so the log is not ordered by time |
| `TakeoverGate.TakeoverGateImpl.FrozenArms` | `src/apollo_mavis_v2_runtime/dagger/gate.py:53-58` | the frozen arms are the policy's arms while another is taken over |
| `TakeoverGate.TakeoverGateImpl.OnToggle` | `src/apollo_mavis_v2_runtime/dagger/gate.py:60-76` | refused for unknown arms and while another arm is engaged; otherwise the one lawful transition |
| `TakeoverGate.TakeoverGateImpl.OnReset` | `src/apollo_mavis_v2_runtime/dagger/gate.py:89-98` | every arm is the policy's again |
| `EpisodeBoundary.BoundaryLaw` | `src/apollo_mavis_v2_runtime/dagger/loop.py:188-225` | over every interleaving, whatever the control thread misses: no episode gets two boundaries, and one whose reads are settled gets its boundary exactly if its save was called back, or it was read open by a settlement that left no boundary taken and was not passed over for the next episode |
| `EpisodeBoundary.OneBoundaryPerEpisode` | `src/apollo_mavis_v2_runtime/dagger/loop.py:188-225` | if every episode is read recording before it is closed, the boundaries that ran are those of episodes 1 to n in order, each for one episode, n the episodes seen recording, one less only while the newest is unsettled |
| `EpisodeBoundary.BoundaryBeforeTheNextEpisode` | `src/apollo_mavis_v2_runtime/dagger/loop.py:198-211` | before a tick of a watched episode is resolved all earlier boundaries have run and its own has not |
| `EpisodeBoundary.BoundaryFreesArms` | `src/apollo_mavis_v2_runtime/dagger/loop.py:126-151` | a boundary leaves no arm taken over and is never for an episode still recording |
| `EpisodeBoundary.UnseenEpisodeHasNoBoundary` | `src/apollo_mavis_v2_runtime/dagger/loop.py:217-223` | from the start: an episode begun and discarded between two reads gets no boundary |
| `EpisodeBoundary.PassedOverEpisode` | `src/apollo_mavis_v2_runtime/dagger/loop.py:217-223` | from the start: an episode the control thread saw loses its boundary to the next one when its saving is the last read before the next one's saving |
| `EpisodeBoundary.GatedPolicyExecutor.SettleBoundary` | `src/apollo_mavis_v2_runtime/dagger/loop.py:198-225` | runs the boundary exactly when a save was called back or an unsettled episode closed or was reopened over, and updates the flags |
| `PlanLifecycle.BooksStaySettled` | `src/apollo_mavis_v2_runtime/control/loop.py:1588-2133` | over every run: at every tick end an arm is executing exactly while the executor holds it or the replay drives it, plan and replay never overlap, one arm at most is in the executor unless a playback put several there, and nothing moves while a goto is planned, throughout exactly if no result of a goto given up by a fault comes back at a harmful moment |
| `PlanLifecycle.SparedIsHarmless` | `src/apollo_mavis_v2_runtime/control/loop.py:1062-1071` | without a fault on an arm being planned no result is orphaned and the books stay settled |
| `PlanLifecycle.OrphanMarksFailed` | `src/apollo_mavis_v2_runtime/control/loop.py:1938-1948` | from the start: such a result marks an executing arm failed |
| `PlanLifecycle.OrphanLoadsBesideReplay` | `src/apollo_mavis_v2_runtime/control/loop.py:1938-1953` | from the start: such a result loads a plan beside a running replay |
| `PlanLifecycle.SinglePlanIsDone` | `src/apollo_mavis_v2_runtime/control/loop.py:1610-1692` | over every run, with one arm at most in the executor: the status turns done exactly in a tick in which that arm has its goal out of the gate or sits unblocked and unmoved at the rail end the goal lies beyond, when a replay ends, or for a plan without waypoints; a held goal is back in the executor or the watch gave it up |
| `PlanLifecycle.SinglePlanArrives` | `src/apollo_mavis_v2_runtime/control/loop.py:1636-1668` | over every run, slot by slot: a single plan turns done exactly if its goal is handed back and the gated output is within 1e-9 and 1e-5 of the goal's magnitude of it in every slot, carriage included, or unblocked with all joints that close, as close to the last command, and the carriage within 1e-9 of the end its goal lies beyond |
| `PlanLifecycle.ArrivedExactly` | `src/apollo_mavis_v2_runtime/control/loop.py:1640-1668` | the same of any one arrival |
| `PlanLifecycle.DoneTooEarly` | `src/apollo_mavis_v2_runtime/control/loop.py:1636-1692` | over every run and event: exactly when the status turns done; exactly when it does while something moves on (behind the first executing arrival a later one is held or a replay drives on, or a replay ends with a plan still loaded); exactly when it does while an arm is said to execute |
| `PlanLifecycle.DoneWithOneHeld` | `src/apollo_mavis_v2_runtime/control/loop.py:1679-1688` | from the start: two playback arms arrive in one tick, the first is confirmed and the second held; done while the second executes |
| `PlanLifecycle.DoneBesideReplay` | `src/apollo_mavis_v2_runtime/control/loop.py:1679-1688` | from the start: a plan loaded beside a replay arrives; done while the replay drives on |
| `PlanLifecycle.ReplayEndsBesidePlan` | `src/apollo_mavis_v2_runtime/control/loop.py:952-961` | from the start: the replay's rows run out; done while the plan is in the executor |
| `PlanLifecycle.StaleBegins` | `src/apollo_mavis_v2_runtime/control/loop.py:936-939` | exactly when an arm comes to be said to execute while nothing moves it: when it arrived in a tick whose replay step raises after it |
| `PlanLifecycle.SwallowedArrival` | `src/apollo_mavis_v2_runtime/control/loop.py:936-939` | from the start: such a tick, and a plan without waypoints done while the arm is said to execute |
| `PlanLifecycle.ExecutingArmsMove` | `src/apollo_mavis_v2_runtime/control/loop.py:1588-1715` | over every run without such a tick an arm said to execute is in the executor or driven by the replay |
| `PlanLifecycle.PinnedGoalArrives` | `src/apollo_mavis_v2_runtime/control/loop.py:1618-1633` | with the joints at the goal and the carriage pinned at the end the goal lies beyond, the tick's own capped command counts as an arrival |
| `PlanLifecycle.ArrivedOffTheGoal` | `src/apollo_mavis_v2_runtime/control/loop.py:1645` | an output four micrometres off the carriage goal counts as arrived |
| `PlanLifecycle.GivesUpAfterTheLimit` | `src/apollo_mavis_v2_runtime/control/loop.py:1160-1193` | over every run, whatever comes between ticks: the watch cancels in a tick exactly when something moves behind its arrivals and it ends an unbroken held stretch, since the clock was last stopped, at least the limit long |
| `PlanLifecycle.EndOfMotion` | `src/apollo_mavis_v2_runtime/control/loop.py:1062-1071` | from any book, of all ways a motion ends only two leave the watch's clock as it was: a driver fault on its own plan, and arrivals all dropped because their arms no longer execute |
| `PlanLifecycle.IdleClock` | `src/apollo_mavis_v2_runtime/control/loop.py:1160-1193` | over every run: the clock runs while nothing moves exactly if a fault or dropped arrivals ended a motion with its clock running and nothing moved or was begun since, and it shows that motion's time |
| `PlanLifecycle.GotosFirstTick` | `src/apollo_mavis_v2_runtime/control/loop.py:1938-1955` | the first tick of a goto loaded while nothing moves cancels it exactly if the arm is held and the clock it found is the limit ago |
| `PlanLifecycle.GotoInheritsTheClock` | `src/apollo_mavis_v2_runtime/control/loop.py:1636-1640` | from the start, twice: after a fault took a held plan away, and after a held plan's arrival was dropped, a goto is cancelled in its own first held tick by the old stretch |
| `PlanLifecycle.OrphanedResult` | `src/apollo_mavis_v2_runtime/control/loop.py:1932-1955` | exactly when a planning result nobody waits for keeps the books settled: it loads while nothing moves or is planned, or it marks failed an arm that is not executing |
| `PlanLifecycle.PlanBook.ConfirmPlanArrivals` | `src/apollo_mavis_v2_runtime/control/loop.py:1610-1653` | the arrivals of the tick in order, each finished, reloaded or dropped; an executing arm goes on exactly unless its output reached the goal slot by slot or is stuck at the end the goal lies beyond |
| `PlanLifecycle.PlanBook.PlanGateWatch` | `src/apollo_mavis_v2_runtime/control/loop.py:1160-1193` | one tick of the watch over every moving arm |
| `PlanLifecycle.PlanBook.RunAfterGate` | `src/apollo_mavis_v2_runtime/control/loop.py:541-545` | behind the gate: the arrivals, then the watch if something still moves, then the replay's end |
| `PlanLifecycle.PlanBook.OpGoto` | `src/apollo_mavis_v2_runtime/control/loop.py:1851-1895` | refused while recording, for unknown arms and wrong widths; otherwise it cuts an interruptible motion and is accepted exactly with a planner and nothing in flight |
| `PlanLifecycle.PlanBook.OpExecutePlan` | `src/apollo_mavis_v2_runtime/control/loop.py:2074-2133` | one arm per plan, none faulted, one motion at a time; done at once without waypoints |
| `PlanLifecycle.PlanBook.OpPlaybackPath` | `src/apollo_mavis_v2_runtime/control/loop.py:1957-2009` | several arms at once, accepted exactly with paths of one length for known, running arms while nothing moves or is planned |
| `PlanLifecycle.PlanBook.OnDriverFault` | `src/apollo_mavis_v2_runtime/control/loop.py:1062-1071` | an interruptible motion ends on every arm, any other plan on its own arm |
| `FaultSafety.RunKeeps` | `src/apollo_mavis_v2_runtime/control/loop.py:1040-1121` | over every interleaving of ticks, plans, driver events and sender: never faulted and recovering at once, the sender paused exactly while faulted, the arm at its re-seeded posture until its first command |
| `FaultSafety.NoPostureWhileFaulted` | `src/apollo_mavis_v2_runtime/control/loop.py:547-551` | no step puts a posture for a faulted arm |
| `FaultSafety.PutsForAStoppedArm` | `src/apollo_mavis_v2_runtime/control/loop.py:1671-1701` | exactly when a step puts a gripper target for a stopped arm: when a plan's target for it falls due, at once or deferred; then a plan named the faulted arm |
| `FaultSafety.FaultedPutsExactly` | `src/apollo_mavis_v2_runtime/control/loop.py:2098-2127` | over every run a target is put for the faulted arm exactly if a plan's target falls due while it is faulted, and never unless a plan's targets name it while it is |
| `FaultSafety.QueuedTargetIsSent` | `src/apollo_mavis_v2_runtime/control/loop.py:2116-2127` | from the start: a plan of another arm queues a target for the faulted arm, and it is sent once the arm runs again |
| `FaultSafety.FirstCommandIsTheHold` | `src/apollo_mavis_v2_runtime/control/loop.py:412-423` | the first command after a recovery is the gate's answer to the capped hold of the re-seeded posture |
| `FaultSafety.CappedHold` | `src/apollo_mavis_v2_runtime/control/loop.py:614-681` | holding passes the cap, but for a carriage outside its travel, which is brought back |
| `FaultSafety.RecoveringEndsOnLaterInputs` | `src/apollo_mavis_v2_runtime/control/loop.py:486-495` | an arm runs again only in a later tick than its re-seed, on inputs sampled after it that hold nothing live |
| `FaultSafety.SendableIsPending` | `src/apollo_mavis_v2_runtime/control/arm_sender.py:81-103` | a marked value can still reach the driver of the running arm before another fault exactly if it is unread, in the sender's hand, or in the gripper slot without the sender's note |
| `FaultSafety.WhatAFaultLeaves` | `src/apollo_mavis_v2_runtime/control/arm_sender.py:55-61` | over every run, at a fault: something older can still be sent after the recovery exactly if a posture is unread or the sender has something in hand |
| `FaultSafety.WhatARecoveryLeaves` | `src/apollo_mavis_v2_runtime/control/loop.py:1078-1099` | over every run, at a recovery: something of before the fault can still be sent exactly if it is pending then |
| `FaultSafety.WhatWasQueued` | `src/apollo_mavis_v2_runtime/control/arm_sender.py:96-101` | over every run, with the arm running: a target put while it was faulted can still be sent exactly if it is in the slot and not noted, or in the sender's hand |
| `FaultSafety.NothingOldIsSent` | `src/apollo_mavis_v2_runtime/control/arm_sender.py:55-103` | over every interleaving whose recoveries find nothing of before the fault pending, nothing put before a fault reaches the driver after the recovery |
| `FaultSafety.TimelyIsClean` | `src/apollo_mavis_v2_runtime/control/arm_sender.py:81-87` | one pass of the paused sender before the recovery is enough, unless the fault split its gripper step |
| `FaultSafety.RecoveryInOneDrain` | `src/apollo_mavis_v2_runtime/control/arm_sender.py:81-103` | from the start: without a pass of the paused sender a posture of before the fault is sent |
| `FaultSafety.FaultBetweenChoiceAndNote` | `src/apollo_mavis_v2_runtime/control/arm_sender.py:97-101` | from the start: a fault between the gripper test and its note sends a dropped gripper value after the recovery |
| `FaultSafety.EventsArePerArm` | `src/apollo_mavis_v2_runtime/control/loop.py:1003-1038` | each arm sees its own driver events as the one-arm machine does, and no others |
| `FaultSafety.FaultBook.DrainDriverEvents` | `src/apollo_mavis_v2_runtime/control/loop.py:1003-1107` | all events in order, one re-seed per arm and tick, faulted and recovering arms disjoint |
| `FaultSafety.ArmSender.PauseSender` | `src/apollo_mavis_v2_runtime/control/arm_sender.py:55-61` | nothing is dispatched from then on and the gripper target in the slot counts as sent |
| `FaultSafety.ArmSender.Pass` | `src/apollo_mavis_v2_runtime/control/arm_sender.py:81-103` | one pass of the loop sends the fresh posture and a changed gripper target, and nothing while paused |
| `TrackerAnchor.MulAssoc` | `src/apollo_mavis_v2_runtime/control/tracker_teleop.py:211-216` | the quaternion product is associative, on which the body-frame slip rests |
| `TrackerAnchor.ProductIsHamiltons` | `src/apollo_mavis_v2_runtime/control/tracker_teleop.py:211-216` | what the units make of any quaternion, which fixes the product |
| `TrackerAnchor.AimIsStill` | `src/apollo_mavis_v2_runtime/control/tracker_teleop.py:186-228` | after a target the anchors ask a still hand for exactly that target, position and rotation |
| `TrackerAnchor.EngagingAddsNothing` | `src/apollo_mavis_v2_runtime/control/tracker_teleop.py:198-204` | on engagement the hand asks for the arm's own pose, wherever the hand is |
| `TrackerAnchor.TargetFollowsHand` | `src/apollo_mavis_v2_runtime/control/tracker_teleop.py:213-228` | of two targets in a row with the second uncut, the second is the first plus the scaled way of the hand, turned by the hand's turn between them, or not at all without following |
| `TrackerAnchor.SlipIsStill` | `src/apollo_mavis_v2_runtime/control/tracker_teleop.py:230-251` | a slip moves what a still hand asks for along with the anchor |
| `TrackerAnchor.SlideIsStill` | `src/apollo_mavis_v2_runtime/control/tracker_teleop.py:256-271` | so does a rail slide |
| `TrackerAnchor.SettingsChangeAddsNothing` | `src/apollo_mavis_v2_runtime/control/tracker_teleop.py:205-213` | a settings change alone asks for exactly the pose asked for before |
| `TrackerAnchor.HandStaysTied` | `src/apollo_mavis_v2_runtime/control/tracker_teleop.py:186-271` | over every session the still hand asks for the intended pose, and the anchor stands where it was last set plus every slip and slide since |
| `TrackerAnchor.SessionFollowsHand` | `src/apollo_mavis_v2_runtime/control/tracker_teleop.py:186-271` | over every session the next hand read asks for the intended pose moved along with the hand since it was last read |
| `TrackerAnchor.TrackerTeleop.AimFor` | `src/apollo_mavis_v2_runtime/control/tracker_teleop.py:186-228` | the tick's target with its engagement, re-anchoring, leash slip and intent |
| `RailHoming.OneAtATime` | `src/apollo_mavis_v2_runtime/devices/rail_homing.py:462-498` | over every interleaving one arm at most is reserved or has a running job, one job at most holds the boxes, and none during a session |
| `RailHoming.MonitorComesBackOnce` | `src/apollo_mavis_v2_runtime/devices/rail_homing.py:662-687` | a job resumes the monitor exactly as often as it paused it, once or never, and never while it holds the boxes |
| `RailHoming.CommitNeverOverwrites` | `src/apollo_mavis_v2_runtime/devices/rail_homing.py:965-974` | a committed request never replaces a live job |
| `RailHoming.ReservedWhileEvaluated` | `src/apollo_mavis_v2_runtime/devices/rail_homing.py:899-912` | an arm is reserved exactly while a request for it is being evaluated |
| `RailHoming.TakeKeeps` | `src/apollo_mavis_v2_runtime/devices/rail_homing.py:819-840` | every step of a request, a job or a session keeps the exclusion invariant |
| `RailHoming.RailHomingJob.DoConnect` | `src/apollo_mavis_v2_runtime/devices/rail_homing.py:462-484` | refused during a session, with another owner or another busy arm; otherwise both flags are set |
| `RailHoming.RailHomingJob.DoResumeMonitor` | `src/apollo_mavis_v2_runtime/devices/rail_homing.py:676-687` | resumes exactly if this job paused and has not resumed yet |
| `RailHoming.RailHomingService.DoReserve` | `src/apollo_mavis_v2_runtime/devices/rail_homing.py:819-836` | reserves exactly when nothing is pending and every job is terminal |
| `RailHoming.RailHomingService.DoCommit` | `src/apollo_mavis_v2_runtime/devices/rail_homing.py:965-974` | the reservation becomes the job unless a live job of the arm is in the way |
| `OnlineDagger.PhaseFollowsNewestStatus` | `src/apollo_mavis_v2_runtime/dagger/online_dagger.py:254-308` | the phase is decided by the newest own status taken and the ready latch; older, foreign and anonymous statuses decide nothing |
| `OnlineDagger.RolloutAllowed` | `src/apollo_mavis_v2_runtime/dagger/online_dagger.py:424-440` | a rollout may begin exactly while a status is fresh and the newest own one permits it |
| `OnlineDagger.TotalsAddUp` | `src/apollo_mavis_v2_runtime/dagger/online_dagger.py:330-352` | frame totals and count are the resumed base plus the newly saved rows |
| `OnlineDagger.EverySaveIsARow` | `src/apollo_mavis_v2_runtime/dagger/online_dagger.py:330-352` | over every run the rows are those resumed with and one per save, with its frames, spool, time and the version acting then |
| `OnlineDagger.SidecarAgreesWithEvent` | `src/apollo_mavis_v2_runtime/dagger/online_dagger.py:222-238` | sidecar and the following save event carry the same count, and the same version unless a new one came in between |
| `OnlineDagger.LogIsTheTail` | `src/apollo_mavis_v2_runtime/dagger/online_dagger.py:592-602` | the kept log is the end of the full one, 200 rows at most |
| `OnlineDagger.FileRoundTrip` | `src/apollo_mavis_v2_runtime/dagger/online_dagger.py:495-536` | reading the file back restores rows, counters and log exactly when at least as many rollouts are counted as there are rows |
| `OnlineDagger.CountersMayBeMissing` | `src/apollo_mavis_v2_runtime/dagger/online_dagger.py:516-536` | a file without counters counts its rows as rollouts and knows no frames |
| `OnlineDagger.ResumeRestores` | `src/apollo_mavis_v2_runtime/dagger/online_dagger.py:516-536` | every reachable session satisfies that condition, so every resume restores the record |
| `OnlineDagger.OnlineDaggerCoordinator.OnTrainerStatus` | `src/apollo_mavis_v2_runtime/dagger/online_dagger.py:254-299` | one status with its three guards |
| `OnlineDagger.OnlineDaggerCoordinator.OnEpisodeSaved` | `src/apollo_mavis_v2_runtime/dagger/online_dagger.py:330-372` | counters, row and event block of a save |
| `OnlineDagger.OnlineDaggerCoordinator.FromSessionJson` | `src/apollo_mavis_v2_runtime/dagger/online_dagger.py:516-536` | restores what the file has and starts the phase over |

## Left out

- The twin's collision query, the safety gate, inverse kinematics, the leash clamp, the pose filter and the recorder's writer: taken as functions or answers with any value; the query is assumed to report each body pair once.
- Poses of the other arms in the path check, and the exact addressing of the twin's joint array: the query is a function of the swept arm's joints and rail slot.
- Floating point rounding and float32 storage: only the tolerances the code names are modelled.
- Files, sockets, the message bus, logging, telemetry and result texts: no decision depends on them; the wording of errors and log rows is not modelled, their cases are.
- Jog targets: easy beside the plan states.
- Gripper delivery as progress: the sender suppresses a value equal to the dropped one, so only safety is stated.
- Planning itself: a goto's worker answers with any waypoints or none, at any time.
- Per-arm slot objects of the external source: a map of values; nothing else holds a reference to them.
- Waypoints of different width: reported as an error where the code fails inside the array library.
- Dimension name of an unknown action space, staleness decay and absolute-pose rows: branches and clipping without an invariant across calls.
- The gated executor's policy mux, anomaly counters and version swaps at a boundary: outside the one-boundary law.
- Thread start failure of a homing job, and recorder teardown in the middle of an episode: premises of the exclusion and boundary laws.
- OpExecutePlan: its gripper targets are not in the plan book; they are followed arm by arm, beside faults and the sender, in `FaultSafety.dfy`.
- OpPlaybackPath: the recorded gripper track; it moves only grippers of running arms, like the keys.
- The lingering plan status running out, and the acting version of a policy beyond its number.
- FiresAtMostOnce: a backend that takes the controller away again resets the counter; the lighthouse backend never does, and the model has no such step.
