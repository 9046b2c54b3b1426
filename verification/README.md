# Workstation Guardian: verified decision logic

A Dafny model of the logic with which Workstation Guardian keeps a Windows machine online, recognises
running coding agents and holds update protection in place, with proofs about every step and about
whole runs. The effects of the program (RAS dialling, Wi-Fi, the registry, pipes, clocks) are observations, parameters
or returned actions, as they are in the source.

| module | what it holds |
|---|---|
| `NetModel`, `NetStep`, `NetMachine` | the broadband/Wi-Fi failover machine: data, the specification of one round as six stages, and the step-by-step `Evaluate` proved equal to it |
| `NetObserved`, `NetOutcome`, `NetStepLaws`, `NetRuns`, `NetAdvice`, `NetFiltered` | what every round decides in terms of the observation alone, what it keeps, what holds along runs of rounds with non-decreasing time under one enabled policy, along runs of a caller that follows the advised delays, and on a network that filters the probes |
| `ProcessGraph`, `Subtree` | the process graph built from a snapshot, cycles allowed, and its three bounded walks |
| `Agents`, `Engine`, `EngineOutcome`, `Suppression` | signatures, scoring and selection, explanation, wrapper suppression, session grouping |
| `Maintenance`, `MaintenanceOutcome` | maintenance mode and the single-use reboot permit, over every event run from LOCKED, and where each event leads |
| `UpdatePolicy`, `PolicyStore`, `UpdateWorker` | analysis of a policy read, the store that `apply` and `restore` change, and the pass that joins them over a backend whose every call may fail |
| `ConfigModel`, `KeepFirst`, `Config`, `ConfigLaws`, `ConfigOutcome` | the configuration document, its repair, and what one pass or two establish |
| `Prelude`, `Text` | shared definitions |

Where the source computes with loops and local mutation, the model has a method with the same loops,
proved equal to a specification function; the lemmas are about that function. `NetObserved` and the modules named `…Outcome`
state what it decides over the inputs themselves, not through the predicates it decides with. The policy store and the update
worker, which keep state between calls, are classes.

Regular expressions are an oracle: which texts a pattern matches and which patterns are acceptable are
parameters. Iteration over a hash map is an arbitrary order. Times are unbounded integers, except where
the source's 64-bit cast, saturation or the 32-bit wrap-around of the jitter decides the result.

## Where the code and its own text differ

The model follows the code. These differences are stated as lemmas where a row is named.

- The program's own README.md (lines 159-161) asks passing probes of a recovering link. Promotion is judged on link evidence alone
  (`NetRuns.VerificationWindow` holds whatever the probes say).
- The first entry of the retry schedule is described as an immediate retry. A wait of 0 is left out of the
  actions, so the caller falls back to its 20 s (`NetRuns.FirstDialFallsBack`).
- A rejected password is said to stop dialling. It does from every reachable state if and only if the failure quorum is
  at most one (`NetRuns.AlwaysGivesUpExactly`). With a larger quorum a Failed state can come to record another failure and
  then dials at every due round, rejected or not (`NetRuns.RejectionCanKeepDialing`, `NetRuns.RejectedRun`). A Failed state
  with no failure on record is not reachable (`NetRuns.ReachableFailures`).
- `min_wifi_hold_secs` is called the primary anti-flap control; neither it nor `success_quorum` is read by
  `evaluate`. What prevents flapping is the verification window (`NetRuns.AntiFlap`).
- Suppression is said to keep one agent of a launcher chain. Equally strong matches on one parent cycle can
  suppress each other (`Suppression.TiedPairIsLost`); `Suppression.SuppressionOnCycles` is the exact condition.
- Only entering maintenance is said to leave LOCKED. A restart does too, and arming is accepted after it
  (`Maintenance.LeavesLockedOnlyBy`, `Maintenance.RestartOpensTheDoor`).
- An absent deadline policy is said to need no write. A repair applies the whole list, so it creates the absent
  deadlines when anything else is wrong (`UpdateWorker.RepairCreatesDeadlines`).
- A tamper incident is said to be raised once per divergence. With `auto_restore` off, or while writes fail, it is
  raised in every pass that finds tampering (`UpdateWorker.IncidentsExactly`).
- Every failure path of a verification pass is said to report a level other than Protected. A failed first read whose
  repair and re-read work ends Protected (`UpdateWorker.FailedReadCanEndProtected`; exactly when it ends Unknown is
  `UpdateWorker.FailedReadExactly`).
- Repeated aborts are said to escalate the verification window (net.rs, lines 762-764). The round that promotes forgets
  one abort, so the window never more than doubles (`NetRuns.WindowAtMostDoubles`).
- The schedule is called exponential backoff. For a caller that follows the advice, which waits a whole minimum interval
  after every shorter advice, the spacing of dials grows from each to the next but after the first dial and the fifth,
  where it shrinks, and beyond the seventh, where the jitter alone decides (`NetAdvice.ConsecutiveGaps`).
- The verification window is said to end the dial loop on a network that filters the probes (net.rs, lines 674-686). It
  postpones it: the link is promoted on link evidence, demoted by the first failing rounds that reach the quorum, and hung
  up (`NetFiltered.FilteredCycle`).
- Load-time and compile-time checks of a pattern are said not to diverge (engine.rs, lines 513-514). The engine compiles
  a second time with the case-insensitive flag, which may fail by itself (`ConfigLaws.ValidatedSignatureCanBeLost`).
- Validation is not idempotent in one pass when it drops every probe (`ConfigLaws.OnePassExactly`).

## Model

| member | source | states |
|---|---|---|
| NetMachine.DnsOnlyFailure | crates/guardian-core/src/net.rs:321-346 | the four counters decide: some TCP probe ran, every TCP probe passed, some DNS probe failed |
| NetMachine.UpdateWifi | crates/guardian-core/src/net.rs:1069-1134 | the edits and pushes realise stage 1 of the specification, Wi-Fi action included |
| NetStepLaws.HealthStageFrame | crates/guardian-core/src/net.rs:732-843 | the broadband assessment changes six fields only, becomes Healthy only out of Healthy or Verifying, and keeps a start time for Verifying and Healthy |
| NetStepLaws.OutageStageFrame | crates/guardian-core/src/net.rs:845-893 | the outage bookkeeping resets both retry counters and forgets one abort exactly when broadband is Healthy, and leaves all three alone otherwise |
| NetStepLaws.RepairDecision | crates/guardian-core/src/net.rs:926-996 | in the repair decision a hang-up and a dial are each asked for at most once, and exactly under their stated conditions on the assessed state |
| NetStepLaws.RouteStageFrame | crates/guardian-core/src/net.rs:998-1036 | route management derives preference and internet state from the uplinks, never sets both preferred-since timers, and keeps the start of a continuing preference |
| NetStepLaws.StandbyStageFrame | crates/guardian-core/src/net.rs:1038-1058 | the standby demotion leaves the derived fields right, ends Continuity unless Wi-Fi is preferred, and releases Wi-Fi only with Healthy broadband |
| NetMachine.Evaluate | crates/guardian-core/src/net.rs:640-1065 | one whole round, state and ordered actions, equals the composed specification on which every law below rests |
| NetMachine.HealthIgnoresWifi | crates/guardian-core/src/net.rs:720-843 | the broadband assessment commutes with the Wi-Fi stage: neither reads the other's fields |
| NetStepLaws.StepKeepsConsistent | crates/guardian-core/src/net.rs:588-629 | after every step, from any state, preference and internet state are those of the two uplinks, Broadband is preferred exactly when Healthy and Continuity only when Wi-Fi is preferred; start times and the exclusion of the two preferred-since timers are kept from the initial state on |
| NetStepLaws.RouteActionsAgree | crates/guardian-core/src/net.rs:998-1036 | a round emits exactly the one route action its new preference calls for, and none when that route is in place |
| NetStepLaws.DisruptiveActions | crates/guardian-core/src/net.rs:926-996 | when exactly a round asks for a hang-up and when for a dial |
| NetStepLaws.NoStepCutsTheOnlyPath | crates/guardian-core/src/net.rs:895-958 | a hang-up needs an associated Wi-Fi that becomes preferred, or nothing preferred before, and never happens on a measured link whose probes show a resolver fault or some but too few passes; a Wi-Fi disconnect needs Healthy broadband; hang-up, dial and disconnect exclude each other |
| NetOutcome.HangUpExactly | crates/guardian-core/src/net.rs:546-583 | a session is torn down if and only if the round leaves broadband neither Healthy nor inside its window, the credentials are not refused, the failure is not above the session, and Wi-Fi is associated or nothing was preferred; so a measured link without address or route always is |
| NetOutcome.HangUpReadsTheProbes | crates/guardian-core/src/net.rs:565-582 | a hang-up on a measured link means no resolver fault, no refused credentials, and either no probe passing or as many as the quorum |
| NetOutcome.DialExactly | crates/guardian-core/src/net.rs:926-994 | a round without a session dials if and only if it does not give up on refused credentials and the last dial is a minimum interval old |
| NetObserved.ClassificationIs | crates/guardian-core/src/net.rs:546-583 | when exactly each kind of failure is recorded, in terms of the link and of counted probes |
| NetObserved.QuorumIsReachable | crates/guardian-core/src/net.rs:298-312 | a quorum is met by enough passes or by all probes passing, never by none, and is never out of reach |
| NetObserved.ServesIsUsable | crates/guardian-core/src/net.rs:683-718 | a link that was judged before must pass its probes, any other only be up |
| NetOutcome.BroadbandOutcome | crates/guardian-core/src/net.rs:732-843 | the broadband state and the consecutive counters after a whole round, from the observation, for every start that is not in the future |
| NetOutcome.FutureStartPromotes | crates/guardian-core/src/net.rs:760-768 | a start in the future counts as long past, so the next serving round promotes |
| NetOutcome.OutageOutcome | crates/guardian-core/src/net.rs:845-893 | the outage clock opens at the first round without a session state, runs until the next one, and the failure on record is this round's exactly when it was classified |
| NetOutcome.WifiOutcome | crates/guardian-core/src/net.rs:1038-1046 | Wi-Fi after a whole round: Continuity only while broadband is not Healthy, Degraded with too few probes passing, its start kept exactly while associated |
| NetOutcome.PreferenceOutcome | crates/guardian-core/src/net.rs:585-629 | the preference and each internet state after a whole round, from the two uplinks |
| NetOutcome.InternetStateIs | crates/guardian-core/src/net.rs:598-629 | the shown state for any uplinks and preference, and that the branch for a degraded Wi-Fi is never reached by a computed preference |
| NetOutcome.TimerOutcome | crates/guardian-core/src/net.rs:1002-1045 | each preferred-since timer starts with its preference, is kept while it lasts and is cleared by the other |
| NetOutcome.ActionsInOrder | crates/guardian-core/src/net.rs:720-1058 | the whole action list of a round in order: the Wi-Fi request and its exact condition in warm and cold standby, the repair with its scheduled wait before the dial, one route action, and the Wi-Fi release with its exact condition |
| NetStepLaws.MeasuredRoundIsClassified | crates/guardian-core/src/net.rs:866-884 | a measured round on a session either ends its assessment Healthy or carries this round's classification |
| NetStepLaws.OneDialAtMost | crates/guardian-core/src/net.rs:938-987 | at most one dial a round, only with no session and no dial in flight |
| NetStepLaws.ContinuityFirst | crates/guardian-core/src/net.rs:1110-1133 | Wi-Fi is asked for exactly when it is not associated and broadband is unusable, before every other action; an associated Wi-Fi is preferred whenever broadband is not Healthy |
| NetRuns.VerifyingRound | crates/guardian-core/src/net.rs:752-795 | a round becomes Healthy only out of Verifying with the widened window passed; Verifying keeps its start time or starts now |
| NetRuns.PromotionNeedsWindow | crates/guardian-core/src/net.rs:757-795 | a promotion ends a stretch at least one widened window long in which every round saw the session connected and not dialling |
| NetRuns.MovesArePromotions | crates/guardian-core/src/net.rs:588-596 | traffic moves to broadband exactly when broadband becomes Healthy |
| NetRuns.MovesAreSpaced | crates/guardian-core/src/net.rs:757-795 | any two moves to broadband are at least one stabilisation window apart |
| NetRuns.AntiFlap | crates/guardian-core/src/net.rs:757-795 | a run of length L moves traffic to broadband at most 1 + L/stabilize times, and L/stabilize times when it starts outside Verifying and Healthy |
| NetRuns.DemotionRemembersAbort | crates/guardian-core/src/net.rs:821-837 | a probe demotion raises the (saturating) abort count by one exactly when it comes within three windows of the recorded preferred-since |
| NetRuns.AbortDelaysNextPromotion | crates/guardian-core/src/net.rs:821-837 | after such a demotion the next promotion is at least the widened window away |
| NetRuns.WindowAtMostDoubles | crates/guardian-core/src/net.rs:762-767 | in every state of a run from the initial one at most one abort is remembered, none while Healthy; the window is one stabilisation period at zero aborts and two at one |
| NetRuns.VerificationWindow | crates/guardian-core/src/net.rs:904-926 | from a state that is not Healthy or Degraded, and whose verification did not start in the future, measured link-up rounds with any probe results emit no hang-up and no dial and open no outage, and promotion is at exactly the first round at or past the window's end |
| NetRuns.StartedAt | crates/guardian-core/src/net.rs:757-794 | no state reached from outside Verifying has a verification that is without a start or starts in the future |
| NetRuns.ReachableVerificationWindow | crates/guardian-core/src/net.rs:904-926 | the verification window, with no condition on its start, from every state of a run from the initial one that is not Healthy or Degraded |
| NetRuns.DialRound | crates/guardian-core/src/net.rs:866-987 | the dial clock and both retry counters move exactly with a dial; only a Healthy round resets the counters |
| NetRuns.DialRate | crates/guardian-core/src/net.rs:967-994 | k dials of a run span at least (k-1) minimum intervals, whatever the rounds between them observe |
| NetRuns.RejectedRoundGivesUp | crates/guardian-core/src/net.rs:926-994 | a disconnected round rejected with 691 or 812 ends Failed; it gives up on authentication if and only if the state is not Failed for another reason, and otherwise dials whenever a dial is due |
| NetRuns.RejectedRun | crates/guardian-core/src/net.rs:926-994 | along an unbroken run of such rounds, having given up never changes: from a state that has, no round dials and all record the rejection; from any other, every round dials that finds a dial due |
| NetRuns.RejectionStopsDialing | crates/guardian-core/src/net.rs:926-994 | such a run emits no dial if and only if it starts from a state that gives up, or its start's last dial is still too recent at its last round |
| NetRuns.ReachableFailures | crates/guardian-core/src/net.rs:796-843 | every reachable Failed state has a failure on record, and with a quorum of at most one that failure is the rejection |
| NetRuns.RejectionCanKeepDialing | crates/guardian-core/src/net.rs:796-801 | for every enabled policy with a quorum of two or more, a three-round run from the initial state that is rejected, fails a probe without an address, is rejected again, and dials |
| NetRuns.AlwaysGivesUpExactly | crates/guardian-core/src/net.rs:803-941 | every state reachable under a policy gives up on a rejection if and only if its failure quorum is at most one |
| NetRuns.BackoffIsExact | crates/guardian-core/src/net.rs:866-872 | in every state of a run the schedule position is min(dial attempts, 7) |
| NetRuns.AttemptsCountDials | crates/guardian-core/src/net.rs:973-984 | without a Healthy round the attempt counter has counted exactly the dials of the run |
| NetRuns.DialAdvice | crates/guardian-core/src/net.rs:524-534 | a dialling round advises the caller exactly the scheduled wait of its attempt, or the fallback when that is 0 |
| NetRuns.DialWaitBounds | crates/guardian-core/src/net.rs:1141-1153 | with the wrapping jitter, each wait is its schedule entry plus less than 20%, and at most 71,940 ms |
| NetRuns.BackoffGrows | crates/guardian-core/src/net.rs:973-984 | along an outage every later dial advises a strictly longer wait until the schedule saturates |
| NetRuns.FirstDialFallsBack | crates/guardian-core/src/net.rs:973-980 | the first dial of an outage leaves the caller at its 20 s fallback |
| NetAdvice.PlainRoundDials | crates/guardian-core/src/net.rs:966-994 | a disconnected, unrejected round dials exactly when a dial is due, and otherwise advises another whole minimum interval |
| NetAdvice.DialSpacing | crates/guardian-network/src/worker.rs:177-210 | a caller that wakes exactly as advised dials again exactly one gap later: the advice, or the advice plus the minimum interval when the advice is shorter than it |
| NetAdvice.SpacingByEntry | crates/guardian-core/src/net.rs:397-420 | at the 15 s of every configuration, those gaps are 20 s, then 15 s plus the jittered entries of 1 to 8 s, then the jittered entries alone |
| NetAdvice.SpacingGrowsExactly | crates/guardian-core/src/net.rs:397-420 | from one entry of the schedule to the next the gap grows if and only if the entry is neither the first nor the fifth, and shrinks at those two, whatever the jitter |
| NetAdvice.SaturatedSpacing | crates/guardian-core/src/net.rs:1136-1153 | at the last entry the order of two gaps is the order of their jitters; it falls from the eighth dial (68,580 ms) to the ninth (66,240 ms) |
| NetAdvice.ConsecutiveGaps | crates/guardian-network/src/worker.rs:177-210 | in a run of a caller that follows the advice, the gap after the next dial exceeds the gap before it if and only if the number of dials so far says so: not 0 and not 4 below seven, and by the jitter from seven on |
| NetFiltered.HealthyFilteredRound | crates/guardian-core/src/net.rs:796-843 | a round with no passing probe does nothing to a promoted link below the quorum, and at the quorum demotes it and hangs it up exactly with Wi-Fi associated |
| NetFiltered.PromotedLinkIsCut | crates/guardian-core/src/net.rs:796-843 | a promoted link that is filtered from then on stays Healthy and undisturbed for all rounds below the quorum and is demoted in exactly the quorum-th; the abort is remembered exactly when it was held for less than three windows |
| NetFiltered.HangUpOneRoundLater | crates/guardian-core/src/net.rs:942-958 | without Wi-Fi the demoting round cannot hang up and the round after it does |
| NetFiltered.FilteredCycle | crates/guardian-core/src/net.rs:674-718 | in a run from the initial state on a filtering network: undisturbed until promotion at the first round past the window and on to the quorum-th round after it, which demotes and, exactly with Wi-Fi associated, hangs up; and after a brief hold no further promotion for two whole windows |
| ProcessGraph.LatestWins | crates/guardian-process/src/graph.rs:40-44 | of several snapshots with one pid the last is the node, and no other pid is a node |
| ProcessGraph.New | crates/guardian-process/src/graph.rs:40-71 | for every iteration order the child index is exactly the inverse of the usable parent edges, each child once |
| ProcessGraph.CollectAncestors | crates/guardian-process/src/graph.rs:101-122 | the loop with its visited set computes the specified climb |
| ProcessGraph.AncestorsChain | crates/guardian-process/src/graph.rs:101-122 | ancestors are a duplicate-free parent chain of at most 64 nodes that, when shorter, stopped at a root or a repetition |
| ProcessGraph.AncestorsAreComplete | crates/guardian-process/src/graph.rs:98-122 | an untruncated walk lists every strict ancestor, cycles included |
| ProcessGraph.FindRootAncestor | crates/guardian-process/src/graph.rs:161-182 | the loop computes the specified outermost ancestor |
| ProcessGraph.RootIsLastAncestor | crates/guardian-process/src/graph.rs:157-182 | the root is the last listed ancestor, or the process itself when there is none; on a parent cycle through the process it stops one short of coming back |
| Subtree.CollectSubtree | crates/guardian-process/src/graph.rs:134-155 | the queue loop terminates on every graph and computes the specified walk |
| Subtree.SubtreeIsBoundedBfs | crates/guardian-process/src/graph.rs:130-155 | the result starts with the pid, has no duplicates and at most max(limit,1) entries, lists only descendants in order of distance, omits none closer than one it lists, and is complete when shorter than the limit |
| Subtree.AncestorsAndSubtreeAreDual | crates/guardian-process/src/graph.rs:98-155 | for distinct pids and untruncated walks, r is an ancestor of x exactly when x is in the subtree of r |
| Engine.MergeSignatures | crates/guardian-process/src/engine.rs:112-123 | the find-or-push loop computes the specified merge |
| Engine.MergeKeepsIdsDistinct | crates/guardian-process/src/engine.rs:112-129 | after the merge ids are distinct, and each id has the last user signature that names it, else the built-in |
| Engine.CompileEngine | crates/guardian-process/src/engine.rs:143-195 | invalid rules are dropped one by one and signatures without a positive rule entirely |
| EngineOutcome.CompiledExactly | crates/guardian-process/src/engine.rs:143-188 | a signature is compiled exactly when its valid rules leave it a positive one, and then with all of them |
| Engine.ConfiguredIdsAreDistinct | crates/guardian-process/src/engine.rs:112-188 | whatever the user configures, the compiled signatures have distinct ids |
| Engine.ScoreSignature | crates/guardian-process/src/engine.rs:245-325 | the loops with early exits give a detection exactly when unvetoed and positively matched, with all its evidence and its total |
| EngineOutcome.SpeaksExactly | crates/guardian-process/src/engine.rs:258-314 | a signature speaks if and only if no veto fires and some any_of rule or a whole non-empty all_of list does |
| EngineOutcome.ScoreExactly | crates/guardian-process/src/engine.rs:270-325 | the evidence is one piece for each firing rule in order, the score the sum of their weights, and the confidence the highest level that sum reaches and the declaration admits |
| Engine.ConfidenceFor | crates/guardian-process/src/engine.rs:327-350 | the confidence is at least a level exactly when the score reaches that level's threshold and the signature's declared confidence admits it |
| Engine.InspectProcess | crates/guardian-process/src/engine.rs:209-242 | the loop over signatures computes the specified selection |
| Engine.BestOfIsBest | crates/guardian-process/src/engine.rs:221-241 | the selected detection comes from a signature and beats every other candidate (score, then lesser id); none is selected exactly when all are silent |
| EngineOutcome.SelectedIsHighest | crates/guardian-process/src/engine.rs:221-241 | the selected detection has the highest score of all that signatures say, and of equal scores the least id |
| EngineOutcome.NothingSelectedExactly | crates/guardian-process/src/engine.rs:209-242 | nothing is selected if and only if the name is on the never-agent list, ignoring ASCII case, or every signature is silent |
| Engine.InspectIsSound | crates/guardian-process/src/engine.rs:209-350 | a detection names an unvetoed signature, respects its declared confidence, and scores the sum of its evidence |
| Engine.SelectionIsOrderIndependent | crates/guardian-process/src/engine.rs:221-241 | the same detection for every permutation of the signatures |
| Engine.Explain | crates/guardian-process/src/engine.rs:428-493 | the explanation loop reports one reason for each signature with a veto or a match, in order |
| Engine.ExplanationAgrees | crates/guardian-process/src/engine.rs:428-490 | the separately computed score equals the detection's; vetoed is reported exactly when a veto silences the signature, matched and below-threshold exactly as its confidence says |
| EngineOutcome.ReasonsAreNamed | crates/guardian-process/src/engine.rs:449-490 | a reason names its process, signature and threshold, and a reported veto is the first none_of rule that fires |
| EngineOutcome.ReasonsInOrder | crates/guardian-process/src/engine.rs:449-490 | every signature that has something to say is reported, in the order of the signatures |
| Suppression.MatchedIs | crates/guardian-process/src/engine.rs:383-386 | the matched list holds each process that inspection detects, once |
| Suppression.SurvivorsAre | crates/guardian-process/src/engine.rs:388-421 | survivors are exactly the unshadowed matches, the early return for fewer than two included |
| Suppression.SuppressionKeepsAgents | crates/guardian-process/src/engine.rs:382-422 | on an acyclic graph every dropped match has a strict descendant that survives with a higher confidence, or the same and at least the score, whatever the 512 limit cuts |
| Suppression.UnrivalledSurvives | crates/guardian-process/src/engine.rs:399-421 | a match all of whose matched descendants have a lower confidence, or the same and a lower score, survives |
| Suppression.SurvivorsAreUnshadowed | crates/guardian-process/src/engine.rs:399-421 | with its subtree uncut, every other match below a survivor has a lower confidence, or the same and a lower score |
| Suppression.SuppressionIsIdempotent | crates/guardian-process/src/engine.rs:382-422 | filtering the survivors again removes nothing, on every graph |
| Suppression.DetectionIgnoresIterationOrder | crates/guardian-process/src/engine.rs:382-422 | which agents are reported does not depend on the iteration order of the process map |
| Suppression.DetectedExactly | crates/guardian-process/src/engine.rs:366-422 | end to end, on every graph of fewer than 512 processes, cycles included: a process is reported if and only if inspection finds it and no other process strictly below it is found with a higher confidence, or the same and at least the score |
| Suppression.SuppressionOnCycles | crates/guardian-process/src/engine.rs:382-422 | on arbitrary graphs with uncut subtrees, no agent is lost if and only if every tie on a parent cycle has a match below it that is stronger or off the cycle |
| Suppression.TiedPairIsLost | crates/guardian-process/src/engine.rs:399-421 | two equally strong matches that are each other's parent both disappear |
| Suppression.GroupSessions | crates/guardian-process/src/engine.rs:641-694 | one instance for each detection, in order, with its own identity, confidence and evidence, under its owner and with the owner's ancestry |
| Suppression.FindHitExactly | crates/guardian-process/src/engine.rs:645-656 | a match is found by its pid, and only a match is found |
| Suppression.GroupedUnderNearest | crates/guardian-process/src/engine.rs:653-663 | a match is grouped under the nearest of its ancestors that is a match of at least its confidence, and under itself exactly when there is none |
| Suppression.GroupingIsStrict | crates/guardian-process/src/engine.rs:641-663 | on a graph of fewer than 512 nodes, a survivor grouped under another process has there its nearest qualifying ancestor, which is strictly stronger |
| Maintenance.AdvanceKeepsPermitInvariant | crates/guardian-core/src/maintenance.rs:219-583 | an unconsumed permit exists exactly in RebootArmed, a consumed one only in Boot, and none lives longer than four hours after its issue |
| Maintenance.PermitInvariantAt | crates/guardian-core/src/maintenance.rs:219-583 | that invariant holds in every state of every run from LOCKED |
| Maintenance.ConsumptionHasOrigin | crates/guardian-core/src/maintenance.rs:327-460 | each consumption carries the nonce and boot id of the most recent accepted arm, on that boot and less than four hours later, with no exit, disarm, boot, shutdown or re-arm in between |
| Maintenance.NoArmIsConsumedTwice | crates/guardian-core/src/maintenance.rs:415-468 | no accepted arm is consumed twice in a run |
| Maintenance.ArmIsHonoured | crates/guardian-core/src/maintenance.rs:415-453 | within its shortest lifetime and through harmless events on its boot an armed permit stays, and a restart consumes it |
| Maintenance.PermitsAreConserved | crates/guardian-core/src/maintenance.rs:280-583 | in every run, accepted arms equal consumptions, unconsumed expiries, re-arms, disarms, exits and same-boot starts, plus one if armed now |
| Maintenance.LeavesLockedOnlyBy | crates/guardian-core/src/maintenance.rs:219-468 | LOCKED is left exactly by an accepted entry or an observed restart |
| MaintenanceOutcome.ReturnsToLockedExactly | crates/guardian-core/src/maintenance.rs:280-508 | in every run, a state that is not LOCKED is followed by LOCKED if and only if the input is an exit, a shutdown without restart or a boot; an exit and a boot leave nothing over |
| MaintenanceOutcome.FromLocked | crates/guardian-core/src/maintenance.rs:219-302 | from LOCKED, what an entry, a restart and a boot lead to, and that nothing else changes the state |
| MaintenanceOutcome.PhaseExactly | crates/guardian-core/src/maintenance.rs:304-551 | in every run, the phase each other input leads to: staged update, armed, disarmed, overdue, restarted, or unchanged |
| MaintenanceOutcome.RefusedExactly | crates/guardian-core/src/maintenance.rs:219-414 | when exactly an input is refused and with what reason; a refused input changes and reports nothing else |
| MaintenanceOutcome.PermitExactly | crates/guardian-core/src/maintenance.rs:327-587 | in every run, every way a permit is issued, consumed, given another lifetime (between a minute and four hours from its issue) or ended |
| MaintenanceOutcome.ReportedExactly | crates/guardian-core/src/maintenance.rs:415-551 | a consumption is reported exactly for a restart that a permit covers, an expiry exactly for the permit that ends otherwise |
| Maintenance.RestartOpensTheDoor | crates/guardian-core/src/maintenance.rs:327-468 | a run that arms and consumes a permit without any request to enter maintenance |
| UpdatePolicy.Analyze | crates/guardian-core/src/update_policy.rs:140-354 | the two loops and the verdict compute the specified analysis; an unreadable backend gives Unknown and asks for every write |
| UpdatePolicy.WritesAreTheUnsatisfied | crates/guardian-core/src/update_policy.rs:195-253 | a write is asked for exactly when a protection value is not right or a deadline is present and not neutral |
| UpdatePolicy.TamperIsPresentAndWrong | crates/guardian-core/src/update_policy.rs:235-251 | tamper events are exactly the protection values that are present and wrong |
| UpdatePolicy.TamperIsRewritten | crates/guardian-core/src/update_policy.rs:235-251 | every tampered value is among the writes |
| UpdatePolicy.ProtectedExactly | crates/guardian-core/src/update_policy.rs:195-331 | Protected if and only if there is no backend error, no external management, a complete read and an empty write list |
| UpdatePolicy.LevelExactly | crates/guardian-core/src/update_policy.rs:150-331 | the level in every case, from the six entries: no level but Unknown, Degraded and Protected is ever given |
| UpdatePolicy.ProtectedMeansLocked | crates/guardian-core/src/update_policy.rs:258-331 | Protected implies that automatic updating is off in the values read, and every entry satisfied |
| UpdatePolicy.ProtectedMachine | crates/guardian-core/src/update_policy.rs:39-88 | Protected asserts, of an unmanaged host read completely, exactly: no automatic updating, no automatic reboot over a user or at the scheduled time, and each of three deadlines absent or zero |
| UpdatePolicy.PrimaryLockExactly | crates/guardian-core/src/update_policy.rs:255-304 | the lock is reported effective if and only if the read succeeded and NoAutoUpdate reads as the number 1 |
| UpdatePolicy.FindingsExactly | crates/guardian-core/src/update_policy.rs:195-253 | for each of the six entries, when exactly it is written and when exactly it is reported as tampered |
| UpdatePolicy.StatusesAre | crates/guardian-core/src/update_policy.rs:267-302 | one status for each entry in order, with the value read, whether it holds, and an external owner exactly for what does not hold on a managed host |
| UpdatePolicy.LookupIsFirst | crates/guardian-core/src/update_policy.rs:196-200 | a key reads as the first entry for it says, and as absent without one |
| UpdatePolicy.DeadlinesReportedNeutralized | crates/guardian-core/src/update_policy.rs:356-383 | every successful read reports every deadline neutralized, since a threatening one is on the list about to be rewritten |
| UpdatePolicy.DeadlinesAreShown | crates/guardian-core/src/update_policy.rs:216-224 | exactly the deadlines found enabled are listed by full name, and each of the three is shown with the value read |
| PolicyStore.UpdateBackend.Set | crates/guardian-core/src/ports.rs:227-244 | a seeded key reads as the value, every other key as before |
| PolicyStore.UpdateBackend.Apply | crates/guardian-core/src/ports.rs:282-308 | the loop changes the store and lists the writes as specified; a failing backend changes nothing |
| PolicyStore.UpdateBackend.Restore | crates/guardian-core/src/ports.rs:310-330 | the loop restores as specified; a failing backend changes nothing |
| PolicyStore.ApplyLookup | crates/guardian-core/src/ports.rs:282-308 | after an apply a key reads as the last write for it asks, any other key as before |
| PolicyStore.WithoutKeepsOthers | crates/guardian-core/src/ports.rs:299-317 | dropping a key takes away all its entries and no other, however often any occurs |
| PolicyStore.StoreOrder | crates/guardian-core/src/ports.rs:299-304 | the other entries keep their order and a value that is put comes after them |
| PolicyStore.WrittenNothing | crates/guardian-core/src/ports.rs:23-27 | nothing is reported written exactly when the store already conforms, and then it is not touched |
| PolicyStore.WrittenIsTheDifference | crates/guardian-core/src/ports.rs:282-308 | with one write a key, exactly the values that differ from the original store are written |
| PolicyStore.ApplyIsIdempotentExactly | crates/guardian-core/src/ports.rs:12-27 | applying again writes nothing if and only if no two writes disagree about a key |
| PolicyStore.RestoreLookup | crates/guardian-core/src/ports.rs:310-330 | after a restore a recorded key reads as recorded, absent if so recorded, any other key as before |
| PolicyStore.RollbackUndoesEverythingOwned | crates/guardian-core/src/ports.rs:63-77 | whatever happened since, restoring the originals makes every owned key read as it did first and changes no other key |
| PolicyStore.OnePassConverges | crates/guardian-core/src/update_policy.rs:195-331 | for any store, after applying the analysis's writes (or the whole list) the next analysis has no writes and no tamper, is Protected on a readable, unmanaged host, and no key outside the writes has changed |
| UpdateWorker.PlannedBackend.Apply | crates/guardian-win/src/policy.rs:288-320 | an apply that works conforms the store; one that stops returns an error and leaves the values before that point written |
| UpdateWorker.UpdateGuard.Verify | crates/guardian-update/src/lib.rs:122-296 | over a backend whose read, apply and re-read succeed, cover part or fail independently, one pass has the specified report, counters, incidents and store |
| UpdateWorker.ProtectedReportExactly | crates/guardian-update/src/lib.rs:122-296 | whatever a backend answers to the three calls, the report says Protected if and only if protection is on, the host unmanaged, no write failed, and the last reading is complete and finds everything desired satisfied |
| UpdateWorker.FailuresEndUnknown | crates/guardian-update/src/lib.rs:243-279 | a failed write and a failed re-read end Unknown without an effective lock, on every host, and a failed write is the error carried |
| UpdateWorker.FailedReadExactly | crates/guardian-update/src/lib.rs:14-19 | a failed first read, promised to end Unknown, does so if and only if the write it triggers fails or writes nothing, or the re-read fails or is incomplete on an unmanaged host |
| UpdateWorker.FailedReadCanEndProtected | crates/guardian-update/src/lib.rs:182-267 | for every store that does not conform, a failed read followed by a working write and re-read ends Protected, with the error still carried |
| UpdateWorker.ReportIsHonest | crates/guardian-update/src/lib.rs:122-296 | whichever calls fail and however far a failing write gets, the report says Protected if and only if protection is on, the host unmanaged, no write failed, the last read complete, and the store as left by the pass satisfies everything desired |
| UpdateWorker.LockFlagExactly | crates/guardian-update/src/lib.rs:239-279 | whatever a backend answers, the lock flag is set if and only if protection is on, no write failed and the last reading shows NoAutoUpdate as 1 |
| UpdateWorker.LockFlagIsHonest | crates/guardian-update/src/lib.rs:239-279 | with no write failed and the last read complete, the lock flag is set if and only if the store as left by the pass holds 1 under NoAutoUpdate |
| UpdateWorker.AttemptsExactly | crates/guardian-update/src/lib.rs:152-192 | a pass writes if and only if the read failed, or repair is on and some entry does not hold |
| UpdateWorker.RecordsOfAPass | crates/guardian-update/src/lib.rs:122-296 | the counters, the tampered value kept for the next pass, the number of writes and the failure carried, a failed write before a failed read |
| UpdateWorker.OtherKeysAreLeftAlone | crates/guardian-update/src/lib.rs:189-208 | no pass, whatever fails in it, changes how a key outside the list reads |
| UpdateWorker.RepairingPassProtects | crates/guardian-update/src/lib.rs:182-208 | a repairing pass with a complete read and a working write leaves everything desired satisfied |
| UpdateWorker.NextPassIsSilent | crates/guardian-update/src/lib.rs:8-12 | the pass after a repairing pass that worked writes nothing, raises nothing and leaves the store as it is |
| UpdateWorker.RepairCreatesDeadlines | crates/guardian-update/src/lib.rs:189-192 | a working repair sets the whole list, absent deadlines included; a satisfied store is not touched |
| UpdateWorker.EveryWorkingPassProtects | crates/guardian-update/src/lib.rs:122-296 | in a repairing run every pass whose own calls work reports Protected on an unmanaged host, whatever failed or changed in the passes before |
| UpdateWorker.IncidentsExactly | crates/guardian-update/src/lib.rs:210-237 | when a pass raises a tamper incident, from what it and the pass before it found: a new first tampered value, or any tampering the pass does not repair, be repair off or the write failing |
| ConfigModel.SplitLastColonIs | crates/guardian-core/src/config.rs:299-301 | the split at the last colon rejoins to the input, leaves no colon after it, and exists exactly when there is a colon |
| ConfigModel.TcpTargetOk | crates/guardian-core/src/config.rs:292-313 | a `host:port` target written in decimal is valid exactly for ports 1 to 65535 |
| KeepFirst.KeptInOrder | crates/guardian-core/src/config.rs:233-270 | kept entries are repairs of input entries, in input order |
| KeepFirst.UsableIsRepresented | crates/guardian-core/src/config.rs:346-405 | a usable entry is dropped only in favour of an earlier one with its id |
| KeepFirst.KeepChangesNothing | crates/guardian-core/src/config.rs:346-405 | a list is left alone exactly when every entry is and no id repeats |
| Config.KeepProbes | crates/guardian-core/src/config.rs:233-270 | the drain loop with its seen ids computes the specified repair of the probe list |
| Config.KeepSignatures | crates/guardian-core/src/config.rs:346-365 | the loop over signatures computes the specified repair of the signature list |
| Config.KeepWorkloadRules | crates/guardian-core/src/config.rs:367-405 | the loop over workload rules computes the specified repair of the rule list |
| Config.ValidateSignature | crates/guardian-core/src/config.rs:410-470 | a signature is dropped without an id or a usable positive rule, else repaired; vetoes are cut to 32 after that decision |
| Config.Validate | crates/guardian-core/src/config.rs:127-147 | the six section validators compute the specified repair, and `changed` is true exactly when the document differs |
| ConfigLaws.ProbeFixIs | crates/guardian-core/src/config.rs:237-268 | a probe is left alone exactly when it is in order, and a repaired probe is in order |
| ConfigOutcome.ProbeRepairExactly | crates/guardian-core/src/config.rs:237-268 | a probe is dropped if and only if its id is blank or its target bad, and otherwise only its timeout changes, to 250 ms or 30 s |
| ConfigOutcome.TargetsAre | crates/guardian-core/src/config.rs:289-313 | what a valid target is for each kind of probe |
| ConfigOutcome.NumberIs | crates/guardian-core/src/config.rs:305-308 | a port is an optional plus sign and decimal digits of at most 65535 |
| ConfigOutcome.ProbesConsidered | crates/guardian-core/src/config.rs:218-235 | the first sixteen probes are considered, or the built-in one when there are none |
| ConfigLaws.SignatureFixIs | crates/guardian-core/src/config.rs:408-470 | a signature is left alone exactly when it is in order, and a repaired one is in order |
| ConfigOutcome.SignatureRepairExactly | crates/guardian-core/src/config.rs:408-470 | a signature is dropped if and only if its id is blank or it has no valid positive rule, and otherwise keeps its valid rules, the first 32 vetoes and its own name |
| ConfigOutcome.SignaturesConsidered | crates/guardian-core/src/config.rs:338-365 | the first 256 signatures are considered |
| ConfigOutcome.NumbersGoToNearest | crates/guardian-core/src/config.rs:149-216 | every number goes to the nearest allowed one and stays when it is allowed |
| ConfigOutcome.TextsAreRepaired | crates/guardian-core/src/config.rs:581-641 | what becomes of the phrase, the data directory and the log level |
| ConfigLaws.OnePassIsSound | crates/guardian-core/src/config.rs:127-278 | after one pass over any document all numbers are in range, all entries valid, all ids unique and every signature has a positive rule |
| ConfigLaws.UnchangedExactlyInOrder | crates/guardian-core/src/config.rs:127-147 | validation changes nothing if and only if the document is in order |
| ConfigLaws.OnePassExactly | crates/guardian-core/src/config.rs:218-270 | one pass reaches the fixed point if and only if the probe list is absent or has a usable probe among its first sixteen |
| ConfigLaws.TwoPassesSuffice | crates/guardian-core/src/config.rs:127-147 | two passes put every document in order and a third changes nothing |
| ConfigLaws.OnePassIsNotEnough | crates/guardian-core/src/config.rs:218-270 | a document whose only probe is unusable needs the second pass, which installs the default probe |
| ConfigLaws.ChoicesAreKept | crates/guardian-core/src/config.rs:5-8 | unknown fields, unvalidated sections and the operator's switches, `protect = false` included, are never altered |
| ConfigLaws.ValidatedSignaturesCompile | crates/guardian-process/src/engine.rs:143-188 | of a validated document the engine drops exactly the rules, and the signatures left without a positive rule, that only its second, case-insensitive compilation refuses; nothing is lost if and only if every kept pattern passes it |
| ConfigLaws.OnlyCaseFoldingDrops | crates/guardian-process/src/engine.rs:511-527 | a validated rule stays exactly when its pattern also compiles with the case-insensitive flag in front |
| ConfigLaws.ValidatedSignatureCanBeLost | crates/guardian-process/src/engine.rs:170-188 | a validated signature whose only rule fails the second compilation is not compiled at all |
| ConfigLaws.ValidatedRunsDoNotFlap | crates/guardian-core/src/net.rs:397-411 | under the policy of any validated configuration, traffic moves to broadband at most once in five seconds over every run |

## Left out

- NetMachine.Evaluate: does not model overflow of the round counters or of the window products, which the
  source computes in 32 and 64 bits; notes, probe latencies, interface metrics and `last_ras_error`, which no
  decision reads, are dropped; the state is a value that is copied and edited, as the source's clone is.
- NetStepLaws.NoStepCutsTheOnlyPath: requires Wi-Fi management, which the policy built from a configuration always enables.
- ProcessGraph.New: the sorted list of roots, which only display reads, is not part of this model.
- Engine.ScoreSignature: 32-bit overflow of the score and the matched text in the evidence.
- Engine.ExplanationAgrees: the matched and below-threshold clauses assume ordered thresholds, which the source's 40, 80 and 120 are.
- Suppression.GroupSessions: the process metadata copied into an instance, and workload and group assembly after it.
- Maintenance.AdvanceKeepsPermitInvariant: the permit's id, reason and notes, and the pending-reboot verdict of a
  boot, which only changes the note.
- UpdatePolicy.Analyze: the findings' text; whether a value has an external owner is kept, its description is not.
- UpdateWorker.UpdateGuard.Verify: the clock, the findings' severity and the incident's text; the management state does
  not change within a pass.
- UpdateWorker.PlannedBackend.Apply: a failing write leaves a prefix of the list written; a store that changes under a
  running call is not modelled, and a complete read is one that shows the store as it is.
- NetAdvice.DialSpacing: the time a round itself takes (a dial is synchronous) is not counted.
- Config.Validate: the list of issues; each section is returned as a new value instead of edited through a reference,
  so aliasing is not captured.
- Config.ValidateSignature: which patterns are acceptable (length, nesting, repetition, regular-expression syntax)
  and which data directories are plausible are oracles.
- JSON parsing and migration: `load_from_str` falls back to the defaults and `migrate` only sets the version.
- RAS, Wi-Fi, probes, registry, event log, pipes, UI and CLI: foreign calls and rendering.
- `worker.rs` and the service runtime carry the actions out (and never fill in the observation's RAS error, line 158, which
  the machine itself handles for every code); `adapters.rs` and `builtins.rs` read files and hold data.
- `reboot.rs`, `snapshot`, `ras_error_message`, `detect_workloads`: short folds, tables and display.
