/** Whole runs of the failover machine under one fixed policy. */
module NetRuns {
  import opened Prelude
  import opened NetModel
  import opened NetStep
  import opened NetStepLaws

  datatype Round = Round(obs: NetworkObservation, now: int)

  datatype Run = Run(start: NetworkState, policy: NetworkPolicy, rounds: seq<Round>) {
    /** The state before round `k`. */
    function StateAt(k: nat): NetworkState
      requires k <= |rounds|
    {
      if k == 0 then start else Step(StateAt(k - 1), rounds[k - 1].obs, policy, rounds[k - 1].now).state
    }

    function RoundAt(k: nat): Transition
      requires k < |rounds|
    {
      Step(StateAt(k), rounds[k].obs, policy, rounds[k].now)
    }

    predicate Timed() {
      && policy.enabled
      && forall i, j :: 0 <= i <= j < |rounds| ==> rounds[i].now <= rounds[j].now
    }
  }

  // --- One round of the broadband side ------------------------------------

  /** How a round moves the broadband state, its start time, the abort memory and the retry
      schedule. */
  lemma BroadbandRound(s: NetworkState, obs: NetworkObservation, policy: NetworkPolicy, now: int)
    requires policy.enabled
    ensures var usable := BroadbandUsable(s.broadband.Established(), obs, policy);
            var h := HealthStage(s, obs, policy, now, usable);
            var a := Assessed(s, obs, policy, now).state;
            var t := Step(s, obs, policy, now).state;
            && (t.broadband == h.broadband || (t.broadband.Failed? && !h.broadband.Healthy?))
            && t.broadbandHealthySinceMs == h.broadbandHealthySinceMs
            && t.recentAborts == (if h.broadband.Healthy? then Max(h.recentAborts - 1, 0) else h.recentAborts)
            && a.broadband == h.broadband && a.broadbandHealthySinceMs == h.broadbandHealthySinceMs
            && (!h.broadband.Healthy? ==>
                  && a.recentAborts == h.recentAborts
                  && a.backoffIndex == s.backoffIndex && a.dialAttempts == s.dialAttempts)
            && t.outageStartedMs == a.outageStartedMs
            && t.failureKind == a.failureKind
            && (h.broadband.Healthy? ==> t.backoffIndex == t.dialAttempts == 0)
  {
    hide Step, Assessed, HealthStage, OutageStage, RepairStage, Derived;
    var usable := BroadbandUsable(s.broadband.Established(), obs, policy);
    var h := HealthStage(s, obs, policy, now, usable);
    AssessedFrame(s, obs, policy, now);
    HealthStageFrame(s, obs, policy, now, usable);
    OutageStageFrame(h, obs, policy, now);
    RepairStageFrame(Assessed(s, obs, policy, now).state, obs, policy, now);
    StepFrame(s, obs, policy, now);
    HealthyNeedsNoRepair(Assessed(s, obs, policy, now).state, obs, policy, now);
  }

  lemma HealthyNeedsNoRepair(a: NetworkState, obs: NetworkObservation, policy: NetworkPolicy, now: int)
    ensures a.broadband.Healthy? || InsideWindow(a, policy, now) ==> RepairStage(a, obs, policy, now) == Transition(a, [])
  {
    hide InsideWindow;
  }

  /** A round becomes Healthy only out of Verifying once the window has passed, and is in
      Verifying only by entering it now or by staying in it. */
  lemma VerifyingRound(s: NetworkState, obs: NetworkObservation, policy: NetworkPolicy, now: int)
    requires policy.enabled
    ensures var t := Step(s, obs, policy, now).state;
            && (t.broadband.Healthy? && !s.broadband.Healthy? ==>
                  && s.broadband.Verifying? && obs.rasConnected && !obs.rasDialing
                  && AsU64(now - s.broadbandHealthySinceMs.GetOr(now)) >= WindowMs(policy, s.recentAborts))
            && (t.broadband.Verifying? ==>
                  && obs.rasConnected && !obs.rasDialing && !s.broadband.Healthy?
                  && t.broadbandHealthySinceMs == (if s.broadband.Verifying? then s.broadbandHealthySinceMs else Some(now)))
            && (!t.broadband.Healthy? && !s.broadband.Healthy? ==> t.recentAborts == s.recentAborts)
  {
    BroadbandRound(s, obs, policy, now);
    hide Step, Assessed, WindowMs, ClassifyFailure, BroadbandUsable;
  }

  // --- Anti-flap ------------------------------------------------------------

  /** A stretch of Verifying states goes back to the round that entered it. */
  lemma {:induction false} VerifyingStretch(run: Run, a: nat, k: nat) returns (i: nat)
    requires run.Timed() && a <= k <= |run.rounds|
    requires !run.StateAt(a).broadband.Verifying? && run.StateAt(k).broadband.Verifying?
    ensures a <= i < k
    ensures forall m :: i < m <= k ==>
              && run.StateAt(m).broadband.Verifying?
              && run.StateAt(m).broadbandHealthySinceMs == Some(run.rounds[i].now)
              && run.StateAt(m).recentAborts == run.StateAt(i).recentAborts
    ensures forall m :: i <= m < k ==> run.rounds[m].obs.rasConnected && !run.rounds[m].obs.rasDialing
    decreases k
  {
    hide Step;
    VerifyingRound(run.StateAt(k - 1), run.rounds[k - 1].obs, run.policy, run.rounds[k - 1].now);
    if run.StateAt(k - 1).broadband.Verifying? {
      i := VerifyingStretch(run, a, k - 1);
    } else {
      i := k - 1;
    }
  }

  /** Round `k` makes broadband Healthy. */
  predicate Promotes(run: Run, k: nat)
    requires k < |run.rounds|
  {
    !run.StateAt(k).broadband.Healthy? && run.StateAt(k + 1).broadband.Healthy?
  }

  /** Broadband becomes Healthy only after a full, possibly widened, window in which every round
      saw the session connected and no dial in flight. */
  lemma PromotionNeedsWindow(run: Run, a: nat, j: nat) returns (i: nat)
    requires run.Timed() && a <= j < |run.rounds| && Promotes(run, j)
    requires !run.StateAt(a).broadband.Verifying?
    ensures a <= i < j
    ensures run.rounds[j].now - run.rounds[i].now >= WindowMs(run.policy, run.StateAt(j).recentAborts)
    ensures run.StateAt(i).recentAborts == run.StateAt(j).recentAborts
    ensures forall m :: i < m <= j ==> run.StateAt(m).broadband.Verifying?
    ensures forall m :: i <= m <= j ==> run.rounds[m].obs.rasConnected && !run.rounds[m].obs.rasDialing
  {
    hide Step;
    assert run.StateAt(j + 1) == run.RoundAt(j).state;
    VerifyingRound(run.StateAt(j), run.rounds[j].obs, run.policy, run.rounds[j].now);
    i := VerifyingStretch(run, a, j);
  }

  /** Round `k` moves traffic to broadband. */
  predicate MovesToBroadband(run: Run, k: nat)
    requires k < |run.rounds|
  {
    !run.StateAt(k).preference.Broadband? && run.StateAt(k + 1).preference.Broadband?
  }

  /** How many rounds in `[a, b)` move traffic to broadband. */
  function Moves(run: Run, a: nat, b: nat): nat
    requires a <= b <= |run.rounds|
  {
    if a == b then 0 else Moves(run, a, b - 1) + (if MovesToBroadband(run, b - 1) then 1 else 0)
  }

  lemma {:induction false} DerivedAt(run: Run, k: nat)
    requires k <= |run.rounds| && Derived(run.start)
    ensures Derived(run.StateAt(k))
  {
    if k > 0 {
      hide Step, Derived;
      StepKeepsConsistent(run.StateAt(k - 1), run.rounds[k - 1].obs, run.policy, run.rounds[k - 1].now);
    }
  }

  lemma MovesArePromotions(run: Run, k: nat)
    requires k < |run.rounds| && Derived(run.start)
    ensures MovesToBroadband(run, k) <==> Promotes(run, k)
  {
    hide Step;
    DerivedAt(run, k);
    DerivedAt(run, k + 1);
  }

  /** Two moves to broadband are at least one stabilization window apart. */
  lemma MovesAreSpaced(run: Run, i: nat, j: nat)
    requires run.Timed() && Derived(run.start) && i < j < |run.rounds|
    requires MovesToBroadband(run, i) && MovesToBroadband(run, j)
    ensures run.rounds[j].now - run.rounds[i].now >= run.policy.stabilizeSecs * 1000
  {
    hide Step, WindowMs;
    MovesArePromotions(run, i);
    MovesArePromotions(run, j);
    var e := PromotionNeedsWindow(run, i + 1, j);
    WindowAtLeastBase(run.policy, run.StateAt(j).recentAborts);
  }

  lemma WindowAtLeastBase(policy: NetworkPolicy, aborts: nat)
    ensures WindowMs(policy, aborts) >= policy.stabilizeSecs * 1000
  {
    assert policy.stabilizeSecs * (1 + aborts) == policy.stabilizeSecs + policy.stabilizeSecs * aborts;
  }

  lemma {:induction false} MovesInclude(run: Run, i: nat, b: nat)
    requires i < b <= |run.rounds| && MovesToBroadband(run, i)
    ensures Moves(run, i, b) > 0
    decreases b
  {
    hide MovesToBroadband;
    if i + 1 < b {
      MovesInclude(run, i, b - 1);
    }
  }

  lemma {:induction false} MovesSpan(run: Run, i: nat, j: nat)
    requires run.Timed() && Derived(run.start) && i <= j < |run.rounds|
    requires MovesToBroadband(run, i) && MovesToBroadband(run, j)
    ensures run.rounds[j].now - run.rounds[i].now >= Moves(run, i, j) * (run.policy.stabilizeSecs * 1000)
    decreases j
  {
    hide Step, Derived, Moves, MovesToBroadband;
    if i < j {
      MovesInclude(run, i, j);
      var p := LastMove(run, i, j);
      MovesSpan(run, i, p);
      MovesAreSpaced(run, p, j);
      OneMore(Moves(run, i, p), run.policy.stabilizeSecs * 1000);
    } else {
      NoMoves(run, i);
    }
  }

  lemma NoMoves(run: Run, i: nat)
    requires i <= |run.rounds|
    ensures Moves(run, i, i) == 0
  {
  }

  lemma OneMore(n: int, w: int)
    ensures (n + 1) * w == n * w + w
  {
  }

  /** The latest move before round `b`. */
  lemma {:induction false} LastMove(run: Run, a: nat, b: nat) returns (p: nat)
    requires a <= b <= |run.rounds| && Moves(run, a, b) > 0
    ensures a <= p < b && MovesToBroadband(run, p) && Moves(run, a, b) == Moves(run, a, p) + 1
    ensures Moves(run, p + 1, b) == 0
    decreases b
  {
    hide MovesToBroadband;
    if MovesToBroadband(run, b - 1) {
      p := b - 1;
    } else {
      p := LastMove(run, a, b - 1);
    }
  }

  /** The earliest move from round `a` on. */
  lemma {:induction false} FirstMove(run: Run, a: nat, b: nat) returns (p: nat)
    requires a <= b <= |run.rounds| && Moves(run, a, b) > 0
    ensures a <= p < b && MovesToBroadband(run, p) && Moves(run, a, b) == Moves(run, p, b) && Moves(run, a, p) == 0
    decreases b
  {
    hide MovesToBroadband;
    if Moves(run, a, b - 1) == 0 {
      p := b - 1;
    } else {
      p := FirstMove(run, a, b - 1);
    }
  }

  /** Anti-flap over whole runs: `n` moves to broadband take at least `n - 1` stabilization
      windows from any derived start, and `n` windows when broadband starts outside Verifying
      and Healthy. */
  lemma AntiFlap(run: Run)
    requires run.Timed() && Derived(run.start) && |run.rounds| > 0
    ensures var n := Moves(run, 0, |run.rounds|);
            var length := run.rounds[|run.rounds| - 1].now - run.rounds[0].now;
            var w := run.policy.stabilizeSecs * 1000;
            && (n - 1) * w <= length
            && (!run.start.broadband.Verifying? && !run.start.broadband.Healthy? ==> n * w <= length)
  {
    hide Step, Derived, Moves, MovesToBroadband, WindowMs;
    var end := |run.rounds|;
    var n: int := Moves(run, 0, end);
    var w := run.policy.stabilizeSecs * 1000;
    OneMore(n - 1, w);
    if n > 0 {
      var first := FirstMove(run, 0, end);
      var last := LastMove(run, first, end);
      MovesSpan(run, first, last);
      if !run.start.broadband.Verifying? && !run.start.broadband.Healthy? {
        MovesArePromotions(run, first);
        var e := PromotionNeedsWindow(run, 0, first);
        WindowAtLeastBase(run.policy, run.StateAt(first).recentAborts);
      }
    }
  }

  // --- Aborts widen the window ------------------------------------------------

  /** A measured round on a connected session that demotes a Healthy broadband. */
  predicate ProbeDemotion(s: NetworkState, obs: NetworkObservation, policy: NetworkPolicy) {
    && s.broadband.Healthy? && obs.rasConnected && !obs.rasDialing && obs.Total() > 0
    && !BroadbandUsable(true, obs, policy)
    && s.consecutiveFailures + 1 >= policy.failureQuorum
  }

  /** The abort count after one more abort; it saturates. */
  function OneMoreAbort(aborts: nat): nat {
    Min(aborts + 1, U32_MAX)
  }

  /** Such a demotion remembers an abort exactly when it comes within three windows. */
  lemma DemotionRemembersAbort(s: NetworkState, obs: NetworkObservation, policy: NetworkPolicy, now: int)
    requires policy.enabled && ProbeDemotion(s, obs, policy)
    ensures var t := Step(s, obs, policy, now).state;
            && !t.broadband.Healthy? && !t.broadband.Verifying?
            && t.recentAborts == (if HeldBriefly(s, policy, now) then OneMoreAbort(s.recentAborts) else s.recentAborts)
  {
    BroadbandRound(s, obs, policy, now);
    hide Step, Assessed, ClassifyFailure, HeldBriefly;
  }

  lemma {:induction false} AbortsHoldUntilHealthy(run: Run, a: nat, b: nat)
    requires run.Timed() && a <= b <= |run.rounds|
    requires forall m :: a <= m <= b ==> !run.StateAt(m).broadband.Healthy?
    ensures run.StateAt(b).recentAborts == run.StateAt(a).recentAborts
    decreases b
  {
    hide Step;
    if a < b {
      AbortsHoldUntilHealthy(run, a, b - 1);
      VerifyingRound(run.StateAt(b - 1), run.rounds[b - 1].obs, run.policy, run.rounds[b - 1].now);
    }
  }

  /** A demotion within three windows of the recorded preferred-since delays the next promotion
      by the widened window. */
  lemma AbortDelaysNextPromotion(run: Run, d: nat, j: nat)
    requires run.Timed() && d < j < |run.rounds|
    requires ProbeDemotion(run.StateAt(d), run.rounds[d].obs, run.policy)
    requires HeldBriefly(run.StateAt(d), run.policy, run.rounds[d].now)
    requires forall m :: d < m <= j ==> !run.StateAt(m).broadband.Healthy?
    requires run.StateAt(j + 1).broadband.Healthy?
    ensures run.StateAt(d + 1).recentAborts == OneMoreAbort(run.StateAt(d).recentAborts)
    ensures run.rounds[j].now - run.rounds[d].now >= WindowMs(run.policy, OneMoreAbort(run.StateAt(d).recentAborts))
  {
    hide Step, WindowMs, HeldBriefly;
    DemotionRemembersAbort(run.StateAt(d), run.rounds[d].obs, run.policy, run.rounds[d].now);
    AbortsHoldUntilHealthy(run, d + 1, j);
    var i := PromotionNeedsWindow(run, d + 1, j);
  }

  /** At most one abort is remembered, and none while Healthy: the round that promotes forgets one. */
  predicate FewAborts(s: NetworkState) {
    s.recentAborts <= 1 && (s.broadband.Healthy? ==> s.recentAborts == 0)
  }

  lemma AbortRound(s: NetworkState, obs: NetworkObservation, policy: NetworkPolicy, now: int)
    requires policy.enabled && FewAborts(s)
    ensures FewAborts(Step(s, obs, policy, now).state)
  {
    BroadbandRound(s, obs, policy, now);
    hide Step, Assessed, WindowMs, ClassifyFailure, BroadbandUsable, HeldBriefly;
  }

  /** So in every state of a run from the initial one the window is one stabilization period or two,
      never more, although the source speaks of repeated aborts escalating it. */
  lemma {:induction false} WindowAtMostDoubles(run: Run, k: nat)
    requires run.Timed() && k <= |run.rounds| && FewAborts(run.start)
    ensures FewAborts(run.StateAt(k)) && FewAborts(INITIAL)
    ensures var window := WindowMs(run.policy, run.StateAt(k).recentAborts);
            window == if run.StateAt(k).recentAborts == 0 then run.policy.stabilizeSecs * 1000
                      else run.policy.stabilizeSecs * 2000
  {
    hide Step;
    if k > 0 {
      WindowAtMostDoubles(run, k - 1);
      AbortRound(run.StateAt(k - 1), run.rounds[k - 1].obs, run.policy, run.rounds[k - 1].now);
    }
  }

  // --- The verification window ----------------------------------------------

  /** The link is up, no dial is in flight and at least one probe was measured. */
  predicate LinkMeasured(obs: NetworkObservation) {
    obs.LinkUp() && !obs.rasDialing && obs.Total() > 0
  }

  /** When the verification of a link seen at `now` began. */
  function WindowStart(s: NetworkState, now: int): int {
    if s.broadband.Verifying? then s.broadbandHealthySinceMs.GetOr(now) else now
  }

  /** A start time that is not in the future, whenever broadband is Verifying. */
  predicate StartedBy(s: NetworkState, now: int) {
    s.broadband.Verifying? ==> s.broadbandHealthySinceMs.Some? && s.broadbandHealthySinceMs.value <= now
  }

  lemma WindowRound(s: NetworkState, obs: NetworkObservation, policy: NetworkPolicy, now: int)
    requires policy.enabled && policy.stabilizeSecs >= 1
    requires !s.broadband.Established() && StartedBy(s, now) && LinkMeasured(obs)
    ensures var t := Step(s, obs, policy, now);
            var begun := WindowStart(s, now);
            && Count(t.actions, HangUpBroadband) == Count(t.actions, DialBroadband) == 0
            && t.state.outageStartedMs.None?
            && (if now - begun >= WindowMs(policy, s.recentAborts)
                then t.state.broadband.Healthy?
                else t.state.broadband.Verifying? && t.state.broadbandHealthySinceMs == Some(begun)
                     && t.state.recentAborts == s.recentAborts)
  {
    var a := Assessed(s, obs, policy, now).state;
    BroadbandRound(s, obs, policy, now);
    DisruptiveActions(s, obs, policy, now);
    WindowAtLeastBase(policy, s.recentAborts);
    LinkMeasuredRound(s, obs, policy, now);
    HealthyNeedsNoRepair(a, obs, policy, now);
    hide Step, Assessed, HealthStage, WindowMs;
  }

  lemma LinkMeasuredRound(s: NetworkState, obs: NetworkObservation, policy: NetworkPolicy, now: int)
    requires !s.broadband.Established() && StartedBy(s, now) && LinkMeasured(obs) && WindowMs(policy, s.recentAborts) > 0
    ensures var h := HealthStage(s, obs, policy, now, BroadbandUsable(s.broadband.Established(), obs, policy));
            var begun := WindowStart(s, now);
            && h.recentAborts == s.recentAborts
            && (h.broadband.Healthy? <==> now - begun >= WindowMs(policy, s.recentAborts))
            && (!h.broadband.Healthy? ==> h.broadband.Verifying? && h.broadbandHealthySinceMs == Some(begun))
  {
    hide WindowMs;
  }

  /** Inside a run of measured link-up rounds, broadband stays Verifying with one fixed start until
      the window ends. */
  lemma {:induction false} WindowHolds(run: Run, k: nat)
    requires run.Timed() && run.policy.stabilizeSecs >= 1 && 0 < k <= |run.rounds|
    requires !run.start.broadband.Established() && StartedBy(run.start, run.rounds[0].now)
    requires forall m :: 0 <= m < k ==> LinkMeasured(run.rounds[m].obs)
    requires run.rounds[k - 1].now - WindowStart(run.start, run.rounds[0].now) < WindowMs(run.policy, run.start.recentAborts)
    ensures var s := run.StateAt(k);
            && s.broadband.Verifying?
            && s.broadbandHealthySinceMs == Some(WindowStart(run.start, run.rounds[0].now))
            && s.recentAborts == run.start.recentAborts
    decreases k
  {
    hide Step, WindowMs, LinkMeasured;
    if k > 1 {
      WindowHolds(run, k - 1);
    }
    WindowRound(run.StateAt(k - 1), run.rounds[k - 1].obs, run.policy, run.rounds[k - 1].now);
  }

  /** The verification window: while the link stays up and measured, whatever the probes say, no
      round hangs up, dials or opens an outage until broadband is promoted, and the promotion is
      at exactly the first round at or past the end of the window. */
  lemma VerificationWindow(run: Run, k: nat)
    requires run.Timed() && run.policy.stabilizeSecs >= 1 && k < |run.rounds|
    requires !run.start.broadband.Established() && StartedBy(run.start, run.rounds[0].now)
    requires forall m :: 0 <= m <= k ==> LinkMeasured(run.rounds[m].obs)
    requires var end := WindowStart(run.start, run.rounds[0].now) + WindowMs(run.policy, run.start.recentAborts);
             forall m :: 0 <= m < k ==> run.rounds[m].now < end
    ensures var end := WindowStart(run.start, run.rounds[0].now) + WindowMs(run.policy, run.start.recentAborts);
            && Count(run.RoundAt(k).actions, HangUpBroadband) == Count(run.RoundAt(k).actions, DialBroadband) == 0
            && run.StateAt(k + 1).outageStartedMs.None?
            && (run.StateAt(k + 1).broadband.Healthy? <==> run.rounds[k].now >= end)
  {
    hide Step, WindowMs, LinkMeasured;
    if k > 0 {
      WindowHolds(run, k);
    }
    WindowRound(run.StateAt(k), run.rounds[k].obs, run.policy, run.rounds[k].now);
    assert run.StateAt(k + 1) == run.RoundAt(k).state;
  }

  lemma StartedRound(s: NetworkState, obs: NetworkObservation, policy: NetworkPolicy, now: int, later: int)
    requires policy.enabled && StartedBy(s, now) && now <= later
    ensures StartedBy(Step(s, obs, policy, now).state, later)
  {
    VerifyingRound(s, obs, policy, now);
    hide Step;
  }

  /** Every state of a run that starts outside Verifying has a start time that is not in the future. */
  lemma {:induction false} StartedAt(run: Run, k: nat)
    requires run.Timed() && k < |run.rounds| && !run.start.broadband.Verifying?
    ensures StartedBy(run.StateAt(k), run.rounds[k].now)
  {
    hide Step;
    if k > 0 {
      StartedAt(run, k - 1);
      StartedRound(run.StateAt(k - 1), run.rounds[k - 1].obs, run.policy, run.rounds[k - 1].now, run.rounds[k].now);
    }
  }

  /** The run from round `a` on. */
  function From(run: Run, a: nat): Run
    requires a <= |run.rounds|
  {
    Run(run.StateAt(a), run.policy, run.rounds[a..])
  }

  lemma {:induction false} FromIsSuffix(run: Run, a: nat, k: nat)
    requires a + k <= |run.rounds|
    ensures From(run, a).StateAt(k) == run.StateAt(a + k)
    decreases k
  {
    hide Step;
    if k > 0 {
      FromIsSuffix(run, a, k - 1);
      assert From(run, a).rounds[k - 1] == run.rounds[a + k - 1];
    }
  }

  /** The verification window of every reachable state: in a run from the initial state, at any round
      `a` that finds broadband neither Healthy nor Degraded. */
  lemma ReachableVerificationWindow(run: Run, a: nat, k: nat)
    requires run.Timed() && run.start == INITIAL && run.policy.stabilizeSecs >= 1 && a <= k < |run.rounds|
    requires !run.StateAt(a).broadband.Established()
    requires forall m :: a <= m <= k ==> LinkMeasured(run.rounds[m].obs)
    requires var end := WindowStart(run.StateAt(a), run.rounds[a].now) + WindowMs(run.policy, run.StateAt(a).recentAborts);
             forall m :: a <= m < k ==> run.rounds[m].now < end
    ensures var end := WindowStart(run.StateAt(a), run.rounds[a].now) + WindowMs(run.policy, run.StateAt(a).recentAborts);
            && Count(run.RoundAt(k).actions, HangUpBroadband) == Count(run.RoundAt(k).actions, DialBroadband) == 0
            && run.StateAt(k + 1).outageStartedMs.None?
            && (run.StateAt(k + 1).broadband.Healthy? <==> run.rounds[k].now >= end)
  {
    hide Step, WindowMs, LinkMeasured, Count, WindowStart;
    var rest := From(run, a);
    StartedAt(run, a);
    FromIsSuffix(run, a, k - a);
    FromIsSuffix(run, a, k - a + 1);
    VerificationWindow(rest, k - a);
    assert rest.rounds[k - a] == run.rounds[k];
    assert rest.RoundAt(k - a) == run.RoundAt(k);
  }

  // --- Dial discipline ------------------------------------------------------------

  /** Dials asked for in rounds `[a, b)`. */
  function Dials(run: Run, a: nat, b: nat): nat
    requires a <= b <= |run.rounds|
  {
    if a == b then 0 else Dials(run, a, b - 1) + Count(run.RoundAt(b - 1).actions, DialBroadband)
  }

  /** The dial clock and the retry counters move exactly with a dial, except for the reset of a
      Healthy round. */
  lemma DialRound(s: NetworkState, obs: NetworkObservation, policy: NetworkPolicy, now: int)
    requires policy.enabled
    ensures var t := Step(s, obs, policy, now);
            var dials := Count(t.actions, DialBroadband);
            && dials <= 1
            && (dials == 1 ==> !t.state.broadband.Healthy? && DialDue(s, policy, now))
            && t.state.lastDialMs == (if dials == 1 then Some(now) else s.lastDialMs)
            && t.state.dialAttempts == (if t.state.broadband.Healthy? then 0 else s.dialAttempts + dials)
            && t.state.backoffIndex == (if t.state.broadband.Healthy? then 0
                                        else if dials == 1 then Min(s.backoffIndex + 1, LAST_BACKOFF) else s.backoffIndex)
  {
    hide Step, Assessed, HealthStage, NeedRepair, DialDue;
    var a := Assessed(s, obs, policy, now).state;
    BroadbandRound(s, obs, policy, now);
    DisruptiveActions(s, obs, policy, now);
    StepFrame(s, obs, policy, now);
    HealthyNeedsNoRepair(a, obs, policy, now);
    RepairCounters(a, obs, policy, now);
    assert DialDue(a, policy, now) == DialDue(s, policy, now) by {
      DialDueReadsClock(a, s, policy, now);
    }
  }

  lemma DialDueReadsClock(a: NetworkState, s: NetworkState, policy: NetworkPolicy, now: int)
    requires a.lastDialMs == s.lastDialMs
    ensures DialDue(a, policy, now) == DialDue(s, policy, now)
  {
  }

  lemma RepairCounters(a: NetworkState, obs: NetworkObservation, policy: NetworkPolicy, now: int)
    ensures var r := RepairStage(a, obs, policy, now).state;
            if DialWanted(a, obs, policy, now) then
              r == a.(lastDialMs := Some(now), dialAttempts := a.dialAttempts + 1,
                      backoffIndex := Min(a.backoffIndex + 1, LAST_BACKOFF))
            else r == a.(broadband := r.broadband)
  {
    hide NeedRepair, DialDue, DialWait;
  }

  /** The dial before round `b`, which the dial clock still shows. */
  lemma {:induction false} LastDial(run: Run, a: nat, b: nat) returns (p: nat)
    requires run.Timed() && a < b <= |run.rounds| && Dials(run, a, b) > 0
    ensures a <= p < b && Count(run.RoundAt(p).actions, DialBroadband) == 1
    ensures Dials(run, a, b) == Dials(run, a, p) + 1
    ensures run.StateAt(b).lastDialMs == Some(run.rounds[p].now)
    decreases b
  {
    hide Step, Count;
    DialRound(run.StateAt(b - 1), run.rounds[b - 1].obs, run.policy, run.rounds[b - 1].now);
    if Count(run.RoundAt(b - 1).actions, DialBroadband) == 1 {
      p := b - 1;
    } else {
      p := LastDial(run, a, b - 1);
    }
  }

  lemma {:induction false} DialsInclude(run: Run, i: nat, b: nat)
    requires i < b <= |run.rounds| && Count(run.RoundAt(i).actions, DialBroadband) == 1
    ensures Dials(run, i, b) > 0
    decreases b
  {
    hide Step, Count;
    if i + 1 < b {
      DialsInclude(run, i, b - 1);
    }
  }

  lemma DialGap(run: Run, p: nat, j: nat)
    requires run.Timed() && p < j < |run.rounds| && Count(run.RoundAt(j).actions, DialBroadband) == 1
    requires run.StateAt(j).lastDialMs == Some(run.rounds[p].now)
    ensures run.rounds[j].now - run.rounds[p].now >= run.policy.minDialIntervalSecs * 1000
  {
    hide Step, Count;
    DialRound(run.StateAt(j), run.rounds[j].obs, run.policy, run.rounds[j].now);
  }

  /** Dial rate: from one dialling round to another, every dial in between and the last one have
      cost a full minimum interval, whatever the rounds in between observed. */
  lemma {:induction false} DialRate(run: Run, i: nat, j: nat)
    requires run.Timed() && i <= j < |run.rounds|
    requires Count(run.RoundAt(i).actions, DialBroadband) == 1 && Count(run.RoundAt(j).actions, DialBroadband) == 1
    ensures run.rounds[j].now - run.rounds[i].now >= Dials(run, i, j) * (run.policy.minDialIntervalSecs * 1000)
    decreases j
  {
    hide Step, Count;
    if i < j {
      hide Dials;
      DialsInclude(run, i, j);
      var p := LastDial(run, i, j);
      DialRate(run, i, p);
      DialGap(run, p, j);
      OneMore(Dials(run, i, p), run.policy.minDialIntervalSecs * 1000);
    }
  }

  /** A disconnected round whose last dial was rejected with 691 or 812. */
  predicate RejectedRound(obs: NetworkObservation) {
    !obs.rasConnected && !obs.rasDialing && obs.Rejected()
  }

  /** The failure that a rejected, disconnected round ends with: a Failed state keeps the failure
      it has recorded, or first records one if no outage is open. */
  predicate GivesUp(s: NetworkState) {
    s.broadband.Failed? ==>
      s.failureKind == Some(AuthenticationFailed) || (s.failureKind.None? && s.outageStartedMs.None?)
  }

  lemma RejectedAssessment(s: NetworkState, obs: NetworkObservation, policy: NetworkPolicy, now: int)
    requires RejectedRound(obs)
    ensures var a := Assessed(s, obs, policy, now).state;
            && a.broadband == (if s.broadband.Failed? then BroadbandState.Failed else BroadbandState.Reconnecting)
            && NeedRepair(a, policy, now)
            && a.lastDialMs == s.lastDialMs
            && a.failureKind.GetOr(Unknown) ==
               (if GivesUp(s) then AuthenticationFailed else s.failureKind.GetOr(Unknown))
            && (a.failureKind == Some(AuthenticationFailed) <==> GivesUp(s))
  {
    AssessedFrame(s, obs, policy, now);
    hide WindowMs, WifiStage, BroadbandUsable;
  }

  /** A rejected round gives up on authentication exactly from the states `GivesUp` describes, and
      then asks for no dial; from the others it dials whenever a dial is due. */
  lemma RejectedRoundGivesUp(s: NetworkState, obs: NetworkObservation, policy: NetworkPolicy, now: int)
    requires policy.enabled && RejectedRound(obs)
    ensures var t := Step(s, obs, policy, now);
            && t.state.broadband.Failed?
            && (t.state.failureKind == Some(AuthenticationFailed) <==> GivesUp(s))
            && Count(t.actions, DialBroadband) == Once(!GivesUp(s) && DialDue(s, policy, now))
  {
    hide Step, Assessed, NeedRepair, DialDue;
    var a := Assessed(s, obs, policy, now).state;
    DisruptiveActions(s, obs, policy, now);
    StepFrame(s, obs, policy, now);
    RepairStageFrame(a, obs, policy, now);
    RejectedAssessment(s, obs, policy, now);
    DialDueReadsClock(a, s, policy, now);
  }

  lemma DueLater(s: NetworkState, policy: NetworkPolicy, now: int, later: int)
    requires now <= later
    ensures DialDue(s, policy, now) ==> DialDue(s, policy, later)
    ensures forall t: NetworkState :: t.lastDialMs == s.lastDialMs ==> DialDue(t, policy, now) == DialDue(s, policy, now)
  {
  }

  /** Along an unbroken run of rejected rounds, whether the machine has given up never changes: if it has
      at the start, no round dials; if it has not, every round dials that finds a dial due. */
  lemma {:induction false} RejectedRun(run: Run, k: nat)
    requires run.Timed() && k < |run.rounds|
    requires forall m :: 0 <= m <= k ==> RejectedRound(run.rounds[m].obs)
    ensures var gaveUp := GivesUp(run.start);
            && (GivesUp(run.StateAt(k)) <==> gaveUp)
            && run.StateAt(k + 1).broadband.Failed?
            && (run.StateAt(k + 1).failureKind == Some(AuthenticationFailed) <==> gaveUp)
            && Count(run.RoundAt(k).actions, DialBroadband)
               == Once(!gaveUp && DialDue(run.StateAt(k), run.policy, run.rounds[k].now))
  {
    hide Step, RejectedRound, Count, DialDue;
    if k > 0 {
      RejectedRun(run, k - 1);
      RejectedOutage(run.StateAt(k - 1), run.rounds[k - 1].obs, run.policy, run.rounds[k - 1].now);
      assert run.StateAt(k) == run.RoundAt(k - 1).state;
    }
    RejectedRoundGivesUp(run.StateAt(k), run.rounds[k].obs, run.policy, run.rounds[k].now);
    assert run.StateAt(k + 1) == run.RoundAt(k).state;
  }

  /** A rejected round that does not give up leaves a failure on record or an outage open. */
  lemma RejectedOutage(s: NetworkState, obs: NetworkObservation, policy: NetworkPolicy, now: int)
    requires policy.enabled && RejectedRound(obs)
    ensures var t := Step(s, obs, policy, now).state;
            t.broadband.Failed? && (GivesUp(t) <==> GivesUp(s))
  {
    hide Step, Assessed, NeedRepair, DialDue;
    var a := Assessed(s, obs, policy, now).state;
    BroadbandRound(s, obs, policy, now);
    RejectedRoundGivesUp(s, obs, policy, now);
    if !GivesUp(s) {
      RejectedLeavesOutage(s, obs, policy, now);
    }
  }

  lemma RejectedLeavesOutage(s: NetworkState, obs: NetworkObservation, policy: NetworkPolicy, now: int)
    requires RejectedRound(obs) && !GivesUp(s)
    ensures var a := Assessed(s, obs, policy, now).state;
            a.failureKind.Some? || a.outageStartedMs.Some?
  {
    AssessedFrame(s, obs, policy, now);
    hide WindowMs, WifiStage, BroadbandUsable;
  }

  /** Exactly when an unbroken run of rejected rounds emits no dial: when the machine gives up on
      authentication at the start, or the start's last dial is too recent for the whole run. */
  lemma {:induction false} RejectionStopsDialing(run: Run, k: nat)
    requires run.Timed() && k < |run.rounds|
    requires forall m :: 0 <= m <= k ==> RejectedRound(run.rounds[m].obs)
    ensures Dials(run, 0, k + 1) == 0 <==> GivesUp(run.start) || !DialDue(run.start, run.policy, run.rounds[k].now)
    ensures Dials(run, 0, k + 1) == 0 ==> run.StateAt(k + 1).lastDialMs == run.start.lastDialMs
  {
    hide Step, RejectedRound, Count, DialDue, GivesUp;
    RejectedRun(run, k);
    DialRound(run.StateAt(k), run.rounds[k].obs, run.policy, run.rounds[k].now);
    DueLater(run.start, run.policy, run.rounds[k].now, run.rounds[k].now);
    if k > 0 {
      RejectionStopsDialing(run, k - 1);
      DueLater(run.start, run.policy, run.rounds[k - 1].now, run.rounds[k].now);
    }
  }

  // --- Which states do not give up --------------------------------------------------------------

  /** A Failed state records why, and with a quorum of at most one the reason is authentication. */
  predicate FailedForReason(s: NetworkState, policy: NetworkPolicy) {
    s.broadband.Failed? ==>
      s.failureKind.Some? && (policy.failureQuorum <= 1 ==> s.failureKind == Some(AuthenticationFailed))
  }

  lemma FailedRound(s: NetworkState, obs: NetworkObservation, policy: NetworkPolicy, now: int)
    requires policy.enabled && FailedForReason(s, policy)
    ensures FailedForReason(Step(s, obs, policy, now).state, policy)
  {
    var a := Assessed(s, obs, policy, now).state;
    BroadbandRound(s, obs, policy, now);
    StepFrame(s, obs, policy, now);
    FailedAssessment(s, obs, policy, now);
    FailedRepair(a, obs, policy, now);
    hide Step, Assessed, HealthStage, RepairStage;
  }

  lemma FailedAssessment(s: NetworkState, obs: NetworkObservation, policy: NetworkPolicy, now: int)
    requires FailedForReason(s, policy)
    ensures FailedForReason(Assessed(s, obs, policy, now).state, policy)
  {
    AssessedFrame(s, obs, policy, now);
    hide WindowMs, WifiStage, BroadbandUsable, ClassifyFailure, HeldBriefly;
  }

  lemma FailedRepair(a: NetworkState, obs: NetworkObservation, policy: NetworkPolicy, now: int)
    ensures var t := RepairStage(a, obs, policy, now).state;
            t.broadband.Failed? ==> a.broadband.Failed? || a.failureKind == Some(AuthenticationFailed)
  {
    hide NeedRepair, DialDue, DialWait;
  }

  /** In every run from the initial state a Failed state has a failure on record; with a quorum of at
      most one it is a rejection, so that every reachable state gives up. */
  lemma {:induction false} ReachableFailures(run: Run, k: nat)
    requires run.Timed() && run.start == INITIAL && k <= |run.rounds|
    ensures FailedForReason(run.StateAt(k), run.policy)
    ensures run.policy.failureQuorum <= 1 ==> GivesUp(run.StateAt(k))
  {
    hide Step;
    if k > 0 {
      ReachableFailures(run, k - 1);
      FailedRound(run.StateAt(k - 1), run.rounds[k - 1].obs, run.policy, run.rounds[k - 1].now);
    }
  }

  /** A rejected password, a session without an address in a round that fails its probe, and a rejected
      password again. */
  function RejectedTwice(policy: NetworkPolicy, obs: NetworkObservation, probe: ProbeOutcome, t0: int, t1: int, t2: int): Run {
    var rejected := obs.(rasConnected := false, rasDialing := false, rasError := Some(691));
    var addressless := obs.(rasConnected := true, rasDialing := false, rasError := None, broadbandHasIp := false,
                            probeResults := [probe]);
    Run(INITIAL, policy, [Round(rejected, t0), Round(addressless, t1), Round(rejected, t2)])
  }

  /** With a larger quorum there is a reachable state that does not give up, whatever else the policy and
      the observations are: the last round of this run is rejected and dials. */
  lemma RejectionCanKeepDialing(policy: NetworkPolicy, obs: NetworkObservation, probe: ProbeOutcome, t0: int, t1: int, t2: int)
    requires policy.enabled && policy.failureQuorum >= 2 && t0 <= t1 <= t2
    ensures var run := RejectedTwice(policy, obs, probe, t0, t1, t2);
            && run.Timed() && RejectedRound(run.rounds[2].obs)
            && run.StateAt(2).broadband.Failed? && run.StateAt(2).failureKind == Some(NoIpConfiguration)
            && !GivesUp(run.StateAt(2))
            && Count(run.RoundAt(2).actions, DialBroadband) == 1
  {
    var run := RejectedTwice(policy, obs, probe, t0, t1, t2);
    hide Step, Count, DialDue;
    var s := run.StateAt(1);
    assert run.StateAt(0) == INITIAL && s == Step(INITIAL, run.rounds[0].obs, policy, t0).state;
    RejectedRoundGivesUp(INITIAL, run.rounds[0].obs, policy, t0);
    DialRound(INITIAL, run.rounds[0].obs, policy, t0);
    RejectedCounters(INITIAL, run.rounds[0].obs, policy, t0);
    AddresslessRound(s, run.rounds[1].obs, policy, t1);
    assert run.StateAt(2) == Step(s, run.rounds[1].obs, policy, t1).state;
    RejectedRoundGivesUp(run.StateAt(2), run.rounds[2].obs, policy, t2);
    NeverDialledIsDue(INITIAL, policy, t0);
    NeverDialledIsDue(run.StateAt(2), policy, t2);
  }

  /** Every state reachable under the policy gives up on authentication when it is rejected. */
  ghost predicate AlwaysGivesUp(policy: NetworkPolicy) {
    forall run: Run, k: nat ::
      run.Timed() && run.start == INITIAL && run.policy == policy && k <= |run.rounds| ==> GivesUp(run.StateAt(k))
  }

  /** The exact condition on the policy: a rejection stops dialling from every reachable state if and only if
      a single failing round demotes the link. */
  lemma AlwaysGivesUpExactly(policy: NetworkPolicy)
    requires policy.enabled
    ensures AlwaysGivesUp(policy) <==> policy.failureQuorum <= 1
  {
    hide Run.StateAt, GivesUp;
    if policy.failureQuorum <= 1 {
      forall run: Run, k: nat | run.Timed() && run.start == INITIAL && run.policy == policy && k <= |run.rounds|
        ensures GivesUp(run.StateAt(k))
      {
        ReachableFailures(run, k);
      }
    } else {
      var obs := NetworkObservation(false, false, None, false, false, false, false, false, false, []);
      var probe := ProbeOutcome("", Tcp, false);
      RejectionCanKeepDialing(policy, obs, probe, 0, 0, 0);
      assert !GivesUp(RejectedTwice(policy, obs, probe, 0, 0, 0).StateAt(2));
    }
  }

  lemma NeverDialledIsDue(s: NetworkState, policy: NetworkPolicy, now: int)
    requires s.lastDialMs.None?
    ensures DialDue(s, policy, now)
  {
  }

  lemma RejectedCounters(s: NetworkState, obs: NetworkObservation, policy: NetworkPolicy, now: int)
    requires policy.enabled && RejectedRound(obs)
    ensures Step(s, obs, policy, now).state.consecutiveFailures == s.consecutiveFailures
  {
    CountersRound(s, obs, policy, now);
    hide Step;
  }

  /** The consecutive counters are those of the broadband assessment. */
  lemma CountersRound(s: NetworkState, obs: NetworkObservation, policy: NetworkPolicy, now: int)
    requires policy.enabled
    ensures var h := HealthStage(s, obs, policy, now, BroadbandUsable(s.broadband.Established(), obs, policy));
            Step(s, obs, policy, now).state.consecutiveFailures == h.consecutiveFailures
  {
    hide Step, Assessed, HealthStage, OutageStage, RepairStage, Derived;
    AssessedFrame(s, obs, policy, now);
    OutageStageFrame(HealthStage(s, obs, policy, now, BroadbandUsable(s.broadband.Established(), obs, policy)), obs, policy, now);
    RepairStageFrame(Assessed(s, obs, policy, now).state, obs, policy, now);
    StepFrame(s, obs, policy, now);
  }

  lemma AddresslessRound(s: NetworkState, obs: NetworkObservation, policy: NetworkPolicy, now: int)
    requires policy.enabled && s.broadband.Failed? && s.consecutiveFailures + 1 < policy.failureQuorum
    requires obs.rasConnected && !obs.rasDialing && obs.rasError.None? && !obs.broadbandHasIp && obs.Total() > 0
    ensures var t := Step(s, obs, policy, now).state;
            t.broadband.Failed? && t.failureKind == Some(NoIpConfiguration) && t.lastDialMs == s.lastDialMs
  {
    BroadbandRound(s, obs, policy, now);
    DialRound(s, obs, policy, now);
    OneDialAtMost(s, obs, policy, now);
    MeasuredRoundIsClassified(s, obs, policy, now);
    AddresslessAssessment(s, obs, policy, now);
    hide Step, Assessed, HealthStage;
  }

  lemma AddresslessAssessment(s: NetworkState, obs: NetworkObservation, policy: NetworkPolicy, now: int)
    requires s.broadband.Failed? && s.consecutiveFailures + 1 < policy.failureQuorum
    requires obs.rasConnected && !obs.rasDialing && obs.rasError.None? && !obs.broadbandHasIp && obs.Total() > 0
    ensures HealthStage(s, obs, policy, now, BroadbandUsable(s.broadband.Established(), obs, policy)).broadband.Failed?
    ensures ClassifyFailure(obs, policy) == NoIpConfiguration
  {
    hide WindowMs, HeldBriefly;
  }

  // --- Backoff -----------------------------------------------------------------------

  /** The schedule position is the capped number of dials. */
  predicate ExactBackoff(s: NetworkState) {
    s.backoffIndex == Min(s.dialAttempts, LAST_BACKOFF)
  }

  lemma {:induction false} BackoffIsExact(run: Run, k: nat)
    requires run.Timed() && k <= |run.rounds| && ExactBackoff(run.start)
    ensures ExactBackoff(run.StateAt(k))
    ensures k > 0 && run.StateAt(k).broadband.Healthy? ==> run.StateAt(k).dialAttempts == 0
  {
    hide Step, Count;
    if k > 0 {
      BackoffIsExact(run, k - 1);
      DialRound(run.StateAt(k - 1), run.rounds[k - 1].obs, run.policy, run.rounds[k - 1].now);
    }
  }

  /** Along rounds that do not end Healthy, the attempt counter counts exactly the dials. */
  lemma {:induction false} AttemptsCountDials(run: Run, a: nat, b: nat)
    requires run.Timed() && a <= b <= |run.rounds|
    requires forall m :: a < m <= b ==> !run.StateAt(m).broadband.Healthy?
    ensures run.StateAt(b).dialAttempts == run.StateAt(a).dialAttempts + Dials(run, a, b)
    decreases b
  {
    hide Step, Count;
    if a < b {
      AttemptsCountDials(run, a, b - 1);
      DialRound(run.StateAt(b - 1), run.rounds[b - 1].obs, run.policy, run.rounds[b - 1].now);
    }
  }

  /** The wait a list of actions advises, 0 when it advises none. */
  function AdvisedWait(actions: seq<NetworkAction>): nat {
    NextDelayMs(actions, 0)
  }

  lemma NoWaitFirst(a: seq<NetworkAction>, b: seq<NetworkAction>, fallback: nat)
    requires forall x :: x in a ==> !x.Wait?
    ensures NextDelayMs(a + b, fallback) == NextDelayMs(b, fallback)
  {
    if a == [] {
      assert a + b == b;
    } else {
      assert (a + b)[0] == a[0] && (a + b)[1..] == a[1..] + b;
      NoWaitFirst(a[1..], b, fallback);
    }
  }

  lemma NoWaitAtAll(a: seq<NetworkAction>, fallback: nat)
    requires forall x :: x in a ==> !x.Wait?
    ensures NextDelayMs(a, fallback) == fallback
  {
    NoWaitFirst(a, [], fallback);
    assert a + [] == a;
  }

  lemma DialWantedActions(a: NetworkState, obs: NetworkObservation, policy: NetworkPolicy, now: int)
    requires DialWanted(a, obs, policy, now)
    ensures RepairStage(a, obs, policy, now).actions == DialActions(a)
  {
    hide NeedRepair, DialDue, DialActions;
  }

  /** The assessed state a dialling round dials from still has the counters of the state before. */
  lemma DialSource(s: NetworkState, obs: NetworkObservation, policy: NetworkPolicy, now: int)
    requires policy.enabled && Count(Step(s, obs, policy, now).actions, DialBroadband) == 1
    ensures var a := Assessed(s, obs, policy, now).state;
            && DialWanted(a, obs, policy, now)
            && a.backoffIndex == s.backoffIndex && a.dialAttempts == s.dialAttempts
  {
    hide Step, Assessed, HealthStage, DialWanted, RepairStage;
    BroadbandRound(s, obs, policy, now);
    DialRound(s, obs, policy, now);
    DisruptiveActions(s, obs, policy, now);
    HealthyNeedsNoRepair(Assessed(s, obs, policy, now).state, obs, policy, now);
  }

  lemma RouteActionsNeverWait(preference: UplinkPreference, obs: NetworkObservation)
    ensures forall x :: x in RouteActions(preference, obs) ==> !x.Wait?
  {
  }

  /** A dialling round advises exactly the scheduled wait of its attempt, and none when that is 0. */
  lemma DialAdvice(s: NetworkState, obs: NetworkObservation, policy: NetworkPolicy, now: int, fallback: nat)
    requires policy.enabled && Count(Step(s, obs, policy, now).actions, DialBroadband) == 1
    ensures var wait := DialWait(s.backoffIndex, s.dialAttempts);
            NextDelayMs(Step(s, obs, policy, now).actions, fallback) == if wait == 0 then fallback else wait
  {
    hide Step, Assessed, RepairStage, DialWanted, DialWait, DialActions, RouteActions, Count;
    var a := Assessed(s, obs, policy, now).state;
    DialSource(s, obs, policy, now);
    DialWantedActions(a, obs, policy, now);
    var wifi, route, standby := StepActions(s, obs, policy, now);
    RouteActionsNeverWait(Step(s, obs, policy, now).state.preference, obs);
    DialAdviceInParts(a, wifi, route + standby, fallback);
    assert wifi + DialActions(a) + route + standby == wifi + DialActions(a) + (route + standby);
  }

  lemma DialAdviceInParts(a: NetworkState, before: seq<NetworkAction>, after: seq<NetworkAction>, fallback: nat)
    requires forall x :: x in before + after ==> !x.Wait?
    ensures var wait := DialWait(a.backoffIndex, a.dialAttempts);
            NextDelayMs(before + DialActions(a) + after, fallback) == if wait == 0 then fallback else wait
  {
    hide DialWait;
    assert before + DialActions(a) + after == before + (DialActions(a) + after);
    NoWaitFirst(before, DialActions(a) + after, fallback);
    if DialWait(a.backoffIndex, a.dialAttempts) == 0 {
      NoWaitFirst([DialBroadband], after, fallback);
      NoWaitAtAll(after, fallback);
    }
  }

  /** At or above the schedule entry by less than 20%, and never over 71,940 ms. */
  predicate OnSchedule(index: nat, wait: nat) {
    index <= LAST_BACKOFF && BACKOFF_MS[index] <= wait <= 71_940 && 1000 * wait <= 1199 * BACKOFF_MS[index]
  }

  lemma DialWaitBounds(index: nat, attempts: nat)
    requires index <= LAST_BACKOFF
    ensures OnSchedule(index, DialWait(index, attempts))
  {
  }

  /** A later entry of the schedule always waits strictly longer. */
  lemma ScheduleGrows(i: nat, v: nat, j: nat, w: nat)
    requires i < j && OnSchedule(i, v) && OnSchedule(j, w)
    ensures v < w
  {
    assert BACKOFF_MS[i] == 0 || 15 * BACKOFF_MS[i] <= 8 * BACKOFF_MS[i + 1];
    assert BACKOFF_MS[i + 1] <= BACKOFF_MS[j];
  }

  /** Backoff along an outage: between two dials with no Healthy round in between, the attempt
      counter has counted every dial, each advised wait is the schedule's, and until the schedule
      saturates the later wait is strictly longer. */
  lemma BackoffGrows(run: Run, i: nat, j: nat)
    requires run.Timed() && ExactBackoff(run.start) && i < j < |run.rounds|
    requires Count(run.RoundAt(i).actions, DialBroadband) == 1 && Count(run.RoundAt(j).actions, DialBroadband) == 1
    requires forall m :: i < m <= j ==> !run.StateAt(m).broadband.Healthy?
    ensures var s, t := run.StateAt(i), run.StateAt(j);
            && t.dialAttempts == s.dialAttempts + Dials(run, i, j)
            && OnSchedule(t.backoffIndex, AdvisedWait(run.RoundAt(j).actions))
            && (s.dialAttempts < LAST_BACKOFF ==>
                  AdvisedWait(run.RoundAt(i).actions) < AdvisedWait(run.RoundAt(j).actions))
  {
    hide Step, Count, DialWait, OnSchedule;
    var s, t := run.StateAt(i), run.StateAt(j);
    BackoffIsExact(run, i);
    BackoffIsExact(run, j);
    AttemptsCountDials(run, i, j);
    DialsInclude(run, i, j);
    DialAdvice(s, run.rounds[i].obs, run.policy, run.rounds[i].now, 0);
    DialAdvice(t, run.rounds[j].obs, run.policy, run.rounds[j].now, 0);
    DialWaitBounds(s.backoffIndex, s.dialAttempts);
    DialWaitBounds(t.backoffIndex, t.dialAttempts);
    if s.dialAttempts < LAST_BACKOFF {
      ScheduleGrows(s.backoffIndex, AdvisedWait(run.RoundAt(i).actions), t.backoffIndex, AdvisedWait(run.RoundAt(j).actions));
    }
  }

  /** The schedule calls its first entry an immediate retry, but a zero wait is not put in the
      action list, so the caller falls back to its own 20 s. */
  lemma FirstDialFallsBack(s: NetworkState, obs: NetworkObservation, policy: NetworkPolicy, now: int)
    requires policy.enabled && Count(Step(s, obs, policy, now).actions, DialBroadband) == 1
    requires s.backoffIndex == 0
    ensures NextDelayMs(Step(s, obs, policy, now).actions, BASE_INTERVAL_MS) == 20_000
  {
    DialAdvice(s, obs, policy, now, BASE_INTERVAL_MS);
  }
}
