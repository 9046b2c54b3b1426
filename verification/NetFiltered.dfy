/** The life of a working link on a network that filters the probes: promotion on link evidence, demotion
    on probe evidence, hang-up, and a wider window the next time (crates/guardian-core/src/net.rs, lines
    674-718, 752-843 and 904-958). */
module NetFiltered {
  import opened Prelude
  import opened NetModel
  import opened NetStep
  import opened NetStepLaws
  import opened NetRuns

  /** The link is up and measured, and no probe passes. */
  predicate Filtered(obs: NetworkObservation) {
    LinkMeasured(obs) && obs.Passes() == 0 && !obs.Rejected()
  }

  lemma {:induction false} NonePass(probes: seq<ProbeOutcome>)
    requires CountOk(probes) == 0
    ensures forall i :: 0 <= i < |probes| ==> !probes[i].ok
  {
    if probes != [] {
      NonePass(probes[..|probes| - 1]);
      assert probes == probes[..|probes| - 1] + [probes[|probes| - 1]];
    }
  }

  /** Such a round passes for a link that is not established, fails for one that is, and is never taken
      for a failure of name resolution. */
  lemma FilteredMeans(obs: NetworkObservation, policy: NetworkPolicy)
    requires Filtered(obs)
    ensures BroadbandUsable(false, obs, policy) && !BroadbandUsable(true, obs, policy)
    ensures ClassifyFailure(obs, policy) == UpstreamConnectivityFailure
  {
    NonePass(obs.probeResults);
  }

  predicate HangsUp(t: Transition) {
    Count(t.actions, HangUpBroadband) == 1
  }

  predicate Undisturbed(t: Transition) {
    Count(t.actions, HangUpBroadband) == Count(t.actions, DialBroadband) == 0
  }

  // --- Single rounds --------------------------------------------------------------------------

  lemma HealthyAssessment(s: NetworkState, obs: NetworkObservation, policy: NetworkPolicy, now: int)
    requires s.broadband.Healthy? && Filtered(obs)
    ensures var h := HealthStage(s, obs, policy, now, BroadbandUsable(true, obs, policy));
            && h.consecutiveFailures == s.consecutiveFailures + 1
            && (if s.consecutiveFailures + 1 < policy.failureQuorum
                then h.broadband.Healthy? && h.recentAborts == s.recentAborts
                else h.broadband.Degraded?
                     && h.recentAborts == (if HeldBriefly(s, policy, now) then OneMoreAbort(s.recentAborts) else s.recentAborts))
  {
    FilteredMeans(obs, policy);
    hide BroadbandUsable, ClassifyFailure, HeldBriefly;
  }

  /** A filtered round of a promoted link: below the quorum nothing happens; at the quorum the link is
      demoted, and hung up in the same round exactly when Wi-Fi is associated. */
  lemma HealthyFilteredRound(s: NetworkState, obs: NetworkObservation, policy: NetworkPolicy, now: int)
    requires policy.enabled && policy.wifiEnabled && s.broadband.Healthy? && s.preference.Broadband? && Filtered(obs)
    ensures var t := Step(s, obs, policy, now);
            && t.state.consecutiveFailures == s.consecutiveFailures + 1
            && Count(t.actions, DialBroadband) == 0
            && (if s.consecutiveFailures + 1 < policy.failureQuorum
                then t.state.broadband.Healthy? && t.state.recentAborts == Max(s.recentAborts - 1, 0) && Undisturbed(t)
                     && t.state.broadbandPreferredSinceMs == Some(s.broadbandPreferredSinceMs.GetOr(now))
                else t.state.broadband.Degraded? && (HangsUp(t) <==> Associated(obs))
                     && (Associated(obs) || t.state.preference.Neither?)
                     && t.state.recentAborts == (if HeldBriefly(s, policy, now) then OneMoreAbort(s.recentAborts) else s.recentAborts))
  {
    hide Step, Assessed, HealthStage, OutageStage, RepairStage, BroadbandUsable, ClassifyFailure, HeldBriefly, NeedRepair, HangUpWanted, DialWanted;
    var a := Assessed(s, obs, policy, now).state;
    HealthyAssessment(s, obs, policy, now);
    BroadbandRound(s, obs, policy, now);
    CountersRound(s, obs, policy, now);
    FilteredEnd(s, obs, policy, now);
    StepFrame(s, obs, policy, now);
  }

  /** How a filtered round ends, once the assessment is known. */
  lemma FilteredEnd(s: NetworkState, obs: NetworkObservation, policy: NetworkPolicy, now: int)
    requires policy.enabled && policy.wifiEnabled && Filtered(obs)
    ensures var a := Assessed(s, obs, policy, now).state;
            var t := Step(s, obs, policy, now);
            && (a.broadband.Healthy? ==> Undisturbed(t) && t.state.broadband.Healthy?)
            && (a.broadband.Degraded? ==>
                  && t.state.broadband.Degraded?
                  && Count(t.actions, DialBroadband) == 0
                  && (HangsUp(t) <==> Associated(obs) || s.preference.Neither?)
                  && (Associated(obs) || t.state.preference.Neither?))
  {
    hide Step, Assessed, RepairStage, BroadbandUsable, ClassifyFailure;
    var a := Assessed(s, obs, policy, now).state;
    FilteredMeans(obs, policy);
    MeasuredRoundIsClassified(s, obs, policy, now);
    DisruptiveActions(s, obs, policy, now);
    WifiUpIsObserved(s, obs, policy, now);
    StepFrame(s, obs, policy, now);
    FilteredRepair(a, obs, policy, now);
  }

  lemma FilteredRepair(a: NetworkState, obs: NetworkObservation, policy: NetworkPolicy, now: int)
    requires Filtered(obs)
    requires a.broadband.Healthy? || a.failureKind == Some(UpstreamConnectivityFailure)
    ensures a.broadband.Healthy? ==>
              !HangUpWanted(a, obs, policy, now) && !DialWanted(a, obs, policy, now)
              && RepairStage(a, obs, policy, now).state == a
    ensures a.broadband.Degraded? ==>
              && (HangUpWanted(a, obs, policy, now) <==> a.wifi.IsUp() || a.preference.Neither?)
              && !DialWanted(a, obs, policy, now)
              && RepairStage(a, obs, policy, now).state == a
  {
    hide WindowMs, DialDue;
  }

  lemma DegradedAssessment(s: NetworkState, obs: NetworkObservation, policy: NetworkPolicy, now: int)
    requires s.broadband.Degraded? && Filtered(obs)
    ensures var h := HealthStage(s, obs, policy, now, BroadbandUsable(true, obs, policy));
            h.broadband.Degraded? && h.recentAborts == s.recentAborts
  {
    FilteredMeans(obs, policy);
    hide BroadbandUsable, ClassifyFailure, HeldBriefly;
  }

  /** A demoted link stays demoted while it is filtered, and is hung up in every round that finds Wi-Fi
      associated or nothing preferred before. */
  lemma DegradedFilteredRound(s: NetworkState, obs: NetworkObservation, policy: NetworkPolicy, now: int)
    requires policy.enabled && policy.wifiEnabled && s.broadband.Degraded? && Filtered(obs)
    ensures var t := Step(s, obs, policy, now);
            && t.state.broadband.Degraded? && Count(t.actions, DialBroadband) == 0
            && t.state.recentAborts == s.recentAborts
            && (HangsUp(t) <==> Associated(obs) || s.preference.Neither?)
            && (Associated(obs) || t.state.preference.Neither?)
  {
    hide Step, Assessed, HealthStage, BroadbandUsable, ClassifyFailure;
    DegradedAssessment(s, obs, policy, now);
    BroadbandRound(s, obs, policy, now);
    FilteredEnd(s, obs, policy, now);
  }

  // --- The cycle over runs ------------------------------------------------------------------------

  /** The failing rounds a promoted link survives, and one more. */
  function RoundsToDemote(policy: NetworkPolicy): nat {
    Max(policy.failureQuorum, 1)
  }

  /** A round that passes on link evidence starts the count of failures afresh. */
  lemma PromotionCounters(s: NetworkState, obs: NetworkObservation, policy: NetworkPolicy, now: int)
    requires policy.enabled && !s.broadband.Established() && LinkMeasured(obs)
    ensures var t := Step(s, obs, policy, now).state;
            && t.consecutiveFailures == 0
            && (t.broadband.Healthy? ==> t.broadbandPreferredSinceMs == Some(s.broadbandPreferredSinceMs.GetOr(now))
                                         && t.preference.Broadband? && t.recentAborts == Max(s.recentAborts - 1, 0))
  {
    CountersRound(s, obs, policy, now);
    BroadbandRound(s, obs, policy, now);
    StepFrame(s, obs, policy, now);
    LinkPasses(s, obs, policy, now);
    hide Step, Assessed, HealthStage;
  }

  lemma LinkPasses(s: NetworkState, obs: NetworkObservation, policy: NetworkPolicy, now: int)
    requires !s.broadband.Established() && LinkMeasured(obs)
    ensures var h := HealthStage(s, obs, policy, now, BroadbandUsable(s.broadband.Established(), obs, policy));
            h.consecutiveFailures == 0 && h.recentAborts == s.recentAborts
  {
    hide WindowMs;
  }

  /** When the held time of the promotion in round `p` is counted from; usually that round itself. */
  function PreferredFrom(run: Run, p: nat): int
    requires p < |run.rounds|
  {
    run.StateAt(p).broadbandPreferredSinceMs.GetOr(run.rounds[p].now)
  }

  ghost predicate FilteredFrom(run: Run, p: nat, end: nat)
    requires end <= |run.rounds|
  {
    forall m :: p <= m < end ==> Filtered(run.rounds[m].obs)
  }

  /** The state `n` filtered rounds after the promotion in round `p`, below the quorum. */
  lemma {:induction false} HealthyStretch(run: Run, p: nat, n: nat)
    requires run.Timed() && run.policy.wifiEnabled && Derived(run.start) && p + n < |run.rounds|
    requires Promotes(run, p) && !run.StateAt(p).broadband.Established()
    requires FilteredFrom(run, p, p + n + 1) && n < RoundsToDemote(run.policy)
    ensures var s := run.StateAt(p + n + 1);
            && s.broadband.Healthy? && s.preference.Broadband? && s.consecutiveFailures == n
            && s.broadbandPreferredSinceMs == Some(PreferredFrom(run, p))
            && s.recentAborts <= Max(run.StateAt(p).recentAborts - 1, 0)
            && (run.StateAt(p).recentAborts <= 1 ==> s.recentAborts == 0)
    ensures n > 0 ==> Undisturbed(run.RoundAt(p + n))
  {
    hide Step, Filtered, LinkMeasured, Undisturbed, Derived;
    var k := p + n;
    assert run.StateAt(k + 1) == run.RoundAt(k).state;
    assert Filtered(run.rounds[k].obs);
    FilteredIsMeasured(run.rounds[k].obs);
    if n == 0 {
      PromotionCounters(run.StateAt(p), run.rounds[p].obs, run.policy, run.rounds[p].now);
    } else {
      HealthyStretch(run, p, n - 1);
      HealthyFilteredRound(run.StateAt(k), run.rounds[k].obs, run.policy, run.rounds[k].now);
      DerivedAt(run, k + 1);
      HealthyIsPreferred(run.StateAt(k + 1));
    }
  }

  lemma FilteredIsMeasured(obs: NetworkObservation)
    requires Filtered(obs)
    ensures LinkMeasured(obs)
  {
  }

  lemma HealthyIsPreferred(s: NetworkState)
    requires Derived(s)
    ensures s.preference.Broadband? <==> s.broadband.Healthy?
  {
  }

  /** The round `d` demotes the link that round `p` promoted: it hangs up exactly with Wi-Fi associated, and
      an abort is remembered exactly when the link was held for less than three windows. */
  ghost predicate Demotes(run: Run, p: nat, d: nat)
    requires p < d < |run.rounds|
  {
    && run.StateAt(d).broadband.Healthy? && run.StateAt(d + 1).broadband.Degraded?
    && (HangsUp(run.RoundAt(d)) <==> Associated(run.rounds[d].obs))
    && Count(run.RoundAt(d).actions, DialBroadband) == 0
    && (!Associated(run.rounds[d].obs) ==> run.StateAt(d + 1).preference.Neither?)
    && (run.StateAt(p).recentAborts <= 1 ==>
          run.StateAt(d + 1).recentAborts
          == Once(run.rounds[d].now - PreferredFrom(run, p) < run.policy.stabilizeSecs * 3 * 1000))
  }

  /** Round `m` leaves the link Healthy and neither hangs up nor dials. */
  predicate Carries(run: Run, m: nat)
    requires m < |run.rounds|
  {
    run.StateAt(m + 1).broadband.Healthy? && Undisturbed(run.RoundAt(m))
  }

  /** From promotion to demotion: a filtered link that is promoted in round `p` stays Healthy and undisturbed
      for all rounds below the quorum, and is demoted in exactly the `failureQuorum`-th round after the
      promotion, and hung up in that round if Wi-Fi is associated. */
  lemma PromotedLinkIsCut(run: Run, p: nat)
    requires run.Timed() && run.policy.wifiEnabled && Derived(run.start)
    requires p + RoundsToDemote(run.policy) < |run.rounds|
    requires Promotes(run, p) && !run.StateAt(p).broadband.Established()
    requires FilteredFrom(run, p, p + RoundsToDemote(run.policy) + 1)
    ensures forall m :: p < m < p + RoundsToDemote(run.policy) ==> Carries(run, m)
    ensures Demotes(run, p, p + RoundsToDemote(run.policy))
  {
    hide Step, Filtered, Undisturbed, Derived, Demotes, Run.StateAt, Promotes, Carries;
    var d := p + RoundsToDemote(run.policy);
    forall m | p < m < p + RoundsToDemote(run.policy) ensures Carries(run, m) {
      StillHealthy(run, p, m);
    }
    DemotingRound(run, p, d);
  }

  lemma StillHealthy(run: Run, p: nat, m: nat)
    requires run.Timed() && run.policy.wifiEnabled && Derived(run.start)
    requires p < m < |run.rounds| && m < p + RoundsToDemote(run.policy)
    requires Promotes(run, p) && !run.StateAt(p).broadband.Established() && FilteredFrom(run, p, m + 1)
    ensures Carries(run, m)
  {
    hide Step, Filtered, Undisturbed, Derived, Run.StateAt, Promotes;
    HealthyStretch(run, p, m - p);
  }

  lemma DemotingRound(run: Run, p: nat, d: nat)
    requires run.Timed() && run.policy.wifiEnabled && Derived(run.start)
    requires d == p + RoundsToDemote(run.policy) < |run.rounds|
    requires Promotes(run, p) && !run.StateAt(p).broadband.Established() && FilteredFrom(run, p, d + 1)
    ensures Demotes(run, p, d)
  {
    hide Step, Filtered, Undisturbed, HangsUp, Derived, Associated, Count;
    HealthyStretch(run, p, RoundsToDemote(run.policy) - 1);
    assert Filtered(run.rounds[d].obs);
    HealthyFilteredRound(run.StateAt(d), run.rounds[d].obs, run.policy, run.rounds[d].now);
    assert run.StateAt(d + 1) == run.RoundAt(d).state;
  }

  /** The case without Wi-Fi: a filtered link demoted in round `d`, where it could not be hung up because it
      was the preferred path, is hung up in the round after, whether or not Wi-Fi has come up by then. */
  lemma HangUpOneRoundLater(run: Run, p: nat, d: nat)
    requires run.Timed() && run.policy.wifiEnabled && p < d && d + 1 < |run.rounds| && Demotes(run, p, d)
    requires !Associated(run.rounds[d].obs) && Filtered(run.rounds[d + 1].obs)
    ensures !HangsUp(run.RoundAt(d)) && HangsUp(run.RoundAt(d + 1)) && run.StateAt(d + 2).broadband.Degraded?
  {
    hide Step, Filtered, HangsUp, Associated, Count;
    DegradedFilteredRound(run.StateAt(d + 1), run.rounds[d + 1].obs, run.policy, run.rounds[d + 1].now);
    assert run.StateAt(d + 2) == run.RoundAt(d + 1).state;
  }

  /** The whole cycle from the initial state, on a network that filters every probe: promotion at exactly the
      first round `p` past the window, demotion and hang-up as above, and, when the link was held briefly,
      a second promotion in a later round `j` that is at least two whole windows after the demotion. */
  lemma FilteredCycle(run: Run, a: nat, p: nat, j: nat)
    requires run.Timed() && run.start == INITIAL && run.policy.wifiEnabled && run.policy.stabilizeSecs >= 1
    requires a <= p && p + RoundsToDemote(run.policy) < j < |run.rounds|
    requires !run.StateAt(a).broadband.Established() && FilteredFrom(run, a, p + RoundsToDemote(run.policy) + 1)
    requires var end := WindowStart(run.StateAt(a), run.rounds[a].now) + WindowMs(run.policy, run.StateAt(a).recentAborts);
             (forall m :: a <= m < p ==> run.rounds[m].now < end) && run.rounds[p].now >= end
    ensures var d := p + RoundsToDemote(run.policy);
            && Promotes(run, p) && Demotes(run, p, d)
            && (forall m :: a <= m < d ==> Undisturbed(run.RoundAt(m)))
            && (forall m :: p < m < d ==> Carries(run, m))
            && (run.rounds[d].now - PreferredFrom(run, p) < run.policy.stabilizeSecs * 3 * 1000
                && (forall m :: d < m <= j ==> !run.StateAt(m).broadband.Healthy?)
                && run.StateAt(j + 1).broadband.Healthy?
                ==> run.rounds[j].now - run.rounds[d].now >= 2 * (run.policy.stabilizeSecs * 1000))
  {
    hide Step, Filtered, LinkMeasured, HangsUp, Derived, Associated, Count, WindowMs, WindowStart, Undisturbed;
    var d := p + RoundsToDemote(run.policy);
    StepKeepsConsistent(INITIAL, run.rounds[0].obs, run.policy, run.rounds[0].now);
    ConsistentIsDerived(INITIAL);
    forall m | a <= m <= p ensures Undisturbed(run.RoundAt(m)) {
      WindowOfFiltered(run, a, m);
    }
    forall m | a < m <= p ensures !run.StateAt(m).broadband.Healthy? {
      WindowOfFiltered(run, a, m - 1);
    }
    NotEstablishedBefore(run, a, p);
    WindowOfFiltered(run, a, p);
    PromotedLinkIsCut(run, p);
    forall m | a <= m < d ensures Undisturbed(run.RoundAt(m)) {
      assert m > p ==> Carries(run, m);
    }
    WindowAtMostDoubles(run, p);
    if run.rounds[d].now - PreferredFrom(run, p) < run.policy.stabilizeSecs * 3 * 1000
       && (forall m :: d < m <= j ==> !run.StateAt(m).broadband.Healthy?) && run.StateAt(j + 1).broadband.Healthy?
    {
      NextPromotion(run, d, j);
    }
  }

  lemma ConsistentIsDerived(s: NetworkState)
    requires Consistent(s)
    ensures Derived(s)
  {
  }

  lemma WindowOfFiltered(run: Run, a: nat, m: nat)
    requires run.Timed() && run.start == INITIAL && run.policy.stabilizeSecs >= 1 && a <= m < |run.rounds|
    requires !run.StateAt(a).broadband.Established() && FilteredFrom(run, a, m + 1)
    requires var end := WindowStart(run.StateAt(a), run.rounds[a].now) + WindowMs(run.policy, run.StateAt(a).recentAborts);
             forall i :: a <= i < m ==> run.rounds[i].now < end
    ensures var end := WindowStart(run.StateAt(a), run.rounds[a].now) + WindowMs(run.policy, run.StateAt(a).recentAborts);
            Undisturbed(run.RoundAt(m)) && (run.StateAt(m + 1).broadband.Healthy? <==> run.rounds[m].now >= end)
  {
    hide Step, Filtered, LinkMeasured, Count, WindowMs, WindowStart;
    forall i | a <= i <= m ensures LinkMeasured(run.rounds[i].obs) {
      FilteredIsMeasured(run.rounds[i].obs);
    }
    ReachableVerificationWindow(run, a, m);
  }

  /** Inside the window a filtered link is never judged, so it is not Degraded when it is promoted. */
  lemma {:induction false} NotEstablishedBefore(run: Run, a: nat, k: nat)
    requires run.Timed() && a <= k < |run.rounds| && !run.StateAt(a).broadband.Established()
    requires FilteredFrom(run, a, k) && forall m :: a < m <= k ==> !run.StateAt(m).broadband.Healthy?
    ensures !run.StateAt(k).broadband.Established()
    decreases k
  {
    hide Step, Filtered;
    if a < k {
      NotEstablishedBefore(run, a, k - 1);
      assert Filtered(run.rounds[k - 1].obs);
      UnjudgedRound(run.StateAt(k - 1), run.rounds[k - 1].obs, run.policy, run.rounds[k - 1].now);
      assert run.StateAt(k) == run.RoundAt(k - 1).state;
    }
  }

  lemma UnjudgedRound(s: NetworkState, obs: NetworkObservation, policy: NetworkPolicy, now: int)
    requires policy.enabled && !s.broadband.Established() && Filtered(obs)
    ensures !Step(s, obs, policy, now).state.broadband.Degraded?
  {
    BroadbandRound(s, obs, policy, now);
    hide Step, Assessed, WindowMs;
  }

  lemma NextPromotion(run: Run, d: nat, j: nat)
    requires run.Timed() && d < j < |run.rounds| && run.StateAt(d + 1).recentAborts == 1
    requires run.StateAt(d).broadband.Healthy? && run.StateAt(d + 1).broadband.Degraded?
    requires forall m :: d < m <= j ==> !run.StateAt(m).broadband.Healthy?
    requires run.StateAt(j + 1).broadband.Healthy?
    ensures run.rounds[j].now - run.rounds[d].now >= 2 * (run.policy.stabilizeSecs * 1000)
  {
    hide Step;
    AbortsHoldUntilHealthy(run, d + 1, j);
    var i := PromotionNeedsWindow(run, d + 1, j);
  }
}
