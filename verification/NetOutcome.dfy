/** What a whole round decides, in terms of the observation itself: no law here speaks through the
    predicates and helper functions the machine decides with. */
module NetOutcome {
  import opened Prelude
  import opened NetModel
  import opened NetStep
  import opened NetObserved
  import opened NetStepLaws
  import opened NetRuns

  // --- Broadband ----------------------------------------------------------------------------------

  /** Whether Verifying has lasted its window, the start not being in the future. */
  predicate WindowOver(s: NetworkState, policy: NetworkPolicy, now: int) {
    var since := s.broadbandHealthySinceMs.GetOr(now);
    now - since >= policy.stabilizeSecs * 1000 + policy.stabilizeSecs * 1000 * s.recentAborts
  }

  lemma WindowIs(policy: NetworkPolicy, aborts: nat)
    ensures WindowMs(policy, aborts) == policy.stabilizeSecs * 1000 + policy.stabilizeSecs * 1000 * aborts
    ensures aborts == 0 ==> WindowMs(policy, aborts) == policy.stabilizeSecs * 1000
    ensures aborts == 1 ==> WindowMs(policy, aborts) == policy.stabilizeSecs * 2000
  {
  }

  /** What the round makes of broadband before any repair. */
  function Judged(s: NetworkState, obs: NetworkObservation, policy: NetworkPolicy, now: int): BroadbandState {
    var demoted := s.consecutiveFailures + 1 >= policy.failureQuorum && !s.broadband.Verifying?;
    if obs.rasDialing then BroadbandState.Authenticating
    else if !obs.rasConnected && s.broadband.Failed? then BroadbandState.Failed
    else if !obs.rasConnected then BroadbandState.Reconnecting
    else if Ran(obs) == 0 then s.broadband
    else if !Serves(s, obs, policy) then (if demoted then BroadbandState.Degraded else s.broadband)
    else if s.broadband.Healthy? || (s.broadband.Verifying? && WindowOver(s, policy, now)) then BroadbandState.Healthy
    else BroadbandState.Verifying
  }

  predicate PastStart(s: NetworkState, now: int) {
    s.broadbandHealthySinceMs.Some? ==> s.broadbandHealthySinceMs.value <= now
  }

  /** Measured rounds on a session are the only ones that count. */
  predicate Counts(obs: NetworkObservation) {
    obs.rasConnected && !obs.rasDialing && Ran(obs) > 0
  }

  lemma JudgedIs(s: NetworkState, obs: NetworkObservation, policy: NetworkPolicy, now: int)
    requires PastStart(s, now)
    ensures var h := HealthStage(s, obs, policy, now, BroadbandUsable(s.broadband.Established(), obs, policy));
            && h.broadband == Judged(s, obs, policy, now)
            && h.consecutiveFailures == (if !Counts(obs) then s.consecutiveFailures
                                         else if Serves(s, obs, policy) then 0 else s.consecutiveFailures + 1)
            && h.consecutiveSuccesses == (if !Counts(obs) then s.consecutiveSuccesses
                                          else if Serves(s, obs, policy) then s.consecutiveSuccesses + 1 else 0)
  {
    ServesIsUsable(s, obs, policy);
    WindowIs(policy, s.recentAborts);
    hide WindowMs, Serves, BroadbandUsable, ClassifyFailure, HeldBriefly;
  }

  /** A start in the future, as after a restored state, counts as long past: the 64-bit difference wraps, so the
      next round that serves promotes at once. */
  lemma FutureStartPromotes(s: NetworkState, obs: NetworkObservation, policy: NetworkPolicy, now: int)
    requires policy.enabled && s.broadband.Verifying? && Counts(obs) && Link(obs)
    requires s.broadbandHealthySinceMs.Some? && 0 < s.broadbandHealthySinceMs.value - now <= 0x8000_0000_0000_0000
    requires WindowMs(policy, s.recentAborts) <= 0x8000_0000_0000_0000
    ensures Step(s, obs, policy, now).state.broadband.Healthy?
  {
    hide WindowMs, Step;
    BroadbandRound(s, obs, policy, now);
  }

  /** The start of the stretch that broadband has been up for: new when Verifying is entered, gone with the
      session and with a demotion from Healthy, else kept. */
  lemma StartIs(s: NetworkState, obs: NetworkObservation, policy: NetworkPolicy, now: int)
    ensures var h := HealthStage(s, obs, policy, now, BroadbandUsable(s.broadband.Established(), obs, policy));
            h.broadbandHealthySinceMs ==
              if !obs.rasDialing && !obs.rasConnected then None
              else if s.broadband.Healthy? && h.broadband.Degraded? then None
              else if !s.broadband.Verifying? && !s.broadband.Healthy? && Counts(obs) && Serves(s, obs, policy) then Some(now)
              else s.broadbandHealthySinceMs
  {
    ServesIsUsable(s, obs, policy);
    hide WindowMs, Serves, BroadbandUsable, ClassifyFailure, HeldBriefly;
  }

  /** The counters and the start of a whole round, and its broadband state: what the round makes of it, or
      Failed when a repair is due, the failure on record is a refusal and an error was observed. */
  lemma BroadbandOutcome(s: NetworkState, obs: NetworkObservation, policy: NetworkPolicy, now: int)
    requires policy.enabled && PastStart(s, now)
    ensures var t := Step(s, obs, policy, now).state;
            && (t.broadband == Judged(s, obs, policy, now)
                || (t.broadband.Failed? && t.failureKind == Some(AuthenticationFailed) && obs.rasError.Some?))
            && t.consecutiveFailures == (if !Counts(obs) then s.consecutiveFailures
                                         else if Serves(s, obs, policy) then 0 else s.consecutiveFailures + 1)
            && t.consecutiveSuccesses == (if !Counts(obs) then s.consecutiveSuccesses
                                          else if Serves(s, obs, policy) then s.consecutiveSuccesses + 1 else 0)
  {
    hide Step, Assessed, HealthStage, OutageStage, RepairStage, Derived, Judged, Serves, Counts;
    var h := HealthStage(s, obs, policy, now, BroadbandUsable(s.broadband.Established(), obs, policy));
    var a := Assessed(s, obs, policy, now).state;
    JudgedIs(s, obs, policy, now);
    BroadbandRound(s, obs, policy, now);
    AssessedFrame(s, obs, policy, now);
    OutageStageFrame(h, obs, policy, now);
    RepairStageFrame(a, obs, policy, now);
    FailedIsRefused(a, obs, policy, now);
    StepFrame(s, obs, policy, now);
  }

  lemma FailedIsRefused(a: NetworkState, obs: NetworkObservation, policy: NetworkPolicy, now: int)
    ensures var r := RepairStage(a, obs, policy, now).state;
            r.broadband != a.broadband ==> r.broadband.Failed? && a.failureKind == Some(AuthenticationFailed) && obs.rasError.Some?
  {
    hide NeedRepair, DialDue, DialWait;
  }

  // --- The outage ---------------------------------------------------------------------------------

  /** Broadband counts as a session while it is Verifying, Healthy, Degraded or Reconnecting. */
  predicate InSession(b: BroadbandState) {
    b in {BroadbandState.Verifying, BroadbandState.Healthy, BroadbandState.Degraded, BroadbandState.Reconnecting}
  }

  /** The failure on record and the outage clock, from what the round made of broadband. */
  lemma OutageOutcome(s: NetworkState, obs: NetworkObservation, policy: NetworkPolicy, now: int)
    requires policy.enabled && PastStart(s, now)
    ensures var t := Step(s, obs, policy, now).state;
            var b := Judged(s, obs, policy, now);
            var kind := ClassifyFailure(obs, policy);
            && (InSession(b) ==> t.outageStartedMs == None && t.outageMs == 0)
            && (!InSession(b) && s.outageStartedMs.None? ==> t.outageStartedMs == Some(now) && t.outageMs == s.outageMs)
            && (!InSession(b) && s.outageStartedMs.Some? ==>
                  t.outageStartedMs == s.outageStartedMs && t.outageMs == now - s.outageStartedMs.value)
            && (b.Healthy? ==> t.failureKind == if s.broadband.Healthy? then
                                                  (if Counts(obs) && !Serves(s, obs, policy) then Some(kind) else s.failureKind)
                                                else None)
            && (InSession(b) && !b.Healthy? ==> t.failureKind == Some(kind))
            && (!InSession(b) && Counts(obs) && !Serves(s, obs, policy) ==> t.failureKind == Some(kind))
            && (!InSession(b) && !Counts(obs) ==>
                  t.failureKind == if s.outageStartedMs.None? then Some(s.failureKind.GetOr(kind)) else s.failureKind)
  {
    hide Step, Assessed, HealthStage, OutageStage, RepairStage, Derived, Judged, Serves, Counts, ClassifyFailure, InSession;
    var h := HealthStage(s, obs, policy, now, BroadbandUsable(s.broadband.Established(), obs, policy));
    var a := Assessed(s, obs, policy, now).state;
    JudgedIs(s, obs, policy, now);
    HealthStageFrame(s, obs, policy, now, BroadbandUsable(s.broadband.Established(), obs, policy));
    KindAfterHealth(s, obs, policy, now);
    OutageAfterHealth(h, obs, policy, now);
    AssessedFrame(s, obs, policy, now);
    RepairStageFrame(a, obs, policy, now);
    StepFrame(s, obs, policy, now);
  }

  lemma KindAfterHealth(s: NetworkState, obs: NetworkObservation, policy: NetworkPolicy, now: int)
    ensures var h := HealthStage(s, obs, policy, now, BroadbandUsable(s.broadband.Established(), obs, policy));
            h.failureKind ==
              if Counts(obs) && !Serves(s, obs, policy) then Some(ClassifyFailure(obs, policy))
              else if h.broadband.Healthy? && !s.broadband.Healthy? then None
              else s.failureKind
    ensures var h := HealthStage(s, obs, policy, now, BroadbandUsable(s.broadband.Established(), obs, policy));
            Counts(obs) && Serves(s, obs, policy) ==> h.broadband.Healthy? || h.broadband.Verifying?
    ensures var h := HealthStage(s, obs, policy, now, BroadbandUsable(s.broadband.Established(), obs, policy));
            h.broadband.Healthy? && !s.broadband.Healthy? ==> Counts(obs) && Serves(s, obs, policy)
  {
    ServesIsUsable(s, obs, policy);
    hide WindowMs, Serves, BroadbandUsable, ClassifyFailure, HeldBriefly;
  }

  lemma OutageAfterHealth(h: NetworkState, obs: NetworkObservation, policy: NetworkPolicy, now: int)
    ensures var o := OutageStage(h, obs, policy, now);
            var kind := ClassifyFailure(obs, policy);
            && (InSession(h.broadband) ==> o.outageStartedMs == None && o.outageMs == 0)
            && (!InSession(h.broadband) && h.outageStartedMs.None? ==> o.outageStartedMs == Some(now) && o.outageMs == h.outageMs)
            && (!InSession(h.broadband) && h.outageStartedMs.Some? ==>
                  o.outageStartedMs == h.outageStartedMs && o.outageMs == now - h.outageStartedMs.value)
            && o.failureKind == (if h.broadband.Healthy? then h.failureKind
                                 else if InSession(h.broadband) then Some(kind)
                                 else if h.outageStartedMs.None? then Some(h.failureKind.GetOr(kind)) else h.failureKind)
            && (h.broadband.Healthy? ==> InSession(h.broadband))
  {
    hide ClassifyFailure;
  }

  // --- Tearing a session down ---------------------------------------------------------------------

  /** Broadband ends the round inside its verification window. */
  predicate Sheltered(t: NetworkState, policy: NetworkPolicy, now: int) {
    && t.broadband in {BroadbandState.Verifying, BroadbandState.Reconnecting}
    && t.broadbandHealthySinceMs.Some?
    && now - t.broadbandHealthySinceMs.value
       < policy.stabilizeSecs * 1000 + policy.stabilizeSecs * 1000 * t.recentAborts
  }

  /** Another path is there, or none was in use. */
  predicate TearDownIsSafe(s: NetworkState, obs: NetworkObservation) {
    OnWifi(obs) || s.preference.Neither?
  }

  /** A session whose failure this round classifies: the round was measured, or broadband counted as one. */
  predicate Classified(s: NetworkState, obs: NetworkObservation) {
    obs.rasConnected && !obs.rasDialing && (Ran(obs) > 0 || InSession(s.broadband))
  }

  /** When exactly a session is torn down: it ends the round neither Healthy nor inside its window, the
      credentials are not refused, the failure is not above the session (a resolver fault, or too few probes
      passing), and tearing it down costs no path. So a link with no address or no route always is. */
  lemma HangUpExactly(s: NetworkState, obs: NetworkObservation, policy: NetworkPolicy, now: int)
    requires policy.enabled && policy.wifiEnabled && Classified(s, obs)
    ensures var t := Step(s, obs, policy, now);
            Count(t.actions, HangUpBroadband) ==
              Once(!t.state.broadband.Healthy? && !Sheltered(t.state, policy, now)
                   && !Refused(obs) && !AboveTheSession(obs, policy) && TearDownIsSafe(s, obs))
  {
    hide Step, Assessed, HealthStage, OutageStage, RepairStage, NeedRepair, Derived, ClassifyFailure, Judged, AboveTheSession,
         Refused, Sheltered, FailureKind.WarrantsRetry, FailureKind.WarrantsRedial;
    var a := Assessed(s, obs, policy, now).state;
    DisruptiveActions(s, obs, policy, now);
    BroadbandRound(s, obs, policy, now);
    StepFrame(s, obs, policy, now);
    RepairStageFrame(a, obs, policy, now);
    WifiUpIsObserved(s, obs, policy, now);
    ClassifiedKind(s, obs, policy, now);
    RedialCures(obs, policy);
    HangUpDecision(s, obs, policy, now);
  }

  lemma ClassifiedKind(s: NetworkState, obs: NetworkObservation, policy: NetworkPolicy, now: int)
    requires Classified(s, obs)
    ensures var a := Assessed(s, obs, policy, now).state;
            && (a.broadband.Healthy? || a.failureKind == Some(ClassifyFailure(obs, policy)))
            && a.preference == s.preference
  {
    hide ClassifyFailure, BroadbandUsable, WifiStage, WindowMs, HeldBriefly;
  }

  lemma HangUpDecision(s: NetworkState, obs: NetworkObservation, policy: NetworkPolicy, now: int)
    requires policy.enabled && obs.rasConnected && !obs.rasDialing
    requires var a := Assessed(s, obs, policy, now).state;
             a.broadband.Healthy? || a.failureKind == Some(ClassifyFailure(obs, policy))
    ensures var a := Assessed(s, obs, policy, now).state;
            var t := Step(s, obs, policy, now).state;
            var kind := ClassifyFailure(obs, policy);
            HangUpWanted(a, obs, policy, now) <==>
              && !t.broadband.Healthy? && !Sheltered(t, policy, now)
              && kind.WarrantsRetry() && kind.WarrantsRedial() && (a.wifi.IsUp() || a.preference.Neither?)
  {
    hide Step, Assessed, HealthStage, ClassifyFailure, WifiState.IsUp;
    var a := Assessed(s, obs, policy, now).state;
    BroadbandRound(s, obs, policy, now);
    StepFrame(s, obs, policy, now);
    RepairStageFrame(a, obs, policy, now);
    RefusedWithError(obs, policy);
    WindowIs(policy, a.recentAborts);
    SessionRepair(a, obs, policy, now);
  }

  lemma RefusedWithError(obs: NetworkObservation, policy: NetworkPolicy)
    ensures ClassifyFailure(obs, policy) == AuthenticationFailed ==> obs.rasError.Some?
    ensures ClassifyFailure(obs, policy).WarrantsRetry() <==> ClassifyFailure(obs, policy) != AuthenticationFailed
  {
    ClassificationIs(obs, policy);
    hide ClassifyFailure;
  }

  /** On a session the repair changes broadband only by giving up, when a repair is due. */
  lemma SessionRepair(a: NetworkState, obs: NetworkObservation, policy: NetworkPolicy, now: int)
    requires obs.rasConnected && !obs.rasDialing
    ensures var r := RepairStage(a, obs, policy, now).state;
            r.broadband == if NeedRepair(a, policy, now) && a.failureKind == Some(AuthenticationFailed) && obs.rasError.Some?
                           then BroadbandState.Failed else a.broadband
  {
    hide NeedRepair;
  }

  /** A resolver fault, or a link of which too few probes pass, never costs the session; a hang-up on a
      measured link therefore means that no probe passed, or that enough did and the link is unsettled. */
  lemma HangUpReadsTheProbes(s: NetworkState, obs: NetworkObservation, policy: NetworkPolicy, now: int)
    requires policy.wifiEnabled
    requires Count(Step(s, obs, policy, now).actions, HangUpBroadband) > 0 && Link(obs) && Ran(obs) > 0
    ensures !ResolverFault(obs) && !Refused(obs) && (Passed(obs) == 0 || Passed(obs) >= policy.failureQuorum)
  {
    if policy.enabled {
      NoStepCutsTheOnlyPath(s, obs, policy, now);
      hide Step, ResolverFault, Refused, Sheltered, Passed;
      HangUpExactly(s, obs, policy, now);
    }
  }

  // --- Dialling -------------------------------------------------------------------------------------

  /** When exactly a round without a session dials: unless it gives up on refused credentials, as soon as the
      last dial is a minimum interval old. */
  lemma DialExactly(s: NetworkState, obs: NetworkObservation, policy: NetworkPolicy, now: int)
    requires policy.enabled && !obs.rasConnected && !obs.rasDialing
    ensures var t := Step(s, obs, policy, now);
            var givenUp := t.state.failureKind == Some(AuthenticationFailed) && obs.rasError.Some?;
            Count(t.actions, DialBroadband) ==
              Once(!givenUp && (s.lastDialMs.None? || now - s.lastDialMs.value >= policy.minDialIntervalSecs * 1000))
  {
    hide Step, Assessed, HealthStage, NeedRepair;
    var a := Assessed(s, obs, policy, now).state;
    DisruptiveActions(s, obs, policy, now);
    BroadbandRound(s, obs, policy, now);
    NoSessionNeedsRepair(s, obs, policy, now);
  }

  lemma NoSessionNeedsRepair(s: NetworkState, obs: NetworkObservation, policy: NetworkPolicy, now: int)
    requires !obs.rasConnected && !obs.rasDialing
    ensures NeedRepair(Assessed(s, obs, policy, now).state, policy, now)
  {
    AssessedFrame(s, obs, policy, now);
    hide WindowMs, WifiStage, BroadbandUsable, ClassifyFailure;
  }

  // --- Wi-Fi ------------------------------------------------------------------------------------------

  /** The Wi-Fi start lies in the past. */
  predicate PastWifiStart(s: NetworkState, now: int) {
    s.wifiHealthySinceMs.Some? ==> s.wifiHealthySinceMs.value <= now
  }

  lemma WifiStageIs(s: NetworkState, obs: NetworkObservation, policy: NetworkPolicy, now: int)
    requires policy.wifiEnabled && PastWifiStart(s, now)
    ensures var a := Assessed(s, obs, policy, now);
            var since := s.wifiHealthySinceMs.GetOr(now);
            && a.state.wifi == (if !OnWifi(obs) then WifiState.Disconnected
                                else if !PathHolds(obs, policy.failureQuorum) then WifiState.Degraded
                                else if now - since < policy.wifiStabilizeSecs * 1000 then WifiState.Verifying
                                else if s.wifi.Continuity? || !Serves(s, obs, policy) then WifiState.Continuity
                                else WifiState.Healthy)
            && a.state.wifiHealthySinceMs == (if OnWifi(obs) then Some(since) else None)
            && a.state.wifiFailoverAttempted == (s.wifiFailoverAttempted || WifiWanted(s, obs, policy))
            && a.actions == (if WifiWanted(s, obs, policy) then [ConnectWifi] else [])
  {
    ServesIsUsable(s, obs, policy);
    QuorumIsReachable(obs, policy.failureQuorum);
    hide Serves, Passed, BroadbandUsable, NetworkObservation.QuorumOk, HealthStage, OutageStage;
  }

  /** Wi-Fi after a round: Continuity only while it carries the traffic, standing by otherwise once it has
      settled; Degraded with too few probes passing; and its start kept exactly while it is associated. */
  lemma WifiOutcome(s: NetworkState, obs: NetworkObservation, policy: NetworkPolicy, now: int)
    requires policy.enabled && policy.wifiEnabled && PastWifiStart(s, now)
    ensures var t := Step(s, obs, policy, now).state;
            var since := s.wifiHealthySinceMs.GetOr(now);
            && t.wifi == (if !OnWifi(obs) then WifiState.Disconnected
                          else if !PathHolds(obs, policy.failureQuorum) then WifiState.Degraded
                          else if now - since < policy.wifiStabilizeSecs * 1000 then WifiState.Verifying
                          else if !t.broadband.Healthy? && (s.wifi.Continuity? || !Serves(s, obs, policy)) then WifiState.Continuity
                          else WifiState.Healthy)
            && t.wifiHealthySinceMs == (if OnWifi(obs) then Some(since) else None)
            && t.wifiFailoverAttempted == (s.wifiFailoverAttempted || WifiWanted(s, obs, policy))
  {
    hide Step, Assessed, HealthStage, OutageStage, RepairStage, Serves, PathHolds, WifiWanted, Derived;
    var a := Assessed(s, obs, policy, now).state;
    WifiStageIs(s, obs, policy, now);
    RepairStageFrame(a, obs, policy, now);
    StepFrame(s, obs, policy, now);
    StandbyEnds(s, obs, policy, now);
  }

  lemma StandbyEnds(s: NetworkState, obs: NetworkObservation, policy: NetworkPolicy, now: int)
    requires policy.enabled
    ensures var t := Step(s, obs, policy, now).state;
            var a := Assessed(s, obs, policy, now).state;
            t.wifi == if t.broadband.Healthy? && a.wifi.Continuity? then WifiState.Healthy else a.wifi
  {
    hide Assessed, RepairStage;
    var a := Assessed(s, obs, policy, now).state;
    RepairStageFrame(a, obs, policy, now);
  }

  // --- Preference, timers and routes --------------------------------------------------------------------

  /** What is preferred and shown after a round, from the two uplinks alone. */
  lemma PreferenceOutcome(s: NetworkState, obs: NetworkObservation, policy: NetworkPolicy, now: int)
    requires policy.enabled
    ensures var t := Step(s, obs, policy, now).state;
            var wifiUp := t.wifi in {WifiState.Healthy, WifiState.Continuity, WifiState.Degraded, WifiState.Verifying};
            var recovering := t.broadband in {BroadbandState.Verifying, BroadbandState.Connecting,
                                              BroadbandState.Authenticating, BroadbandState.Reconnecting};
            && (t.preference == Broadband <==> t.broadband.Healthy?)
            && (t.preference == Wifi <==> !t.broadband.Healthy? && wifiUp)
            && (t.internet == BroadbandPrimary <==> t.broadband.Healthy?)
            && (t.internet == RecoveringBroadband <==> !t.broadband.Healthy? && wifiUp && recovering)
            && (t.internet == WifiContinuity <==> !t.broadband.Healthy? && wifiUp && !recovering)
            && (t.internet == Impaired <==> t.broadband.Degraded? && !wifiUp)
            && (t.internet == Offline <==> !t.broadband.Healthy? && !t.broadband.Degraded? && !wifiUp)
  {
    StepKeepsConsistent(s, obs, policy, now);
    hide Step;
  }

  /** What is shown for any two uplinks and any preference; with neither preferred it is impaired when either is
      degraded, which for Wi-Fi no round reaches. */
  lemma InternetStateIs(b: BroadbandState, w: WifiState, preference: UplinkPreference)
    ensures var shown := DeriveInternetState(b, w, preference);
            && (shown == Impaired <==> preference.Neither? && (b.Degraded? || w.Degraded?))
            && (shown == Offline <==> preference.Neither? && !b.Degraded? && !w.Degraded?)
            && (shown == BroadbandPrimary <==> preference.Broadband?)
            && (preference == ComputePreference(b, w) && shown == Impaired ==> b.Degraded?)
  {
  }

  /** The timers of the two preferences: each starts with its preference, is kept while it lasts, and is
      cleared by the other; with neither preferred both are kept. */
  lemma TimerOutcome(s: NetworkState, obs: NetworkObservation, policy: NetworkPolicy, now: int)
    requires policy.enabled
    ensures var t := Step(s, obs, policy, now).state;
            && t.broadbandPreferredSinceMs == (if t.preference.Broadband? then Some(s.broadbandPreferredSinceMs.GetOr(now))
                                               else if t.preference.Wifi? then None else s.broadbandPreferredSinceMs)
            && t.onWifiSinceMs == (if t.preference.Broadband? then None
                                   else if t.preference.Wifi? then Some(s.onWifiSinceMs.GetOr(now)) else s.onWifiSinceMs)
  {
    hide Assessed, RepairStage, ComputePreference, DeriveInternetState;
    TimersBefore(s, obs, policy, now);
  }

  /** No stage before the routes touches the timers. */
  lemma TimersBefore(s: NetworkState, obs: NetworkObservation, policy: NetworkPolicy, now: int)
    ensures var r := RepairStage(Assessed(s, obs, policy, now).state, obs, policy, now).state;
            r.broadbandPreferredSinceMs == s.broadbandPreferredSinceMs && r.onWifiSinceMs == s.onWifiSinceMs
  {
    hide HealthStage, OutageStage, RepairStage, WifiStage;
    var usable := BroadbandUsable(s.broadband.Established(), obs, policy);
    AssessedFrame(s, obs, policy, now);
    HealthStageFrame(s, obs, policy, now, usable);
    OutageStageFrame(HealthStage(s, obs, policy, now, usable), obs, policy, now);
    RepairStageFrame(Assessed(s, obs, policy, now).state, obs, policy, now);
  }

  /** The release of Wi-Fi: only in cold standby, with Healthy broadband that has a start, an associated Wi-Fi
      and no Wi-Fi route in place. */
  predicate ReleaseDue(t: NetworkState, obs: NetworkObservation, policy: NetworkPolicy) {
    !policy.wifiWarmStandby && t.broadband.Healthy? && t.broadbandHealthySinceMs.Some? && OnWifi(obs) && !obs.wifiRouteApplied
  }

  /** The repair actions of a round: nothing, a hang-up, a wait of one minimum interval, or a dial behind the
      scheduled wait of its attempt. */
  predicate RepairPart(s: NetworkState, policy: NetworkPolicy, actions: seq<NetworkAction>) {
    var base := [0, 1000, 2000, 4000, 8000, 15_000, 30_000, 60_000][Min(s.backoffIndex, 7)];
    var wait := base + base * (((s.dialAttempts * 2_654_435_761) % 0x1_0000_0000) % 1000 % 200) / 1000;
    || actions == [] || actions == [HangUpBroadband] || actions == [Wait(policy.minDialIntervalSecs * 1000)]
    || actions == (if wait > 0 then [Wait(wait), DialBroadband] else [DialBroadband])
  }

  lemma RepairPartIs(a: NetworkState, s: NetworkState, obs: NetworkObservation, policy: NetworkPolicy, now: int)
    requires (a.backoffIndex == s.backoffIndex && a.dialAttempts == s.dialAttempts) || a.broadband.Healthy?
    ensures RepairPart(s, policy, RepairStage(a, obs, policy, now).actions)
  {
    hide WindowMs, DialDue;
  }

  /** The actions of a round, in order: Wi-Fi is asked for first, then broadband is repaired, then the one route
      action follows, then Wi-Fi is released. */
  lemma ActionsInOrder(s: NetworkState, obs: NetworkObservation, policy: NetworkPolicy, now: int) returns (repair: seq<NetworkAction>)
    requires policy.enabled && policy.wifiEnabled && PastWifiStart(s, now)
    ensures var t := Step(s, obs, policy, now);
            && RepairPart(s, policy, repair)
            && t.actions ==
                 (if WifiWanted(s, obs, policy) then [ConnectWifi] else [])
                 + repair
                 + (if t.state.preference.Broadband? && !obs.broadbandRouteApplied then [PreferBroadband]
                    else if t.state.preference.Wifi? && !obs.wifiRouteApplied then [PreferWifi]
                    else if t.state.preference.Neither? && (obs.broadbandRouteApplied || obs.wifiRouteApplied)
                    then [ReleaseManagedRoutes] else [])
                 + (if ReleaseDue(t.state, obs, policy) then [DisconnectWifi] else [])
  {
    hide Step, Assessed, HealthStage, RepairStage, WifiWanted, RepairPart, ReleaseDue, Serves, PathHolds;
    var a := Assessed(s, obs, policy, now).state;
    repair := RepairStage(a, obs, policy, now).actions;
    WifiStageIs(s, obs, policy, now);
    BroadbandRound(s, obs, policy, now);
    RepairPartIs(a, s, obs, policy, now);
    ActionParts(s, obs, policy, now);
  }

  lemma ActionParts(s: NetworkState, obs: NetworkObservation, policy: NetworkPolicy, now: int)
    requires policy.enabled && policy.wifiEnabled
    ensures var a := Assessed(s, obs, policy, now);
            var t := Step(s, obs, policy, now);
            t.actions == a.actions + RepairStage(a.state, obs, policy, now).actions + RouteActions(t.state.preference, obs)
                         + (if ReleaseDue(t.state, obs, policy) then [DisconnectWifi] else [])
  {
    hide Assessed, RepairStage, ComputePreference, DeriveInternetState;
    var a := Assessed(s, obs, policy, now);
    var r := RepairStage(a.state, obs, policy, now);
    RepairStageFrame(a.state, obs, policy, now);
    WifiUpIsObserved(s, obs, policy, now);
    PreferenceOfHealthy(r.state.broadband, r.state.wifi);
  }

  /** Switched off, a round forgets the uplinks, keeps everything else and does nothing. */
  lemma DisabledRound(s: NetworkState, obs: NetworkObservation, policy: NetworkPolicy, now: int)
    requires !policy.enabled
    ensures Step(s, obs, policy, now) == Transition(
              s.(broadband := BroadbandState.Disconnected, wifi := WifiState.Disconnected, preference := Neither, internet := Offline), [])
  {
  }
}
