/** What every single round keeps and never does, from any state and on any observation. */
module NetStepLaws {
  import opened Prelude
  import opened NetModel
  import opened NetStep
  import opened NetObserved

  // One lemma per stage: which fields it leaves alone and what it does to the others.

  lemma WifiStageFrame(s: NetworkState, obs: NetworkObservation, policy: NetworkPolicy, now: int, usable: bool)
    ensures var w := WifiStage(s, obs, policy, now, usable);
            && w.state == WithWifi(s, w.state)
            && (w.state.wifi.IsUp() ==> obs.wifiConnected && obs.wifiHasIp)
            && (w.actions == [] || w.actions == [ConnectWifi])
            && (w.actions == [ConnectWifi] ==> !w.state.wifi.IsUp() && !usable)
  {
  }

  lemma HealthStageFrame(s: NetworkState, obs: NetworkObservation, policy: NetworkPolicy, now: int, usable: bool)
    ensures var h := HealthStage(s, obs, policy, now, usable);
            && h == s.(broadband := h.broadband, broadbandHealthySinceMs := h.broadbandHealthySinceMs,
                       consecutiveSuccesses := h.consecutiveSuccesses, consecutiveFailures := h.consecutiveFailures,
                       failureKind := h.failureKind, recentAborts := h.recentAborts)
            && (HasStart(s) ==> HasStart(h))
            && (h.broadband.Healthy? ==> s.broadband.Healthy? || s.broadband.Verifying?)
  {
    hide ClassifyFailure, BroadbandUsable;
  }

  lemma OutageStageFrame(s: NetworkState, obs: NetworkObservation, policy: NetworkPolicy, now: int)
    ensures var o := OutageStage(s, obs, policy, now);
            && o == s.(outageStartedMs := o.outageStartedMs, outageMs := o.outageMs, backoffIndex := o.backoffIndex,
                       dialAttempts := o.dialAttempts, recentAborts := o.recentAborts, failureKind := o.failureKind)
            && (if s.broadband.Healthy? then o.backoffIndex == o.dialAttempts == 0 && o.recentAborts == Max(s.recentAborts - 1, 0)
                else o.backoffIndex == s.backoffIndex && o.dialAttempts == s.dialAttempts && o.recentAborts == s.recentAborts)
  {
    hide ClassifyFailure;
  }

  lemma RepairStageFrame(s: NetworkState, obs: NetworkObservation, policy: NetworkPolicy, now: int)
    ensures var r := RepairStage(s, obs, policy, now);
            && r.state == s.(broadband := r.state.broadband, lastDialMs := r.state.lastDialMs,
                             dialAttempts := r.state.dialAttempts, backoffIndex := r.state.backoffIndex)
            && (r.state.broadband == s.broadband || (r.state.broadband.Failed? && !s.broadband.Healthy?))
            && (r.actions == [] || r.actions == [HangUpBroadband] || r.actions == DialActions(s)
                || r.actions == [Wait(policy.minDialIntervalSecs * 1000)])
  {
    hide WindowMs, DialWait;
  }

  lemma RouteStageFrame(s: NetworkState, obs: NetworkObservation, now: int)
    ensures var p := RouteStage(s, obs, now);
            && p.state == s.(preference := p.state.preference, internet := p.state.internet,
                             broadbandPreferredSinceMs := p.state.broadbandPreferredSinceMs,
                             onWifiSinceMs := p.state.onWifiSinceMs)
            && p.state.preference == ComputePreference(s.broadband, s.wifi)
            && p.state.internet == DeriveInternetState(s.broadband, s.wifi, p.state.preference)
            && (!BothTimers(s) ==> !BothTimers(p.state))
            && (s.broadband.Healthy? ==> p.state.broadbandPreferredSinceMs == Some(s.broadbandPreferredSinceMs.GetOr(now)))
            && (!s.broadband.Healthy? && p.state.broadbandPreferredSinceMs.Some? ==>
                  p.state.broadbandPreferredSinceMs == s.broadbandPreferredSinceMs)
            && p.actions == RouteActions(p.state.preference, obs)
  {
  }

  lemma StandbyStageFrame(s: NetworkState, obs: NetworkObservation, policy: NetworkPolicy)
    requires s.preference == ComputePreference(s.broadband, s.wifi)
    requires s.internet == DeriveInternetState(s.broadband, s.wifi, s.preference)
    requires s.broadband.Healthy? ==> s.broadbandPreferredSinceMs.Some?
    ensures var f := StandbyStage(s, obs, policy);
            && f.state == s.(wifi := f.state.wifi, onWifiSinceMs := f.state.onWifiSinceMs)
            && s.preference == ComputePreference(s.broadband, f.state.wifi)
            && s.internet == DeriveInternetState(s.broadband, f.state.wifi, s.preference)
            && (f.state.wifi.Continuity? ==> s.preference.Wifi?)
            && (!BothTimers(s) ==> !BothTimers(f.state))
            && (f.actions == [] || (f.actions == [DisconnectWifi] && s.broadband.Healthy?))
  {
  }

  predicate HasStart(s: NetworkState) {
    s.broadband.Verifying? || s.broadband.Healthy? ==> s.broadbandHealthySinceMs.Some?
  }

  predicate BothTimers(s: NetworkState) {
    s.onWifiSinceMs.Some? && s.broadbandPreferredSinceMs.Some?
  }

  /** The derived fields agree with the two uplinks. */
  predicate Derived(s: NetworkState) {
    && s.preference == ComputePreference(s.broadband, s.wifi)
    && s.internet == DeriveInternetState(s.broadband, s.wifi, s.preference)
    && (s.preference.Broadband? <==> s.broadband.Healthy?)
    && (s.wifi.Continuity? ==> s.preference.Wifi?)
  }

  predicate Consistent(s: NetworkState) {
    && Derived(s)
    && HasStart(s)
    && (s.broadband.Healthy? ==> s.broadbandPreferredSinceMs.Some?)
    && !BothTimers(s)
  }

  /** The state after a whole round, seen through the frames of its stages. */
  lemma StepFrame(s: NetworkState, obs: NetworkObservation, policy: NetworkPolicy, now: int)
    requires policy.enabled
    ensures var a := Assessed(s, obs, policy, now).state;
            var r := RepairStage(a, obs, policy, now).state;
            var t := Step(s, obs, policy, now).state;
            && Derived(t)
            && (HasStart(s) ==> HasStart(t))
            && (!BothTimers(s) ==> !BothTimers(t))
            && t == r.(wifi := t.wifi, preference := t.preference, internet := t.internet, onWifiSinceMs := t.onWifiSinceMs,
                       broadbandPreferredSinceMs := t.broadbandPreferredSinceMs)
            && t.preference == ComputePreference(r.broadband, a.wifi)
            && (t.broadband.Healthy? ==> t.broadbandPreferredSinceMs == Some(s.broadbandPreferredSinceMs.GetOr(now)))
            && (!t.broadband.Healthy? && t.broadbandPreferredSinceMs.Some? ==>
                  t.broadbandPreferredSinceMs == s.broadbandPreferredSinceMs)
  {
    hide HealthStage, OutageStage, RepairStage, RouteStage, StandbyStage, WifiStage, ComputePreference, DeriveInternetState;
    var usable := BroadbandUsable(s.broadband.Established(), obs, policy);
    var h := HealthStage(s, obs, policy, now, usable);
    var a := Assessed(s, obs, policy, now).state;
    var r := RepairStage(a, obs, policy, now).state;
    var p := RouteStage(r, obs, now).state;
    WifiStageFrame(s, obs, policy, now, usable);
    HealthStageFrame(s, obs, policy, now, usable);
    OutageStageFrame(h, obs, policy, now);
    RepairStageFrame(a, obs, policy, now);
    RouteStageFrame(r, obs, now);
    StandbyStageFrame(p, obs, policy);
    var t := StandbyStage(p, obs, policy).state;
    PreferenceOfHealthy(t.broadband, t.wifi);
  }

  predicate Associated(obs: NetworkObservation) {
    obs.wifiConnected && obs.wifiHasIp
  }

  predicate ConnectWanted(s: NetworkState, obs: NetworkObservation, policy: NetworkPolicy) {
    !Associated(obs) && ShouldConnectWifi(s, policy, BroadbandUsable(s.broadband.Established(), obs, policy))
  }

  /** The actions of a whole round: Wi-Fi, then repair, then at most one route action, then the
      standby release. */
  lemma StepActions(s: NetworkState, obs: NetworkObservation, policy: NetworkPolicy, now: int)
    returns (wifi: seq<NetworkAction>, route: seq<NetworkAction>, standby: seq<NetworkAction>)
    requires policy.enabled
    ensures var a := Assessed(s, obs, policy, now).state;
            var t := Step(s, obs, policy, now);
            && t.actions == wifi + RepairStage(a, obs, policy, now).actions + route + standby
            && wifi == (if policy.wifiEnabled && ConnectWanted(s, obs, policy) then [ConnectWifi] else [])
            && route == RouteActions(t.state.preference, obs)
            && (standby == [] || (standby == [DisconnectWifi] && t.state.broadband.Healthy?))
  {
    hide HealthStage, OutageStage, RepairStage, RouteStage, StandbyStage, ComputePreference, DeriveInternetState;
    var a := Assessed(s, obs, policy, now);
    var r := RepairStage(a.state, obs, policy, now);
    var p := RouteStage(r.state, obs, now);
    RouteStageFrame(r.state, obs, now);
    StandbyStageFrame(p.state, obs, policy);
    wifi, route, standby := a.actions, p.actions, StandbyStage(p.state, obs, policy).actions;
  }

  lemma AssessedFrame(s: NetworkState, obs: NetworkObservation, policy: NetworkPolicy, now: int)
    ensures var usable := BroadbandUsable(s.broadband.Established(), obs, policy);
            var o := OutageStage(HealthStage(s, obs, policy, now, usable), obs, policy, now);
            var a := Assessed(s, obs, policy, now).state;
            a == WithWifi(o, a)
  {
    hide HealthStage, OutageStage, WifiStage;
  }

  /** With Wi-Fi managed, the Wi-Fi uplink counts as up exactly when it was seen connected with an
      address. */
  lemma WifiUpIsObserved(s: NetworkState, obs: NetworkObservation, policy: NetworkPolicy, now: int)
    requires policy.wifiEnabled
    ensures Assessed(s, obs, policy, now).state.wifi.IsUp() <==> Associated(obs)
  {
    hide HealthStage, OutageStage;
  }

  lemma PreferenceOfHealthy(b: BroadbandState, w: WifiState)
    ensures ComputePreference(b, w).Broadband? <==> b.Healthy?
    ensures w.IsUp() && !b.Healthy? ==> ComputePreference(b, w).Wifi?
  {
  }

  /** Uplink consistency after every step: the derived fields are re-established from any state
      at all, the timer facts are kept. */
  lemma StepKeepsConsistent(s: NetworkState, obs: NetworkObservation, policy: NetworkPolicy, now: int)
    ensures Consistent(INITIAL)
    ensures Derived(Step(s, obs, policy, now).state)
    ensures Consistent(s) ==> Consistent(Step(s, obs, policy, now).state)
  {
    if policy.enabled {
      hide Assessed, HealthStage, OutageStage, RepairStage, RouteStage, StandbyStage;
      StepFrame(s, obs, policy, now);
    }
  }

  /** A measured round on a connected session is always classified afresh. */
  lemma MeasuredRoundIsClassified(s: NetworkState, obs: NetworkObservation, policy: NetworkPolicy, now: int)
    requires policy.enabled && obs.rasConnected && !obs.rasDialing && obs.Total() > 0
    ensures var a := Assessed(s, obs, policy, now).state;
            a.broadband.Healthy? || a.failureKind == Some(ClassifyFailure(obs, policy))
  {
    hide ClassifyFailure, BroadbandUsable, WifiStage;
  }

  lemma RepairActionShape(s: NetworkState, obs: NetworkObservation, policy: NetworkPolicy, now: int)
    ensures var actions := RepairStage(s, obs, policy, now).actions;
            && Count(actions, PreferBroadband) == Count(actions, PreferWifi) == Count(actions, ReleaseManagedRoutes) == 0
            && Count(actions, DisconnectWifi) == Count(actions, ConnectWifi) == 0
  {
    hide NeedRepair, DialDue, DialWait;
  }

  function Count(actions: seq<NetworkAction>, x: NetworkAction): nat {
    multiset(actions)[x]
  }

  lemma CountInParts(x: NetworkAction, a: seq<NetworkAction>, b: seq<NetworkAction>, c: seq<NetworkAction>, d: seq<NetworkAction>)
    ensures Count(a + b + c + d, x) == Count(a, x) + Count(b, x) + Count(c, x) + Count(d, x)
  {
  }

  /** At most one route action per round: exactly the one its new preference calls for, and none
      when that route is already in place. */
  lemma RouteActionsAgree(s: NetworkState, obs: NetworkObservation, policy: NetworkPolicy, now: int)
    requires policy.enabled
    ensures var t := Step(s, obs, policy, now);
            && Count(t.actions, PreferBroadband) == Once(t.state.preference.Broadband? && !obs.broadbandRouteApplied)
            && Count(t.actions, PreferWifi) == Once(t.state.preference.Wifi? && !obs.wifiRouteApplied)
            && Count(t.actions, ReleaseManagedRoutes)
               == Once(t.state.preference.Neither? && (obs.broadbandRouteApplied || obs.wifiRouteApplied))
  {
    hide Step, Assessed, RepairStage, RouteActions, ConnectWanted;
    var wifi, route, standby := StepActions(s, obs, policy, now);
    RouteActionShape(Step(s, obs, policy, now).state.preference, obs);
    var a := Assessed(s, obs, policy, now).state;
    var repair := RepairStage(a, obs, policy, now).actions;
    RepairActionShape(a, obs, policy, now);
    CountInParts(PreferBroadband, wifi, repair, route, standby);
    CountInParts(PreferWifi, wifi, repair, route, standby);
    CountInParts(ReleaseManagedRoutes, wifi, repair, route, standby);
  }

  lemma RouteActionShape(preference: UplinkPreference, obs: NetworkObservation)
    ensures var actions := RouteActions(preference, obs);
            && Count(actions, DialBroadband) == Count(actions, HangUpBroadband) == 0
            && Count(actions, DisconnectWifi) == Count(actions, ConnectWifi) == 0
            && Count(actions, PreferBroadband) == Once(preference.Broadband? && !obs.broadbandRouteApplied)
            && Count(actions, PreferWifi) == Once(preference.Wifi? && !obs.wifiRouteApplied)
            && Count(actions, ReleaseManagedRoutes)
               == Once(preference.Neither? && (obs.broadbandRouteApplied || obs.wifiRouteApplied))
  {
  }

  /** Dials and hang-ups come from the repair stage only, Wi-Fi releases from a healthy round. */
  lemma DisruptionSources(s: NetworkState, obs: NetworkObservation, policy: NetworkPolicy, now: int)
    requires policy.enabled
    ensures var repair := RepairStage(Assessed(s, obs, policy, now).state, obs, policy, now).actions;
            var t := Step(s, obs, policy, now);
            && Count(t.actions, DialBroadband) == Count(repair, DialBroadband)
            && Count(t.actions, HangUpBroadband) == Count(repair, HangUpBroadband)
            && (Count(t.actions, DisconnectWifi) > 0 ==> t.state.broadband.Healthy?)
  {
    hide Step, Assessed, RepairStage, RouteActions, ConnectWanted;
    var wifi, route, standby := StepActions(s, obs, policy, now);
    RouteActionShape(Step(s, obs, policy, now).state.preference, obs);
    var a := Assessed(s, obs, policy, now).state;
    var repair := RepairStage(a, obs, policy, now).actions;
    RepairActionShape(a, obs, policy, now);
    CountInParts(DialBroadband, wifi, repair, route, standby);
    CountInParts(HangUpBroadband, wifi, repair, route, standby);
    CountInParts(DisconnectWifi, wifi, repair, route, standby);
  }

  predicate RepairAllowed(a: NetworkState, obs: NetworkObservation, policy: NetworkPolicy, now: int) {
    && NeedRepair(a, policy, now)
    && !(a.failureKind == Some(AuthenticationFailed) && obs.rasError.Some?)
    && !obs.rasDialing
  }

  predicate HangUpWanted(a: NetworkState, obs: NetworkObservation, policy: NetworkPolicy, now: int) {
    && RepairAllowed(a, obs, policy, now) && obs.rasConnected
    && a.failureKind.GetOr(Unknown).WarrantsRedial()
    && (a.wifi.IsUp() || a.preference.Neither?)
  }

  predicate DialWanted(a: NetworkState, obs: NetworkObservation, policy: NetworkPolicy, now: int) {
    RepairAllowed(a, obs, policy, now) && !obs.rasConnected && DialDue(a, policy, now)
  }

  lemma RepairDecision(a: NetworkState, obs: NetworkObservation, policy: NetworkPolicy, now: int)
    ensures var actions := RepairStage(a, obs, policy, now).actions;
            && Count(actions, HangUpBroadband) == Once(HangUpWanted(a, obs, policy, now))
            && Count(actions, DialBroadband) == Once(DialWanted(a, obs, policy, now))
  {
    hide NeedRepair, DialWait;
  }

  /** When exactly a round asks for a hang-up or a dial, in terms of the assessed state. */
  lemma DisruptiveActions(s: NetworkState, obs: NetworkObservation, policy: NetworkPolicy, now: int)
    requires policy.enabled
    ensures var a := Assessed(s, obs, policy, now).state;
            var t := Step(s, obs, policy, now);
            && Count(t.actions, HangUpBroadband) == Once(HangUpWanted(a, obs, policy, now))
            && Count(t.actions, DialBroadband) == Once(DialWanted(a, obs, policy, now))
            && (Count(t.actions, DisconnectWifi) > 0 ==> t.state.broadband.Healthy?)
            && a.preference == s.preference && a.lastDialMs == s.lastDialMs
  {
    hide Step, Assessed, HealthStage, OutageStage, RepairStage, HangUpWanted, DialWanted;
    var usable := BroadbandUsable(s.broadband.Established(), obs, policy);
    AssessedFrame(s, obs, policy, now);
    HealthStageFrame(s, obs, policy, now, usable);
    OutageStageFrame(HealthStage(s, obs, policy, now, usable), obs, policy, now);
    RepairDecision(Assessed(s, obs, policy, now).state, obs, policy, now);
    DisruptionSources(s, obs, policy, now);
  }

  /** No step cuts the only path. */
  lemma NoStepCutsTheOnlyPath(s: NetworkState, obs: NetworkObservation, policy: NetworkPolicy, now: int)
    requires policy.wifiEnabled
    ensures var t := Step(s, obs, policy, now);
            var kind := ClassifyFailure(obs, policy);
            && (Count(t.actions, HangUpBroadband) > 0 ==>
                  && ((Associated(obs) && t.state.preference.Wifi?) || s.preference.Neither?)
                  && obs.rasConnected && !obs.rasDialing
                  && !kind.DnsOnlyFailure? && !kind.PartialConnectivity?
                  && !AboveTheSession(obs, policy) && !(Refused(obs) && Ran(obs) > 0))
            && (Count(t.actions, DisconnectWifi) > 0 ==> t.state.broadband.Healthy?)
            && (Count(t.actions, HangUpBroadband) == 0 || Count(t.actions, DialBroadband) == 0)
            && (Count(t.actions, HangUpBroadband) == 0 || Count(t.actions, DisconnectWifi) == 0)
            && (Count(t.actions, DialBroadband) == 0 || Count(t.actions, DisconnectWifi) == 0)
  {
    if policy.enabled {
      hide Step, Assessed, HealthStage, OutageStage, RepairStage, NeedRepair, ComputePreference;
      StepFrame(s, obs, policy, now);
      WifiUpIsObserved(s, obs, policy, now);
      DisruptiveActions(s, obs, policy, now);
      var a := Assessed(s, obs, policy, now).state;
      RepairStageFrame(a, obs, policy, now);
      PreferenceOfHealthy(RepairStage(a, obs, policy, now).state.broadband, a.wifi);
      if obs.rasConnected && !obs.rasDialing && obs.Total() > 0 {
        MeasuredRoundIsClassified(s, obs, policy, now);
      }
      RedialCures(obs, policy);
    }
  }

  /** At most one dial per round, and only with no session and no dial in flight. */
  lemma OneDialAtMost(s: NetworkState, obs: NetworkObservation, policy: NetworkPolicy, now: int)
    ensures var dials := Count(Step(s, obs, policy, now).actions, DialBroadband);
            && dials <= 1
            && (dials == 1 ==> !obs.rasConnected && !obs.rasDialing)
  {
    if policy.enabled {
      hide Step, Assessed;
      DisruptiveActions(s, obs, policy, now);
    }
  }

  lemma ConnectWantedIs(s: NetworkState, obs: NetworkObservation, policy: NetworkPolicy)
    ensures ConnectWanted(s, obs, policy) <==> WifiWanted(s, obs, policy)
  {
    ServesIsUsable(s, obs, policy);
    hide Serves, BroadbandUsable;
  }

  /** Continuity first: a round asks for Wi-Fi exactly when it is not associated and broadband is
      not usable (and, in cold standby, has failed often enough), always before anything else; and
      an associated Wi-Fi carries the traffic whenever broadband does not end Healthy. */
  lemma ContinuityFirst(s: NetworkState, obs: NetworkObservation, policy: NetworkPolicy, now: int)
    requires policy.enabled && policy.wifiEnabled
    ensures var t := Step(s, obs, policy, now);
            && Count(t.actions, ConnectWifi) == Once(WifiWanted(s, obs, policy))
            && (WifiWanted(s, obs, policy) ==> |t.actions| > 0 && t.actions[0] == ConnectWifi)
            && (Associated(obs) && !t.state.broadband.Healthy? ==> t.state.preference.Wifi? && !t.state.internet.Offline?)
  {
    hide Step, Assessed, RepairStage, RouteActions, ConnectWanted, WifiWanted;
    ConnectWantedIs(s, obs, policy);
    var wifi, route, standby := StepActions(s, obs, policy, now);
    RouteActionShape(Step(s, obs, policy, now).state.preference, obs);
    var a := Assessed(s, obs, policy, now).state;
    var repair := RepairStage(a, obs, policy, now).actions;
    RepairActionShape(a, obs, policy, now);
    CountInParts(ConnectWifi, wifi, repair, route, standby);
    WifiUpIsObserved(s, obs, policy, now);
    StepFrame(s, obs, policy, now);
    PreferenceOfHealthy(RepairStage(a, obs, policy, now).state.broadband, a.wifi);
  }
}
