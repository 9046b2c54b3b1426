/** The specification of one evaluation round as a composition of its six stages
    (crates/guardian-core/src/net.rs, lines 640-1133). `NetMachine.Evaluate` is the
    step-by-step form. */
module NetStep {
  import opened Prelude
  import opened NetModel

  /** Whether broadband passes this round: an established link must also pass its probes. */
  predicate BroadbandUsable(established: bool, obs: NetworkObservation, policy: NetworkPolicy) {
    obs.LinkUp() && (established ==> obs.Total() == 0 || obs.QuorumOk(policy.failureQuorum))
  }

  // Stage 1: Wi-Fi continuity.

  function NextWifi(s: NetworkState, obs: NetworkObservation, policy: NetworkPolicy, now: int, usable: bool): WifiState {
    var since := s.wifiHealthySinceMs.GetOr(now);
    if !(obs.wifiConnected && obs.wifiHasIp) then WifiState.Disconnected
    else if obs.Total() > 0 && !obs.QuorumOk(policy.failureQuorum) then WifiState.Degraded
    else if AsU64(now - since) < policy.wifiStabilizeSecs * 1000 then WifiState.Verifying
    else if !usable || s.wifi.Continuity? then WifiState.Continuity
    else WifiState.Healthy
  }

  predicate ShouldConnectWifi(s: NetworkState, policy: NetworkPolicy, usable: bool) {
    !usable && (policy.wifiWarmStandby || s.consecutiveFailures >= policy.failureQuorum)
  }

  function WifiStage(s: NetworkState, obs: NetworkObservation, policy: NetworkPolicy, now: int, usable: bool): Transition {
    var wifi := NextWifi(s, obs, policy, now, usable);
    if obs.wifiConnected && obs.wifiHasIp then
      Transition(s.(wifi := wifi, wifiHealthySinceMs := Some(s.wifiHealthySinceMs.GetOr(now))), [])
    else if ShouldConnectWifi(s, policy, usable) then
      Transition(s.(wifi := wifi, wifiHealthySinceMs := None, wifiFailoverAttempted := true), [ConnectWifi])
    else
      Transition(s.(wifi := wifi, wifiHealthySinceMs := None), [])
  }

  // Stage 2: broadband health.

  /** The verification window in milliseconds, widened once per remembered abort. */
  function WindowMs(policy: NetworkPolicy, aborts: nat): nat {
    policy.stabilizeSecs * (1 + aborts) * 1000
  }

  function PassRound(s: NetworkState, policy: NetworkPolicy, now: int): NetworkState {
    var t := s.(consecutiveSuccesses := s.consecutiveSuccesses + 1, consecutiveFailures := 0);
    match s.broadband
    case Healthy => t
    case Verifying =>
      if AsU64(now - s.broadbandHealthySinceMs.GetOr(now)) >= WindowMs(policy, s.recentAborts)
      then t.(broadband := BroadbandState.Healthy, failureKind := None)
      else t
    case _ => t.(broadband := BroadbandState.Verifying, broadbandHealthySinceMs := Some(now))
  }

  /** A demotion this soon after the recorded preferred-since counts as an abort. */
  predicate HeldBriefly(s: NetworkState, policy: NetworkPolicy, now: int) {
    s.broadbandPreferredSinceMs.Some? && now - s.broadbandPreferredSinceMs.value < policy.stabilizeSecs * 3 * 1000
  }

  function FailRound(s: NetworkState, obs: NetworkObservation, policy: NetworkPolicy, now: int): NetworkState {
    var t := s.(consecutiveFailures := s.consecutiveFailures + 1, consecutiveSuccesses := 0,
                failureKind := Some(ClassifyFailure(obs, policy)));
    if t.consecutiveFailures < policy.failureQuorum then t
    else
      match s.broadband
      case Verifying => t
      case Healthy =>
        t.(broadband := BroadbandState.Degraded, broadbandHealthySinceMs := None,
           recentAborts := if HeldBriefly(s, policy, now) then Min(s.recentAborts + 1, U32_MAX) else s.recentAborts)
      case _ => t.(broadband := BroadbandState.Degraded)
  }

  function HealthStage(s: NetworkState, obs: NetworkObservation, policy: NetworkPolicy, now: int, usable: bool): NetworkState {
    if obs.rasDialing then s.(broadband := BroadbandState.Authenticating)
    else if !obs.rasConnected then
      var b := if s.broadband.Failed? then BroadbandState.Failed else BroadbandState.Reconnecting;
      s.(broadband := b, broadbandHealthySinceMs := None)
    else if obs.Total() == 0 then s
    else if usable then PassRound(s, policy, now)
    else FailRound(s, obs, policy, now)
  }

  // Stage 3: the outage window and the only reset of the retry schedule.

  function OutageStage(s: NetworkState, obs: NetworkObservation, policy: NetworkPolicy, now: int): NetworkState {
    if s.broadband.Healthy? then
      s.(outageStartedMs := None, outageMs := 0, backoffIndex := 0, dialAttempts := 0,
         recentAborts := Max(s.recentAborts - 1, 0))
    else if s.broadband.SessionUp() then
      s.(failureKind := Some(ClassifyFailure(obs, policy)), outageStartedMs := None, outageMs := 0)
    else if s.outageStartedMs.None? then
      s.(outageStartedMs := Some(now), failureKind := Some(s.failureKind.GetOr(ClassifyFailure(obs, policy))))
    else
      s.(outageMs := now - s.outageStartedMs.value)
  }

  // Stage 4: repair.

  predicate InsideWindow(s: NetworkState, policy: NetworkPolicy, now: int) {
    && (s.broadband.Verifying? || s.broadband.Reconnecting?)
    && s.broadbandHealthySinceMs.Some?
    && now - s.broadbandHealthySinceMs.value < WindowMs(policy, s.recentAborts)
  }

  predicate NeedRepair(s: NetworkState, policy: NetworkPolicy, now: int) {
    !s.broadband.Healthy? && !InsideWindow(s, policy, now)
  }

  predicate DialDue(s: NetworkState, policy: NetworkPolicy, now: int) {
    s.lastDialMs.Some? ==> now - s.lastDialMs.value >= policy.minDialIntervalSecs * 1000
  }

  function DialActions(s: NetworkState): seq<NetworkAction> {
    var wait := DialWait(s.backoffIndex, s.dialAttempts);
    if wait > 0 then [Wait(wait), DialBroadband] else [DialBroadband]
  }

  function Dial(s: NetworkState, now: int): Transition {
    Transition(s.(lastDialMs := Some(now), dialAttempts := s.dialAttempts + 1,
                  backoffIndex := Min(s.backoffIndex + 1, LAST_BACKOFF)),
               DialActions(s))
  }

  function RepairStage(s: NetworkState, obs: NetworkObservation, policy: NetworkPolicy, now: int): Transition {
    var kind := s.failureKind.GetOr(Unknown);
    if !NeedRepair(s, policy, now) then Transition(s, [])
    else if !kind.WarrantsRetry() && obs.rasError.Some? then
      Transition(s.(broadband := BroadbandState.Failed), [])
    else if obs.rasDialing then Transition(s, [])
    else if obs.rasConnected then
      Transition(s, if kind.WarrantsRedial() && (s.wifi.IsUp() || s.preference.Neither?) then [HangUpBroadband] else [])
    else if DialDue(s, policy, now) then Dial(s, now)
    else Transition(s, [Wait(policy.minDialIntervalSecs * 1000)])
  }

  // Stage 5: preference and routes.

  /** The one route action a preference calls for, unless it is in place already. */
  function RouteActions(preference: UplinkPreference, obs: NetworkObservation): seq<NetworkAction> {
    match preference
    case Broadband => if obs.broadbandRouteApplied then [] else [PreferBroadband]
    case Wifi => if obs.wifiRouteApplied then [] else [PreferWifi]
    case Neither => if obs.broadbandRouteApplied || obs.wifiRouteApplied then [ReleaseManagedRoutes] else []
  }

  function RouteStage(s: NetworkState, obs: NetworkObservation, now: int): Transition {
    var preference := ComputePreference(s.broadband, s.wifi);
    var t := s.(preference := preference, internet := DeriveInternetState(s.broadband, s.wifi, preference));
    var timed := match preference
      case Broadband =>
        t.(broadbandPreferredSinceMs := Some(s.broadbandPreferredSinceMs.GetOr(now)), onWifiSinceMs := None)
      case Wifi =>
        t.(onWifiSinceMs := Some(s.onWifiSinceMs.GetOr(now)), broadbandPreferredSinceMs := None)
      case Neither => t;
    Transition(timed, RouteActions(preference, obs))
  }

  // Stage 6: Wi-Fi standby.

  function StandbyStage(s: NetworkState, obs: NetworkObservation, policy: NetworkPolicy): Transition {
    var t := if s.preference.Broadband? && s.wifi.Continuity? && s.broadbandPreferredSinceMs.Some?
             then s.(wifi := WifiState.Healthy, onWifiSinceMs := None) else s;
    var release := !policy.wifiWarmStandby && t.preference.Broadband? && t.wifi.IsUp()
                   && t.broadbandHealthySinceMs.Some? && !obs.wifiRouteApplied;
    Transition(t, if release then [DisconnectWifi] else [])
  }

  /** The state after stages 1 to 3 with the Wi-Fi action: the broadband assessment never reads
      a Wi-Fi field, so the two are written side by side. */
  function Assessed(s: NetworkState, obs: NetworkObservation, policy: NetworkPolicy, now: int): Transition {
    var usable := BroadbandUsable(s.broadband.Established(), obs, policy);
    var b := OutageStage(HealthStage(s, obs, policy, now, usable), obs, policy, now);
    if policy.wifiEnabled then
      var w := WifiStage(s, obs, policy, now, usable);
      Transition(WithWifi(b, w.state), w.actions)
    else
      Transition(b, [])
  }

  /** `b` with the three fields the Wi-Fi stage owns taken from `w`. */
  function WithWifi(b: NetworkState, w: NetworkState): NetworkState {
    b.(wifi := w.wifi, wifiHealthySinceMs := w.wifiHealthySinceMs, wifiFailoverAttempted := w.wifiFailoverAttempted)
  }

  function Step(s: NetworkState, obs: NetworkObservation, policy: NetworkPolicy, now: int): Transition {
    if !policy.enabled then
      Transition(s.(broadband := BroadbandState.Disconnected, wifi := WifiState.Disconnected,
                    preference := Neither, internet := Offline), [])
    else
      var a := Assessed(s, obs, policy, now);
      var r := RepairStage(a.state, obs, policy, now);
      var p := RouteStage(r.state, obs, now);
      var f := StandbyStage(p.state, obs, policy);
      Transition(f.state, a.actions + r.actions + p.actions + f.actions)
  }
}
