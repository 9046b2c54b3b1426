/** The imperative form of one round: a copy of the state is edited field by field and actions
    are pushed in order, as in crates/guardian-core/src/net.rs. Each method is proved against
    the specification in `NetStep`. */
module NetMachine {
  import opened Prelude
  import opened NetModel
  import opened NetStep

  /** The counting loop decides exactly the declarative condition. */
  method DnsOnlyFailure(obs: NetworkObservation) returns (b: bool)
    ensures b == obs.DnsOnly()
  {
    var tcpTotal, tcpPassed, dnsTotal, dnsFailed := 0, 0, 0, 0;
    var ps := obs.probeResults;
    for n := 0 to |ps|
      invariant 0 <= tcpPassed <= tcpTotal && 0 <= dnsFailed <= dnsTotal
      invariant tcpTotal > 0 <==> exists i :: 0 <= i < n && ps[i].kind.Tcp?
      invariant tcpPassed == tcpTotal <==> forall i :: 0 <= i < n && ps[i].kind.Tcp? ==> ps[i].ok
      invariant dnsFailed > 0 <==> exists i :: 0 <= i < n && ps[i].kind.Dns? && !ps[i].ok
    {
      match ps[n].kind {
        case Tcp =>
          tcpTotal := tcpTotal + 1;
          if ps[n].ok { tcpPassed := tcpPassed + 1; }
        case Dns =>
          dnsTotal := dnsTotal + 1;
          if !ps[n].ok { dnsFailed := dnsFailed + 1; }
        case _ =>
      }
    }
    b := tcpTotal > 0 && tcpPassed == tcpTotal && dnsTotal > 0 && dnsFailed > 0;
  }

  method UpdateWifi(s0: NetworkState, obs: NetworkObservation, policy: NetworkPolicy, now: int, usable: bool)
    returns (s: NetworkState, actions: seq<NetworkAction>)
    ensures Transition(s, actions) == WifiStage(s0, obs, policy, now, usable)
  {
    s, actions := s0, [];
    if obs.wifiConnected && obs.wifiHasIp {
      var healthy := obs.Total() == 0 || obs.QuorumOk(policy.failureQuorum);
      if s.wifiHealthySinceMs.None? {
        s := s.(wifiHealthySinceMs := Some(now));
      }
      if healthy {
        var stableFor := AsU64(now - s.wifiHealthySinceMs.GetOr(now));
        if stableFor < policy.wifiStabilizeSecs * 1000 {
          s := s.(wifi := WifiState.Verifying);
        } else if usable {
          s := s.(wifi := if s.wifi.Continuity? then WifiState.Continuity else WifiState.Healthy);
        } else {
          s := s.(wifi := WifiState.Continuity);
        }
      } else {
        s := s.(wifi := WifiState.Degraded);
      }
    } else {
      s := s.(wifiHealthySinceMs := None);
      s := s.(wifi := WifiState.Disconnected);
      var shouldConnect := if policy.wifiWarmStandby then !usable
                           else !usable && s.consecutiveFailures >= policy.failureQuorum;
      if shouldConnect {
        actions := actions + [ConnectWifi];
        s := s.(wifiFailoverAttempted := true);
      }
    }
  }

  method AssessHealth(s0: NetworkState, obs: NetworkObservation, policy: NetworkPolicy, now: int, usable: bool)
    returns (s: NetworkState)
    ensures s == HealthStage(s0, obs, policy, now, usable)
  {
    s := s0;
    if obs.rasDialing {
      s := s.(broadband := BroadbandState.Authenticating);
    } else if !obs.rasConnected {
      if !s.broadband.Reconnecting? && !s.broadband.Failed? {
        s := s.(broadband := BroadbandState.Reconnecting);
      }
      s := s.(broadbandHealthySinceMs := None);
    } else if obs.Total() == 0 {
      // Nothing measured: hold the previous assessment.
    } else if usable {
      s := s.(consecutiveSuccesses := s.consecutiveSuccesses + 1);
      s := s.(consecutiveFailures := 0);
      match s.broadband {
        case Healthy =>
        case Verifying =>
          var stableFor := AsU64(now - s.broadbandHealthySinceMs.GetOr(now));
          var required := policy.stabilizeSecs * (1 + s.recentAborts);
          if stableFor >= required * 1000 {
            s := s.(broadband := BroadbandState.Healthy);
            s := s.(failureKind := None);
          }
        case _ =>
          s := s.(broadband := BroadbandState.Verifying);
          s := s.(broadbandHealthySinceMs := Some(now));
      }
    } else {
      s := s.(consecutiveFailures := s.consecutiveFailures + 1);
      s := s.(consecutiveSuccesses := 0);
      s := s.(failureKind := Some(ClassifyFailure(obs, policy)));
      if s.consecutiveFailures >= policy.failureQuorum {
        match s.broadband {
          case Verifying =>
          case Healthy =>
            if s0.broadbandPreferredSinceMs.Some? {
              var held := now - s0.broadbandPreferredSinceMs.value;
              if held < policy.stabilizeSecs * 3 * 1000 {
                s := s.(recentAborts := Min(s.recentAborts + 1, U32_MAX));
              }
            }
            s := s.(broadband := BroadbandState.Degraded);
            s := s.(broadbandHealthySinceMs := None);
          case _ =>
            s := s.(broadband := BroadbandState.Degraded);
        }
      }
    }
  }

  method TrackOutage(s0: NetworkState, obs: NetworkObservation, policy: NetworkPolicy, now: int)
    returns (s: NetworkState)
    ensures s == OutageStage(s0, obs, policy, now)
  {
    s := s0;
    if s.broadband.Healthy? {
      s := s.(outageStartedMs := None);
      s := s.(outageMs := 0);
      s := s.(backoffIndex := 0);
      s := s.(dialAttempts := 0);
      s := s.(recentAborts := Max(s.recentAborts - 1, 0));
    } else if s.broadband.SessionUp() {
      s := s.(failureKind := Some(ClassifyFailure(obs, policy)));
      s := s.(outageStartedMs := None);
      s := s.(outageMs := 0);
    } else if s.outageStartedMs.None? {
      s := s.(outageStartedMs := Some(now));
      if s.failureKind.None? {
        s := s.(failureKind := Some(ClassifyFailure(obs, policy)));
      }
    } else {
      s := s.(outageMs := now - s.outageStartedMs.GetOr(now));
    }
  }

  method Repair(s0: NetworkState, obs: NetworkObservation, policy: NetworkPolicy, now: int)
    returns (s: NetworkState, actions: seq<NetworkAction>)
    ensures Transition(s, actions) == RepairStage(s0, obs, policy, now)
  {
    s, actions := s0, [];
    var windowMs := policy.stabilizeSecs * (1 + s.recentAborts) * 1000;
    var inside := false;
    if (s.broadband.Verifying? || s.broadband.Reconnecting?) && s.broadbandHealthySinceMs.Some? {
      inside := now - s.broadbandHealthySinceMs.value < windowMs;
    }
    if !s.broadband.Healthy? && !inside {
      var kind := s.failureKind.GetOr(Unknown);
      if !kind.WarrantsRetry() && obs.rasError.Some? {
        s := s.(broadband := BroadbandState.Failed);
      } else if obs.rasDialing {
        // A dial is already in flight.
      } else if obs.rasConnected && kind.WarrantsRedial() {
        if s.wifi.IsUp() || s.preference.Neither? {
          actions := actions + [HangUpBroadband];
        }
      } else if obs.rasConnected {
        // Serviceable session: left to the continuity path.
      } else {
        var due := if s.lastDialMs.None? then true
                   else now - s.lastDialMs.value >= policy.minDialIntervalSecs * 1000;
        if due {
          var wait := ApplyJitter(BACKOFF_MS[Min(s.backoffIndex, LAST_BACKOFF)], JitterFor(s.dialAttempts));
          if wait > 0 {
            actions := actions + [Wait(wait)];
          }
          actions := actions + [DialBroadband];
          s := s.(lastDialMs := Some(now));
          s := s.(dialAttempts := s.dialAttempts + 1);
          s := s.(backoffIndex := Min(s.backoffIndex + 1, LAST_BACKOFF));
        } else {
          actions := actions + [Wait(policy.minDialIntervalSecs * 1000)];
        }
      }
    }
  }

  method ManageRoutes(s0: NetworkState, obs: NetworkObservation, now: int)
    returns (s: NetworkState, actions: seq<NetworkAction>)
    ensures Transition(s, actions) == RouteStage(s0, obs, now)
  {
    s, actions := s0, [];
    s := s.(preference := ComputePreference(s.broadband, s.wifi));
    s := s.(internet := DeriveInternetState(s.broadband, s.wifi, s.preference));
    match s.preference {
      case Broadband =>
        if !obs.broadbandRouteApplied {
          actions := actions + [PreferBroadband];
        }
        if obs.wifiRouteApplied {
          // Pushed and popped again, as in the source.
          actions := actions + [PreferWifi];
          actions := actions[..|actions| - 1];
        }
        if s.broadbandPreferredSinceMs.None? {
          s := s.(broadbandPreferredSinceMs := Some(now));
        }
        s := s.(onWifiSinceMs := None);
      case Wifi =>
        if s.onWifiSinceMs.None? {
          s := s.(onWifiSinceMs := Some(now));
        }
        if !obs.wifiRouteApplied {
          actions := actions + [PreferWifi];
        }
        s := s.(broadbandPreferredSinceMs := None);
      case Neither =>
        if obs.broadbandRouteApplied || obs.wifiRouteApplied {
          actions := actions + [ReleaseManagedRoutes];
        }
    }
  }

  method DemoteStandby(s0: NetworkState, obs: NetworkObservation, policy: NetworkPolicy)
    returns (s: NetworkState, actions: seq<NetworkAction>)
    ensures Transition(s, actions) == StandbyStage(s0, obs, policy)
  {
    s, actions := s0, [];
    if s.preference.Broadband? && s.wifi.Continuity? && s.broadbandPreferredSinceMs.Some? {
      s := s.(wifi := WifiState.Healthy);
      s := s.(onWifiSinceMs := None);
    }
    if !policy.wifiWarmStandby && s.preference.Broadband? && s.wifi.IsUp()
       && s.broadbandHealthySinceMs.Some? && !obs.wifiRouteApplied {
      actions := actions + [DisconnectWifi];
    }
  }

  lemma PassIgnoresWifi(s: NetworkState, w: NetworkState, policy: NetworkPolicy, now: int)
    ensures PassRound(WithWifi(s, w), policy, now) == WithWifi(PassRound(s, policy, now), w)
  {
    hide WindowMs;
  }

  lemma FailIgnoresWifi(s: NetworkState, w: NetworkState, obs: NetworkObservation, policy: NetworkPolicy, now: int)
    ensures FailRound(WithWifi(s, w), obs, policy, now) == WithWifi(FailRound(s, obs, policy, now), w)
  {
    hide ClassifyFailure;
  }

  /** The broadband assessment commutes with the Wi-Fi stage. */
  lemma HealthIgnoresWifi(s: NetworkState, w: NetworkState, obs: NetworkObservation, policy: NetworkPolicy,
                          now: int, usable: bool)
    ensures HealthStage(WithWifi(s, w), obs, policy, now, usable) == WithWifi(HealthStage(s, obs, policy, now, usable), w)
  {
    hide PassRound, FailRound;
    PassIgnoresWifi(s, w, policy, now);
    FailIgnoresWifi(s, w, obs, policy, now);
  }

  lemma OutageIgnoresWifi(s: NetworkState, w: NetworkState, obs: NetworkObservation, policy: NetworkPolicy, now: int)
    ensures OutageStage(WithWifi(s, w), obs, policy, now) == WithWifi(OutageStage(s, obs, policy, now), w)
  {
    hide ClassifyFailure;
  }

  method Evaluate(state: NetworkState, obs: NetworkObservation, policy: NetworkPolicy, now: int)
    returns (s: NetworkState, actions: seq<NetworkAction>)
    ensures Transition(s, actions) == Step(state, obs, policy, now)
  {
    hide HealthStage, OutageStage, RepairStage, RouteStage, StandbyStage;
    s, actions := state, [];
    if !policy.enabled {
      s := s.(broadband := BroadbandState.Disconnected, wifi := WifiState.Disconnected,
              preference := Neither, internet := Offline);
      return;
    }
    var alreadyEstablished := state.broadband.Healthy? || state.broadband.Degraded?;
    var linkUp := obs.rasConnected && obs.broadbandHasIp && obs.broadbandDefaultRoute;
    var probesProvePath := obs.Total() == 0 || obs.QuorumOk(policy.failureQuorum);
    var usable := if alreadyEstablished then linkUp && probesProvePath else linkUp;
    assert usable == BroadbandUsable(state.broadband.Established(), obs, policy);

    var more;
    if policy.wifiEnabled {
      s, more := UpdateWifi(s, obs, policy, now, usable);
      actions := actions + more;
    }
    ghost var w := s;
    assert w == WithWifi(state, w);
    s := AssessHealth(s, obs, policy, now, usable);
    HealthIgnoresWifi(state, w, obs, policy, now, usable);
    s := TrackOutage(s, obs, policy, now);
    OutageIgnoresWifi(HealthStage(state, obs, policy, now, usable), w, obs, policy, now);
    assert Transition(s, actions) == Assessed(state, obs, policy, now);
    s, more := Repair(s, obs, policy, now);
    actions := actions + more;
    s, more := ManageRoutes(s, obs, now);
    actions := actions + more;
    s, more := DemoteStandby(s, obs, policy);
    actions := actions + more;
  }
}
