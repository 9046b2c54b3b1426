/** What a round observed, written out: the vocabulary of the laws that do not speak through the predicates
    the machine decides with, and how those predicates read in it. */
module NetObserved {
  import opened Prelude
  import opened NetModel
  import opened NetStep

  predicate Link(obs: NetworkObservation) {
    obs.rasConnected && obs.broadbandHasIp && obs.broadbandDefaultRoute
  }

  /** Credentials were refused. */
  predicate Refused(obs: NetworkObservation) {
    obs.rasError.Some? && obs.rasError.value in {691, 812}
  }

  function PassedProbes(probes: seq<ProbeOutcome>): set<int> {
    set i | 0 <= i < |probes| && probes[i].ok
  }

  function Passed(obs: NetworkObservation): nat {
    |PassedProbes(obs.probeResults)|
  }

  function Ran(obs: NetworkObservation): nat {
    |obs.probeResults|
  }

  predicate ProbeRan(obs: NetworkObservation, kind: ProbeKind, ok: bool) {
    exists p :: p in obs.probeResults && p.kind == kind && p.ok == ok
  }

  /** Every connectivity probe passed, and at least one ran; some resolver probe failed. */
  predicate ResolverFault(obs: NetworkObservation) {
    ProbeRan(obs, Tcp, true) && !ProbeRan(obs, Tcp, false) && ProbeRan(obs, Dns, false)
  }

  /** Unmeasured, or at least one probe passed and as many as asked for, or all. */
  predicate PathHolds(obs: NetworkObservation, quorum: nat) {
    Ran(obs) == 0 || (Passed(obs) >= 1 && (Passed(obs) >= quorum || Passed(obs) == Ran(obs)))
  }

  /** Whether the round speaks for broadband: the link, and the probes once it was judged before. */
  predicate Serves(s: NetworkState, obs: NetworkObservation, policy: NetworkPolicy) {
    Link(obs) && (s.broadband in {BroadbandState.Healthy, BroadbandState.Degraded} ==> PathHolds(obs, policy.failureQuorum))
  }

  predicate OnWifi(obs: NetworkObservation) {
    obs.wifiConnected && obs.wifiHasIp
  }

  lemma {:induction false} PassesAreCounted(probes: seq<ProbeOutcome>)
    ensures CountOk(probes) == |PassedProbes(probes)| <= |probes|
  {
    if probes != [] {
      var n := |probes| - 1;
      PassesAreCounted(probes[..n]);
      assert PassedProbes(probes) == PassedProbes(probes[..n]) + (if probes[n].ok then {n} else {});
    }
  }

  /** The quorum is met by enough passes or by all of them, never by none; it is never out of reach. */
  lemma QuorumIsReachable(obs: NetworkObservation, required: nat)
    ensures obs.QuorumOk(required) <==> Ran(obs) > 0 && PathHolds(obs, required)
  {
    PassesAreCounted(obs.probeResults);
    hide CountOk, PassedProbes;
  }

  lemma ResolverFaultIsDnsOnly(obs: NetworkObservation)
    ensures obs.DnsOnly() <==> ResolverFault(obs)
    ensures ResolverFault(obs) ==> Passed(obs) >= 1
  {
    if ResolverFault(obs) {
      var p :| p in obs.probeResults && p.kind == Tcp && p.ok;
      var i :| 0 <= i < |obs.probeResults| && obs.probeResults[i] == p;
      assert i in PassedProbes(obs.probeResults);
      forall j | 0 <= j < |obs.probeResults| && obs.probeResults[j].kind.Tcp? ensures obs.probeResults[j].ok {
        assert obs.probeResults[j] in obs.probeResults;
      }
    }
    if obs.DnsOnly() {
      assert exists i :: 0 <= i < |obs.probeResults| && obs.probeResults[i].kind.Tcp? && obs.probeResults[i].ok;
    }
  }

  lemma ServesIsUsable(s: NetworkState, obs: NetworkObservation, policy: NetworkPolicy)
    ensures BroadbandUsable(s.broadband.Established(), obs, policy) <==> Serves(s, obs, policy)
  {
    QuorumIsReachable(obs, policy.failureQuorum);
    hide Passed, NetworkObservation.QuorumOk;
  }

  // --- Why broadband is unhealthy ---------------------------------------------------------------

  /** When exactly each kind of failure is recorded. */
  lemma ClassificationIs(obs: NetworkObservation, policy: NetworkPolicy)
    ensures var kind := ClassifyFailure(obs, policy);
            var judged := !Refused(obs) && Link(obs) && Ran(obs) > 0;
            && (kind == AuthenticationFailed <==> Refused(obs))
            && (kind == PppoeSessionLost <==> !Refused(obs) && !obs.rasConnected)
            && (kind == NoIpConfiguration <==> !Refused(obs) && obs.rasConnected && !obs.broadbandHasIp)
            && (kind == RouteFailure <==>
                  !Refused(obs) && obs.rasConnected && obs.broadbandHasIp && !obs.broadbandDefaultRoute)
            && (kind == DnsOnlyFailure <==> judged && ResolverFault(obs))
            && (kind == UpstreamConnectivityFailure <==> judged && Passed(obs) == 0)
            && (kind == PartialConnectivity <==>
                  judged && !ResolverFault(obs) && 0 < Passed(obs) < policy.failureQuorum)
  {
    PassesAreCounted(obs.probeResults);
    ResolverFaultIsDnsOnly(obs);
    hide ResolverFault, NetworkObservation.DnsOnly, CountOk, PassedProbes;
  }

  /** A failure that a new session would not cure: a resolver fault, or some probes passing but too few. */
  predicate AboveTheSession(obs: NetworkObservation, policy: NetworkPolicy) {
    Link(obs) && Ran(obs) > 0 && (ResolverFault(obs) || 0 < Passed(obs) < policy.failureQuorum)
  }

  lemma RedialCures(obs: NetworkObservation, policy: NetworkPolicy)
    ensures var kind := ClassifyFailure(obs, policy);
            && (kind.WarrantsRetry() <==> !Refused(obs))
            && (!Refused(obs) ==> (kind.WarrantsRedial() <==> !AboveTheSession(obs, policy)))
  {
    ClassificationIs(obs, policy);
    hide ClassifyFailure, ResolverFault, Passed;
  }

  /** Broadband cannot serve and, in cold standby, has failed often enough before. */
  predicate WifiWanted(s: NetworkState, obs: NetworkObservation, policy: NetworkPolicy) {
    !OnWifi(obs) && !Serves(s, obs, policy) && (policy.wifiWarmStandby || s.consecutiveFailures >= policy.failureQuorum)
  }
}
