/** Data of the broadband/Wi-Fi failover machine and the pure judgements made on one
    observation (crates/guardian-core/src/net.rs, lines 31-629 and 1141-1153). */
module NetModel {
  import opened Prelude

  datatype BroadbandState =
    Disconnected | Connecting | Authenticating | Verifying | Healthy | Degraded | Reconnecting | Failed
  {
    /** Reconnecting counts as "session up", as in the source. */
    predicate SessionUp() {
      Verifying? || Healthy? || Degraded? || Reconnecting?
    }

    /** Already judged on probe evidence once. */
    predicate Established() {
      Healthy? || Degraded?
    }
  }

  datatype WifiState =
    Disconnected | Connecting | Authenticating | Verifying | Healthy | Continuity | Degraded | Failed
  {
    predicate IsUp() {
      Healthy? || Continuity? || Degraded? || Verifying?
    }
  }

  /** `Neither` is the source's `UplinkPreference::None`. */
  datatype UplinkPreference = Broadband | Wifi | Neither

  /** `Impaired` is the source's `InternetState::Degraded`. */
  datatype InternetState =
    BroadbandPrimary | WifiContinuity | RecoveringBroadband | Impaired | Offline

  datatype FailureKind =
    | PppoeSessionLost
    | AuthenticationFailed
    | NoIpConfiguration
    | RouteFailure
    | DnsOnlyFailure
    | UpstreamConnectivityFailure
    | HighPacketLoss
    | PartialConnectivity
    | Unknown
  {
    predicate WarrantsRedial() {
      !DnsOnlyFailure? && !PartialConnectivity?
    }

    predicate WarrantsRetry() {
      !AuthenticationFailed?
    }
  }

  datatype ProbeOutcome = ProbeOutcome(id: string, kind: ProbeKind, ok: bool)

  /** One round's observation. The two interface metrics, the probe latencies and the probe
      error texts are never read by the machine and are dropped. */
  datatype NetworkObservation = NetworkObservation(
    rasConnected: bool,
    rasDialing: bool,
    rasError: Option<nat>,
    broadbandHasIp: bool,
    broadbandDefaultRoute: bool,
    broadbandRouteApplied: bool,
    wifiConnected: bool,
    wifiHasIp: bool,
    wifiRouteApplied: bool,
    probeResults: seq<ProbeOutcome>)
  {
    function Passes(): (n: nat)
      ensures n <= |probeResults|
    {
      CountOk(probeResults)
    }

    function Total(): nat {
      |probeResults|
    }

    /** A quorum passed, the requirement clamped to the probes that ran. */
    predicate QuorumOk(required: nat) {
      Total() > 0 && Passes() >= Clamp(required, 1, Total())
    }

    /** Resolution alone is failing: some TCP probe ran, every TCP probe passed and some DNS
        probe failed. */
    predicate DnsOnly() {
      && (exists i :: 0 <= i < |probeResults| && probeResults[i].kind.Tcp?)
      && (forall i :: 0 <= i < |probeResults| && probeResults[i].kind.Tcp? ==> probeResults[i].ok)
      && (exists i :: 0 <= i < |probeResults| && probeResults[i].kind.Dns? && !probeResults[i].ok)
    }

    /** Evidence from the interface and routing layers only. */
    predicate LinkUp() {
      rasConnected && broadbandHasIp && broadbandDefaultRoute
    }

    predicate Rejected() {
      rasError == Some(691) || rasError == Some(812)
    }
  }

  function CountOk(probes: seq<ProbeOutcome>): (n: nat)
    ensures n <= |probes|
  {
    if probes == [] then 0
    else CountOk(probes[..|probes| - 1]) + (if probes[|probes| - 1].ok then 1 else 0)
  }

  datatype NetworkPolicy = NetworkPolicy(
    enabled: bool,
    wifiEnabled: bool,
    wifiWarmStandby: bool,
    failureQuorum: nat,
    stabilizeSecs: nat,
    wifiStabilizeSecs: nat,
    minDialIntervalSecs: nat)

  /** The retry schedule in milliseconds. */
  const BACKOFF_MS: seq<nat> := [0, 1000, 2000, 4000, 8000, 15000, 30000, 60000]

  const LAST_BACKOFF: nat := 7

  /** All machine state. Instants are monotonic milliseconds. */
  datatype NetworkState = NetworkState(
    broadband: BroadbandState,
    wifi: WifiState,
    preference: UplinkPreference,
    internet: InternetState,
    backoffIndex: nat,
    consecutiveFailures: nat,
    consecutiveSuccesses: nat,
    dialAttempts: nat,
    outageStartedMs: Option<int>,
    lastDialMs: Option<int>,
    broadbandHealthySinceMs: Option<int>,
    wifiHealthySinceMs: Option<int>,
    onWifiSinceMs: Option<int>,
    broadbandPreferredSinceMs: Option<int>,
    failureKind: Option<FailureKind>,
    outageMs: int,
    wifiFailoverAttempted: bool,
    recentAborts: nat)

  const INITIAL: NetworkState := NetworkState(
    BroadbandState.Disconnected, WifiState.Disconnected, Neither, Offline,
    0, 0, 0, 0, None, None, None, None, None, None, None, 0, false, 0)

  /** `Wait` carries the advised delay. The source's `None` action is never emitted. */
  datatype NetworkAction =
    | DialBroadband
    | HangUpBroadband
    | ConnectWifi
    | DisconnectWifi
    | PreferBroadband
    | PreferWifi
    | ReleaseManagedRoutes
    | Wait(ms: nat)

  datatype Transition = Transition(state: NetworkState, actions: seq<NetworkAction>)

  /** The `as u64` cast of an i64 difference. */
  function AsU64(x: int): int {
    if x < 0 then x + 0x1_0000_0000_0000_0000 else x
  }

  /** Why broadband looks unhealthy. */
  function ClassifyFailure(obs: NetworkObservation, policy: NetworkPolicy): FailureKind {
    if obs.Rejected() then AuthenticationFailed
    else if !obs.rasConnected then PppoeSessionLost
    else if !obs.broadbandHasIp then NoIpConfiguration
    else if !obs.broadbandDefaultRoute then RouteFailure
    else if obs.Total() == 0 then Unknown
    else if obs.DnsOnly() then DnsOnlyFailure
    else if obs.Passes() == 0 then UpstreamConnectivityFailure
    else if obs.Passes() < policy.failureQuorum then PartialConnectivity
    else Unknown
  }

  function ComputePreference(broadband: BroadbandState, wifi: WifiState): UplinkPreference {
    if broadband.Healthy? then Broadband
    else if wifi.IsUp() then Wifi
    else Neither
  }

  function DeriveInternetState(broadband: BroadbandState, wifi: WifiState, preference: UplinkPreference): InternetState {
    match preference
    case Broadband => BroadbandPrimary
    case Wifi =>
      if broadband.Verifying? || broadband.Connecting? || broadband.Authenticating? || broadband.Reconnecting?
      then RecoveringBroadband else WifiContinuity
    case Neither =>
      if broadband.Degraded? || wifi.Degraded? then Impaired else Offline
  }

  /** Attempt-derived jitter. The product wraps in 32 bits. */
  function JitterFor(attempt: nat): (j: nat)
    ensures j < 1000
  {
    ((attempt * 2_654_435_761) % 0x1_0000_0000) % 1000
  }

  function ApplyJitter(base: nat, jitter: nat): nat {
    if base == 0 then 0 else base + (base * (jitter % 200)) / 1000
  }

  /** The wait advised with dial number `attempts` (counted from 0) of an outage. */
  function DialWait(index: nat, attempts: nat): nat {
    ApplyJitter(BACKOFF_MS[Min(index, LAST_BACKOFF)], JitterFor(attempts))
  }

  const BASE_INTERVAL_MS: nat := 20_000

  /** The caller's delay until the next round: the first wait asked for, else the fallback. */
  function NextDelayMs(actions: seq<NetworkAction>, fallback: nat): nat {
    if actions == [] then fallback
    else if actions[0].Wait? then actions[0].ms
    else NextDelayMs(actions[1..], fallback)
  }
}
