/** The configuration document (crates/guardian-proto/src/model.rs, lines 1120-1480) and the checks of
    its entries (crates/guardian-core/src/config.rs). */
module ConfigModel {
  import opened Prelude
  import opened Text
  import opened Agents

  datatype UpdateConfig = UpdateConfig(protect: bool, autoRestore: bool, verifyIntervalSecs: nat, disableBsodAutoRestart: bool)

  datatype ProbeConfig = ProbeConfig(id: string, kind: ProbeKind, target: string, timeoutMs: nat, enabled: bool)

  datatype NetworkConfig = NetworkConfig(
    enabled: bool,
    entryName: Option<string>,
    checkIntervalSecs: nat,
    failureQuorum: nat,
    successQuorum: nat,
    stabilizeSecs: nat,
    staleGraceSecs: nat,
    adoptExistingSessions: bool,
    probes: seq<ProbeConfig>)

  datatype WorkloadRule = WorkloadRule(
    id: string,
    displayName: string,
    namePattern: string,
    cmdlinePattern: Option<string>,
    minRuntimeSecs: nat,
    protectsStandalone: bool,
    userDefined: bool)

  datatype AgentConfig = AgentConfig(
    enabled: bool,
    autoWorking: bool,
    protectStandaloneWorkloads: bool,
    sweepIntervalSecs: nat,
    fallbackPollIntervalSecs: nat,
    standaloneMinRuntimeSecs: nat,
    userSignatures: seq<AgentSignature>,
    userWorkloadRules: seq<WorkloadRule>)

  datatype MaintenanceConfig = MaintenanceConfig(rebootTokenTtlSecs: nat, refuseWithProtectedWork: bool, overridePhrase: string)

  datatype StorageConfig = StorageConfig(dataDir: Option<string>, journalWorkingFrequency: bool, journalMaxBytes: nat)

  datatype LoggingConfig = LoggingConfig(level: string, maxTotalBytes: nat, maxFiles: nat)

  datatype NotificationConfig = NotificationConfig(
    trayNotifications: bool, onDegraded: bool, onTamper: bool, onUnexpectedRestart: bool)

  datatype ConfigBody = ConfigBody(
    language: string,
    update: UpdateConfig,
    network: NetworkConfig,
    agents: AgentConfig,
    maintenance: MaintenanceConfig,
    storage: StorageConfig,
    logging: LoggingConfig,
    notifications: NotificationConfig,
    unknown: map<string, string>)

  datatype ConfigDocument = ConfigDocument(schemaVersion: nat, body: ConfigBody)

  /** What the repair asks of code outside the model: whether a pattern is acceptable, and whether a
      trimmed path is absolute and free of `..`. */
  datatype Checks = Checks(patternOk: string -> bool, pathOk: string -> bool)

  const SCHEMA_VERSION: nat := 1
  const MAX_USER_SIGNATURES: nat := 256
  const MAX_PROBES: nat := 16
  const MAX_VETOES: nat := 32
  const MAX_TARGET_BYTES: nat := 255
  const MIN_JOURNAL_BYTES: nat := 262_144
  const BYTES_PER_LOG_FILE: nat := 4096
  const DEFAULT_PHRASE := "I understand the risk"
  const DEFAULT_LEVEL := "info"
  const LEVELS: seq<string> := ["error", "warn", "info", "debug", "trace"]

  const DEFAULT_PROBES: seq<ProbeConfig> := [ProbeConfig("alidns-tcp", Tcp, "223.5.5.5:443", 3000, true)]

  predicate Blank(s: string) {
    Trim(s) == ""
  }

  function Truncate<T>(s: seq<T>, limit: nat): seq<T> {
    if |s| > limit then s[..limit] else s
  }

  /** The parts before and after the last colon. */
  function SplitLastColon(s: string): Option<(string, string)> {
    if s == "" then None
    else if s[|s| - 1] == ':' then Some((s[..|s| - 1], ""))
    else
      match SplitLastColon(s[..|s| - 1])
      case None => None
      case Some((host, port)) => Some((host, port + [s[|s| - 1]]))
  }

  predicate IsDigit(c: char) {
    '0' <= c <= '9'
  }

  function Decimal(digits: string): nat
    requires forall c :: c in digits ==> IsDigit(c)
  {
    if digits == "" then 0
    else
      var last := digits[|digits| - 1];
      assert IsDigit(last);
      10 * Decimal(digits[..|digits| - 1]) + (last as int - '0' as int)
  }

  /** A 16-bit number as Rust reads one: an optional plus sign, then decimal digits. */
  function ParseU16(s: string): Option<nat> {
    var digits := if s != "" && s[0] == '+' then s[1..] else s;
    if digits == "" || exists c :: c in digits && !IsDigit(c) then None
    else if Decimal(digits) > 0xFFFF then None
    else Some(Decimal(digits))
  }

  predicate TargetOk(p: ProbeConfig) {
    var t := Trim(p.target);
    && t != "" && Utf8Length(t) <= MAX_TARGET_BYTES
    && match p.kind
       case Tcp =>
         var parts := SplitLastColon(t);
         parts.Some? && parts.value.0 != "" && ParseU16(parts.value.1).Some? && ParseU16(parts.value.1) != Some(0)
       case Dns => ':' !in t && '/' !in t
       case _ => true
  }

  // --- The split and the number are right ---------------------------------------------------------

  /** The split undoes itself, and nothing after it holds a colon; there is none exactly without a colon. */
  lemma {:induction false} SplitLastColonIs(s: string)
    ensures SplitLastColon(s).None? <==> ':' !in s
    ensures SplitLastColon(s).Some? ==>
              var (host, port) := SplitLastColon(s).value;
              s == host + ":" + port && ':' !in port
  {
    if s != "" && s[|s| - 1] != ':' {
      SplitLastColonIs(s[..|s| - 1]);
      assert s == s[..|s| - 1] + [s[|s| - 1]];
    }
  }

  function Digits(n: nat): string {
    var last := ['0' + (n % 10) as char];
    if n < 10 then last else Digits(n / 10) + last
  }

  lemma {:induction false} DigitsAreDigits(n: nat)
    ensures Digits(n) != "" && forall c :: c in Digits(n) ==> IsDigit(c)
    ensures Decimal(Digits(n)) == n
  {
    var last := '0' + (n % 10) as char;
    assert last as int == '0' as int + n % 10;
    if n >= 10 {
      DigitsAreDigits(n / 10);
      assert Digits(n)[..|Digits(n)| - 1] == Digits(n / 10);
    } else {
      assert Digits(n) == [last] && Digits(n)[..0] == "";
    }
  }

  /** So `host:port` with any port from 1 to 65535, and a host that is not blank at its ends, is a valid
      target of a TCP probe, and port 0 is not. */
  lemma TcpTargetOk(p: ProbeConfig, host: string, port: nat)
    requires p.kind.Tcp? && Trim(p.target) == p.target == host + ":" + Digits(port)
    requires host != "" && Utf8Length(p.target) <= MAX_TARGET_BYTES
    ensures TargetOk(p) <==> 1 <= port <= 0xFFFF
  {
    hide Trim, Utf8Length, Digits, SplitLastColon, ParseU16;
    DigitsParse(port);
    SplitIsUnique(host, Digits(port));
    assert p.target != "";
  }

  lemma DigitsParse(port: nat)
    ensures ':' !in Digits(port)
    ensures ParseU16(Digits(port)) == if port <= 0xFFFF then Some(port) else None
  {
    hide Digits;
    DigitsAreDigits(port);
    assert IsDigit(Digits(port)[0]);
  }

  lemma {:induction false} SplitIsUnique(host: string, port: string)
    requires ':' !in port
    ensures SplitLastColon(host + ":" + port) == Some((host, port))
  {
    var s := host + ":" + port;
    if port == "" {
      assert s[..|s| - 1] == host;
    } else {
      var front := port[..|port| - 1];
      assert port == front + [port[|port| - 1]];
      assert s[..|s| - 1] == host + ":" + front;
      SplitIsUnique(host, front);
    }
  }
}
