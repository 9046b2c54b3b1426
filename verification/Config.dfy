/** Validation and repair of a configuration document (crates/guardian-core/src/config.rs). The list of
    issues is display text and is dropped. */
module Config {
  import opened Prelude
  import opened Text
  import opened Agents
  import opened ConfigModel
  import opened KeepFirst
  import Engine
  import Maintenance

  // --- Specification ------------------------------------------------------------------------

  function RepairUpdate(c: UpdateConfig): UpdateConfig {
    c.(verifyIntervalSecs := Clamp(c.verifyIntervalSecs, 30, 3600))
  }

  function FixProbe(p: ProbeConfig): Option<ProbeConfig> {
    if Blank(p.id) || !TargetOk(p) then None
    else if p.timeoutMs == 0 || p.timeoutMs > 30_000 then Some(p.(timeoutMs := Clamp(p.timeoutMs, 250, 30_000)))
    else Some(p)
  }

  function ProbeId(p: ProbeConfig): string {
    p.id
  }

  function OfferedProbes(probes: seq<ProbeConfig>): seq<ProbeConfig> {
    Truncate(if probes == [] then DEFAULT_PROBES else probes, MAX_PROBES)
  }

  function RepairNetwork(c: NetworkConfig): NetworkConfig {
    c.(checkIntervalSecs := Clamp(c.checkIntervalSecs, 5, 300),
       failureQuorum := Max(c.failureQuorum, 1),
       successQuorum := Max(c.successQuorum, 1),
       stabilizeSecs := Max(c.stabilizeSecs, 5),
       probes := Keep(OfferedProbes(c.probes), FixProbe, ProbeId))
  }

  /** A signature repaired, or None when it has no id or no usable positive rule. */
  function FixSignature(patternOk: string -> bool, sig: AgentSignature): Option<AgentSignature> {
    var rules := Engine.Usable(sig, patternOk).rules;
    if Blank(sig.id) || (rules.anyOf == [] && rules.allOf == []) then None
    else
      Some(sig.(
        displayName := if Blank(sig.displayName) then sig.id else sig.displayName,
        userDefined := true,
        rules := rules.(noneOf := Truncate(rules.noneOf, MAX_VETOES))))
  }

  function SignatureFix(patternOk: string -> bool): AgentSignature -> Option<AgentSignature> {
    sig => FixSignature(patternOk, sig)
  }

  function FixRule(patternOk: string -> bool, rule: WorkloadRule): Option<WorkloadRule> {
    if Blank(rule.id) || !patternOk(rule.namePattern)
       || (rule.cmdlinePattern.Some? && !patternOk(rule.cmdlinePattern.value))
    then None else Some(rule)
  }

  function RuleFix(patternOk: string -> bool): WorkloadRule -> Option<WorkloadRule> {
    rule => FixRule(patternOk, rule)
  }

  function RuleId(rule: WorkloadRule): string {
    rule.id
  }

  function RepairAgents(patternOk: string -> bool, c: AgentConfig): AgentConfig {
    c.(sweepIntervalSecs := Clamp(c.sweepIntervalSecs, 1, 300),
       fallbackPollIntervalSecs := Max(c.fallbackPollIntervalSecs, 1),
       userSignatures := Keep(Truncate(c.userSignatures, MAX_USER_SIGNATURES), SignatureFix(patternOk), SignatureId),
       userWorkloadRules := Keep(c.userWorkloadRules, RuleFix(patternOk), RuleId))
  }

  function RepairMaintenance(c: MaintenanceConfig): MaintenanceConfig {
    c.(rebootTokenTtlSecs := Maintenance.ClampTtl(c.rebootTokenTtlSecs),
       overridePhrase := if Blank(c.overridePhrase) then DEFAULT_PHRASE else c.overridePhrase)
  }

  function RepairStorage(pathOk: string -> bool, c: StorageConfig): StorageConfig {
    c.(dataDir := if c.dataDir.Some? && (Blank(c.dataDir.value) || !pathOk(Trim(c.dataDir.value))) then None else c.dataDir,
       journalMaxBytes := Max(c.journalMaxBytes, MIN_JOURNAL_BYTES))
  }

  function RepairLogging(c: LoggingConfig): LoggingConfig {
    var level := Lower(Trim(c.level));
    var files := Clamp(c.maxFiles, 1, 64);
    c.(level := if level in LEVELS then level else DEFAULT_LEVEL,
       maxFiles := files,
       maxTotalBytes := Max(c.maxTotalBytes, files * BYTES_PER_LOG_FILE))
  }

  function Repair(checks: Checks, doc: ConfigDocument): ConfigDocument {
    ConfigDocument(SCHEMA_VERSION, doc.body.(
      update := RepairUpdate(doc.body.update),
      network := RepairNetwork(doc.body.network),
      agents := RepairAgents(checks.patternOk, doc.body.agents),
      maintenance := RepairMaintenance(doc.body.maintenance),
      storage := RepairStorage(checks.pathOk, doc.body.storage),
      logging := RepairLogging(doc.body.logging)))
  }

  // --- Implementation -----------------------------------------------------------------------

  method Validate(checks: Checks, doc: ConfigDocument) returns (out: ConfigDocument, changed: bool)
    ensures out == Repair(checks, doc)
    ensures changed <==> out != doc
  {
    hide RepairUpdate, RepairNetwork, RepairAgents, RepairMaintenance, RepairStorage, RepairLogging;
    var body := doc.body;
    var update := ValidateUpdate(body.update);
    body := body.(update := update);
    var network := ValidateNetwork(body.network);
    body := body.(network := network);
    var agents := ValidateAgents(checks.patternOk, body.agents);
    body := body.(agents := agents);
    var maintenance := ValidateMaintenance(body.maintenance);
    body := body.(maintenance := maintenance);
    var storage := ValidateStorage(checks.pathOk, body.storage);
    body := body.(storage := storage);
    var logging := ValidateLogging(body.logging);
    body := body.(logging := logging);
    out := ConfigDocument(SCHEMA_VERSION, body);
    changed := out != doc;
  }

  method ValidateUpdate(c: UpdateConfig) returns (out: UpdateConfig)
    ensures out == RepairUpdate(c)
  {
    out := c;
    if out.verifyIntervalSecs < 30 {
      out := out.(verifyIntervalSecs := 30);
    }
    if out.verifyIntervalSecs > 3600 {
      out := out.(verifyIntervalSecs := 3600);
    }
  }

  method ValidateNetwork(c: NetworkConfig) returns (out: NetworkConfig)
    ensures out == RepairNetwork(c)
  {
    hide Keep, FixProbe, OfferedProbes;
    out := c;
    if out.checkIntervalSecs < 5 {
      out := out.(checkIntervalSecs := 5);
    }
    if out.checkIntervalSecs > 300 {
      out := out.(checkIntervalSecs := 300);
    }
    if out.failureQuorum == 0 {
      out := out.(failureQuorum := 1);
    }
    if out.successQuorum == 0 {
      out := out.(successQuorum := 1);
    }
    if out.stabilizeSecs < 5 {
      out := out.(stabilizeSecs := 5);
    }
    var kept := ValidateProbes(out.probes);
    out := out.(probes := kept);
  }

  /** The probe part of `validate_network`. */
  method ValidateProbes(given: seq<ProbeConfig>) returns (kept: seq<ProbeConfig>)
    ensures kept == Keep(OfferedProbes(given), FixProbe, ProbeId)
  {
    hide Keep, FixProbe, DEFAULT_PROBES;
    var probes := given;
    if probes == [] {
      probes := DEFAULT_PROBES;
    }
    if |probes| > MAX_PROBES {
      probes := probes[..MAX_PROBES];
    }
    kept := KeepProbes(probes);
  }

  /** The ids of the kept entries, in order. */
  function Ids<T>(items: seq<T>, id: T -> string): seq<string> {
    seq(|items|, i requires 0 <= i < |items| => id(items[i]))
  }

  lemma SeenIsKept<T>(items: seq<T>, id: T -> string, key: string)
    ensures key in Ids(items, id) <==> HasId(items, id, key)
  {
    if key in Ids(items, id) {
      var i :| 0 <= i < |items| && Ids(items, id)[i] == key;
      assert items[i] in items;
    }
    if x: T :| x in items && id(x) == key {
      var i :| 0 <= i < |items| && items[i] == x;
      assert Ids(items, id)[i] == key;
    }
  }

  method KeepProbes(probes: seq<ProbeConfig>) returns (kept: seq<ProbeConfig>)
    ensures kept == Keep(probes, FixProbe, ProbeId)
  {
    hide TargetOk, Trim;
    var seen := [];
    kept := [];
    for i := 0 to |probes|
      invariant kept == Keep(probes[..i], FixProbe, ProbeId)
      invariant seen == Ids(kept, ProbeId)
    {
      var p := probes[i];
      assert probes[..i + 1][..i] == probes[..i];
      SeenIsKept(kept, ProbeId, p.id);
      if Blank(p.id) || p.id in seen || !TargetOk(p) {
        continue;
      }
      if p.timeoutMs == 0 || p.timeoutMs > 30_000 {
        p := p.(timeoutMs := Clamp(p.timeoutMs, 250, 30_000));
      }
      seen := seen + [p.id];
      kept := kept + [p];
    }
    assert probes[..|probes|] == probes;
  }

  method ValidateAgents(patternOk: string -> bool, c: AgentConfig) returns (out: AgentConfig)
    ensures out == RepairAgents(patternOk, c)
  {
    hide Keep, SignatureFix, RuleFix;
    out := c;
    if out.sweepIntervalSecs < 1 {
      out := out.(sweepIntervalSecs := 1);
    }
    if out.sweepIntervalSecs > 300 {
      out := out.(sweepIntervalSecs := 300);
    }
    if out.fallbackPollIntervalSecs < 1 {
      out := out.(fallbackPollIntervalSecs := 1);
    }
    if |out.userSignatures| > MAX_USER_SIGNATURES {
      out := out.(userSignatures := out.userSignatures[..MAX_USER_SIGNATURES]);
    }
    var signatures := KeepSignatures(patternOk, out.userSignatures);
    out := out.(userSignatures := signatures);
    var rules := KeepWorkloadRules(patternOk, out.userWorkloadRules);
    out := out.(userWorkloadRules := rules);
  }

  method KeepSignatures(patternOk: string -> bool, signatures: seq<AgentSignature>) returns (kept: seq<AgentSignature>)
    ensures kept == Keep(signatures, SignatureFix(patternOk), SignatureId)
  {
    hide FixSignature;
    var seen := [];
    kept := [];
    for i := 0 to |signatures|
      invariant kept == Keep(signatures[..i], SignatureFix(patternOk), SignatureId)
      invariant seen == Ids(kept, SignatureId)
    {
      assert signatures[..i + 1][..i] == signatures[..i];
      var fixed := ValidateSignature(patternOk, signatures[i]);
      if fixed.None? {
        continue;
      }
      SeenIsKept(kept, SignatureId, fixed.value.id);
      if fixed.value.id in seen {
        continue;
      }
      seen := seen + [fixed.value.id];
      kept := kept + [fixed.value];
    }
    assert signatures[..|signatures|] == signatures;
  }

  method ValidateSignature(patternOk: string -> bool, signature: AgentSignature) returns (out: Option<AgentSignature>)
    ensures out == FixSignature(patternOk, signature)
  {
    hide Trim;
    var sig := signature;
    if Blank(sig.id) {
      return None;
    }
    if Blank(sig.displayName) {
      sig := sig.(displayName := sig.id);
    }
    sig := sig.(userDefined := true);
    var anyOf := Engine.CompileRules(sig.rules.anyOf, patternOk);
    var allOf := Engine.CompileRules(sig.rules.allOf, patternOk);
    var noneOf := Engine.CompileRules(sig.rules.noneOf, patternOk);
    sig := sig.(rules := SignatureRules(anyOf, allOf, noneOf));
    var dropSignature := anyOf == [] && allOf == [];
    if |sig.rules.noneOf| > MAX_VETOES {
      sig := sig.(rules := sig.rules.(noneOf := sig.rules.noneOf[..MAX_VETOES]));
    }
    return if dropSignature then None else Some(sig);
  }

  method KeepWorkloadRules(patternOk: string -> bool, rules: seq<WorkloadRule>) returns (kept: seq<WorkloadRule>)
    ensures kept == Keep(rules, RuleFix(patternOk), RuleId)
  {
    hide Trim;
    var seen := [];
    kept := [];
    for i := 0 to |rules|
      invariant kept == Keep(rules[..i], RuleFix(patternOk), RuleId)
      invariant seen == Ids(kept, RuleId)
    {
      var rule := rules[i];
      assert rules[..i + 1][..i] == rules[..i];
      SeenIsKept(kept, RuleId, rule.id);
      if Blank(rule.id) || rule.id in seen || !patternOk(rule.namePattern) {
        continue;
      }
      if rule.cmdlinePattern.Some? && !patternOk(rule.cmdlinePattern.value) {
        continue;
      }
      seen := seen + [rule.id];
      kept := kept + [rule];
    }
    assert rules[..|rules|] == rules;
  }

  method ValidateMaintenance(c: MaintenanceConfig) returns (out: MaintenanceConfig)
    ensures out == RepairMaintenance(c)
  {
    out := c;
    if out.rebootTokenTtlSecs < Maintenance.MIN_TTL_SECS {
      out := out.(rebootTokenTtlSecs := Maintenance.MIN_TTL_SECS);
    }
    if out.rebootTokenTtlSecs > Maintenance.MAX_TTL_SECS {
      out := out.(rebootTokenTtlSecs := Maintenance.MAX_TTL_SECS);
    }
    if Blank(out.overridePhrase) {
      out := out.(overridePhrase := DEFAULT_PHRASE);
    }
  }

  method ValidateStorage(pathOk: string -> bool, c: StorageConfig) returns (out: StorageConfig)
    ensures out == RepairStorage(pathOk, c)
  {
    out := c;
    if out.dataDir.Some? {
      var trimmed := Trim(out.dataDir.value);
      if trimmed == "" || !pathOk(trimmed) {
        out := out.(dataDir := None);
      }
    }
    if out.journalMaxBytes < MIN_JOURNAL_BYTES {
      out := out.(journalMaxBytes := MIN_JOURNAL_BYTES);
    }
  }

  method ValidateLogging(c: LoggingConfig) returns (out: LoggingConfig)
    ensures out == RepairLogging(c)
  {
    hide Lower, Trim;
    out := c;
    var level := Lower(Trim(c.level));
    out := out.(level := if level in LEVELS then level else DEFAULT_LEVEL);
    if out.maxFiles == 0 {
      out := out.(maxFiles := 1);
    }
    if out.maxFiles > 64 {
      out := out.(maxFiles := 64);
    }
    var floor := out.maxFiles * BYTES_PER_LOG_FILE;
    if out.maxTotalBytes < floor {
      out := out.(maxTotalBytes := floor);
    }
  }
}
