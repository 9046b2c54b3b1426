/** What validation establishes: a document in order, in one pass or two. */
module ConfigLaws {
  import opened Prelude
  import opened Text
  import opened Agents
  import opened ConfigModel
  import opened KeepFirst
  import opened Config
  import Engine
  import Maintenance
  import NetModel
  import NetRuns
  import NetStepLaws

  // --- A document in order ------------------------------------------------------------------------

  predicate ProbeInOrder(p: ProbeConfig) {
    !Blank(p.id) && TargetOk(p) && 1 <= p.timeoutMs <= 30_000
  }

  predicate RulesInOrder(rules: seq<Rule>, patternOk: string -> bool) {
    forall r :: r in rules ==> patternOk(r.pattern)
  }

  predicate SignatureInOrder(patternOk: string -> bool, sig: AgentSignature) {
    && !Blank(sig.id) && !Blank(sig.displayName) && sig.userDefined
    && RulesInOrder(sig.rules.anyOf, patternOk) && RulesInOrder(sig.rules.allOf, patternOk)
    && RulesInOrder(sig.rules.noneOf, patternOk)
    && (sig.rules.anyOf != [] || sig.rules.allOf != [])
    && |sig.rules.noneOf| <= MAX_VETOES
  }

  predicate WorkloadRuleInOrder(patternOk: string -> bool, rule: WorkloadRule) {
    && !Blank(rule.id) && patternOk(rule.namePattern)
    && (rule.cmdlinePattern.Some? ==> patternOk(rule.cmdlinePattern.value))
  }

  /** In order but for the probe list, which may be empty. */
  ghost predicate NetworkSound(c: NetworkConfig) {
    && 5 <= c.checkIntervalSecs <= 300 && c.failureQuorum >= 1 && c.successQuorum >= 1 && c.stabilizeSecs >= 5
    && |c.probes| <= MAX_PROBES
    && (forall p :: p in c.probes ==> ProbeInOrder(p))
    && DistinctIds(c.probes, ProbeId)
  }

  ghost predicate NetworkInOrder(c: NetworkConfig) {
    NetworkSound(c) && c.probes != []
  }

  ghost predicate AgentsInOrder(patternOk: string -> bool, c: AgentConfig) {
    && 1 <= c.sweepIntervalSecs <= 300 && c.fallbackPollIntervalSecs >= 1
    && |c.userSignatures| <= MAX_USER_SIGNATURES
    && (forall s :: s in c.userSignatures ==> SignatureInOrder(patternOk, s))
    && DistinctIds(c.userSignatures, SignatureId)
    && (forall r :: r in c.userWorkloadRules ==> WorkloadRuleInOrder(patternOk, r))
    && DistinctIds(c.userWorkloadRules, RuleId)
  }

  predicate StorageInOrder(pathOk: string -> bool, c: StorageConfig) {
    && (c.dataDir.Some? ==> !Blank(c.dataDir.value) && pathOk(Trim(c.dataDir.value)))
    && c.journalMaxBytes >= MIN_JOURNAL_BYTES
  }

  predicate LoggingInOrder(c: LoggingConfig) {
    c.level in LEVELS && 1 <= c.maxFiles <= 64 && c.maxTotalBytes >= c.maxFiles * BYTES_PER_LOG_FILE
  }

  /** Every number in range, every list entry valid, every id once. */
  ghost predicate Sound(checks: Checks, doc: ConfigDocument) {
    && doc.schemaVersion == SCHEMA_VERSION
    && 30 <= doc.body.update.verifyIntervalSecs <= 3600
    && NetworkSound(doc.body.network)
    && AgentsInOrder(checks.patternOk, doc.body.agents)
    && Maintenance.MIN_TTL_SECS <= doc.body.maintenance.rebootTokenTtlSecs <= Maintenance.MAX_TTL_SECS
    && !Blank(doc.body.maintenance.overridePhrase)
    && StorageInOrder(checks.pathOk, doc.body.storage)
    && LoggingInOrder(doc.body.logging)
  }

  /** Sound, with at least one probe. */
  ghost predicate InOrder(checks: Checks, doc: ConfigDocument) {
    Sound(checks, doc) && doc.body.network.probes != []
  }

  // --- Entries ------------------------------------------------------------------------------------

  /** A probe is left alone exactly when it is in order, and repairing twice is repairing once. */
  lemma ProbeFixIs(p: ProbeConfig)
    ensures FixProbe(p) == Some(p) <==> ProbeInOrder(p)
    ensures FixProbe(p).Some? ==> ProbeInOrder(FixProbe(p).value)
  {
    hide Trim, SplitLastColon, ParseU16, Utf8Length;
  }

  lemma {:induction false} KeepValidIs(rules: seq<Rule>, patternOk: string -> bool)
    ensures RulesInOrder(Engine.KeepValid(rules, patternOk), patternOk)
    ensures Engine.KeepValid(rules, patternOk) == rules <==> RulesInOrder(rules, patternOk)
  {
    if rules != [] {
      var front, last := rules[..|rules| - 1], rules[|rules| - 1];
      KeepValidIs(front, patternOk);
      assert rules == front + [last];
    }
  }

  lemma SignatureFixIs(patternOk: string -> bool, sig: AgentSignature)
    ensures FixSignature(patternOk, sig) == Some(sig) <==> SignatureInOrder(patternOk, sig)
    ensures FixSignature(patternOk, sig).Some? ==> SignatureInOrder(patternOk, FixSignature(patternOk, sig).value)
  {
    hide Trim, Engine.KeepValid;
    KeepValidIs(sig.rules.anyOf, patternOk);
    KeepValidIs(sig.rules.allOf, patternOk);
    KeepValidIs(sig.rules.noneOf, patternOk);
  }

  lemma FixesSettle(patternOk: string -> bool)
    ensures Settles(FixProbe)
    ensures Settles(SignatureFix(patternOk))
    ensures Settles(RuleFix(patternOk))
  {
    hide FixProbe, FixSignature, TargetOk, Blank;
    forall p: ProbeConfig | FixProbe(p).Some? ensures FixProbe(FixProbe(p).value) == FixProbe(p) {
      ProbeFixIs(p);
      ProbeFixIs(FixProbe(p).value);
    }
    forall s: AgentSignature | FixSignature(patternOk, s).Some?
      ensures FixSignature(patternOk, FixSignature(patternOk, s).value) == FixSignature(patternOk, s)
    {
      SignatureFixIs(patternOk, s);
      SignatureFixIs(patternOk, FixSignature(patternOk, s).value);
    }
  }

  // --- Sections -------------------------------------------------------------------------------------

  lemma DefaultProbesAreUsable()
    ensures FixProbe(DEFAULT_PROBES[0]) == Some(DEFAULT_PROBES[0])
  {
    var p := DEFAULT_PROBES[0];
    hide TargetOk, Trim, Utf8Length, Digits;
    TrimKeeps(p.id);
    DefaultTarget();
    DigitsOf443();
    TcpTargetOk(p, "223.5.5.5", 443);
  }

  lemma DefaultTarget()
    ensures var t := DEFAULT_PROBES[0].target;
            Trim(t) == t && t == "223.5.5.5" + ":" + "443" && Utf8Length(t) <= MAX_TARGET_BYTES
  {
    hide Trim, Utf8Length;
    var t := DEFAULT_PROBES[0].target;
    TrimKeeps(t);
    AsciiLength(t);
    assert t == "223.5.5.5" + ":" + "443";
  }

  lemma DigitsOf443()
    ensures Digits(443) == "443"
  {
    assert Digits(4) == "4";
    assert Digits(44) == "44";
  }

  /** A probe list that the repair does not leave empty: no list at all, or a usable probe among the
      first sixteen. */
  predicate ProbesSurvive(c: NetworkConfig) {
    c.probes == [] || exists p :: p in Truncate(c.probes, MAX_PROBES) && FixProbe(p).Some?
  }

  lemma RepairedProbes(c: NetworkConfig)
    ensures RepairNetwork(c).probes != [] <==> ProbesSurvive(c)
    ensures |RepairNetwork(c).probes| <= MAX_PROBES
    ensures DistinctIds(RepairNetwork(c).probes, ProbeId)
    ensures forall p :: p in RepairNetwork(c).probes ==> ProbeInOrder(p)
  {
    hide Keep, FixProbe, TargetOk;
    var offered := OfferedProbes(c.probes);
    DefaultProbesAreUsable();
    assert DEFAULT_PROBES[0] in DEFAULT_PROBES;
    KeepsSomething(offered, FixProbe, ProbeId);
    KeepIsNoLonger(offered, FixProbe, ProbeId);
    KeepHasDistinctIds(offered, FixProbe, ProbeId);
    FixesSettle(_ => true);
    KeepIsFixed(offered, FixProbe, ProbeId);
    forall p | p in RepairNetwork(c).probes ensures ProbeInOrder(p) {
      ProbeFixIs(p);
    }
  }

  lemma NetworkInOrderExactly(c: NetworkConfig)
    ensures RepairNetwork(c) == c <==> NetworkInOrder(c)
    ensures NetworkSound(RepairNetwork(c))
    ensures RepairNetwork(c).probes != [] <==> ProbesSurvive(c)
  {
    hide Keep, FixProbe, TargetOk, ProbeInOrder, DistinctIds;
    RepairedProbes(c);
    FixesSettle(_ => true);
    KeepChangesNothing(c.probes, FixProbe, ProbeId);
    forall p | p in c.probes ensures FixProbe(p) == Some(p) <==> ProbeInOrder(p) {
      ProbeFixIs(p);
    }
    if NetworkInOrder(c) {
      assert c.probes[0] in c.probes;
    }
  }

  lemma AgentsInOrderExactly(patternOk: string -> bool, c: AgentConfig)
    ensures RepairAgents(patternOk, c) == c <==> AgentsInOrder(patternOk, c)
    ensures AgentsInOrder(patternOk, RepairAgents(patternOk, c))
  {
    hide Keep, FixSignature, SignatureInOrder, DistinctIds, Trim;
    var out := RepairAgents(patternOk, c);
    var offered := Truncate(c.userSignatures, MAX_USER_SIGNATURES);
    FixesSettle(patternOk);
    KeepIsNoLonger(offered, SignatureFix(patternOk), SignatureId);
    KeepHasDistinctIds(offered, SignatureFix(patternOk), SignatureId);
    KeepHasDistinctIds(c.userWorkloadRules, RuleFix(patternOk), RuleId);
    KeepIsFixed(offered, SignatureFix(patternOk), SignatureId);
    KeepIsFixed(c.userWorkloadRules, RuleFix(patternOk), RuleId);
    KeepChangesNothing(c.userSignatures, SignatureFix(patternOk), SignatureId);
    KeepChangesNothing(c.userWorkloadRules, RuleFix(patternOk), RuleId);
    forall s: AgentSignature ensures FixSignature(patternOk, s) == Some(s) <==> SignatureInOrder(patternOk, s) {
      SignatureFixIs(patternOk, s);
    }
  }

  lemma LevelsAreLevels(level: string)
    requires level in LEVELS
    ensures Lower(Trim(level)) == level
  {
    hide Trim, Lower;
    TrimKeeps(level);
    LowerKeeps(level);
  }

  lemma LoggingInOrderExactly(c: LoggingConfig)
    ensures RepairLogging(c) == c <==> LoggingInOrder(c)
    ensures LoggingInOrder(RepairLogging(c))
  {
    hide Lower, Trim;
    if c.level in LEVELS {
      LevelsAreLevels(c.level);
    }
    assert DEFAULT_LEVEL in LEVELS;
  }

  lemma DefaultPhraseIsNotBlank()
    ensures !Blank(DEFAULT_PHRASE)
  {
  }

  // --- Documents ------------------------------------------------------------------------------------

  /** Validation changes nothing exactly when the document is in order. */
  lemma UnchangedExactlyInOrder(checks: Checks, doc: ConfigDocument)
    ensures Repair(checks, doc) == doc <==> InOrder(checks, doc)
  {
    hide RepairNetwork, RepairAgents, RepairLogging, NetworkSound, AgentsInOrder, LoggingInOrder, Trim;
    NetworkInOrderExactly(doc.body.network);
    AgentsInOrderExactly(checks.patternOk, doc.body.agents);
    LoggingInOrderExactly(doc.body.logging);
    DefaultPhraseIsNotBlank();
  }

  /** One pass makes every document sound: whatever the input, its numbers are in range, its lists hold
      valid entries with distinct ids, and every signature has a positive rule. */
  lemma OnePassIsSound(checks: Checks, doc: ConfigDocument)
    ensures Sound(checks, Repair(checks, doc))
  {
    hide RepairNetwork, RepairAgents, RepairLogging, NetworkSound, AgentsInOrder, LoggingInOrder, Trim;
    NetworkInOrderExactly(doc.body.network);
    AgentsInOrderExactly(checks.patternOk, doc.body.agents);
    LoggingInOrderExactly(doc.body.logging);
    DefaultPhraseIsNotBlank();
  }

  /** One pass puts a document in order exactly when a probe survives it. */
  lemma OnePassExactly(checks: Checks, doc: ConfigDocument)
    ensures InOrder(checks, Repair(checks, doc)) <==> ProbesSurvive(doc.body.network)
    ensures Repair(checks, Repair(checks, doc)) == Repair(checks, doc) <==> ProbesSurvive(doc.body.network)
  {
    hide RepairNetwork, RepairAgents, RepairLogging, Sound, ProbesSurvive;
    NetworkInOrderExactly(doc.body.network);
    OnePassIsSound(checks, doc);
    UnchangedExactlyInOrder(checks, Repair(checks, doc));
  }

  lemma SecondPassSurvives(checks: Checks, doc: ConfigDocument)
    ensures ProbesSurvive(Repair(checks, doc).body.network)
  {
    hide RepairAgents, RepairLogging, TargetOk, FixProbe, Keep;
    var probes := RepairNetwork(doc.body.network).probes;
    RepairedProbes(doc.body.network);
    if probes != [] {
      assert probes[0] in probes;
      ProbeFixIs(probes[0]);
    }
  }

  /** Two passes put every document in order, and a third changes nothing. */
  lemma TwoPassesSuffice(checks: Checks, doc: ConfigDocument)
    ensures var twice := Repair(checks, Repair(checks, doc));
            InOrder(checks, twice) && Repair(checks, twice) == twice
  {
    hide Repair, InOrder, ProbesSurvive;
    SecondPassSurvives(checks, doc);
    OnePassExactly(checks, Repair(checks, doc));
    UnchangedExactlyInOrder(checks, Repair(checks, Repair(checks, doc)));
  }

  /** A document with one probe that cannot be used: the first pass leaves no probe, the second installs
      the default. */
  lemma OnePassIsNotEnough(checks: Checks, doc: ConfigDocument)
    requires doc.body.network.probes == [ProbeConfig("", Tcp, "", 0, true)]
    ensures Repair(checks, doc).body.network.probes == []
    ensures Repair(checks, Repair(checks, doc)).body.network.probes == DEFAULT_PROBES
  {
    hide RepairAgents, RepairLogging;
    DefaultProbesAreUsable();
    var bad := doc.body.network.probes;
    assert bad[..0] == [] && DEFAULT_PROBES[..0] == [];
    assert Keep(bad, FixProbe, ProbeId) == [];
    assert Keep(DEFAULT_PROBES, FixProbe, ProbeId) == DEFAULT_PROBES;
  }

  /** What validation never touches: the operator's switches, unknown fields and unvalidated sections. */
  predicate SameChoices(a: ConfigBody, b: ConfigBody) {
    && a.unknown == b.unknown && a.language == b.language && a.notifications == b.notifications
    && a.update == b.update.(verifyIntervalSecs := a.update.verifyIntervalSecs)
    && a.maintenance.refuseWithProtectedWork == b.maintenance.refuseWithProtectedWork
    && a.network.enabled == b.network.enabled && a.network.entryName == b.network.entryName
    && a.network.staleGraceSecs == b.network.staleGraceSecs
    && a.network.adoptExistingSessions == b.network.adoptExistingSessions
    && a.agents.enabled == b.agents.enabled && a.agents.autoWorking == b.agents.autoWorking
    && a.agents.protectStandaloneWorkloads == b.agents.protectStandaloneWorkloads
    && a.agents.standaloneMinRuntimeSecs == b.agents.standaloneMinRuntimeSecs
  }

  lemma ChoicesAreKept(checks: Checks, doc: ConfigDocument)
    ensures SameChoices(Repair(checks, doc).body, doc.body)
  {
  }

  // --- The detection engine under a repaired configuration --------------------------------------------

  /** The engine's own check: validation's, and then a compilation with the case-insensitive flag in
      front, which may fail by itself; whether it does for some pattern is up to the regex library. */
  function Compiles(patternOk: string -> bool, caseFoldOk: string -> bool): string -> bool {
    pattern => patternOk(pattern) && caseFoldOk(pattern)
  }

  /** On validated rules the engine drops exactly those that only the second compilation refuses. */
  lemma {:induction false} OnlyCaseFoldingDrops(rules: seq<Rule>, patternOk: string -> bool, caseFoldOk: string -> bool)
    requires RulesInOrder(rules, patternOk)
    ensures Engine.KeepValid(rules, Compiles(patternOk, caseFoldOk)) == Engine.KeepValid(rules, caseFoldOk)
    ensures forall r :: r in Engine.KeepValid(rules, caseFoldOk) <==> r in rules && caseFoldOk(r.pattern)
  {
    if rules != [] {
      var front, last := rules[..|rules| - 1], rules[|rules| - 1];
      assert rules == front + [last];
      OnlyCaseFoldingDrops(front, patternOk, caseFoldOk);
    }
  }

  predicate AllFold(sig: AgentSignature, caseFoldOk: string -> bool) {
    && RulesInOrder(sig.rules.anyOf, caseFoldOk) && RulesInOrder(sig.rules.allOf, caseFoldOk)
    && RulesInOrder(sig.rules.noneOf, caseFoldOk)
  }

  /** One signature: what is left of it, and that it is left alone exactly when all its patterns fold. */
  lemma UsableExactly(patternOk: string -> bool, caseFoldOk: string -> bool, sig: AgentSignature)
    requires SignatureInOrder(patternOk, sig)
    ensures Engine.Usable(sig, Compiles(patternOk, caseFoldOk)) == Engine.Usable(sig, caseFoldOk)
    ensures Engine.Usable(sig, caseFoldOk) == sig <==> AllFold(sig, caseFoldOk)
  {
    hide Engine.KeepValid, RulesInOrder, Compiles, Blank;
    OnlyCaseFoldingDrops(sig.rules.anyOf, patternOk, caseFoldOk);
    OnlyCaseFoldingDrops(sig.rules.allOf, patternOk, caseFoldOk);
    OnlyCaseFoldingDrops(sig.rules.noneOf, patternOk, caseFoldOk);
    KeepValidIs(sig.rules.anyOf, caseFoldOk);
    KeepValidIs(sig.rules.allOf, caseFoldOk);
    KeepValidIs(sig.rules.noneOf, caseFoldOk);
  }

  lemma {:induction false} CompileIsNoLonger(sigs: seq<AgentSignature>, valid: string -> bool)
    ensures |Engine.Compile(sigs, valid)| <= |sigs|
  {
    hide Engine.Usable;
    if sigs != [] {
      CompileIsNoLonger(sigs[..|sigs| - 1], valid);
    }
  }

  lemma {:induction false} SignaturesCompileExactly(patternOk: string -> bool, caseFoldOk: string -> bool, sigs: seq<AgentSignature>)
    requires forall s :: s in sigs ==> SignatureInOrder(patternOk, s)
    ensures Engine.Compile(sigs, Compiles(patternOk, caseFoldOk)) == Engine.Compile(sigs, caseFoldOk)
    ensures Engine.Compile(sigs, caseFoldOk) == sigs <==> forall s :: s in sigs ==> AllFold(s, caseFoldOk)
  {
    hide Compiles, AllFold, Engine.Usable;
    if sigs != [] {
      var front, last := sigs[..|sigs| - 1], sigs[|sigs| - 1];
      assert sigs == front + [last];
      assert SignatureInOrder(patternOk, last);
      SignaturesCompileExactly(patternOk, caseFoldOk, front);
      UsableExactly(patternOk, caseFoldOk, last);
      CompileIsNoLonger(front, caseFoldOk);
      hide SignatureInOrder;
      PositiveStays(patternOk, last);
      if Engine.Compile(sigs, caseFoldOk) == sigs {
        assert |Engine.Compile(sigs, caseFoldOk)| == |front| + 1;
        assert Engine.Compile(sigs, caseFoldOk)[..|front|] == front;
      }
    }
  }

  lemma PositiveStays(patternOk: string -> bool, sig: AgentSignature)
    requires SignatureInOrder(patternOk, sig)
    ensures sig.rules.anyOf != [] || sig.rules.allOf != []
  {
  }

  /** What the engine makes of a validated document: it drops exactly the rules, and the signatures left
      without a positive rule, that only the case-insensitive compilation refuses, and so it drops
      nothing if and only if every kept pattern compiles that way. */
  lemma ValidatedSignaturesCompile(patternOk: string -> bool, caseFoldOk: string -> bool, c: AgentConfig)
    ensures var sigs := RepairAgents(patternOk, c).userSignatures;
            var compiled := Engine.Compile(sigs, Compiles(patternOk, caseFoldOk));
            && compiled == Engine.Compile(sigs, caseFoldOk)
            && (compiled == sigs <==> forall s :: s in sigs ==> AllFold(s, caseFoldOk))
  {
    hide SignatureInOrder, Keep, Engine.Compile, AllFold;
    AgentsInOrderExactly(patternOk, c);
    SignaturesCompileExactly(patternOk, caseFoldOk, RepairAgents(patternOk, c).userSignatures);
  }

  /** A validated signature that the engine loses, if there is a pattern that passes validation and not the
      second compilation: one whose only rule has it. */
  lemma ValidatedSignatureCanBeLost(patternOk: string -> bool, caseFoldOk: string -> bool, sig: AgentSignature, r: Rule)
    requires SignatureInOrder(patternOk, sig) && sig.rules == SignatureRules([r], [], []) && !caseFoldOk(r.pattern)
    ensures Engine.Compile([sig], Compiles(patternOk, caseFoldOk)) == []
  {
    hide Blank;
    UsableExactly(patternOk, caseFoldOk, sig);
    assert [sig][..0] == [] && [r][..0] == [];
  }

  // --- The failover machine under a repaired configuration --------------------------------------------

  function FromConfig(c: NetworkConfig): NetModel.NetworkPolicy {
    NetModel.NetworkPolicy(c.enabled, true, true, Max(c.failureQuorum, 1), c.stabilizeSecs, 5, 15)
  }

  /** Under the policy of any validated document, traffic moves to broadband at most once in five
      seconds over every run. */
  lemma ValidatedRunsDoNotFlap(c: NetworkConfig, run: NetRuns.Run)
    requires run.policy == FromConfig(RepairNetwork(c))
    requires run.Timed() && NetStepLaws.Derived(run.start) && |run.rounds| > 0
    ensures var length := run.rounds[|run.rounds| - 1].now - run.rounds[0].now;
            (NetRuns.Moves(run, 0, |run.rounds|) - 1) * 5000 <= length
  {
    hide NetStepLaws.Derived, NetRuns.Moves, Keep;
    NetRuns.AntiFlap(run);
    var length := run.rounds[|run.rounds| - 1].now - run.rounds[0].now;
    assert run.policy.stabilizeSecs >= 5;
    Widen(NetRuns.Moves(run, 0, |run.rounds|), run.policy.stabilizeSecs * 1000, length);
  }

  lemma Widen(n: nat, w: nat, length: nat)
    requires w >= 5000 && (n - 1) * w <= length
    ensures (n - 1) * 5000 <= length
  {
    if n > 1 {
      var m, extra := n - 1, w - 5000;
      assert m * extra >= 0;
      assert m * w == m * 5000 + m * extra;
    }
  }
}
