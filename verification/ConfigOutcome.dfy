/** What validation makes of every field and entry, written out: which entries are repaired and which dropped,
    and to which value every number is set. */
module ConfigOutcome {
  import opened Prelude
  import opened Text
  import opened Agents
  import opened ConfigModel
  import opened KeepFirst
  import opened Config
  import opened ConfigLaws
  import Engine
  import Maintenance

  /** `out` is the number in the range that is nearest to `given`. */
  predicate Nearest(out: nat, given: nat, low: nat, high: nat) {
    low <= out <= high && (low <= given <= high ==> out == given) && (given < low ==> out == low) && (given > high ==> out == high)
  }

  /** `out` is the least number of at least `low` that is not below `given`. */
  predicate Raised(out: nat, given: nat, low: nat) {
    out >= low && (given >= low ==> out == given) && (given < low ==> out == low)
  }

  /** Every number that validation may change goes to the nearest allowed one, and stays when it is allowed. */
  lemma NumbersGoToNearest(checks: Checks, doc: ConfigDocument)
    ensures var a, b := doc.body, Repair(checks, doc).body;
            && Nearest(b.update.verifyIntervalSecs, a.update.verifyIntervalSecs, 30, 3600)
            && Nearest(b.network.checkIntervalSecs, a.network.checkIntervalSecs, 5, 300)
            && Raised(b.network.failureQuorum, a.network.failureQuorum, 1)
            && Raised(b.network.successQuorum, a.network.successQuorum, 1)
            && Raised(b.network.stabilizeSecs, a.network.stabilizeSecs, 5)
            && Nearest(b.agents.sweepIntervalSecs, a.agents.sweepIntervalSecs, 1, 300)
            && Raised(b.agents.fallbackPollIntervalSecs, a.agents.fallbackPollIntervalSecs, 1)
            && Nearest(b.maintenance.rebootTokenTtlSecs, a.maintenance.rebootTokenTtlSecs, 60, 14_400)
            && Raised(b.storage.journalMaxBytes, a.storage.journalMaxBytes, 256 * 1024)
            && Nearest(b.logging.maxFiles, a.logging.maxFiles, 1, 64)
            && Raised(b.logging.maxTotalBytes, a.logging.maxTotalBytes, 4096 * b.logging.maxFiles)
            && Repair(checks, doc).schemaVersion == 1
  {
    hide Keep, OfferedProbes, Trim, Lower;
  }

  /** The texts: a blank phrase becomes the default, a data directory stays or goes, the log level is one of five
      in lower case and without white space around it, or `info`. */
  lemma TextsAreRepaired(checks: Checks, doc: ConfigDocument)
    ensures var a, b := doc.body, Repair(checks, doc).body;
            var dir := a.storage.dataDir;
            var level := Lower(Trim(a.logging.level));
            && b.maintenance.overridePhrase == (if Trim(a.maintenance.overridePhrase) == "" then "I understand the risk"
                                                else a.maintenance.overridePhrase)
            && b.storage.dataDir == (if dir.Some? && Trim(dir.value) != "" && checks.pathOk(Trim(dir.value)) then dir else None)
            && b.storage.journalWorkingFrequency == a.storage.journalWorkingFrequency
            && b.logging.level == (if level in {"error", "warn", "info", "debug", "trace"} then level else "info")
  {
    hide Keep, OfferedProbes, Trim, Lower;
  }

  // --- Probes -----------------------------------------------------------------------------------

  lemma {:induction false} NumberIs(s: string, n: nat)
    ensures ParseU16(s) == Some(n) <==>
              exists digits: string ::
                (s == digits || s == "+" + digits) && digits != "" && (forall c :: c in digits ==> IsDigit(c))
                && Decimal(digits) == n && n <= 65_535
  {
    var digits := if s != "" && s[0] == '+' then s[1..] else s;
    assert s == digits || s == "+" + digits;
    if d: string :| (s == d || s == "+" + d) && d != "" && (forall c :: c in d ==> IsDigit(c)) && Decimal(d) == n && n <= 65_535 {
      assert IsDigit(d[0]);
      if s == "+" + d {
        assert s[1..] == d;
      }
      assert d == digits;
    }
  }

  /** `host:port` at the last colon, with a host and a port number that is not zero. */
  ghost predicate NamesPort(t: string) {
    exists host: string, port: string, n: nat ::
      t == host + ":" + port && ':' !in port && host != "" && ParseU16(port) == Some(n) && n != 0
  }

  /** What a valid target is, for each kind of probe. */
  lemma TargetsAre(p: ProbeConfig)
    ensures var t := Trim(p.target);
            TargetOk(p) <==>
              && t != "" && Utf8Length(t) <= 255
              && (p.kind.Tcp? ==> NamesPort(t))
              && (p.kind.Dns? ==> ':' !in t && '/' !in t)
  {
    hide Trim, Utf8Length, ParseU16, SplitLastColon;
    var t := Trim(p.target);
    SplitLastColonIs(t);
    if NamesPort(t) {
      var host: string, port: string, n: nat :|
        t == host + ":" + port && ':' !in port && host != "" && ParseU16(port) == Some(n) && n != 0;
      SplitIsUnique(host, port);
    }
  }

  /** A probe is dropped exactly for a blank id or a bad target; any other is kept, with only its timeout
      corrected: none becomes 250 ms and too long a one 30 s. */
  lemma ProbeRepairExactly(p: ProbeConfig)
    ensures FixProbe(p).Some? <==> Trim(p.id) != "" && TargetOk(p)
    ensures FixProbe(p).Some? ==>
              FixProbe(p).value == ProbeConfig(p.id, p.kind, p.target,
                                               if p.timeoutMs == 0 then 250 else if p.timeoutMs > 30_000 then 30_000 else p.timeoutMs,
                                               p.enabled)
  {
    hide TargetOk, Trim;
  }

  /** Which probes are considered: all of a list of at most sixteen, the first sixteen of a longer one, and the
      built-in one when there are none. */
  lemma ProbesConsidered(c: NetworkConfig)
    ensures var offered := OfferedProbes(c.probes);
            && (c.probes == [] ==> offered == [ProbeConfig("alidns-tcp", Tcp, "223.5.5.5:443", 3000, true)])
            && (c.probes != [] ==>
                  && |offered| == (if |c.probes| > 16 then 16 else |c.probes|)
                  && forall i :: 0 <= i < |offered| ==> offered[i] == c.probes[i])
            && RepairNetwork(c).probes == Keep(offered, FixProbe, ProbeId)
  {
    hide Keep, FixProbe;
  }

  // --- Signatures and rules -------------------------------------------------------------------------

  predicate HasValid(rules: seq<Rule>, patternOk: string -> bool) {
    exists r :: r in rules && patternOk(r.pattern)
  }

  lemma {:induction false} KeptSomeExactly(rules: seq<Rule>, patternOk: string -> bool)
    ensures Engine.KeepValid(rules, patternOk) != [] <==> HasValid(rules, patternOk)
    ensures forall r :: r in Engine.KeepValid(rules, patternOk) <==> r in rules && patternOk(r.pattern)
  {
    if rules != [] {
      KeptSomeExactly(rules[..|rules| - 1], patternOk);
      assert rules == rules[..|rules| - 1] + [rules[|rules| - 1]];
    }
  }

  /** A signature is dropped exactly for a blank id or for want of a valid positive rule; any other is kept as the
      user's, under its id where it had no name, with its valid rules, of the vetoes the first 32. */
  lemma SignatureRepairExactly(patternOk: string -> bool, sig: AgentSignature)
    ensures FixSignature(patternOk, sig).Some? <==>
              Trim(sig.id) != "" && (HasValid(sig.rules.anyOf, patternOk) || HasValid(sig.rules.allOf, patternOk))
    ensures FixSignature(patternOk, sig).Some? ==>
              var out := FixSignature(patternOk, sig).value;
              var vetoes := Engine.KeepValid(sig.rules.noneOf, patternOk);
              && out.id == sig.id && out.confidence == sig.confidence && out.adapter == sig.adapter && out.notes == sig.notes
              && out.userDefined && out.displayName == (if Trim(sig.displayName) == "" then sig.id else sig.displayName)
              && out.rules.anyOf == Engine.KeepValid(sig.rules.anyOf, patternOk)
              && out.rules.allOf == Engine.KeepValid(sig.rules.allOf, patternOk)
              && |out.rules.noneOf| == (if |vetoes| > 32 then 32 else |vetoes|)
              && forall i :: 0 <= i < |out.rules.noneOf| ==> out.rules.noneOf[i] == vetoes[i]
  {
    hide Trim, Engine.KeepValid;
    KeptSomeExactly(sig.rules.anyOf, patternOk);
    KeptSomeExactly(sig.rules.allOf, patternOk);
  }

  /** Which signatures are considered: the first 256. */
  lemma SignaturesConsidered(patternOk: string -> bool, c: AgentConfig)
    ensures exists offered: seq<AgentSignature> ::
              && |offered| == (if |c.userSignatures| > 256 then 256 else |c.userSignatures|)
              && (forall i :: 0 <= i < |offered| ==> offered[i] == c.userSignatures[i])
              && RepairAgents(patternOk, c).userSignatures == Keep(offered, SignatureFix(patternOk), SignatureId)
  {
    hide Keep, SignatureFix;
    var offered := Truncate(c.userSignatures, 256);
    assert RepairAgents(patternOk, c).userSignatures == Keep(offered, SignatureFix(patternOk), SignatureId);
  }

  /** A workload rule is never changed, and dropped exactly for a blank id or a pattern that is not acceptable. */
  lemma RuleRepairExactly(patternOk: string -> bool, rule: WorkloadRule)
    ensures FixRule(patternOk, rule) ==
              if Trim(rule.id) != "" && patternOk(rule.namePattern)
                 && (rule.cmdlinePattern == None || patternOk(rule.cmdlinePattern.value))
              then Some(rule) else None
  {
    hide Trim;
  }
}
