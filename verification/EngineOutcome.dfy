/** What the detection engine decides, written out over rules, weights and names. */
module EngineOutcome {
  import opened Prelude
  import opened ProcessGraph
  import opened Agents
  import opened Engine

  // --- Rules ------------------------------------------------------------------------------------

  /** The text fields of a process that a path rule may match. */
  predicate PathOrCommand(matches: Oracle, pattern: string, p: ProcessSnapshot) {
    (p.imagePath.Some? && matches(pattern, p.imagePath.value)) || (p.cmdline.Some? && matches(pattern, p.cmdline.value))
  }

  /** What each kind of rule reads: the process itself, its parent in the snapshot, or its children there. */
  lemma RulesRead(matches: Oracle, rule: Rule, p: ProcessSnapshot, g: Graph)
    requires g.Indexed() && p.pid in g.nodes && g.nodes[p.pid] == p
    ensures var hasParent := p.parentPid in g.nodes;
            RuleMatches(matches, rule, p, g) <==>
              match rule.field
              case ProcessName => matches(rule.pattern, p.name)
              case ImagePath => p.imagePath.Some? && matches(rule.pattern, p.imagePath.value)
              case CommandLine => p.cmdline.Some? && matches(rule.pattern, p.cmdline.value)
              case PackagePath => PathOrCommand(matches, rule.pattern, p)
              case ParentName => hasParent && matches(rule.pattern, g.nodes[p.parentPid].name)
              case ParentPath => hasParent && PathOrCommand(matches, rule.pattern, g.nodes[p.parentPid])
              case ChildName => exists c :: c in g.nodes && g.Parent(c) == Some(p.pid) && matches(rule.pattern, g.nodes[c].name)
  {
  }

  predicate Fires(e: Engine, rules: seq<Rule>, i: int, p: ProcessSnapshot, g: Graph) {
    0 <= i < |rules| && RuleMatches(e.matches, rules[i], p, g)
  }

  /** All rules of a non-empty list fire. */
  predicate AllFire(e: Engine, rules: seq<Rule>, p: ProcessSnapshot, g: Graph) {
    rules != [] && forall i :: 0 <= i < |rules| ==> Fires(e, rules, i, p, g)
  }

  // --- Scores -----------------------------------------------------------------------------------

  /** When a signature speaks: no veto fires, and some `any_of` rule or the whole of `all_of` does. */
  lemma SpeaksExactly(e: Engine, sig: AgentSignature, p: ProcessSnapshot, g: Graph)
    ensures Score(e, sig, p, g).Some? <==>
              && (forall i :: !Fires(e, sig.rules.noneOf, i, p, g))
              && ((exists i :: Fires(e, sig.rules.anyOf, i, p, g)) || AllFire(e, sig.rules.allOf, p, g))
  {
    hide RuleMatches, FullEvidence, ConfidenceFor;
    var any, none := sig.rules.anyOf, sig.rules.noneOf;
    if Vetoed(e.matches, sig, p, g) {
      var i :| 0 <= i < |none| && RuleMatches(e.matches, none[i], p, g);
      assert Fires(e, none, i, p, g);
    }
    if i :| 0 <= i < |any| && RuleMatches(e.matches, any[i], p, g) {
      assert Fires(e, any, i, p, g);
    }
    forall i | 0 <= i < |sig.rules.allOf| ensures Fires(e, sig.rules.allOf, i, p, g) <==> RuleMatches(e.matches, sig.rules.allOf[i], p, g) {
    }
  }

  /** The rules that fire, in the order of the list. */
  function Fired(e: Engine, rules: seq<Rule>, p: ProcessSnapshot, g: Graph): seq<Rule> {
    if rules == [] then []
    else (if RuleMatches(e.matches, rules[0], p, g) then [rules[0]] else []) + Fired(e, rules[1..], p, g)
  }

  /** One piece of evidence for each rule, in order, with the rule's field, weight and detail. */
  predicate Witnesses(evidence: seq<Evidence>, rules: seq<Rule>) {
    |evidence| == |rules|
    && forall i :: 0 <= i < |rules| ==>
         evidence[i].code == rules[i].field && evidence[i].weight == rules[i].weight && evidence[i].detail == rules[i].detail
  }

  lemma {:induction false} FiredAtEnd(e: Engine, rules: seq<Rule>, p: ProcessSnapshot, g: Graph)
    requires rules != []
    ensures var n := |rules| - 1;
            Fired(e, rules, p, g) == Fired(e, rules[..n], p, g) + (if RuleMatches(e.matches, rules[n], p, g) then [rules[n]] else [])
  {
    hide RuleMatches;
    var n := |rules| - 1;
    if n > 0 {
      FiredAtEnd(e, rules[1..], p, g);
      assert rules[1..][..n - 1] == rules[..n][1..];
    }
  }

  lemma {:induction false} GatherWitnesses(e: Engine, rules: seq<Rule>, p: ProcessSnapshot, g: Graph)
    ensures Witnesses(Gather(e.matches, rules, p, g), Fired(e, rules, p, g))
  {
    hide RuleMatches;
    if rules != [] {
      GatherWitnesses(e, rules[..|rules| - 1], p, g);
      FiredAtEnd(e, rules, p, g);
    }
  }

  lemma {:induction false} AllFired(e: Engine, rules: seq<Rule>, p: ProcessSnapshot, g: Graph)
    requires forall i :: 0 <= i < |rules| ==> Fires(e, rules, i, p, g)
    ensures Fired(e, rules, p, g) == rules
  {
    hide RuleMatches;
    if rules != [] {
      assert Fires(e, rules, 0, p, g);
      forall i | 0 <= i < |rules[1..]| ensures Fires(e, rules[1..], i, p, g) {
        assert Fires(e, rules, i + 1, p, g);
      }
      AllFired(e, rules[1..], p, g);
    }
  }

  /** What a speaking signature says: its own id and name, the evidence of every `any_of` rule that fires and,
      when all of `all_of` fire, of those; the sum of their weights; and the highest level that the sum reaches
      and the declaration admits. */
  lemma ScoreExactly(e: Engine, sig: AgentSignature, p: ProcessSnapshot, g: Graph)
    requires Score(e, sig, p, g).Some?
    ensures var d := Score(e, sig, p, g).value;
            var rules := Fired(e, sig.rules.anyOf, p, g) + (if AllFire(e, sig.rules.allOf, p, g) then sig.rules.allOf else []);
            && d.signatureId == sig.id && d.displayName == sig.displayName
            && Witnesses(d.evidence, rules) && d.score == WeightSum(rules)
            && (forall level: Confidence ::
                  d.confidence.Rank() >= level.Rank() <==>
                    level.Rank() <= sig.confidence.Cap().Rank() && Reaches(e.thresholds, d.score, level))
  {
    hide RuleMatches, ConfidenceFor, Vetoed, Positive;
    var all := sig.rules.allOf;
    GatherWitnesses(e, sig.rules.anyOf, p, g);
    GatherWitnesses(e, all, p, g);
    GatherNothing(e.matches, p, g);
    assert AllFire(e, all, p, g) <==> all != [] && AllMatch(e.matches, all, p, g) by {
      AllFireIs(e, all, p, g);
    }
    if AllFire(e, all, p, g) {
      AllFired(e, all, p, g);
    }
    var rules := Fired(e, sig.rules.anyOf, p, g) + (if AllFire(e, all, p, g) then all else []);
    WitnessesSum(Score(e, sig, p, g).value.evidence, rules);
  }

  lemma AllFireIs(e: Engine, rules: seq<Rule>, p: ProcessSnapshot, g: Graph)
    ensures AllFire(e, rules, p, g) <==> rules != [] && AllMatch(e.matches, rules, p, g)
  {
    hide RuleMatches;
    forall i | 0 <= i < |rules| ensures Fires(e, rules, i, p, g) <==> RuleMatches(e.matches, rules[i], p, g) {
    }
  }

  lemma {:induction false} WitnessesSum(evidence: seq<Evidence>, rules: seq<Rule>)
    requires Witnesses(evidence, rules)
    ensures Total(evidence) == WeightSum(rules)
  {
    if rules != [] {
      WitnessesSum(evidence[..|evidence| - 1], rules[..|rules| - 1]);
    }
  }

  // --- Selection --------------------------------------------------------------------------------

  /** The process is named like an entry of the never-agent list, but for the case of ASCII letters. */
  predicate OnNeverList(e: Engine, p: ProcessSnapshot) {
    exists name :: name in e.neverAgentNames && Lower(name) == Lower(p.name)
  }

  /** The list outranks every signature, and is the only thing besides silence that does: nothing is selected
      exactly for a listed process or when no signature speaks. */
  lemma NothingSelectedExactly(e: Engine, p: ProcessSnapshot, g: Graph)
    requires UniqueIds(e.compiled)
    ensures Inspect(e, p, g).None? <==>
              OnNeverList(e, p) || forall i :: 0 <= i < |e.compiled| ==> Score(e, e.compiled[i], p, g).None?
  {
    NeverListIs(e, p);
    hide Score, OnNeverList, NeverAgent;
    BestOfIsBest(e, |e.compiled|, p, g);
  }

  lemma NeverListIs(e: Engine, p: ProcessSnapshot)
    ensures NeverAgent(e, p) <==> OnNeverList(e, p)
  {
    LowerTwice(p.name);
    hide Lower;
    if OnNeverList(e, p) {
      var name :| name in e.neverAgentNames && Lower(name) == Lower(p.name);
      var i :| 0 <= i < |e.neverAgentNames| && e.neverAgentNames[i] == name;
      assert EqIgnoreCase(e.neverAgentNames[i], Lower(p.name));
    }
  }

  lemma {:induction false} LowerTwice(s: string)
    ensures Lower(Lower(s)) == Lower(s)
  {
    if s != "" {
      LowerTwice(s[1..]);
    }
  }

  /** What is selected is the highest score among all that signatures say, and of equal scores the least id. */
  lemma SelectedIsHighest(e: Engine, p: ProcessSnapshot, g: Graph)
    requires UniqueIds(e.compiled) && Inspect(e, p, g).Some?
    ensures var d := Inspect(e, p, g).value;
            && (exists i :: 0 <= i < |e.compiled| && Score(e, e.compiled[i], p, g) == Some(d))
            && (forall i :: 0 <= i < |e.compiled| && Score(e, e.compiled[i], p, g).Some? ==>
                  var other := Score(e, e.compiled[i], p, g).value;
                  d.score > other.score || (d.score == other.score && (d == other || LexLess(d.signatureId, other.signatureId))))
  {
    hide Score;
    BestOfIsBest(e, |e.compiled|, p, g);
  }

  /** Every signature that has something to say is reported, and reasons come in the order of their
      signatures. */
  lemma {:induction false} ReasonsInOrder(e: Engine, n: nat, p: ProcessSnapshot, g: Graph, i: nat, j: nat)
    returns (a: nat, b: nat)
    requires i <= j < n <= |e.compiled|
    requires ExplainSignature(e, e.compiled[i], p, g).Some? && ExplainSignature(e, e.compiled[j], p, g).Some?
    ensures a <= b < |ExplainFirst(e, n, p, g)| && (i < j ==> a < b)
    ensures ExplainFirst(e, n, p, g)[a] == ExplainSignature(e, e.compiled[i], p, g).value
    ensures ExplainFirst(e, n, p, g)[b] == ExplainSignature(e, e.compiled[j], p, g).value
  {
    hide ExplainSignature;
    if j < n - 1 {
      a, b := ReasonsInOrder(e, n - 1, p, g, i, j);
    } else {
      b := |ExplainFirst(e, n - 1, p, g)|;
      a := b;
      if i < j {
        var last;
        a, last := ReasonsInOrder(e, n - 1, p, g, i, i);
      }
    }
  }

  /** A reported veto names the first rule that vetoes, and every reason names its process and signature. */
  lemma ReasonsAreNamed(e: Engine, sig: AgentSignature, p: ProcessSnapshot, g: Graph)
    requires ExplainSignature(e, sig, p, g).Some?
    ensures var said := ExplainSignature(e, sig, p, g).value;
            && said.pid == p.pid && said.name == p.name && said.signatureId == sig.id && said.required == e.thresholds.possible
            && (said.explanation.VetoedBy? ==>
                  exists i :: Fires(e, sig.rules.noneOf, i, p, g) && sig.rules.noneOf[i].pattern == said.explanation.pattern
                              && forall j :: 0 <= j < i ==> !Fires(e, sig.rules.noneOf, j, p, g))
  {
    hide RuleMatches, ExplainScore, Positive;
    FirstVetoIsFirst(e, sig.rules.noneOf, p, g);
  }

  lemma {:induction false} FirstVetoIsFirst(e: Engine, rules: seq<Rule>, p: ProcessSnapshot, g: Graph)
    ensures var veto := FirstVeto(e.matches, rules, p, g);
            veto.Some? ==> exists i :: Fires(e, rules, i, p, g) && rules[i] == veto.value
                                       && forall j :: 0 <= j < i ==> !Fires(e, rules, j, p, g)
  {
    hide RuleMatches;
    var veto := FirstVeto(e.matches, rules, p, g);
    if rules != [] && veto.Some? {
      if RuleMatches(e.matches, rules[0], p, g) {
        assert Fires(e, rules, 0, p, g);
      } else {
        FirstVetoIsFirst(e, rules[1..], p, g);
        var i :| Fires(e, rules[1..], i, p, g) && rules[1..][i] == veto.value
                 && forall j :: 0 <= j < i ==> !Fires(e, rules[1..], j, p, g);
        assert Fires(e, rules, i + 1, p, g);
        forall j | 0 <= j < i + 1 ensures !Fires(e, rules, j, p, g) {
          assert j > 0 ==> !Fires(e, rules[1..], j - 1, p, g);
        }
      }
    }
  }

  // --- Configuration ----------------------------------------------------------------------------

  /** Which rules survive compilation: exactly the valid ones, as often as they occur. */
  lemma {:induction false} ValidRulesStay(rules: seq<Rule>, valid: string -> bool, r: Rule)
    ensures multiset(KeepValid(rules, valid))[r] == if valid(r.pattern) then multiset(rules)[r] else 0
  {
    if rules != [] {
      ValidRulesStay(rules[..|rules| - 1], valid, r);
      assert rules == rules[..|rules| - 1] + [rules[|rules| - 1]];
    }
  }

  /** `out` is the signature with the valid rules of each list, and has a positive one. */
  predicate CompiledFrom(sig: AgentSignature, valid: string -> bool, out: AgentSignature) {
    && out == sig.(rules := out.rules)
    && out.rules.anyOf == KeepValid(sig.rules.anyOf, valid)
    && out.rules.allOf == KeepValid(sig.rules.allOf, valid)
    && out.rules.noneOf == KeepValid(sig.rules.noneOf, valid)
    && (out.rules.anyOf != [] || out.rules.allOf != [])
  }

  /** Which signatures survive it: exactly those left with a positive rule, each with its own id, name and
      declaration and its valid rules. */
  lemma {:induction false} CompiledExactly(sigs: seq<AgentSignature>, valid: string -> bool, out: AgentSignature)
    ensures out in Compile(sigs, valid) <==> exists sig :: sig in sigs && CompiledFrom(sig, valid, out)
  {
    hide Usable, CompiledFrom;
    if sigs != [] {
      var last := sigs[|sigs| - 1];
      CompiledExactly(sigs[..|sigs| - 1], valid, out);
      assert sigs == sigs[..|sigs| - 1] + [last];
      UsableIs(last, valid, out);
    }
  }

  lemma UsableIs(sig: AgentSignature, valid: string -> bool, out: AgentSignature)
    ensures CompiledFrom(sig, valid, out) <==> out == Usable(sig, valid) && !(out.rules.anyOf == [] && out.rules.allOf == [])
  {
    hide KeepValid;
  }
}
