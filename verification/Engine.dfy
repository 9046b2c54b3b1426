/** The detection engine: weighted scoring, selection of the best signature and its explanation
    (crates/guardian-process/src/engine.rs). The regular-expression library is an oracle: which
    texts a pattern matches, and which patterns compile, are parameters. */
module Engine {
  import opened Prelude
  import opened ProcessGraph
  import opened Agents
  import opened KeepFirst

  /** `matches(pattern, text)`: the case-insensitive match of a compiled pattern. */
  type Oracle = (string, string) -> bool

  datatype Evidence = Evidence(code: RuleField, weight: int, detail: string)

  datatype Detection = Detection(
    signatureId: string,
    displayName: string,
    confidence: Confidence,
    score: int,
    evidence: seq<Evidence>)

  datatype Thresholds = Thresholds(possible: int, high: int, confirmed: int)

  datatype Engine = Engine(
    compiled: seq<AgentSignature>,
    thresholds: Thresholds,
    neverAgentNames: seq<string>,
    matches: Oracle)

  // --- Configuration ------------------------------------------------------------

  /** A user signature replaces the one with its id in place, or is appended. */
  function Upsert(sigs: seq<AgentSignature>, user: AgentSignature): seq<AgentSignature> {
    if sigs == [] then [user]
    else if sigs[0].id == user.id then [user] + sigs[1..]
    else [sigs[0]] + Upsert(sigs[1..], user)
  }

  function Merge(builtins: seq<AgentSignature>, users: seq<AgentSignature>): seq<AgentSignature> {
    if users == [] then builtins
    else Upsert(Merge(builtins, users[..|users| - 1]), users[|users| - 1])
  }

  function Lookup(sigs: seq<AgentSignature>, id: string): Option<AgentSignature> {
    if sigs == [] then None else if sigs[0].id == id then Some(sigs[0]) else Lookup(sigs[1..], id)
  }

  method MergeSignatures(builtins: seq<AgentSignature>, users: seq<AgentSignature>) returns (sigs: seq<AgentSignature>)
    ensures sigs == Merge(builtins, users)
  {
    sigs := builtins;
    for i := 0 to |users|
      invariant sigs == Merge(builtins, users[..i])
    {
      assert users[..i + 1][..i] == users[..i];
      ghost var before := sigs;
      var k := 0;
      while k < |sigs| && sigs[k].id != users[i].id
        invariant k <= |sigs|
        invariant Upsert(sigs, users[i]) == sigs[..k] + Upsert(sigs[k..], users[i])
      {
        k := k + 1;
      }
      if k < |sigs| {
        sigs := sigs[k := users[i]];
        assert sigs == before[..k] + ([users[i]] + before[k..][1..]);
      } else {
        sigs := sigs + [users[i]];
      }
    }
    assert users[..|users|] == users;
  }

  lemma {:induction false} UpsertIds(sigs: seq<AgentSignature>, user: AgentSignature)
    ensures forall k :: 0 <= k < |Upsert(sigs, user)| ==>
              Upsert(sigs, user)[k].id == user.id || exists j :: 0 <= j < |sigs| && sigs[j].id == Upsert(sigs, user)[k].id
    ensures DistinctIds(sigs, SignatureId) ==> DistinctIds(Upsert(sigs, user), SignatureId)
    ensures forall id :: Lookup(Upsert(sigs, user), id) == if id == user.id then Some(user) else Lookup(sigs, id)
  {
    if sigs != [] && sigs[0].id != user.id {
      UpsertIds(sigs[1..], user);
    }
  }

  /** The last user signature with an id, else the built-in one. */
  function Chosen(builtins: seq<AgentSignature>, users: seq<AgentSignature>, id: string): Option<AgentSignature> {
    if users == [] then Lookup(builtins, id)
    else if users[|users| - 1].id == id then Some(users[|users| - 1])
    else Chosen(builtins, users[..|users| - 1], id)
  }

  /** Merging keeps ids distinct whatever the user list repeats, and every id ends up with the last
      user signature that names it, else with the built-in. */
  lemma {:induction false} MergeKeepsIdsDistinct(builtins: seq<AgentSignature>, users: seq<AgentSignature>)
    requires DistinctIds(builtins, SignatureId)
    ensures DistinctIds(Merge(builtins, users), SignatureId)
    ensures forall id :: Lookup(Merge(builtins, users), id) == Chosen(builtins, users, id)
  {
    if users != [] {
      var n := |users| - 1;
      MergeKeepsIdsDistinct(builtins, users[..n]);
      UpsertIds(Merge(builtins, users[..n]), users[n]);
    }
  }

  function KeepValid(rules: seq<Rule>, valid: string -> bool): seq<Rule> {
    if rules == [] then []
    else KeepValid(rules[..|rules| - 1], valid) + (if valid(rules[|rules| - 1].pattern) then [rules[|rules| - 1]] else [])
  }

  /** A signature with its invalid rules dropped. */
  function Usable(sig: AgentSignature, valid: string -> bool): AgentSignature {
    sig.(rules := SignatureRules(KeepValid(sig.rules.anyOf, valid), KeepValid(sig.rules.allOf, valid),
                                 KeepValid(sig.rules.noneOf, valid)))
  }

  /** The compiled signatures: those left with a positive rule, in order. */
  function Compile(sigs: seq<AgentSignature>, valid: string -> bool): seq<AgentSignature> {
    if sigs == [] then []
    else
      var sig := Usable(sigs[|sigs| - 1], valid);
      Compile(sigs[..|sigs| - 1], valid) + (if sig.rules.anyOf == [] && sig.rules.allOf == [] then [] else [sig])
  }

  method CompileEngine(sigs: seq<AgentSignature>, valid: string -> bool) returns (compiled: seq<AgentSignature>)
    ensures compiled == Compile(sigs, valid)
  {
    compiled := [];
    for i := 0 to |sigs|
      invariant compiled == Compile(sigs[..i], valid)
    {
      assert sigs[..i + 1][..i] == sigs[..i];
      var anyOf := CompileRules(sigs[i].rules.anyOf, valid);
      var allOf := CompileRules(sigs[i].rules.allOf, valid);
      var noneOf := CompileRules(sigs[i].rules.noneOf, valid);
      if anyOf == [] && allOf == [] {
        continue;
      }
      compiled := compiled + [sigs[i].(rules := SignatureRules(anyOf, allOf, noneOf))];
    }
    assert sigs[..|sigs|] == sigs;
  }

  method CompileRules(rules: seq<Rule>, valid: string -> bool) returns (out: seq<Rule>)
    ensures out == KeepValid(rules, valid)
  {
    out := [];
    for i := 0 to |rules|
      invariant out == KeepValid(rules[..i], valid)
    {
      assert rules[..i + 1][..i] == rules[..i];
      if valid(rules[i].pattern) {
        out := out + [rules[i]];
      }
    }
    assert rules[..|rules|] == rules;
  }

  /** Whatever the user configures, the compiled signatures have distinct ids: the assumption under
      which selection is order independent always holds. */
  lemma ConfiguredIdsAreDistinct(builtins: seq<AgentSignature>, users: seq<AgentSignature>, valid: string -> bool)
    requires DistinctIds(builtins, SignatureId)
    ensures UniqueIds(Compile(Merge(builtins, users), valid))
  {
    MergeKeepsIdsDistinct(builtins, users);
    CompileKeepsIds(Merge(builtins, users), valid);
  }

  lemma {:induction false} CompileInventsNoId(sigs: seq<AgentSignature>, valid: string -> bool, id: string)
    requires HasId(Compile(sigs, valid), SignatureId, id)
    ensures HasId(sigs, SignatureId, id)
  {
    var n := |sigs| - 1;
    if sigs[n].id != id {
      CompileInventsNoId(sigs[..n], valid, id);
      var s :| s in sigs[..n] && s.id == id;
      assert s in sigs && SignatureId(s) == id;
    } else {
      assert sigs[n] in sigs && SignatureId(sigs[n]) == id;
    }
  }

  lemma {:induction false} CompileKeepsIds(sigs: seq<AgentSignature>, valid: string -> bool)
    requires DistinctIds(sigs, SignatureId)
    ensures DistinctIds(Compile(sigs, valid), SignatureId)
  {
    if sigs != [] {
      var n := |sigs| - 1;
      CompileKeepsIds(sigs[..n], valid);
      if HasId(Compile(sigs[..n], valid), SignatureId, sigs[n].id) {
        CompileInventsNoId(sigs[..n], valid, sigs[n].id);
      }
    }
  }

  // --- Scoring -----------------------------------------------------------------------

  function ParentOf(g: Graph, pid: Pid): Option<ProcessSnapshot> {
    if pid in g.nodes && g.nodes[pid].parentPid in g.nodes then Some(g.nodes[g.nodes[pid].parentPid]) else None
  }

  predicate MatchesOpt(matches: Oracle, pattern: string, text: Option<string>) {
    text.Some? && matches(pattern, text.value)
  }

  predicate RuleMatches(matches: Oracle, rule: Rule, p: ProcessSnapshot, g: Graph) {
    match rule.field
    case ProcessName => matches(rule.pattern, p.name)
    case ImagePath => MatchesOpt(matches, rule.pattern, p.imagePath)
    case CommandLine => MatchesOpt(matches, rule.pattern, p.cmdline)
    case ParentName => var q := ParentOf(g, p.pid); q.Some? && matches(rule.pattern, q.value.name)
    case ParentPath =>
      var q := ParentOf(g, p.pid);
      q.Some? && (MatchesOpt(matches, rule.pattern, q.value.imagePath) || MatchesOpt(matches, rule.pattern, q.value.cmdline))
    case ChildName =>
      exists c :: c in g.ChildrenOf(p.pid) && c in g.nodes && matches(rule.pattern, g.nodes[c].name)
    case PackagePath =>
      MatchesOpt(matches, rule.pattern, p.imagePath) || MatchesOpt(matches, rule.pattern, p.cmdline)
  }

  function EvidenceOf(rule: Rule): Evidence {
    Evidence(rule.field, rule.weight, rule.detail)
  }

  /** The evidence of the rules that match, in order. */
  function Gather(matches: Oracle, rules: seq<Rule>, p: ProcessSnapshot, g: Graph): seq<Evidence> {
    if rules == [] then []
    else
      var n := |rules| - 1;
      Gather(matches, rules[..n], p, g)
      + (if RuleMatches(matches, rules[n], p, g) then [EvidenceOf(rules[n])] else [])
  }

  function Total(evidence: seq<Evidence>): int {
    if evidence == [] then 0 else Total(evidence[..|evidence| - 1]) + evidence[|evidence| - 1].weight
  }

  predicate AllMatch(matches: Oracle, rules: seq<Rule>, p: ProcessSnapshot, g: Graph) {
    forall i :: 0 <= i < |rules| ==> RuleMatches(matches, rules[i], p, g)
  }

  predicate Vetoed(matches: Oracle, sig: AgentSignature, p: ProcessSnapshot, g: Graph) {
    exists i :: 0 <= i < |sig.rules.noneOf| && RuleMatches(matches, sig.rules.noneOf[i], p, g)
  }

  predicate Positive(matches: Oracle, sig: AgentSignature, p: ProcessSnapshot, g: Graph) {
    || (exists i :: 0 <= i < |sig.rules.anyOf| && RuleMatches(matches, sig.rules.anyOf[i], p, g))
    || (sig.rules.allOf != [] && AllMatch(matches, sig.rules.allOf, p, g))
  }

  /** All evidence a signature has about a process. */
  function FullEvidence(matches: Oracle, sig: AgentSignature, p: ProcessSnapshot, g: Graph): seq<Evidence> {
    Gather(matches, sig.rules.anyOf, p, g)
    + (if AllMatch(matches, sig.rules.allOf, p, g) then Gather(matches, sig.rules.allOf, p, g) else [])
  }

  function RawConfidence(t: Thresholds, score: int): Confidence {
    if score >= t.confirmed then Confidence.Confirmed
    else if score >= t.high then Confidence.High
    else if score >= t.possible then Confidence.Possible
    else Confidence.Unknown
  }

  /** The score meets the threshold of `level` or of a higher level. */
  predicate Reaches(t: Thresholds, score: int, level: Confidence) {
    || score >= t.confirmed
    || (level.Rank() <= 2 && score >= t.high)
    || (level.Rank() <= 1 && score >= t.possible)
    || level.Rank() == 0
  }

  /** The confidence is at least `level` exactly when the score reaches it and the signature's declared
      confidence admits it: no higher than declared, and no lower than the score earns below that. */
  function ConfidenceFor(t: Thresholds, sig: AgentSignature, score: int): (c: Confidence)
    ensures forall level: Confidence ::
              c.Rank() >= level.Rank() <==> level.Rank() <= sig.confidence.Cap().Rank() && Reaches(t, score, level)
  {
    var raw, cap := RawConfidence(t, score), sig.confidence.Cap();
    if raw.Rank() <= cap.Rank() then raw else cap
  }

  /** What one signature says about one process: nothing when vetoed or without a positive match,
      else all its evidence and its total weight. */
  function Score(e: Engine, sig: AgentSignature, p: ProcessSnapshot, g: Graph): Option<Detection> {
    if Vetoed(e.matches, sig, p, g) || !Positive(e.matches, sig, p, g) then None
    else
      var evidence := FullEvidence(e.matches, sig, p, g);
      var score := Total(evidence);
      Some(Detection(sig.id, sig.displayName, ConfidenceFor(e.thresholds, sig, score), score, evidence))
  }

  lemma TotalAppend(a: seq<Evidence>, b: seq<Evidence>)
    ensures Total(a + b) == Total(a) + Total(b)
  {
    if b == [] {
      assert a + b == a;
    } else {
      TotalAppend(a, b[..|b| - 1]);
      assert (a + b)[..|a + b| - 1] == a + b[..|b| - 1];
    }
  }

  method ScoreSignature(e: Engine, sig: AgentSignature, p: ProcessSnapshot, g: Graph) returns (det: Option<Detection>)
    ensures det == Score(e, sig, p, g)
  {
    hide RuleMatches, Gather;
    for i := 0 to |sig.rules.noneOf|
      invariant forall j :: 0 <= j < i ==> !RuleMatches(e.matches, sig.rules.noneOf[j], p, g)
    {
      if RuleMatches(e.matches, sig.rules.noneOf[i], p, g) {
        return None;
      }
    }

    var evidence, score, positive := AddAnyOf(e, sig.rules.anyOf, p, g);
    ghost var some := evidence;
    if sig.rules.allOf != [] {
      var allMatched, add, addScore := AddAllOf(e, sig.rules.allOf, p, g);
      if allMatched {
        TotalAppend(evidence, add);
        evidence := evidence + add;
        score := score + addScore;
        positive := positive + 1;
      }
    }
    if positive == 0 {
      return None;
    }
    GatherNothing(e.matches, p, g);
    assert some + [] == some;
    det := Some(Detection(sig.id, sig.displayName, ConfidenceFor(e.thresholds, sig, score), score, evidence));
  }

  lemma GatherNothing(matches: Oracle, p: ProcessSnapshot, g: Graph)
    ensures Gather(matches, [], p, g) == []
  {
  }

  /** The `any_of` loop. */
  method AddAnyOf(e: Engine, rules: seq<Rule>, p: ProcessSnapshot, g: Graph)
    returns (evidence: seq<Evidence>, score: int, positive: nat)
    ensures evidence == Gather(e.matches, rules, p, g) && score == Total(evidence)
    ensures positive > 0 <==> exists j :: 0 <= j < |rules| && RuleMatches(e.matches, rules[j], p, g)
  {
    hide RuleMatches;
    evidence, score, positive := [], 0, 0;
    for i := 0 to |rules|
      invariant evidence == Gather(e.matches, rules[..i], p, g) && score == Total(evidence)
      invariant positive > 0 <==> exists j :: 0 <= j < i && RuleMatches(e.matches, rules[j], p, g)
    {
      assert rules[..i + 1][..i] == rules[..i];
      if RuleMatches(e.matches, rules[i], p, g) {
        evidence := evidence + [EvidenceOf(rules[i])];
        score := score + rules[i].weight;
        positive := positive + 1;
      }
    }
    assert rules[..|rules|] == rules;
  }

  /** The `all_of` loop, left at the first rule that does not match. */
  method AddAllOf(e: Engine, rules: seq<Rule>, p: ProcessSnapshot, g: Graph)
    returns (allMatched: bool, add: seq<Evidence>, addScore: int)
    ensures allMatched == AllMatch(e.matches, rules, p, g)
    ensures allMatched ==> add == Gather(e.matches, rules, p, g) && addScore == Total(add)
  {
    allMatched, add, addScore := true, [], 0;
    for i := 0 to |rules|
      invariant AllMatch(e.matches, rules[..i], p, g)
      invariant add == Gather(e.matches, rules[..i], p, g) && addScore == Total(add)
    {
      assert rules[..i + 1][..i] == rules[..i];
      if RuleMatches(e.matches, rules[i], p, g) {
        add := add + [EvidenceOf(rules[i])];
        addScore := addScore + rules[i].weight;
      } else {
        allMatched := false;
        return;
      }
    }
    assert rules[..|rules|] == rules;
  }

  // --- Selection ------------------------------------------------------------------------

  predicate NeverAgent(e: Engine, p: ProcessSnapshot) {
    exists i :: 0 <= i < |e.neverAgentNames| && EqIgnoreCase(e.neverAgentNames[i], Lower(p.name))
  }

  /** `d` is preferred to `b`: a higher score, or the same score and the lesser id. */
  predicate Beats(d: Detection, b: Detection) {
    d.score > b.score || (d.score == b.score && LexLess(d.signatureId, b.signatureId))
  }

  function Better(best: Option<Detection>, det: Option<Detection>): Option<Detection> {
    if det.Some? && (best.None? || Beats(det.value, best.value)) then det else best
  }

  /** The best detection among the first `n` compiled signatures. */
  function BestOf(e: Engine, n: nat, p: ProcessSnapshot, g: Graph): Option<Detection>
    requires n <= |e.compiled|
  {
    if n == 0 then None else Better(BestOf(e, n - 1, p, g), Score(e, e.compiled[n - 1], p, g))
  }

  function Inspect(e: Engine, p: ProcessSnapshot, g: Graph): Option<Detection> {
    if NeverAgent(e, p) then None else BestOf(e, |e.compiled|, p, g)
  }

  method InspectProcess(e: Engine, p: ProcessSnapshot, g: Graph) returns (best: Option<Detection>)
    ensures best == Inspect(e, p, g)
  {
    if exists i :: 0 <= i < |e.neverAgentNames| && EqIgnoreCase(e.neverAgentNames[i], Lower(p.name)) {
      return None;
    }
    best := None;
    for i := 0 to |e.compiled|
      invariant best == BestOf(e, i, p, g)
    {
      var det := ScoreSignature(e, e.compiled[i], p, g);
      if det.Some? {
        var better := match best { case None => true case Some(b) => Beats(det.value, b) };
        if better {
          best := det;
        }
      }
    }
  }

  lemma BeatsIsOrder(a: Detection, b: Detection, c: Detection)
    ensures Beats(a, b) && Beats(b, c) ==> Beats(a, c)
    ensures Beats(a, b) ==> !Beats(b, a)
    ensures a.signatureId != b.signatureId ==> Beats(a, b) || Beats(b, a)
  {
    if Beats(a, b) && Beats(b, c) && a.score == b.score == c.score {
      LexTransitive(a.signatureId, b.signatureId, c.signatureId);
    }
    if LexLess(a.signatureId, b.signatureId) {
      LexAsymmetric(a.signatureId, b.signatureId);
    }
    LexTotal(a.signatureId, b.signatureId);
  }

  /** `d` comes from an unvetoed signature among the first `n` and beats every other candidate. */
  ghost predicate IsBest(e: Engine, n: nat, p: ProcessSnapshot, g: Graph, d: Detection)
    requires n <= |e.compiled|
  {
    && (exists i :: 0 <= i < n && Score(e, e.compiled[i], p, g) == Some(d))
    && (forall i :: 0 <= i < n && Score(e, e.compiled[i], p, g).Some? ==>
          Score(e, e.compiled[i], p, g).value == d || Beats(d, Score(e, e.compiled[i], p, g).value))
  }

  ghost predicate AllSilent(e: Engine, n: nat, p: ProcessSnapshot, g: Graph)
    requires n <= |e.compiled|
  {
    forall i :: 0 <= i < n ==> Score(e, e.compiled[i], p, g).None?
  }

  /** The fold finds the best candidate, and none exactly when every signature is silent. */
  lemma {:induction false} BestOfIsBest(e: Engine, n: nat, p: ProcessSnapshot, g: Graph)
    requires n <= |e.compiled| && UniqueIds(e.compiled)
    ensures match BestOf(e, n, p, g)
            case None => AllSilent(e, n, p, g)
            case Some(d) => IsBest(e, n, p, g, d)
  {
    if n > 0 {
      hide Score, Beats, UniqueIds, IsBest, AllSilent;
      BestOfIsBest(e, n - 1, p, g);
      var best, det := BestOf(e, n - 1, p, g), Score(e, e.compiled[n - 1], p, g);
      if best.None? {
        FirstCandidate(e, n, p, g);
      } else {
        if det.Some? {
          RivalsCompare(e, n, p, g, best.value, det.value);
        }
        if det.Some? && Beats(det.value, best.value) {
          BestIsReplaced(e, n, p, g, best.value, det.value);
        } else {
          BestIsKept(e, n, p, g, best.value);
        }
      }
    } else {
      hide Score;
    }
  }

  lemma FirstCandidate(e: Engine, n: nat, p: ProcessSnapshot, g: Graph)
    requires 0 < n <= |e.compiled| && AllSilent(e, n - 1, p, g)
    ensures match Score(e, e.compiled[n - 1], p, g)
            case None => AllSilent(e, n, p, g)
            case Some(d) => IsBest(e, n, p, g, d)
  {
    hide Score, Beats;
  }

  lemma BestIsKept(e: Engine, n: nat, p: ProcessSnapshot, g: Graph, d: Detection)
    requires 0 < n <= |e.compiled| && IsBest(e, n - 1, p, g, d)
    requires var det := Score(e, e.compiled[n - 1], p, g); det.None? || det.value == d || Beats(d, det.value)
    ensures IsBest(e, n, p, g, d)
  {
    hide Score, Beats;
  }

  lemma BestIsReplaced(e: Engine, n: nat, p: ProcessSnapshot, g: Graph, best: Detection, det: Detection)
    requires 0 < n <= |e.compiled| && IsBest(e, n - 1, p, g, best)
    requires Score(e, e.compiled[n - 1], p, g) == Some(det) && Beats(det, best)
    ensures IsBest(e, n, p, g, det)
  {
    hide Score, Beats;
    forall i | 0 <= i < n - 1 && Score(e, e.compiled[i], p, g).Some?
      ensures Beats(det, Score(e, e.compiled[i], p, g).value)
    {
      BeatsIsOrder(det, best, Score(e, e.compiled[i], p, g).value);
    }
  }

  /** Two candidates are equal or one beats the other: only one signature has an id. */
  lemma RivalsCompare(e: Engine, n: nat, p: ProcessSnapshot, g: Graph, best: Detection, det: Detection)
    requires 0 < n <= |e.compiled| && UniqueIds(e.compiled) && IsBest(e, n - 1, p, g, best)
    requires Score(e, e.compiled[n - 1], p, g) == Some(det)
    ensures best == det || Beats(best, det) || Beats(det, best)
  {
    hide Score, Beats;
    var k :| 0 <= k < n - 1 && Score(e, e.compiled[k], p, g) == Some(best);
    ScoreNamesSignature(e, e.compiled[k], p, g);
    ScoreNamesSignature(e, e.compiled[n - 1], p, g);
    BeatsIsOrder(det, best, best);
  }

  lemma ScoreNamesSignature(e: Engine, sig: AgentSignature, p: ProcessSnapshot, g: Graph)
    requires Score(e, sig, p, g).Some?
    ensures var d := Score(e, sig, p, g).value;
            && d.signatureId == sig.id
            && d.confidence.Rank() <= sig.confidence.Cap().Rank()
            && d.score == Total(d.evidence)
            && !Vetoed(e.matches, sig, p, g)
  {
  }

  /** A detection names an unvetoed signature, never exceeds its declared confidence, and its score
      is the total of its evidence. */
  lemma InspectIsSound(e: Engine, p: ProcessSnapshot, g: Graph)
    requires UniqueIds(e.compiled) && Inspect(e, p, g).Some?
    ensures var d := Inspect(e, p, g).value;
            exists i :: 0 <= i < |e.compiled| && e.compiled[i].id == d.signatureId
                        && !Vetoed(e.matches, e.compiled[i], p, g)
                        && d.confidence.Rank() <= e.compiled[i].confidence.Cap().Rank()
                        && d.score == Total(d.evidence)
  {
    BestOfIsBest(e, |e.compiled|, p, g);
    var d := Inspect(e, p, g).value;
    var i :| 0 <= i < |e.compiled| && Score(e, e.compiled[i], p, g) == Some(d);
    ScoreNamesSignature(e, e.compiled[i], p, g);
    hide Score, BestOf;
  }

  /** Selection depends only on which signatures are compiled, not on their order. */
  lemma SelectionIsOrderIndependent(e: Engine, sigs: seq<AgentSignature>, p: ProcessSnapshot, g: Graph)
    requires UniqueIds(e.compiled) && multiset(sigs) == multiset(e.compiled)
    ensures Inspect(e.(compiled := sigs), p, g) == Inspect(e, p, g)
  {
    var f := e.(compiled := sigs);
    hide Score, Beats, BestOf, UniqueIds;
    forall s ensures s in sigs <==> s in e.compiled {
      assert s in multiset(sigs) <==> s in multiset(e.compiled);
    }
    SameUniqueIds(sigs, e.compiled);
    BestOfIsBest(e, |e.compiled|, p, g);
    BestOfIsBest(f, |sigs|, p, g);
    SameScore(e, sigs, p, g);
    var a, b := BestOf(e, |e.compiled|, p, g), BestOf(f, |sigs|, p, g);
    if a.Some? {
      var i :| 0 <= i < |e.compiled| && Score(e, e.compiled[i], p, g) == a;
      assert e.compiled[i] in sigs;
      var j :| 0 <= j < |sigs| && sigs[j] == e.compiled[i];
      assert Score(f, sigs[j], p, g) == a;
    }
    if b.Some? {
      var j :| 0 <= j < |sigs| && Score(f, sigs[j], p, g) == b;
      assert sigs[j] in e.compiled;
      var i :| 0 <= i < |e.compiled| && e.compiled[i] == sigs[j];
      assert Score(e, e.compiled[i], p, g) == b;
      assert a.Some?;
      BeatsIsOrder(a.value, b.value, b.value);
    }
  }

  lemma SameUniqueIds(a: seq<AgentSignature>, b: seq<AgentSignature>)
    requires UniqueIds(b) && forall s :: s in a ==> s in b
    ensures UniqueIds(a)
  {
    forall i, j | 0 <= i < |a| && 0 <= j < |a| && a[i].id == a[j].id ensures a[i] == a[j] {
      assert a[i] in b && a[j] in b;
    }
  }

  lemma SameScore(e: Engine, sigs: seq<AgentSignature>, p: ProcessSnapshot, g: Graph)
    ensures forall s :: Score(e.(compiled := sigs), s, p, g) == Score(e, s, p, g)
  {
  }

  // --- Explanation ------------------------------------------------------------------------

  datatype Explanation = Excluded | VetoedBy(pattern: string) | BelowThreshold | Matched

  datatype RejectionReason = RejectionReason(
    pid: Pid, name: string, signatureId: string, score: int, required: int, explanation: Explanation)

  /** The sum `explain` keeps of its own: the weights of the matching rules, left to right. */
  function MatchedWeight(matches: Oracle, rules: seq<Rule>, p: ProcessSnapshot, g: Graph): int {
    if rules == [] then 0
    else MatchedWeight(matches, rules[..|rules| - 1], p, g)
         + (if RuleMatches(matches, rules[|rules| - 1], p, g) then rules[|rules| - 1].weight else 0)
  }

  function WeightSum(rules: seq<Rule>): int {
    if rules == [] then 0 else WeightSum(rules[..|rules| - 1]) + rules[|rules| - 1].weight
  }

  function FirstVeto(matches: Oracle, rules: seq<Rule>, p: ProcessSnapshot, g: Graph): Option<Rule> {
    if rules == [] then None
    else if RuleMatches(matches, rules[0], p, g) then Some(rules[0])
    else FirstVeto(matches, rules[1..], p, g)
  }

  function ExplainScore(matches: Oracle, sig: AgentSignature, p: ProcessSnapshot, g: Graph): int {
    MatchedWeight(matches, sig.rules.anyOf, p, g)
    + (if sig.rules.allOf != [] && AllMatch(matches, sig.rules.allOf, p, g) then WeightSum(sig.rules.allOf) else 0)
  }

  /** What `explain` reports about one signature, scored without the veto's short circuit. */
  function ExplainSignature(e: Engine, sig: AgentSignature, p: ProcessSnapshot, g: Graph): Option<RejectionReason> {
    var veto := FirstVeto(e.matches, sig.rules.noneOf, p, g);
    var score := ExplainScore(e.matches, sig, p, g);
    if !Positive(e.matches, sig, p, g) && veto.None? then None
    else
      var why := if veto.Some? then VetoedBy(veto.value.pattern)
                 else if score < e.thresholds.possible then BelowThreshold else Matched;
      Some(RejectionReason(p.pid, p.name, sig.id, score, e.thresholds.possible, why))
  }

  function ExplainFirst(e: Engine, n: nat, p: ProcessSnapshot, g: Graph): seq<RejectionReason>
    requires n <= |e.compiled|
  {
    if n == 0 then []
    else
      var reason := ExplainSignature(e, e.compiled[n - 1], p, g);
      ExplainFirst(e, n - 1, p, g) + (if reason.Some? then [reason.value] else [])
  }

  method Explain(e: Engine, p: ProcessSnapshot, g: Graph) returns (out: seq<RejectionReason>)
    ensures NeverAgent(e, p) ==> out == [RejectionReason(p.pid, p.name, "", 0, e.thresholds.possible, Excluded)]
    ensures !NeverAgent(e, p) ==> out == ExplainFirst(e, |e.compiled|, p, g)
  {
    if exists i :: 0 <= i < |e.neverAgentNames| && EqIgnoreCase(e.neverAgentNames[i], Lower(p.name)) {
      return [RejectionReason(p.pid, p.name, "", 0, e.thresholds.possible, Excluded)];
    }
    out := [];
    for k := 0 to |e.compiled|
      invariant out == ExplainFirst(e, k, p, g)
    {
      var sig := e.compiled[k];
      var veto := FirstVeto(e.matches, sig.rules.noneOf, p, g);
      var score, matched := ExplainLoop(e, sig, p, g);
      if matched == 0 && veto.None? {
        continue;
      }
      var why := if veto.Some? then VetoedBy(veto.value.pattern)
                 else if score < e.thresholds.possible then BelowThreshold else Matched;
      out := out + [RejectionReason(p.pid, p.name, sig.id, score, e.thresholds.possible, why)];
    }
  }

  method ExplainLoop(e: Engine, sig: AgentSignature, p: ProcessSnapshot, g: Graph) returns (score: int, matched: nat)
    ensures score == ExplainScore(e.matches, sig, p, g)
    ensures matched > 0 <==> Positive(e.matches, sig, p, g)
  {
    score, matched := 0, 0;
    var rules := sig.rules.anyOf;
    for i := 0 to |rules|
      invariant score == MatchedWeight(e.matches, rules[..i], p, g)
      invariant matched > 0 <==> exists j :: 0 <= j < i && RuleMatches(e.matches, rules[j], p, g)
    {
      assert rules[..i + 1][..i] == rules[..i];
      if RuleMatches(e.matches, rules[i], p, g) {
        score := score + rules[i].weight;
        matched := matched + 1;
      }
    }
    assert rules[..|rules|] == rules;
    if sig.rules.allOf != [] && AllMatch(e.matches, sig.rules.allOf, p, g) {
      score := score + WeightSum(sig.rules.allOf);
      matched := matched + 1;
    }
  }

  lemma {:induction false} GatherTotal(matches: Oracle, rules: seq<Rule>, p: ProcessSnapshot, g: Graph)
    ensures Total(Gather(matches, rules, p, g)) == MatchedWeight(matches, rules, p, g)
    ensures AllMatch(matches, rules, p, g) ==> MatchedWeight(matches, rules, p, g) == WeightSum(rules)
  {
    if rules != [] {
      var n := |rules| - 1;
      hide RuleMatches;
      GatherTotal(matches, rules[..n], p, g);
      TotalAppend(Gather(matches, rules[..n], p, g), if RuleMatches(matches, rules[n], p, g) then [EvidenceOf(rules[n])] else []);
    }
  }

  lemma {:induction false} VetoAgrees(matches: Oracle, rules: seq<Rule>, p: ProcessSnapshot, g: Graph)
    ensures FirstVeto(matches, rules, p, g).Some? <==> exists i :: 0 <= i < |rules| && RuleMatches(matches, rules[i], p, g)
  {
    if rules != [] && !RuleMatches(matches, rules[0], p, g) {
      hide RuleMatches;
      VetoAgrees(matches, rules[1..], p, g);
      forall i | 0 <= i < |rules| && RuleMatches(matches, rules[i], p, g)
        ensures 0 < i && rules[1..][i - 1] == rules[i]
      {
      }
    }
  }

  lemma UnknownIsBelow(t: Thresholds, sig: AgentSignature, score: int)
    requires t.possible <= t.high <= t.confirmed
    ensures ConfidenceFor(t, sig, score).Unknown? <==> score < t.possible
  {
  }

  /** The explanation agrees with the detection: the sums are equal although computed apart, a
      signature is reported as vetoed exactly when a veto silences it, and not at all exactly when it
      has nothing to say. With ordered thresholds (the source only ever uses 40, 80 and 120) it is
      reported as matched exactly when its detection reaches `Possible`. */
  lemma ExplanationAgrees(e: Engine, sig: AgentSignature, p: ProcessSnapshot, g: Graph)
    ensures var said, det := ExplainSignature(e, sig, p, g), Score(e, sig, p, g);
            && (det.Some? ==> said.Some? && said.value.score == det.value.score)
            && (said.Some? && said.value.explanation.VetoedBy? <==> Vetoed(e.matches, sig, p, g))
            && (said.None? <==> det.None? && !Vetoed(e.matches, sig, p, g))
            && (e.thresholds.possible <= e.thresholds.high <= e.thresholds.confirmed ==>
                  && (said.Some? && said.value.explanation.Matched? <==> det.Some? && !det.value.confidence.Unknown?)
                  && (said.Some? && said.value.explanation.BelowThreshold? <==> det.Some? && det.value.confidence.Unknown?))
  {
    hide RuleMatches, Positive, ConfidenceFor, Gather, MatchedWeight, FirstVeto;
    if e.thresholds.possible <= e.thresholds.high <= e.thresholds.confirmed {
      UnknownIsBelow(e.thresholds, sig, ExplainScore(e.matches, sig, p, g));
    }
    VetoAgrees(e.matches, sig.rules.noneOf, p, g);
    GatherTotal(e.matches, sig.rules.anyOf, p, g);
    GatherTotal(e.matches, sig.rules.allOf, p, g);
    TotalAppend(Gather(e.matches, sig.rules.anyOf, p, g), Gather(e.matches, sig.rules.allOf, p, g));
    assert Gather(e.matches, sig.rules.anyOf, p, g) + [] == Gather(e.matches, sig.rules.anyOf, p, g);
  }
}
