/** Wrapper suppression and session grouping on top of the process graph
    (crates/guardian-process/src/engine.rs, lines 366-422 and 641-700). */
module Suppression {
  import opened Prelude
  import opened ProcessGraph
  import opened Subtree
  import opened Agents
  import opened Engine

  const WALK_LIMIT: nat := 512

  /** A matched process. */
  datatype Hit = Hit(pid: Pid, det: Detection)

  /** At least as strong, by confidence and then by score. */
  predicate AtLeast(d: Detection, e: Detection) {
    d.confidence.Rank() > e.confidence.Rank() || (d.confidence == e.confidence && d.score >= e.score)
  }

  predicate Stronger(d: Detection, e: Detection) {
    AtLeast(d, e) && !AtLeast(e, d)
  }

  predicate DistinctHits(hits: seq<Hit>) {
    forall i, j :: 0 <= i < j < |hits| ==> hits[i].pid != hits[j].pid
  }

  /** The matched processes, in the iteration order of the node map. */
  function Matched(e: Engine, g: Graph, order: seq<Pid>): seq<Hit> {
    if order == [] then []
    else
      var pid := order[|order| - 1];
      var rest := Matched(e, g, order[..|order| - 1]);
      if pid in g.nodes && Inspect(e, g.nodes[pid], g).Some?
      then rest + [Hit(pid, Inspect(e, g.nodes[pid], g).value)] else rest
  }

  /** Some other process in the bounded subtree matched at least as strongly. */
  predicate Shadowed(g: Graph, hits: seq<Hit>, h: Hit)
    requires g.Indexed()
  {
    var below := SubtreeOf(g, h.pid, WALK_LIMIT);
    exists i :: 0 <= i < |below| && below[i] != h.pid && below[i] in g.nodes
                && exists k :: 0 <= k < |hits| && hits[k].pid == below[i] && AtLeast(hits[k].det, h.det)
  }

  function Unshadowed(g: Graph, hits: seq<Hit>, candidates: seq<Hit>): seq<Hit>
    requires g.Indexed()
  {
    if candidates == [] then []
    else
      var rest := Unshadowed(g, hits, candidates[..|candidates| - 1]);
      var h := candidates[|candidates| - 1];
      if Shadowed(g, hits, h) then rest else rest + [h]
  }

  function Survivors(g: Graph, hits: seq<Hit>): seq<Hit>
    requires g.Indexed()
  {
    if |hits| < 2 then hits else Unshadowed(g, hits, hits)
  }

  /** Every agent-like process once, wrappers resolved. */
  function DetectAgents(e: Engine, g: Graph, order: seq<Pid>): seq<Hit>
    requires g.Indexed()
  {
    Survivors(g, Matched(e, g, order))
  }

  // --- What the filters keep ---------------------------------------------------------

  /** The hits are processes of the graph, one each. */
  predicate ProperHits(g: Graph, hits: seq<Hit>) {
    DistinctHits(hits) && forall i :: 0 <= i < |hits| ==> hits[i].pid in g.nodes
  }

  lemma {:induction false} MatchedIs(e: Engine, g: Graph, order: seq<Pid>)
    ensures forall h :: h in Matched(e, g, order) <==>
              h.pid in order && h.pid in g.nodes && Inspect(e, g.nodes[h.pid], g) == Some(h.det)
    ensures Distinct(order) ==> ProperHits(g, Matched(e, g, order))
  {
    if order != [] {
      hide Inspect;
      var n := |order| - 1;
      assert order == order[..n] + [order[n]];
      MatchedIs(e, g, order[..n]);
      var rest := Matched(e, g, order[..n]);
      forall i | 0 <= i < |rest| && Distinct(order) ensures rest[i].pid != order[n] {
        assert rest[i] in rest;
      }
    }
  }

  lemma {:induction false} UnshadowedIs(g: Graph, hits: seq<Hit>, candidates: seq<Hit>)
    requires g.Indexed()
    ensures forall h :: h in Unshadowed(g, hits, candidates) <==> h in candidates && !Shadowed(g, hits, h)
    ensures DistinctHits(candidates) ==> DistinctHits(Unshadowed(g, hits, candidates))
  {
    if candidates != [] {
      hide Shadowed;
      var n := |candidates| - 1;
      UnshadowedIs(g, hits, candidates[..n]);
      assert candidates == candidates[..n] + [candidates[n]];
      if DistinctHits(candidates) && !Shadowed(g, hits, candidates[n]) {
        var rest := Unshadowed(g, hits, candidates[..n]);
        forall i | 0 <= i < |rest| ensures rest[i].pid != candidates[n].pid {
          assert rest[i] in candidates[..n];
        }
      }
    }
  }

  /** In a list with one hit per process, the hit of a process is unique. */
  lemma SameHit(hits: seq<Hit>, h: Hit, k: Hit)
    requires DistinctHits(hits) && h in hits && k in hits && h.pid == k.pid
    ensures h == k
  {
  }

  /** The early return for fewer than two matches agrees with the filter. */
  lemma SurvivorsAre(g: Graph, hits: seq<Hit>)
    requires g.Indexed() && DistinctHits(hits)
    ensures forall h :: h in Survivors(g, hits) <==> h in hits && !Shadowed(g, hits, h)
    ensures DistinctHits(Survivors(g, hits))
  {
    UnshadowedIs(g, hits, hits);
  }

  /** `q` shadows `h`: another process strictly below it that matched at least as strongly. */
  ghost predicate Shadows(g: Graph, q: Hit, h: Hit) {
    q.pid != h.pid && StrictlyBelow(g, h.pid, q.pid) && AtLeast(q.det, h.det)
  }

  /** No hit's subtree is cut at the limit. */
  predicate Uncut(g: Graph, hits: seq<Hit>)
    requires g.Indexed()
  {
    forall i :: 0 <= i < |hits| ==> |SubtreeOf(g, hits[i].pid, WALK_LIMIT)| < WALK_LIMIT
  }

  lemma ShadowedHasWitness(g: Graph, hits: seq<Hit>, h: Hit) returns (q: Hit)
    requires g.Indexed() && Shadowed(g, hits, h)
    ensures q in hits && Shadows(g, q, h)
  {
    var below := SubtreeOf(g, h.pid, WALK_LIMIT);
    var i :| 0 <= i < |below| && below[i] != h.pid && below[i] in g.nodes
             && exists k :: 0 <= k < |hits| && hits[k].pid == below[i] && AtLeast(hits[k].det, h.det);
    var k :| 0 <= k < |hits| && hits[k].pid == below[i] && AtLeast(hits[k].det, h.det);
    q := hits[k];
    SubtreeIsBelow(g, h.pid, WALK_LIMIT, q.pid);
    hide SubtreeOf;
  }

  lemma UncutShadow(g: Graph, hits: seq<Hit>, h: Hit, q: Hit)
    requires g.Indexed() && ProperHits(g, hits) && q in hits && Shadows(g, q, h)
    requires |SubtreeOf(g, h.pid, WALK_LIMIT)| < WALK_LIMIT
    ensures Shadowed(g, hits, h)
  {
    SubtreeIsBelow(g, h.pid, WALK_LIMIT, q.pid);
    var below := SubtreeOf(g, h.pid, WALK_LIMIT);
    hide SubtreeOf;
    var i :| 0 <= i < |below| && below[i] == q.pid;
    var k :| 0 <= k < |hits| && hits[k] == q;
    assert hits[k].pid in g.nodes;
  }

  lemma StrictlyBelowTrans(g: Graph, a: Pid, b: Pid, c: Pid)
    requires StrictlyBelow(g, a, b) && StrictlyBelow(g, b, c)
    ensures StrictlyBelow(g, a, c)
  {
    var m: nat :| m > 0 && g.Up(b, m) == Some(a);
    var n: nat :| n > 0 && g.Up(c, n) == Some(b);
    UpAdd(g, c, n, m);
  }

  /** The processes at or below a process. */
  ghost function Below(g: Graph, pid: Pid): set<Pid> {
    set q | q in g.nodes && (q == pid || StrictlyBelow(g, pid, q))
  }

  lemma BelowShrinks(g: Graph, p: Pid, q: Pid)
    requires StrictlyBelow(g, p, q) && p in g.nodes
    ensures Below(g, q) <= Below(g, p)
    ensures !StrictlyBelow(g, q, p) && p != q ==> Below(g, q) < Below(g, p)
  {
    forall x | x in Below(g, q) ensures x in Below(g, p) {
      if x != q {
        StrictlyBelowTrans(g, p, q, x);
      }
    }
    assert p in Below(g, p);
  }

  // --- Suppression on acyclic graphs -----------------------------------------------------

  lemma AcyclicMeansOneWay(g: Graph, p: Pid, q: Pid)
    requires g.Acyclic() && StrictlyBelow(g, p, q)
    ensures p != q && !StrictlyBelow(g, q, p)
  {
    if StrictlyBelow(g, q, p) {
      StrictlyBelowTrans(g, p, q, p);
      assert false;
    }
  }

  /** Wrapper suppression never loses an agent: on an acyclic graph every dropped process has a
      strict descendant that survives and is at least as strong, even where the 512 limit cuts
      subtrees. */
  lemma {:induction false} SuppressionKeepsAgents(g: Graph, hits: seq<Hit>, h: Hit) returns (k: Hit)
    requires g.Indexed() && g.Acyclic() && ProperHits(g, hits)
    requires h in hits && h !in Survivors(g, hits)
    ensures k in Survivors(g, hits) && StrictlyBelow(g, h.pid, k.pid)
    ensures k.det.confidence.Rank() > h.det.confidence.Rank()
         || (k.det.confidence == h.det.confidence && k.det.score >= h.det.score)
    decreases Below(g, h.pid)
  {
    SurvivorsAre(g, hits);
    hide Survivors, Shadowed;
    var q := ShadowedHasWitness(g, hits, h);
    if q in Survivors(g, hits) {
      k := q;
    } else {
      AcyclicMeansOneWay(g, h.pid, q.pid);
      BelowShrinks(g, h.pid, q.pid);
      k := SuppressionKeepsAgents(g, hits, q);
      StrictlyBelowTrans(g, h.pid, q.pid, k.pid);
    }
  }

  /** With no subtree cut, a survivor has no other matched process below it that is at least as
      strong. */
  lemma SurvivorsAreUnshadowed(g: Graph, hits: seq<Hit>, h: Hit, q: Hit)
    requires g.Indexed() && ProperHits(g, hits) && h in Survivors(g, hits) && q in hits
    requires |SubtreeOf(g, h.pid, WALK_LIMIT)| < WALK_LIMIT
    ensures !Shadows(g, q, h)
    ensures q.pid != h.pid && StrictlyBelow(g, h.pid, q.pid) ==>
              q.det.confidence.Rank() < h.det.confidence.Rank()
              || (q.det.confidence == h.det.confidence && q.det.score < h.det.score)
  {
    RanksSeparate(q.det.confidence, h.det.confidence);
    SurvivorsAre(g, hits);
    hide Survivors, Shadowed, SubtreeOf;
    if Shadows(g, q, h) {
      UncutShadow(g, hits, h, q);
    }
  }

  lemma RanksSeparate(a: Confidence, b: Confidence)
    ensures a.Rank() == b.Rank() ==> a == b
  {
  }

  /** Suppression drops nothing else: a match with no other match below it that is at least as strong survives,
      wherever the limit cuts. With the converse above, this is exact on uncut subtrees. */
  lemma UnrivalledSurvives(g: Graph, hits: seq<Hit>, h: Hit)
    requires g.Indexed() && DistinctHits(hits) && h in hits
    requires forall q :: q in hits && q.pid != h.pid && StrictlyBelow(g, h.pid, q.pid) ==>
               q.det.confidence.Rank() < h.det.confidence.Rank()
               || (q.det.confidence == h.det.confidence && q.det.score < h.det.score)
    ensures h in Survivors(g, hits)
  {
    SurvivorsAre(g, hits);
    hide Survivors, Shadowed;
    if Shadowed(g, hits, h) {
      var q := ShadowedHasWitness(g, hits, h);
    }
  }

  /** Filtering again removes nothing, on every graph and at every limit. */
  lemma SuppressionIsIdempotent(g: Graph, hits: seq<Hit>)
    requires g.Indexed() && DistinctHits(hits)
    ensures Survivors(g, Survivors(g, hits)) == Survivors(g, hits)
  {
    var once := Survivors(g, hits);
    SurvivorsAre(g, hits);
    forall h | h in once ensures !Shadowed(g, once, h) {
      FewerShadow(g, hits, once, h);
    }
    hide Survivors, Shadowed;
    NothingToDrop(g, once, once);
    SurvivorsOf(g, once);
  }

  lemma SurvivorsOf(g: Graph, hits: seq<Hit>)
    requires g.Indexed()
    ensures Survivors(g, hits) == hits || Survivors(g, hits) == Unshadowed(g, hits, hits)
  {
  }

  lemma FewerShadow(g: Graph, hits: seq<Hit>, fewer: seq<Hit>, h: Hit)
    requires g.Indexed() && (forall x :: x in fewer ==> x in hits) && !Shadowed(g, hits, h)
    ensures !Shadowed(g, fewer, h)
  {
    hide SubtreeOf, AtLeast;
    var below := SubtreeOf(g, h.pid, WALK_LIMIT);
    forall i, k | 0 <= i < |below| && below[i] != h.pid && below[i] in g.nodes
                  && 0 <= k < |fewer| && fewer[k].pid == below[i]
      ensures !AtLeast(fewer[k].det, h.det)
    {
      assert fewer[k] in hits;
      var m :| 0 <= m < |hits| && hits[m] == fewer[k];
    }
  }

  lemma {:induction false} NothingToDrop(g: Graph, hits: seq<Hit>, candidates: seq<Hit>)
    requires g.Indexed() && forall h :: h in candidates ==> !Shadowed(g, hits, h)
    ensures Unshadowed(g, hits, candidates) == candidates
  {
    if candidates != [] {
      hide Shadowed;
      NothingToDrop(g, hits, candidates[..|candidates| - 1]);
    }
  }

  /** Which agents are reported does not depend on the iteration order of the node map. */
  lemma DetectionIgnoresIterationOrder(e: Engine, g: Graph, order: seq<Pid>, other: seq<Pid>)
    requires g.Indexed() && Distinct(order) && Distinct(other) && forall p :: p in order <==> p in other
    ensures forall h :: h in DetectAgents(e, g, order) <==> h in DetectAgents(e, g, other)
  {
    MatchedIs(e, g, order);
    MatchedIs(e, g, other);
    var a, b := Matched(e, g, order), Matched(e, g, other);
    hide Inspect, Matched, Survivors, Shadowed;
    SurvivorsAre(g, a);
    SurvivorsAre(g, b);
    forall h ensures Shadowed(g, a, h) <==> Shadowed(g, b, h) {
      if !Shadowed(g, a, h) {
        FewerShadow(g, a, b, h);
      } else if !Shadowed(g, b, h) {
        FewerShadow(g, b, a, h);
      }
    }
  }

  /** What is reported, end to end: on a graph of fewer than 512 processes, cycles included, a process is reported
      with a detection exactly when inspection finds it and no other process strictly below it is found with a
      higher confidence, or the same and at least the score. */
  lemma DetectedExactly(e: Engine, g: Graph, order: seq<Pid>, h: Hit)
    requires g.Indexed() && |g.nodes| < 512 && Distinct(order) && forall p :: p in order <==> p in g.nodes
    ensures h in DetectAgents(e, g, order) <==>
              && h.pid in g.nodes && Inspect(e, g.nodes[h.pid], g) == Some(h.det)
              && !(exists q :: q in g.nodes && Outdone(e, g, h, q))
  {
    var hits := Matched(e, g, order);
    MatchedIs(e, g, order);
    SurvivorsAre(g, hits);
    assert h in DetectAgents(e, g, order) <==> h in Survivors(g, hits);
    hide Inspect, Matched, Survivors, Shadowed, StrictlyBelow, DetectAgents;
    if h in hits {
      SmallSubtree(g, h.pid);
      if q: Pid :| q in g.nodes && Outdone(e, g, h, q) {
        var k := Hit(q, Inspect(e, g.nodes[q], g).value);
        assert k in hits;
        if h in Survivors(g, hits) {
          SurvivorsAreUnshadowed(g, hits, h, k);
          assert false;
        }
      } else {
        forall k | k in hits && k.pid != h.pid && StrictlyBelow(g, h.pid, k.pid)
          ensures k.det.confidence.Rank() < h.det.confidence.Rank()
                  || (k.det.confidence == h.det.confidence && k.det.score < h.det.score)
        {
          RanksSeparate(k.det.confidence, h.det.confidence);
          assert !Outdone(e, g, h, k.pid);
        }
        UnrivalledSurvives(g, hits, h);
      }
    }
  }

  /** Another process strictly below is found at least as strongly. */
  ghost predicate Outdone(e: Engine, g: Graph, h: Hit, q: Pid)
    requires q in g.nodes
  {
    var found := Inspect(e, g.nodes[q], g);
    && q != h.pid && StrictlyBelow(g, h.pid, q) && found.Some?
    && (found.value.confidence.Rank() > h.det.confidence.Rank()
        || (found.value.confidence == h.det.confidence && found.value.score >= h.det.score))
  }

  // --- Suppression on graphs with parent cycles --------------------------------------------

  /** Two equally strong hits on one parent cycle: each shadows the other. */
  ghost predicate Tied(g: Graph, h: Hit, k: Hit) {
    Shadows(g, k, h) && Shadows(g, h, k)
  }

  /** A hit that shadows `h` and is stronger or off the cycles through `h`. */
  ghost predicate Escapes(g: Graph, hits: seq<Hit>, t: Hit, h: Hit) {
    t in hits && Shadows(g, t, h) && (Stronger(t.det, h.det) || !StrictlyBelow(g, t.pid, h.pid))
  }

  ghost predicate TiesEscape(g: Graph, hits: seq<Hit>) {
    forall h, k :: h in hits && k in hits && Tied(g, h, k) ==> exists t :: Escapes(g, hits, t, h)
  }

  ghost predicate NoAgentLost(g: Graph, hits: seq<Hit>)
    requires g.Indexed()
  {
    forall h :: h in hits && h !in Survivors(g, hits) ==> exists k :: k in Survivors(g, hits) && Shadows(g, k, h)
  }

  ghost function StrongerHits(hits: seq<Hit>, h: Hit): set<Hit> {
    set x | x in hits && Stronger(x.det, h.det)
  }

  lemma EscapeProgresses(g: Graph, hits: seq<Hit>, t: Hit, h: Hit)
    requires Escapes(g, hits, t, h) && h.pid in g.nodes && t.pid in g.nodes
    ensures Below(g, t.pid) < Below(g, h.pid)
         || (Below(g, t.pid) == Below(g, h.pid) && StrongerHits(hits, t) < StrongerHits(hits, h))
  {
    BelowShrinks(g, h.pid, t.pid);
    if StrictlyBelow(g, t.pid, h.pid) {
      BelowShrinks(g, t.pid, h.pid);
      assert t in StrongerHits(hits, h) && t !in StrongerHits(hits, t);
    }
  }

  lemma {:induction false} EscapesReachSurvivor(g: Graph, hits: seq<Hit>, h: Hit) returns (k: Hit)
    requires g.Indexed() && ProperHits(g, hits) && TiesEscape(g, hits)
    requires h in hits && h !in Survivors(g, hits)
    ensures k in Survivors(g, hits) && Shadows(g, k, h)
    decreases Below(g, h.pid), StrongerHits(hits, h)
  {
    SurvivorsAre(g, hits);
    hide Survivors, Shadowed, Below, StrongerHits;
    var t := ShadowedHasWitness(g, hits, h);
    if Tied(g, h, t) {
      t :| Escapes(g, hits, t, h);
    }
    assert Escapes(g, hits, t, h);
    if t in Survivors(g, hits) {
      k := t;
    } else {
      EscapeProgresses(g, hits, t, h);
      k := EscapesReachSurvivor(g, hits, t);
      StrictlyBelowTrans(g, h.pid, t.pid, k.pid);
      if k.pid == h.pid {
        SameHit(hits, h, k);
      }
    }
  }

  lemma LostUnlessTiesEscape(g: Graph, hits: seq<Hit>, h: Hit, k: Hit) returns (t: Hit)
    requires g.Indexed() && ProperHits(g, hits) && Uncut(g, hits) && NoAgentLost(g, hits)
    requires h in hits && k in hits && Tied(g, h, k)
    ensures Escapes(g, hits, t, h)
  {
    SurvivorsAre(g, hits);
    hide Survivors, Shadowed, SubtreeOf;
    var i :| 0 <= i < |hits| && hits[i] == h;
    assert |SubtreeOf(g, hits[i].pid, WALK_LIMIT)| < WALK_LIMIT;
    UncutShadow(g, hits, h, k);
    t :| t in Survivors(g, hits) && Shadows(g, t, h);
    var j :| 0 <= j < |hits| && hits[j] == t;
    SurvivorsAreUnshadowed(g, hits, t, h);
  }

  /** The exact condition on arbitrary graphs: with no subtree cut, suppression loses no agent if
      and only if every two equally strong matches on one parent cycle have a match below them that
      is at least as strong and is stronger or off their cycle. */
  lemma SuppressionOnCycles(g: Graph, hits: seq<Hit>)
    requires g.Indexed() && ProperHits(g, hits) && Uncut(g, hits)
    ensures NoAgentLost(g, hits) <==> TiesEscape(g, hits)
  {
    hide Survivors, Uncut, Tied, Escapes, Shadows, ProperHits;
    if TiesEscape(g, hits) {
      forall h | h in hits && h !in Survivors(g, hits) ensures exists k :: k in Survivors(g, hits) && Shadows(g, k, h) {
        var k := EscapesReachSurvivor(g, hits, h);
      }
    }
    if NoAgentLost(g, hits) {
      forall h, k | h in hits && k in hits && Tied(g, h, k) ensures exists t :: Escapes(g, hits, t, h) {
        var t := LostUnlessTiesEscape(g, hits, h, k);
      }
    }
  }

  /** Two equally strong matches whose parent pids name each other suppress one another. */
  lemma TiedPairIsLost(p: ProcessSnapshot, q: ProcessSnapshot, det: Detection)
    requires p.pid != q.pid && p.pid != 0 && q.pid != 0 && p.parentPid == q.pid && q.parentPid == p.pid
    ensures var g := Graph(map[p.pid := p, q.pid := q], map[p.pid := [q.pid], q.pid := [p.pid]]);
            g.Indexed() && forall h :: h !in Survivors(g, [Hit(p.pid, det), Hit(q.pid, det)])
  {
    var g := Graph(map[p.pid := p, q.pid := q], map[p.pid := [q.pid], q.pid := [p.pid]]);
    var hits := [Hit(p.pid, det), Hit(q.pid, det)];
    assert g.Indexed();
    assert g.Up(q.pid, 1) == Some(p.pid) && g.Up(p.pid, 1) == Some(q.pid);
    assert hits[0] in hits && hits[1] in hits;
    SmallSubtree(g, p.pid);
    SmallSubtree(g, q.pid);
    UncutShadow(g, hits, hits[0], hits[1]);
    UncutShadow(g, hits, hits[1], hits[0]);
    SurvivorsAre(g, hits);
  }

  lemma SmallSubtree(g: Graph, pid: Pid)
    requires g.Indexed() && pid in g.nodes && |g.nodes| < WALK_LIMIT
    ensures |SubtreeOf(g, pid, WALK_LIMIT)| < WALK_LIMIT
  {
    SubtreeFits(g, pid, WALK_LIMIT);
  }

  // --- Session grouping ----------------------------------------------------------------------

  function FindHit(hits: seq<Hit>, pid: Pid): Option<Hit> {
    if hits == [] then None else if hits[0].pid == pid then Some(hits[0]) else FindHit(hits[1..], pid)
  }

  /** `a` was detected with at least the confidence of `h`. */
  predicate Owns(hits: seq<Hit>, h: Hit, a: Pid) {
    var hit := FindHit(hits, a);
    hit.Some? && hit.value.det.confidence.Rank() >= h.det.confidence.Rank()
  }

  /** The first of the given ancestors that owns `h`. */
  function Owner(hits: seq<Hit>, h: Hit, ancestors: seq<Pid>): Option<Pid> {
    if ancestors == [] then None
    else if Owns(hits, h, ancestors[0]) then Some(ancestors[0])
    else Owner(hits, h, ancestors[1..])
  }

  function RootPid(g: Graph, hits: seq<Hit>, h: Hit): Pid {
    Owner(hits, h, Ancestors(g, h.pid)).GetOr(h.pid)
  }

  datatype AgentInstance = AgentInstance(
    kind: string,
    displayName: string,
    pid: Pid,
    rootPid: Pid,
    confidence: Confidence,
    evidence: seq<Evidence>,
    ancestry: seq<Pid>)

  function InstanceOf(g: Graph, hits: seq<Hit>, h: Hit): AgentInstance {
    var root := RootPid(g, hits, h);
    AgentInstance(h.det.signatureId, h.det.displayName, h.pid, root, h.det.confidence, h.det.evidence, Ancestors(g, root))
  }

  method GroupSessions(g: Graph, hits: seq<Hit>) returns (instances: seq<AgentInstance>)
    ensures |instances| == |hits|
    ensures forall i :: 0 <= i < |hits| ==> instances[i] == InstanceOf(g, hits, hits[i])
    ensures forall i :: 0 <= i < |hits| ==>
              var det, instance := hits[i].det, instances[i];
              && instance.pid == hits[i].pid && instance.kind == det.signatureId && instance.displayName == det.displayName
              && instance.confidence == det.confidence && instance.evidence == det.evidence
              && instance.rootPid == RootPid(g, hits, hits[i]) && instance.ancestry == Ancestors(g, instance.rootPid)
  {
    instances := [];
    for i := 0 to |hits|
      invariant |instances| == i
      invariant forall j :: 0 <= j < i ==> instances[j] == InstanceOf(g, hits, hits[j])
    {
      var h := hits[i];
      var owner := FindOwner(g, hits, h);
      var root := owner.GetOr(h.pid);
      var ancestry := CollectAncestors(g, root);
      instances := instances
        + [AgentInstance(h.det.signatureId, h.det.displayName, h.pid, root, h.det.confidence, h.det.evidence, ancestry)];
    }
  }

  method FindOwner(g: Graph, hits: seq<Hit>, h: Hit) returns (owner: Option<Pid>)
    ensures owner == Owner(hits, h, Ancestors(g, h.pid))
  {
    owner := None;
    var ancestors := CollectAncestors(g, h.pid);
    for i := 0 to |ancestors|
      invariant owner.None?
      invariant Owner(hits, h, ancestors) == Owner(hits, h, ancestors[i..])
    {
      var hit := FindHit(hits, ancestors[i]);
      if hit.Some? && hit.value.det.confidence.Rank() >= h.det.confidence.Rank() {
        owner := Some(ancestors[i]);
        break;
      }
    }
  }

  /** Some match is the process `a` and has at least the confidence of `h`. */
  ghost predicate Qualifies(hits: seq<Hit>, h: Hit, a: Pid) {
    exists k :: k in hits && k.pid == a && k.det.confidence.Rank() >= h.det.confidence.Rank()
  }

  /** A match is found by its pid, and only a match is found. */
  lemma {:induction false} FindHitExactly(hits: seq<Hit>, h: Hit)
    requires DistinctHits(hits)
    ensures h in hits <==> FindHit(hits, h.pid) == Some(h)
  {
    FindHitFinds(hits, h.pid);
    if hits != [] && hits[0].pid != h.pid {
      FindHitExactly(hits[1..], h);
      assert hits == [hits[0]] + hits[1..];
    } else if h in hits {
      var i :| 0 <= i < |hits| && hits[i] == h;
      assert i == 0;
    }
  }

  lemma OwnsIs(hits: seq<Hit>, h: Hit, a: Pid)
    requires DistinctHits(hits)
    ensures Owns(hits, h, a) <==> Qualifies(hits, h, a)
  {
    FindHitFinds(hits, a);
    if k: Hit :| k in hits && k.pid == a && k.det.confidence.Rank() >= h.det.confidence.Rank() {
      FindHitExactly(hits, k);
    }
  }

  /** Where a match is grouped: under the nearest of its ancestors that is a match of at least its confidence,
      and under itself exactly when no ancestor is one. */
  lemma GroupedUnderNearest(g: Graph, hits: seq<Hit>, h: Hit)
    requires DistinctHits(hits)
    ensures var ancestors, root := Ancestors(g, h.pid), RootPid(g, hits, h);
            || (root == h.pid && forall i :: 0 <= i < |ancestors| ==> !Qualifies(hits, h, ancestors[i]))
            || (exists i :: 0 <= i < |ancestors| && ancestors[i] == root && Qualifies(hits, h, root)
                            && forall j :: 0 <= j < i ==> !Qualifies(hits, h, ancestors[j]))
  {
    hide Ancestors, Owns, Qualifies;
    var ancestors := Ancestors(g, h.pid);
    OwnerIsFirst(hits, h, ancestors);
    forall a ensures Owns(hits, h, a) <==> Qualifies(hits, h, a) {
      OwnsIs(hits, h, a);
    }
  }

  lemma {:induction false} OwnerIsFirst(hits: seq<Hit>, h: Hit, ancestors: seq<Pid>)
    ensures match Owner(hits, h, ancestors)
            case None => forall i :: 0 <= i < |ancestors| ==> !Owns(hits, h, ancestors[i])
            case Some(a) => exists i :: 0 <= i < |ancestors| && ancestors[i] == a && Owns(hits, h, a)
                                        && forall j :: 0 <= j < i ==> !Owns(hits, h, ancestors[j])
  {
    if ancestors != [] && !Owns(hits, h, ancestors[0]) {
      hide Owns;
      OwnerIsFirst(hits, h, ancestors[1..]);
      var rest := Owner(hits, h, ancestors[1..]);
      if rest.Some? {
        var i :| 0 <= i < |ancestors[1..]| && ancestors[1..][i] == rest.value
                 && forall j :: 0 <= j < i ==> !Owns(hits, h, ancestors[1..][j]);
        assert ancestors[i + 1] == rest.value;
        forall j | 0 <= j < i + 1 ensures !Owns(hits, h, ancestors[j]) {
          assert j > 0 ==> ancestors[j] == ancestors[1..][j - 1];
        }
      } else {
        forall j | 0 <= j < |ancestors| ensures !Owns(hits, h, ancestors[j]) {
          assert j > 0 ==> ancestors[j] == ancestors[1..][j - 1];
        }
      }
    }
  }

  lemma {:induction false} FindHitFinds(hits: seq<Hit>, pid: Pid)
    ensures FindHit(hits, pid).Some? ==> FindHit(hits, pid).value in hits && FindHit(hits, pid).value.pid == pid
  {
    if hits != [] && hits[0].pid != pid {
      FindHitFinds(hits[1..], pid);
    }
  }

  /** Grouping after suppression is strict: on a graph of fewer than 512 nodes, a survivor grouped
      under another process is grouped under its nearest matched ancestor of sufficient confidence,
      and that owner is strictly stronger. */
  lemma GroupingIsStrict(g: Graph, hits: seq<Hit>, h: Hit) returns (o: Hit, i: nat)
    requires g.Indexed() && ProperHits(g, hits) && |g.nodes| < 512
    requires h in Survivors(g, hits) && RootPid(g, Survivors(g, hits), h) != h.pid
    ensures var kept := Survivors(g, hits);
            var ancestors := Ancestors(g, h.pid);
            && o in kept && o.pid == RootPid(g, kept, h) && StrictlyBelow(g, o.pid, h.pid)
            && Stronger(o.det, h.det)
            && (o.det.confidence.Rank() > h.det.confidence.Rank()
                || (o.det.confidence == h.det.confidence && o.det.score > h.det.score))
            && i < |ancestors| && ancestors[i] == o.pid
            && (forall j :: 0 <= j < i ==> !Owns(kept, h, ancestors[j]) && !Qualifies(kept, h, ancestors[j]))
  {
    var kept := Survivors(g, hits);
    var ancestors := Ancestors(g, h.pid);
    SurvivorsAre(g, hits);
    hide Survivors, Ancestors, Shadowed, SubtreeOf;
    OwnerIsFirst(kept, h, ancestors);
    var pid := RootPid(g, kept, h);
    i :| 0 <= i < |ancestors| && ancestors[i] == pid && forall j :: 0 <= j < i ==> !Owns(kept, h, ancestors[j]);
    FindHitFinds(kept, pid);
    o := FindHit(kept, pid).value;
    AncestorsLieAbove(g, h.pid, pid);
    assert o in hits;
    SmallSubtree(g, pid);
    SurvivorsAreUnshadowed(g, hits, o, h);
    forall j | 0 <= j < i ensures !Qualifies(kept, h, ancestors[j]) {
      OwnsIs(kept, h, ancestors[j]);
    }
  }
}
