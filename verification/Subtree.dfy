/** The bounded breadth-first walk of crates/guardian-process/src/graph.rs, on every graph, cycles
    included, and its duality with the upward walk. */
module Subtree {
  import opened Prelude
  import opened ProcessGraph

  /** The children in `cs` not met before, in order. */
  function Fresh(cs: seq<Pid>, seen: set<Pid>): (r: seq<Pid>)
    ensures Distinct(r)
    ensures forall c :: c in r <==> c in cs && c !in seen
  {
    if cs == [] then []
    else
      var n := |cs| - 1;
      var r := Fresh(cs[..n], seen);
      assert cs == cs[..n] + [cs[n]];
      if cs[n] in seen || cs[n] in r then r else r + [cs[n]]
  }

  /** The elements of `cs` outside `seen`, in the order of `cs`. */
  function Unseen(cs: seq<Pid>, seen: set<Pid>): seq<Pid> {
    if cs == [] then [] else (if cs[0] in seen then [] else [cs[0]]) + Unseen(cs[1..], seen)
  }

  lemma {:induction false} UnseenAtEnd(cs: seq<Pid>, seen: set<Pid>)
    requires cs != []
    ensures var n := |cs| - 1; Unseen(cs, seen) == Unseen(cs[..n], seen) + (if cs[n] in seen then [] else [cs[n]])
  {
    var n := |cs| - 1;
    if n > 0 {
      UnseenAtEnd(cs[1..], seen);
      assert cs[1..][..n - 1] == cs[..n][1..];
    }
  }

  /** New children join the queue in the order in which they are listed. */
  lemma {:induction false} FreshInOrder(cs: seq<Pid>, seen: set<Pid>)
    requires Distinct(cs)
    ensures Fresh(cs, seen) == Unseen(cs, seen)
  {
    if cs != [] {
      var n := |cs| - 1;
      FreshInOrder(cs[..n], seen);
      UnseenAtEnd(cs, seen);
      assert cs[n] !in cs[..n];
    }
  }

  function Bfs(g: Graph, queue: seq<Pid>, seen: set<Pid>, out: seq<Pid>, limit: nat): seq<Pid>
    requires g.Indexed()
    decreases g.nodes.Keys - seen, |queue|
  {
    if queue == [] then out
    else
      var current := queue[0];
      var visited := out + [current];
      if |visited| >= limit then visited
      else
        var found := Fresh(g.ChildrenOf(current), seen);
        var known := seen + set c | c in found;
        UnseenShrinks(g, current, seen);
        Bfs(g, queue[1..] + found, known, visited, limit)
  }

  lemma UnseenShrinks(g: Graph, current: Pid, seen: set<Pid>)
    requires g.Indexed()
    ensures var found := Fresh(g.ChildrenOf(current), seen);
            var known := seen + set c | c in found;
            && (found == [] ==> known == seen)
            && (found != [] ==> g.nodes.Keys - known < g.nodes.Keys - seen)
  {
    var found := Fresh(g.ChildrenOf(current), seen);
    if found != [] {
      assert found[0] in found && found[0] in g.ChildrenOf(current);
      assert g.Parent(found[0]) == Some(current);
      assert found[0] in g.nodes.Keys - seen;
    }
  }

  /** `pid` and its descendants, breadth first, bounded by `limit`. */
  function SubtreeOf(g: Graph, pid: Pid, limit: nat): seq<Pid>
    requires g.Indexed()
  {
    Bfs(g, [pid], {pid}, [], limit)
  }

  /** The inner loop: enqueues the children not seen before. */
  method Enqueue(cs: seq<Pid>, queue0: seq<Pid>, seen0: set<Pid>) returns (queue: seq<Pid>, seen: set<Pid>)
    ensures queue == queue0 + Fresh(cs, seen0)
    ensures seen == seen0 + set c | c in Fresh(cs, seen0)
  {
    queue, seen := queue0, seen0;
    for i := 0 to |cs|
      invariant seen == seen0 + set c | c in Fresh(cs[..i], seen0)
      invariant queue == queue0 + Fresh(cs[..i], seen0)
    {
      assert cs[..i + 1][..i] == cs[..i];
      if cs[i] !in seen {
        seen := seen + {cs[i]};
        queue := queue + [cs[i]];
      }
    }
    assert cs[..|cs|] == cs;
  }

  method CollectSubtree(g: Graph, pid: Pid, limit: nat) returns (out: seq<Pid>)
    requires g.Indexed()
    ensures out == SubtreeOf(g, pid, limit)
  {
    hide Fresh;
    out := [];
    var queue := [pid];
    var seen := {pid};
    while queue != []
      invariant Bfs(g, queue, seen, out, limit) == SubtreeOf(g, pid, limit)
      decreases g.nodes.Keys - seen, |queue|
    {
      var current := queue[0];
      out := out + [current];
      if |out| >= limit { return; }
      UnseenShrinks(g, current, seen);
      queue, seen := Enqueue(g.ChildrenOf(current), queue[1..], seen);
    }
  }

  // --- Distances ------------------------------------------------------------------

  lemma ChildLiesBelow(g: Graph, r: Pid, p: Pid, c: Pid)
    requires g.Below(r, p) && g.Parent(c) == Some(p)
    ensures g.Below(r, c)
  {
    var n: nat :| g.Up(p, n) == Some(r);
    assert g.Up(c, n + 1) == Some(r);
  }

  /** Below `r`, every node other than `r` is one step further away than its parent. */
  lemma DistanceParent(g: Graph, r: Pid, x: Pid)
    requires g.Below(r, x) && x != r
    ensures g.Parent(x).Some? && g.Below(r, g.Parent(x).value)
    ensures g.Distance(r, x) == g.Distance(r, g.Parent(x).value) + 1
  {
    var d := g.Distance(r, x);
    assert g.Up(x, 0) != Some(r);
    var p := g.Parent(x).value;
    assert g.Up(p, d - 1) == Some(r);
    var e := g.Distance(r, p);
    assert g.Up(x, e + 1) == Some(r);
    assert e >= d - 1;
  }

  lemma RootDistance(g: Graph, r: Pid)
    ensures g.Below(r, r) && g.Distance(r, r) == 0
  {
    assert g.Up(r, 0) == Some(r);
  }

  // --- The invariant of the walk ------------------------------------------------------

  ghost function Dist(g: Graph, r: Pid, x: Pid): nat {
    if g.Below(r, x) then g.Distance(r, x) else 0
  }

  ghost predicate Ordered(g: Graph, r: Pid, s: seq<Pid>) {
    && (forall i :: 0 <= i < |s| ==> g.Below(r, s[i]))
    && (forall i, j :: 0 <= i < j < |s| ==> Dist(g, r, s[i]) <= Dist(g, r, s[j]))
  }

  /** Everything discovered, `r` first, without repetition. */
  ghost predicate Discovered(r: Pid, all: seq<Pid>, seen: set<Pid>) {
    |all| > 0 && all[0] == r && Distinct(all) && seen == set x | x in all
  }

  ghost predicate ClosedUnder(g: Graph, out: seq<Pid>, seen: set<Pid>) {
    forall x, c :: x in out && g.Parent(c) == Some(x) ==> c in seen
  }

  /** Of everything discovered the first `k` are done and the rest are the wave front. */
  ghost predicate Wave(g: Graph, r: Pid, all: seq<Pid>, k: nat, seen: set<Pid>) {
    && k <= |all|
    && Discovered(r, all, seen)
    && Ordered(g, r, all)
    && Tight(g, r, all, k)
    && ClosedUnder(g, all[..k], seen)
  }

  /** The front spans at most one distance step. */
  ghost predicate Tight(g: Graph, r: Pid, all: seq<Pid>, k: nat) {
    k < |all| ==> Dist(g, r, all[|all| - 1]) <= Dist(g, r, all[k]) + 1
  }

  lemma AppendOrdered(g: Graph, r: Pid, s: seq<Pid>, t: seq<Pid>, d: nat)
    requires Ordered(g, r, s)
    requires s != [] ==> Dist(g, r, s[|s| - 1]) <= d
    requires forall i :: 0 <= i < |t| ==> g.Below(r, t[i]) && Dist(g, r, t[i]) == d
    ensures Ordered(g, r, s + t)
  {
  }

  lemma AppendDistinct(s: seq<Pid>, t: seq<Pid>)
    requires Distinct(s) && Distinct(t) && forall x :: x in t ==> x !in s
    ensures Distinct(s + t)
  {
    forall i, j | 0 <= i < j < |s + t| ensures (s + t)[i] != (s + t)[j] {
      if i < |s| && j >= |s| {
        assert t[j - |s|] in t && s[i] in s;
      }
    }
  }

  lemma FreshDistance(g: Graph, r: Pid, current: Pid, seen: set<Pid>, c: Pid)
    requires g.Indexed() && r in seen && g.Below(r, current) && c in Fresh(g.ChildrenOf(current), seen)
    ensures g.Below(r, c) && Dist(g, r, c) == Dist(g, r, current) + 1
  {
    assert g.Parent(c) == Some(current);
    ChildLiesBelow(g, r, current, c);
    DistanceParent(g, r, c);
  }

  lemma WaveAdvances(g: Graph, r: Pid, all: seq<Pid>, k: nat, seen: set<Pid>)
    requires g.Indexed() && Wave(g, r, all, k, seen) && k < |all|
    ensures var found := Fresh(g.ChildrenOf(all[k]), seen);
            Wave(g, r, all + found, k + 1, seen + set c | c in found)
  {
    var found := Fresh(g.ChildrenOf(all[k]), seen);
    hide Fresh, Ordered, Discovered, ClosedUnder, Tight;
    DiscoveredGrows(r, all, seen, found);
    WaveOrder(g, r, all, k, seen, found);
    ClosedGrows(g, all, k, seen, found);
  }

  lemma DiscoveredGrows(r: Pid, all: seq<Pid>, seen: set<Pid>, found: seq<Pid>)
    requires Discovered(r, all, seen) && Distinct(found) && forall c :: c in found ==> c !in seen
    ensures Discovered(r, all + found, seen + set c | c in found) && r in seen
  {
    assert all[0] in all;
    AppendDistinct(all, found);
  }

  lemma ClosedGrows(g: Graph, all: seq<Pid>, k: nat, seen: set<Pid>, found: seq<Pid>)
    requires g.Indexed() && k < |all| && ClosedUnder(g, all[..k], seen) && found == Fresh(g.ChildrenOf(all[k]), seen)
    ensures ClosedUnder(g, (all + found)[..k + 1], seen + set c | c in found)
  {
    assert (all + found)[..k + 1] == all[..k] + [all[k]];
    forall x, c | x in all[..k] + [all[k]] && g.Parent(c) == Some(x) ensures c in seen + set c | c in found {
      if x == all[k] {
        assert c in g.ChildrenOf(x);
      } else {
        assert x in all[..k];
      }
    }
  }

  lemma WaveOrder(g: Graph, r: Pid, all: seq<Pid>, k: nat, seen: set<Pid>, found: seq<Pid>)
    requires g.Indexed() && r in seen && Ordered(g, r, all) && k < |all|
    requires Tight(g, r, all, k)
    requires found == Fresh(g.ChildrenOf(all[k]), seen)
    ensures Ordered(g, r, all + found) && Tight(g, r, all + found, k + 1)
  {
    var d := Dist(g, r, all[k]);
    forall i | 0 <= i < |found| ensures g.Below(r, found[i]) && Dist(g, r, found[i]) == d + 1 {
      FreshDistance(g, r, all[k], seen, found[i]);
    }
    AppendOrdered(g, r, all, found, d + 1);
    if k + 1 < |all + found| {
      FrontBound(g, r, all, found, k);
    }
  }

  /** Once the element at `k` is done, the new last element is at most one step beyond the new
      head. */
  lemma FrontBound(g: Graph, r: Pid, all: seq<Pid>, found: seq<Pid>, k: nat)
    requires k < |all| && k + 1 < |all + found| && Ordered(g, r, all + found)
    requires Dist(g, r, all[|all| - 1]) <= Dist(g, r, all[k]) + 1
    requires forall i :: 0 <= i < |found| ==> Dist(g, r, found[i]) == Dist(g, r, all[k]) + 1
    ensures var next := all + found; Dist(g, r, next[|next| - 1]) <= Dist(g, r, next[k + 1]) + 1
  {
    var next := all + found;
    assert next[k] == all[k];
    assert Dist(g, r, next[k]) <= Dist(g, r, next[k + 1]);
    assert next[|next| - 1] == if found == [] then all[|all| - 1] else found[|found| - 1];
  }

  /** Whatever lies below `r` and has not been seen lies beyond the front. */
  lemma {:induction false} UnseenLiesBeyond(g: Graph, r: Pid, all: seq<Pid>, k: nat, seen: set<Pid>, y: Pid)
    requires Wave(g, r, all, k, seen) && g.Below(r, y) && y !in seen
    ensures k < |all| && Dist(g, r, y) > Dist(g, r, all[k])
    decreases Dist(g, r, y)
  {
    assert all[0] in all;
    DistanceParent(g, r, y);
    var w := g.Parent(y).value;
    if w in seen {
      var i :| 0 <= i < |all| && all[i] == w;
      assert w !in all[..k];
    } else {
      UnseenLiesBeyond(g, r, all, k, seen, w);
    }
  }

  /** `out` lists `r` first, then descendants of `r` in order of distance, and leaves out none that
      is closer than one it lists. */
  ghost predicate Nearest(g: Graph, r: Pid, out: seq<Pid>) {
    && |out| > 0 && out[0] == r
    && Distinct(out)
    && Ordered(g, r, out)
    && (forall x, y :: x in out && y !in out && g.Below(r, y) ==> Dist(g, r, x) <= Dist(g, r, y))
  }

  ghost predicate Complete(g: Graph, r: Pid, out: seq<Pid>) {
    forall x :: g.Below(r, x) ==> x in out
  }

  lemma CutIsNearest(g: Graph, r: Pid, all: seq<Pid>, k: nat, seen: set<Pid>)
    requires k < |all| && Wave(g, r, all, k, seen)
    ensures Nearest(g, r, all[..k + 1])
  {
    var visited := all[..k + 1];
    forall x, y | x in visited && y !in visited && g.Below(r, y) ensures Dist(g, r, x) <= Dist(g, r, y) {
      var i :| 0 <= i < |visited| && visited[i] == x;
      if y in seen {
        var j :| 0 <= j < |all| && all[j] == y;
      } else {
        UnseenLiesBeyond(g, r, all, k, seen, y);
      }
    }
  }

  lemma {:induction false} BfsResult(g: Graph, r: Pid, all: seq<Pid>, k: nat, seen: set<Pid>, limit: nat)
    requires g.Indexed() && Wave(g, r, all, k, seen) && k <= Max(limit, 1)
    requires k < |all| ==> k < Max(limit, 1)
    ensures var result := Bfs(g, all[k..], seen, all[..k], limit);
            && Nearest(g, r, result) && |result| <= Max(limit, 1)
            && (|result| < limit ==> Complete(g, r, result))
    decreases g.nodes.Keys - seen, |all| - k
  {
    hide Wave, Nearest;
    assert k <= |all| by { WaveLength(g, r, all, k, seen); }
    if k == |all| {
      Exhausted(g, r, all, seen);
      assert all[..k] == all;
    } else {
      CutIsNearest(g, r, all, k, seen);
      assert all[..k + 1] == all[..k] + [all[k]];
      if k + 1 < limit {
        var found := Fresh(g.ChildrenOf(all[k]), seen);
        WaveAdvances(g, r, all, k, seen);
        UnseenShrinks(g, all[k], seen);
        assert (all + found)[..k + 1] == all[..k + 1];
        assert (all + found)[k + 1..] == all[k..][1..] + found;
        BfsResult(g, r, all + found, k + 1, seen + (set c | c in found), limit);
      }
    }
  }

  lemma WaveLength(g: Graph, r: Pid, all: seq<Pid>, k: nat, seen: set<Pid>)
    requires Wave(g, r, all, k, seen)
    ensures k <= |all|
  {
  }

  lemma Exhausted(g: Graph, r: Pid, all: seq<Pid>, seen: set<Pid>)
    requires Wave(g, r, all, |all|, seen)
    ensures Nearest(g, r, all) && Complete(g, r, all)
  {
    forall y | g.Below(r, y) ensures y in all {
      if y !in seen {
        UnseenLiesBeyond(g, r, all, |all|, seen, y);
      }
    }
  }

  /** `SubtreeOf` is a correct bounded breadth-first walk on every graph. */
  lemma SubtreeIsBoundedBfs(g: Graph, pid: Pid, limit: nat)
    requires g.Indexed()
    ensures var out := SubtreeOf(g, pid, limit);
            && Nearest(g, pid, out)
            && |out| <= Max(limit, 1)
            && (|out| < limit ==> Complete(g, pid, out))
  {
    RootDistance(g, pid);
    assert Wave(g, pid, [pid], 0, {pid});
    BfsResult(g, pid, [pid], 0, {pid}, limit);
    assert [pid][0..] == [pid];
  }

  /** Everything listed apart from `pid` itself lies strictly below it, and an uncut walk lists all
      of that. */
  lemma SubtreeIsBelow(g: Graph, pid: Pid, limit: nat, x: Pid)
    requires g.Indexed() && x != pid
    ensures x in SubtreeOf(g, pid, limit) ==> StrictlyBelow(g, pid, x)
    ensures |SubtreeOf(g, pid, limit)| < limit && StrictlyBelow(g, pid, x) ==> x in SubtreeOf(g, pid, limit)
  {
    var out := SubtreeOf(g, pid, limit);
    SubtreeIsBoundedBfs(g, pid, limit);
    hide SubtreeOf;
    if x in out {
      var i :| 0 <= i < |out| && out[i] == x;
      var n: nat :| g.Up(x, n) == Some(pid);
      assert n > 0;
    }
  }

  /** Ancestors and descendants are dual: for two distinct pids and untruncated walks, `r` is an
      ancestor of `x` exactly when `x` is in the subtree of `r`. */
  lemma AncestorsAndSubtreeAreDual(g: Graph, x: Pid, r: Pid, limit: nat)
    requires g.Indexed() && x != r
    ensures |SubtreeOf(g, r, limit)| < limit && r in Ancestors(g, x) ==> x in SubtreeOf(g, r, limit)
    ensures |Ancestors(g, x)| < MAX_ANCESTRY_DEPTH && x in SubtreeOf(g, r, limit) ==> r in Ancestors(g, x)
  {
    hide SubtreeOf, Ancestors;
    SubtreeIsBelow(g, r, limit, x);
    if r in Ancestors(g, x) {
      AncestorsLieAbove(g, x, r);
    }
    if |Ancestors(g, x)| < MAX_ANCESTRY_DEPTH && StrictlyBelow(g, r, x) {
      AncestorsAreComplete(g, x, r);
    }
  }

  /** A subtree never has more entries than the graph has nodes, plus the pid it started from. */
  lemma SubtreeFits(g: Graph, pid: Pid, limit: nat)
    requires g.Indexed() && pid in g.nodes
    ensures |SubtreeOf(g, pid, limit)| <= |g.nodes|
  {
    var out := SubtreeOf(g, pid, limit);
    SubtreeIsBoundedBfs(g, pid, limit);
    hide SubtreeOf;
    DistinctSize(out);
    forall x | x in out ensures x in g.nodes.Keys {
      if x != pid {
        SubtreeIsBelow(g, pid, limit, x);
      }
    }
    SubsetSize((set x | x in out), g.nodes.Keys);
  }
}
