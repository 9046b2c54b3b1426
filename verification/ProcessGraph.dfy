/** The process graph: parent pointers, the child index built from them, and the three bounded
    walks (crates/guardian-process/src/graph.rs). Pids may form cycles. */
module ProcessGraph {
  import opened Prelude

  /** A 32-bit process id; 0 stands for "no parent". */
  newtype Pid = x: int | 0 <= x < 0x1_0000_0000

  datatype ProcessSnapshot = ProcessSnapshot(
    pid: Pid,
    parentPid: Pid,
    name: string,
    imagePath: Option<string>,
    cmdline: Option<string>)

  const MAX_ANCESTRY_DEPTH: nat := 64

  datatype Graph = Graph(nodes: map<Pid, ProcessSnapshot>, children: map<Pid, seq<Pid>>) {
    function ChildrenOf(p: Pid): seq<Pid> {
      if p in children then children[p] else []
    }

    /** The usable parent edge of a pid: to another process of the snapshot, and not to pid 0. */
    function Parent(p: Pid): Option<Pid> {
      if p in nodes && nodes[p].parentPid != 0 && nodes[p].parentPid != p && nodes[p].parentPid in nodes
      then Some(nodes[p].parentPid) else None
    }

    /** The child index is exactly the inverse of the parent edges. */
    ghost predicate Indexed() {
      && (forall p :: p in nodes ==> nodes[p].pid == p)
      && (forall p :: Distinct(ChildrenOf(p)))
      && (forall p, c :: c in ChildrenOf(p) <==> Parent(c) == Some(p))
    }

    /** The `n`-fold parent. */
    function Up(p: Pid, n: nat): Option<Pid>
      decreases n
    {
      if n == 0 then Some(p)
      else match Parent(p)
           case None => None
           case Some(q) => Up(q, n - 1)
    }

    /** `x` is `r` or one of its descendants. */
    ghost predicate Below(r: Pid, x: Pid) {
      exists n: nat :: Up(x, n) == Some(r)
    }

    /** No process is its own strict ancestor. */
    ghost predicate Acyclic() {
      forall p, n: nat :: n > 0 ==> Up(p, n) != Some(p)
    }

    /** How many parent steps lead from `x` to `r`, at least. */
    ghost function Distance(r: Pid, x: Pid): (d: nat)
      requires Below(r, x)
      ensures Up(x, d) == Some(r)
      ensures forall m: nat :: m < d ==> Up(x, m) != Some(r)
    {
      var n: nat :| Up(x, n) == Some(r);
      LeastUp(r, x, n)
    }

    ghost function LeastUp(r: Pid, x: Pid, n: nat): (d: nat)
      requires Up(x, n) == Some(r)
      ensures d <= n && Up(x, d) == Some(r)
      ensures forall m: nat :: m < d ==> Up(x, m) != Some(r)
    {
      if m: nat :| m < n && Up(x, m) == Some(r) then LeastUp(r, x, m) else n
    }
  }

  // --- Building the graph -----------------------------------------------------

  /** The nodes of a snapshot list: of several entries with one pid the last one wins. */
  function Latest(processes: seq<ProcessSnapshot>): map<Pid, ProcessSnapshot> {
    if processes == [] then map[]
    else
      var p := processes[|processes| - 1];
      Latest(processes[..|processes| - 1])[p.pid := p]
  }

  lemma {:induction false} LatestWins(processes: seq<ProcessSnapshot>, pid: Pid)
    ensures pid in Latest(processes) <==> exists i :: 0 <= i < |processes| && processes[i].pid == pid
    ensures pid in Latest(processes) ==>
              exists i :: 0 <= i < |processes| && processes[i] == Latest(processes)[pid] && processes[i].pid == pid
                          && forall j :: i < j < |processes| ==> processes[j].pid != pid
  {
    if processes != [] {
      var n := |processes| - 1;
      LatestWins(processes[..n], pid);
      if processes[n].pid != pid && pid in Latest(processes[..n]) {
        var i :| 0 <= i < n && processes[..n][i] == Latest(processes[..n])[pid] && processes[..n][i].pid == pid
                 && forall j :: i < j < n ==> processes[..n][j].pid != pid;
        assert processes[i] == Latest(processes)[pid];
        forall j | i < j < |processes| ensures processes[j].pid != pid {
          assert j < n ==> processes[j] == processes[..n][j];
        }
      }
    }
  }

  /** Fills the node map, then the child lists. */
  method New(processes: seq<ProcessSnapshot>) returns (g: Graph)
    ensures g.nodes == Latest(processes) && g.Indexed()
    ensures forall p, c :: c in g.ChildrenOf(p) <==> IsChild(g, p, c)
  {
    var nodes: map<Pid, ProcessSnapshot> := map[];
    for i := 0 to |processes|
      invariant nodes == Latest(processes[..i])
      invariant forall p :: p in nodes ==> nodes[p].pid == p
    {
      assert processes[..i + 1][..i] == processes[..i];
      nodes := nodes[processes[i].pid := processes[i]];
    }
    assert processes[..|processes|] == processes;
    g := IndexChildren(nodes);
    ChildrenAre(g);
  }

  /** A child in terms of the snapshot: its parent pid names another process of it, and is not 0. */
  predicate IsChild(g: Graph, p: Pid, c: Pid) {
    c in g.nodes && p in g.nodes && p != 0 && p != c && g.nodes[c].parentPid == p
  }

  lemma ParentIs(g: Graph, c: Pid, p: Pid)
    ensures g.Parent(c) == Some(p) <==> IsChild(g, p, c)
  {
  }

  lemma ChildrenAre(g: Graph)
    requires g.Indexed()
    ensures forall p, c :: c in g.ChildrenOf(p) <==> IsChild(g, p, c)
  {
    forall p, c ensures c in g.ChildrenOf(p) <==> IsChild(g, p, c) {
      ParentIs(g, c, p);
    }
  }

  /** The child index restricted to the children outside `todo`. */
  ghost predicate IndexedOutside(g: Graph, todo: set<Pid>) {
    && (forall p :: Distinct(g.ChildrenOf(p)))
    && (forall p, c :: c in g.ChildrenOf(p) <==> g.Parent(c) == Some(p) && c !in todo)
  }

  /** Visits the nodes in an arbitrary order, as iteration over a hash map does. */
  method IndexChildren(nodes: map<Pid, ProcessSnapshot>) returns (g: Graph)
    requires forall p :: p in nodes ==> nodes[p].pid == p
    ensures g.nodes == nodes && g.Indexed()
  {
    hide IndexedOutside;
    g := Graph(nodes, map[]);
    NothingFiled(g);
    var todo: set<Pid> := nodes.Keys;
    while todo != {}
      invariant g.nodes == nodes && todo <= nodes.Keys && IndexedOutside(g, todo)
      decreases todo
    {
      var c :| c in todo;
      var parent := nodes[c].parentPid;
      if parent != 0 && parent != c && parent in nodes {
        FileChild(g, c, parent, todo);
        g := WithChild(g, parent, c);
      } else {
        SkipChild(g, c, todo);
      }
      todo := todo - {c};
    }
    AllFiled(g);
  }

  lemma NothingFiled(g: Graph)
    requires g.children == map[]
    ensures IndexedOutside(g, g.nodes.Keys)
  {
  }

  lemma SkipChild(g: Graph, c: Pid, todo: set<Pid>)
    requires IndexedOutside(g, todo) && g.Parent(c).None?
    ensures IndexedOutside(g, todo - {c})
  {
  }

  lemma AllFiled(g: Graph)
    requires IndexedOutside(g, {}) && forall p :: p in g.nodes ==> g.nodes[p].pid == p
    ensures g.Indexed()
  {
  }

  function WithChild(g: Graph, parent: Pid, c: Pid): Graph {
    g.(children := g.children[parent := g.ChildrenOf(parent) + [c]])
  }

  lemma FileChild(g: Graph, c: Pid, parent: Pid, todo: set<Pid>)
    requires IndexedOutside(g, todo) && c in todo && g.Parent(c) == Some(parent)
    ensures IndexedOutside(WithChild(g, parent, c), todo - {c})
  {
    var h := WithChild(g, parent, c);
    forall p ensures Distinct(h.ChildrenOf(p)) {
      DistinctAppend(g.ChildrenOf(parent), c);
      assert p != parent ==> h.ChildrenOf(p) == g.ChildrenOf(p);
    }
    forall p, k ensures k in h.ChildrenOf(p) <==> h.Parent(k) == Some(p) && k !in todo - {c} {
      assert h.Parent(k) == g.Parent(k);
      assert p != parent ==> h.ChildrenOf(p) == g.ChildrenOf(p);
    }
  }

  // --- The walk to the root ------------------------------------------------------

  /** The walk of `Ancestors` from `current`, with the parents already listed in `out`. */
  function Climb(g: Graph, current: Pid, out: seq<Pid>, fuel: nat): seq<Pid>
    decreases fuel
  {
    if fuel == 0 then out
    else match g.Parent(current)
         case None => out
         case Some(parent) => if parent in out then out else Climb(g, parent, out + [parent], fuel - 1)
  }

  function Ancestors(g: Graph, pid: Pid): seq<Pid> {
    Climb(g, pid, [], MAX_ANCESTRY_DEPTH)
  }

  method CollectAncestors(g: Graph, pid: Pid) returns (out: seq<Pid>)
    ensures out == Ancestors(g, pid)
  {
    out := [];
    var seen: set<Pid> := {};
    var current := pid;
    var steps := 0;
    while steps < MAX_ANCESTRY_DEPTH
      invariant steps <= MAX_ANCESTRY_DEPTH
      invariant seen == set x | x in out
      invariant Climb(g, current, out, MAX_ANCESTRY_DEPTH - steps) == Ancestors(g, pid)
    {
      if current !in g.nodes { return; }
      var parent := g.nodes[current].parentPid;
      if parent == 0 || parent == current || parent in seen { return; }
      seen := seen + {parent};
      if parent !in g.nodes { return; }
      out := out + [parent];
      current := parent;
      steps := steps + 1;
    }
  }

  /** The `i`-th node above `x`, 0 being `x` itself. */
  function Above(x: Pid, out: seq<Pid>, i: nat): Pid
    requires i <= |out|
  {
    if i == 0 then x else out[i - 1]
  }

  lemma UpStep(g: Graph, x: Pid, n: nat)
    decreases n
    ensures g.Up(x, n + 1) == match g.Up(x, n) { case None => None case Some(y) => g.Parent(y) }
  {
    if n > 0 && g.Parent(x).Some? {
      UpStep(g, g.Parent(x).value, n - 1);
    }
  }

  lemma UpAdd(g: Graph, x: Pid, m: nat, n: nat)
    requires g.Up(x, m).Some?
    decreases m
    ensures g.Up(x, m + n) == g.Up(g.Up(x, m).value, n)
  {
    if m > 0 {
      UpAdd(g, g.Parent(x).value, m - 1, n);
    }
  }

  /** `out` is a duplicate-free parent chain above `x`. */
  ghost predicate Chain(g: Graph, x: Pid, out: seq<Pid>) {
    && Distinct(out)
    && forall i :: 0 <= i < |out| ==> g.Parent(Above(x, out, i)) == Some(out[i])
  }

  /** The walk can go no further than `out`. */
  predicate Stops(g: Graph, x: Pid, out: seq<Pid>) {
    var above := g.Parent(Above(x, out, |out|));
    above.None? || above.value in out
  }

  lemma ChainExtends(g: Graph, x: Pid, out: seq<Pid>, parent: Pid)
    requires Chain(g, x, out) && g.Parent(Above(x, out, |out|)) == Some(parent) && parent !in out
    ensures Chain(g, x, out + [parent]) && Above(x, out + [parent], |out| + 1) == parent
  {
    var longer := out + [parent];
    DistinctAppend(out, parent);
    forall i | 0 <= i < |longer| ensures g.Parent(Above(x, longer, i)) == Some(longer[i]) {
      assert Above(x, longer, i) == Above(x, out, i);
    }
  }

  lemma {:induction false} ClimbChain(g: Graph, x: Pid, current: Pid, out: seq<Pid>, fuel: nat)
    requires Chain(g, x, out) && current == Above(x, out, |out|)
    ensures var r := Climb(g, current, out, fuel);
            Chain(g, x, r) && |out| <= |r| <= |out| + fuel && (|r| < |out| + fuel ==> Stops(g, x, r))
    decreases fuel
  {
    hide Chain, Above;
    if fuel > 0 && g.Parent(current).Some? {
      var parent := g.Parent(current).value;
      if parent !in out {
        ChainExtends(g, x, out, parent);
        ClimbChain(g, x, parent, out + [parent], fuel - 1);
      }
    }
  }

  /** `Ancestors` is a duplicate-free parent chain of at most 64 nodes; when shorter it stopped at
      a root or at the first repetition. */
  lemma AncestorsChain(g: Graph, x: Pid)
    ensures var r := Ancestors(g, x);
            Chain(g, x, r) && |r| <= 64 && (|r| < 64 ==> Stops(g, x, r))
  {
    ClimbChain(g, x, x, [], MAX_ANCESTRY_DEPTH);
  }

  lemma {:induction false} ChainIsUp(g: Graph, x: Pid, out: seq<Pid>, i: nat)
    requires Chain(g, x, out) && i <= |out|
    ensures g.Up(x, i) == Some(Above(x, out, i))
  {
    if i > 0 {
      ChainIsUp(g, x, out, i - 1);
      UpStep(g, x, i - 1);
    }
  }

  /** One more parent step from inside the chain, or from `x`, stays inside it. */
  lemma ParentStaysInChain(g: Graph, x: Pid, out: seq<Pid>, i: nat)
    requires Chain(g, x, out) && Stops(g, x, out) && i <= |out|
    ensures var parent := g.Parent(Above(x, out, i)); parent.Some? ==> parent.value in out
  {
    if i < |out| {
      ChainLink(g, x, out, i);
    }
  }

  lemma {:induction false} UpStaysInChain(g: Graph, x: Pid, out: seq<Pid>, n: nat)
    requires Chain(g, x, out) && n > 0
    requires Stops(g, x, out)
    ensures g.Up(x, n).Some? ==> g.Up(x, n).value in out
  {
    hide Chain, Stops;
    UpStep(g, x, n - 1);
    if n == 1 {
      ParentStaysInChain(g, x, out, 0);
    } else if g.Up(x, n - 1).Some? {
      UpStaysInChain(g, x, out, n - 1);
      var i :| 0 <= i < |out| && out[i] == g.Up(x, n - 1).value;
      ParentStaysInChain(g, x, out, i + 1);
    }
  }

  /** `x` lies strictly below `r`. */
  ghost predicate StrictlyBelow(g: Graph, r: Pid, x: Pid) {
    exists n: nat :: n > 0 && g.Up(x, n) == Some(r)
  }

  lemma AncestorsLieAbove(g: Graph, x: Pid, r: Pid)
    requires r in Ancestors(g, x)
    ensures StrictlyBelow(g, r, x)
  {
    var out := Ancestors(g, x);
    AncestorsChain(g, x);
    var i :| 0 <= i < |out| && out[i] == r;
    ChainIsUp(g, x, out, i + 1);
    hide Ancestors;
  }

  /** An untruncated walk lists every strict ancestor. */
  lemma AncestorsAreComplete(g: Graph, x: Pid, r: Pid)
    requires |Ancestors(g, x)| < MAX_ANCESTRY_DEPTH && StrictlyBelow(g, r, x)
    ensures r in Ancestors(g, x)
  {
    hide Ancestors;
    AncestorsChain(g, x);
    var n: nat :| n > 0 && g.Up(x, n) == Some(r);
    UpStaysInChain(g, x, Ancestors(g, x), n);
  }

  // --- The outermost ancestor ------------------------------------------------------

  function Outermost(g: Graph, current: Pid, seen: set<Pid>, fuel: nat): Pid
    decreases fuel
  {
    if fuel == 0 then current
    else match g.Parent(current)
         case None => current
         case Some(parent) => if parent in seen then current else Outermost(g, parent, seen + {parent}, fuel - 1)
  }

  function RootAncestor(g: Graph, pid: Pid): Pid {
    Outermost(g, pid, {pid}, MAX_ANCESTRY_DEPTH)
  }

  method FindRootAncestor(g: Graph, pid: Pid) returns (current: Pid)
    ensures current == RootAncestor(g, pid)
  {
    current := pid;
    var seen := {pid};
    var steps := 0;
    while steps < MAX_ANCESTRY_DEPTH
      invariant steps <= MAX_ANCESTRY_DEPTH
      invariant current in seen
      invariant Outermost(g, current, seen, MAX_ANCESTRY_DEPTH - steps) == RootAncestor(g, pid)
    {
      if current !in g.nodes { return; }
      var parent := g.nodes[current].parentPid;
      if parent == 0 || parent !in g.nodes { return; }
      if parent in seen { return; }
      seen := seen + {parent};
      current := parent;
      steps := steps + 1;
    }
  }

  /** What `Outermost` has seen after `i` steps along the chain. */
  function Seen(x: Pid, out: seq<Pid>, i: nat): set<Pid>
    requires i <= |out|
  {
    {x} + set y | y in out[..i]
  }

  lemma SeenStep(x: Pid, out: seq<Pid>, i: nat)
    requires i < |out| && Distinct(out)
    ensures Seen(x, out, i + 1) == Seen(x, out, i) + {out[i]}
    ensures out[i] in Seen(x, out, i) <==> out[i] == x
  {
    assert out[..i + 1] == out[..i] + [out[i]];
  }

  lemma OutermostStep(g: Graph, current: Pid, seen: set<Pid>, fuel: nat)
    ensures fuel == 0 || g.Parent(current).None? || g.Parent(current).value in seen ==>
              Outermost(g, current, seen, fuel) == current
    ensures fuel > 0 && g.Parent(current).Some? && g.Parent(current).value !in seen ==>
              var parent := g.Parent(current).value;
              Outermost(g, current, seen, fuel) == Outermost(g, parent, seen + {parent}, fuel - 1)
  {
  }

  lemma ChainLink(g: Graph, x: Pid, out: seq<Pid>, i: nat)
    requires Chain(g, x, out) && i < |out|
    ensures g.Parent(Above(x, out, i)) == Some(out[i]) && Above(x, out, i + 1) == out[i]
  {
  }

  lemma {:induction false} OutermostFollows(g: Graph, x: Pid, out: seq<Pid>, i: nat, k: nat)
    requires Chain(g, x, out) && i <= k <= |out| <= MAX_ANCESTRY_DEPTH
    requires if k < |out| then out[k] == x else |out| < MAX_ANCESTRY_DEPTH ==> Stops(g, x, out)
    requires x !in out[..k]
    ensures Outermost(g, Above(x, out, i), Seen(x, out, i), MAX_ANCESTRY_DEPTH - i) == Above(x, out, k)
    decreases k - i
  {
    hide Seen, Outermost, Above;
    OutermostStep(g, Above(x, out, i), Seen(x, out, i), MAX_ANCESTRY_DEPTH - i);
    if i < |out| {
      ChainLink(g, x, out, i);
      SeenStep(x, out, i);
      if i < k {
        assert out[i] == out[..k][i];
        OutermostFollows(g, x, out, i + 1, k);
      }
    } else {
      AllSeen(x, out);
    }
  }

  lemma AllSeen(x: Pid, out: seq<Pid>)
    ensures forall y :: y in out ==> y in Seen(x, out, |out|)
  {
    assert out[..|out|] == out;
  }

  /** `RootAncestor` is the last listed ancestor, or `x` when there is none; on a parent cycle
      through `x` it stops one short of coming back to `x`. */
  lemma RootIsLastAncestor(g: Graph, x: Pid)
    ensures var out := Ancestors(g, x);
            && (x !in out ==> RootAncestor(g, x) == Above(x, out, |out|))
            && (x in out ==> |out| >= 2 && out[|out| - 1] == x && RootAncestor(g, x) == out[|out| - 2])
  {
    var out := Ancestors(g, x);
    AncestorsChain(g, x);
    hide Ancestors, Outermost;
    assert Seen(x, out, 0) == {x};
    if x in out {
      ReturnsLast(g, x, out);
      OutermostFollows(g, x, out, 0, |out| - 1);
    } else {
      OutermostFollows(g, x, out, 0, |out|);
    }
  }

  /** A chain that comes back to its start does so at its end, after at least two steps. */
  lemma ReturnsLast(g: Graph, x: Pid, out: seq<Pid>)
    requires Chain(g, x, out) && x in out
    ensures |out| >= 2 && out[|out| - 1] == x && x !in out[..|out| - 1]
  {
    assert g.Parent(Above(x, out, 0)) == Some(out[0]);
    forall i | 0 <= i < |out| - 1 ensures out[i] != x {
      assert g.Parent(Above(x, out, i + 1)) == Some(out[i + 1]);
    }
  }
}
