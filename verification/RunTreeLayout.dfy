/**
 Laying out a run tree in rows: the nodes reachable through expanded nodes, by
 longest distance from the root and then by first discovery, with a lane for
 each connector. The relaxation works in place for a fixed number of rounds.
 */
module RunTreeLayout {
  import opened Collections
  import opened Sorting
  import Lanes

  datatype Arc = Arc(from: string, to: string)

  datatype RunTree = RunTree(root: string, arcs: seq<Arc>)

  /** The targets of a node's arcs, in arc order. */
  function ChildrenOf(arcs: seq<Arc>, id: string): (children: seq<string>)
    ensures forall c :: c in children <==> Arc(id, c) in arcs
  {
    if arcs == [] then []
    else
      var last := arcs[|arcs| - 1];
      ChildrenOf(arcs[..|arcs| - 1], id) + (if last.from == id then [last.to] else [])
  }

  /** Consecutive nodes are joined by arcs. */
  ghost predicate Walk(arcs: seq<Arc>, w: seq<string>) {
    |w| >= 1 && forall i :: 0 < i < |w| ==> Arc(w[i - 1], w[i]) in arcs
  }

  ghost predicate WalkTo(arcs: seq<Arc>, root: string, w: seq<string>, x: string) {
    Walk(arcs, w) && w[0] == root && w[|w| - 1] == x
  }

  /** The node can be reached from the root through expanded nodes. */
  ghost predicate Reaches(tree: RunTree, expanded: set<string>, x: string) {
    exists w :: ReachedBy(tree, expanded, w, x)
  }

  ghost predicate ReachedBy(tree: RunTree, expanded: set<string>, w: seq<string>, x: string) {
    WalkTo(tree.arcs, tree.root, w, x) && forall i :: 0 <= i < |w| - 1 ==> w[i] in expanded
  }

  // ---------------------------------------------------------------------
  // Reachability
  // ---------------------------------------------------------------------

  function Nodes(tree: RunTree): set<string> {
    {tree.root} + set a | a in tree.arcs :: a.to
  }

  /** What the growing list of visible nodes holds: the root and reachable nodes, each once. */
  ghost predicate Growing(tree: RunTree, expanded: set<string>, vis: seq<string>) {
    && tree.root in vis && Distinct(vis)
    && forall x :: x in vis ==> x in Nodes(tree) && Reaches(tree, expanded, x)
  }

  /** The children of an expanded node are all listed. */
  ghost predicate ClosedAt(tree: RunTree, expanded: set<string>, vis: seq<string>, id: string) {
    id in expanded ==> forall c :: Arc(id, c) in tree.arcs ==> c in vis
  }

  lemma ReachesChild(tree: RunTree, expanded: set<string>, id: string, c: string)
    requires Reaches(tree, expanded, id) && id in expanded && Arc(id, c) in tree.arcs
    ensures Reaches(tree, expanded, c) && c in Nodes(tree)
  {
    var w :| ReachedBy(tree, expanded, w, id);
    assert ReachedBy(tree, expanded, w + [c], c);
  }

  /** Adds the unlisted children of one node; `changed` tells whether there were any. */
  method AddChildren(tree: RunTree, expanded: set<string>, vis: seq<string>, id: string)
    returns (out: seq<string>, changed: bool)
    requires Growing(tree, expanded, vis) && id in vis && id in expanded
    ensures Growing(tree, expanded, out) && vis <= out
    ensures ClosedAt(tree, expanded, out, id)
    ensures if changed then |vis| < |out| else out == vis
  {
    out, changed := vis, false;
    var children := ChildrenOf(tree.arcs, id);
    for k := 0 to |children|
      invariant Growing(tree, expanded, out) && vis <= out
      invariant forall m :: 0 <= m < k ==> children[m] in out
      invariant if changed then |vis| < |out| else out == vis
    {
      var c := children[k];
      if c !in out {
        assert id in vis && Arc(id, c) in tree.arcs;
        ReachesChild(tree, expanded, id, c);
        out, changed := out + [c], true;
      }
    }
  }

  method Visible(tree: RunTree, expanded: set<string>) returns (vis: seq<string>)
    ensures Distinct(vis) && tree.root in vis
    ensures forall x :: x in vis <==> Reaches(tree, expanded, x)
  {
    vis := [tree.root];
    assert ReachedBy(tree, expanded, [tree.root], tree.root);
    var changed := true;
    while changed
      invariant Growing(tree, expanded, vis)
      invariant !changed ==> forall id :: id in vis ==> ClosedAt(tree, expanded, vis, id)
      invariant |vis| <= |Nodes(tree)|
      decreases |Nodes(tree)| - |vis|, changed
    {
      changed := false;
      var snapshot := vis;
      for k := 0 to |snapshot|
        invariant Growing(tree, expanded, vis) && snapshot <= vis
        invariant if changed then |snapshot| < |vis| else vis == snapshot
        invariant !changed ==> forall m :: 0 <= m < k ==> ClosedAt(tree, expanded, vis, snapshot[m])
      {
        var id := snapshot[k];
        if id in expanded {
          assert vis[k] == id;
          var more;
          vis, more := AddChildren(tree, expanded, vis, id);
          changed := changed || more;
        }
      }
      DistinctFits(vis, Nodes(tree));
    }
    forall x | Reaches(tree, expanded, x)
      ensures x in vis
    {
      var w :| ReachedBy(tree, expanded, w, x);
      ClosedHolds(tree, expanded, vis, w, |w| - 1);
    }
  }

  lemma {:induction false} ClosedHolds(tree: RunTree, expanded: set<string>, vis: seq<string>, w: seq<string>, i: nat)
    requires tree.root in vis && forall id :: id in vis ==> ClosedAt(tree, expanded, vis, id)
    requires Walk(tree.arcs, w) && w[0] == tree.root && forall i :: 0 <= i < |w| - 1 ==> w[i] in expanded
    requires i < |w|
    ensures w[i] in vis
  {
    if i > 0 {
      ClosedHolds(tree, expanded, vis, w, i - 1);
      assert ClosedAt(tree, expanded, vis, w[i - 1]);
    }
  }

  // ---------------------------------------------------------------------
  // Longest distance from the root
  // ---------------------------------------------------------------------

  /** The last arc of the longest walk to `x` is number `d`. */
  ghost predicate LongestTo(arcs: seq<Arc>, root: string, x: string, d: nat) {
    && (exists w :: WalkTo(arcs, root, w, x) && |w| == d + 1)
    && forall w :: WalkTo(arcs, root, w, x) ==> |w| <= d + 1
  }

  ghost predicate Acyclic(arcs: seq<Arc>) {
    forall w :: Walk(arcs, w) && |w| > 1 ==> w[0] != w[|w| - 1]
  }

  /** Every recorded depth is the length of some walk. */
  ghost predicate Sound(arcs: seq<Arc>, root: string, depth: map<string, nat>) {
    forall x :: x in depth ==> exists w :: WalkTo(arcs, root, w, x) && |w| == depth[x] + 1
  }

  ghost predicate AtLeast(depth: map<string, nat>, x: string, d: int) {
    x in depth && depth[x] >= d
  }

  /** Walks of up to `n` nodes are accounted for, and those of one node more if their last arc is among the first `i`. */
  ghost predicate Relaxed(arcs: seq<Arc>, root: string, depth: map<string, nat>, n: nat, i: nat)
    requires i <= |arcs|
  {
    forall w, x :: WalkTo(arcs, root, w, x) && CountsIn(arcs, w, n, i) ==> AtLeast(depth, x, |w| - 1)
  }

  ghost predicate CountsIn(arcs: seq<Arc>, w: seq<string>, n: nat, i: nat)
    requires i <= |arcs|
  {
    |w| <= n || (|w| == n + 1 && |w| > 1 && Arc(w[|w| - 2], w[|w| - 1]) in arcs[..i])
  }

  function Raised(depth: map<string, nat>, a: Arc): map<string, nat> {
    if a.from !in depth then depth
    else
      var old' := if a.to in depth then depth[a.to] else 0;
      depth[a.to := if old' >= depth[a.from] + 1 then old' else depth[a.from] + 1]
  }

  lemma RaisedIsSound(arcs: seq<Arc>, root: string, depth: map<string, nat>, a: Arc)
    requires Sound(arcs, root, depth) && a in arcs
    ensures Sound(arcs, root, Raised(depth, a))
  {
    var raised := Raised(depth, a);
    if a.from in depth {
      var w :| WalkTo(arcs, root, w, a.from) && |w| == depth[a.from] + 1;
      assert WalkTo(arcs, root, w + [a.to], a.to);
    }
  }

  lemma RaisedCounts(arcs: seq<Arc>, root: string, depth: map<string, nat>, n: nat, i: nat)
    requires i < |arcs| && n >= 1 && Relaxed(arcs, root, depth, n, i)
    ensures Relaxed(arcs, root, Raised(depth, arcs[i]), n, i + 1)
  {
    var a, raised := arcs[i], Raised(depth, arcs[i]);
    assert arcs[..i + 1] == arcs[..i] + [a];
    forall w, x | WalkTo(arcs, root, w, x) && CountsIn(arcs, w, n, i + 1)
      ensures AtLeast(raised, x, |w| - 1)
    {
      if CountsIn(arcs, w, n, i) {
        assert AtLeast(depth, x, |w| - 1);
      } else {
        var before := w[..|w| - 1];
        assert WalkTo(arcs, root, before, a.from) && CountsIn(arcs, before, n, i);
        assert AtLeast(depth, a.from, |before| - 1);
      }
    }
  }

  lemma RoundDone(arcs: seq<Arc>, root: string, depth: map<string, nat>, n: nat)
    requires n >= 1 && Relaxed(arcs, root, depth, n, |arcs|)
    ensures Relaxed(arcs, root, depth, n + 1, 0)
  {
    assert arcs[..|arcs|] == arcs;
    forall w, x | WalkTo(arcs, root, w, x) && CountsIn(arcs, w, n + 1, 0)
      ensures AtLeast(depth, x, |w| - 1)
    {
      assert |w| > 1 ==> Arc(w[|w| - 2], w[|w| - 1]) in arcs;
      assert CountsIn(arcs, w, n, |arcs|);
    }
  }

  /** In-place relaxation: `rounds` passes over the arcs, each using what the pass has already raised. */
  method Relax(arcs: seq<Arc>, root: string, rounds: nat) returns (depth: map<string, nat>)
    ensures Sound(arcs, root, depth) && Relaxed(arcs, root, depth, rounds + 1, 0)
  {
    depth := map[root := 0];
    assert WalkTo(arcs, root, [root], root);
    for k := 0 to rounds
      invariant Sound(arcs, root, depth) && Relaxed(arcs, root, depth, k + 1, 0)
    {
      for i := 0 to |arcs|
        invariant Sound(arcs, root, depth) && Relaxed(arcs, root, depth, k + 1, i)
      {
        var a := arcs[i];
        RaisedIsSound(arcs, root, depth, a);
        RaisedCounts(arcs, root, depth, k + 1, i);
        if a.from in depth {
          var known := if a.to in depth then depth[a.to] else 0;
          depth := depth[a.to := if known >= depth[a.from] + 1 then known else depth[a.from] + 1];
        }
      }
      RoundDone(arcs, root, depth, k + 1);
    }
  }

  lemma {:induction false} Repeats(w: seq<string>, all: set<string>) returns (i: nat, j: nat)
    requires |w| > |all| && forall x :: x in w ==> x in all
    ensures i < j < |w| && w[i] == w[j]
  {
    if Distinct(w) {
      DistinctFits(w, all);
    }
    i, j :| 0 <= i < j < |w| && w[i] == w[j];
  }

  lemma NeverReturns(arcs: seq<Arc>, w: seq<string>, i: nat, j: nat)
    requires Acyclic(arcs) && Walk(arcs, w) && i < j < |w|
    ensures w[i] != w[j]
  {
    assert Walk(arcs, w[i..j + 1]);
  }

  /** Where no walk returns, no walk visits more nodes than there are. */
  lemma WalksAreShort(arcs: seq<Arc>, w: seq<string>, all: set<string>)
    requires Acyclic(arcs) && Walk(arcs, w) && forall x :: x in w ==> x in all
    ensures |w| <= |all|
  {
    if |w| > |all| {
      var i, j := Repeats(w, all);
      NeverReturns(arcs, w, i, j);
    }
  }

  /** Enough rounds over an acyclic graph find the longest distance of every node. */
  lemma RelaxedIsLongest(arcs: seq<Arc>, root: string, depth: map<string, nat>, n: nat, all: set<string>, x: string)
    requires Acyclic(arcs) && Sound(arcs, root, depth) && Relaxed(arcs, root, depth, n, 0) && |all| <= n
    requires root in all && forall a :: a in arcs ==> a.to in all
    requires exists w :: WalkTo(arcs, root, w, x)
    ensures x in depth && LongestTo(arcs, root, x, depth[x])
  {
    forall w | WalkTo(arcs, root, w, x)
      ensures AtLeast(depth, x, |w| - 1)
    {
      forall i | 0 <= i < |w|
        ensures w[i] in all
      {
        assert i > 0 ==> Arc(w[i - 1], w[i]) in arcs;
      }
      WalksAreShort(arcs, w, all);
      assert CountsIn(arcs, w, n, 0);
    }
    var w :| WalkTo(arcs, root, w, x);
    assert AtLeast(depth, x, |w| - 1);
  }

  // ---------------------------------------------------------------------
  // Order of discovery
  // ---------------------------------------------------------------------

  ghost predicate Linked(arcs: seq<Arc>, found: seq<string>, p: int, i: int) {
    0 <= p < |found| && 0 <= i < |found| && Arc(found[p], found[i]) in arcs
  }

  /** One of the first `n` nodes has an arc to node `i`. */
  ghost predicate FoundBy(arcs: seq<Arc>, found: seq<string>, i: int, n: int) {
    exists p :: 0 <= p < n && Linked(arcs, found, p, i)
  }

  /** Whichever of the first `taken` nodes finds node `j`, node `i` was found by then. */
  ghost predicate NoLater(arcs: seq<Arc>, found: seq<string>, i: int, j: int, taken: nat) {
    forall p :: 0 <= p < taken && Linked(arcs, found, p, j) ==> FoundBy(arcs, found, i, p + 1)
  }

  /** Every node but the first was found by a taken one, and no later than the nodes behind it. */
  ghost predicate BreadthFirst(arcs: seq<Arc>, found: seq<string>, taken: nat) {
    && (forall i :: 0 < i < |found| ==> FoundBy(arcs, found, i, taken))
    && (forall i, j :: 0 < i < j < |found| ==> NoLater(arcs, found, i, j, taken))
  }

  /** Node `p` is the first to find node `i`. */
  ghost predicate FirstBy(arcs: seq<Arc>, found: seq<string>, i: int, p: int) {
    Linked(arcs, found, p, i) && !FoundBy(arcs, found, i, p)
  }

  /** The first arc is listed before any copy of the second. */
  ghost predicate ListedBefore(arcs: seq<Arc>, a: Arc, b: Arc) {
    exists m :: 0 <= m < |arcs| && arcs[m] == a && b !in arcs[..m]
  }

  ghost predicate InArcOrder(arcs: seq<Arc>, found: seq<string>, i: int, j: int, p: int) {
    FirstBy(arcs, found, i, p) && FirstBy(arcs, found, j, p) ==>
      ListedBefore(arcs, Arc(found[p], found[i]), Arc(found[p], found[j]))
  }

  /** Nodes first found by the same node come in the order of its arcs. */
  ghost predicate SiblingsInOrder(arcs: seq<Arc>, found: seq<string>, taken: nat) {
    forall i, j, p :: 0 < i < j < |found| && 0 <= p < taken ==> InArcOrder(arcs, found, i, j, p)
  }

  /** All that node `p` was the first to find are among the given. */
  ghost predicate FirstFinds(arcs: seq<Arc>, found: seq<string>, p: int, among: seq<string>) {
    forall i :: 0 < i < |found| && FirstBy(arcs, found, i, p) ==> found[i] in among
  }

  lemma {:induction false} ChildListedBefore(arcs: seq<Arc>, id: string, k: nat, x: string)
    requires k < |ChildrenOf(arcs, id)| && x in ChildrenOf(arcs, id)[..k] && ChildrenOf(arcs, id)[k] !in ChildrenOf(arcs, id)[..k]
    ensures ListedBefore(arcs, Arc(id, x), Arc(id, ChildrenOf(arcs, id)[k]))
  {
    var front, children := arcs[..|arcs| - 1], ChildrenOf(arcs, id);
    var before := ChildrenOf(front, id);
    assert before == children[..|before|];
    if k < |before| {
      assert before[..k] == children[..k];
      ChildListedBefore(front, id, k, x);
      var m :| 0 <= m < |front| && front[m] == Arc(id, x) && Arc(id, children[k]) !in front[..m];
      assert arcs[..m] == front[..m];
    } else {
      assert children[..k] == before;
      var m :| 0 <= m < |front| && front[m] == Arc(id, x);
      assert Arc(id, children[k]) !in front && arcs[..m] == front[..m];
    }
  }

  /** Taking a node adds no first finds yet. */
  lemma SiblingsTaken(arcs: seq<Arc>, found: seq<string>, taken: nat)
    requires taken < |found| && BreadthFirst(arcs, found, taken) && SiblingsInOrder(arcs, found, taken)
    ensures SiblingsInOrder(arcs, found, taken + 1) && FirstFinds(arcs, found, taken, [])
  {
    forall i | 0 < i < |found|
      ensures !FirstBy(arcs, found, i, taken)
    {
      assert FoundBy(arcs, found, i, taken);
    }
  }

  lemma FirstStays(arcs: seq<Arc>, found: seq<string>, c: string, i: int, p: int)
    requires 0 <= i < |found| && 0 <= p < |found|
    ensures FirstBy(arcs, found + [c], i, p) <==> FirstBy(arcs, found, i, p)
  {
    assert Linked(arcs, found + [c], p, i) <==> Linked(arcs, found, p, i);
    if FoundBy(arcs, found + [c], i, p) {
      var q :| 0 <= q < p && Linked(arcs, found + [c], q, i);
      assert Linked(arcs, found, q, i);
    }
    if FoundBy(arcs, found, i, p) {
      FoundStays(arcs, found, c, i, p);
    }
  }

  /** A child found now stands behind its siblings, as its arc does. */
  lemma {:induction false} SiblingAdded(arcs: seq<Arc>, found: seq<string>, taken: nat, k: nat)
    requires 0 < taken <= |found| && SiblingsInOrder(arcs, found, taken)
    requires k < |ChildrenOf(arcs, found[taken - 1])| && ChildrenOf(arcs, found[taken - 1])[k] !in found
    requires forall p :: 0 <= p < taken - 1 ==> Arc(found[p], ChildrenOf(arcs, found[taken - 1])[k]) !in arcs
    requires ChildrenOf(arcs, found[taken - 1])[k] !in ChildrenOf(arcs, found[taken - 1])[..k]
    requires FirstFinds(arcs, found, taken - 1, ChildrenOf(arcs, found[taken - 1])[..k])
    ensures SiblingsInOrder(arcs, found + [ChildrenOf(arcs, found[taken - 1])[k]], taken)
    ensures FirstFinds(arcs, found + [ChildrenOf(arcs, found[taken - 1])[k]], taken - 1, ChildrenOf(arcs, found[taken - 1])[..k + 1])
  {
    var id := found[taken - 1];
    var children := ChildrenOf(arcs, id);
    var more := found + [children[k]];
    forall i, p | 0 < i < |found| && 0 <= p < taken
      ensures FirstBy(arcs, more, i, p) <==> FirstBy(arcs, found, i, p)
    {
      FirstStays(arcs, found, children[k], i, p);
    }
    forall i, j, p | 0 < i < j < |more| && 0 <= p < taken
      ensures InArcOrder(arcs, more, i, j, p)
    {
      if j < |found| {
        assert InArcOrder(arcs, found, i, j, p);
      } else if FirstBy(arcs, more, i, p) && FirstBy(arcs, more, j, p) {
        assert p == taken - 1 && FirstBy(arcs, found, i, p);
        ChildListedBefore(arcs, id, k, found[i]);
      }
    }
    assert children[..k + 1] == children[..k] + [children[k]];
  }

  ghost predicate Searching(tree: RunTree, vis: seq<string>, seen: seq<string>, q: seq<string>) {
    && Distinct(seen + q) && seen + q != [] && (seen + q)[0] == tree.root
    && (forall x :: x in seen + q ==> x in vis)
    && BreadthFirst(tree.arcs, seen + q, |seen|) && SiblingsInOrder(tree.arcs, seen + q, |seen|)
  }

  ghost predicate Followed(tree: RunTree, vis: seq<string>, found: seq<string>, n: nat)
    requires n <= |found|
  {
    forall p, c :: 0 <= p < n && Arc(found[p], c) in tree.arcs && c in vis ==> c in found
  }

  /** Taking the first node of the queue keeps the order; it has now been taken, its children are still to come. */
  lemma TakesNext(arcs: seq<Arc>, found: seq<string>, taken: nat)
    requires taken < |found| && BreadthFirst(arcs, found, taken)
    ensures BreadthFirst(arcs, found, taken + 1)
  {
    var next := taken + 1;
    forall i | 0 < i < |found|
      ensures FoundBy(arcs, found, i, next)
    {
      assert FoundBy(arcs, found, i, taken);
    }
    forall i, j | 0 < i < j < |found|
      ensures NoLater(arcs, found, i, j, next)
    {
      assert NoLater(arcs, found, i, j, taken) && FoundBy(arcs, found, i, next);
    }
  }

  lemma FoundStays(arcs: seq<Arc>, found: seq<string>, c: string, i: int, n: int)
    requires FoundBy(arcs, found, i, n)
    ensures FoundBy(arcs, found + [c], i, n)
  {
    var p :| 0 <= p < n && Linked(arcs, found, p, i);
    assert Linked(arcs, found + [c], p, i);
  }

  lemma FindsChild(tree: RunTree, vis: seq<string>, found: seq<string>, taken: nat, c: string)
    requires 0 < taken <= |found| && BreadthFirst(tree.arcs, found, taken)
    requires Followed(tree, vis, found, taken - 1) && c in vis && c !in found
    requires Arc(found[taken - 1], c) in tree.arcs
    ensures BreadthFirst(tree.arcs, found + [c], taken)
  {
    var arcs, more := tree.arcs, found + [c];
    assert Linked(arcs, more, taken - 1, |found|);
    forall i | 0 < i < |found|
      ensures FoundBy(arcs, more, i, taken)
    {
      FoundStays(arcs, found, c, i, taken);
    }
    forall i, j | 0 < i < j < |more|
      ensures NoLater(arcs, more, i, j, taken)
    {
      forall p | 0 <= p < taken && Linked(arcs, more, p, j)
        ensures FoundBy(arcs, more, i, p + 1)
      {
        if j < |found| {
          assert NoLater(arcs, found, i, j, taken) && Linked(arcs, found, p, j);
          FoundStays(arcs, found, c, i, p + 1);
        } else {
          assert p == taken - 1;
        }
      }
    }
  }

  lemma {:induction false} AddsChild(tree: RunTree, vis: seq<string>, seen: seq<string>, q: seq<string>, k: nat)
    requires seen != [] && Searching(tree, vis, seen, q) && Followed(tree, vis, seen + q, |seen| - 1)
    requires k < |ChildrenOf(tree.arcs, seen[|seen| - 1])|
    requires ChildrenOf(tree.arcs, seen[|seen| - 1])[k] in vis && ChildrenOf(tree.arcs, seen[|seen| - 1])[k] !in seen + q
    requires forall x :: x in ChildrenOf(tree.arcs, seen[|seen| - 1])[..k] && x in vis ==> x in seen + q
    requires FirstFinds(tree.arcs, seen + q, |seen| - 1, ChildrenOf(tree.arcs, seen[|seen| - 1])[..k])
    ensures var children := ChildrenOf(tree.arcs, seen[|seen| - 1]);
            && Searching(tree, vis, seen, q + [children[k]])
            && Followed(tree, vis, seen + (q + [children[k]]), |seen| - 1)
            && FirstFinds(tree.arcs, seen + (q + [children[k]]), |seen| - 1, children[..k + 1])
  {
    var found := seen + q;
    var children := ChildrenOf(tree.arcs, seen[|seen| - 1]);
    assert found[|seen| - 1] == seen[|seen| - 1] && children[k] in children;
    FindsChild(tree, vis, found, |seen|, children[k]);
    SiblingAdded(tree.arcs, found, |seen|, k);
    assert seen + (q + [children[k]]) == found + [children[k]];
  }

  /** A child that is hidden, or found before, adds nothing. */
  lemma {:induction false} PassesChild(arcs: seq<Arc>, found: seq<string>, p: int, children: seq<string>, k: nat)
    requires k < |children| && FirstFinds(arcs, found, p, children[..k])
    ensures FirstFinds(arcs, found, p, children[..k + 1])
  {
    assert children[..k + 1] == children[..k] + [children[k]];
  }

  /** Visits the visible nodes through a queue. */
  method Discover(tree: RunTree, vis: seq<string>) returns (seen: seq<string>)
    requires Distinct(vis) && tree.root in vis
    ensures Distinct(seen) && seen != [] && seen[0] == tree.root
    ensures forall x :: x in seen ==> x in vis
    ensures BreadthFirst(tree.arcs, seen, |seen|) && SiblingsInOrder(tree.arcs, seen, |seen|)
    ensures Followed(tree, vis, seen, |seen|)
  {
    seen := [];
    var q := [tree.root];
    var mark := {tree.root};
    while q != []
      invariant Searching(tree, vis, seen, q)
      invariant Followed(tree, vis, seen + q, |seen|)
      invariant forall x :: x in mark <==> x in seen + q
      decreases |vis| - |seen|
    {
      var id := q[0];
      ghost var found := seen + q;
      TakesNext(tree.arcs, found, |seen|);
      SiblingsTaken(tree.arcs, found, |seen|);
      seen, q := seen + [id], q[1..];
      assert seen + q == found;
      var children := ChildrenOf(tree.arcs, id);
      for k := 0 to |children|
        invariant Searching(tree, vis, seen, q)
        invariant Followed(tree, vis, seen + q, |seen| - 1)
        invariant forall x :: x in mark <==> x in seen + q
        invariant forall x :: x in children[..k] && x in vis ==> x in seen + q
        invariant FirstFinds(tree.arcs, seen + q, |seen| - 1, children[..k])
      {
        var c := children[k];
        assert children[..k + 1] == children[..k] + [c];
        if c in vis && c !in mark {
          AddsChild(tree, vis, seen, q, k);
          mark := mark + {c};
          q := q + [c];
        } else {
          PassesChild(tree.arcs, seen + q, |seen| - 1, children, k);
        }
      }
      assert children[..|children|] == children;
      DistinctListFits(seen + q, vis);
    }
    assert seen + q == seen;
  }

  lemma DistinctListFits(s: seq<string>, all: seq<string>)
    requires Distinct(s) && forall x :: x in s ==> x in all
    ensures |s| <= |all|
  {
    DistinctFits(s, NamesIn(all));
    SetOfList(all);
  }

  function NamesIn(s: seq<string>): set<string> {
    set x | x in s
  }

  lemma {:induction false} SetOfList(s: seq<string>)
    ensures |NamesIn(s)| <= |s|
  {
    if s != [] {
      SetOfList(s[..|s| - 1]);
      assert NamesIn(s) == NamesIn(s[..|s| - 1]) + {s[|s| - 1]};
    }
  }

  /** All visible nodes are discovered. */
  lemma DiscoversAll(tree: RunTree, expanded: set<string>, vis: seq<string>, seen: seq<string>, x: string)
    requires forall y :: y in vis <==> Reaches(tree, expanded, y)
    requires seen != [] && seen[0] == tree.root && Followed(tree, vis, seen, |seen|)
    requires x in vis
    ensures x in seen
  {
    var w :| ReachedBy(tree, expanded, w, x);
    DiscoversWalk(tree, expanded, vis, seen, w, |w| - 1);
  }

  lemma WalkStaysVisible(tree: RunTree, expanded: set<string>, w: seq<string>, x: string, i: nat)
    requires ReachedBy(tree, expanded, w, x) && i < |w|
    ensures Reaches(tree, expanded, w[i])
  {
    assert ReachedBy(tree, expanded, w[..i + 1], w[i]);
  }

  lemma {:induction false} DiscoversWalk(tree: RunTree, expanded: set<string>, vis: seq<string>, seen: seq<string>,
                                         w: seq<string>, i: nat)
    requires forall y :: y in vis <==> Reaches(tree, expanded, y)
    requires seen != [] && seen[0] == tree.root && Followed(tree, vis, seen, |seen|)
    requires |w| > 0 && ReachedBy(tree, expanded, w, w[|w| - 1]) && i < |w|
    ensures w[i] in seen
  {
    if i > 0 {
      DiscoversWalk(tree, expanded, vis, seen, w, i - 1);
      WalkStaysVisible(tree, expanded, w, w[|w| - 1], i);
      var p :| 0 <= p < |seen| && seen[p] == w[i - 1];
      assert Arc(seen[p], w[i]) in tree.arcs;
    }
  }

  // ---------------------------------------------------------------------
  // Rows
  // ---------------------------------------------------------------------

  const NODE_W := 290
  const NODE_H := 54
  const ROW_GAP := 12
  const TOP_PAD := 12
  const LEFT_PAD := 12
  const LANE_BASE := 30
  const LANE_STEP := 10

  datatype LaidEdge = LaidEdge(fromRow: nat, toRow: nat, lane: nat, fromId: string, toId: string)

  datatype Layout = Layout(
    order: seq<string>, rowOf: map<string, nat>, edges: seq<LaidEdge>, laneCount: nat, width: int, height: int)

  /** Arcs out of expanded nodes between visible nodes. */
  function ShownArcs(arcs: seq<Arc>, expanded: set<string>, vis: seq<string>): (shown: seq<Arc>)
    ensures forall a :: a in shown <==> a in arcs && a.from in vis && a.to in vis && a.from in expanded
  {
    if arcs == [] then []
    else
      var last := arcs[|arcs| - 1];
      ShownArcs(arcs[..|arcs| - 1], expanded, vis)
      + (if last.from in vis && last.to in vis && last.from in expanded then [last] else [])
  }

  lemma {:induction false} ReachedThroughShown(tree: RunTree, expanded: set<string>, vis: seq<string>, x: string)
    requires forall y :: y in vis <==> Reaches(tree, expanded, y)
    requires x in vis
    ensures exists w :: WalkTo(ShownArcs(tree.arcs, expanded, vis), tree.root, w, x)
  {
    var w :| ReachedBy(tree, expanded, w, x);
    forall i | 0 < i < |w|
      ensures Arc(w[i - 1], w[i]) in ShownArcs(tree.arcs, expanded, vis)
    {
      WalkStaysVisible(tree, expanded, w, x, i - 1);
      WalkStaysVisible(tree, expanded, w, x, i);
    }
    assert WalkTo(ShownArcs(tree.arcs, expanded, vis), tree.root, w, x);
  }

  function IndexOf(s: seq<string>, x: string): (i: nat)
    requires x in s
    ensures i < |s| && s[i] == x && x !in s[..i]
  {
    if s[0] == x then 0 else 1 + IndexOf(s[1..], x)
  }

  function DepthOf(depth: map<string, nat>, x: string): nat {
    if x in depth then depth[x] else 0
  }

  function RowKeys(vis: seq<string>, depth: map<string, nat>, seen: seq<string>): (keys: seq<Key>)
    requires forall x :: x in vis ==> x in seen
    ensures |keys| == |vis|
    ensures forall i :: 0 <= i < |vis| ==>
              keys[i] == Key(DepthOf(depth, vis[i]) as real, IndexOf(seen, vis[i]) as real)
  {
    if vis == [] then []
    else
      var last := vis[|vis| - 1];
      RowKeys(vis[..|vis| - 1], depth, seen) + [Key(DepthOf(depth, last) as real, IndexOf(seen, last) as real)]
  }

  /** By depth, and within one depth by discovery. */
  ghost predicate InRowOrder(depth: map<string, nat>, seen: seq<string>, x: string, y: string)
    requires x in seen && y in seen
  {
    || DepthOf(depth, x) < DepthOf(depth, y)
    || (DepthOf(depth, x) == DepthOf(depth, y) && IndexOf(seen, x) < IndexOf(seen, y))
  }

  lemma {:induction false} SortedRows(vis: seq<string>, depth: map<string, nat>, seen: seq<string>, rows: seq<nat>)
    requires Distinct(vis) && forall x :: x in vis ==> x in seen
    requires IsOrder(RowKeys(vis, depth, seen), rows, |vis|)
    ensures Distinct(Arranged(vis, rows))
    ensures forall x :: x in Arranged(vis, rows) <==> x in vis
    ensures var order := Arranged(vis, rows);
            forall i, j :: 0 <= i < j < |order| ==> InRowOrder(depth, seen, order[i], order[j])
  {
    var keys, order := RowKeys(vis, depth, seen), Arranged(vis, rows);
    forall x | x in vis
      ensures x in order
    {
      var v :| 0 <= v < |vis| && vis[v] == x;
      assert v in rows;
      var i :| 0 <= i < |rows| && rows[i] == v;
      assert order[i] == x;
    }
    forall i, j | 0 <= i < j < |order|
      ensures InRowOrder(depth, seen, order[i], order[j]) && order[i] != order[j]
    {
      assert Precedes(keys, rows[i], rows[j]);
    }
  }

  function RowsOf(order: seq<string>): (rowOf: map<string, nat>)
    requires Distinct(order)
    ensures forall x :: x in rowOf <==> x in order
    ensures forall x :: x in rowOf ==> rowOf[x] < |order| && order[rowOf[x]] == x
  {
    map i | 0 <= i < |order| :: order[i] := i
  }

  /** The connectors as row intervals. */
  function Intervals(shown: seq<Arc>, rowOf: map<string, nat>): (rows: seq<Lanes.Edge>)
    requires forall a :: a in shown ==> a.from in rowOf && a.to in rowOf
    ensures |rows| == |shown|
    ensures forall i :: 0 <= i < |shown| ==> rows[i] == Lanes.Edge(rowOf[shown[i].from], rowOf[shown[i].to])
  {
    if shown == [] then []
    else
      var last := shown[|shown| - 1];
      Intervals(shown[..|shown| - 1], rowOf) + [Lanes.Edge(rowOf[last.from], rowOf[last.to])]
  }

  /** Each shown arc as it is laid out, in arc order. */
  ghost predicate LaidOut(shown: seq<Arc>, order: seq<string>, edges: seq<LaidEdge>) {
    && |edges| == |shown|
    && forall i :: 0 <= i < |edges| ==>
         && edges[i].fromId == shown[i].from && edges[i].toId == shown[i].to
         && edges[i].fromRow < |order| && order[edges[i].fromRow] == shown[i].from
         && edges[i].toRow < |order| && order[edges[i].toRow] == shown[i].to
  }

  ghost predicate PointsDown(edges: seq<LaidEdge>) {
    forall i :: 0 <= i < |edges| ==> edges[i].fromRow < edges[i].toRow
  }

  /** Rows follow the longest distance from the root; equal distances keep the order of discovery. */
  ghost predicate ByDistance(shown: seq<Arc>, root: string, order: seq<string>, seen: seq<string>) {
    forall i, j, d, e :: 0 <= i < j < |order| && LongestTo(shown, root, order[i], d) && LongestTo(shown, root, order[j], e) ==>
      d < e || (d == e && order[i] in seen && order[j] in seen && IndexOf(seen, order[i]) < IndexOf(seen, order[j]))
  }

  /** Connectors of one lane have no row in common. */
  ghost predicate LanesFit(shown: seq<Arc>, edges: seq<LaidEdge>, laneCount: nat) {
    && |edges| == |shown|
    && (forall i, j :: 0 <= i < j < |edges| && edges[i].lane == edges[j].lane ==>
          !Lanes.Meet(Lanes.Edge(edges[i].fromRow, edges[i].toRow), Lanes.Edge(edges[j].fromRow, edges[j].toRow)))
    && (forall i :: 0 <= i < |edges| ==> edges[i].lane < laneCount)
  }

  lemma LongestIsOne(arcs: seq<Arc>, root: string, x: string, d: nat, e: nat)
    requires LongestTo(arcs, root, x, d) && LongestTo(arcs, root, x, e)
    ensures d == e
  {
  }

  /** An arc leads to a node farther from the root. */
  lemma ArcsLeadAway(arcs: seq<Arc>, root: string, a: Arc, d: nat, e: nat)
    requires a in arcs && LongestTo(arcs, root, a.from, d) && LongestTo(arcs, root, a.to, e)
    ensures d < e
  {
    var w :| WalkTo(arcs, root, w, a.from) && |w| == d + 1;
    assert WalkTo(arcs, root, w + [a.to], a.to);
  }

  ghost predicate DepthsAreLongest(shown: seq<Arc>, root: string, depth: map<string, nat>, vis: seq<string>) {
    forall x :: x in vis ==> x in depth && LongestTo(shown, root, x, depth[x])
  }

  lemma {:induction false} DepthsFound(tree: RunTree, expanded: set<string>, vis: seq<string>, shown: seq<Arc>,
                                       depth: map<string, nat>, n: nat)
    requires tree.root in vis && forall y :: y in vis <==> Reaches(tree, expanded, y)
    requires shown == ShownArcs(tree.arcs, expanded, vis) && Acyclic(shown) && |vis| <= n
    requires Sound(shown, tree.root, depth) && Relaxed(shown, tree.root, depth, n, 0)
    ensures DepthsAreLongest(shown, tree.root, depth, vis)
  {
    forall x | x in vis
      ensures x in depth && LongestTo(shown, tree.root, x, depth[x])
    {
      SetOfList(vis);
      ReachedThroughShown(tree, expanded, vis, x);
      RelaxedIsLongest(shown, tree.root, depth, n, NamesIn(vis), x);
    }
  }

  ghost predicate RowsSorted(order: seq<string>, depth: map<string, nat>, seen: seq<string>) {
    && Distinct(order) && (forall x :: x in order ==> x in seen)
    && forall i, j :: 0 <= i < j < |order| ==> InRowOrder(depth, seen, order[i], order[j])
  }

  lemma LaysByDistance(shown: seq<Arc>, root: string, depth: map<string, nat>, order: seq<string>, seen: seq<string>)
    requires RowsSorted(order, depth, seen) && DepthsAreLongest(shown, root, depth, order)
    ensures ByDistance(shown, root, order, seen)
  {
    forall i, j, d, e |
      0 <= i < j < |order| && LongestTo(shown, root, order[i], d) && LongestTo(shown, root, order[j], e)
      ensures d < e || (d == e && IndexOf(seen, order[i]) < IndexOf(seen, order[j]))
    {
      LongestIsOne(shown, root, order[i], d, depth[order[i]]);
      LongestIsOne(shown, root, order[j], e, depth[order[j]]);
    }
  }

  lemma EarlierIsShallower(depth: map<string, nat>, order: seq<string>, seen: seq<string>, s: nat, r: nat)
    requires RowsSorted(order, depth, seen) && s < r < |order|
    ensures DepthOf(depth, order[s]) <= DepthOf(depth, order[r])
  {
    assert InRowOrder(depth, seen, order[s], order[r]);
  }

  lemma DeeperIsLower(depth: map<string, nat>, order: seq<string>, seen: seq<string>, r: nat, s: nat)
    requires RowsSorted(order, depth, seen) && r < |order| && s < |order|
    requires DepthOf(depth, order[r]) < DepthOf(depth, order[s])
    ensures r < s
  {
    if s < r {
      EarlierIsShallower(depth, order, seen, s, r);
    }
  }

  lemma AcyclicPointsDown(shown: seq<Arc>, root: string, depth: map<string, nat>, order: seq<string>, seen: seq<string>,
                          edges: seq<LaidEdge>)
    requires RowsSorted(order, depth, seen) && DepthsAreLongest(shown, root, depth, order) && LaidOut(shown, order, edges)
    ensures PointsDown(edges)
  {
    forall i | 0 <= i < |edges|
      ensures edges[i].fromRow < edges[i].toRow
    {
      var a := shown[i];
      assert a.from in order && a.to in order;
      ArcsLeadAway(shown, root, a, depth[a.from], depth[a.to]);
      DeeperIsLower(depth, order, seen, edges[i].fromRow, edges[i].toRow);
    }
  }

  lemma {:induction false} RowsGrow(shown: seq<Arc>, order: seq<string>, edges: seq<LaidEdge>, w: seq<string>, i: nat)
    returns (first: nat, row: nat)
    requires Distinct(order) && LaidOut(shown, order, edges) && PointsDown(edges)
    requires Walk(shown, w) && 0 < i < |w|
    ensures first < row < |order| && order[first] == w[0] && order[row] == w[i]
  {
    assert Arc(w[i - 1], w[i]) in shown;
    var k :| 0 <= k < |shown| && shown[k] == Arc(w[i - 1], w[i]);
    row := edges[k].toRow;
    if i == 1 {
      first := edges[k].fromRow;
    } else {
      var before;
      first, before := RowsGrow(shown, order, edges, w, i - 1);
      assert order[before] == order[edges[k].fromRow];
    }
  }

  lemma PointingDownIsAcyclic(shown: seq<Arc>, order: seq<string>, edges: seq<LaidEdge>)
    requires Distinct(order) && LaidOut(shown, order, edges) && PointsDown(edges)
    ensures Acyclic(shown)
  {
    forall w | Walk(shown, w) && |w| > 1
      ensures w[0] != w[|w| - 1]
    {
      var first, row := RowsGrow(shown, order, edges, w, |w| - 1);
    }
  }

  /** The connectors with their rows and lanes. */
  function Laid(shown: seq<Arc>, rowOf: map<string, nat>, lanes: seq<nat>): (edges: seq<LaidEdge>)
    requires |lanes| == |shown| && forall a :: a in shown ==> a.from in rowOf && a.to in rowOf
    ensures |edges| == |shown|
    ensures forall i :: 0 <= i < |shown| ==>
              edges[i] == LaidEdge(rowOf[shown[i].from], rowOf[shown[i].to], lanes[i], shown[i].from, shown[i].to)
  {
    if shown == [] then []
    else
      var n := |shown| - 1;
      Laid(shown[..n], rowOf, lanes[..n])
      + [LaidEdge(rowOf[shown[n].from], rowOf[shown[n].to], lanes[n], shown[n].from, shown[n].to)]
  }

  lemma {:induction false} LaidKeepsRows(shown: seq<Arc>, order: seq<string>, lanes: seq<nat>)
    requires Distinct(order) && |lanes| == |shown| && forall a :: a in shown ==> a.from in order && a.to in order
    ensures LaidOut(shown, order, Laid(shown, RowsOf(order), lanes))
  {
  }

  lemma {:induction false} LaidKeepsLanes(shown: seq<Arc>, rowOf: map<string, nat>, lanes: seq<nat>)
    requires forall a :: a in shown ==> a.from in rowOf && a.to in rowOf
    requires Lanes.Proper(Intervals(shown, rowOf), lanes)
    ensures LanesFit(shown, Laid(shown, rowOf, lanes), Lanes.LaneCount(lanes))
  {
    var rows, edges := Intervals(shown, rowOf), Laid(shown, rowOf, lanes);
    assert forall i :: 0 <= i < |edges| ==> rows[i] == Lanes.Edge(edges[i].fromRow, edges[i].toRow);
  }

  /** Rows point down exactly when no shown walk returns, and then they follow the distance from the root. */
  lemma {:induction false} LayoutIsFaithful(tree: RunTree, expanded: set<string>, vis: seq<string>, shown: seq<Arc>,
                                            depth: map<string, nat>,
                         order: seq<string>, seen: seq<string>, edges: seq<LaidEdge>)
    requires tree.root in vis && forall y :: y in vis <==> Reaches(tree, expanded, y)
    requires shown == ShownArcs(tree.arcs, expanded, vis)
    requires Sound(shown, tree.root, depth) && Relaxed(shown, tree.root, depth, |vis| + 3, 0)
    requires RowsSorted(order, depth, seen) && forall x :: x in order <==> x in vis
    requires LaidOut(shown, order, edges)
    ensures Acyclic(shown) <==> PointsDown(edges)
    ensures Acyclic(shown) ==> ByDistance(shown, tree.root, order, seen)
  {
    if Acyclic(shown) {
      DepthsFound(tree, expanded, vis, shown, depth, |vis| + 3);
      LaysByDistance(shown, tree.root, depth, order, seen);
      AcyclicPointsDown(shown, tree.root, depth, order, seen, edges);
    }
    if PointsDown(edges) {
      PointingDownIsAcyclic(shown, order, edges);
    }
  }

  lemma {:induction false} OrderIsSorted(vis: seq<string>, depth: map<string, nat>, seen: seq<string>, rows: seq<nat>)
    requires Distinct(vis) && forall x :: x in vis ==> x in seen
    requires IsOrder(RowKeys(vis, depth, seen), rows, |vis|)
    ensures RowsSorted(Arranged(vis, rows), depth, seen)
    ensures forall x :: x in Arranged(vis, rows) <==> x in vis
  {
    SortedRows(vis, depth, seen, rows);
  }

  /** The last row ends one pad above the bottom. */
  predicate HoldsRows(layout: Layout) {
    TOP_PAD + (|layout.order| - 1) * (NODE_H + ROW_GAP) + NODE_H + TOP_PAD == layout.height
  }

  /** The gutter right of the nodes has room for the base and for every lane, and for one lane at least. */
  predicate HoldsLanes(layout: Layout) {
    && LEFT_PAD + NODE_W + LANE_BASE + layout.laneCount * LANE_STEP + 10 <= layout.width
    && LEFT_PAD + NODE_W + LANE_BASE + LANE_STEP + 10 <= layout.width
    && (layout.laneCount > 0 ==> layout.width == LEFT_PAD + NODE_W + LANE_BASE + layout.laneCount * LANE_STEP + 10)
  }

  /** The layout of a run tree with the given nodes expanded. */
  method ComputeLayout(tree: RunTree, expanded: set<string>)
    returns (layout: Layout, ghost shown: seq<Arc>, ghost seen: seq<string>)
    ensures Distinct(layout.order) && forall x :: x in layout.order <==> Reaches(tree, expanded, x)
    ensures shown == ShownArcs(tree.arcs, expanded, layout.order)
    ensures forall a :: a in shown <==> a in tree.arcs && a.from in layout.order && a.from in expanded
    ensures LaidOut(shown, layout.order, layout.edges) && LanesFit(shown, layout.edges, layout.laneCount)
    ensures Acyclic(shown) <==> PointsDown(layout.edges)
    ensures Acyclic(shown) ==> ByDistance(shown, tree.root, layout.order, seen)
    ensures Distinct(seen) && seen != [] && seen[0] == tree.root && forall x :: x in seen <==> x in layout.order
    ensures BreadthFirst(tree.arcs, seen, |seen|) && SiblingsInOrder(tree.arcs, seen, |seen|)
    ensures forall x :: x in layout.rowOf <==> x in layout.order
    ensures forall x :: x in layout.rowOf ==> layout.rowOf[x] < |layout.order| && layout.order[layout.rowOf[x]] == x
    ensures exists row :: |Lanes.Crowd(Intervals(shown, layout.rowOf), row)| == layout.laneCount
    ensures HoldsRows(layout) && HoldsLanes(layout)
  {
    var vis := Visible(tree, expanded);
    var visArcs := ShownArcs(tree.arcs, expanded, vis);
    var depth := Relax(visArcs, tree.root, |vis| + 2);
    var found := Discover(tree, vis);
    forall x | x in vis
      ensures x in found
    {
      DiscoversAll(tree, expanded, vis, found, x);
    }
    var rows := Order(RowKeys(vis, depth, found), |vis|);
    OrderIsSorted(vis, depth, found, rows);
    var order := Arranged(vis, rows);
    var rowOf := RowsOf(order);
    var lanes, row := Lanes.AssignLanes(Intervals(visArcs, rowOf));
    var laneCount := Lanes.LaneCount(lanes);
    var edges := Laid(visArcs, rowOf, lanes);
    var gutter := LANE_BASE + (if laneCount > 1 then laneCount else 1) * LANE_STEP + 10;
    layout := Layout(order, rowOf, edges, laneCount, LEFT_PAD + NODE_W + gutter,
                     TOP_PAD * 2 + |order| * NODE_H + (|order| - 1) * ROW_GAP);
    shown, seen := visArcs, found;
    LaidKeepsRows(visArcs, order, lanes);
    LaidKeepsLanes(visArcs, rowOf, lanes);
    LayoutIsFaithful(tree, expanded, vis, visArcs, depth, order, found, edges);
    ShownFromVisible(tree, expanded, vis);
    SameShown(tree.arcs, expanded, vis, order);
  }

  lemma {:induction false} SameShown(arcs: seq<Arc>, expanded: set<string>, vis: seq<string>, order: seq<string>)
    requires forall x :: x in vis <==> x in order
    ensures ShownArcs(arcs, expanded, vis) == ShownArcs(arcs, expanded, order)
  {
    if arcs != [] {
      SameShown(arcs[..|arcs| - 1], expanded, vis, order);
    }
  }

  /** Whatever an expanded visible node points to is visible. */
  lemma {:induction false} ShownFromVisible(tree: RunTree, expanded: set<string>, vis: seq<string>)
    requires forall y :: y in vis <==> Reaches(tree, expanded, y)
    ensures forall a :: a in ShownArcs(tree.arcs, expanded, vis) <==> a in tree.arcs && a.from in vis && a.from in expanded
  {
    forall a | a in tree.arcs && a.from in vis && a.from in expanded
      ensures a.to in vis
    {
      assert a == Arc(a.from, a.to);
      ReachesChild(tree, expanded, a.from, a.to);
    }
  }
}
