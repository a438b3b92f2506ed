/**
 * The tree of namespaces with publishers, publishes and subscribers. A node is
 * named by its path; each node counts its active children, so that an empty
 * subtree can be pruned without walking it.
 */
module NamespaceTrees {
  import opened Common

  type Session = nat
  type Path = seq<string>

  datatype Content = Content(
    publisher: Option<Session>, publishes: map<string, Session>, subscribers: set<Session>, handles: set<Session>)
  {
    predicate Empty() {
      publisher.None? && publishes == map[] && subscribers == {} && handles == {}
    }
  }

  const NOTHING := Content(None, map[], {}, {})

  datatype Node = Node(content: Content, active: nat) {
    // A node is worth keeping if it has content or an active child.
    predicate Keep() {
      !content.Empty() || active > 0
    }
  }

  type Nodes = map<Path, Node>

  // ---- The tree as a set of paths ------------------------------------------------

  function Parent(p: Path): Path
    requires p != []
  {
    p[..|p| - 1]
  }

  // Prefixes of the parent are the proper prefixes of the child.
  lemma PrefixOfParent(p: Path, q: Path)
    requires q != []
    ensures p <= Parent(q) <==> p <= q && p != q
  {
    if p <= q && p != q {
      assert |p| < |q|;
      assert Parent(q)[..|p|] == q[..|p|];
    }
  }

  // Two prefixes of one path are prefixes of each other.
  lemma PrefixesOfOne(p: Path, q: Path, to: Path)
    requires p <= to && q <= to && |p| <= |q|
    ensures p <= q
  {
    assert q[..|p|] == to[..|p|];
  }

  ghost function KeptChildren(nodes: Nodes, p: Path): set<Path> {
    set q | q in nodes && q != [] && Parent(q) == p && nodes[q].Keep()
  }

  ghost predicate Closed(nodes: Nodes) {
    [] in nodes && forall p {:trigger Parent(p)} :: p in nodes && p != [] ==> Parent(p) in nodes
  }

  // The count of each node bounds its kept children, give or take `slack` at one node.
  ghost predicate CountsOk(nodes: Nodes, at: Path, slack: int) {
    forall p :: p in nodes ==> |KeptChildren(nodes, p)| + (if p == at then slack else 0) <= nodes[p].active
  }

  // The count of each node is the number of its kept children, but for `excess` at one node.
  ghost predicate CountsExact(nodes: Nodes, at: Path, excess: int) {
    forall p :: p in nodes ==> nodes[p].active == |KeptChildren(nodes, p)| + if p == at then excess else 0
  }

  // The nodes not worth keeping are those on the way to `to` that lie below depth d.
  ghost predicate KeptBut(nodes: Nodes, to: Path, d: nat) {
    forall p :: p in nodes && p != [] ==> (nodes[p].Keep() <==> !(p <= to && |p| > d))
  }

  /**
   * Between operations: every count is at least the number of kept children, and
   * every node but the root is kept.
   */
  ghost predicate TreeOk(nodes: Nodes) {
    Closed(nodes) && CountsOk(nodes, [], 0) && KeptBut(nodes, [], 0)
  }

  // Every count is the number of kept children.
  ghost predicate Exact(nodes: Nodes) {
    CountsExact(nodes, [], 0)
  }

  // What the tree holds, namespace by namespace.
  ghost function Contents(nodes: Nodes): map<Path, Content> {
    map p | p in nodes && !nodes[p].content.Empty() :: nodes[p].content
  }

  /** Nothing below a node not worth keeping is worth keeping, at any depth. */
  lemma {:induction false} NothingBelow(nodes: Nodes, p: Path, q: Path)
    requires Closed(nodes) && CountsOk(nodes, [], 0)
    requires p in nodes && !nodes[p].Keep() && q in nodes && p <= q
    ensures !nodes[q].Keep()
    decreases |q|
  {
    if q != p {
      NothingBelow(nodes, p, Parent(q));
      var siblings := KeptChildren(nodes, Parent(q));
      assert |siblings| == 0;
      assert q !in siblings;
    }
  }

  // ---- Counting up ----------------------------------------------------------------

  function WithActive(nodes: Nodes, p: Path, active: nat): Nodes
    requires p in nodes
  {
    nodes[p := nodes[p].(active := active)]
  }

  // Counting up makes q worth keeping; nothing else changes.
  lemma KeptAfterCount(nodes: Nodes, q: Path, p: Path)
    requires q in nodes
    ensures var after := WithActive(nodes, q, nodes[q].active + 1);
      KeptChildren(after, p) == KeptChildren(nodes, p) + if q != [] && Parent(q) == p then {q} else {}
  {
  }

  // How the number of kept children of p changes.
  lemma KeptNumber(nodes: Nodes, q: Path, p: Path)
    requires q in nodes
    ensures |KeptChildren(WithActive(nodes, q, nodes[q].active + 1), p)| ==
      |KeptChildren(nodes, p)| + if q != [] && !nodes[q].Keep() && p == Parent(q) then 1 else 0
  {
    KeptAfterCount(nodes, q, p);
    if q != [] && Parent(q) == p && nodes[q].Keep() {
      assert q in KeptChildren(nodes, p);
      assert KeptChildren(nodes, p) + {q} == KeptChildren(nodes, p);
    }
  }

  lemma CountedUp(nodes: Nodes, q: Path)
    requires Closed(nodes) && q in nodes && CountsOk(nodes, q, -1)
    ensures var after := WithActive(nodes, q, nodes[q].active + 1);
      if q != [] && !nodes[q].Keep() then CountsOk(after, Parent(q), -1) else CountsOk(after, [], 0)
  {
    forall p | p in nodes { KeptNumber(nodes, q, p); }
  }

  lemma CountedUpExactly(nodes: Nodes, q: Path)
    requires Closed(nodes) && q in nodes && CountsExact(nodes, q, -1)
    ensures var after := WithActive(nodes, q, nodes[q].active + 1);
      if q != [] && !nodes[q].Keep() then CountsExact(after, Parent(q), -1) else CountsExact(after, [], 0)
  {
    forall p | p in nodes { KeptNumber(nodes, q, p); }
  }

  // Only counts differ.
  ghost predicate SameContent(a: Nodes, b: Nodes) {
    a.Keys == b.Keys && forall p :: p in a ==> b[p].content == a[p].content
  }

  lemma SameContentSameContents(a: Nodes, b: Nodes)
    requires SameContent(a, b)
    ensures Contents(a) == Contents(b)
  {
  }

  // Only counts differ, and none of them below depth k.
  ghost predicate CountsAbove(a: Nodes, b: Nodes, k: nat) {
    SameContent(a, b) && forall p :: p in a && |p| > k ==> b[p] == a[p]
  }

  lemma CountsAboveTwice(a: Nodes, b: Nodes, c: Nodes, q: Path)
    requires q != [] && q in a && b == WithActive(a, q, a[q].active + 1) && CountsAbove(b, c, |q| - 1)
    ensures CountsAbove(a, c, |q|) && c[q] == b[q]
  {
  }

  // A child of q has become worth keeping: count it, and pass that on if q has too.
  method IncrementActiveChildren(nodes0: Nodes, q: Path, ghost d: nat) returns (nodes: Nodes)
    requires Closed(nodes0) && q in nodes0
    requires CountsOk(nodes0, q, -1) && KeptBut(nodes0, q, d)
    ensures CountsAbove(nodes0, nodes, |q|) && nodes[q].active == nodes0[q].active + 1
    ensures CountsOk(nodes, [], 0) && KeptBut(nodes, [], 0)
    ensures CountsExact(nodes0, q, -1) ==> CountsExact(nodes, [], 0)
    decreases |q|
  {
    var active := nodes0[q].active + 1;
    nodes := WithActive(nodes0, q, active);
    CountUpStep(nodes0, q, d);
    if active == 1 && q != [] && nodes0[q].content.Empty() {
      ghost var counted := nodes;
      nodes := IncrementActiveChildren(nodes, Parent(q), d);
      CountsAboveTwice(nodes0, counted, nodes, q);
    }
  }

  lemma CountUpStep(nodes: Nodes, q: Path, d: nat)
    requires Closed(nodes) && q in nodes && CountsOk(nodes, q, -1) && KeptBut(nodes, q, d)
    ensures var after := WithActive(nodes, q, nodes[q].active + 1);
      if q != [] && !nodes[q].Keep() then
        Closed(after) && Parent(q) in after && CountsOk(after, Parent(q), -1) && KeptBut(after, Parent(q), d)
      else CountsOk(after, [], 0) && KeptBut(after, [], 0)
    ensures CountsExact(nodes, q, -1) ==>
      var after := WithActive(nodes, q, nodes[q].active + 1);
      if q != [] && !nodes[q].Keep() then CountsExact(after, Parent(q), -1) else CountsExact(after, [], 0)
  {
    CountedUp(nodes, q);
    if CountsExact(nodes, q, -1) {
      CountedUpExactly(nodes, q);
    }
    if q != [] {
      if nodes[q].Keep() {
        AllKept(nodes, q, d);
      } else {
        KeptUpwards(nodes, q, d);
      }
    }
  }

  lemma KeptUpwards(nodes: Nodes, q: Path, d: nat)
    requires q in nodes && q != [] && KeptBut(nodes, q, d) && !nodes[q].Keep()
    ensures KeptBut(WithActive(nodes, q, nodes[q].active + 1), Parent(q), d)
  {
    forall p | p in nodes && p != [] && p != q ensures p <= q <==> p <= Parent(q) {
      PrefixOfParent(p, q);
    }
  }

  lemma AllKept(nodes: Nodes, q: Path, d: nat)
    requires q in nodes && q != [] && KeptBut(nodes, q, d) && nodes[q].Keep()
    ensures KeptBut(WithActive(nodes, q, nodes[q].active + 1), [], 0)
  {
  }

  // ---- Walking down -----------------------------------------------------------------

  // The subscribers met on the way to ns, ns itself not included.
  ghost function SubscribersAbove(nodes: Nodes, ns: Path): set<(Path, Session)> {
    set i, s | 0 <= i < |ns| && ns[..i] in nodes && s in nodes[ns[..i]].content.subscribers :: (ns[..i], s)
  }

  // The tree with every node on the way to ns present; d of them were there before.
  ghost predicate Extended(nodes0: Nodes, nodes: Nodes, ns: Path, d: nat) {
    && d <= |ns|
    && (forall i :: 0 <= i <= |ns| ==> (ns[..i] in nodes0 <==> i <= d))
    && nodes.Keys == nodes0.Keys + (set i | d < i <= |ns| :: ns[..i])
    && (forall p :: p in nodes ==> nodes[p] == if p in nodes0 then nodes0[p] else Node(NOTHING, 0))
  }

  // Walks to ns, creating what is missing and collecting subscribers on the way.
  method FindOrCreate(nodes0: Nodes, ns: Path) returns (nodes: Nodes, subscribers: set<(Path, Session)>, ghost d: nat)
    requires Closed(nodes0)
    ensures Extended(nodes0, nodes, ns, d)
    ensures subscribers == SubscribersAbove(nodes0, ns)
  {
    nodes, subscribers, d := nodes0, {}, 0;
    for i := 0 to |ns|
      invariant d <= i && ns[..i] in nodes
      invariant forall j :: 0 <= j <= i ==> (ns[..j] in nodes0 <==> j <= d)
      invariant nodes.Keys == nodes0.Keys + (set j | d < j <= i :: ns[..j])
      invariant forall p :: p in nodes ==> nodes[p] == if p in nodes0 then nodes0[p] else Node(NOTHING, 0)
      invariant subscribers == set j, s | 0 <= j < i && ns[..j] in nodes0 && s in nodes0[ns[..j]].content.subscribers :: (ns[..j], s)
    {
      var here, next := ns[..i], ns[..i + 1];
      subscribers := subscribers + set s | s in nodes[here].content.subscribers :: (here, s);
      assert Parent(next) == here;
      if next in nodes {
        assert next in nodes0;
        d := i + 1;
      } else {
        nodes := nodes[next := Node(NOTHING, 0)];
      }
    }
    assert ns[..|ns|] == ns;
  }

  lemma ExtendedClosed(nodes0: Nodes, nodes: Nodes, ns: Path, d: nat)
    requires Closed(nodes0) && Extended(nodes0, nodes, ns, d)
    ensures Closed(nodes)
  {
    forall p | p in nodes && p != [] ensures Parent(p) in nodes {
      if p !in nodes0 {
        var i :| d < i <= |ns| && p == ns[..i];
        assert Parent(p) == ns[..i - 1];
      }
    }
  }

  lemma ExtendedCounts(nodes0: Nodes, nodes: Nodes, ns: Path, d: nat)
    requires Closed(nodes0) && CountsOk(nodes0, [], 0) && Extended(nodes0, nodes, ns, d)
    ensures CountsOk(nodes, [], 0)
    ensures CountsExact(nodes0, [], 0) ==> CountsExact(nodes, [], 0)
  {
    forall p | p in nodes
      ensures KeptChildren(nodes, p) == KeptChildren(nodes0, p) && (p !in nodes0 ==> KeptChildren(nodes, p) == {})
    {
    }
  }

  lemma ExtendedKept(nodes0: Nodes, nodes: Nodes, ns: Path, d: nat)
    requires KeptBut(nodes0, [], 0) && Extended(nodes0, nodes, ns, d)
    ensures ns in nodes && KeptBut(nodes, ns, d)
  {
    assert ns[..|ns|] == ns;
    forall p | p in nodes && p != [] ensures nodes[p].Keep() <==> !(p <= ns && |p| > d) {
      if p <= ns {
        assert p == ns[..|p|];
      }
    }
  }

  lemma ExtendedSame(nodes0: Nodes, nodes: Nodes, ns: Path, d: nat)
    requires ns in nodes0 && Extended(nodes0, nodes, ns, d)
    ensures nodes == nodes0
  {
    assert ns[..|ns|] == ns;
    assert d == |ns|;
  }

  lemma ExtendedIsOk(nodes0: Nodes, nodes: Nodes, ns: Path, d: nat)
    requires TreeOk(nodes0) && Extended(nodes0, nodes, ns, d)
    ensures ns in nodes && Closed(nodes) && CountsOk(nodes, [], 0) && KeptBut(nodes, ns, d)
    ensures Contents(nodes) == Contents(nodes0)
    ensures CountsExact(nodes0, [], 0) ==> CountsExact(nodes, [], 0)
  {
    ExtendedClosed(nodes0, nodes, ns, d);
    ExtendedCounts(nodes0, nodes, ns, d);
    ExtendedKept(nodes0, nodes, ns, d);
  }

  // ---- Adding content -------------------------------------------------------------------

  function WithContent(nodes: Nodes, ns: Path, content: Content): Nodes
    requires ns in nodes
  {
    nodes[ns := nodes[ns].(content := content)]
  }

  lemma KeptAfterContent(nodes: Nodes, ns: Path, content: Content, p: Path)
    requires ns in nodes && ns != [] && !content.Empty()
    ensures KeptChildren(WithContent(nodes, ns, content), p) == KeptChildren(nodes, p) + if p == Parent(ns) then {ns} else {}
  {
  }

  lemma ContentAddedCounts(nodes: Nodes, ns: Path, content: Content)
    requires Closed(nodes) && ns in nodes && ns != [] && CountsOk(nodes, [], 0) && !content.Empty()
    ensures CountsOk(WithContent(nodes, ns, content), Parent(ns), -1)
  {
    var after := WithContent(nodes, ns, content);
    forall p | p in after ensures |KeptChildren(after, p)| <= |KeptChildren(nodes, p)| + if p == Parent(ns) then 1 else 0 {
      KeptAfterContent(nodes, ns, content, p);
    }
  }

  lemma ContentAddedKept(nodes: Nodes, ns: Path, content: Content, d: nat)
    requires ns in nodes && ns != [] && KeptBut(nodes, ns, d) && !content.Empty()
    ensures KeptBut(WithContent(nodes, ns, content), Parent(ns), d)
  {
    forall p | p in nodes && p != [] ensures p <= Parent(ns) <==> p <= ns && p != ns {
      PrefixOfParent(p, ns);
    }
  }

  lemma ContentReplaced(nodes: Nodes, ns: Path, content: Content)
    requires ns in nodes && CountsOk(nodes, [], 0) && nodes[ns].Keep() == nodes[ns].(content := content).Keep()
    ensures CountsOk(WithContent(nodes, ns, content), [], 0)
    ensures CountsExact(nodes, [], 0) ==> CountsExact(WithContent(nodes, ns, content), [], 0)
  {
    var after := WithContent(nodes, ns, content);
    forall p | p in after ensures KeptChildren(after, p) == KeptChildren(nodes, p) {}
  }

  lemma ContentsChanged(nodes: Nodes, ns: Path, content: Content)
    requires ns in nodes
    ensures Contents(WithContent(nodes, ns, content)) == Changed(Contents(nodes), ns, content)
  {
  }

  // Nothing at the depth of ns or below changes but ns.
  ghost predicate SameBeside(a: Nodes, b: Nodes, ns: Path) {
    a.Keys == b.Keys && forall p :: p in a && |p| >= |ns| && p != ns ==> b[p] == a[p]
  }

  // A child that was counted already is counted once more.
  lemma OverCounted(a: Nodes, b: Nodes, ns: Path)
    requires Closed(a) && ns in a && ns != [] && SameBeside(a, b, ns) && CountsExact(a, [], 0)
    requires a[ns].Keep() && b[ns].Keep() && b[Parent(ns)].active == a[Parent(ns)].active + 1
    ensures !CountsExact(b, [], 0)
  {
    assert KeptChildren(b, Parent(ns)) == KeptChildren(a, Parent(ns));
    assert Parent(ns) in b;
  }

  lemma ContentAddedExactly(nodes: Nodes, ns: Path, content: Content)
    requires Closed(nodes) && ns in nodes && ns != [] && CountsExact(nodes, [], 0) && !content.Empty() && !nodes[ns].Keep()
    ensures CountsExact(WithContent(nodes, ns, content), Parent(ns), -1)
  {
    var after := WithContent(nodes, ns, content);
    forall p | p in after ensures |KeptChildren(after, p)| == |KeptChildren(nodes, p)| + if p == Parent(ns) then 1 else 0 {
      KeptAfterContent(nodes, ns, content, p);
    }
  }

  // The first content of a node: its parent counts it, even if it did so already.
  method AddFirstContent(nodes0: Nodes, ns: Path, content: Content, ghost d: nat) returns (nodes: Nodes)
    requires Closed(nodes0) && ns in nodes0 && CountsOk(nodes0, [], 0) && KeptBut(nodes0, ns, d) && !content.Empty()
    requires ns != [] && nodes0[ns].content.Empty()
    ensures CountsOk(nodes, [], 0) && KeptBut(nodes, [], 0)
    ensures SameContent(WithContent(nodes0, ns, content), nodes) && SameBeside(nodes0, nodes, ns)
    ensures nodes[Parent(ns)].active == nodes0[Parent(ns)].active + 1
    ensures CountsExact(nodes0, [], 0) && !nodes0[ns].Keep() ==> CountsExact(nodes, [], 0)
  {
    nodes := WithContent(nodes0, ns, content);
    ContentAddedCounts(nodes0, ns, content);
    ContentAddedKept(nodes0, ns, content, d);
    if CountsExact(nodes0, [], 0) && !nodes0[ns].Keep() {
      ContentAddedExactly(nodes0, ns, content);
    }
    nodes := IncrementActiveChildren(nodes, Parent(ns), d);
  }

  // Adding content to ns makes its parent count it a second time.
  predicate CountsTwice(nodes: Nodes, ns: Path) {
    ns != [] && ns in nodes && nodes[ns].content.Empty() && nodes[ns].Keep()
  }

  // The content of a node the walk has reached: a node that had none is counted by its parent.
  method AddContent(nodes0: Nodes, ns: Path, content: Content, ghost d: nat) returns (nodes: Nodes)
    requires Closed(nodes0) && ns in nodes0 && CountsOk(nodes0, [], 0) && KeptBut(nodes0, ns, d) && !content.Empty()
    ensures TreeOk(nodes) && SameBeside(nodes0, nodes, ns) && nodes[ns].content == content
    ensures Contents(nodes) == Contents(nodes0)[ns := content]
    ensures ns != [] && nodes0[ns].content.Empty() ==> nodes[Parent(ns)].active == nodes0[Parent(ns)].active + 1
    ensures CountsExact(nodes0, [], 0) ==> (CountsExact(nodes, [], 0) <==> !CountsTwice(nodes0, ns))
  {
    ContentsChanged(nodes0, ns, content);
    nodes := WithContent(nodes0, ns, content);
    if ns == [] {
      RootReplaced(nodes0, content);
    } else if nodes0[ns].content.Empty() {
      nodes := AddFirstContent(nodes0, ns, content, d);
      SameContentSameContents(WithContent(nodes0, ns, content), nodes);
      if CountsExact(nodes0, [], 0) && nodes0[ns].Keep() {
        OverCounted(nodes0, nodes, ns);
      }
    } else {
      ContentReplaced(nodes0, ns, content);
    }
  }

  // The root is nobody's child: its content does not matter to any count.
  lemma RootReplaced(nodes: Nodes, content: Content)
    requires [] in nodes && CountsOk(nodes, [], 0)
    ensures CountsOk(WithContent(nodes, [], content), [], 0)
    ensures CountsExact(nodes, [], 0) ==> CountsExact(WithContent(nodes, [], content), [], 0)
  {
    var after := WithContent(nodes, [], content);
    forall p | p in after ensures KeptChildren(after, p) == KeptChildren(nodes, p) {}
  }

  // ---- Pruning ----------------------------------------------------------------------------

  function WithoutSubtree(nodes: Nodes, p: Path): Nodes {
    map q | q in nodes && !(p <= q) :: nodes[q]
  }

  lemma PrunedIsOk(nodes: Nodes, ns: Path, gone: Path)
    requires Counted(nodes, ns, gone)
    ensures TreeOk(WithoutSubtree(nodes, gone)) && Contents(WithoutSubtree(nodes, gone)) == Contents(nodes)
    ensures CountsExact(nodes, [], 0) ==> CountsExact(WithoutSubtree(nodes, gone), [], 0)
  {
    var after := WithoutSubtree(nodes, gone);
    forall p | p in after && p != [] ensures Parent(p) in after {
      PrefixOfParent(gone, p);
    }
    forall p | p in after ensures KeptChildren(after, p) == KeptChildren(nodes, p) {
      forall q | q in KeptChildren(nodes, p) ensures !(gone <= q) {
        PrefixOfParent(gone, q);
      }
    }
    forall p | p in nodes && gone <= p ensures nodes[p].content.Empty() {
      NothingBelow(nodes, gone, p);
    }
    forall p | p in nodes && p <= ns && |p| >= |gone| ensures gone <= p {
      PrefixesOfOne(gone, p, ns);
    }
  }

  lemma KeptAfterDown(nodes: Nodes, q: Path, p: Path)
    requires q in nodes && nodes[q].active > 0
    ensures var after := WithActive(nodes, q, nodes[q].active - 1);
      KeptChildren(after, p) == KeptChildren(nodes, p) - if after[q].Keep() then {} else {q}
  {
  }

  lemma KeptNumberDown(nodes: Nodes, q: Path, p: Path)
    requires q in nodes && nodes[q].active > 0
    ensures var after := WithActive(nodes, q, nodes[q].active - 1);
      |KeptChildren(after, p)| == |KeptChildren(nodes, p)| - if q != [] && !after[q].Keep() && p == Parent(q) then 1 else 0
  {
    KeptAfterDown(nodes, q, p);
    if q != [] && p == Parent(q) {
      assert q in KeptChildren(nodes, p);
    }
  }

  lemma CountedDown(nodes: Nodes, q: Path)
    requires q in nodes && nodes[q].active > 0 && CountsOk(nodes, q, 1) && Closed(nodes)
    ensures var after := WithActive(nodes, q, nodes[q].active - 1);
      if q != [] && !after[q].Keep() then CountsOk(after, Parent(q), 1) else CountsOk(after, [], 0)
  {
    forall p | p in nodes { KeptNumberDown(nodes, q, p); }
  }

  lemma CountedDownExactly(nodes: Nodes, q: Path)
    requires q in nodes && nodes[q].active > 0 && CountsExact(nodes, q, 1) && Closed(nodes)
    ensures var after := WithActive(nodes, q, nodes[q].active - 1);
      if q != [] && !after[q].Keep() then CountsExact(after, Parent(q), 1) else CountsExact(after, [], 0)
  {
    forall p | p in nodes { KeptNumberDown(nodes, q, p); }
  }

  // `gone` and everything below it on the way to ns is not worth keeping, and its
  // parent still counts it.
  ghost predicate Pruning(nodes: Nodes, ns: Path, gone: Path) {
    && gone != [] && gone <= ns && gone in nodes && Closed(nodes)
    && CountsOk(nodes, Parent(gone), 1) && KeptBut(nodes, ns, |gone| - 1)
  }

  lemma CountIsPositive(nodes: Nodes, ns: Path, gone: Path)
    requires Pruning(nodes, ns, gone)
    ensures nodes[Parent(gone)].active > 0
  {
  }

  lemma PruneStep(nodes: Nodes, ns: Path, gone: Path)
    requires Pruning(nodes, ns, gone) && nodes[Parent(gone)].active > 0
    ensures var current := Parent(gone);
      var after := WithActive(nodes, current, nodes[current].active - 1);
      if !after[current].Keep() && current != [] then Pruning(after, ns, current)
      else gone in after && Closed(after) && CountsOk(after, [], 0) && KeptBut(after, ns, |gone| - 1)
  {
    var current := Parent(gone);
    var after := WithActive(nodes, current, nodes[current].active - 1);
    CountedDown(nodes, current);
    PrefixOfParent(current, gone);
    PrefixesOfOne(current, gone, ns);
    if !after[current].Keep() && current != [] {
      forall p | p in nodes && p <= ns && |p| == |current| ensures p == current {
        PrefixesOfOne(p, current, ns);
      }
    }
  }

  // All that is left to do is to cut `gone` off.
  ghost predicate Counted(nodes: Nodes, ns: Path, gone: Path) {
    && gone != [] && gone <= ns && gone in nodes
    && Closed(nodes) && CountsOk(nodes, [], 0) && KeptBut(nodes, ns, |gone| - 1)
  }

  // The parent of `gone` counts it off; stop unless that makes the parent empty too.
  method CountOff(nodes0: Nodes, ns: Path, gone: Path) returns (nodes: Nodes, stop: bool)
    requires Pruning(nodes0, ns, gone)
    ensures SameContent(nodes0, nodes)
    ensures if stop then Counted(nodes, ns, gone) else Parent(gone) != [] && Pruning(nodes, ns, Parent(gone))
    ensures CountsExact(nodes0, Parent(gone), 1) ==>
      if stop then CountsExact(nodes, [], 0) else CountsExact(nodes, Parent(Parent(gone)), 1)
  {
    var current := Parent(gone);
    CountIsPositive(nodes0, ns, gone);
    PruneStep(nodes0, ns, gone);
    if CountsExact(nodes0, current, 1) {
      CountedDownExactly(nodes0, current);
    }
    nodes := WithActive(nodes0, current, nodes0[current].active - 1);
    stop := nodes[current].Keep() || current == [];
  }

  // A child that is no longer worth keeping is counted off, and with it every ancestor
  // that thereby becomes empty; the topmost of them goes, with all below it.
  method TryPruneChild(nodes0: Nodes, ns: Path) returns (nodes: Nodes)
    requires Pruning(nodes0, ns, ns)
    ensures TreeOk(nodes) && Contents(nodes) == Contents(nodes0)
    ensures CountsExact(nodes0, Parent(ns), 1) ==> CountsExact(nodes, [], 0)
  {
    var gone, stop := ns, false;
    nodes, stop := CountOff(nodes0, ns, gone);
    while !stop
      invariant gone != [] && SameContent(nodes0, nodes)
      invariant if stop then Counted(nodes, ns, gone) else Parent(gone) != [] && Pruning(nodes, ns, Parent(gone))
      invariant CountsExact(nodes0, Parent(ns), 1) ==>
        if stop then CountsExact(nodes, [], 0) else CountsExact(nodes, Parent(Parent(gone)), 1)
      decreases |gone|, !stop
    {
      gone := Parent(gone);
      nodes, stop := CountOff(nodes, ns, gone);
    }
    SameContentSameContents(nodes0, nodes);
    PrunedIsOk(nodes, ns, gone);
    nodes := WithoutSubtree(nodes, gone);
  }

  // ---- Taking content away ---------------------------------------------------------------

  lemma KeptAfterLoss(nodes: Nodes, ns: Path, content: Content, p: Path)
    requires ns in nodes && (nodes[ns].content.Empty() ==> content.Empty())
    ensures var after := WithContent(nodes, ns, content);
      KeptChildren(after, p) == KeptChildren(nodes, p) - if after[ns].Keep() then {} else {ns}
  {
  }

  // Content taken away from ns: if that leaves it not worth keeping, its parent's count is one too high.
  lemma ContentLost(nodes: Nodes, ns: Path, content: Content, d: nat)
    requires Closed(nodes) && ns in nodes && ns != [] && CountsOk(nodes, [], 0) && KeptBut(nodes, ns, d)
    requires nodes[ns].content.Empty() ==> content.Empty()
    ensures var after := WithContent(nodes, ns, content);
      && Closed(after) && CountsOk(after, [], 0)
      && KeptBut(after, ns, if after[ns].Keep() || d < |ns| then d else |ns| - 1)
      && (nodes[ns].Keep() && !after[ns].Keep() ==> CountsOk(after, Parent(ns), 1))
  {
    var after := WithContent(nodes, ns, content);
    forall p | p in nodes
      ensures |KeptChildren(after, p)| <=
        |KeptChildren(nodes, p)| - if nodes[ns].Keep() && !after[ns].Keep() && p == Parent(ns) then 1 else 0
    {
      KeptAfterLoss(nodes, ns, content, p);
      if nodes[ns].Keep() && p == Parent(ns) {
        assert ns in KeptChildren(nodes, p);
      }
    }
    forall p | p in nodes && p <= ns && |p| == |ns| ensures p == ns {}
  }

  lemma ContentLostExactly(nodes: Nodes, ns: Path, content: Content)
    requires ns in nodes && ns != [] && CountsExact(nodes, [], 0) && (nodes[ns].content.Empty() ==> content.Empty())
    ensures var after := WithContent(nodes, ns, content);
      if nodes[ns].Keep() && !after[ns].Keep() then CountsExact(after, Parent(ns), 1) else CountsExact(after, [], 0)
  {
    var after := WithContent(nodes, ns, content);
    forall p | p in nodes
      ensures |KeptChildren(after, p)| ==
        |KeptChildren(nodes, p)| - if nodes[ns].Keep() && !after[ns].Keep() && p == Parent(ns) then 1 else 0
    {
      KeptAfterLoss(nodes, ns, content, p);
      if nodes[ns].Keep() && p == Parent(ns) {
        assert ns in KeptChildren(nodes, p);
      }
    }
  }

  // Leaves a node with less content; a node left with nothing is pruned.
  method ReduceContent(nodes0: Nodes, ns: Path, content: Content) returns (nodes: Nodes)
    requires TreeOk(nodes0) && ns in nodes0 && (nodes0[ns].content.Empty() ==> content.Empty())
    ensures TreeOk(nodes)
    ensures Contents(nodes) == Changed(Contents(nodes0), ns, content)
    ensures CountsExact(nodes0, [], 0) ==> CountsExact(nodes, [], 0)
  {
    nodes := WithContent(nodes0, ns, content);
    ContentsChanged(nodes0, ns, content);
    if ns == [] {
      RootReplaced(nodes0, content);
    } else {
      if CountsExact(nodes0, [], 0) {
        ContentLostExactly(nodes0, ns, content);
      }
      NothingOnTheWay(nodes0, ns);
      ContentLost(nodes0, ns, content, |ns|);
      if !nodes0[ns].content.Empty() && !nodes[ns].Keep() {
        nodes := TryPruneChild(nodes, ns);
      } else {
        EverythingKept(nodes, ns);
      }
    }
  }

  // Between operations nothing on the way to ns is missing content and children.
  lemma NothingOnTheWay(nodes: Nodes, ns: Path)
    requires TreeOk(nodes)
    ensures KeptBut(nodes, ns, |ns|)
  {
  }

  lemma EverythingKept(nodes: Nodes, ns: Path)
    requires KeptBut(nodes, ns, |ns|)
    ensures KeptBut(nodes, [], 0)
  {
  }

  // ---- Looking a publisher up --------------------------------------------------------------

  // The deepest node on the way to ns.
  ghost function Deepest(nodes: Nodes, ns: Path): (r: Path)
    requires Closed(nodes)
    ensures r in nodes && r <= ns
  {
    if ns in nodes || ns == [] then ns else Deepest(nodes, Parent(ns))
  }

  // The publisher of the longest prefix of ns that has one.
  ghost function LongestPublisher(nodes: Nodes, ns: Path): Option<Session> {
    if ns in nodes && nodes[ns].content.publisher.Some? then nodes[ns].content.publisher
    else if ns == [] then None
    else LongestPublisher(nodes, Parent(ns))
  }

  // The publisher of the deepest node on the way to ns; the root answers for itself only.
  ghost function DeepestPublisher(nodes: Nodes, ns: Path): Option<Session>
    requires Closed(nodes)
  {
    var deepest := Deepest(nodes, ns);
    if deepest == [] && ns != [] then None else nodes[deepest].content.publisher
  }

  ghost predicate Publishes(nodes: Nodes, p: Path) {
    p in nodes && nodes[p].content.publisher.Some?
  }

  // ns[..k] is the longest prefix of ns that publishes.
  ghost predicate LongestAt(nodes: Nodes, ns: Path, k: nat) {
    k <= |ns| && Publishes(nodes, ns[..k]) && forall j :: k < j <= |ns| ==> !Publishes(nodes, ns[..j])
  }

  // On the way to ns, no node hides the longest prefix that publishes.
  ghost predicate Unshadowed(nodes: Nodes, ns: Path) {
    forall k: nat :: LongestAt(nodes, ns, k) && k < |ns| ==> k > 0 && ns[..k + 1] !in nodes
  }

  // Walks down as far as the tree goes and asks the node there, unless it is the root.
  method FindPublisher(nodes: Nodes, ns: Path) returns (r: Option<Session>)
    requires Closed(nodes)
    ensures r == DeepestPublisher(nodes, ns)
  {
    for i := 0 to |ns|
      invariant ns[..i] in nodes
    {
      assert Parent(ns[..i + 1]) == ns[..i];
      if ns[..i + 1] !in nodes {
        DeepestIs(nodes, ns, i);
        return if i > 0 then nodes[ns[..i]].content.publisher else None;
      }
    }
    assert ns[..|ns|] == ns;
    return nodes[ns].content.publisher;
  }

  lemma {:induction false} DeepestIs(nodes: Nodes, ns: Path, i: nat)
    requires Closed(nodes) && i < |ns| && ns[..i] in nodes && ns[..i + 1] !in nodes
    ensures Deepest(nodes, ns) == ns[..i]
    decreases |ns|
  {
    assert ns !in nodes by {
      MissingBelow(nodes, ns, i + 1);
    }
    if |ns| == i + 1 {
      assert Parent(ns) == ns[..i];
    } else {
      var up := Parent(ns);
      assert up[..i] == ns[..i] && up[..i + 1] == ns[..i + 1];
      DeepestIs(nodes, up, i);
    }
  }

  lemma {:induction false} MissingBelow(nodes: Nodes, ns: Path, i: nat)
    requires Closed(nodes) && 0 < i <= |ns| && ns[..i] !in nodes
    ensures ns !in nodes
    decreases |ns|
  {
    if |ns| == i {
      assert ns[..i] == ns;
    } else {
      assert Parent(ns)[..i] == ns[..i];
      MissingBelow(nodes, Parent(ns), i);
    }
  }

  lemma {:induction false} LongestIs(nodes: Nodes, ns: Path, k: nat)
    requires LongestAt(nodes, ns, k)
    ensures LongestPublisher(nodes, ns) == nodes[ns[..k]].content.publisher
    decreases |ns|
  {
    assert ns[..|ns|] == ns;
    if k < |ns| {
      var up := Parent(ns);
      assert forall j :: 0 <= j <= |up| ==> up[..j] == ns[..j];
      LongestIs(nodes, up, k);
    }
  }

  lemma {:induction false} NoneIs(nodes: Nodes, ns: Path)
    requires forall j :: 0 <= j <= |ns| ==> !Publishes(nodes, ns[..j])
    ensures LongestPublisher(nodes, ns) == None
    decreases |ns|
  {
    assert ns[..|ns|] == ns;
    if ns != [] {
      var up := Parent(ns);
      assert forall j :: 0 <= j <= |up| ==> up[..j] == ns[..j];
      NoneIs(nodes, up);
    }
  }

  // The longest prefix of length at most n that publishes, if there is one.
  lemma {:induction false} SomeLongest(nodes: Nodes, ns: Path, n: nat) returns (k: Option<nat>)
    requires n <= |ns| && forall j :: n < j <= |ns| ==> !Publishes(nodes, ns[..j])
    ensures match k
      case Some(i) => LongestAt(nodes, ns, i)
      case None => forall j :: 0 <= j <= |ns| ==> !Publishes(nodes, ns[..j])
    decreases n
  {
    if Publishes(nodes, ns[..n]) {
      return Some(n);
    } else if n == 0 {
      return None;
    } else {
      k := SomeLongest(nodes, ns, n - 1);
    }
  }

  lemma {:induction false} DeepestReaches(nodes: Nodes, ns: Path, i: nat)
    requires Closed(nodes) && i <= |ns| && ns[..i] in nodes
    ensures |Deepest(nodes, ns)| >= i && Deepest(nodes, ns) == ns[..|Deepest(nodes, ns)|]
    decreases |ns|
  {
    assert ns[..|ns|] == ns;
    if ns !in nodes && ns != [] {
      assert Parent(ns)[..i] == ns[..i];
      DeepestReaches(nodes, Parent(ns), i);
    }
  }

  /**
   * The lookup gives the publisher of the longest prefix exactly when no node on the
   * way lies below that prefix, which must not be the root.
   */
  lemma LookupIsLongest(nodes: Nodes, ns: Path)
    requires Closed(nodes)
    ensures DeepestPublisher(nodes, ns) == LongestPublisher(nodes, ns) <==> Unshadowed(nodes, ns)
  {
    var k := SomeLongest(nodes, ns, |ns|);
    assert ns[..0] == [] && ns[..|ns|] == ns;
    DeepestReaches(nodes, ns, 0);
    if k.None? {
      NoneIs(nodes, ns);
      assert !Publishes(nodes, ns[..|Deepest(nodes, ns)|]);
    } else {
      LongestIs(nodes, ns, k.value);
      OnlyLongest(nodes, ns, k.value);
      if k.value < |ns| {
        if ns[..k.value + 1] in nodes {
          DeepestReaches(nodes, ns, k.value + 1);
        } else {
          DeepestIs(nodes, ns, k.value);
        }
      }
    }
  }

  lemma OnlyLongest(nodes: Nodes, ns: Path, k: nat)
    requires LongestAt(nodes, ns, k)
    ensures Unshadowed(nodes, ns) <==> (k < |ns| ==> k > 0 && ns[..k + 1] !in nodes)
  {
    assert forall j: nat :: LongestAt(nodes, ns, j) ==> j == k;
  }

  // Something is held at p or below it.
  ghost predicate HeldBelow(nodes: Nodes, p: Path) {
    exists q :: q in Contents(nodes) && p <= q
  }

  ghost function Deeper(nodes: Nodes, p: Path): set<Path> {
    set q | q in nodes && |q| > |p|
  }

  // With exact counts a node other than the root is there because something is held below it.
  lemma {:induction false} NodesAreHeld(nodes: Nodes, p: Path)
    requires Closed(nodes) && Exact(nodes) && p in nodes && nodes[p].Keep()
    ensures HeldBelow(nodes, p)
    decreases Deeper(nodes, p)
  {
    if nodes[p].content.Empty() {
      assert |KeptChildren(nodes, p)| > 0;
      var q :| q in KeptChildren(nodes, p);
      assert q in Deeper(nodes, p) && q !in Deeper(nodes, q) && Deeper(nodes, q) <= Deeper(nodes, p);
      NodesAreHeld(nodes, q);
      var r :| r in Contents(nodes) && q <= r;
      PrefixOfParent(p, q);
      assert p <= r;
    } else {
      assert p in Contents(nodes);
    }
  }

  lemma {:induction false} AncestorsAreThere(nodes: Nodes, p: Path, q: Path)
    requires Closed(nodes) && q in nodes && p <= q
    ensures p in nodes
    decreases |q|
  {
    if p != q {
      PrefixOfParent(p, q);
      AncestorsAreThere(nodes, p, Parent(q));
    }
  }

  lemma NodeIffHeld(nodes: Nodes, p: Path)
    requires TreeOk(nodes) && Exact(nodes) && p != []
    ensures p in nodes <==> HeldBelow(nodes, p)
  {
    if p in nodes {
      NodesAreHeld(nodes, p);
    }
    if HeldBelow(nodes, p) {
      var q :| q in Contents(nodes) && p <= q;
      AncestorsAreThere(nodes, p, q);
    }
  }

  // The same in terms of what the tree holds.
  ghost predicate NothingHides(nodes: Nodes, ns: Path) {
    forall k: nat :: LongestAt(nodes, ns, k) && k < |ns| ==> k > 0 && !HeldBelow(nodes, ns[..k + 1])
  }

  /**
   * While the counts are exact: the lookup is right exactly when nothing is held on
   * the way below the longest prefix that publishes.
   */
  lemma LookupByContents(nodes: Nodes, ns: Path)
    requires TreeOk(nodes) && Exact(nodes)
    ensures DeepestPublisher(nodes, ns) == LongestPublisher(nodes, ns) <==> NothingHides(nodes, ns)
  {
    LookupIsLongest(nodes, ns);
    forall k: nat | LongestAt(nodes, ns, k) && k < |ns| ensures ns[..k + 1] in nodes <==> HeldBelow(nodes, ns[..k + 1]) {
      NodeIffHeld(nodes, ns[..k + 1]);
    }
  }

  // ---- The tree ---------------------------------------------------------------------------------

  datatype Error = NodeNotFound | NotOwner | NotSubscribed
  datatype Result<T> = Ok(value: T) | Err(error: Error)

  ghost function ContentAt(nodes: Nodes, ns: Path): Content {
    if ns in nodes then nodes[ns].content else NOTHING
  }

  // The subscribers of ns and of every prefix of it.
  ghost function Listeners(nodes: Nodes, ns: Path): set<(Path, Session)> {
    SubscribersAbove(nodes, ns) + set s | s in ContentAt(nodes, ns).subscribers :: (ns, s)
  }

  ghost function Changed(contents: map<Path, Content>, ns: Path, content: Content): map<Path, Content> {
    if content.Empty() then contents - {ns} else contents[ns := content]
  }

  // Walks to ns, creating what is missing; nothing the tree holds changes.
  method Reach(nodes0: Nodes, ns: Path) returns (nodes: Nodes, listeners: set<(Path, Session)>, ghost d: nat)
    requires TreeOk(nodes0)
    ensures ns in nodes && Closed(nodes) && CountsOk(nodes, [], 0) && KeptBut(nodes, ns, d)
    ensures Contents(nodes) == Contents(nodes0) && nodes[ns].content == ContentAt(nodes0, ns)
    ensures listeners == Listeners(nodes0, ns)
    ensures if ns in nodes0 then nodes == nodes0 else nodes[ns] == Node(NOTHING, 0)
    ensures CountsExact(nodes0, [], 0) ==> CountsExact(nodes, [], 0)
  {
    var above;
    nodes, above, d := FindOrCreate(nodes0, ns);
    ExtendedIsOk(nodes0, nodes, ns, d);
    if ns in nodes0 {
      ExtendedSame(nodes0, nodes, ns, d);
    }
    listeners := above + set s | s in nodes[ns].content.subscribers :: (ns, s);
  }

  /**
   * The namespace tree. Every operation changes what the tree holds at one
   * namespace and nowhere else, whatever it creates or prunes on the way.
   */
  class NamespaceTree {
    var nodes: Nodes

    ghost predicate Valid()
      reads this
    {
      TreeOk(nodes)
    }

    constructor ()
      ensures Valid() && Contents(nodes) == map[] && Exact(nodes)
    {
      nodes := map[[] := Node(NOTHING, 0)];
      new;
      assert KeptChildren(nodes, []) == {};
    }

    // Makes session the publisher of a namespace; the one it replaces is cleared first.
    method SetPublisher(ns: Path, session: Session) returns (listeners: set<(Path, Session)>, replaced: Option<Session>)
      requires Valid()
      modifies this
      ensures Valid()
      ensures replaced == ContentAt(old(nodes), ns).publisher
      ensures listeners == Listeners(old(nodes), ns)
      ensures Contents(nodes) == Contents(old(nodes))[ns := ContentAt(old(nodes), ns).(publisher := Some(session))]
      ensures Exact(old(nodes)) ==> (Exact(nodes) <==> !ReplacedTwice(old(nodes), ns))
    {
      var found;
      ghost var d;
      found, listeners, d := Reach(nodes, ns);
      replaced := found[ns].content.publisher;
      nodes := ReplacePublisher(found, ns, session, d);
    }

    method AddPublish(ns: Path, track: string, session: Session) returns (listeners: set<(Path, Session)>)
      requires Valid()
      modifies this
      ensures Valid()
      ensures listeners == Listeners(old(nodes), ns)
      ensures var content := ContentAt(old(nodes), ns);
        Contents(nodes) == Contents(old(nodes))[ns := content.(publishes := content.publishes[track := session])]
      ensures Exact(old(nodes)) ==> (Exact(nodes) <==> !CountsTwice(old(nodes), ns))
    {
      var found;
      ghost var d;
      found, listeners, d := Reach(nodes, ns);
      var content := found[ns].content;
      var publishes := content.publishes[track := session];
      assert track in publishes;
      nodes := AddContent(found, ns, content.(publishes := publishes), d);
    }

    method AddNamespaceSubscriber(ns: Path, session: Session)
      requires Valid()
      modifies this
      ensures Valid()
      ensures var content := ContentAt(old(nodes), ns);
        Contents(nodes) == Contents(old(nodes))[ns := content.(subscribers := content.subscribers + {session})]
      ensures Exact(old(nodes)) ==> (Exact(nodes) <==> !CountsTwice(old(nodes), ns))
    {
      var found, _, d := Reach(nodes, ns);
      var content := found[ns].content;
      nodes := AddContent(found, ns, content.(subscribers := content.subscribers + {session}), d);
    }

    // A handle for an older draft, put on a node found earlier; a node pruned meanwhile is not in the tree.
    method AddLegacyHandle(ns: Path, session: Session)
      requires Valid()
      modifies this
      ensures Valid()
      ensures var content := ContentAt(old(nodes), ns);
        Contents(nodes) == if ns !in old(nodes) then Contents(old(nodes))
                           else Contents(old(nodes))[ns := content.(handles := content.handles + {session})]
      ensures Exact(old(nodes)) ==> Exact(nodes)
    {
      if ns in nodes {
        var content := nodes[ns].content.(handles := nodes[ns].content.handles + {session});
        ContentsChanged(nodes, ns, content);
        if ns == [] {
          RootReplaced(nodes, content);
        } else {
          ContentReplaced(nodes, ns, content);
        }
        nodes := WithContent(nodes, ns, content);
      }
    }

    method UnpublishNamespace(ns: Path, session: Session) returns (r: Result<set<(Path, Session)>>)
      requires Valid()
      modifies this
      ensures Valid()
      ensures var content := ContentAt(old(nodes), ns);
        if ns !in old(nodes) then r == Err(NodeNotFound) && nodes == old(nodes)
        else if content.publisher != Some(session) then r == Err(NotOwner) && nodes == old(nodes)
        else
          && r.Ok?
          && r.value == Listeners(old(nodes), ns)
          && Contents(nodes) == Changed(Contents(old(nodes)), ns, content.(publisher := None, handles := {}))
      ensures Exact(old(nodes)) ==> Exact(nodes)
    {
      if ns !in nodes {
        return Err(NodeNotFound);
      }
      var content := nodes[ns].content;
      if content.publisher != Some(session) {
        return Err(NotOwner);
      }
      var _, listeners, _ := Reach(nodes, ns);
      nodes := ReduceContent(nodes, ns, content.(publisher := None, handles := {}));
      return Ok(listeners);
    }

    method UnpublishTrack(ns: Path, track: string) returns (r: Result<()>)
      requires Valid()
      modifies this
      ensures Valid()
      ensures var content := ContentAt(old(nodes), ns);
        if ns !in old(nodes) then r == Err(NodeNotFound) && nodes == old(nodes)
        else r.Ok? && Contents(nodes) == Changed(Contents(old(nodes)), ns, content.(publishes := content.publishes - {track}))
      ensures Exact(old(nodes)) ==> Exact(nodes)
    {
      if ns !in nodes {
        return Err(NodeNotFound);
      }
      var content := nodes[ns].content;
      nodes := ReduceContent(nodes, ns, content.(publishes := content.publishes - {track}));
      return Ok(());
    }

    method RemoveNamespaceSubscriber(ns: Path, session: Session) returns (r: Result<()>)
      requires Valid()
      modifies this
      ensures Valid()
      ensures var content := ContentAt(old(nodes), ns);
        if ns !in old(nodes) then r == Err(NodeNotFound) && nodes == old(nodes)
        else if session !in content.subscribers then r == Err(NotSubscribed) && nodes == old(nodes)
        else r.Ok? && Contents(nodes) == Changed(Contents(old(nodes)), ns, content.(subscribers := content.subscribers - {session}))
      ensures Exact(old(nodes)) ==> Exact(nodes)
    {
      if ns !in nodes {
        return Err(NodeNotFound);
      }
      var content := nodes[ns].content;
      if session !in content.subscribers {
        return Err(NotSubscribed);
      }
      nodes := ReduceContent(nodes, ns, content.(subscribers := content.subscribers - {session}));
      return Ok(());
    }
  }

  lemma NothingAt(nodes: Nodes, ns: Path)
    requires ns !in Contents(nodes)
    ensures ContentAt(nodes, ns) == NOTHING
  {
  }

  method OnePublisher(publisher: Session) returns (t: NamespaceTree)
    ensures t.Valid() && fresh(t)
    ensures Contents(t.nodes) == map[["a"] := NOTHING.(publisher := Some(publisher))]
  {
    t := new NamespaceTree();
    NothingAt(t.nodes, ["a"]);
    var _, _ := t.SetPublisher(["a"], publisher);
  }

  // A publisher at a, and a subscriber below it at a/b.
  method SubscribedBelow(publisher: Session, subscriber: Session) returns (t: NamespaceTree)
    ensures t.Valid()
    ensures Contents(t.nodes) ==
      map[["a"] := NOTHING.(publisher := Some(publisher))][["a", "b"] := NOTHING.(subscribers := {} + {subscriber})]
  {
    t := OnePublisher(publisher);
    assert ["a", "b"] !in Contents(t.nodes);
    NothingAt(t.nodes, ["a", "b"]);
    t.AddNamespaceSubscriber(["a", "b"], subscriber);
  }

  /**
   * The subscriber hides the publisher: the lookup of a/b/c finds nothing though a is
   * its longest prefix that publishes.
   */
  method HiddenPublisher(publisher: Session, subscriber: Session) returns (t: NamespaceTree, found: Option<Session>)
    ensures t.Valid() && LongestPublisher(t.nodes, ["a", "b", "c"]) == Some(publisher)
    ensures found == None
  {
    t := SubscribedBelow(publisher, subscriber);
    assert ["a"] in Contents(t.nodes) && ["a", "b"] in Contents(t.nodes);
    PublishersInContents(t.nodes);
    HiddenLookup(t.nodes, publisher);
    found := FindPublisher(t.nodes, ["a", "b", "c"]);
  }

  lemma PublishersInContents(nodes: Nodes)
    ensures forall p :: Publishes(nodes, p) <==> p in Contents(nodes) && Contents(nodes)[p].publisher.Some?
  {
  }

  lemma HiddenLookup(nodes: Nodes, publisher: Session)
    requires Closed(nodes) && Publishes(nodes, ["a"]) && nodes[["a"]].content.publisher == Some(publisher)
    requires ["a", "b"] in nodes && forall p :: Publishes(nodes, p) ==> p == ["a"]
    ensures LongestPublisher(nodes, ["a", "b", "c"]) == Some(publisher)
    ensures DeepestPublisher(nodes, ["a", "b", "c"]) == None
  {
    var ns := ["a", "b", "c"];
    assert ns[..1] == ["a"] && ns[..2] == ["a", "b"] && ns[..3] == ns;
    assert LongestAt(nodes, ns, 1);
    LongestIs(nodes, ns, 1);
    DeepestReaches(nodes, ns, 2);
    assert !Publishes(nodes, Deepest(nodes, ns));
  }

  lemma Overwritten(contents: map<Path, Content>, ns: Path, a: Content, b: Content)
    ensures Changed(contents, ns, a)[ns := b] == contents[ns := b]
  {
  }

  // Replacing or setting the publisher of ns makes its parent count it a second time:
  // it is in the tree already, and has nothing but perhaps the old publisher.
  predicate ReplacedTwice(nodes: Nodes, ns: Path) {
    ns != [] && ns in nodes && nodes[ns].Keep() && nodes[ns].content.(publisher := None).Empty()
  }

  // The node first loses its publisher, so that it may look empty, and is then counted
  // as newly filled.
  method ReplacePublisher(found: Nodes, ns: Path, session: Session, ghost d: nat) returns (nodes: Nodes)
    requires Closed(found) && ns in found && CountsOk(found, [], 0) && KeptBut(found, ns, d)
    ensures TreeOk(nodes) && SameBeside(found, nodes, ns)
    ensures Contents(nodes) == Contents(found)[ns := found[ns].content.(publisher := Some(session))]
    ensures ns != [] && found[ns].content.(publisher := None).Empty() ==> nodes[Parent(ns)].active == found[Parent(ns)].active + 1
    ensures CountsExact(found, [], 0) ==> (CountsExact(nodes, [], 0) <==> !ReplacedTwice(found, ns))
  {
    var content := found[ns].content;
    var cleared := content.(publisher := None);
    var empty := WithContent(found, ns, cleared);
    ghost var e := ClearPublisher(found, ns, content.(publisher := Some(session)), d);
    nodes := Refill(found, empty, ns, content.(publisher := Some(session)), e);
    if CountsExact(found, [], 0) {
      ReplacedExactly(found, empty, nodes, ns);
    }
  }

  // Fills a node that was just cleared.
  method Refill(ghost found: Nodes, empty: Nodes, ns: Path, content: Content, ghost e: nat) returns (nodes: Nodes)
    requires ns in found && SameBeside(found, empty, ns) && Contents(empty)[ns := content] == Contents(found)[ns := content]
    requires Closed(empty) && CountsOk(empty, [], 0) && KeptBut(empty, ns, e) && !content.Empty()
    ensures TreeOk(nodes) && SameBeside(found, nodes, ns) && nodes[ns].content == content
    ensures Contents(nodes) == Contents(found)[ns := content]
    ensures ns != [] && empty[ns].content.Empty() ==> nodes[Parent(ns)].active == empty[Parent(ns)].active + 1
    ensures CountsExact(empty, [], 0) ==> (CountsExact(nodes, [], 0) <==> !CountsTwice(empty, ns))
  {
    nodes := AddContent(empty, ns, content, e);
  }

  lemma ReplacedExactly(found: Nodes, empty: Nodes, nodes: Nodes, ns: Path)
    requires Closed(found) && ns in found && CountsExact(found, [], 0) && SameBeside(found, nodes, ns) && nodes[ns].Keep()
    requires CountsExact(empty, [], 0) ==> (CountsExact(nodes, [], 0) <==> !CountsTwice(empty, ns))
    requires !ReplacedTwice(found, ns) ==> CountsExact(empty, [], 0) && !CountsTwice(empty, ns)
    requires ReplacedTwice(found, ns) ==> nodes[Parent(ns)].active == found[Parent(ns)].active + 1
    ensures CountsExact(nodes, [], 0) <==> !ReplacedTwice(found, ns)
  {
    if ReplacedTwice(found, ns) {
      OverCounted(found, nodes, ns);
    }
  }

  lemma ClearPublisher(found: Nodes, ns: Path, next: Content, d: nat) returns (e: nat)
    requires Closed(found) && ns in found && CountsOk(found, [], 0) && KeptBut(found, ns, d)
    ensures var cleared := found[ns].content.(publisher := None);
      var empty := WithContent(found, ns, cleared);
      && Closed(empty) && CountsOk(empty, [], 0) && KeptBut(empty, ns, e)
      && Contents(empty)[ns := next] == Contents(found)[ns := next]
      && (CountsExact(found, [], 0) && !ReplacedTwice(found, ns) ==> CountsExact(empty, [], 0))
      && (!ReplacedTwice(found, ns) ==> !CountsTwice(empty, ns))
  {
    var cleared := found[ns].content.(publisher := None);
    var empty := WithContent(found, ns, cleared);
    ContentsChanged(found, ns, cleared);
    Overwritten(Contents(found), ns, cleared, next);
    e := d;
    if ns == [] {
      RootReplaced(found, cleared);
    } else {
      ContentLost(found, ns, cleared, d);
      e := if empty[ns].Keep() || d < |ns| then d else |ns| - 1;
      if CountsExact(found, [], 0) {
        ContentLostExactly(found, ns, cleared);
      }
    }
  }
}
