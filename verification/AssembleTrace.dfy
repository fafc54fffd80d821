/** AssembleTrace (trace_tree.go) as the imperative graph builder it is: nodes on the heap, an id map,
    child slices appended to and then sorted in place. */
module AssembleTrace {
  import opened Ordering
  import opened TraceForest
  import opened TraceReach
  import opened TraceOrder

  class TraceNode {
    const span: Span
    var children: seq<TraceNode>

    constructor (span: Span)
      ensures this.span == span && children == []
    {
      this.span := span;
      children := [];
    }
  }

  function SpansOf(nodes: seq<TraceNode>): (s: seq<Span>)
    ensures |s| == |nodes| && forall i :: 0 <= i < |s| ==> s[i] == nodes[i].span
  {
    seq(|nodes|, i requires 0 <= i < |nodes| => nodes[i].span)
  }

  lemma SpansConcat(a: seq<TraceNode>, b: seq<TraceNode>)
    ensures SpansOf(a + b) == SpansOf(a) + SpansOf(b)
  {
  }

  predicate NodeLess(a: TraceNode, b: TraceNode) {
    SpanLess(a.span, b.span)
  }

  lemma {:induction false} InsertNode(x: TraceNode, s: seq<TraceNode>)
    ensures SpansOf(Insert(NodeLess, x, s)) == Insert(SpanLess, x.span, SpansOf(s))
  {
    if s != [] && NodeLess(s[0], x) {
      InsertNode(x, s[1..]);
      assert SpansOf(s)[1..] == SpansOf(s[1..]);
      assert SpansOf([s[0]] + Insert(NodeLess, x, s[1..])) == [s[0].span] + SpansOf(Insert(NodeLess, x, s[1..]));
    } else {
      assert SpansOf([x] + s) == [x.span] + SpansOf(s);
    }
  }

  lemma {:induction false} SortedNodes(s: seq<TraceNode>)
    ensures SpansOf(Sort(NodeLess, s)) == Sort(SpanLess, SpansOf(s))
    ensures forall n :: n in Sort(NodeLess, s) ==> n in s
  {
    SortElements(NodeLess, s);
    assert forall n :: n in Sort(NodeLess, s) ==> n in multiset(Sort(NodeLess, s));
    if s != [] {
      SortedNodes(s[..|s| - 1]);
      InsertNode(s[|s| - 1], Sort(NodeLess, s[..|s| - 1]));
      assert SpansOf(s)[..|s| - 1] == SpansOf(s[..|s| - 1]);
    }
  }

  /** `byID` finds every node of `order` under its SpanID, and nothing else. */
  ghost predicate Indexes(byID: map<Bytes, TraceNode>, order: seq<TraceNode>) {
    && (forall i :: 0 <= i < |order| ==> order[i].span.spanID in byID && byID[order[i].span.spanID] == order[i])
    && (forall id :: id in byID ==> byID[id] in order && byID[id].span.spanID == id)
  }

  /** The nodes built so far, one per kept span, and the map that finds them. */
  method BuildNodes(spans: seq<Span>) returns (byID: map<Bytes, TraceNode>, order: seq<TraceNode>)
    ensures SpansOf(order) == Kept(spans) && Indexes(byID, order)
    ensures forall n :: n in order ==> fresh(n) && n.children == []
  {
    byID, order := map[], [];
    for i := 0 to |spans|
      invariant SpansOf(order) == Kept(spans[..i])
      invariant Indexes(byID, order)
      invariant forall n :: n in order ==> fresh(n) && n.children == []
    {
      assert spans[..i + 1][..i] == spans[..i];
      assert Has(SpansOf(order), spans[i].spanID) <==> spans[i].spanID in byID by {
        if spans[i].spanID in byID {
          var j :| 0 <= j < |order| && order[j] == byID[spans[i].spanID];
          assert SpansOf(order)[j].spanID == spans[i].spanID;
        }
      }
      if spans[i].spanID !in byID {
        var node := new TraceNode(spans[i]);
        byID := byID[spans[i].spanID := node];
        order := order + [node];
      }
    }
    assert spans[..|spans|] == spans;
  }

  /** The child lists after the first `j` nodes were linked. */
  ghost predicate Linked(order: seq<TraceNode>, k: seq<Span>, j: nat)
    reads order
    requires j <= |k|
  {
    forall n :: n in order ==>
      && SpansOf(n.children) == ChildrenOf(k, n.span.spanID, k[..j])
      && (forall c :: c in n.children ==> c in order)
  }

  lemma IndexHas(byID: map<Bytes, TraceNode>, order: seq<TraceNode>, id: Bytes)
    requires Indexes(byID, order)
    ensures Has(SpansOf(order), id) <==> id in byID
  {
    if id in byID {
      var j :| 0 <= j < |order| && order[j] == byID[id];
      assert SpansOf(order)[j].spanID == id;
    }
  }

  lemma ListStep(k: seq<Span>, j: nat)
    requires j < |k|
    ensures RootsOf(k, k[..j + 1]) == RootsOf(k, k[..j]) + (if IsRoot(k, k[j]) then [k[j]] else [])
    ensures forall id :: ChildrenOf(k, id, k[..j + 1]) ==
              ChildrenOf(k, id, k[..j]) + (if IsChild(k, id, k[j]) then [k[j]] else [])
  {
    assert k[..j + 1][..j] == k[..j];
  }

  lemma OneWithId(order: seq<TraceNode>, parent: TraceNode)
    requires DistinctIds(SpansOf(order)) && parent in order
    ensures forall n :: n in order && n.span.spanID == parent.span.spanID ==> n == parent
  {
    forall n | n in order && n.span.spanID == parent.span.spanID
      ensures n == parent
    {
      var a :| 0 <= a < |order| && order[a] == n;
      var b :| 0 <= b < |order| && order[b] == parent;
      assert SpansOf(order)[a].spanID == SpansOf(order)[b].spanID;
    }
  }

  /** parent.Children = append(parent.Children, node) */
  method Attach(parent: TraceNode, node: TraceNode, order: seq<TraceNode>, ghost k: seq<Span>, ghost j: nat)
    requires k == SpansOf(order) && DistinctIds(k)
    requires j < |k| && order[j] == node && parent in order
    requires Linked(order, k, j)
    requires !IsRoot(k, node.span) && node.span.parentSpanID == parent.span.spanID
    modifies parent
    ensures Linked(order, k, j + 1)
  {
    ListStep(k, j);
    OneWithId(order, parent);
    SpansConcat(parent.children, [node]);
    parent.children := parent.children + [node];
  }

  lemma LinkedRoot(order: seq<TraceNode>, k: seq<Span>, j: nat)
    requires j < |k| && IsRoot(k, k[j]) && Linked(order, k, j)
    ensures Linked(order, k, j + 1)
  {
    ListStep(k, j);
  }

  lemma LinkedStart(order: seq<TraceNode>, k: seq<Span>)
    requires forall n :: n in order ==> n.children == []
    ensures Linked(order, k, 0) && RootsOf(k, k[..0]) == []
  {
  }

  /** Link every node under its parent; collect the others as roots. */
  method LinkNodes(byID: map<Bytes, TraceNode>, order: seq<TraceNode>) returns (roots: seq<TraceNode>)
    requires Indexes(byID, order) && DistinctIds(SpansOf(order))
    requires forall n :: n in order ==> n.children == []
    modifies order
    ensures SpansOf(roots) == RootsOf(SpansOf(order), SpansOf(order))
    ensures forall n :: n in roots ==> n in order
    ensures Linked(order, SpansOf(order), |order|)
  {
    ghost var k := SpansOf(order);
    LinkedStart(order, k);
    roots := [];
    for j := 0 to |order|
      invariant SpansOf(roots) == RootsOf(k, k[..j])
      invariant forall n :: n in roots ==> n in order
      invariant Linked(order, k, j)
    {
      var node := order[j];
      IndexHas(byID, order, node.span.parentSpanID);
      assert RootsOf(k, k[..j + 1]) == RootsOf(k, k[..j]) + (if IsRoot(k, k[j]) then [k[j]] else []) by {
        ListStep(k, j);
      }
      if node.span.parentSpanID == [] {
        LinkedRoot(order, k, j);
        roots := roots + [node];
      } else if node.span.parentSpanID in byID {
        Attach(byID[node.span.parentSpanID], node, order, k, j);
      } else {
        LinkedRoot(order, k, j);
        roots := roots + [node];
      }
    }
    assert k[..|order|] == k;
  }

  /** Sort the child list of every node. */
  method SortChildren(order: seq<TraceNode>, ghost k: seq<Span>)
    requires k == SpansOf(order) && DistinctIds(k) && Linked(order, k, |order|)
    modifies order
    ensures forall n :: n in order ==> SpansOf(n.children) == Children(k, n.span.spanID)
    ensures forall n, c :: n in order && c in n.children ==> c in order
  {
    assert k[..|order|] == k;
    for i := 0 to |order|
      invariant forall m :: 0 <= m < i ==> SpansOf(order[m].children) == Children(k, order[m].span.spanID)
      invariant forall m :: i <= m < |order| ==>
                  SpansOf(order[m].children) == ChildrenOf(k, order[m].span.spanID, k)
      invariant forall n, c :: n in order && c in n.children ==> c in order
    {
      assert forall m :: 0 <= m < |order| && m != i ==> order[m] != order[i] by {
        forall m | 0 <= m < |order| && m != i
          ensures order[m] != order[i]
        {
          assert k[m].spanID != k[i].spanID;
        }
      }
      SortedNodes(order[i].children);
      order[i].children := Sort(NodeLess, order[i].children);
    }
  }

  /** What AssembleTrace hands out: `nodes` has one node per kept span, and the root list and every
      child list are the ones `TraceForest` specifies, made of those nodes. */
  ghost predicate Assembled(spans: seq<Span>, roots: seq<TraceNode>, nodes: seq<TraceNode>)
    reads nodes
  {
    && SpansOf(nodes) == Kept(spans) && DistinctIds(Kept(spans))
    && SpansOf(roots) == Roots(Kept(spans))
    && (forall n :: n in nodes ==> SpansOf(n.children) == Children(Kept(spans), n.span.spanID))
    && (forall n :: n in roots ==> n in nodes)
    && (forall n, c :: n in nodes && c in n.children ==> c in nodes)
  }

  /** A node is in a list of nodes exactly when its span is in the list of their spans. */
  lemma SameSpanSameNode(nodes: seq<TraceNode>, n: TraceNode, list: seq<TraceNode>)
    requires DistinctIds(SpansOf(nodes)) && n in nodes && forall c :: c in list ==> c in nodes
    ensures n in list <==> n.span in SpansOf(list)
  {
    if n in list {
      var i :| 0 <= i < |list| && list[i] == n;
      assert SpansOf(list)[i] == n.span;
    }
    if n.span in SpansOf(list) {
      var i :| 0 <= i < |SpansOf(list)| && SpansOf(list)[i] == n.span;
      var a :| 0 <= a < |nodes| && nodes[a] == n;
      assert list[i] in list;
      var b :| 0 <= b < |nodes| && nodes[b] == list[i];
      assert SpansOf(nodes)[a].spanID == SpansOf(nodes)[b].spanID;
    }
  }

  lemma OneNodePerSpan(nodes: seq<TraceNode>, n: TraceNode, m: TraceNode)
    requires DistinctIds(SpansOf(nodes)) && n in nodes && m in nodes && n.span == m.span
    ensures n == m
  {
    SameSpanSameNode(nodes, n, [m]);
    assert SpansOf([m])[0] == m.span;
  }

  /** Where a node is listed: among the roots, or under the one node of its parent span. */
  lemma NodeListed(spans: seq<Span>, roots: seq<TraceNode>, nodes: seq<TraceNode>, n: TraceNode, m: TraceNode)
    requires Assembled(spans, roots, nodes) && n in nodes && m in nodes
    ensures n.span in Kept(spans) && m.span in Kept(spans)
    ensures n in roots <==> IsRoot(Kept(spans), n.span)
    ensures n in m.children <==> !IsRoot(Kept(spans), n.span) && m.span == At(Kept(spans), n.span.parentSpanID)
  {
    var k := Kept(spans);
    assert SpansOf(nodes) == k;
    SameSpanSameNode(nodes, n, roots);
    SameSpanSameNode(nodes, n, nodes);
    SameSpanSameNode(nodes, m, nodes);
    SameSpanSameNode(nodes, n, m.children);
    ListsAre(k, m.span.spanID);
    AtUnique(k, m.span);
  }

  /** The pointers are the ones the spans call for: one node per kept span, a node is a root exactly
      when its span is one, and is a child of exactly the node its parent id names. */
  ghost predicate Wired(k: seq<Span>, roots: seq<TraceNode>, nodes: seq<TraceNode>)
    reads nodes
  {
    && |nodes| == |k| && (forall n :: n in roots ==> n in nodes)
    && (forall n :: n in nodes ==> n.span in k && (n in roots <==> IsRoot(k, n.span)))
    && (forall n, m :: n in nodes && m in nodes ==>
          (n in m.children <==> !IsRoot(k, n.span) && m.span == At(k, n.span.parentSpanID)))
    && (forall n, m :: n in nodes && m in nodes && n.span == m.span ==> n == m)
    && (forall x :: x in k ==> exists n :: n in nodes && n.span == x)
  }

  lemma NodesTellSpans(nodes: seq<TraceNode>)
    requires DistinctIds(SpansOf(nodes))
    ensures forall n, m :: n in nodes && m in nodes && n.span == m.span ==> n == m
    ensures forall x :: x in SpansOf(nodes) ==> exists n :: n in nodes && n.span == x
  {
    forall n, m | n in nodes && m in nodes && n.span == m.span
      ensures n == m
    {
      OneNodePerSpan(nodes, n, m);
    }
    forall x | x in SpansOf(nodes)
      ensures exists n :: n in nodes && n.span == x
    {
      var a :| 0 <= a < |nodes| && SpansOf(nodes)[a] == x;
      assert nodes[a] in nodes;
    }
  }

  lemma AssembledIsWired(spans: seq<Span>, roots: seq<TraceNode>, nodes: seq<TraceNode>)
    requires Assembled(spans, roots, nodes)
    ensures Wired(Kept(spans), roots, nodes)
  {
    NodesTellSpans(nodes);
    forall n, m | n in nodes && m in nodes
      ensures n.span in Kept(spans) && (n in roots <==> IsRoot(Kept(spans), n.span))
      ensures n in m.children <==> !IsRoot(Kept(spans), n.span) && m.span == At(Kept(spans), n.span.parentSpanID)
    {
      NodeListed(spans, roots, nodes, n, m);
    }
  }

  // ---------------------------------------------------------------- the result, from the fields alone

  /** StartTime ascending, then SpanID bytewise. */
  ghost predicate Earlier(a: Span, b: Span) {
    a.startTime < b.startTime || (a.startTime == b.startTime && BytesBefore(a.spanID, b.spanID))
  }

  ghost predicate InOrder(list: seq<TraceNode>) {
    forall i, j :: 0 <= i < j < |list| ==> Earlier(list[i].span, list[j].span)
  }

  /** `x` stands before every other span of the input with its SpanID. */
  ghost predicate IsFirst(spans: seq<Span>, x: Span) {
    exists i :: 0 <= i < |spans| && spans[i] == x && forall j :: 0 <= j < i ==> spans[j].spanID != x.spanID
  }

  /** One node per SpanID of the input, holding its first span. */
  ghost predicate OnePerID(spans: seq<Span>, nodes: seq<TraceNode>) {
    && (forall n :: n in nodes ==> IsFirst(spans, n.span))
    && (forall x :: x in spans ==> exists n :: n in nodes && n.span.spanID == x.spanID)
    && (forall n, m :: n in nodes && m in nodes && n.span.spanID == m.span.spanID ==> n == m)
  }

  /** A node is a root exactly when it names no parent or none of the nodes is the one it names, and a child
      of exactly the node it names. */
  ghost predicate Placed(roots: seq<TraceNode>, nodes: seq<TraceNode>)
    reads nodes
  {
    && (forall n :: n in roots ==> n in nodes)
    && (forall n, c :: n in nodes && c in n.children ==> c in nodes)
    && (forall n :: n in nodes ==>
          (n in roots <==>
           n.span.parentSpanID == [] || forall m :: m in nodes ==> m.span.spanID != n.span.parentSpanID))
    && (forall n, m :: n in nodes && m in nodes ==>
          (n in m.children <==> n.span.parentSpanID != [] && m.span.spanID == n.span.parentSpanID))
  }

  ghost predicate Sorted(roots: seq<TraceNode>, nodes: seq<TraceNode>)
    reads nodes
  {
    InOrder(roots) && forall n :: n in nodes ==> InOrder(n.children)
  }

  lemma AscendingIsInOrder(list: seq<TraceNode>)
    requires Ascending(SpanLess, SpansOf(list))
    ensures InOrder(list)
  {
    forall i, j | 0 <= i < j < |list|
      ensures Earlier(list[i].span, list[j].span)
    {
      assert SpanLess(SpansOf(list)[i], SpansOf(list)[j]);
      BytesLessIff(list[i].span.spanID, list[j].span.spanID);
    }
  }

  lemma AssembledIsSorted(spans: seq<Span>, roots: seq<TraceNode>, nodes: seq<TraceNode>)
    requires Assembled(spans, roots, nodes)
    ensures Sorted(roots, nodes)
  {
    ListsAre(Kept(spans), []);
    AscendingIsInOrder(roots);
    forall n | n in nodes
      ensures InOrder(n.children)
    {
      ListsAre(Kept(spans), n.span.spanID);
      AscendingIsInOrder(n.children);
    }
  }

  lemma NodesHave(nodes: seq<TraceNode>, id: Bytes)
    ensures Has(SpansOf(nodes), id) <==> exists m :: m in nodes && m.span.spanID == id
  {
    if Has(SpansOf(nodes), id) {
      var i :| 0 <= i < |nodes| && SpansOf(nodes)[i].spanID == id;
      assert nodes[i] in nodes;
    }
    if m :| m in nodes && m.span.spanID == id {
      var i :| 0 <= i < |nodes| && nodes[i] == m;
      assert SpansOf(nodes)[i].spanID == id;
    }
  }

  lemma SameIdSameNode(nodes: seq<TraceNode>, n: TraceNode, m: TraceNode)
    requires DistinctIds(SpansOf(nodes)) && n in nodes && m in nodes && n.span.spanID == m.span.spanID
    ensures n == m
  {
    OneWithId(nodes, m);
  }

  lemma NodePlaced(spans: seq<Span>, roots: seq<TraceNode>, nodes: seq<TraceNode>, n: TraceNode, m: TraceNode)
    requires Assembled(spans, roots, nodes) && n in nodes && m in nodes
    ensures n in roots <==>
            n.span.parentSpanID == [] || forall o :: o in nodes ==> o.span.spanID != n.span.parentSpanID
    ensures n in m.children <==> n.span.parentSpanID != [] && m.span.spanID == n.span.parentSpanID
  {
    NodeListed(spans, roots, nodes, n, m);
    NodesHave(nodes, n.span.parentSpanID);
    AtUnique(Kept(spans), m.span);
  }

  lemma AssembledIsPlaced(spans: seq<Span>, roots: seq<TraceNode>, nodes: seq<TraceNode>)
    requires Assembled(spans, roots, nodes)
    ensures Placed(roots, nodes)
  {
    forall n, m | n in nodes && m in nodes
      ensures n in roots <==>
              n.span.parentSpanID == [] || forall o :: o in nodes ==> o.span.spanID != n.span.parentSpanID
      ensures n in m.children <==> n.span.parentSpanID != [] && m.span.spanID == n.span.parentSpanID
    {
      NodePlaced(spans, roots, nodes, n, m);
    }
  }

  lemma KeptSpanIsFirst(spans: seq<Span>, x: Span)
    requires x in Kept(spans)
    ensures IsFirst(spans, x)
  {
    var i := KeptHasFirst(spans, x);
  }

  lemma AssembledIsOnePerID(spans: seq<Span>, roots: seq<TraceNode>, nodes: seq<TraceNode>)
    requires Assembled(spans, roots, nodes)
    ensures OnePerID(spans, nodes)
  {
    KeptDistinct(spans);
    forall n | n in nodes
      ensures IsFirst(spans, n.span)
    {
      var i :| 0 <= i < |nodes| && nodes[i] == n;
      assert Kept(spans)[i] == n.span;
      KeptSpanIsFirst(spans, n.span);
    }
    forall x | x in spans
      ensures exists n :: n in nodes && n.span.spanID == x.spanID
    {
      NodesHave(nodes, x.spanID);
    }
    forall n, m | n in nodes && m in nodes && n.span.spanID == m.span.spanID
      ensures n == m
    {
      SameIdSameNode(nodes, n, m);
    }
  }

  /** AssembleTrace. `nodes` names all the nodes built, which the source reaches through `order`. */
  method Assemble(spans: seq<Span>) returns (roots: seq<TraceNode>, ghost nodes: seq<TraceNode>)
    ensures OnePerID(spans, nodes) && Placed(roots, nodes) && Sorted(roots, nodes)
    ensures Assembled(spans, roots, nodes) && Wired(Kept(spans), roots, nodes)
    ensures forall n :: n in nodes ==> fresh(n)
    ensures spans == [] ==> roots == []
  {
    roots, nodes := BuildForest(spans);
    AssembledIsWired(spans, roots, nodes);
    AssembledIsOnePerID(spans, roots, nodes);
    AssembledIsPlaced(spans, roots, nodes);
    AssembledIsSorted(spans, roots, nodes);
  }

  /** The three loops of AssembleTrace. */
  method BuildForest(spans: seq<Span>) returns (roots: seq<TraceNode>, ghost nodes: seq<TraceNode>)
    ensures Assembled(spans, roots, nodes)
    ensures forall n :: n in nodes ==> fresh(n)
    ensures spans == [] ==> roots == []
  {
    KeptDistinct(spans);
    if |spans| == 0 {
      roots, nodes := [], [];
      return;
    }
    var byID, order := BuildNodes(spans);
    var found := LinkNodes(byID, order);
    SortedNodes(found);
    roots, nodes := Sort(NodeLess, found), order;
    SortChildren(order, Kept(spans));
  }

  /** `n` can be reached from the returned roots through `d` Children pointers. */
  ghost predicate Reachable(roots: seq<TraceNode>, nodes: seq<TraceNode>, n: TraceNode, d: nat)
    reads nodes
    decreases d
  {
    if d == 0 then n in roots
    else exists m :: m in nodes && n in m.children && Reachable(roots, nodes, m, d - 1)
  }

  ghost predicate FromRoots(roots: seq<TraceNode>, nodes: seq<TraceNode>, n: TraceNode)
    reads nodes
  {
    exists d: nat :: Reachable(roots, nodes, n, d)
  }

  lemma {:induction false} PointersGiveChain(k: seq<Span>, roots: seq<TraceNode>, nodes: seq<TraceNode>,
                                                   n: TraceNode, d: nat)
    requires Wired(k, roots, nodes) && n in nodes && Reachable(roots, nodes, n, d)
    ensures ChainEnds(k, n.span, d)
    decreases d
  {
    if d > 0 {
      var m :| m in nodes && n in m.children && Reachable(roots, nodes, m, d - 1);
      PointersGiveChain(k, roots, nodes, m, d - 1);
    }
  }

  lemma {:induction false} ChainGivesPointers(k: seq<Span>, roots: seq<TraceNode>, nodes: seq<TraceNode>,
                                                    n: TraceNode, d: nat)
    requires Wired(k, roots, nodes) && n in nodes && ChainEnds(k, n.span, d)
    ensures Reachable(roots, nodes, n, d)
    decreases d
  {
    if d > 0 {
      var m :| m in nodes && m.span == At(k, n.span.parentSpanID);
      ChainGivesPointers(k, roots, nodes, m, d - 1);
    }
  }

  /** The pointer graph below the roots is as deep at a node as the node's parent chain is long. */
  lemma {:induction false} PointersMatchChains(k: seq<Span>, roots: seq<TraceNode>, nodes: seq<TraceNode>,
                                               n: TraceNode, d: nat)
    requires Wired(k, roots, nodes) && n in nodes
    ensures Reachable(roots, nodes, n, d) <==> ChainEnds(k, n.span, d)
  {
    if Reachable(roots, nodes, n, d) {
      PointersGiveChain(k, roots, nodes, n, d);
    }
    if ChainEnds(k, n.span, d) {
      ChainGivesPointers(k, roots, nodes, n, d);
    }
  }

  /** A node is reachable from the returned roots exactly when its parent chain enters no cycle. */
  lemma ReachableUnlessCyclic(k: seq<Span>, roots: seq<TraceNode>, nodes: seq<TraceNode>, n: TraceNode)
    requires Wired(k, roots, nodes) && n in nodes
    ensures FromRoots(roots, nodes, n) <==> !EntersCycle(k, n.span)
  {
    if FromRoots(roots, nodes, n) {
      var d: nat :| Reachable(roots, nodes, n, d);
      PointersMatchChains(k, roots, nodes, n, d);
    }
    if Anchored(k, n.span) {
      var d: nat :| ChainEnds(k, n.span, d);
      PointersMatchChains(k, roots, nodes, n, d);
    }
    ChainUnlessCyclic(k, n.span);
  }

  /** The nodes a caller reaches are those of the visible spans, which OrderIndependence speaks of. */
  lemma ReachableIsVisible(spans: seq<Span>, roots: seq<TraceNode>, nodes: seq<TraceNode>, n: TraceNode)
    requires Wired(Kept(spans), roots, nodes) && n in nodes
    ensures FromRoots(roots, nodes, n) <==> Visible(spans, n.span)
  {
    ReachableUnlessCyclic(Kept(spans), roots, nodes, n);
    ChainUnlessCyclic(Kept(spans), n.span);
  }

  lemma DistinctNodes(s: seq<TraceNode>)
    requires Distinct(SpansOf(s))
    ensures Distinct(s)
  {
    forall i, j | 0 <= i < j < |s|
      ensures s[i] != s[j]
    {
      assert SpansOf(s)[i] != SpansOf(s)[j];
    }
  }

  /** A node is a root or the child of one node, never both. */
  lemma OneParent(k: seq<Span>, roots: seq<TraceNode>, nodes: seq<TraceNode>,
                  n: TraceNode, m: TraceNode, o: TraceNode)
    requires Wired(k, roots, nodes) && n in nodes && m in nodes && o in nodes
    requires n in m.children && n in o.children
    ensures m == o && n !in roots
  {
    assert m.span == o.span;
  }

  /** Each list mentions a node once. */
  lemma ListsDistinct(spans: seq<Span>, roots: seq<TraceNode>, nodes: seq<TraceNode>, n: TraceNode)
    requires Assembled(spans, roots, nodes) && n in nodes
    ensures Distinct(roots) && Distinct(n.children)
  {
    ListedOnce(Kept(spans), n.span, n.span.spanID);
    DistinctNodes(roots);
    DistinctNodes(n.children);
  }

  /** What can be reached is a finite forest in which every node is met once: a reachable node has one
      depth, smaller than the number of nodes, and OneParent and ListsDistinct give it one place. */
  lemma ReachableAtOneDepth(k: seq<Span>, roots: seq<TraceNode>, nodes: seq<TraceNode>,
                            n: TraceNode, d: nat, e: nat)
    requires Wired(k, roots, nodes) && n in nodes
    requires Reachable(roots, nodes, n, d) && Reachable(roots, nodes, n, e)
    ensures d == e < |nodes|
    ensures n in roots <==> d == 0
  {
    PointersMatchChains(k, roots, nodes, n, d);
    PointersMatchChains(k, roots, nodes, n, e);
    ChainUnique(k, n.span, d, e);
    ChainIsShort(k, n.span, d);
  }

  /** An input whose parent links form no cycle loses no distinct SpanID. */
  lemma AcyclicLosesNothing(spans: seq<Span>, roots: seq<TraceNode>, nodes: seq<TraceNode>, x: Span)
    requires Wired(Kept(spans), roots, nodes) && x in spans
    requires forall y :: y in Kept(spans) ==> !EntersCycle(Kept(spans), y)
    ensures exists n :: n in nodes && n.span.spanID == x.spanID && FromRoots(roots, nodes, n)
  {
    KeptDistinct(spans);
    var y := At(Kept(spans), x.spanID);
    assert y in Kept(spans);
    var n :| n in nodes && n.span == y;
    ReachableUnlessCyclic(Kept(spans), roots, nodes, n);
  }

  /** "No span is ever dropped" fails: a span that names itself as its parent is in no returned tree. */
  lemma SelfParentIsDropped(k: seq<Span>, roots: seq<TraceNode>, nodes: seq<TraceNode>, n: TraceNode)
    requires Wired(k, roots, nodes) && DistinctIds(k) && n in nodes
    requires n.span.parentSpanID == n.span.spanID != []
    ensures !FromRoots(roots, nodes, n)
  {
    var x := n.span;
    AtUnique(k, x);
    assert HasAncestor(k, x, 1) && Ancestor(k, x, 0) == x;
    assert Ancestor(k, x, 1) == Ancestor(k, x, 0);
    ReachableUnlessCyclic(k, roots, nodes, n);
  }
}
