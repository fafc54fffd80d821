/** What a caller meets who walks the forest AssembleTrace returns (trace_tree.go) depth first from its
    roots: the walk ends, and it meets every span that can be reached, once. */
module TraceWalk {
  import opened Ordering
  import opened TraceForest
  import opened TraceReach
  import opened TraceOrder
  import opened AssembleTrace

  ghost predicate AtDepth(k: seq<Span>, list: seq<Span>, d: nat) {
    DistinctIds(k) && forall x :: x in list ==> ChainEnds(k, x, d)
  }

  lemma ChildrenAtDepth(k: seq<Span>, x: Span, d: nat)
    requires DistinctIds(k) && ChainEnds(k, x, d)
    ensures d < |k| && AtDepth(k, Children(k, x.spanID), d + 1)
    ensures Distinct(Children(k, x.spanID))
  {
    ChainIsShort(k, x, d);
    ListsAre(k, x.spanID);
    ListedOnce(k, x, x.spanID);
    AtUnique(k, x);
  }

  /** Each span of `list`, followed by the walk of its children. */
  ghost function Walk(k: seq<Span>, list: seq<Span>, d: nat): seq<Span>
    requires AtDepth(k, list, d)
    decreases |k| - d, |list|
  {
    if list == [] then []
    else
      ChildrenAtDepth(k, list[0], d);
      [list[0]] + Walk(k, Children(k, list[0].spanID), d + 1) + Walk(k, list[1..], d)
  }

  /** The chain of `y` passes through `list`, whose spans are at depth `d`. */
  ghost predicate Under(k: seq<Span>, list: seq<Span>, d: nat, y: Span) {
    exists e: nat :: e >= d && ChainEnds(k, y, e) && HasAncestor(k, y, e - d) && Ancestor(k, y, e - d) in list
  }

  lemma {:induction false} NextAncestor(k: seq<Span>, y: Span, i: nat)
    requires HasAncestor(k, y, i + 1)
    ensures HasAncestor(k, y, i) && !IsRoot(k, Ancestor(k, y, i))
    ensures Ancestor(k, y, i + 1) == At(k, Ancestor(k, y, i).parentSpanID)
    decreases i
  {
    if i > 0 {
      NextAncestor(k, At(k, y.parentSpanID), i - 1);
    }
  }

  /** The depth of `y` is the only one to look at. */
  lemma UnderMeans(k: seq<Span>, list: seq<Span>, d: nat, y: Span, e: nat)
    requires ChainEnds(k, y, e)
    ensures Under(k, list, d, y) <==> e >= d && HasAncestor(k, y, e - d) && Ancestor(k, y, e - d) in list
  {
    if f: nat :| f >= d && ChainEnds(k, y, f) && HasAncestor(k, y, f - d) && Ancestor(k, y, f - d) in list {
      ChainUnique(k, y, e, f);
    }
  }

  lemma ChildOf(k: seq<Span>, x: Span, a: Span)
    requires DistinctIds(k) && x in k && a in k && !IsRoot(k, a)
    ensures a in Children(k, x.spanID) <==> At(k, a.parentSpanID) == x
  {
    ListsAre(k, x.spanID);
    AtUnique(k, x);
  }

  lemma AncestorStep(k: seq<Span>, x: Span, y: Span, e: nat, i: nat)
    requires DistinctIds(k) && x in k && ChainEnds(k, y, e) && i < e
    ensures HasAncestor(k, y, i) && HasAncestor(k, y, i + 1)
    ensures Ancestor(k, y, i) in Children(k, x.spanID) <==> Ancestor(k, y, i + 1) == x
  {
    ChainAncestor(k, y, e, i + 1);
    NextAncestor(k, y, i);
    ChainAncestor(k, y, e, i);
    ChildOf(k, x, Ancestor(k, y, i));
  }

  lemma UnderDeeper(k: seq<Span>, x: Span, d: nat, y: Span, e: nat)
    requires DistinctIds(k) && x in k && ChainEnds(k, y, e) && e > d
    ensures Under(k, [x], d, y) <==> Under(k, Children(k, x.spanID), d + 1, y)
  {
    UnderMeans(k, [x], d, y, e);
    UnderMeans(k, Children(k, x.spanID), d + 1, y, e);
    AncestorStep(k, x, y, e, e - d - 1);
  }

  /** Below `x` is `x` itself, or what is below one of its children. */
  lemma UnderOne(k: seq<Span>, x: Span, d: nat, y: Span, e: nat)
    requires DistinctIds(k) && ChainEnds(k, x, d) && ChainEnds(k, y, e)
    ensures Under(k, [x], d, y) <==> y == x || Under(k, Children(k, x.spanID), d + 1, y)
    ensures !(y == x && Under(k, Children(k, x.spanID), d + 1, y))
  {
    if y == x {
      ChainUnique(k, x, d, e);
    }
    if e > d {
      UnderDeeper(k, x, d, y, e);
    } else {
      UnderMeans(k, [x], d, y, e);
      UnderMeans(k, Children(k, x.spanID), d + 1, y, e);
    }
  }

  /** Below a list is what is below its first span or below the others, never both. */
  lemma UnderSplits(k: seq<Span>, list: seq<Span>, d: nat, y: Span, e: nat)
    requires list != [] && Distinct(list) && ChainEnds(k, y, e)
    ensures Under(k, list, d, y) <==> Under(k, [list[0]], d, y) || Under(k, list[1..], d, y)
    ensures !(Under(k, [list[0]], d, y) && Under(k, list[1..], d, y))
  {
    assert list == [list[0]] + list[1..];
    UnderMeans(k, list, d, y, e);
    UnderMeans(k, [list[0]], d, y, e);
    UnderMeans(k, list[1..], d, y, e);
  }

  lemma {:induction false} WalkMeetsUnder(k: seq<Span>, list: seq<Span>, d: nat, y: Span, e: nat)
    requires AtDepth(k, list, d) && Distinct(list) && ChainEnds(k, y, e)
    ensures multiset(Walk(k, list, d))[y] == if Under(k, list, d, y) then 1 else 0
    decreases |k| - d, |list|
  {
    UnderMeans(k, list, d, y, e);
    if list != [] {
      var x := list[0];
      var c := Children(k, x.spanID);
      ChildrenAtDepth(k, x, d);
      WalkMeetsUnder(k, c, d + 1, y, e);
      WalkMeetsUnder(k, list[1..], d, y, e);
      UnderOne(k, x, d, y, e);
      UnderSplits(k, list, d, y, e);
    }
  }

  lemma {:induction false} WalkStaysAnchored(k: seq<Span>, list: seq<Span>, d: nat)
    requires AtDepth(k, list, d)
    ensures forall y :: y in Walk(k, list, d) ==> Anchored(k, y)
    decreases |k| - d, |list|
  {
    if list != [] {
      ChildrenAtDepth(k, list[0], d);
      WalkStaysAnchored(k, Children(k, list[0].spanID), d + 1);
      WalkStaysAnchored(k, list[1..], d);
    }
  }

  lemma RootsAtDepth(k: seq<Span>)
    requires DistinctIds(k)
    ensures AtDepth(k, Roots(k), 0) && Distinct(Roots(k))
  {
    ListsAre(k, []);
    AscendingOnce(Roots(k));
  }

  /** The walk from the roots meets every span whose parent chain enters no cycle exactly once, and no
      other span of the input. */
  lemma WalkMeetsOnce(k: seq<Span>, y: Span)
    requires DistinctIds(k)
    ensures AtDepth(k, Roots(k), 0)
    ensures multiset(Walk(k, Roots(k), 0))[y] == if y in k && !EntersCycle(k, y) then 1 else 0
  {
    RootsAtDepth(k);
    if e: nat :| ChainEnds(k, y, e) {
      WalkMeetsUnder(k, Roots(k), 0, y, e);
      ChainUnlessCyclic(k, y);
      ChainAncestor(k, y, e, e);
      ListsAre(k, []);
      UnderMeans(k, Roots(k), 0, y, e);
    } else {
      WalkStaysAnchored(k, Roots(k), 0);
      assert y !in Walk(k, Roots(k), 0);
      if y in k {
        ChainUnlessCyclic(k, y);
      }
    }
  }

  /** The nodes' child lists are the sorted ones, made of the same nodes. */
  ghost predicate ListsOk(k: seq<Span>, nodes: seq<TraceNode>)
    reads nodes
  {
    && (forall n :: n in nodes ==> SpansOf(n.children) == Children(k, n.span.spanID))
    && (forall n, c :: n in nodes && c in n.children ==> c in nodes)
  }

  lemma HeadOfList(list: seq<TraceNode>, k: seq<Span>, d: nat)
    requires list != [] && AtDepth(k, SpansOf(list), d)
    ensures list[0] in list && SpansOf([list[0]]) == [list[0].span]
    ensures SpansOf(list[1..]) == SpansOf(list)[1..] && AtDepth(k, SpansOf(list[1..]), d)
    ensures ChainEnds(k, list[0].span, d) && d < |k| && AtDepth(k, Children(k, list[0].span.spanID), d + 1)
    ensures Walk(k, SpansOf(list), d) ==
            [list[0].span] + Walk(k, Children(k, list[0].span.spanID), d + 1) + Walk(k, SpansOf(list[1..]), d)
  {
    assert SpansOf(list)[0] == list[0].span;
    ChildrenAtDepth(k, list[0].span, d);
    assert SpansOf(list[1..]) == SpansOf(list)[1..];
  }

  /** A caller's depth-first walk over the nodes themselves. */
  method DepthFirst(list: seq<TraceNode>, ghost nodes: seq<TraceNode>, ghost k: seq<Span>, ghost d: nat)
    returns (out: seq<TraceNode>)
    requires ListsOk(k, nodes) && AtDepth(k, SpansOf(list), d) && forall n :: n in list ==> n in nodes
    ensures SpansOf(out) == Walk(k, SpansOf(list), d)
    ensures forall n :: n in out ==> n in nodes
    decreases |k| - d, |list|
  {
    if |list| == 0 {
      return [];
    }
    HeadOfList(list, k, d);
    var below := DepthFirst(list[0].children, nodes, k, d + 1);
    var rest := DepthFirst(list[1..], nodes, k, d);
    SpansConcat([list[0]] + below, rest);
    SpansConcat([list[0]], below);
    out := [list[0]] + below + rest;
  }

  /** Assemble, then walk: every reachable node is met exactly once. */
  method AssembleAndWalk(spans: seq<Span>) returns (out: seq<TraceNode>)
    ensures Distinct(out)
    ensures forall x :: x in SpansOf(out) <==> Visible(spans, x)
  {
    var roots, nodes := Assemble(spans);
    KeptDistinct(spans);
    RootsAtDepth(Kept(spans));
    out := DepthFirst(roots, nodes, Kept(spans), 0);
    WalkIsDistinct(Kept(spans));
    DistinctNodes(out);
  }

  lemma WalkIsDistinct(k: seq<Span>)
    requires DistinctIds(k)
    ensures AtDepth(k, Roots(k), 0) && Distinct(Walk(k, Roots(k), 0))
    ensures forall x :: x in Walk(k, Roots(k), 0) <==> Anchored(k, x)
  {
    RootsAtDepth(k);
    var w := Walk(k, Roots(k), 0);
    forall x
      ensures multiset(w)[x] == if Anchored(k, x) then 1 else 0
    {
      WalkMeetsOnce(k, x);
      if x in k {
        ChainUnlessCyclic(k, x);
      }
    }
    assert forall x :: x in w <==> x in multiset(w);
    OnceIsDistinct(w);
  }

  lemma OnceIsDistinct(w: seq<Span>)
    requires forall x :: multiset(w)[x] <= 1
    ensures Distinct(w)
  {
    forall i, j | 0 <= i < j < |w|
      ensures w[i] != w[j]
    {
      assert w == w[..i] + [w[i]] + w[i + 1..j] + [w[j]] + w[j + 1..];
      assert multiset(w)[w[i]] >= multiset([w[i]])[w[i]] + multiset([w[j]])[w[i]];
    }
  }
}
