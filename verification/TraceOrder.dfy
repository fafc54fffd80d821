/** How the result of AssembleTrace depends on the order of its input (trace_tree.go). Spans may share a
    SpanID; only the first one of each is kept, so the order decides which. */
module TraceOrder {
  import opened Ordering
  import opened TraceForest
  import opened TraceReach

  /** Two inputs give the same nodes with the same lists. */
  ghost predicate SameForest(a: seq<Span>, b: seq<Span>) {
    && (forall x :: x in Kept(a) <==> x in Kept(b))
    && Roots(Kept(a)) == Roots(Kept(b))
    && (forall id :: Children(Kept(a), id) == Children(Kept(b), id))
  }

  /** Spans with the same SpanID are the same span. */
  ghost predicate ConsistentIds(s: seq<Span>) {
    forall x, y :: x in s && y in s && x.spanID == y.spanID ==> x == y
  }

  lemma ConsistentKept(s: seq<Span>)
    requires ConsistentIds(s)
    ensures forall x :: x in Kept(s) <==> x in s
  {
    KeptDistinct(s);
    forall x | x in s
      ensures x in Kept(s)
    {
      var i :| 0 <= i < |Kept(s)| && Kept(s)[i].spanID == x.spanID;
      assert Kept(s)[i] in Kept(s);
    }
  }

  lemma SameElementsSameForest(a: seq<Span>, b: seq<Span>)
    requires forall x :: x in Kept(a) <==> x in Kept(b)
    ensures SameForest(a, b)
  {
    var k, l := Kept(a), Kept(b);
    KeptDistinct(a);
    KeptDistinct(b);
    SpanOrder();
    forall id
      ensures Has(k, id) <==> Has(l, id)
    {
      HasIsElement(k, id);
      HasIsElement(l, id);
    }
    ListsAre(k, []);
    ListsAre(l, []);
    AscendingUnique(SpanLess, Roots(k), Roots(l));
    forall id
      ensures Children(k, id) == Children(l, id)
    {
      ListsAre(k, id);
      ListsAre(l, id);
      AscendingUnique(SpanLess, Children(k, id), Children(l, id));
    }
  }

  lemma HasIsElement(k: seq<Span>, id: Bytes)
    ensures Has(k, id) <==> exists x :: x in k && x.spanID == id
  {
    if Has(k, id) {
      assert At(k, id) in k;
    }
  }

  function ToFront(s: seq<Span>, i: nat): seq<Span>
    requires i < |s|
  {
    [s[i]] + s[..i] + s[i + 1..]
  }

  /** Moving element `i` to the front keeps the contents and makes it the one kept for its id. */
  lemma FrontIsKept(s: seq<Span>, i: nat)
    requires i < |s|
    ensures multiset(ToFront(s, i)) == multiset(s)
    ensures s[i] in Kept(ToFront(s, i))
  {
    assert s == s[..i] + [s[i]] + s[i + 1..];
    KeptIsFirst(ToFront(s, i), 0);
  }

  /** Enough for the whole graph, reachable or not, to be independent of the order: equal SpanIDs mean equal
      spans. Distinct SpanIDs are the common case. */
  lemma ConsistentIsIndependent(s: seq<Span>, t: seq<Span>)
    requires ConsistentIds(s) && multiset(t) == multiset(s)
    ensures SameForest(s, t)
  {
    assert forall x :: x in t <==> x in multiset(t);
    assert forall x :: x in s <==> x in multiset(s);
    ConsistentKept(s);
    ConsistentKept(t);
    SameElementsSameForest(s, t);
  }

  // ---------------------------------------------------------------- what a caller sees

  /** `x` can be reached from the roots AssembleTrace returns for `s`. */
  ghost predicate Visible(s: seq<Span>, x: Span) {
    Anchored(Kept(s), x)
  }

  /** Two inputs give the same result: the same roots, and the same children below every span that can be
      reached. */
  ghost predicate SameResult(a: seq<Span>, b: seq<Span>) {
    && Roots(Kept(a)) == Roots(Kept(b))
    && (forall x :: Visible(a, x) <==> Visible(b, x))
    && (forall x :: Visible(a, x) ==> Children(Kept(a), x.spanID) == Children(Kept(b), x.spanID))
  }

  /** `x` leads to an empty or absent parent in `n` links, each to any span that carries the id asked for. */
  ghost predicate Grounded(s: seq<Span>, x: Span, n: nat)
    decreases n
  {
    && x in s
    && if IsRoot(s, x) then n == 0
       else n > 0 && exists y :: y in s && y.spanID == x.parentSpanID && Grounded(s, y, n - 1)
  }

  ghost predicate CouldShow(s: seq<Span>, x: Span) {
    exists n: nat :: Grounded(s, x, n)
  }

  /** No id that two different spans carry leads to an empty or absent parent. */
  ghost predicate NoContest(s: seq<Span>) {
    forall x, y :: x in s && y in s && x.spanID == y.spanID && x != y ==> !CouldShow(s, x)
  }

  ghost predicate Permutes(s: seq<Span>, t: seq<Span>) {
    multiset(t) == multiset(s)
  }

  lemma SameSpans(s: seq<Span>, t: seq<Span>)
    requires Permutes(s, t)
    ensures forall x :: x in t <==> x in s
  {
    assert forall x :: x in t <==> x in multiset(t);
    assert forall x :: x in s <==> x in multiset(s);
  }

  /** Dedup and order do not change which ids are present. */
  lemma SameIds(s: seq<Span>, t: seq<Span>)
    requires Permutes(s, t)
    ensures forall id :: Has(Kept(t), id) <==> Has(s, id)
    ensures forall x :: IsRoot(Kept(t), x) <==> IsRoot(s, x)
  {
    SameSpans(s, t);
    KeptDistinct(t);
    forall id
      ensures Has(Kept(t), id) <==> Has(s, id)
    {
      HasIsElement(Kept(t), id);
      HasIsElement(s, id);
    }
  }

  lemma {:induction false} ChainIsGrounded(s: seq<Span>, t: seq<Span>, x: Span, n: nat)
    requires Permutes(s, t) && ChainEnds(Kept(t), x, n)
    ensures Grounded(s, x, n)
    decreases n
  {
    SameSpans(s, t);
    SameIds(s, t);
    KeptDistinct(t);
    if n > 0 {
      ChainIsGrounded(s, t, At(Kept(t), x.parentSpanID), n - 1);
    }
  }

  lemma UncontestedIsKept(s: seq<Span>, t: seq<Span>, x: Span)
    requires NoContest(s) && Permutes(s, t) && CouldShow(s, x) && x in s
    ensures x in Kept(t)
  {
    SameSpans(s, t);
    KeptDistinct(t);
    var z := At(Kept(t), x.spanID);
    assert z in Kept(t);
  }

  lemma {:induction false} GroundedIsChain(s: seq<Span>, t: seq<Span>, x: Span, n: nat)
    requires NoContest(s) && Permutes(s, t) && Grounded(s, x, n)
    ensures ChainEnds(Kept(t), x, n)
    decreases n
  {
    SameIds(s, t);
    UncontestedIsKept(s, t, x);
    if n > 0 {
      var y :| y in s && y.spanID == x.parentSpanID && Grounded(s, y, n - 1);
      GroundedIsChain(s, t, y, n - 1);
      KeptDistinct(t);
      AtUnique(Kept(t), y);
    }
  }

  lemma VisibleIffGrounded(s: seq<Span>, t: seq<Span>, x: Span)
    requires NoContest(s) && Permutes(s, t)
    ensures Visible(t, x) <==> CouldShow(s, x)
  {
    if n: nat :| ChainEnds(Kept(t), x, n) {
      ChainIsGrounded(s, t, x, n);
    }
    if n: nat :| Grounded(s, x, n) {
      GroundedIsChain(s, t, x, n);
    }
  }

  lemma RootMoves(s: seq<Span>, a: seq<Span>, b: seq<Span>, x: Span)
    requires NoContest(s) && Permutes(s, a) && Permutes(s, b) && x in Roots(Kept(a))
    ensures x in Roots(Kept(b))
  {
    KeptDistinct(a);
    KeptDistinct(b);
    ListsAre(Kept(a), []);
    ListsAre(Kept(b), []);
    assert ChainEnds(Kept(a), x, 0);
    ChainIsGrounded(s, a, x, 0);
    GroundedIsChain(s, b, x, 0);
    SameIds(s, a);
    SameIds(s, b);
  }

  lemma ChildMoves(s: seq<Span>, a: seq<Span>, b: seq<Span>, x: Span, n: nat, y: Span)
    requires NoContest(s) && Permutes(s, a) && Permutes(s, b)
    requires ChainEnds(Kept(a), x, n) && y in Children(Kept(a), x.spanID)
    ensures y in Children(Kept(b), x.spanID)
  {
    KeptDistinct(a);
    KeptDistinct(b);
    ListsAre(Kept(a), x.spanID);
    ListsAre(Kept(b), x.spanID);
    AtUnique(Kept(a), x);
    assert ChainEnds(Kept(a), y, n + 1);
    ChainIsGrounded(s, a, y, n + 1);
    GroundedIsChain(s, b, y, n + 1);
    SameIds(s, a);
    SameIds(s, b);
  }

  lemma SameChildren(s: seq<Span>, a: seq<Span>, b: seq<Span>, x: Span)
    requires NoContest(s) && Permutes(s, a) && Permutes(s, b) && Visible(a, x) && Visible(b, x)
    ensures Children(Kept(a), x.spanID) == Children(Kept(b), x.spanID)
  {
    var m: nat :| ChainEnds(Kept(a), x, m);
    var n: nat :| ChainEnds(Kept(b), x, n);
    var c, d := Children(Kept(a), x.spanID), Children(Kept(b), x.spanID);
    forall y
      ensures y in c <==> y in d
    {
      if y in c {
        ChildMoves(s, a, b, x, m, y);
      }
      if y in d {
        ChildMoves(s, b, a, x, n, y);
      }
    }
    KeptDistinct(a);
    KeptDistinct(b);
    ListsAre(Kept(a), x.spanID);
    ListsAre(Kept(b), x.spanID);
    SpanOrder();
    AscendingUnique(SpanLess, c, d);
  }

  lemma SameRoots(s: seq<Span>, a: seq<Span>, b: seq<Span>)
    requires NoContest(s) && Permutes(s, a) && Permutes(s, b)
    ensures Roots(Kept(a)) == Roots(Kept(b))
  {
    var c, d := Roots(Kept(a)), Roots(Kept(b));
    forall x
      ensures x in c <==> x in d
    {
      if x in c {
        RootMoves(s, a, b, x);
      }
      if x in d {
        RootMoves(s, b, a, x);
      }
    }
    KeptDistinct(a);
    KeptDistinct(b);
    ListsAre(Kept(a), []);
    ListsAre(Kept(b), []);
    SpanOrder();
    AscendingUnique(SpanLess, c, d);
  }

  lemma UncontestedIsIndependent(s: seq<Span>, t: seq<Span>)
    requires NoContest(s) && Permutes(s, t)
    ensures SameResult(s, t)
  {
    SameRoots(s, s, t);
    forall x
      ensures Visible(s, x) <==> Visible(t, x)
    {
      VisibleIffGrounded(s, s, x);
      VisibleIffGrounded(s, t, x);
    }
    forall x | Visible(s, x)
      ensures Children(Kept(s), x.spanID) == Children(Kept(t), x.spanID)
    {
      SameChildren(s, s, t, x);
    }
  }

  // ---------------------------------------------------------------- an order that shows a given span

  /** No span with the id of `x` leads to a root in fewer links. */
  ghost predicate Nearest(s: seq<Span>, x: Span, n: nat) {
    && Grounded(s, x, n)
    && forall z, m: nat :: z in s && z.spanID == x.spanID && m < n ==> !Grounded(s, z, m)
  }

  lemma {:induction false} NearestExists(s: seq<Span>, x: Span, n: nat) returns (z: Span, m: nat)
    requires Grounded(s, x, n)
    ensures z in s && z.spanID == x.spanID && Nearest(s, z, m)
    decreases n
  {
    if w, k: nat :| w in s && w.spanID == x.spanID && k < n && Grounded(s, w, k) {
      z, m := NearestExists(s, w, k);
    } else {
      z, m := x, n;
    }
  }

  /** The kept span of an id is preceded by no other span with that id. */
  lemma {:induction false} KeptHasFirst(s: seq<Span>, x: Span) returns (i: nat)
    requires x in Kept(s)
    ensures i < |s| && s[i] == x && forall j :: 0 <= j < i ==> s[j].spanID != x.spanID
  {
    var n := |s| - 1;
    if x in Kept(s[..n]) {
      i := KeptHasFirst(s[..n], x);
    } else {
      i := n;
      KeptDistinct(s[..n]);
      forall j | 0 <= j < n
        ensures s[j].spanID != x.spanID
      {
        assert s[j] in s[..n] && Has(Kept(s[..n]), s[j].spanID);
      }
    }
  }

  lemma FirstInFront(s: seq<Span>, i: nat, j: nat)
    requires i < |s| && j < |s| && s[i].spanID != s[j].spanID
    requires forall q :: 0 <= q < j ==> s[q].spanID != s[j].spanID
    ensures var p, t := if j < i then j + 1 else j, ToFront(s, i);
            p < |t| && t[p] == s[j] && forall q :: 0 <= q < p ==> t[q].spanID != s[j].spanID
  {
    var t := ToFront(s, i);
    assert forall q :: 0 <= q < i ==> t[q + 1] == s[q];
    assert forall q :: i < q < |s| ==> t[q] == s[q];
    var p := if j < i then j + 1 else j;
    forall q | 0 <= q < p
      ensures t[q].spanID != s[j].spanID
    {
      assert 0 < q <= i ==> t[q] == s[q - 1];
    }
  }

  /** Moving one span to the front does not change what is kept for other ids. */
  lemma OthersStayKept(s: seq<Span>, i: nat, x: Span)
    requires i < |s| && x in Kept(s) && x.spanID != s[i].spanID
    ensures x in Kept(ToFront(s, i))
  {
    var j := KeptHasFirst(s, x);
    FirstInFront(s, i, j);
    KeptIsFirst(ToFront(s, i), if j < i then j + 1 else j);
  }

  /** Moving `x` to the front keeps every chain that passes only ids nearer to a root. */
  lemma {:induction false} NearerChainsStay(s: seq<Span>, t: seq<Span>, i: nat, n: nat, z: Span, m: nat)
    requires Permutes(s, t) && i < |t| && Nearest(s, t[i], n)
    requires ChainEnds(Kept(t), z, m) && m < n
    ensures Permutes(s, ToFront(t, i)) && ChainEnds(Kept(ToFront(t, i)), z, m)
    decreases m
  {
    var u := ToFront(t, i);
    FrontIsKept(t, i);
    ChainIsGrounded(s, t, z, m);
    SameSpans(s, t);
    KeptDistinct(t);
    KeptDistinct(u);
    OthersStayKept(t, i, z);
    SameIds(s, t);
    SameIds(s, u);
    if m > 0 {
      var w := At(Kept(t), z.parentSpanID);
      NearerChainsStay(s, t, i, n, w, m - 1);
      AtUnique(Kept(u), w);
    }
  }

  /** A span nearest to a root among those with its id can be reached in some order of the input. */
  lemma {:induction false} Realize(s: seq<Span>, x: Span, n: nat) returns (t: seq<Span>)
    requires Nearest(s, x, n)
    ensures Permutes(s, t) && ChainEnds(Kept(t), x, n)
    decreases n
  {
    var before := s;
    var y := x;
    if n > 0 {
      y :| y in s && y.spanID == x.parentSpanID && Grounded(s, y, n - 1);
      ParentIsNearest(s, x, n, y);
      before := Realize(s, y, n - 1);
    }
    SameSpans(s, before);
    var i :| 0 <= i < |before| && before[i] == x;
    t := ToFront(before, i);
    FrontIsKept(before, i);
    SameIds(s, t);
    if n > 0 {
      NearerChainsStay(s, before, i, n, y, n - 1);
      KeptDistinct(t);
      AtUnique(Kept(t), y);
    }
  }

  lemma GroundedVia(s: seq<Span>, x: Span, z: Span, m: nat)
    requires x in s && !IsRoot(s, x) && z in s && z.spanID == x.parentSpanID
    ensures Grounded(s, z, m) ==> Grounded(s, x, m + 1)
  {
  }

  lemma ParentIsNearest(s: seq<Span>, x: Span, n: nat, y: Span)
    requires Nearest(s, x, n) && n > 0 && y in s && y.spanID == x.parentSpanID && Grounded(s, y, n - 1)
    ensures Nearest(s, y, n - 1)
  {
    forall z, m: nat | z in s && z.spanID == y.spanID && m < n - 1
      ensures !Grounded(s, z, m)
    {
      GroundedVia(s, x, z, m);
    }
  }

  /** An id that two different spans carry and that leads to a root: two orders of the input differ in
      whether one of them can be reached. */
  lemma ContestShows(s: seq<Span>, x: Span, y: Span) returns (t: seq<Span>, u: seq<Span>)
    requires x in s && y in s && x.spanID == y.spanID && x != y && CouldShow(s, x)
    ensures Permutes(s, t) && Permutes(s, u) && !SameResult(t, u)
  {
    var n: nat :| Grounded(s, x, n);
    var z, m := NearestExists(s, x, n);
    t := Realize(s, z, m);
    assert Visible(t, z);
    var w := if z == x then y else x;
    var i :| 0 <= i < |s| && s[i] == w;
    u := ToFront(s, i);
    FrontIsKept(s, i);
    KeptDistinct(u);
    AtUnique(Kept(u), w);
    if z in Kept(u) {
      AtUnique(Kept(u), z);
    }
    assert !Visible(u, z);
  }

  /** AssembleTrace returns the same forest for every order of its input exactly when no id that two
      different spans carry leads, over the parents of all spans with each id, to an empty or absent
      parent; equivalently, when no such id can be reached in any order. Distinct SpanIDs suffice. */
  lemma OrderIndependence(s: seq<Span>)
    ensures (forall t :: Permutes(s, t) ==> SameResult(s, t)) <==> NoContest(s)
    ensures NoContest(s) <==>
            forall t, x, y :: Permutes(s, t) && x in s && y in s && x.spanID == y.spanID && x != y ==> !Visible(t, x)
    ensures DistinctIds(s) ==> ConsistentIds(s)
    ensures ConsistentIds(s) ==> NoContest(s)
  {
    if NoContest(s) {
      forall t | Permutes(s, t)
        ensures SameResult(s, t)
      {
        UncontestedIsIndependent(s, t);
      }
      forall t, x, y | Permutes(s, t) && x in s && y in s && x.spanID == y.spanID && x != y
        ensures !Visible(t, x)
      {
        VisibleIffGrounded(s, t, x);
      }
    } else {
      var x, y :| x in s && y in s && x.spanID == y.spanID && x != y && CouldShow(s, x);
      var t, u := ContestShows(s, x, y);
      assert !SameResult(s, t) || !SameResult(s, u);
      var n: nat :| Grounded(s, x, n);
      var z, m := NearestExists(s, x, n);
      var v := Realize(s, z, m);
      assert Visible(v, z);
    }
  }
}
