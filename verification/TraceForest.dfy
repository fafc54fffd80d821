/** The parent/child structure of a flat span list (trace_tree.go), on values: which spans are kept,
    where each is listed, and what can be reached from the roots. */
module TraceForest {
  import opened Ordering

  /** One decoded span; `rest` stands for the fields the assembly only copies. */
  datatype Span = Span(spanID: Bytes, parentSpanID: Bytes, startTime: int, rest: string)

  /** sortNodes: by StartTime, then by SpanID. */
  predicate SpanLess(a: Span, b: Span) {
    if a.startTime != b.startTime then a.startTime < b.startTime else BytesLess(a.spanID, b.spanID)
  }

  predicate Has(spans: seq<Span>, id: Bytes) {
    exists i :: 0 <= i < |spans| && spans[i].spanID == id
  }

  /** First occurrence of each SpanID, in input order. */
  function Kept(spans: seq<Span>): seq<Span> {
    if spans == [] then []
    else
      var n := |spans| - 1;
      if Has(Kept(spans[..n]), spans[n].spanID) then Kept(spans[..n]) else Kept(spans[..n]) + [spans[n]]
  }

  ghost predicate DistinctIds(k: seq<Span>) {
    forall i, j :: 0 <= i < j < |k| ==> k[i].spanID != k[j].spanID
  }

  /** Empty or absent parent. */
  predicate IsRoot(k: seq<Span>, x: Span) {
    x.parentSpanID == [] || !Has(k, x.parentSpanID)
  }

  predicate IsChild(k: seq<Span>, id: Bytes, x: Span) {
    !IsRoot(k, x) && x.parentSpanID == id
  }

  function RootsOf(k: seq<Span>, s: seq<Span>): seq<Span> {
    if s == [] then []
    else RootsOf(k, s[..|s| - 1]) + (if IsRoot(k, s[|s| - 1]) then [s[|s| - 1]] else [])
  }

  function ChildrenOf(k: seq<Span>, id: Bytes, s: seq<Span>): seq<Span> {
    if s == [] then []
    else ChildrenOf(k, id, s[..|s| - 1]) + (if IsChild(k, id, s[|s| - 1]) then [s[|s| - 1]] else [])
  }

  /** The root list and the child list of node `id`, as AssembleTrace returns them. */
  function Roots(k: seq<Span>): seq<Span> {
    Sort(SpanLess, RootsOf(k, k))
  }

  function Children(k: seq<Span>, id: Bytes): seq<Span> {
    Sort(SpanLess, ChildrenOf(k, id, k))
  }

  // ---------------------------------------------------------------- kept spans

  lemma {:induction false} KeptDistinct(spans: seq<Span>)
    ensures DistinctIds(Kept(spans))
    ensures forall x :: x in Kept(spans) ==> x in spans
    ensures forall x :: x in spans ==> Has(Kept(spans), x.spanID)
  {
    if spans != [] {
      var n := |spans| - 1;
      KeptDistinct(spans[..n]);
      var k := Kept(spans[..n]);
      forall x | x in spans
        ensures Has(Kept(spans), x.spanID)
      {
        if x in spans[..n] {
          var i :| 0 <= i < |k| && k[i].spanID == x.spanID;
          assert Kept(spans)[i] == k[i];
        } else {
          assert x == spans[n];
          if !Has(k, x.spanID) {
            assert Kept(spans)[|k|] == x;
          }
        }
      }
    }
  }

  /** The span kept for an id is the first one in the input that carries it. */
  lemma {:induction false} KeptIsFirst(spans: seq<Span>, i: nat)
    requires i < |spans| && forall j :: 0 <= j < i ==> spans[j].spanID != spans[i].spanID
    ensures spans[i] in Kept(spans)
  {
    var n := |spans| - 1;
    if i == n {
      KeptDistinct(spans[..n]);
      assert forall x :: x in spans[..n] ==> x.spanID != spans[n].spanID;
    } else {
      KeptIsFirst(spans[..n], i);
    }
  }

  // ---------------------------------------------------------------- the lists

  lemma {:induction false} FilterElements(k: seq<Span>, id: Bytes, s: seq<Span>)
    ensures forall x :: x in RootsOf(k, s) <==> x in s && IsRoot(k, x)
    ensures forall x :: x in ChildrenOf(k, id, s) <==> x in s && IsChild(k, id, x)
  {
    if s != [] {
      FilterElements(k, id, s[..|s| - 1]);
      assert s == s[..|s| - 1] + [s[|s| - 1]];
    }
  }

  lemma {:induction false} FilterDistinct(k: seq<Span>, id: Bytes, s: seq<Span>)
    requires DistinctIds(s)
    ensures DistinctIds(RootsOf(k, s)) && DistinctIds(ChildrenOf(k, id, s))
  {
    if s != [] {
      var n := |s| - 1;
      FilterDistinct(k, id, s[..n]);
      FilterElements(k, id, s[..n]);
      var r, c := RootsOf(k, s[..n]), ChildrenOf(k, id, s[..n]);
      forall i | 0 <= i < |r|
        ensures r[i].spanID != s[n].spanID
      {
        assert r[i] in s[..n];
      }
      forall i | 0 <= i < |c|
        ensures c[i].spanID != s[n].spanID
      {
        assert c[i] in s[..n];
      }
    }
  }

  lemma SpanOrder()
    ensures StrictOrder(SpanLess)
  {
    forall a: Span
      ensures !SpanLess(a, a)
    {
      BytesTotal(a.spanID, a.spanID);
    }
    forall a: Span, b: Span, c: Span | SpanLess(a, b) && SpanLess(b, c)
      ensures SpanLess(a, c)
    {
      if a.startTime == b.startTime == c.startTime {
        BytesTransitive(a.spanID, b.spanID, c.spanID);
      }
    }
  }

  lemma SpansSorted(s: seq<Span>)
    requires DistinctIds(s)
    ensures Ascending(SpanLess, Sort(SpanLess, s))
    ensures forall x :: x in Sort(SpanLess, s) <==> x in s
  {
    SpanOrder();
    forall a, b | a in s && b in s
      ensures a == b || SpanLess(a, b) || SpanLess(b, a)
    {
      BytesTotal(a.spanID, b.spanID);
    }
    assert Distinct(s);
    SortAscending(SpanLess, s);
  }

  /** Both lists are sorted and hold exactly the spans that belong there. */
  lemma ListsAre(k: seq<Span>, id: Bytes)
    requires DistinctIds(k)
    ensures Ascending(SpanLess, Roots(k)) && Ascending(SpanLess, Children(k, id))
    ensures forall x :: x in Roots(k) <==> x in k && IsRoot(k, x)
    ensures forall x :: x in Children(k, id) <==> x in k && IsChild(k, id, x)
  {
    FilterElements(k, id, k);
    FilterDistinct(k, id, k);
    SpansSorted(RootsOf(k, k));
    SpansSorted(ChildrenOf(k, id, k));
  }

  lemma AscendingOnce(s: seq<Span>)
    requires Ascending(SpanLess, s)
    ensures Distinct(s)
  {
    SpanOrder();
  }

  /** Conservation: a kept span is listed exactly once, either among the roots or under the one node
      whose SpanID is its ParentSpanID, and nothing else is listed. */
  lemma ListedOnce(k: seq<Span>, x: Span, id: Bytes)
    requires DistinctIds(k)
    ensures x in Roots(k) ==> x in k && x !in Children(k, id)
    ensures x in Children(k, id) ==> x in k && Has(k, id) && x.parentSpanID == id && x !in Roots(k)
    ensures x in k ==> (x in Roots(k) || x in Children(k, x.parentSpanID))
    ensures Distinct(Roots(k)) && Distinct(Children(k, id))
  {
    ListsAre(k, id);
    ListsAre(k, x.parentSpanID);
    AscendingOnce(Roots(k));
    AscendingOnce(Children(k, id));
  }
}
