/** Which spans a caller can reach from the roots AssembleTrace returns (trace_tree.go). Parent links may
    form cycles. */
module TraceReach {
  import opened Ordering
  import opened TraceForest

  function At(k: seq<Span>, id: Bytes): (x: Span)
    requires Has(k, id)
    ensures x in k && x.spanID == id
  {
    if k[0].spanID == id then k[0] else At(k[1..], id)
  }

  lemma AtUnique(k: seq<Span>, x: Span)
    requires DistinctIds(k) && x in k
    ensures Has(k, x.spanID) && At(k, x.spanID) == x
  {
    var i :| 0 <= i < |k| && k[i] == x;
    assert k[i].spanID == x.spanID;
    var y := At(k, x.spanID);
    var j :| 0 <= j < |k| && k[j] == y;
  }

  // ---------------------------------------------------------------- upwards: where parent links lead

  /** The parent chain of `x` ends after exactly `n` links, at an empty or absent parent. */
  ghost predicate ChainEnds(k: seq<Span>, x: Span, n: nat)
    decreases n
  {
    x in k && if IsRoot(k, x) then n == 0 else n > 0 && ChainEnds(k, At(k, x.parentSpanID), n - 1)
  }

  /** The parent chain of `x` ends. */
  ghost predicate Anchored(k: seq<Span>, x: Span) {
    exists n: nat :: ChainEnds(k, x, n)
  }

  /** The `n`-th ancestor, if the parent links go that far without reaching a root. */
  ghost predicate HasAncestor(k: seq<Span>, x: Span, n: nat)
    decreases n
  {
    n == 0 || (!IsRoot(k, x) && HasAncestor(k, At(k, x.parentSpanID), n - 1))
  }

  ghost function Ancestor(k: seq<Span>, x: Span, n: nat): Span
    requires HasAncestor(k, x, n)
    decreases n
  {
    if n == 0 then x else Ancestor(k, At(k, x.parentSpanID), n - 1)
  }

  /** Following parent links from `x` comes back to a span already passed. */
  ghost predicate EntersCycle(k: seq<Span>, x: Span) {
    exists i: nat, j: nat ::
      i < j && HasAncestor(k, x, j) && HasAncestor(k, x, i) && Ancestor(k, x, i) == Ancestor(k, x, j)
  }

  lemma {:induction false} ChainUnique(k: seq<Span>, x: Span, m: nat, n: nat)
    requires ChainEnds(k, x, m) && ChainEnds(k, x, n)
    ensures m == n
    decreases m
  {
    if !IsRoot(k, x) {
      ChainUnique(k, At(k, x.parentSpanID), m - 1, n - 1);
    }
  }

  /** A chain of length `n` passes `n` proper ancestors, whose own chains are shorter. */
  lemma {:induction false} ChainAncestor(k: seq<Span>, x: Span, n: nat, i: nat)
    requires ChainEnds(k, x, n)
    ensures HasAncestor(k, x, i) <==> i <= n
    ensures i <= n ==> Ancestor(k, x, i) in k && ChainEnds(k, Ancestor(k, x, i), n - i)
    decreases i
  {
    if i > 0 && !IsRoot(k, x) {
      ChainAncestor(k, At(k, x.parentSpanID), n - 1, i - 1);
    }
  }

  lemma {:induction false} AncestorsKept(k: seq<Span>, x: Span, n: nat)
    requires x in k && HasAncestor(k, x, n)
    ensures Ancestor(k, x, n) in k
    ensures forall i :: 0 <= i <= n ==> HasAncestor(k, x, i)
    decreases n
  {
    if n > 0 {
      var p := At(k, x.parentSpanID);
      AncestorsKept(k, p, n - 1);
      forall i | 0 <= i <= n
        ensures HasAncestor(k, x, i)
      {
        if i > 0 {
          assert HasAncestor(k, p, i - 1);
        }
      }
    }
  }

  /** A parent chain that never enters a cycle ends. */
  lemma {:induction false} NoChainMeansLong(k: seq<Span>, x: Span, n: nat)
    requires x in k && forall m: nat :: m <= n ==> !ChainEnds(k, x, m)
    ensures HasAncestor(k, x, n + 1)
    decreases n
  {
    assert !ChainEnds(k, x, 0);
    if n > 0 {
      var p := At(k, x.parentSpanID);
      forall m: nat | m <= n - 1
        ensures !ChainEnds(k, p, m)
      {
        assert !ChainEnds(k, x, m + 1);
      }
      NoChainMeansLong(k, p, n - 1);
    }
  }

  /** Pigeonhole: more values than members of `k` repeat. */
  lemma {:induction false} Pigeonhole(k: seq<Span>, vals: seq<Span>)
    requires |vals| > |k| && forall v :: v in vals ==> v in k
    ensures exists i, j :: 0 <= i < j < |vals| && vals[i] == vals[j]
  {
    if forall i, j :: 0 <= i < j < |vals| ==> vals[i] != vals[j] {
      DistinctSize(vals);
      SeqSetSize(k);
      SubsetSize(set v | v in vals, set v | v in k);
    }
  }

  lemma {:induction false} DistinctSize(s: seq<Span>)
    requires forall i, j :: 0 <= i < j < |s| ==> s[i] != s[j]
    ensures |set v | v in s| == |s|
  {
    if s != [] {
      var n := |s| - 1;
      DistinctSize(s[..n]);
      assert s == s[..n] + [s[n]];
      assert (set v | v in s) == (set v | v in s[..n]) + {s[n]};
    }
  }

  lemma {:induction false} SeqSetSize(s: seq<Span>)
    ensures |set v | v in s| <= |s|
  {
    if s != [] {
      var n := |s| - 1;
      SeqSetSize(s[..n]);
      assert s == s[..n] + [s[n]];
      assert (set v | v in s) == (set v | v in s[..n]) + {s[n]};
    }
  }

  lemma {:induction false} SubsetSize(a: set<Span>, b: set<Span>)
    requires a <= b
    ensures |a| <= |b|
  {
    if a != {} {
      var x :| x in a;
      SubsetSize(a - {x}, b - {x});
    }
  }

  lemma LongChainRepeats(k: seq<Span>, x: Span)
    requires x in k && HasAncestor(k, x, |k|)
    ensures EntersCycle(k, x)
  {
    AncestorsKept(k, x, |k|);
    var vals := seq(|k| + 1, i requires 0 <= i <= |k| && HasAncestor(k, x, i) => Ancestor(k, x, i));
    forall v | v in vals
      ensures v in k
    {
      var i :| 0 <= i < |vals| && vals[i] == v;
      AncestorsKept(k, x, i);
    }
    Pigeonhole(k, vals);
    var i, j :| 0 <= i < j < |vals| && vals[i] == vals[j];
    assert Ancestor(k, x, i) == Ancestor(k, x, j);
  }

  lemma EndedChainIsAcyclic(k: seq<Span>, x: Span, n: nat)
    requires ChainEnds(k, x, n)
    ensures !EntersCycle(k, x)
  {
    forall i: nat, j: nat | i < j && HasAncestor(k, x, j) && HasAncestor(k, x, i)
      ensures Ancestor(k, x, i) != Ancestor(k, x, j)
    {
      ChainAncestor(k, x, n, i);
      ChainAncestor(k, x, n, j);
      if Ancestor(k, x, i) == Ancestor(k, x, j) {
        ChainUnique(k, Ancestor(k, x, i), n - i, n - j);
      }
    }
  }

  lemma EndlessChainIsCyclic(k: seq<Span>, x: Span)
    requires x in k && forall n: nat :: !ChainEnds(k, x, n)
    ensures EntersCycle(k, x)
  {
    NoChainMeansLong(k, x, |k| - 1);
    LongChainRepeats(k, x);
  }

  /** A parent chain ends unless it enters a cycle. */
  lemma ChainUnlessCyclic(k: seq<Span>, x: Span)
    requires x in k
    ensures Anchored(k, x) <==> !EntersCycle(k, x)
  {
    if n: nat :| ChainEnds(k, x, n) {
      EndedChainIsAcyclic(k, x, n);
    } else {
      EndlessChainIsCyclic(k, x);
    }
  }

  lemma ChainIsShort(k: seq<Span>, x: Span, n: nat)
    requires ChainEnds(k, x, n)
    ensures n < |k|
  {
    if n >= |k| {
      ChainAncestor(k, x, n, |k|);
      LongChainRepeats(k, x);
      EndedChainIsAcyclic(k, x, n);
    }
  }
}
