/** Go's byte strings and their order, and what sorting by a strict total order determines. */
module Ordering {
  type byte = x: int | 0 <= x < 256

  /** A Go string or []byte. */
  type Bytes = seq<byte>

  /** Go's `<` on strings: lexicographic by byte. */
  predicate BytesLess(a: Bytes, b: Bytes) {
    if b == [] then false
    else if a == [] then true
    else a[0] < b[0] || (a[0] == b[0] && BytesLess(a[1..], b[1..]))
  }

  lemma {:induction false} BytesTotal(a: Bytes, b: Bytes)
    ensures a == b || BytesLess(a, b) || BytesLess(b, a)
    ensures !(BytesLess(a, b) && BytesLess(b, a))
  {
    if a != [] && b != [] {
      BytesTotal(a[1..], b[1..]);
      assert a == [a[0]] + a[1..] && b == [b[0]] + b[1..];
    }
  }

  lemma {:induction false} BytesTransitive(a: Bytes, b: Bytes, c: Bytes)
    requires BytesLess(a, b) && BytesLess(b, c)
    ensures BytesLess(a, c)
  {
    if a != [] {
      if a[0] == b[0] == c[0] {
        BytesTransitive(a[1..], b[1..], c[1..]);
      }
    }
  }

  /** The same order said outright: at the first difference `a` has the smaller byte, or `a` ends there. */
  ghost predicate BytesBefore(a: Bytes, b: Bytes) {
    exists p: nat :: p <= |a| && DiffersAt(a, b, p)
  }

  ghost predicate DiffersAt(a: Bytes, b: Bytes, p: nat)
    requires p <= |a|
  {
    && p < |b| && (p == |a| || a[p] < b[p])
    && forall i :: 0 <= i < p ==> a[i] == b[i]
  }

  lemma {:induction false} BytesLessIff(a: Bytes, b: Bytes)
    ensures BytesLess(a, b) <==> BytesBefore(a, b)
  {
    if b == [] {
    } else if a == [] {
      assert DiffersAt(a, b, 0);
    } else {
      BytesLessIff(a[1..], b[1..]);
      if a[0] < b[0] {
        assert DiffersAt(a, b, 0);
      } else if a[0] == b[0] {
        if p: nat :| p <= |a[1..]| && DiffersAt(a[1..], b[1..], p) {
          assert forall i :: 1 <= i < p + 1 ==> a[i] == a[1..][i - 1] && b[i] == b[1..][i - 1];
          assert DiffersAt(a, b, p + 1);
        }
        if p: nat :| p <= |a| && DiffersAt(a, b, p) {
          assert forall i :: 0 <= i < p - 1 ==> a[1..][i] == a[i + 1] && b[1..][i] == b[i + 1];
          assert DiffersAt(a[1..], b[1..], p - 1);
        }
      }
    }
  }

  ghost predicate StrictOrder<T(!new)>(less: (T, T) -> bool) {
    && (forall a :: !less(a, a))
    && (forall a, b, c :: less(a, b) && less(b, c) ==> less(a, c))
  }

  /** Any two different elements of `s` are comparable. */
  ghost predicate Comparable<T>(less: (T, T) -> bool, s: seq<T>) {
    forall a, b :: a in s && b in s ==> a == b || less(a, b) || less(b, a)
  }

  ghost predicate Ascending<T>(less: (T, T) -> bool, s: seq<T>) {
    forall i, j :: 0 <= i < j < |s| ==> less(s[i], s[j])
  }

  ghost predicate Distinct<T>(s: seq<T>) {
    forall i, j :: 0 <= i < j < |s| ==> s[i] != s[j]
  }

  /** A set of elements has at most one ascending listing. */
  lemma {:induction false} AscendingUnique<T(!new)>(less: (T, T) -> bool, a: seq<T>, b: seq<T>)
    requires StrictOrder(less) && Ascending(less, a) && Ascending(less, b)
    requires forall x :: x in a <==> x in b
    ensures a == b
  {
    if a == [] {
      assert forall i :: 0 <= i < |b| ==> b[i] in b;
    } else {
      assert a[0] in b && b[0] in a;
      assert a[0] == b[0];
      forall x
        ensures x in a[1..] <==> x in b[1..]
      {
        if x in a[1..] {
          assert x in a && less(a[0], x);
        }
        if x in b[1..] {
          assert x in b && less(b[0], x);
        }
      }
      AscendingUnique(less, a[1..], b[1..]);
    }
  }

  function Insert<T>(less: (T, T) -> bool, x: T, s: seq<T>): seq<T> {
    if s == [] then [x]
    else if less(s[0], x) then [s[0]] + Insert(less, x, s[1..])
    else [x] + s
  }

  /** The sorted listing sort.Slice produces when no two elements compare equal. */
  function Sort<T>(less: (T, T) -> bool, s: seq<T>): seq<T> {
    if s == [] then [] else Insert(less, s[|s| - 1], Sort(less, s[..|s| - 1]))
  }

  lemma {:induction false} InsertElements<T>(less: (T, T) -> bool, x: T, s: seq<T>)
    ensures multiset(Insert(less, x, s)) == multiset(s) + multiset{x}
  {
    if s != [] {
      assert s == [s[0]] + s[1..];
      if less(s[0], x) {
        InsertElements(less, x, s[1..]);
      }
    }
  }

  lemma {:induction false} InsertAscending<T(!new)>(less: (T, T) -> bool, x: T, s: seq<T>)
    requires StrictOrder(less) && Ascending(less, s) && Comparable(less, s + [x]) && x !in s
    ensures Ascending(less, Insert(less, x, s))
  {
    if s != [] && less(s[0], x) {
      assert forall y :: y in s[1..] + [x] ==> y in s + [x];
      InsertAscending(less, x, s[1..]);
      InsertElements(less, x, s[1..]);
      forall y | y in Insert(less, x, s[1..])
        ensures less(s[0], y)
      {
        assert y in multiset(s[1..]) + multiset{x};
        assert y == x || y in s[1..];
      }
    } else if s != [] {
      assert s[0] in s + [x] && x in s + [x];
      assert less(x, s[0]);
    }
  }

  lemma {:induction false} SortElements<T>(less: (T, T) -> bool, s: seq<T>)
    ensures multiset(Sort(less, s)) == multiset(s)
    ensures |Sort(less, s)| == |s|
  {
    if s != [] {
      var n := |s| - 1;
      SortElements(less, s[..n]);
      InsertElements(less, s[n], Sort(less, s[..n]));
      assert s == s[..n] + [s[n]];
    }
    assert |multiset(Sort(less, s))| == |Sort(less, s)| && |multiset(s)| == |s|;
  }

  lemma {:induction false} SortAscending<T(!new)>(less: (T, T) -> bool, s: seq<T>)
    requires StrictOrder(less) && Comparable(less, s) && Distinct(s)
    ensures Ascending(less, Sort(less, s))
    ensures forall x :: x in Sort(less, s) <==> x in s
  {
    SortElements(less, s);
    assert forall x :: x in Sort(less, s) <==> x in multiset(Sort(less, s));
    if s != [] {
      var n := |s| - 1;
      var rest := Sort(less, s[..n]);
      assert s == s[..n] + [s[n]];
      SortAscending(less, s[..n]);
      assert forall y :: y in rest + [s[n]] ==> y in s;
      InsertAscending(less, s[n], rest);
    }
  }
}
