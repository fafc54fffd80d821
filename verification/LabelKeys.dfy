/** The grouping keys of the row decoders: seriesKey (lgtm.go) and the key half of labelsAt (results.go).
    Both write fields terminated by a NUL byte; a key tells label sets apart only as far as the fields
    are free of NUL themselves. */
module LabelKeys {
  import opened Ordering

  type Labels = map<Bytes, Bytes>

  predicate NulFree(b: Bytes) {
    forall i :: 0 <= i < |b| ==> b[i] != 0
  }

  /** f1 NUL f2 NUL ... */
  function Terminate(fields: seq<Bytes>): Bytes {
    if fields == [] then [] else fields[0] + [0] + Terminate(fields[1..])
  }

  lemma {:induction false} TerminateConcat(a: seq<Bytes>, b: seq<Bytes>)
    ensures Terminate(a + b) == Terminate(a) + Terminate(b)
  {
    if a == [] {
      assert [] + b == b;
    } else {
      TerminateConcat(a[1..], b);
      assert (a + b)[1..] == a[1..] + b;
    }
  }

  function UntilNul(b: Bytes): nat
    ensures UntilNul(b) <= |b| && NulFree(b[..UntilNul(b)])
    ensures UntilNul(b) < |b| ==> b[UntilNul(b)] == 0
  {
    if b == [] || b[0] == 0 then 0 else
      assert b[..1 + UntilNul(b[1..])] == [b[0]] + b[1..][..UntilNul(b[1..])];
      1 + UntilNul(b[1..])
  }

  /** The reader's side: cut at every NUL. */
  function Cut(b: Bytes): seq<Bytes>
    decreases |b|
  {
    if UntilNul(b) == |b| then [] else [b[..UntilNul(b)]] + Cut(b[UntilNul(b) + 1..])
  }

  lemma {:induction false} FirstNul(f: Bytes, rest: Bytes)
    requires NulFree(f)
    ensures UntilNul(f + [0] + rest) == |f|
  {
    if f != [] {
      FirstNul(f[1..], rest);
      assert (f + [0] + rest)[1..] == f[1..] + [0] + rest;
    }
  }

  lemma {:induction false} CutTerminated(fields: seq<Bytes>)
    requires forall i :: 0 <= i < |fields| ==> NulFree(fields[i])
    ensures Cut(Terminate(fields)) == fields
  {
    if fields != [] {
      var f, rest := fields[0], Terminate(fields[1..]);
      FirstNul(f, rest);
      assert (f + [0] + rest)[..|f|] == f;
      assert (f + [0] + rest)[|f| + 1..] == rest;
      CutTerminated(fields[1..]);
      assert fields == [f] + fields[1..];
    }
  }

  // ---------------------------------------------------------------- seriesKey

  ghost predicate SortedKeys(ks: seq<Bytes>, m: Labels) {
    Ascending(BytesLess, ks) && forall k :: k in ks <==> k in m
  }

  /** k1 v1 k2 v2 ... in key order. */
  function Fields(ks: seq<Bytes>, m: Labels): seq<Bytes>
    requires forall k :: k in ks ==> k in m
  {
    if ks == [] then [] else [ks[0], m[ks[0]]] + Fields(ks[1..], m)
  }

  lemma BytesOrder()
    ensures StrictOrder(BytesLess)
  {
    forall a: Bytes
      ensures !BytesLess(a, a)
    {
      BytesTotal(a, a);
    }
    forall a: Bytes, b: Bytes, c: Bytes | BytesLess(a, b) && BytesLess(b, c)
      ensures BytesLess(a, c)
    {
      BytesTransitive(a, b, c);
    }
  }

  lemma ListingSorts(ks: seq<Bytes>, m: Labels)
    requires Distinct(ks) && forall k :: k in ks <==> k in m
    ensures SortedKeys(Sort(BytesLess, ks), m)
  {
    BytesOrder();
    forall a, b | a in ks && b in ks
      ensures a == b || BytesLess(a, b) || BytesLess(b, a)
    {
      BytesTotal(a, b);
    }
    SortAscending(BytesLess, ks);
  }

  lemma {:induction false} ListingExists(s: set<Bytes>) returns (ks: seq<Bytes>)
    ensures Distinct(ks) && forall k :: k in ks <==> k in s
  {
    if s == {} {
      ks := [];
    } else {
      var x :| x in s;
      var rest := ListingExists(s - {x});
      ks := [x] + rest;
    }
  }

  lemma KeysUnique(a: seq<Bytes>, b: seq<Bytes>, m: Labels)
    requires SortedKeys(a, m) && SortedKeys(b, m)
    ensures a == b
  {
    BytesOrder();
    AscendingUnique(BytesLess, a, b);
  }

  /** The keys of a label set in order: a function of the set, not of any iteration. */
  ghost function KeysOf(m: Labels): (ks: seq<Bytes>)
    ensures SortedKeys(ks, m)
  {
    assert exists ks :: SortedKeys(ks, m) by {
      var ks := ListingExists(m.Keys);
      ListingSorts(ks, m);
    }
    var ks :| SortedKeys(ks, m);
    ks
  }

  ghost function SeriesKeyOf(m: Labels): Bytes {
    Terminate(Fields(KeysOf(m), m))
  }

  /** The first loop of seriesKey: the map hands out its keys in any order. */
  method CollectKeys(m: Labels) returns (keys: seq<Bytes>)
    ensures Distinct(keys) && forall k :: k in keys <==> k in m
  {
    keys := [];
    var left := m.Keys;
    while left != {}
      invariant Distinct(keys) && left <= m.Keys
      invariant forall k :: k in keys <==> k in m && k !in left
      decreases |left|
    {
      var k :| k in left;
      left := left - {k};
      keys := keys + [k];
    }
  }

  /** The second loop of seriesKey. */
  method WriteFields(keys: seq<Bytes>, m: Labels) returns (key: Bytes)
    requires forall k :: k in keys ==> k in m
    ensures key == Terminate(Fields(keys, m))
  {
    key := [];
    for i := 0 to |keys|
      invariant key == Terminate(Fields(keys[..i], m))
    {
      FieldsAppend(keys[..i], keys[i], m);
      TerminateConcat(Fields(keys[..i], m), [keys[i], m[keys[i]]]);
      TwoFields(keys[i], m[keys[i]], []);
      assert [keys[i], m[keys[i]]] + [] == [keys[i], m[keys[i]]];
      assert keys[..i + 1] == keys[..i] + [keys[i]];
      key := key + (keys[i] + [0] + m[keys[i]] + [0]);
    }
    assert keys[..|keys|] == keys;
  }

  /** seriesKey: whatever order the map hands out its keys, the key is the same. */
  method SeriesKey(m: Labels) returns (key: Bytes)
    ensures key == SeriesKeyOf(m)
  {
    var keys := CollectKeys(m);
    ListingSorts(keys, m);
    keys := Sort(BytesLess, keys);
    KeysUnique(keys, KeysOf(m), m);
    key := WriteFields(keys, m);
  }

  lemma {:induction false} FieldsAppend(ks: seq<Bytes>, k: Bytes, m: Labels)
    requires k in m && forall x :: x in ks ==> x in m
    ensures Fields(ks + [k], m) == Fields(ks, m) + [k, m[k]]
  {
    if ks == [] {
      assert Fields([k][1..], m) == [];
      assert [] + [k] == [k];
    } else {
      FieldsAppend(ks[1..], k, m);
      assert (ks + [k])[1..] == ks[1..] + [k];
    }
  }

  lemma TwoFields(k: Bytes, v: Bytes, rest: seq<Bytes>)
    ensures Terminate([k, v] + rest) == k + [0] + v + [0] + Terminate(rest)
  {
    assert ([k, v] + rest)[1..] == [v] + rest;
    assert ([v] + rest)[1..] == rest;
  }

  predicate NulFreeLabels(m: Labels) {
    forall k :: k in m ==> NulFree(k) && NulFree(m[k])
  }

  lemma {:induction false} FieldsOf(ks: seq<Bytes>, m: Labels)
    requires forall k :: k in ks ==> k in m
    ensures |Fields(ks, m)| == 2 * |ks|
    ensures forall i :: 0 <= i < |ks| ==> Fields(ks, m)[2 * i] == ks[i] && Fields(ks, m)[2 * i + 1] == m[ks[i]]
  {
    if ks != [] {
      FieldsOf(ks[1..], m);
      forall i | 0 <= i < |ks|
        ensures Fields(ks, m)[2 * i] == ks[i] && Fields(ks, m)[2 * i + 1] == m[ks[i]]
      {
        if i > 0 {
          assert Fields(ks, m)[2 * i] == Fields(ks[1..], m)[2 * (i - 1)];
          assert Fields(ks, m)[2 * i + 1] == Fields(ks[1..], m)[2 * (i - 1) + 1];
        }
      }
    }
  }

  lemma FieldsNulFree(m: Labels)
    requires NulFreeLabels(m)
    ensures forall i :: 0 <= i < |Fields(KeysOf(m), m)| ==> NulFree(Fields(KeysOf(m), m)[i])
  {
    var ks, f := KeysOf(m), Fields(KeysOf(m), m);
    FieldsOf(ks, m);
    forall i | 0 <= i < |f|
      ensures NulFree(f[i])
    {
      assert i == 2 * (i / 2) || i == 2 * (i / 2) + 1;
      assert ks[i / 2] in ks;
    }
  }

  lemma SameFieldsSameKeys(ks: seq<Bytes>, ls: seq<Bytes>, a: Labels, b: Labels)
    requires (forall k :: k in ks ==> k in a) && (forall k :: k in ls ==> k in b)
    requires Fields(ks, a) == Fields(ls, b)
    ensures ks == ls && forall k :: k in ks ==> a[k] == b[k]
  {
    FieldsOf(ks, a);
    FieldsOf(ls, b);
    assert |ks| == |ls|;
    forall i | 0 <= i < |ks|
      ensures ks[i] == ls[i] && a[ks[i]] == b[ls[i]]
    {
      assert Fields(ks, a)[2 * i] == Fields(ls, b)[2 * i];
      assert Fields(ks, a)[2 * i + 1] == Fields(ls, b)[2 * i + 1];
    }
  }

  lemma SameFieldsSameLabels(a: Labels, b: Labels)
    requires Fields(KeysOf(a), a) == Fields(KeysOf(b), b)
    ensures a == b
  {
    SameFieldsSameKeys(KeysOf(a), KeysOf(b), a, b);
    assert forall k :: k in a <==> k in KeysOf(a);
    assert forall k :: k in b <==> k in KeysOf(b);
  }

  /** Series correspond one to one with label sets, as long as no label holds a NUL byte ... */
  lemma SeriesKeyInjective(a: Labels, b: Labels)
    requires NulFreeLabels(a) && NulFreeLabels(b)
    ensures SeriesKeyOf(a) == SeriesKeyOf(b) <==> a == b
  {
    if SeriesKeyOf(a) == SeriesKeyOf(b) {
      FieldsNulFree(a);
      FieldsNulFree(b);
      CutTerminated(Fields(KeysOf(a), a));
      CutTerminated(Fields(KeysOf(b), b));
      SameFieldsSameLabels(a, b);
    }
  }

  lemma SingleKey(k: Bytes, v: Bytes)
    ensures SeriesKeyOf(map[k := v]) == k + [0] + v + [0]
  {
    var m := map[k := v];
    assert SortedKeys([k], m);
    KeysUnique([k], KeysOf(m), m);
    assert Fields([k], m) == [k, v] + Fields([k][1..], m);
    TwoFields(k, v, []);
  }

  /** A non-empty key starts with some name and its NUL, and ends in a NUL after that one. */
  lemma KeyShape(m: Labels) returns (name: Bytes, tail: Bytes)
    requires m != map[]
    ensures SeriesKeyOf(m) == name + [0] + tail && tail != [] && tail[|tail| - 1] == 0
  {
    var ks := KeysOf(m);
    assert ks != [] by {
      var x :| x in m;
      assert x in ks;
    }
    var rest := Fields(ks[1..], m);
    name, tail := ks[0], m[ks[0]] + [0] + Terminate(rest);
    TwoFields(ks[0], m[ks[0]], rest);
    assert SeriesKeyOf(m) == name + [0] + tail;
    TerminateEnds(rest);
  }

  /** A key with at least one field reads as a single pair, cut at its first NUL. */
  lemma ReadAsOnePair(m: Labels) returns (k: Bytes, v: Bytes)
    requires m != map[]
    ensures NulFree(k) && SeriesKeyOf(m) == k + [0] + v + [0]
  {
    var e := SeriesKeyOf(m);
    var name, tail := KeyShape(m);
    FirstNulBound(name, tail);
    assert e[|e| - 1] == 0;
    var n := UntilNul(e);
    k, v := e[..n], e[n + 1..|e| - 1];
  }

  /** A NUL inside the value of a single pair lets the same key be cut elsewhere. */
  lemma CutElsewhere(k: Bytes, v: Bytes) returns (other: Labels)
    requires !NulFree(v)
    ensures other != map[k := v] && SeriesKeyOf(other) == SeriesKeyOf(map[k := v])
  {
    var j := UntilNul(v);
    var l, w := k + [0] + v[..j], v[j + 1..];
    other := map[l := w];
    SingleKey(k, v);
    SingleKey(l, w);
    assert v == v[..j] + [0] + w;
    assert k + [0] + v + [0] == l + [0] + w + [0];
    assert k !in other;
  }

  /** ... every label set that does hold one shares its key with a different set. `OwnsSeriesKeyIff` below
      has the exact condition for one set against all others. */
  lemma NulCollides(m: Labels) returns (other: Labels)
    requires !NulFreeLabels(m)
    ensures other != m && SeriesKeyOf(other) == SeriesKeyOf(m)
  {
    var k, v := ReadAsOnePair(m);
    other := map[k := v];
    SingleKey(k, v);
    if other == m {
      other := CutElsewhere(k, v);
    }
  }

  lemma FirstNulBound(f: Bytes, rest: Bytes)
    ensures UntilNul(f + [0] + rest) <= |f|
  {
    var b := f + [0] + rest;
    if UntilNul(b) > |f| {
      assert b[..UntilNul(b)][|f|] == 0;
    }
  }

  lemma {:induction false} TerminateEnds(fields: seq<Bytes>)
    ensures fields != [] ==> Terminate(fields) != [] && Terminate(fields)[|Terminate(fields)| - 1] == 0
  {
    if fields != [] {
      TerminateEnds(fields[1..]);
    }
  }

  // ---------------------------------------------------------------- labelsAt

  /** labels[key] = v for each GroupBy name in turn. */
  function LabelMap(names: seq<Bytes>, vals: seq<Bytes>): Labels
    requires |names| == |vals|
  {
    if names == [] then map[]
    else LabelMap(names[..|names| - 1], vals[..|vals| - 1])[names[|names| - 1] := vals[|vals| - 1]]
  }

  /** labelsAt on one row: `vals` are the row's g0..gN columns. */
  method LabelsAt(names: seq<Bytes>, vals: seq<Bytes>) returns (labels: Labels, key: Bytes)
    requires |names| == |vals|
    ensures labels == LabelMap(names, vals) && key == Terminate(vals)
  {
    labels, key := map[], [];
    for gi := 0 to |names|
      invariant labels == LabelMap(names[..gi], vals[..gi])
      invariant key == Terminate(vals[..gi])
    {
      assert names[..gi + 1][..gi] == names[..gi] && vals[..gi + 1][..gi] == vals[..gi];
      TerminateConcat(vals[..gi], [vals[gi]]);
      assert vals[..gi + 1] == vals[..gi] + [vals[gi]];
      labels := labels[names[gi] := vals[gi]];
      key := key + vals[gi] + [0];
    }
    assert names[..|names|] == names && vals[..|vals|] == vals;
  }

  /** The value a name ends up with is the one of its last occurrence. */
  lemma {:induction false} LabelMapLast(names: seq<Bytes>, vals: seq<Bytes>, i: nat)
    requires |names| == |vals| && i < |names|
    requires forall j :: i < j < |names| ==> names[j] != names[i]
    ensures names[i] in LabelMap(names, vals) && LabelMap(names, vals)[names[i]] == vals[i]
  {
    if i < |names| - 1 {
      LabelMapLast(names[..|names| - 1], vals[..|vals| - 1], i);
    }
  }

  /** The columns of one row: a name asked for twice has the same value in both. */
  ghost predicate OneValuePerName(names: seq<Bytes>, vals: seq<Bytes>) {
    && |vals| == |names|
    && forall i, j :: 0 <= i < j < |names| && names[i] == names[j] ==> vals[i] == vals[j]
  }

  /** Every name is mapped to its column's value. */
  lemma {:induction false} LabelMapAt(names: seq<Bytes>, vals: seq<Bytes>, i: nat)
    requires OneValuePerName(names, vals) && i < |names|
    ensures names[i] in LabelMap(names, vals) && LabelMap(names, vals)[names[i]] == vals[i]
  {
    if i < |names| - 1 {
      LabelMapAt(names[..|names| - 1], vals[..|vals| - 1], i);
    }
  }

  /** `m` maps each name to its column's value and nothing else. */
  ghost predicate ColumnsRead(names: seq<Bytes>, vals: seq<Bytes>, m: Labels)
    requires |names| == |vals|
  {
    && (forall i :: 0 <= i < |names| ==> names[i] in m && m[names[i]] == vals[i])
    && (forall k :: k in m ==> k in names)
  }

  lemma {:induction false} LabelMapNames(names: seq<Bytes>, vals: seq<Bytes>)
    requires |names| == |vals|
    ensures forall k :: k in LabelMap(names, vals) ==> k in names
  {
    if names != [] {
      LabelMapNames(names[..|names| - 1], vals[..|vals| - 1]);
      assert names == names[..|names| - 1] + [names[|names| - 1]];
    }
  }

  /** The label map of a row is the one map that reads its columns. */
  lemma LabelMapReads(names: seq<Bytes>, vals: seq<Bytes>, m: Labels)
    requires OneValuePerName(names, vals)
    ensures ColumnsRead(names, vals, m) <==> m == LabelMap(names, vals)
  {
    var l := LabelMap(names, vals);
    LabelMapNames(names, vals);
    forall i | 0 <= i < |names|
      ensures names[i] in l && l[names[i]] == vals[i]
    {
      LabelMapAt(names, vals, i);
    }
    if ColumnsRead(names, vals, m) {
      forall k
        ensures k in m <==> k in l
        ensures k in m ==> m[k] == l[k]
      {
        if k in names {
          var i :| 0 <= i < |names| && names[i] == k;
        }
      }
    }
  }

  ghost predicate NulFreeTuple(vals: seq<Bytes>) {
    forall i :: 0 <= i < |vals| ==> NulFree(vals[i])
  }

  // ---------------------------------------------------------------- which tuples own their key

  function Nuls(b: Bytes): nat {
    if b == [] then 0 else (if b[0] == 0 then 1 else 0) + Nuls(b[1..])
  }

  lemma {:induction false} NulsConcat(a: Bytes, b: Bytes)
    ensures Nuls(a + b) == Nuls(a) + Nuls(b)
  {
    if a == [] {
      assert [] + b == b;
    } else {
      NulsConcat(a[1..], b);
      assert (a + b)[1..] == a[1..] + b;
    }
  }

  lemma {:induction false} NoNuls(b: Bytes)
    ensures Nuls(b) == 0 <==> NulFree(b)
  {
    if b != [] {
      NoNuls(b[1..]);
      assert NulFree(b) <==> b[0] != 0 && NulFree(b[1..]) by {
        assert forall i :: 0 <= i < |b[1..]| ==> b[1..][i] == b[i + 1];
        assert forall i :: 1 <= i < |b| ==> b[i] == b[1..][i - 1];
      }
    }
  }

  /** A key holds one NUL per field and those inside the fields. */
  lemma {:induction false} NulsOfKey(vals: seq<Bytes>)
    ensures Nuls(Terminate(vals)) >= |vals|
    ensures Nuls(Terminate(vals)) == |vals| <==> NulFreeTuple(vals)
  {
    if vals != [] {
      NulsOfKey(vals[1..]);
      NulsConcat(vals[0] + [0], Terminate(vals[1..]));
      NulsConcat(vals[0], [0]);
      assert Nuls([0]) == 1 + Nuls([0][1..]);
      NoNuls(vals[0]);
      assert NulFreeTuple(vals) <==> NulFree(vals[0]) && NulFreeTuple(vals[1..]) by {
        assert forall i :: 1 <= i < |vals| ==> vals[i] == vals[1..][i - 1];
      }
    }
  }

  /** On NUL-free rows of any width, equal keys mean equal rows. */
  lemma TupleKeyInjective(v: seq<Bytes>, w: seq<Bytes>)
    requires NulFreeTuple(v) && NulFreeTuple(w)
    ensures Terminate(v) == Terminate(w) <==> v == w
  {
    CutTerminated(v);
    CutTerminated(w);
  }

  /** No other row of as many columns has the key of this one. */
  ghost predicate OwnsKey(v: seq<Bytes>) {
    forall w: seq<Bytes> :: |w| == |v| && Terminate(w) == Terminate(v) ==> w == v
  }

  lemma NulFreeOwnsKey(v: seq<Bytes>, w: seq<Bytes>)
    requires NulFreeTuple(v) && |w| == |v| && Terminate(w) == Terminate(v)
    ensures w == v
  {
    NulsOfKey(v);
    NulsOfKey(w);
    TupleKeyInjective(v, w);
  }

  lemma OneColumnOwnsKey(v: seq<Bytes>, w: seq<Bytes>)
    requires |w| == |v| <= 1 && Terminate(w) == Terminate(v)
    ensures w == v
  {
    if |v| == 1 {
      assert v[1..] == [] && w[1..] == [];
      assert v[0] + [0] == Terminate(v) && w[0] + [0] == Terminate(w);
      assert v[0] == Terminate(v)[..|Terminate(v)| - 1] && w[0] == Terminate(w)[..|Terminate(w)| - 1];
      assert v == [v[0]] && w == [w[0]];
    }
  }

  /** Two neighbouring fields can trade bytes across a NUL. */
  lemma TwoFieldsTrade(a: seq<Bytes>, x: Bytes, y: Bytes, p: Bytes, q: Bytes, b: seq<Bytes>)
    requires x + [0] + y + [0] == p + [0] + q + [0]
    ensures Terminate(a + [x, y] + b) == Terminate(a + [p, q] + b)
  {
    TerminateConcat(a + [x, y], b);
    TerminateConcat(a, [x, y]);
    TerminateConcat(a + [p, q], b);
    TerminateConcat(a, [p, q]);
    TwoFields(x, y, []);
    TwoFields(p, q, []);
    assert [x, y] + [] == [x, y] && [p, q] + [] == [p, q];
  }

  lemma NulTupleCollides(v: seq<Bytes>) returns (w: seq<Bytes>)
    requires |v| >= 2 && !NulFreeTuple(v)
    ensures |w| == |v| && Terminate(w) == Terminate(v) && w != v
  {
    var i :| 0 <= i < |v| && !NulFree(v[i]);
    var m := UntilNul(v[i]);
    assert v[i][..|v[i]|] == v[i];
    var p, q := v[i][..m], v[i][m + 1..];
    assert v[i] == p + [0] + q;
    if i + 1 < |v| {
      var y := v[i + 1];
      w := v[..i] + [p, q + [0] + y] + v[i + 2..];
      assert v == v[..i] + [v[i], y] + v[i + 2..];
      assert v[i] + [0] + y + [0] == p + [0] + (q + [0] + y) + [0];
      TwoFieldsTrade(v[..i], v[i], y, p, q + [0] + y, v[i + 2..]);
      assert w[i] != v[i];
    } else {
      var x := v[i - 1];
      w := v[..i - 1] + [x + [0] + p, q] + [];
      assert v == v[..i - 1] + [x, v[i]] + [];
      assert x + [0] + v[i] + [0] == (x + [0] + p) + [0] + q + [0];
      TwoFieldsTrade(v[..i - 1], x, v[i], x + [0] + p, q, []);
      assert w[i] != v[i];
    }
  }

  /** The exact reach of the labelsAt key: a row shares it with no other exactly when it has at most one
      column or holds no NUL. */
  lemma OwnsKeyIff(v: seq<Bytes>)
    ensures OwnsKey(v) <==> |v| <= 1 || NulFreeTuple(v)
  {
    if |v| <= 1 || NulFreeTuple(v) {
      forall w: seq<Bytes> | |w| == |v| && Terminate(w) == Terminate(v)
        ensures w == v
      {
        if |v| <= 1 {
          OneColumnOwnsKey(v, w);
        } else {
          NulFreeOwnsKey(v, w);
        }
      }
    } else {
      var w := NulTupleCollides(v);
    }
  }

  /** Key and labels agree on these two rows: same key exactly when same label map. */
  ghost predicate KeyMatchesLabels(names: seq<Bytes>, v: seq<Bytes>, w: seq<Bytes>)
    requires |names| == |v| == |w|
  {
    Terminate(v) == Terminate(w) <==> LabelMap(names, v) == LabelMap(names, w)
  }

  lemma LabelMapTells(names: seq<Bytes>, v: seq<Bytes>, w: seq<Bytes>)
    requires OneValuePerName(names, v) && OneValuePerName(names, w)
    ensures LabelMap(names, v) == LabelMap(names, w) <==> v == w
  {
    if LabelMap(names, v) == LabelMap(names, w) {
      forall i | 0 <= i < |names|
        ensures v[i] == w[i]
      {
        LabelMapAt(names, v, i);
        LabelMapAt(names, w, i);
      }
    }
  }

  /** Whatever the GroupBy names, repeated or not, a row that owns its key is grouped with exactly the rows
      that have its label map. */
  lemma KeyStandsForLabels(names: seq<Bytes>, v: seq<Bytes>, w: seq<Bytes>)
    requires OneValuePerName(names, v) && OneValuePerName(names, w) && (|v| <= 1 || NulFreeTuple(v))
    ensures KeyMatchesLabels(names, v, w)
  {
    OwnsKeyIff(v);
    LabelMapTells(names, v, w);
  }

  /** Under different names that is exactly when the row has at most one column or holds no NUL. */
  lemma KeyStandsForLabelsIff(names: seq<Bytes>, v: seq<Bytes>)
    requires Distinct(names) && |v| == |names|
    ensures (forall w: seq<Bytes> :: |w| == |names| ==> KeyMatchesLabels(names, v, w)) <==>
            |v| <= 1 || NulFreeTuple(v)
  {
    if |v| <= 1 || NulFreeTuple(v) {
      forall w: seq<Bytes> | |w| == |names|
        ensures KeyMatchesLabels(names, v, w)
      {
        KeyStandsForLabels(names, v, w);
      }
    } else {
      var w := NulTupleCollides(v);
      LabelMapTells(names, v, w);
      assert !KeyMatchesLabels(names, v, w);
    }
  }

  // ---------------------------------------------------------------- which label sets own their key

  lemma {:induction false} ListingSize(ks: seq<Bytes>, s: set<Bytes>)
    requires Distinct(ks) && forall k :: k in ks <==> k in s
    ensures |ks| == |s|
  {
    if ks == [] {
      assert s == {};
    } else {
      assert ks == [ks[0]] + ks[1..];
      assert ks[0] in s && ks[0] !in ks[1..];
      ListingSize(ks[1..], s - {ks[0]});
    }
  }

  lemma KeysCount(m: Labels)
    ensures |KeysOf(m)| == |m|
  {
    BytesOrder();
    ListingSize(KeysOf(m), m.Keys);
  }

  /** A key has two NULs per label, and more only if the labels hold some. */
  lemma NulsOfLabels(m: Labels)
    ensures Nuls(SeriesKeyOf(m)) >= 2 * |m|
    ensures Nuls(SeriesKeyOf(m)) == 2 * |m| ==> NulFreeLabels(m)
  {
    var ks, f := KeysOf(m), Fields(KeysOf(m), m);
    KeysCount(m);
    FieldsOf(ks, m);
    NulsOfKey(f);
    if Nuls(SeriesKeyOf(m)) == 2 * |m| {
      forall k | k in m
        ensures NulFree(k) && NulFree(m[k])
      {
        assert k in ks;
        var i :| 0 <= i < |ks| && ks[i] == k;
        assert f[2 * i] == k && f[2 * i + 1] == m[k];
      }
    }
  }

  lemma NulsWhenFree(m: Labels)
    requires NulFreeLabels(m)
    ensures Nuls(SeriesKeyOf(m)) == 2 * |m|
  {
    KeysCount(m);
    FieldsOf(KeysOf(m), m);
    FieldsNulFree(m);
    NulsOfKey(Fields(KeysOf(m), m));
  }

  /** No other label set has the key of this one. */
  ghost predicate OwnsSeriesKey(m: Labels) {
    forall o: Labels :: SeriesKeyOf(o) == SeriesKeyOf(m) ==> o == m
  }

  lemma SmallSetOwnsKey(m: Labels, o: Labels)
    requires |m| <= 1 && NulFreeLabels(m) && SeriesKeyOf(o) == SeriesKeyOf(m)
    ensures o == m
  {
    NulsWhenFree(m);
    NulsOfLabels(o);
    if |o| == 0 {
      assert o.Keys == {};
      NulsWhenFree(o);
    }
    SeriesKeyInjective(m, o);
  }

  lemma LargeSetShares(m: Labels) returns (other: Labels)
    requires |m| > 1
    ensures other != m && SeriesKeyOf(other) == SeriesKeyOf(m)
  {
    assert m != map[];
    var k, v := ReadAsOnePair(m);
    other := map[k := v];
    SingleKey(k, v);
    assert |other| == 1;
  }

  /** The exact reach of seriesKey: a label set shares its key with no other exactly when it has at most one
      label and no NUL byte. Two or more labels read the same as one whose value holds the others. */
  lemma OwnsSeriesKeyIff(m: Labels)
    ensures OwnsSeriesKey(m) <==> |m| <= 1 && NulFreeLabels(m)
  {
    if |m| > 1 {
      var other := LargeSetShares(m);
    } else if !NulFreeLabels(m) {
      var other := NulCollides(m);
    } else {
      forall o: Labels | SeriesKeyOf(o) == SeriesKeyOf(m)
        ensures o == m
      {
        SmallSetOwnsKey(m, o);
      }
    }
  }
}
