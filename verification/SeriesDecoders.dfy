/** The row-to-series decoders: decodeLabeledSeries (lgtm.go), QueryMetricsTyped and mapStringAt
    (results.go). Their index-map loops are proved against a plain group-by on the rows. */
module SeriesDecoders {
  import opened Wrappers
  import opened Ordering
  import opened LabelKeys

  datatype Point = Point(t: int, v: real)

  datatype Series = Series(labels: Labels, points: seq<Point>)

  /** A decoded row: its grouping key, its label set and its sample. */
  datatype Row = Row(key: Bytes, labels: Labels, point: Point)

  // ---------------------------------------------------------------- the group-by

  predicate Seen(rows: seq<Row>, key: Bytes) {
    exists i :: 0 <= i < |rows| && rows[i].key == key
  }

  /** The rows that show their key for the first time. */
  function Firsts(rows: seq<Row>): seq<Row> {
    if rows == [] then []
    else
      var n := |rows| - 1;
      Firsts(rows[..n]) + (if Seen(rows[..n], rows[n].key) then [] else [rows[n]])
  }

  /** The samples of one key, in row order. */
  function PointsOf(rows: seq<Row>, key: Bytes): seq<Point> {
    if rows == [] then []
    else
      var n := |rows| - 1;
      PointsOf(rows[..n], key) + (if rows[n].key == key then [rows[n].point] else [])
  }

  /** One series per key in order of first appearance, labelled by the first row, with all its points. */
  function GroupBy(rows: seq<Row>): (out: seq<Series>)
    ensures |out| == |Firsts(rows)|
    ensures forall i :: 0 <= i < |out| ==>
              out[i] == Series(Firsts(rows)[i].labels, PointsOf(rows, Firsts(rows)[i].key))
  {
    var f := Firsts(rows);
    seq(|f|, i requires 0 <= i < |f| => Series(f[i].labels, PointsOf(rows, f[i].key)))
  }

  lemma {:induction false} FirstsKeys(rows: seq<Row>)
    ensures forall i, j :: 0 <= i < j < |Firsts(rows)| ==> Firsts(rows)[i].key != Firsts(rows)[j].key
    ensures forall x :: x in Firsts(rows) ==> x in rows
    ensures forall x :: x in rows ==> Seen(Firsts(rows), x.key)
  {
    if rows != [] {
      var n := |rows| - 1;
      FirstsKeys(rows[..n]);
      var f, g := Firsts(rows[..n]), Firsts(rows);
      forall i | 0 <= i < |f|
        ensures g[i] == f[i] && Seen(rows[..n], f[i].key)
      {
        assert f[i] in rows[..n];
      }
      forall x | x in rows
        ensures Seen(g, x.key)
      {
        if x in rows[..n] {
          var i :| 0 <= i < |f| && f[i].key == x.key;
          assert g[i].key == x.key;
        } else if Seen(rows[..n], rows[n].key) {
          var i :| 0 <= i < n && rows[..n][i].key == rows[n].key;
          assert rows[..n][i] in rows[..n];
          var j :| 0 <= j < |f| && f[j].key == rows[n].key;
          assert g[j].key == x.key;
        } else {
          assert g[|f|].key == x.key;
        }
      }
    }
  }

  /** The decoders' working state after some rows: the series so far and where each key's series is. */
  ghost predicate Grouped(index: map<Bytes, nat>, out: seq<Series>, rows: seq<Row>) {
    && out == GroupBy(rows)
    && (forall i :: 0 <= i < |out| ==> Firsts(rows)[i].key in index && index[Firsts(rows)[i].key] == i)
    && (forall key :: key in index ==> index[key] < |out| && Firsts(rows)[index[key]].key == key)
  }

  lemma IndexedIsSeen(index: map<Bytes, nat>, out: seq<Series>, rows: seq<Row>, key: Bytes)
    requires Grouped(index, out, rows)
    ensures key in index <==> Seen(rows, key)
  {
    FirstsKeys(rows);
    if key in index {
      var x := Firsts(rows)[index[key]];
      assert x in rows;
    }
    if Seen(rows, key) {
      var i :| 0 <= i < |rows| && rows[i].key == key;
      assert rows[i] in rows;
      var j :| 0 <= j < |Firsts(rows)| && Firsts(rows)[j].key == key;
    }
  }

  lemma {:induction false} UnseenHasNoPoints(rows: seq<Row>, key: Bytes)
    requires !Seen(rows, key)
    ensures PointsOf(rows, key) == []
  {
    if rows != [] {
      assert rows[|rows| - 1].key != key;
      assert forall i :: 0 <= i < |rows| - 1 ==> rows[..|rows| - 1][i] == rows[i];
      UnseenHasNoPoints(rows[..|rows| - 1], key);
    }
  }

  lemma GroupNext(rows: seq<Row>, row: Row)
    ensures Firsts(rows + [row]) == Firsts(rows) + (if Seen(rows, row.key) then [] else [row])
    ensures forall key :: PointsOf(rows + [row], key) ==
              PointsOf(rows, key) + (if row.key == key then [row.point] else [])
  {
    assert (rows + [row])[..|rows|] == rows;
  }

  lemma UnseenNotFirst(rows: seq<Row>, key: Bytes)
    requires !Seen(rows, key)
    ensures forall x :: x in Firsts(rows) ==> x.key != key
  {
    FirstsKeys(rows);
  }

  lemma GroupOf(rows: seq<Row>, firsts: seq<Row>, out: seq<Series>)
    requires Firsts(rows) == firsts && |out| == |firsts|
    requires forall i :: 0 <= i < |out| ==> out[i] == Series(firsts[i].labels, PointsOf(rows, firsts[i].key))
    ensures GroupBy(rows) == out
  {
  }

  lemma GroupNew(rows: seq<Row>, row: Row)
    requires !Seen(rows, row.key)
    ensures GroupBy(rows + [row]) == GroupBy(rows) + [Series(row.labels, [row.point])]
  {
    GroupNext(rows, row);
    UnseenHasNoPoints(rows, row.key);
    UnseenNotFirst(rows, row.key);
    var f, out := Firsts(rows), GroupBy(rows) + [Series(row.labels, [row.point])];
    forall i | 0 <= i < |out|
      ensures out[i] == Series((f + [row])[i].labels, PointsOf(rows + [row], (f + [row])[i].key))
    {
      if i < |f| {
        assert f[i] in f;
        assert PointsOf(rows + [row], f[i].key) == PointsOf(rows, f[i].key);
      } else {
        assert PointsOf(rows + [row], row.key) == [row.point];
      }
    }
    GroupOf(rows + [row], f + [row], out);
  }

  lemma GroupKnown(rows: seq<Row>, row: Row, si: nat)
    requires Seen(rows, row.key) && si < |Firsts(rows)| && Firsts(rows)[si].key == row.key
    ensures var a := GroupBy(rows);
            GroupBy(rows + [row]) == a[si := a[si].(points := a[si].points + [row.point])]
  {
    GroupNext(rows, row);
    FirstsKeys(rows);
    var f, a := Firsts(rows), GroupBy(rows);
    var out := a[si := a[si].(points := a[si].points + [row.point])];
    forall i | 0 <= i < |out|
      ensures out[i] == Series(f[i].labels, PointsOf(rows + [row], f[i].key))
    {
      assert i != si ==> f[i].key != row.key;
    }
    GroupOf(rows + [row], f, out);
  }

  /** One row of a decode loop: find or start its series, append its point. */
  method AddRow(index: map<Bytes, nat>, out: seq<Series>, row: Row, ghost rows: seq<Row>)
      returns (index': map<Bytes, nat>, out': seq<Series>)
    requires Grouped(index, out, rows)
    ensures Grouped(index', out', rows + [row])
  {
    IndexedIsSeen(index, out, rows, row.key);
    assert Firsts(rows + [row]) == Firsts(rows) + (if Seen(rows, row.key) then [] else [row]) by {
      GroupNext(rows, row);
    }
    index', out' := index, out;
    if row.key !in index' {
      GroupNew(rows, row);
      index' := index'[row.key := |out'|];
      out' := out' + [Series(row.labels, [])];
    } else {
      GroupKnown(rows, row, index'[row.key]);
    }
    var si := index'[row.key];
    out' := out'[si := out'[si].(points := out'[si].points + [row.point])];
  }

  // ---------------------------------------------------------------- the decoders

  function Flatten<T>(batches: seq<seq<T>>): seq<T> {
    if batches == [] then [] else Flatten(batches[..|batches| - 1]) + batches[|batches| - 1]
  }

  /** A Map<Utf8,Utf8> cell; a later entry overwrites an earlier one with the same key. */
  function MapOf(entries: seq<(Bytes, Bytes)>): Labels {
    if entries == [] then map[]
    else MapOf(entries[..|entries| - 1])[entries[|entries| - 1].0 := entries[|entries| - 1].1]
  }

  /** `m` holds exactly the keys of the entries, each with the value of its last entry. */
  ghost predicate LastEntryWins(entries: seq<(Bytes, Bytes)>, m: Labels) {
    && (forall i :: 0 <= i < |entries| ==> entries[i].0 in m)
    && (forall k :: k in m ==> exists i :: LastEntry(entries, k, i) && m[k] == entries[i].1)
  }

  ghost predicate LastEntry(entries: seq<(Bytes, Bytes)>, k: Bytes, i: int) {
    0 <= i < |entries| && entries[i].0 == k && forall j :: i < j < |entries| ==> entries[j].0 != k
  }

  lemma {:induction false} MapOfLastWins(entries: seq<(Bytes, Bytes)>)
    ensures LastEntryWins(entries, MapOf(entries))
  {
    if entries != [] {
      var n := |entries| - 1;
      MapOfLastWins(entries[..n]);
      var before, m := MapOf(entries[..n]), MapOf(entries);
      forall k | k in m
        ensures exists i :: LastEntry(entries, k, i) && m[k] == entries[i].1
      {
        if k == entries[n].0 {
          assert LastEntry(entries, k, n);
        } else {
          var i :| LastEntry(entries[..n], k, i) && before[k] == entries[..n][i].1;
          assert LastEntry(entries, k, i);
        }
      }
    }
  }

  /** Only one map reads the entries that way. */
  lemma LastWinsUnique(entries: seq<(Bytes, Bytes)>, a: Labels, b: Labels)
    requires LastEntryWins(entries, a) && LastEntryWins(entries, b)
    ensures a == b
  {
    forall k | k in a
      ensures k in b && a[k] == b[k]
    {
      var i :| LastEntry(entries, k, i) && a[k] == entries[i].1;
      var j :| LastEntry(entries, k, j) && b[k] == entries[j].1;
    }
    forall k | k in b
      ensures k in a
    {
      var j :| LastEntry(entries, k, j) && b[k] == entries[j].1;
    }
  }

  /** mapStringAt */
  method MapStringAt(entries: seq<(Bytes, Bytes)>) returns (m: Labels)
    ensures LastEntryWins(entries, m)
    ensures m == MapOf(entries)
  {
    MapOfLastWins(entries);
    m := map[];
    for j := 0 to |entries|
      invariant m == MapOf(entries[..j])
    {
      assert entries[..j + 1][..j] == entries[..j];
      m := m[entries[j].0 := entries[j].1];
    }
    assert entries[..|entries|] == entries;
  }

  /** A labels|ts|value row. */
  datatype LabeledRow = LabeledRow(labels: seq<(Bytes, Bytes)>, ts: int, value: real)

  ghost function LabeledRowOf(r: LabeledRow): Row {
    Row(SeriesKeyOf(MapOf(r.labels)), MapOf(r.labels), Point(r.ts, r.value))
  }

  ghost function LabeledRows(rows: seq<LabeledRow>): (out: seq<Row>)
    ensures |out| == |rows| && forall i :: 0 <= i < |rows| ==> out[i] == LabeledRowOf(rows[i])
  {
    seq(|rows|, i requires 0 <= i < |rows| => LabeledRowOf(rows[i]))
  }

  /** decodeLabeledSeries's reading of one row. */
  method ReadLabeledRow(r: LabeledRow) returns (row: Row)
    ensures row == LabeledRowOf(r)
  {
    var m := MapStringAt(r.labels);
    var key := SeriesKey(m);
    row := Row(key, m, Point(r.ts, r.value));
  }

  lemma FlattenNext<T>(batches: seq<seq<T>>, b: nat)
    requires b < |batches|
    ensures Flatten(batches[..b + 1]) == Flatten(batches[..b]) + batches[b]
  {
    assert batches[..b + 1][..b] == batches[..b];
  }

  /** A bucket|g0..gN|v row of a metric query grouped by N+1 names. */
  datatype MetricRow = MetricRow(groups: seq<Bytes>, bucket: int, v: real)

  ghost predicate Shaped(names: seq<Bytes>, rows: seq<MetricRow>) {
    forall i :: 0 <= i < |rows| ==> |rows[i].groups| == |names|
  }

  ghost function MetricRowOf(names: seq<Bytes>, r: MetricRow): Row
    requires |r.groups| == |names|
  {
    Row(Terminate(r.groups), LabelMap(names, r.groups), Point(r.bucket, r.v))
  }

  ghost function MetricRows(names: seq<Bytes>, rows: seq<MetricRow>): (out: seq<Row>)
    requires Shaped(names, rows)
    ensures |out| == |rows| && forall i :: 0 <= i < |rows| ==> out[i] == MetricRowOf(names, rows[i])
  {
    seq(|rows|, i requires 0 <= i < |rows| && |rows[i].groups| == |names| => MetricRowOf(names, rows[i]))
  }

  /** QueryMetricsTyped's reading of one row. */
  method ReadMetricRow(names: seq<Bytes>, r: MetricRow) returns (row: Row)
    requires |r.groups| == |names|
    ensures row == MetricRowOf(names, r)
  {
    var labels, key := LabelsAt(names, r.groups);
    row := Row(key, labels, Point(r.bucket, r.v));
  }

  lemma {:induction false} ShapedFlat(names: seq<Bytes>, batches: seq<seq<MetricRow>>)
    requires forall b :: 0 <= b < |batches| ==> Shaped(names, batches[b])
    ensures Shaped(names, Flatten(batches))
  {
    if batches != [] {
      ShapedFlat(names, batches[..|batches| - 1]);
    }
  }

  // ---------------------------------------------------------------- what the group-by guarantees

  function TotalPoints(out: seq<Series>): nat {
    if out == [] then 0 else TotalPoints(out[..|out| - 1]) + |out[|out| - 1].points|
  }

  lemma {:induction false} TotalUpdate(a: seq<Series>, b: seq<Series>, si: nat)
    requires |a| == |b| && si < |a| && |b[si].points| == |a[si].points| + 1
    requires forall i :: 0 <= i < |a| && i != si ==> a[i] == b[i]
    ensures TotalPoints(b) == TotalPoints(a) + 1
  {
    var n := |a| - 1;
    if si < n {
      TotalUpdate(a[..n], b[..n], si);
    } else {
      assert a[..n] == b[..n];
    }
  }

  /** Conservation: the series hold as many points as there are rows. */
  lemma {:induction false} PointsConserved(rows: seq<Row>)
    ensures TotalPoints(GroupBy(rows)) == |rows|
  {
    if rows != [] {
      var before, row := rows[..|rows| - 1], rows[|rows| - 1];
      PointsConserved(before);
      assert rows == before + [row];
      if Seen(before, row.key) {
        FirstsKeys(before);
        var i :| 0 <= i < |before| && before[i].key == row.key;
        assert before[i] in before;
        var si :| 0 <= si < |Firsts(before)| && Firsts(before)[si].key == row.key;
        GroupKnown(before, row, si);
        TotalUpdate(GroupBy(before), GroupBy(rows), si);
      } else {
        GroupNew(before, row);
        assert GroupBy(rows)[..|GroupBy(rows)| - 1] == GroupBy(before);
      }
    }
  }

  /** Same key exactly when same label set, as `SeriesKeyInjective` and `KeyStandsForLabels` give it. */
  ghost predicate KeysTellLabels(rows: seq<Row>) {
    forall x, y :: x in rows && y in rows ==> (x.key == y.key <==> x.labels == y.labels)
  }

  /** The samples of one label set, in row order. */
  function LabelPoints(rows: seq<Row>, labels: Labels): seq<Point> {
    if rows == [] then []
    else
      var n := |rows| - 1;
      LabelPoints(rows[..n], labels) + (if rows[n].labels == labels then [rows[n].point] else [])
  }

  lemma {:induction false} KeyPointsAreLabelPoints(rows: seq<Row>, all: seq<Row>, x: Row)
    requires KeysTellLabels(all) && x in all && forall y :: y in rows ==> y in all
    ensures PointsOf(rows, x.key) == LabelPoints(rows, x.labels)
  {
    if rows != [] {
      KeyPointsAreLabelPoints(rows[..|rows| - 1], all, x);
      assert rows[|rows| - 1] in all;
    }
  }

  /** When keys tell label sets apart, series and label sets correspond one to one: no two series share
      their labels, each holds exactly the rows of its label set in row order, and every row is in one. */
  lemma OneSeriesPerLabelSet(rows: seq<Row>)
    requires KeysTellLabels(rows)
    ensures var out := GroupBy(rows);
            && (forall i, j :: 0 <= i < j < |out| ==> out[i].labels != out[j].labels)
            && (forall i :: 0 <= i < |out| ==> out[i].points == LabelPoints(rows, out[i].labels))
            && (forall x :: x in rows ==> exists i :: 0 <= i < |out| && out[i].labels == x.labels)
  {
    var f, out := Firsts(rows), GroupBy(rows);
    FirstsKeys(rows);
    forall i, j | 0 <= i < j < |out|
      ensures out[i].labels != out[j].labels
    {
      assert f[i] in rows && f[j] in rows;
    }
    forall i | 0 <= i < |out|
      ensures out[i].points == LabelPoints(rows, out[i].labels)
    {
      assert f[i] in rows;
      KeyPointsAreLabelPoints(rows, rows, f[i]);
    }
    forall x | x in rows
      ensures exists i :: 0 <= i < |out| && out[i].labels == x.labels
    {
      var i :| 0 <= i < |f| && f[i].key == x.key;
      assert f[i] in rows;
      assert out[i].labels == x.labels;
    }
  }

  /** Both decoders produce such rows: PromQL/LogQL rows with NUL-free labels ... */
  lemma LabeledKeysTell(rows: seq<LabeledRow>)
    requires forall i :: 0 <= i < |rows| ==> NulFreeLabels(MapOf(rows[i].labels))
    ensures KeysTellLabels(LabeledRows(rows))
  {
    var out := LabeledRows(rows);
    forall x, y | x in out && y in out
      ensures x.key == y.key <==> x.labels == y.labels
    {
      var i :| 0 <= i < |out| && out[i] == x;
      var j :| 0 <= j < |out| && out[j] == y;
      SeriesKeyInjective(MapOf(rows[i].labels), MapOf(rows[j].labels));
    }
  }

  /** ... and metric rows under any GroupBy names, with NUL-free groups unless there is only one name. */
  lemma MetricKeysTell(names: seq<Bytes>, rows: seq<MetricRow>)
    requires forall i :: 0 <= i < |rows| ==> OneValuePerName(names, rows[i].groups)
    requires |names| <= 1 || forall i :: 0 <= i < |rows| ==> NulFreeTuple(rows[i].groups)
    ensures Shaped(names, rows) && KeysTellLabels(MetricRows(names, rows))
  {
    var out := MetricRows(names, rows);
    forall x, y | x in out && y in out
      ensures x.key == y.key <==> x.labels == y.labels
    {
      var i :| 0 <= i < |out| && out[i] == x;
      var j :| 0 <= j < |out| && out[j] == y;
      KeyStandsForLabels(names, rows[i].groups, rows[j].groups);
      assert KeyMatchesLabels(names, rows[i].groups, rows[j].groups);
    }
  }

  /** The first row of an earlier series stands before every row of a later one. */
  lemma {:induction false} FirstsOrder(rows: seq<Row>, i: nat, j: nat, b: nat) returns (a: nat)
    requires i < j < |Firsts(rows)| && b < |rows| && rows[b].key == Firsts(rows)[j].key
    ensures a < b && rows[a].key == Firsts(rows)[i].key
  {
    var n := |rows| - 1;
    var before, f := rows[..n], Firsts(rows[..n]);
    FirstsKeys(before);
    assert Firsts(rows)[i] == f[i] && f[i] in before;
    if b < n && j < |f| {
      assert before[b] == rows[b];
      a := FirstsOrder(before, i, j, b);
    } else {
      NewRowIsLast(rows, j, b);
      a :| 0 <= a < |before| && before[a] == f[i];
    }
  }

  lemma NewRowIsLast(rows: seq<Row>, j: nat, b: nat)
    requires rows != [] && j < |Firsts(rows)| && b < |rows| && rows[b].key == Firsts(rows)[j].key
    requires b == |rows| - 1 || j >= |Firsts(rows[..|rows| - 1])|
    ensures b == |rows| - 1
  {
    var n := |rows| - 1;
    assert forall i :: 0 <= i < n ==> rows[..n][i] == rows[i];
  }

  /** Series stand in the order in which their label sets first appear. */
  lemma SeriesInOrder(rows: seq<Row>, i: nat, j: nat, b: nat) returns (a: nat)
    requires KeysTellLabels(rows) && i < j < |GroupBy(rows)| && b < |rows|
    requires rows[b].labels == GroupBy(rows)[j].labels
    ensures a < b && rows[a].labels == GroupBy(rows)[i].labels
  {
    var f := Firsts(rows);
    FirstsKeys(rows);
    assert f[i] in rows && f[j] in rows && rows[b] in rows;
    a := FirstsOrder(rows, i, j, b);
    assert rows[a] in rows;
  }

  lemma SeriesHasRow(rows: seq<Row>, i: nat) returns (b: nat)
    requires i < |GroupBy(rows)|
    ensures b < |rows| && rows[b].labels == GroupBy(rows)[i].labels
  {
    FirstsKeys(rows);
    assert Firsts(rows)[i] in rows;
    b :| 0 <= b < |rows| && rows[b] == Firsts(rows)[i];
  }

  // ---------------------------------------------------------------- decodeLabeledSeries

  ghost predicate Reads(r: LabeledRow, m: Labels) {
    LastEntryWins(r.labels, m)
  }

  ghost predicate NulFreeRows(rows: seq<LabeledRow>) {
    forall i, m :: 0 <= i < |rows| && Reads(rows[i], m) ==> NulFreeLabels(m)
  }

  /** The samples of the rows whose labels read as `m`, in row order. */
  ghost function SamplesOf(rows: seq<LabeledRow>, m: Labels): seq<Point> {
    if rows == [] then []
    else
      var r := rows[|rows| - 1];
      SamplesOf(rows[..|rows| - 1], m) + (if Reads(r, m) then [Point(r.ts, r.value)] else [])
  }

  /** Some row before `b` reads as `m`. */
  ghost predicate ReadBefore(rows: seq<LabeledRow>, m: Labels, b: int) {
    exists a :: 0 <= a < b && a < |rows| && Reads(rows[a], m)
  }

  ghost predicate InSeries(rows: seq<LabeledRow>, out: seq<Series>, b: int, i: int) {
    0 <= b < |rows| && 0 <= i < |out| && Reads(rows[b], out[i].labels)
  }

  ghost predicate HasSeries(rows: seq<LabeledRow>, out: seq<Series>, b: int) {
    exists i :: InSeries(rows, out, b, i)
  }

  /** The answer in terms of the input rows: every row is in exactly one series, the one its labels read as;
      a series holds the samples of exactly its rows in row order; series stand in order of appearance. */
  ghost predicate IsSeriesOf(rows: seq<LabeledRow>, out: seq<Series>) {
    && (forall b :: 0 <= b < |rows| ==> HasSeries(rows, out, b))
    && (forall b, i, j :: InSeries(rows, out, b, i) && InSeries(rows, out, b, j) ==> i == j)
    && (forall i :: 0 <= i < |out| ==> ReadBefore(rows, out[i].labels, |rows|))
    && (forall i :: 0 <= i < |out| ==> out[i].points == SamplesOf(rows, out[i].labels))
    && (forall i, j, b :: 0 <= i < j < |out| && 0 <= b < |rows| && Reads(rows[b], out[j].labels) ==>
          ReadBefore(rows, out[i].labels, b))
  }

  lemma ReadsIs(r: LabeledRow, m: Labels)
    ensures Reads(r, m) <==> m == LabeledRowOf(r).labels
  {
    MapOfLastWins(r.labels);
    if Reads(r, m) {
      LastWinsUnique(r.labels, m, MapOf(r.labels));
    }
  }

  lemma {:induction false} SamplesAreLabelPoints(rows: seq<LabeledRow>, m: Labels)
    ensures SamplesOf(rows, m) == LabelPoints(LabeledRows(rows), m)
  {
    if rows != [] {
      var n := |rows| - 1;
      SamplesAreLabelPoints(rows[..n], m);
      ReadsIs(rows[n], m);
      assert LabeledRows(rows)[..n] == LabeledRows(rows[..n]);
    }
  }

  lemma LabeledPartition(rows: seq<LabeledRow>, out: seq<Series>)
    requires KeysTellLabels(LabeledRows(rows)) && out == GroupBy(LabeledRows(rows))
    ensures forall b :: 0 <= b < |rows| ==> HasSeries(rows, out, b)
    ensures forall b, i, j :: InSeries(rows, out, b, i) && InSeries(rows, out, b, j) ==> i == j
  {
    var all := LabeledRows(rows);
    OneSeriesPerLabelSet(all);
    forall b | 0 <= b < |rows|
      ensures HasSeries(rows, out, b)
    {
      assert all[b] in all;
      var i :| 0 <= i < |out| && out[i].labels == all[b].labels;
      ReadsIs(rows[b], out[i].labels);
      assert InSeries(rows, out, b, i);
    }
    forall b, i, j | InSeries(rows, out, b, i) && InSeries(rows, out, b, j)
      ensures i == j
    {
      ReadsIs(rows[b], out[i].labels);
      ReadsIs(rows[b], out[j].labels);
    }
  }

  lemma LabeledOrder(rows: seq<LabeledRow>, out: seq<Series>)
    requires KeysTellLabels(LabeledRows(rows)) && out == GroupBy(LabeledRows(rows))
    ensures forall i :: 0 <= i < |out| ==> ReadBefore(rows, out[i].labels, |rows|)
    ensures forall i, j, b :: 0 <= i < j < |out| && 0 <= b < |rows| && Reads(rows[b], out[j].labels) ==>
              ReadBefore(rows, out[i].labels, b)
  {
    var all := LabeledRows(rows);
    forall i | 0 <= i < |out|
      ensures ReadBefore(rows, out[i].labels, |rows|)
    {
      var b := SeriesHasRow(all, i);
      ReadsIs(rows[b], out[i].labels);
    }
    forall i, j, b | 0 <= i < j < |out| && 0 <= b < |rows| && Reads(rows[b], out[j].labels)
      ensures ReadBefore(rows, out[i].labels, b)
    {
      ReadsIs(rows[b], out[j].labels);
      var a := SeriesInOrder(all, i, j, b);
      ReadsIs(rows[a], out[i].labels);
    }
  }

  lemma LabeledSeriesIs(rows: seq<LabeledRow>)
    requires NulFreeRows(rows)
    ensures IsSeriesOf(rows, GroupBy(LabeledRows(rows)))
  {
    var all, out := LabeledRows(rows), GroupBy(LabeledRows(rows));
    forall i | 0 <= i < |rows|
      ensures NulFreeLabels(MapOf(rows[i].labels))
    {
      ReadsIs(rows[i], MapOf(rows[i].labels));
    }
    LabeledKeysTell(rows);
    LabeledPartition(rows, out);
    LabeledOrder(rows, out);
    OneSeriesPerLabelSet(all);
    forall i | 0 <= i < |out|
      ensures out[i].points == SamplesOf(rows, out[i].labels)
    {
      SamplesAreLabelPoints(rows, out[i].labels);
    }
  }

  lemma LabeledRowsNext(before: seq<LabeledRow>, rec: seq<LabeledRow>, i: nat)
    requires i < |rec|
    ensures LabeledRows(before + rec[..i + 1]) == LabeledRows(before + rec[..i]) + [LabeledRowOf(rec[i])]
  {
    assert before + rec[..i + 1] == before + rec[..i] + [rec[i]];
  }

  /** decodeLabeledSeries's inner loop, over the rows of one batch. */
  method DecodeLabeledBatch(index: map<Bytes, nat>, out: seq<Series>, rec: seq<LabeledRow>,
                            ghost before: seq<LabeledRow>)
      returns (index': map<Bytes, nat>, out': seq<Series>)
    requires Grouped(index, out, LabeledRows(before))
    ensures Grouped(index', out', LabeledRows(before + rec))
  {
    index', out' := index, out;
    assert before + rec[..0] == before;
    for i := 0 to |rec|
      invariant Grouped(index', out', LabeledRows(before + rec[..i]))
    {
      var row := ReadLabeledRow(rec[i]);
      LabeledRowsNext(before, rec, i);
      index', out' := AddRow(index', out', row, LabeledRows(before + rec[..i]));
    }
    assert rec[..|rec|] == rec;
  }

  /** decodeLabeledSeries over a stream that yields `batches` and then ends with `ending`. */
  method DecodeLabeledSeries(batches: seq<seq<LabeledRow>>, ending: Option<string>)
      returns (r: Result<seq<Series>, string>)
    ensures ending == None && NulFreeRows(Flatten(batches)) ==> r.Ok? && IsSeriesOf(Flatten(batches), r.value)
    ensures ending == None ==> r == Ok(GroupBy(LabeledRows(Flatten(batches))))
    ensures ending.Some? ==> r == Err(ending.value)
  {
    var index: map<Bytes, nat>, out: seq<Series> := map[], [];
    for b := 0 to |batches|
      invariant Grouped(index, out, LabeledRows(Flatten(batches[..b])))
    {
      FlattenNext(batches, b);
      index, out := DecodeLabeledBatch(index, out, batches[b], Flatten(batches[..b]));
    }
    assert batches[..|batches|] == batches;
    if ending.Some? {
      return Err(ending.value);
    }
    if NulFreeRows(Flatten(batches)) {
      LabeledSeriesIs(Flatten(batches));
    }
    return Ok(out);
  }

  // ---------------------------------------------------------------- QueryMetricsTyped

  /** Rows as the engine returns them: one value per name, and no NUL where there are several names. */
  ghost predicate PlainRows(names: seq<Bytes>, rows: seq<MetricRow>) {
    && (forall b :: 0 <= b < |rows| ==> OneValuePerName(names, rows[b].groups))
    && (|names| <= 1 || forall b :: 0 <= b < |rows| ==> NulFreeTuple(rows[b].groups))
  }

  ghost predicate MetricReads(names: seq<Bytes>, r: MetricRow, m: Labels) {
    |r.groups| == |names| && ColumnsRead(names, r.groups, m)
  }

  ghost function MetricSamplesOf(names: seq<Bytes>, rows: seq<MetricRow>, m: Labels): seq<Point> {
    if rows == [] then []
    else
      var r := rows[|rows| - 1];
      MetricSamplesOf(names, rows[..|rows| - 1], m)
      + (if MetricReads(names, r, m) then [Point(r.bucket, r.v)] else [])
  }

  ghost predicate MetricReadBefore(names: seq<Bytes>, rows: seq<MetricRow>, m: Labels, b: int) {
    exists a :: 0 <= a < b && a < |rows| && MetricReads(names, rows[a], m)
  }

  ghost predicate InMatrix(names: seq<Bytes>, rows: seq<MetricRow>, out: seq<Series>, b: int, i: int) {
    0 <= b < |rows| && 0 <= i < |out| && MetricReads(names, rows[b], out[i].labels)
  }

  ghost predicate HasMatrixSeries(names: seq<Bytes>, rows: seq<MetricRow>, out: seq<Series>, b: int) {
    exists i :: InMatrix(names, rows, out, b, i)
  }

  /** The same answer for metric rows, whose labels are the GroupBy names with the row's columns. */
  ghost predicate IsMatrixOf(names: seq<Bytes>, rows: seq<MetricRow>, out: seq<Series>) {
    && (forall b :: 0 <= b < |rows| ==> HasMatrixSeries(names, rows, out, b))
    && (forall b, i, j :: InMatrix(names, rows, out, b, i) && InMatrix(names, rows, out, b, j) ==> i == j)
    && (forall i :: 0 <= i < |out| ==> MetricReadBefore(names, rows, out[i].labels, |rows|))
    && (forall i :: 0 <= i < |out| ==> out[i].points == MetricSamplesOf(names, rows, out[i].labels))
    && (forall i, j, b :: 0 <= i < j < |out| && 0 <= b < |rows| && MetricReads(names, rows[b], out[j].labels) ==>
          MetricReadBefore(names, rows, out[i].labels, b))
  }

  lemma {:induction false} MetricSamplesArePoints(names: seq<Bytes>, rows: seq<MetricRow>, m: Labels)
    requires PlainRows(names, rows) && Shaped(names, rows)
    ensures MetricSamplesOf(names, rows, m) == LabelPoints(MetricRows(names, rows), m)
  {
    if rows != [] {
      var n := |rows| - 1;
      MetricSamplesArePoints(names, rows[..n], m);
      LabelMapReads(names, rows[n].groups, m);
      assert MetricRows(names, rows)[..n] == MetricRows(names, rows[..n]);
    }
  }

  lemma MetricPartition(names: seq<Bytes>, rows: seq<MetricRow>, out: seq<Series>)
    requires PlainRows(names, rows) && Shaped(names, rows)
    requires KeysTellLabels(MetricRows(names, rows)) && out == GroupBy(MetricRows(names, rows))
    ensures forall b :: 0 <= b < |rows| ==> HasMatrixSeries(names, rows, out, b)
    ensures forall b, i, j :: InMatrix(names, rows, out, b, i) && InMatrix(names, rows, out, b, j) ==> i == j
  {
    var all := MetricRows(names, rows);
    OneSeriesPerLabelSet(all);
    forall b | 0 <= b < |rows|
      ensures HasMatrixSeries(names, rows, out, b)
    {
      assert all[b] in all;
      var i :| 0 <= i < |out| && out[i].labels == all[b].labels;
      LabelMapReads(names, rows[b].groups, out[i].labels);
      assert InMatrix(names, rows, out, b, i);
    }
    forall b, i, j | InMatrix(names, rows, out, b, i) && InMatrix(names, rows, out, b, j)
      ensures i == j
    {
      LabelMapReads(names, rows[b].groups, out[i].labels);
      LabelMapReads(names, rows[b].groups, out[j].labels);
    }
  }

  lemma MetricOrder(names: seq<Bytes>, rows: seq<MetricRow>, out: seq<Series>)
    requires PlainRows(names, rows) && Shaped(names, rows)
    requires KeysTellLabels(MetricRows(names, rows)) && out == GroupBy(MetricRows(names, rows))
    ensures forall i :: 0 <= i < |out| ==> MetricReadBefore(names, rows, out[i].labels, |rows|)
    ensures forall i, j, b :: 0 <= i < j < |out| && 0 <= b < |rows| && MetricReads(names, rows[b], out[j].labels) ==>
              MetricReadBefore(names, rows, out[i].labels, b)
  {
    var all := MetricRows(names, rows);
    forall i | 0 <= i < |out|
      ensures MetricReadBefore(names, rows, out[i].labels, |rows|)
    {
      var b := SeriesHasRow(all, i);
      LabelMapReads(names, rows[b].groups, out[i].labels);
    }
    forall i, j, b | 0 <= i < j < |out| && 0 <= b < |rows| && MetricReads(names, rows[b], out[j].labels)
      ensures MetricReadBefore(names, rows, out[i].labels, b)
    {
      LabelMapReads(names, rows[b].groups, out[j].labels);
      var a := SeriesInOrder(all, i, j, b);
      LabelMapReads(names, rows[a].groups, out[i].labels);
    }
  }

  lemma MatrixIs(names: seq<Bytes>, rows: seq<MetricRow>)
    requires PlainRows(names, rows) && Shaped(names, rows)
    ensures IsMatrixOf(names, rows, GroupBy(MetricRows(names, rows)))
  {
    var all, out := MetricRows(names, rows), GroupBy(MetricRows(names, rows));
    MetricKeysTell(names, rows);
    MetricPartition(names, rows, out);
    MetricOrder(names, rows, out);
    OneSeriesPerLabelSet(all);
    forall i | 0 <= i < |out|
      ensures out[i].points == MetricSamplesOf(names, rows, out[i].labels)
    {
      MetricSamplesArePoints(names, rows, out[i].labels);
    }
  }

  lemma MetricRowsNext(names: seq<Bytes>, before: seq<MetricRow>, rec: seq<MetricRow>, i: nat)
    requires Shaped(names, before) && Shaped(names, rec) && i < |rec|
    ensures Shaped(names, before + rec[..i]) && Shaped(names, before + rec[..i + 1])
    ensures MetricRows(names, before + rec[..i + 1]) ==
            MetricRows(names, before + rec[..i]) + [MetricRowOf(names, rec[i])]
  {
    assert before + rec[..i + 1] == before + rec[..i] + [rec[i]];
  }

  /** QueryMetricsTyped's inner loop, over the rows of one batch. */
  method DecodeMetricBatch(names: seq<Bytes>, index: map<Bytes, nat>, out: seq<Series>, rec: seq<MetricRow>,
                           ghost before: seq<MetricRow>)
      returns (index': map<Bytes, nat>, out': seq<Series>)
    requires Shaped(names, before) && Shaped(names, rec) && Grouped(index, out, MetricRows(names, before))
    ensures Shaped(names, before + rec) && Grouped(index', out', MetricRows(names, before + rec))
  {
    index', out' := index, out;
    assert before + rec[..0] == before;
    for i := 0 to |rec|
      invariant Shaped(names, before + rec[..i])
      invariant Grouped(index', out', MetricRows(names, before + rec[..i]))
    {
      var row := ReadMetricRow(names, rec[i]);
      MetricRowsNext(names, before, rec, i);
      index', out' := AddRow(index', out', row, MetricRows(names, before + rec[..i]));
    }
    assert rec[..|rec|] == rec;
  }

  /** QueryMetricsTyped over a stream that yields `batches` and then ends with `ending`. */
  method QueryMetricsTyped(names: seq<Bytes>, batches: seq<seq<MetricRow>>, ending: Option<string>)
      returns (r: Result<seq<Series>, string>)
    requires forall b :: 0 <= b < |batches| ==> Shaped(names, batches[b])
    ensures Shaped(names, Flatten(batches))
    ensures ending == None && PlainRows(names, Flatten(batches)) ==>
              r.Ok? && IsMatrixOf(names, Flatten(batches), r.value)
    ensures ending == None ==> r == Ok(GroupBy(MetricRows(names, Flatten(batches))))
    ensures ending.Some? ==> r == Err(ending.value)
  {
    ShapedFlat(names, batches);
    var index: map<Bytes, nat>, out: seq<Series> := map[], [];
    for b := 0 to |batches|
      invariant Shaped(names, Flatten(batches[..b]))
      invariant Grouped(index, out, MetricRows(names, Flatten(batches[..b])))
    {
      FlattenNext(batches, b);
      index, out := DecodeMetricBatch(names, index, out, batches[b], Flatten(batches[..b]));
    }
    assert batches[..|batches|] == batches;
    if ending.Some? {
      return Err(ending.value);
    }
    if PlainRows(names, Flatten(batches)) {
      MatrixIs(names, Flatten(batches));
    }
    return Ok(out);
  }
}
