/**
 The dashboard's merge of three sparse series into one list of points.
 */
module SparseSeries {
  /** One row of a GROUP BY bucket; buckets are instants, ordered like their ISO strings. */
  datatype Row = Row(bucket: int, count: int)

  datatype Point = Point(bucket: int, flagCreates: int, reportCreates: int, memberJoins: int)

  function Buckets(rows: seq<Row>): set<int> {
    set r | r in rows :: r.bucket
  }

  /** `new Map(rows)`, read with 0 for a missing bucket: the last row of a bucket wins. */
  function CountAt(rows: seq<Row>, bucket: int): int {
    if rows == [] then 0
    else if rows[|rows| - 1].bucket == bucket then rows[|rows| - 1].count
    else CountAt(rows[..|rows| - 1], bucket)
  }

  function Total(rows: seq<Row>): int {
    if rows == [] then 0 else Total(rows[..|rows| - 1]) + rows[|rows| - 1].count
  }

  ghost predicate OnePerBucket(rows: seq<Row>) {
    forall i, j | 0 <= i < j < |rows| :: rows[i].bucket != rows[j].bucket
  }

  ghost predicate Increasing(ks: seq<int>) {
    forall i, j | 0 <= i < j < |ks| :: ks[i] < ks[j]
  }

  function Column(ks: seq<int>, rows: seq<Row>): int {
    if ks == [] then 0 else Column(ks[..|ks| - 1], rows) + CountAt(rows, ks[|ks| - 1])
  }

  // ---------- a column keeps its input's total ----------

  /** Adding the only row of a bucket adds its count at that bucket's point and nowhere else. */
  lemma {:induction false} OneMoreRow(ks: seq<int>, rows: seq<Row>, r: Row)
    requires Increasing(ks) && r.bucket !in Buckets(rows)
    ensures Column(ks, rows + [r]) == Column(ks, rows) + if r.bucket in ks then r.count else 0
  {
    if ks != [] {
      var n := |ks| - 1;
      OneMoreRow(ks[..n], rows, r);
      assert (rows + [r])[..|rows|] == rows;
      assert r.bucket in ks <==> r.bucket in ks[..n] || r.bucket == ks[n];
      if r.bucket == ks[n] {
        assert r.bucket !in ks[..n];
        NoRowNoCount(rows, r.bucket);
      }
    }
  }

  lemma {:induction false} NoRowNoCount(rows: seq<Row>, bucket: int)
    requires bucket !in Buckets(rows)
    ensures CountAt(rows, bucket) == 0
  {
    if rows != [] {
      assert rows[|rows| - 1].bucket in Buckets(rows);
      assert Buckets(rows[..|rows| - 1]) <= Buckets(rows);
      NoRowNoCount(rows[..|rows| - 1], bucket);
    }
  }

  /** With one row per bucket a point shows the count of its bucket's row, and 0 without one. */
  lemma {:induction false} CountIsTheRows(rows: seq<Row>, r: Row)
    requires OnePerBucket(rows) && r in rows
    ensures CountAt(rows, r.bucket) == r.count
    ensures forall b | (forall q | q in rows :: q.bucket != b) :: CountAt(rows, b) == 0
  {
    forall b | (forall q | q in rows :: q.bucket != b) ensures CountAt(rows, b) == 0 {
      NoRowNoCount(rows, b);
    }
    var n := |rows| - 1;
    var k :| 0 <= k < |rows| && rows[k] == r;
    if k < n {
      assert rows[..n][k] == r;
      CountIsTheRows(rows[..n], r);
    }
  }

  lemma {:induction false} EmptyColumn(ks: seq<int>)
    ensures Column(ks, []) == 0
  {
    if ks != [] { EmptyColumn(ks[..|ks| - 1]); }
  }

  lemma {:induction false} ColumnTotal(ks: seq<int>, rows: seq<Row>)
    requires Increasing(ks) && OnePerBucket(rows) && forall b | b in Buckets(rows) :: b in ks
    ensures Column(ks, rows) == Total(rows)
  {
    if rows == [] {
      EmptyColumn(ks);
    } else {
      var n := |rows| - 1;
      var r := rows[n];
      assert rows == rows[..n] + [r];
      assert r.bucket in Buckets(rows) && Buckets(rows[..n]) <= Buckets(rows);
      ColumnTotal(ks, rows[..n]);
      OneMoreRow(ks, rows[..n], r);
    }
  }

  // ---------- the program ----------

  function FlagColumn(points: seq<Point>): int {
    if points == [] then 0 else FlagColumn(points[..|points| - 1]) + points[|points| - 1].flagCreates
  }

  function ReportColumn(points: seq<Point>): int {
    if points == [] then 0 else ReportColumn(points[..|points| - 1]) + points[|points| - 1].reportCreates
  }

  function MemberColumn(points: seq<Point>): int {
    if points == [] then 0 else MemberColumn(points[..|points| - 1]) + points[|points| - 1].memberJoins
  }

  ghost predicate NoRepeats(ks: seq<int>) {
    forall i, j | 0 <= i < j < |ks| :: ks[i] != ks[j]
  }

  /** Adds the buckets of `rows` to a set that remembers insertion order. */
  method AddKeys(keys: seq<int>, rows: seq<Row>) returns (more: seq<int>)
    requires NoRepeats(keys)
    ensures NoRepeats(more) && forall k :: k in more <==> k in keys || k in Buckets(rows)
  {
    more := keys;
    for i := 0 to |rows|
      invariant NoRepeats(more) && forall k :: k in more <==> k in keys || k in Buckets(rows[..i])
    {
      assert rows[..i + 1] == rows[..i] + [rows[i]];
      assert Buckets(rows[..i + 1]) == Buckets(rows[..i]) + {rows[i].bucket};
      if rows[i].bucket !in more { more := more + [rows[i].bucket]; }
    }
    assert rows[..|rows|] == rows;
  }

  method Insert(sorted: seq<int>, key: int) returns (more: seq<int>)
    requires Increasing(sorted) && key !in sorted
    ensures Increasing(more) && forall k :: k in more <==> k in sorted || k == key
  {
    var i := 0;
    while i < |sorted| && sorted[i] < key
      invariant 0 <= i <= |sorted| && forall j | 0 <= j < i :: sorted[j] < key
    {
      i := i + 1;
    }
    more := sorted[..i] + [key] + sorted[i..];
  }

  method Sort(keys: seq<int>) returns (sorted: seq<int>)
    requires NoRepeats(keys)
    ensures Increasing(sorted) && forall k :: k in sorted <==> k in keys
  {
    sorted := [];
    for i := 0 to |keys|
      invariant Increasing(sorted) && forall k :: k in sorted <==> k in keys[..i]
    {
      sorted := Insert(sorted, keys[i]);
    }
  }

  /** The points one after the other, each column filled from its map. */
  method Points(sorted: seq<int>, flagRows: seq<Row>, reportRows: seq<Row>, memberRows: seq<Row>)
    returns (points: seq<Point>)
    ensures |points| == |sorted|
    ensures forall j | 0 <= j < |points| ::
              points[j] == Point(sorted[j], CountAt(flagRows, sorted[j]), CountAt(reportRows, sorted[j]),
                                 CountAt(memberRows, sorted[j]))
  {
    points := [];
    for i := 0 to |sorted|
      invariant |points| == i
      invariant forall j | 0 <= j < i ::
              points[j] == Point(sorted[j], CountAt(flagRows, sorted[j]), CountAt(reportRows, sorted[j]),
                                 CountAt(memberRows, sorted[j]))
    {
      var b := sorted[i];
      points := points + [Point(b, CountAt(flagRows, b), CountAt(reportRows, b), CountAt(memberRows, b))];
    }
  }

  lemma {:induction false} ColumnsOfPoints(points: seq<Point>, ks: seq<int>, fs: seq<Row>, rs: seq<Row>, ms: seq<Row>)
    requires |points| == |ks|
    requires forall j | 0 <= j < |points| ::
               points[j] == Point(ks[j], CountAt(fs, ks[j]), CountAt(rs, ks[j]), CountAt(ms, ks[j]))
    ensures FlagColumn(points) == Column(ks, fs)
    ensures ReportColumn(points) == Column(ks, rs)
    ensures MemberColumn(points) == Column(ks, ms)
  {
    if ks != [] { ColumnsOfPoints(points[..|ks| - 1], ks[..|ks| - 1], fs, rs, ms); }
  }

  /**
   The points are the union of the buckets in strictly increasing order, each
   column shows its own input, and an input with one row per bucket keeps its total.
   */
  method MergeSparseSeries(flagRows: seq<Row>, reportRows: seq<Row>, memberRows: seq<Row>) returns (points: seq<Point>)
    ensures forall i, j | 0 <= i < j < |points| :: points[i].bucket < points[j].bucket
    ensures (set p | p in points :: p.bucket) == Buckets(flagRows) + Buckets(reportRows) + Buckets(memberRows)
    ensures forall p | p in points ::
              && p.flagCreates == CountAt(flagRows, p.bucket)
              && p.reportCreates == CountAt(reportRows, p.bucket)
              && p.memberJoins == CountAt(memberRows, p.bucket)
    ensures OnePerBucket(flagRows) ==> FlagColumn(points) == Total(flagRows)
    ensures OnePerBucket(reportRows) ==> ReportColumn(points) == Total(reportRows)
    ensures OnePerBucket(memberRows) ==> MemberColumn(points) == Total(memberRows)
  {
    var keys := AddKeys([], flagRows);
    keys := AddKeys(keys, reportRows);
    keys := AddKeys(keys, memberRows);
    var sorted := Sort(keys);
    points := Points(sorted, flagRows, reportRows, memberRows);
    ColumnsOfPoints(points, sorted, flagRows, reportRows, memberRows);
    assert (set p | p in points :: p.bucket) == Buckets(flagRows) + Buckets(reportRows) + Buckets(memberRows);
    if OnePerBucket(flagRows) { ColumnTotal(sorted, flagRows); }
    if OnePerBucket(reportRows) { ColumnTotal(sorted, reportRows); }
    if OnePerBucket(memberRows) { ColumnTotal(sorted, memberRows); }
  }
}
