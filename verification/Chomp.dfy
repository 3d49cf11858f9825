/**
 The catalogue and its lookup tables (chomp.cpp, nibble.cpp). A table is a sequence of rows: the
 catalogue labels of a set of stars followed by the features the table is searched by. What SQLite
 does with SQL text is modelled by what the statements ask for.
 */
module Chomps {
  import opened Libm
  import opened Vectors
  import opened Stars
  import opened Sequences

  const TABLE_NOT_CREATED_RET := -1

  datatype Row = Row(labels: seq<int>, features: seq<real>)

  // ---- Range queries

  /** `y_a[k] <= feature k <= y_b[k]` for every column asked for: SQL's BETWEEN is inclusive. */
  predicate InBand(row: Row, low: seq<real>, high: seq<real>) {
    && |row.features| == |low| == |high|
    && forall k :: 0 <= k < |low| ==> low[k] <= row.features[k] <= high[k]
  }

  function RowsInBand(table: seq<Row>, low: seq<real>, high: seq<real>): seq<Row> {
    Filter(row => InBand(row, low, high), table)
  }

  /** A range query returns exactly the rows in the band, each as often as the table holds it. */
  lemma BoundQueryIsExact(table: seq<Row>, low: seq<real>, high: seq<real>, row: Row)
    ensures row in RowsInBand(table, low, high) <==> row in table && InBand(row, low, high)
    ensures multiset(RowsInBand(table, low, high))[row] == if InBand(row, low, high) then multiset(table)[row] else 0
  {
    FilterCounts(r => InBand(r, low, high), table, row);
  }

  // ---- Looking up stars

  ghost predicate Known(hip: seq<Star>, labelId: int) {
    exists s :: s in hip && s.labelId == labelId
  }

  /** The first star with the label. */
  function LookUp(hip: seq<Star>, labelId: int): Result<Star> {
    if hip == [] then Failure("Star does exist with the label")
    else if hip[0].labelId == labelId then Success(hip[0])
    else LookUp(hip[1..], labelId)
  }

  lemma {:induction false} LookUpFinds(hip: seq<Star>, labelId: int)
    ensures LookUp(hip, labelId).Success? <==> Known(hip, labelId)
    ensures LookUp(hip, labelId).Success? ==>
              LookUp(hip, labelId).value in hip && LookUp(hip, labelId).value.labelId == labelId
  {
    if hip != [] {
      LookUpFinds(hip[1..], labelId);
      assert forall s :: s in hip <==> s == hip[0] || s in hip[1..];
    }
  }

  ghost predicate DistinctLabels(s: seq<Star>) {
    forall p, q :: 0 <= p < q < |s| ==> s[p].labelId != s[q].labelId
  }

  /** The bright stars are stars of the main catalogue, and no label is used twice. */
  ghost predicate IsCatalogue(hip: seq<Star>, bright: seq<Star>) {
    && DistinctLabels(hip)
    && DistinctLabels(bright)
    && forall s :: s in bright ==> s in hip
  }

  lemma {:induction false} LookUpUnique(hip: seq<Star>, s: Star)
    requires DistinctLabels(hip) && s in hip
    ensures LookUp(hip, s.labelId) == Success(s)
  {
    LookUpFinds(hip, s.labelId);
    assert Known(hip, s.labelId);
    var found := LookUp(hip, s.labelId).value;
    var p :| 0 <= p < |hip| && hip[p] == found;
    var q :| 0 <= q < |hip| && hip[q] == s;
    assert p == q;
  }

  /** The star with a known label. */
  function StarOf(hip: seq<Star>, labelId: int): (s: Star)
    requires Known(hip, labelId)
    ensures s in hip && s.labelId == labelId
  {
    LookUpFinds(hip, labelId);
    LookUp(hip, labelId).value
  }

  function Nearby(lib: Libm, stars: seq<Star>, focus: Vector3, fov: real): seq<Star> {
    Filter((s: Star) => WithinAngle(lib, focus, s.vector, fov), stars)
  }

  /** The stars of the list closer to the focus than `fov`, each as often as it is listed and in the order
      of the list. */
  lemma NearbyExact(lib: Libm, stars: seq<Star>, focus: Vector3, fov: real, s: Star)
    ensures multiset(Nearby(lib, stars, focus, fov))[s]
         == if Separation(lib, focus, s.vector) < fov then multiset(stars)[s] else 0
    ensures Nearby(lib, [], focus, fov) == []
    ensures Nearby(lib, stars + [s], focus, fov)
         == Nearby(lib, stars, focus, fov) + (if Separation(lib, focus, s.vector) < fov then [s] else [])
  {
    FilterCounts((t: Star) => WithinAngle(lib, focus, t.vector, fov), stars, s);
    FilterOneMore((t: Star) => WithinAngle(lib, focus, t.vector, fov), stars, s);
  }

  /** Every row has `width` labels of catalogue stars and `features` features. */
  ghost predicate KnownRows(table: seq<Row>, hip: seq<Star>, width: nat, features: nat) {
    forall row :: row in table ==> KnownRow(row, hip, width, features)
  }

  ghost predicate KnownRow(row: Row, hip: seq<Star>, width: nat, features: nat) {
    && |row.labels| == width && |row.features| == features
    && forall k :: 0 <= k < width ==> Known(hip, row.labels[k])
  }

  // ---- ORDER BY

  /** Columns are compared from left to right. */
  predicate AtMost(a: seq<real>, b: seq<real>) {
    a == [] || (b != [] && (a[0] < b[0] || (a[0] == b[0] && AtMost(a[1..], b[1..]))))
  }

  lemma {:induction false} AtMostIsTotal(a: seq<real>, b: seq<real>)
    ensures AtMost(a, b) || AtMost(b, a)
  {
    if a != [] && b != [] && a[0] == b[0] {
      AtMostIsTotal(a[1..], b[1..]);
    }
  }

  lemma {:induction false} AtMostIsTransitive(a: seq<real>, b: seq<real>, c: seq<real>)
    requires AtMost(a, b) && AtMost(b, c)
    ensures AtMost(a, c)
  {
    if a != [] && a[0] == b[0] == c[0] {
      AtMostIsTransitive(a[1..], b[1..], c[1..]);
    }
  }

  /** In the first column in which two rows differ, the lesser one has the smaller value. */
  lemma {:induction false} AtMostByColumn(a: seq<real>, b: seq<real>, column: nat)
    requires AtMost(a, b) && column < |a| && column < |b| && a[..column] == b[..column]
    ensures a[column] <= b[column]
    decreases column
  {
    if column > 0 {
      assert a[..column][0] == b[..column][0];
      assert a[1..][..column - 1] == a[..column][1..] == b[..column][1..] == b[1..][..column - 1];
      AtMostByColumn(a[1..], b[1..], column - 1);
    }
  }

  ghost predicate Ordered(rows: seq<Row>) {
    forall k :: 0 <= k < |rows| - 1 ==> AtMost(rows[k].features, rows[k + 1].features)
  }

  lemma {:induction false} OrderedPairs(rows: seq<Row>, k: nat, l: nat)
    requires Ordered(rows) && k < l < |rows|
    ensures AtMost(rows[k].features, rows[l].features)
    decreases l - k
  {
    hide AtMost;
    assert AtMost(rows[k].features, rows[k + 1].features);
    if k + 1 < l {
      OrderedPairs(rows, k + 1, l);
      AtMostIsTransitive(rows[k].features, rows[k + 1].features, rows[l].features);
    }
  }

  /** Ordered rows ascend in the first feature, and where it is the same, in the second, and so on. */
  lemma OrderedAscends(rows: seq<Row>)
    requires Ordered(rows)
    ensures forall k, l, column: nat ::
              0 <= k < l < |rows| && column < |rows[k].features| && column < |rows[l].features|
              && rows[k].features[..column] == rows[l].features[..column] ==>
                rows[k].features[column] <= rows[l].features[column]
  {
    hide Ordered, AtMost;
    forall k, l, column: nat | 0 <= k < l < |rows| && column < |rows[k].features| && column < |rows[l].features|
        && rows[k].features[..column] == rows[l].features[..column]
      ensures rows[k].features[column] <= rows[l].features[column] {
      OrderedPairs(rows, k, l);
      AtMostByColumn(rows[k].features, rows[l].features, column);
    }
  }

  lemma OrderedTail(rows: seq<Row>)
    requires Ordered(rows) && rows != []
    ensures Ordered(rows[1..])
  {
  }

  lemma OrderedCons(row: Row, rows: seq<Row>)
    requires Ordered(rows) && (rows != [] ==> AtMost(row.features, rows[0].features))
    ensures Ordered([row] + rows)
  {
    hide AtMost;
    var all := [row] + rows;
    forall k | 0 <= k < |all| - 1 ensures AtMost(all[k].features, all[k + 1].features) {
      if k > 0 {
        assert all[k] == rows[k - 1] && all[k + 1] == rows[k];
      }
    }
  }

  function InsertRow(row: Row, rows: seq<Row>): seq<Row> {
    if rows == [] then [row]
    else if AtMost(row.features, rows[0].features) then [row] + rows
    else [rows[0]] + InsertRow(row, rows[1..])
  }

  lemma {:induction false} InsertRowCounts(row: Row, rows: seq<Row>)
    ensures multiset(InsertRow(row, rows)) == multiset(rows) + multiset{row}
  {
    if rows != [] {
      assert rows == [rows[0]] + rows[1..];
      InsertRowCounts(row, rows[1..]);
    }
  }

  lemma {:induction false} InsertRowOrdered(row: Row, rows: seq<Row>)
    requires Ordered(rows)
    ensures Ordered(InsertRow(row, rows))
    ensures InsertRow(row, rows)[0] == row || (rows != [] && InsertRow(row, rows)[0] == rows[0])
  {
    hide AtMost;
    if rows != [] {
      if AtMost(row.features, rows[0].features) {
        OrderedCons(row, rows);
      } else {
        AtMostIsTotal(row.features, rows[0].features);
        OrderedTail(rows);
        InsertRowOrdered(row, rows[1..]);
        if |rows| > 1 {
          assert AtMost(rows[0].features, rows[1].features);
        }
        OrderedCons(rows[0], InsertRow(row, rows[1..]));
      }
    }
  }

  function SortRows(rows: seq<Row>): (r: seq<Row>)
    ensures IsPermutation(r, rows)
    ensures Ordered(r)
  {
    if rows == [] then []
    else
      assert rows == [rows[0]] + rows[1..];
      InsertRowCounts(rows[0], SortRows(rows[1..]));
      InsertRowOrdered(rows[0], SortRows(rows[1..]));
      InsertRow(rows[0], SortRows(rows[1..]))
  }

  // ---- The catalogue object

  class Chomp {
    const hip: seq<Star>
    const bright: seq<Star>
    var tables: map<string, seq<Row>>
    var currentTable: string

    constructor (hip: seq<Star>, bright: seq<Star>)
      ensures this.hip == hip && this.bright == bright
      ensures tables == map[]
    {
      this.hip, this.bright := hip, bright;
      tables, currentTable := map[], "";
    }

    method SelectTable(table: string)
      modifies `currentTable
      ensures currentTable == table
    {
      currentTable := table;
    }

    /** The table becomes the current one even when it exists already. */
    method CreateTable(table: string) returns (ret: int)
      modifies this
      ensures currentTable == table
      ensures ret == if table in old(tables) then -1 else 0
      ensures tables == if table in old(tables) then old(tables) else old(tables)[table := []]
    {
      SelectTable(table);
      if table in tables {
        return TABLE_NOT_CREATED_RET;
      }
      tables := tables[table := []];
      return 0;
    }

    method InsertIntoTable(row: Row)
      requires currentTable in tables
      modifies `tables
      ensures tables == old(tables)[currentTable := old(tables[currentTable]) + [row]]
    {
      tables := tables[currentTable := tables[currentTable] + [row]];
    }

    /** Rewrites the table in the order of its features. */
    method SortAndIndex() returns (ret: int)
      requires currentTable in tables
      modifies `tables
      ensures tables.Keys == old(tables.Keys)
      ensures forall t :: t in tables && t != currentTable ==> tables[t] == old(tables)[t]
      ensures IsPermutation(tables[currentTable], old(tables[currentTable])) && Ordered(tables[currentTable])
      ensures var rows := tables[currentTable];
              forall k, l, column: nat ::
                0 <= k < l < |rows| && column < |rows[k].features| && column < |rows[l].features|
                && rows[k].features[..column] == rows[l].features[..column] ==>
                  rows[k].features[column] <= rows[l].features[column]
      ensures ret == 0
    {
      OrderedAscends(SortRows(tables[currentTable]));
      tables := tables[currentTable := SortRows(tables[currentTable])];
      return 0;
    }

    method SimpleBoundQuery(low: seq<real>, high: seq<real>) returns (rows: Result<seq<Row>>)
      ensures rows == if currentTable in tables then Success(RowsInBand(tables[currentTable], low, high))
                      else Failure("no such table")
    {
      if currentTable !in tables {
        return Failure("no such table");
      }
      return Success(RowsInBand(tables[currentTable], low, high));
    }

    /** Throws when no star has the label. */
    method QueryHip(labelId: int) returns (star: Result<Star>)
      ensures star == LookUp(hip, labelId)
      ensures star.Success? <==> Known(hip, labelId)
      ensures star.Success? ==>
                exists i :: && 0 <= i < |hip| && hip[i] == star.value && hip[i].labelId == labelId
                            && forall j :: 0 <= j < i ==> hip[j].labelId != labelId
      ensures star.Failure? ==> forall j :: 0 <= j < |hip| ==> hip[j].labelId != labelId
    {
      LookUpFinds(hip, labelId);
      var i := 0;
      while i < |hip|
        invariant 0 <= i <= |hip|
        invariant LookUp(hip, labelId) == LookUp(hip[i..], labelId)
        invariant forall j :: 0 <= j < i ==> hip[j].labelId != labelId
      {
        if hip[i].labelId == labelId {
          return Success(hip[i]);
        }
        i := i + 1;
      }
      return Failure("Star does exist with the label");
    }

    method NearbyHipStars(lib: Libm, focus: Vector3, fov: real) returns (nearby: seq<Star>)
      ensures nearby == Nearby(lib, hip, focus, fov)
    {
      nearby := NearbyOf(lib, hip, focus, fov);
    }

    method NearbyBrightStars(lib: Libm, focus: Vector3, fov: real) returns (nearby: seq<Star>)
      ensures nearby == Nearby(lib, bright, focus, fov)
    {
      nearby := NearbyOf(lib, bright, focus, fov);
    }

    static method NearbyOf(lib: Libm, stars: seq<Star>, focus: Vector3, fov: real) returns (nearby: seq<Star>)
      ensures nearby == Nearby(lib, stars, focus, fov)
    {
      ghost var near := (s: Star) => WithinAngle(lib, focus, s.vector, fov);
      nearby := [];
      for i := 0 to |stars|
        invariant nearby == Filter(near, stars[..i])
      {
        if WithinAngle(lib, focus, stars[i].vector, fov) {
          nearby := nearby + [stars[i]];
        }
        FilterPrefix(near, stars, i);
      }
      assert stars[..|stars|] == stars;
    }
  }
}
