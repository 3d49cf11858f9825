/** The table of trios of bright stars with their areas and moments (base-triangle.cpp, generate_triangle_table). */
module TrioTables {
  import opened Libm
  import opened Vectors
  import opened Stars
  import opened Sequences
  import opened Enumeration
  import opened Chomps
  import opened Identifications

  /** The two features, as the planar and the spherical method pass them in. */
  datatype Features = Features(Area: (Vector3, Vector3, Vector3) -> real, Moment: (Vector3, Vector3, Vector3) -> real)

  predicate IsTrioOf(bright: seq<Star>, t: IndexTrio) {
    0 <= t.0 < |bright| && 0 <= t.1 < |bright| && 0 <= t.2 < |bright|
  }

  function TrioArea(f: Features, bright: seq<Star>, t: IndexTrio): real
    requires IsTrioOf(bright, t)
  {
    f.Area(bright[t.0].vector, bright[t.1].vector, bright[t.2].vector)
  }

  function TrioMoment(f: Features, bright: seq<Star>, t: IndexTrio): real
    requires IsTrioOf(bright, t)
  {
    f.Moment(bright[t.0].vector, bright[t.1].vector, bright[t.2].vector)
  }

  predicate TrioWithin(lib: Libm, a: Star, b: Star, c: Star, theta: real) {
    && WithinAngle(lib, a.vector, b.vector, theta)
    && WithinAngle(lib, a.vector, c.vector, theta)
    && WithinAngle(lib, b.vector, c.vector, theta)
  }

  lemma TrioWithinIsPairwise(lib: Libm, a: Star, b: Star, c: Star, theta: real)
    ensures (forall i, j :: 0 <= i < j < 3 ==> Separation(lib, [a, b, c][i].vector, [a, b, c][j].vector) < theta)
       <==> TrioWithin(lib, a, b, c, theta)
  {
    var s := [a, b, c];
    assert s[0] == a && s[1] == b && s[2] == c;
  }

  /** Stars within the field of view of each other, with a valid area and a valid moment. */
  predicate TrioFits(lib: Libm, f: Features, bright: seq<Star>, fov: real, t: IndexTrio) {
    && IsTrioOf(bright, t)
    && TrioWithin(lib, bright[t.0], bright[t.1], bright[t.2], fov)
    && TrioArea(f, bright, t) > 0.0
    && TrioMoment(f, bright, t) > 0.0
  }

  function TrioRow(f: Features, bright: seq<Star>, t: IndexTrio): Row {
    if IsTrioOf(bright, t) then
      Row([bright[t.0].labelId, bright[t.1].labelId, bright[t.2].labelId],
          [TrioArea(f, bright, t), TrioMoment(f, bright, t)])
    else
      Row([], [])
  }

  function TrioRowsOf(lib: Libm, f: Features, bright: seq<Star>, fov: real, trios: seq<IndexTrio>): seq<Row> {
    Map((t: IndexTrio) => TrioRow(f, bright, t), Filter((t: IndexTrio) => TrioFits(lib, f, bright, fov, t), trios))
  }

  ghost predicate IsTrioTable(lib: Libm, f: Features, bright: seq<Star>, fov: real, table: seq<Row>) {
    IsPermutation(table, TrioRowsOf(lib, f, bright, fov, Trios(|bright|)))
  }

  lemma TrioRowsOneMore(lib: Libm, f: Features, bright: seq<Star>, fov: real, trios: seq<IndexTrio>, t: IndexTrio)
    ensures TrioRowsOf(lib, f, bright, fov, trios + [t]) ==
            TrioRowsOf(lib, f, bright, fov, trios) + if TrioFits(lib, f, bright, fov, t) then [TrioRow(f, bright, t)]
                else []
  {
    FilterOneMore((u: IndexTrio) => TrioFits(lib, f, bright, fov, u), trios, t);
  }

  /** The rows of the table are exactly those of the fitting trios `i < j < k`. */
  lemma TrioTableMembers(lib: Libm, f: Features, bright: seq<Star>, fov: real, table: seq<Row>, row: Row)
    requires IsTrioTable(lib, f, bright, fov, table)
    ensures row in table <==>
            exists t: IndexTrio :: 0 <= t.0 < t.1 < t.2 < |bright| && TrioFits(lib, f, bright, fov, t)
                && TrioRow(f, bright, t) == row
  {
    var fits := Filter((t: IndexTrio) => TrioFits(lib, f, bright, fov, t), Trios(|bright|));
    PermutationMembers(table, TrioRowsOf(lib, f, bright, fov, Trios(|bright|)));
    MapMembers((t: IndexTrio) => TrioRow(f, bright, t), fits, row);
    FilterAll((t: IndexTrio) => TrioFits(lib, f, bright, fov, t), Trios(|bright|));
    TriosExact(|bright|);
  }

  /** Every fitting trio has exactly one row. */
  lemma FittingTrioHasOneRow(lib: Libm, f: Features, bright: seq<Star>, fov: real, table: seq<Row>, t: IndexTrio)
    requires IsTrioTable(lib, f, bright, fov, table) && DistinctLabels(bright)
    requires 0 <= t.0 < t.1 < t.2 < |bright|
    ensures multiset(table)[TrioRow(f, bright, t)] == if TrioFits(lib, f, bright, fov, t) then 1 else 0
  {
    var keep := (u: IndexTrio) => TrioFits(lib, f, bright, fov, u);
    var row := (u: IndexTrio) => TrioRow(f, bright, u);
    var fits := Filter(keep, Trios(|bright|));
    TriosExact(|bright|);
    FilterAll(keep, Trios(|bright|));
    forall u | u in fits && row(u) == row(t) ensures u == t {
      SameTrioRow(f, bright, u, t);
    }
    MapCounts(row, fits, t);
    FilterDistinct(keep, Trios(|bright|));
    NoDuplicatesCount(fits, t);
  }

  /** Every trio whose stars are within the field of view of each other and whose area and moment are
      positive has exactly one row, with its three labels, its area and its moment; no other has any. */
  lemma TrioTableIsComplete(lib: Libm, f: Features, bright: seq<Star>, fov: real, table: seq<Row>, t: IndexTrio,
                            area: real, moment: real)
    requires IsTrioTable(lib, f, bright, fov, table) && DistinctLabels(bright)
    requires 0 <= t.0 < t.1 < t.2 < |bright|
    requires area == f.Area(bright[t.0].vector, bright[t.1].vector, bright[t.2].vector)
    requires moment == f.Moment(bright[t.0].vector, bright[t.1].vector, bright[t.2].vector)
    ensures multiset(table)[Row([bright[t.0].labelId, bright[t.1].labelId, bright[t.2].labelId], [area, moment])]
         == if && Separation(lib, bright[t.0].vector, bright[t.1].vector) < fov
               && Separation(lib, bright[t.0].vector, bright[t.2].vector) < fov
               && Separation(lib, bright[t.1].vector, bright[t.2].vector) < fov
               && area > 0.0 && moment > 0.0 then 1 else 0
  {
    hide IsTrioTable, Separation;
    FittingTrioHasOneRow(lib, f, bright, fov, table, t);
  }

  lemma SameTrioRow(f: Features, bright: seq<Star>, u: IndexTrio, t: IndexTrio)
    requires DistinctLabels(bright) && IsTrioOf(bright, u) && IsTrioOf(bright, t)
    requires TrioRow(f, bright, u) == TrioRow(f, bright, t)
    ensures u == t
  {
    assert TrioRow(f, bright, u).labels[0] == TrioRow(f, bright, t).labels[0];
    assert TrioRow(f, bright, u).labels[1] == TrioRow(f, bright, t).labels[1];
    assert TrioRow(f, bright, u).labels[2] == TrioRow(f, bright, t).labels[2];
  }

  lemma TrioTableIsKnown(lib: Libm, f: Features, hip: seq<Star>, bright: seq<Star>, fov: real, table: seq<Row>)
    requires IsTrioTable(lib, f, bright, fov, table)
    requires forall s :: s in bright ==> s in hip
    ensures KnownRows(table, hip, 3, 2)
  {
    hide IsTrioTable, TrioWithin;
    forall row | row in table ensures KnownRow(row, hip, 3, 2) {
      TrioTableMembers(lib, f, bright, fov, table, row);
      var t: IndexTrio :| 0 <= t.0 < t.1 < t.2 < |bright| && TrioFits(lib, f, bright, fov, t)
          && TrioRow(f, bright, t) == row;
      assert bright[t.0] in hip && bright[t.1] in hip && bright[t.2] in hip;
    }
  }

  // ---- Generation

  method InsertTrio(lib: Libm, f: Features, ch: Chomp, fov: real, i: nat, j: nat, k: nat, ghost visited: seq<IndexTrio>)
    requires i < |ch.bright| && j < |ch.bright| && k < |ch.bright|
    requires ch.currentTable in ch.tables
    requires ch.tables[ch.currentTable] == TrioRowsOf(lib, f, ch.bright, fov, visited)
    modifies ch`tables
    ensures ch.tables.Keys == old(ch.tables.Keys)
    ensures ch.tables[ch.currentTable] == TrioRowsOf(lib, f, ch.bright, fov, visited + [(i, j, k)])
    ensures forall t :: t in ch.tables && t != ch.currentTable ==> ch.tables[t] == old(ch.tables)[t]
  {
    TrioRowsOneMore(lib, f, ch.bright, fov, visited, (i, j, k));
    TrioWithinIsPairwise(lib, ch.bright[i], ch.bright[j], ch.bright[k], fov);
    var within := WithinAngleOfEachOther(lib, [ch.bright[i], ch.bright[j], ch.bright[k]], fov);
    if within {
      var area := f.Area(ch.bright[i].vector, ch.bright[j].vector, ch.bright[k].vector);
      var moment := f.Moment(ch.bright[i].vector, ch.bright[j].vector, ch.bright[k].vector);
      if area > 0.0 && moment > 0.0 {
        ch.InsertIntoTable(Row([ch.bright[i].labelId, ch.bright[j].labelId, ch.bright[k].labelId], [area, moment]));
      }
    }
  }

  /** Inserts the trios `i < j < k` and sorts the table by area, then moment. With fewer than two
      bright stars the bound `size() - 2` of the source wraps around. */
  method GenerateTriangleTable(lib: Libm, f: Features, ch: Chomp, fov: real, tableName: string) returns (ret: int)
    requires |ch.bright| >= 2
    modifies ch
    ensures tableName in old(ch.tables) ==> ret == -1 && ch.tables == old(ch.tables)
    ensures tableName !in old(ch.tables) ==>
              && ret == 0
              && ch.tables.Keys == old(ch.tables.Keys) + {tableName}
              && IsTrioTable(lib, f, ch.bright, fov, ch.tables[tableName])
              && AscendsByFeatures(ch.tables[tableName])
              && forall t :: t in old(ch.tables) ==> ch.tables[t] == old(ch.tables)[t]
  {
    hide TriosBelow, TriosFrom, TriosAt, TriosVisited, Trios, TrioRowsOf, AscendsByFeatures, Ordered;
    TriosLoopEnds(|ch.bright|);
    var created := ch.CreateTable(tableName);
    if created == TABLE_NOT_CREATED_RET {
      return TABLE_ALREADY_EXISTS;
    }
    ch.SelectTable(tableName);
    var n := |ch.bright|;
    NoRows(lib, f, ch.bright, fov);
    ghost var before := ch.tables;
    ghost var visited: seq<IndexTrio> := [];
    for i := 0 to n - 2
      invariant ch.currentTable == tableName && ch.tables.Keys == before.Keys
      invariant visited == TriosBelow(n, i)
      invariant ch.tables[tableName] == TrioRowsOf(lib, f, ch.bright, fov, visited)
      invariant forall t :: t in before && t != tableName ==> ch.tables[t] == before[t]
    {
      TriosLoops(n, i, i + 1);
      for j := i + 1 to n - 1
        invariant ch.currentTable == tableName && ch.tables.Keys == before.Keys
        invariant visited == TriosBelow(n, i) + TriosFrom(n, i, j)
        invariant ch.tables[tableName] == TrioRowsOf(lib, f, ch.bright, fov, visited)
        invariant forall t :: t in before && t != tableName ==> ch.tables[t] == before[t]
      {
        TriosLoops(n, i, j);
        for k := j + 1 to n
          invariant ch.currentTable == tableName && ch.tables.Keys == before.Keys
          invariant visited == TriosVisited(n, i, j, k)
          invariant ch.tables[tableName] == TrioRowsOf(lib, f, ch.bright, fov, visited)
          invariant forall t :: t in before && t != tableName ==> ch.tables[t] == before[t]
        {
          TriosTurn(n, i, j, k, visited);
          InsertTrio(lib, f, ch, fov, i, j, k, visited);
          visited := visited + [(i, j, k)];
        }
      }
    }
    ret := ch.SortAndIndex();
    RowsAscend(lib, f, ch.bright, fov, ch.tables[tableName]);
  }

  /** No row is followed by one with a smaller area, or with the same area and a smaller moment. */
  ghost predicate AscendsByFeatures(table: seq<Row>) {
    forall k, l :: 0 <= k < l < |table| ==> AscendsAt(table, k, l)
  }

  predicate AscendsAt(table: seq<Row>, k: nat, l: nat)
    requires k < |table| && l < |table|
  {
    && |table[k].features| == 2 && |table[l].features| == 2
    && table[k].features[0] <= table[l].features[0]
    && (table[k].features[0] == table[l].features[0] ==> table[k].features[1] <= table[l].features[1])
  }

  lemma RowsAscend(lib: Libm, f: Features, bright: seq<Star>, fov: real, table: seq<Row>)
    requires IsTrioTable(lib, f, bright, fov, table) && Ordered(table)
    ensures AscendsByFeatures(table)
  {
    hide IsTrioTable, AtMost, Ordered;
    TrioTableIsKnown(lib, f, bright, bright, fov, table);
    OrderedAscends(table);
    forall k, l | 0 <= k < l < |table| ensures AscendsAt(table, k, l) {
      assert KnownRow(table[k], bright, 3, 2) && KnownRow(table[l], bright, 3, 2);
      assert table[k].features[..0] == table[l].features[..0];
      assert table[k].features[..1] == [table[k].features[0]] && table[l].features[..1] == [table[l].features[0]];
    }
  }

  lemma NoRows(lib: Libm, f: Features, bright: seq<Star>, fov: real)
    ensures TrioRowsOf(lib, f, bright, fov, []) == []
  {
  }
}
