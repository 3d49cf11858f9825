/** The table of pairs of bright stars and their angles (angle.cpp, generate_table). */
module PairTables {
  import opened Libm
  import opened Stars
  import opened Sequences
  import opened Enumeration
  import opened Chomps
  import opened Identifications

  predicate IsPairOf(bright: seq<Star>, p: Pair) {
    0 <= p.0 < |bright| && 0 <= p.1 < |bright|
  }

  function PairAngle(lib: Libm, bright: seq<Star>, p: Pair): real
    requires IsPairOf(bright, p)
  {
    Separation(lib, bright[p.0].vector, bright[p.1].vector)
  }

  predicate PairFits(lib: Libm, bright: seq<Star>, fov: real, p: Pair) {
    IsPairOf(bright, p) && PairAngle(lib, bright, p) < fov
  }

  function PairRow(lib: Libm, bright: seq<Star>, p: Pair): Row {
    if IsPairOf(bright, p) then
      Row([bright[p.0].labelId, bright[p.1].labelId], [PairAngle(lib, bright, p)])
    else
      Row([], [])
  }

  /** The rows for a list of pairs: those closer together than the field of view. */
  function PairRowsOf(lib: Libm, bright: seq<Star>, fov: real, pairs: seq<Pair>): seq<Row> {
    Map((p: Pair) => PairRow(lib, bright, p), Filter((p: Pair) => PairFits(lib, bright, fov, p), pairs))
  }

  ghost predicate IsPairTable(lib: Libm, bright: seq<Star>, fov: real, table: seq<Row>) {
    IsPermutation(table, PairRowsOf(lib, bright, fov, Pairs(|bright|)))
  }

  lemma PairRowsOneMore(lib: Libm, bright: seq<Star>, fov: real, pairs: seq<Pair>, p: Pair)
    ensures PairRowsOf(lib, bright, fov, pairs + [p]) ==
            PairRowsOf(lib, bright, fov, pairs) + if PairFits(lib, bright, fov, p) then [PairRow(lib, bright, p)]
                else []
  {
    FilterOneMore((q: Pair) => PairFits(lib, bright, fov, q), pairs, p);
  }

  /** The rows of the table are exactly those of the pairs `i < j` within the field of view. */
  lemma PairTableMembers(lib: Libm, bright: seq<Star>, fov: real, table: seq<Row>, row: Row)
    requires IsPairTable(lib, bright, fov, table)
    ensures row in table <==>
            exists p: Pair :: 0 <= p.0 < p.1 < |bright| && PairFits(lib, bright, fov, p)
                && PairRow(lib, bright, p) == row
  {
    var fits := Filter((p: Pair) => PairFits(lib, bright, fov, p), Pairs(|bright|));
    PermutationMembers(table, PairRowsOf(lib, bright, fov, Pairs(|bright|)));
    MapMembers((p: Pair) => PairRow(lib, bright, p), fits, row);
    FilterAll((p: Pair) => PairFits(lib, bright, fov, p), Pairs(|bright|));
    PairsExact(|bright|);
  }

  /** Every pair within the field of view has exactly one row, with its two labels and its angle, and no
      other pair has any. */
  lemma PairTableIsComplete(lib: Libm, bright: seq<Star>, fov: real, table: seq<Row>, p: Pair)
    requires IsPairTable(lib, bright, fov, table) && DistinctLabels(bright)
    requires 0 <= p.0 < p.1 < |bright|
    ensures multiset(table)[PairRow(lib, bright, p)] == if PairAngle(lib, bright, p) < fov then 1 else 0
    ensures var theta := Separation(lib, bright[p.0].vector, bright[p.1].vector);
            multiset(table)[Row([bright[p.0].labelId, bright[p.1].labelId], [theta])] == if theta < fov then 1 else 0
  {
    var keep := (q: Pair) => PairFits(lib, bright, fov, q);
    var f := (q: Pair) => PairRow(lib, bright, q);
    var fits := Filter(keep, Pairs(|bright|));
    PairsExact(|bright|);
    FilterAll(keep, Pairs(|bright|));
    forall q | q in fits && f(q) == f(p) ensures q == p {
      SamePairRow(lib, bright, q, p);
    }
    MapCounts(f, fits, p);
    FilterDistinct(keep, Pairs(|bright|));
    NoDuplicatesCount(fits, p);
  }

  lemma SamePairRow(lib: Libm, bright: seq<Star>, q: Pair, p: Pair)
    requires DistinctLabels(bright) && IsPairOf(bright, q) && IsPairOf(bright, p)
    requires PairRow(lib, bright, q) == PairRow(lib, bright, p)
    ensures q == p
  {
    assert PairRow(lib, bright, q).labels[0] == PairRow(lib, bright, p).labels[0];
    assert PairRow(lib, bright, q).labels[1] == PairRow(lib, bright, p).labels[1];
  }

  lemma PairTableIsKnown(lib: Libm, hip: seq<Star>, bright: seq<Star>, fov: real, table: seq<Row>)
    requires IsPairTable(lib, bright, fov, table)
    requires forall s :: s in bright ==> s in hip
    ensures KnownRows(table, hip, 2, 1)
  {
    forall row | row in table ensures KnownRow(row, hip, 2, 1) {
      PairTableMembers(lib, bright, fov, table, row);
      var p: Pair :| 0 <= p.0 < p.1 < |bright| && PairFits(lib, bright, fov, p) && PairRow(lib, bright, p) == row;
      assert bright[p.0] in hip && bright[p.1] in hip;
    }
  }

  method InsertPair(lib: Libm, ch: Chomp, fov: real, i: nat, j: nat, ghost visited: seq<Pair>)
    requires i < |ch.bright| && j < |ch.bright|
    requires ch.currentTable in ch.tables
    requires ch.tables[ch.currentTable] == PairRowsOf(lib, ch.bright, fov, visited)
    modifies ch`tables
    ensures ch.tables.Keys == old(ch.tables.Keys)
    ensures ch.tables[ch.currentTable] == PairRowsOf(lib, ch.bright, fov, visited + [(i, j)])
    ensures forall t :: t in ch.tables && t != ch.currentTable ==> ch.tables[t] == old(ch.tables)[t]
  {
    PairRowsOneMore(lib, ch.bright, fov, visited, (i, j));
    var theta := Separation(lib, ch.bright[i].vector, ch.bright[j].vector);
    if theta < fov {
      ch.InsertIntoTable(Row([ch.bright[i].labelId, ch.bright[j].labelId], [theta]));
    }
  }

  /** The inner loop. */
  method InsertPairsAt(lib: Libm, ch: Chomp, fov: real, i: nat)
    requires i < |ch.bright| && ch.currentTable in ch.tables
    requires ch.tables[ch.currentTable] == PairRowsOf(lib, ch.bright, fov, PairsBelow(|ch.bright|, i))
    modifies ch`tables
    ensures ch.tables.Keys == old(ch.tables.Keys)
    ensures ch.tables[ch.currentTable] == PairRowsOf(lib, ch.bright, fov, PairsBelow(|ch.bright|, i + 1))
    ensures forall t :: t in ch.tables && t != ch.currentTable ==> ch.tables[t] == old(ch.tables)[t]
  {
    var n := |ch.bright|;
    assert PairsBelow(n, i) + PairsAt(i, i + 1) == PairsBelow(n, i);
    for j := i + 1 to n
      invariant ch.tables.Keys == old(ch.tables.Keys)
      invariant ch.tables[ch.currentTable] == PairRowsOf(lib, ch.bright, fov, PairsBelow(n, i) + PairsAt(i, j))
      invariant forall t :: t in ch.tables && t != ch.currentTable ==> ch.tables[t] == old(ch.tables)[t]
    {
      InsertPair(lib, ch, fov, i, j, PairsBelow(n, i) + PairsAt(i, j));
      PairsStep(n, i, j);
    }
  }

  /** Inserts the pairs `i < j` and sorts the table by angle. With no bright stars the bound
      `size() - 1` of the source wraps around, so there must be at least one. */
  method GenerateTable(lib: Libm, ch: Chomp, fov: real, tableName: string) returns (ret: int)
    requires |ch.bright| >= 1
    modifies ch
    ensures tableName in old(ch.tables) ==> ret == -1 && ch.tables == old(ch.tables)
    ensures tableName !in old(ch.tables) ==>
              && ret == 0
              && ch.tables.Keys == old(ch.tables.Keys) + {tableName}
              && IsPairTable(lib, ch.bright, fov, ch.tables[tableName])
              && AscendsByAngle(ch.tables[tableName])
              && forall t :: t in old(ch.tables) ==> ch.tables[t] == old(ch.tables)[t]
  {
    var created := ch.CreateTable(tableName);
    if created == TABLE_NOT_CREATED_RET {
      return TABLE_ALREADY_EXISTS;
    }
    ch.SelectTable(tableName);
    var n := |ch.bright|;
    ghost var before := ch.tables;
    assert ch.tables[tableName] == PairRowsOf(lib, ch.bright, fov, PairsBelow(n, 0));
    for i := 0 to n - 1
      invariant ch.currentTable == tableName && ch.tables.Keys == before.Keys
      invariant ch.tables[tableName] == PairRowsOf(lib, ch.bright, fov, PairsBelow(n, i))
      invariant forall t :: t in before && t != tableName ==> ch.tables[t] == before[t]
    {
      InsertPairsAt(lib, ch, fov, i);
    }
    ret := ch.SortAndIndex();
    RowsAscend(lib, ch.bright, fov, ch.tables[tableName]);
  }

  /** No row is followed by one with a smaller angle. */
  ghost predicate AscendsByAngle(table: seq<Row>) {
    forall k, l :: 0 <= k < l < |table| ==> AscendsAt(table, k, l)
  }

  predicate AscendsAt(table: seq<Row>, k: nat, l: nat)
    requires k < |table| && l < |table|
  {
    |table[k].features| == 1 && |table[l].features| == 1 && table[k].features[0] <= table[l].features[0]
  }

  lemma RowsAscend(lib: Libm, bright: seq<Star>, fov: real, table: seq<Row>)
    requires IsPairTable(lib, bright, fov, table) && Ordered(table)
    ensures AscendsByAngle(table)
  {
    hide IsPairTable, AtMost, Ordered;
    PairTableIsKnown(lib, bright, bright, fov, table);
    OrderedAscends(table);
    forall k, l | 0 <= k < l < |table| ensures AscendsAt(table, k, l) {
      assert KnownRow(table[k], bright, 2, 1) && KnownRow(table[l], bright, 2, 1);
      assert table[k].features[..0] == table[l].features[..0];
    }
  }
}
