/**
  The single-section row store: five fruit rows with a counter each, where
  rows are matched by whole-value equality (id, name and count together).
 */
module Rows {
  import opened Foundation
  import opened Sequences

  /** One row; `==` is the synthesized one, so it compares id, name and count. */
  datatype Row = Row(id: Uuid, name: string, count: int)

  /** `Row.init(name:)`: a fresh id and a count of 0. */
  function NewRow(id: Uuid, name: string): Row {
    Row(id, name, 0)
  }

  /** The row's `<` operator: a row with a higher count comes first. */
  predicate Less(a: Row, b: Row) {
    a.count > b.count
  }

  /**
    `<` is a strict weak order, as `sorted()` requires: irreflexive, transitive,
    and rows with equal counts are interchangeable.
   */
  lemma LessIsStrictWeakOrder(a: Row, b: Row, c: Row)
    ensures !Less(a, a)
    ensures Less(a, b) && Less(b, c) ==> Less(a, c)
    ensures !Less(a, b) && !Less(b, a) && !Less(b, c) && !Less(c, b) ==> !Less(a, c) && !Less(c, a)
  {
  }

  function CountOf(row: Row): int {
    row.count
  }

  function IdOf(row: Row): Uuid {
    row.id
  }

  /** What `sorted()` promises under `<`: no row is less than a row in front of it. */
  ghost predicate SortedByLess(rows: seq<Row>) {
    forall i, j :: 0 <= i < j < |rows| ==> !Less(rows[j], rows[i])
  }

  /** Sorting by `<` is sorting by count, highest first. */
  lemma SortedByLessIsHighestCountFirst(rows: seq<Row>)
    ensures SortedByLess(rows) <==> NonIncreasing(rows, CountOf)
  {
  }

  ghost predicate DistinctIds(rows: seq<Row>) {
    DistinctBy(rows, IdOf)
  }

  /** The five rows `init()` appends, given five fresh ids. */
  function InitialRows(ids: seq<Uuid>): (rows: seq<Row>)
    requires |ids| == 5
    ensures |rows| == 5
    ensures forall i :: 0 <= i < 5 ==> rows[i].id == ids[i] && rows[i].count == 0
    ensures Distinct(ids) ==> DistinctIds(rows)
    ensures SortedByLess(rows)
  {
    [ NewRow(ids[0], "apple"),
      NewRow(ids[1], "banana"),
      NewRow(ids[2], "grape"),
      NewRow(ids[3], "lemon"),
      NewRow(ids[4], "melon") ]
  }

  /** The `map` step of `increment(row:)`: the rows equal to `row` gain 1. */
  function Bumped(rows: seq<Row>, row: Row): (r: seq<Row>)
    ensures |r| == |rows|
    ensures forall i :: 0 <= i < |rows| ==>
      && r[i].id == rows[i].id && r[i].name == rows[i].name
      && r[i].count == rows[i].count + (if rows[i] == row then 1 else 0)
  {
    seq(|rows|, i requires 0 <= i < |rows| =>
      if rows[i] == row then rows[i].(count := rows[i].count + 1) else rows[i])
  }

  /** The test `delete(row:)` keeps a row by: it differs from `row`. */
  function Differs(row: Row): Row -> bool {
    x => x != row
  }

  /** The `filter` of `delete(row:)`: the stored rows that differ from `row` as whole values. */
  function Deleted(rows: seq<Row>, row: Row): (r: seq<Row>)
    ensures forall x :: x in r <==> x in rows && x != row
  {
    FilterMembership(rows, Differs(row));
    Filter(rows, Differs(row))
  }

  /** `delete(row:)` drops every copy of `row` and keeps every other row as often as before. */
  lemma DeletedContents(rows: seq<Row>, row: Row)
    ensures row !in Deleted(rows, row)
    ensures forall x :: x != row ==> multiset(Deleted(rows, row))[x] == multiset(rows)[x]
  {
    FilterCounts(rows, Differs(row));
    FilterMembership(rows, Differs(row));
  }

  /**
    `delete(row:)` keeps the surviving rows in their relative order:
    row `i` lands at its rank, and a later survivor lands strictly later.
   */
  lemma DeletedKeepsOrder(rows: seq<Row>, row: Row, i: nat, j: nat)
    requires i < j < |rows| && rows[i] != row && rows[j] != row
    ensures Rank(rows, Differs(row), i) < Rank(rows, Differs(row), j) < |Deleted(rows, row)|
    ensures Deleted(rows, row)[Rank(rows, Differs(row), i)] == rows[i]
    ensures Deleted(rows, row)[Rank(rows, Differs(row), j)] == rows[j]
  {
    var keep := Differs(row);
    RankIncreases(rows, keep, i, j);
    FilterAtRank(rows, keep, i);
    FilterAtRank(rows, keep, j);
  }

  /** Deleting from a list sorted under `<` leaves it sorted. */
  lemma DeletedKeepsSorted(rows: seq<Row>, row: Row)
    requires SortedByLess(rows)
    ensures SortedByLess(Deleted(rows, row))
  {
    SortedByLessIsHighestCountFirst(rows);
    FilterKeepsNonIncreasing(rows, Differs(row), CountOf);
    SortedByLessIsHighestCountFirst(Deleted(rows, row));
  }

  /**
    A row that is not stored, by whole-value equality, matches nothing: the
    `map` of `increment(row:)` and the `filter` of `delete(row:)` return the
    rows as they were.
   */
  lemma AbsentRowIsNoOp(rows: seq<Row>, row: Row)
    requires row !in rows
    ensures Bumped(rows, row) == rows
    ensures Deleted(rows, row) == rows
  {
    FilterKeepsAll(rows, Differs(row));
  }

  /**
    A stale copy of a stored row, one with the stored id but another name or
    count, matches nothing: no count changes in the `map` of `increment(row:)`,
    and `delete(row:)` leaves the rows as they were.
   */
  lemma StaleRowIsNoOp(rows: seq<Row>, row: Row, k: nat)
    requires DistinctIds(rows) && k < |rows|
    requires rows[k].id == row.id && rows[k] != row
    ensures Bumped(rows, row) == rows
    ensures Deleted(rows, row) == rows
  {
    forall m | 0 <= m < |rows| ensures rows[m] != row {
      if m != k {
        assert IdOf(rows[m]) != IdOf(rows[k]);
      }
    }
    AbsentRowIsNoOp(rows, row);
  }

  /**
    `increment(row:)` with a stale row only re-sorts: any result it may
    leave holds the same rows, each as often as before. Rows with equal
    counts may change places, since the sort is not promised to be stable.
   */
  lemma StaleIncrementOnlyReorders(rows: seq<Row>, row: Row, k: nat, result: seq<Row>)
    requires DistinctIds(rows) && k < |rows|
    requires rows[k].id == row.id && rows[k] != row
    requires multiset(result) == multiset(Bumped(rows, row))
    ensures multiset(result) == multiset(rows)
    ensures forall j :: 0 <= j < |rows| ==> rows[j] in result
  {
    StaleRowIsNoOp(rows, row, k);
    forall j | 0 <= j < |rows| ensures rows[j] in result {
      assert rows[j] in multiset(result);
    }
  }

  /** The store behind the single-section list. */
  class ViewModel {
    var rows: seq<Row>

    /** Ids are unique and rows are sorted under `<`. */
    ghost predicate Valid()
      reads this
    {
      DistinctIds(rows) && SortedByLess(rows)
    }

    /** `init()`: starts empty and appends the five rows; `UUID()` supplies distinct ids. */
    constructor (ids: seq<Uuid>)
      requires |ids| == 5 && Distinct(ids)
      ensures Valid() && rows == InitialRows(ids)
    {
      rows := [];
      rows := rows + InitialRows(ids);
    }

    /**
      `increment(row:)`: every row equal to `row` gains 1, then the rows are
      sorted under `<`. Only "sorted" and "a rearrangement" are promised.
     */
    method Increment(row: Row)
      requires Valid()
      modifies this
      ensures Valid()
      ensures multiset(rows) == multiset(Bumped(old(rows), row))
    {
      var bumped := Bumped(rows, row);
      assert DistinctIds(bumped);
      var sorted := SortDescending(bumped, CountOf);
      PermutationKeepsDistinctBy(bumped, sorted, IdOf);
      SortedByLessIsHighestCountFirst(sorted);
      rows := sorted;
    }

    /** `delete(row:)`: keeps the rows that differ from `row`, without re-sorting. */
    method Delete(row: Row)
      requires Valid()
      modifies this
      ensures Valid()
      ensures rows == Deleted(old(rows), row)
    {
      DeletedKeepsSorted(rows, row);
      FilterKeepsDistinctBy(rows, Differs(row), IdOf);
      rows := Filter(rows, Differs(row));
    }
  }
}
