/** The ACL backfill of a SQLite file. */
module Backfill {

  datatype Cell = Null | Text(value: string)

  /** The two columns the backfill writes, and everything else. */
  datatype Row = Row(acl: Cell, classification: Cell, rest: string)

  /** A column that does not exist yet reads as Null in every row. */
  datatype Table = Table(hasAcl: bool, hasClassification: bool, rows: seq<Row>)

  const ACL_ALLOW_DEFAULT := "[\"greg\"]"
  const CLASSIFICATION_DEFAULT := "internal"

  ghost predicate WellFormed(t: Table) {
    && (!t.hasAcl ==> forall i | 0 <= i < |t.rows| :: t.rows[i].acl == Null)
    && (!t.hasClassification ==> forall i | 0 <= i < |t.rows| :: t.rows[i].classification == Null)
  }

  function NullCount(rows: seq<Row>): nat {
    if rows == [] then 0 else NullCount(rows[..|rows| - 1]) + if rows[|rows| - 1].acl == Null then 1 else 0
  }

  /** Rows the backfill will report: those with a NULL, or all of them when the column is missing. */
  function ToBackfill(t: Table): nat {
    if t.hasAcl then NullCount(t.rows) else |t.rows|
  }

  /** `ALTER TABLE ... ADD COLUMN ... DEFAULT`: every existing row reads the default. */
  function AddAcl(t: Table): Table {
    if t.hasAcl then t else
    t.(hasAcl := true,
       rows := seq(|t.rows|, i requires 0 <= i < |t.rows| => t.rows[i].(acl := Text(ACL_ALLOW_DEFAULT))))
  }

  function AddClassification(t: Table): Table {
    if t.hasClassification then t else
    t.(hasClassification := true,
       rows := seq(|t.rows|, i requires 0 <= i < |t.rows| =>
         t.rows[i].(classification := Text(CLASSIFICATION_DEFAULT))))
  }

  /** `UPDATE ... WHERE acl_allow IS NULL`. */
  function FillNulls(t: Table): Table {
    t.(rows := seq(|t.rows|, i requires 0 <= i < |t.rows| =>
         if t.rows[i].acl == Null
         then t.rows[i].(acl := Text(ACL_ALLOW_DEFAULT), classification := Text(CLASSIFICATION_DEFAULT))
         else t.rows[i]))
  }

  function Backfilled(t: Table): Table {
    if ToBackfill(t) == 0 then t else FillNulls(AddClassification(AddAcl(t)))
  }

  ghost predicate Twice(names: seq<string>, n: string) {
    exists i, j :: 0 <= i < j < |names| && names[i] == names[j] == n
  }

  lemma {:induction false} TwiceGrows(names: seq<string>, i: nat)
    requires i < |names|
    ensures forall n :: Twice(names[..i + 1], n) <==> Twice(names[..i], n) || (n == names[i] && n in names[..i])
  {
    var front, all := names[..i], names[..i + 1];
    forall n ensures Twice(all, n) <==> Twice(front, n) || (n == names[i] && n in front) {
      if n == names[i] && n in front {
        var k :| 0 <= k < |front| && front[k] == n;
        assert all[k] == all[i] == n;
      }
      if j, k :| 0 <= j < k < |front| && front[j] == front[k] == n {
        assert all[j] == all[k] == n;
      }
      if j, k :| 0 <= j < k < |all| && all[j] == all[k] == n {
        assert front[j] == n;
        assert k < i ==> front[k] == n;
      }
    }
  }

  /** A table that has been backfilled has nothing left to fill. */
  lemma {:induction false} NothingLeft(t: Table)
    ensures ToBackfill(Backfilled(t)) == 0 && Backfilled(Backfilled(t)) == Backfilled(t)
  {
    NullCountFacts(Backfilled(t).rows);
  }

  ghost function CountFor(before: map<string, Table>, names: seq<string>, dryRun: bool, n: string): nat {
    if n in before && (dryRun || !Twice(names, n)) then ToBackfill(before[n]) else 0
  }

  function TableFor(before: map<string, Table>, names: seq<string>, dryRun: bool, n: string): Table
    requires n in before
  {
    if n in names && !dryRun then Backfilled(before[n]) else before[n]
  }

  /** What one more name does: it counts what it finds, and fills it unless that is nothing or the run is dry. */
  lemma {:induction false} OneMoreName(before: map<string, Table>, names: seq<string>, i: nat, dryRun: bool)
    requires i < |names|
    ensures forall n | n != names[i] ::
              CountFor(before, names[..i + 1], dryRun, n) == CountFor(before, names[..i], dryRun, n)
    ensures forall n | n != names[i] && n in before ::
              TableFor(before, names[..i + 1], dryRun, n) == TableFor(before, names[..i], dryRun, n)
    ensures names[i] !in before ==> CountFor(before, names[..i + 1], dryRun, names[i]) == 0
    ensures names[i] in before ==>
              var t := TableFor(before, names[..i], dryRun, names[i]);
              && CountFor(before, names[..i + 1], dryRun, names[i]) == ToBackfill(t)
              && TableFor(before, names[..i + 1], dryRun, names[i]) == if dryRun then t else Backfilled(t)
  {
    assert names[..i + 1] == names[..i] + [names[i]];
    TwiceGrows(names, i);
    if names[i] in before {
      NothingLeft(before[names[i]]);
      if names[i] !in names[..i] {
        assert !Twice(names[..i], names[i]);
      }
    }
  }

  /** A SQLite file, its tables by name. */
  class Database {
    var tables: map<string, Table>

    constructor (tables: map<string, Table>)
      ensures this.tables == tables
    {
      this.tables := tables;
    }

    /** `_sqlite_backfill`: a dry run only counts; a live run counts the same and fills the named tables, but finds
        nothing left to do in a table when it comes to it again. */
    method SqliteBackfill(names: seq<string>, dryRun: bool) returns (counts: map<string, nat>)
      modifies this
      ensures forall n :: n in counts <==> n in names
      ensures forall n | n in counts ::
                counts[n] == if n in old(tables) && (dryRun || !Twice(names, n)) then ToBackfill(old(tables)[n]) else 0
      ensures tables.Keys == old(tables).Keys
      ensures forall n | n in tables ::
                tables[n] == if n in names && !dryRun then Backfilled(old(tables)[n]) else old(tables)[n]
    {
      counts := map[];
      for i := 0 to |names|
        invariant tables.Keys == old(tables).Keys
        invariant forall n :: n in counts <==> n in names[..i]
        invariant forall n | n in counts :: counts[n] == CountFor(old(tables), names[..i], dryRun, n)
        invariant forall n | n in tables :: tables[n] == TableFor(old(tables), names[..i], dryRun, n)
      {
        var name := names[i];
        assert names[..i + 1] == names[..i] + [name];
        OneMoreName(old(tables), names, i, dryRun);
        if name !in tables {
          counts := counts[name := 0];
          continue;
        }
        var t := tables[name];
        var count := if t.hasAcl then NullCount(t.rows) else |t.rows|;
        counts := counts[name := count];
        if count == 0 || dryRun {
          continue;
        }
        t := AddAcl(t);
        t := AddClassification(t);
        t := FillNulls(t);
        tables := tables[name := t];
      }
      assert names[..|names|] == names;
    }
  }

  // ----- What a backfill leaves behind

  lemma {:induction false} NullCountFacts(rows: seq<Row>)
    ensures NullCount(rows) <= |rows|
    ensures NullCount(rows) == 0 <==> forall i | 0 <= i < |rows| :: rows[i].acl != Null
    ensures NullCount(rows) == |rows| <==> forall i | 0 <= i < |rows| :: rows[i].acl == Null
  {
    if rows != [] {
      NullCountFacts(rows[..|rows| - 1]);
    }
  }

  /** The classification a row has afterwards: filled when the column is new, overwritten along with a NULL ACL in a
      column that exists, and otherwise kept, NULL or not. */
  function ClassificationAfter(t: Table, row: Row): Cell {
    if ToBackfill(t) > 0 && (!t.hasClassification || (t.hasAcl && row.acl == Null)) then Text("internal")
    else row.classification
  }

  /** No row is left without an ACL, a row that had one keeps it, the classification is as said above, no row is added,
      lost or otherwise changed, and a second run finds nothing to do. */
  lemma BackfillCompletes(t: Table)
    requires WellFormed(t)
    ensures var t' := Backfilled(t);
            && WellFormed(t') && |t'.rows| == |t.rows|
            && (forall i | 0 <= i < |t.rows| ::
                  t'.rows[i].acl == (if t.rows[i].acl == Null then Text("[\"greg\"]") else t.rows[i].acl)
                  && t'.rows[i].classification == ClassificationAfter(t, t.rows[i])
                  && t'.rows[i].rest == t.rows[i].rest)
            && ToBackfill(t') == 0 && Backfilled(t') == t'
  {
    var t' := Backfilled(t);
    NullCountFacts(t.rows);
    NullCountFacts(t'.rows);
  }

  /** Every row has a classification afterwards exactly when each row without one is filled: because there is
      something to do, and either the column is new or the row also had a NULL in an ACL column that exists. */
  lemma {:induction false} ClassifiedExactlyWhen(t: Table)
    requires WellFormed(t)
    ensures (forall i | 0 <= i < |Backfilled(t).rows| :: Backfilled(t).rows[i].classification != Null)
            <==> forall i | 0 <= i < |t.rows| && t.rows[i].classification == Null ::
                   ToBackfill(t) > 0 && (!t.hasClassification || (t.hasAcl && t.rows[i].acl == Null))
  {
    BackfillCompletes(t);
    forall i | 0 <= i < |t.rows|
      ensures Backfilled(t).rows[i].classification == ClassificationAfter(t, t.rows[i]) {
    }
  }

  /** So a row with an ACL but no classification is never filled, nor is any in a table without the ACL column. */
  lemma {:induction false} UnclassifiedRowsStay() returns (withAcl: Table, withoutAcl: Table)
    ensures WellFormed(withAcl) && withAcl.rows == [Row(Text("[\"ann\"]"), Null, ""), Row(Null, Null, "")]
    ensures Backfilled(withAcl).rows[0].classification == Null && Backfilled(withAcl).rows[1].classification != Null
    ensures WellFormed(withoutAcl) && withoutAcl.rows == [Row(Null, Null, "")]
    ensures Backfilled(withoutAcl).rows[0].classification == Null
  {
    withAcl := Table(true, true, [Row(Text("[\"ann\"]"), Null, ""), Row(Null, Null, "")]);
    withoutAcl := Table(false, true, [Row(Null, Null, "")]);
    assert withAcl.rows[1].acl == Null;
    NullCountFacts(withAcl.rows);
    BackfillCompletes(withAcl);
    BackfillCompletes(withoutAcl);
  }

  function ChangedRows(before: seq<Row>, after: seq<Row>): nat
    requires |before| == |after|
  {
    if before == [] then 0 else
    var n := |before| - 1;
    ChangedRows(before[..n], after[..n]) + if before[n] != after[n] then 1 else 0
  }

  lemma {:induction false} ChangedNulls(before: seq<Row>, after: seq<Row>)
    requires |before| == |after|
    ensures (forall i | 0 <= i < |before| :: before[i] != after[i] <==> before[i].acl == Null)
            ==> ChangedRows(before, after) == NullCount(before)
    ensures (forall i | 0 <= i < |before| :: before[i] != after[i]) ==> ChangedRows(before, after) == |before|
    ensures (forall i | 0 <= i < |before| :: before[i] == after[i]) ==> ChangedRows(before, after) == 0
  {
    if before != [] {
      var n := |before| - 1;
      ChangedNulls(before[..n], after[..n]);
      assert forall i | 0 <= i < n :: before[..n][i] == before[i] && after[..n][i] == after[i];
    }
  }

  /** The reported count is the number of rows a live run changes, except that adding a missing classification column
      also gives a classification to rows that already had an ACL: it is exact precisely when that column exists, or
      there is nothing to do, or every row is to be filled. */
  lemma CountIsExactWhen(t: Table)
    requires WellFormed(t)
    ensures |Backfilled(t).rows| == |t.rows|
    ensures ChangedRows(t.rows, Backfilled(t).rows) == ToBackfill(t)
            <==> t.hasClassification || ToBackfill(t) == 0 || ToBackfill(t) == |t.rows|
  {
    var t' := Backfilled(t);
    NullCountFacts(t.rows);
    ChangedNulls(t.rows, t'.rows);
    if ToBackfill(t) != 0 && !t.hasClassification {
      forall i | 0 <= i < |t.rows| ensures t.rows[i] != t'.rows[i] {
        assert t.rows[i].classification == Null;
      }
    }
  }

  /** One row of two has a NULL ACL, and there is no classification column: one row is counted and both are changed. */
  lemma {:induction false} CountCanBeShort() returns (t: Table)
    ensures WellFormed(t) && |t.rows| == 2 && ToBackfill(t) == 1 && ChangedRows(t.rows, Backfilled(t).rows) == 2
  {
    var first, second := Row(Text("[\"ann\"]"), Null, ""), Row(Null, Null, "");
    t := Table(true, false, [first, second]);
    assert t.rows[..1] == [first] && [first][..0] == [];
    assert NullCount([first]) == 0;
    NullCountFacts(t.rows);
    assert t.rows[0].acl != Null && t.rows[1].acl == Null;
    CountIsExactWhen(t);
    ChangedNulls(t.rows, Backfilled(t).rows);
  }
}
