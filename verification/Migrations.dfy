/** The rehearsed schema migrations: a ledger decides what runs. */
module Migrations {

  datatype Migration = Migration(id: string, statements: seq<string>)

  datatype Answer = Executed | BenignError | HardError

  /** What SQLite does with a statement: the resulting schema and data, and whether it complained. */
  type Engine = (string, string) -> (string, Answer)

  /** A database file: its contents, its ledger of applied migrations, and every statement ever run on it. */
  datatype Db = Db(contents: string, ledger: set<string>, history: seq<(string, string)>)

  function RunStatements(db: Db, id: string, statements: seq<string>, engine: Engine): (Db, bool) {
    if statements == [] then (db, true) else
    var (before, ok) := RunStatements(db, id, statements[..|statements| - 1], engine);
    var s := statements[|statements| - 1];
    var (contents, answer) := engine(before.contents, s);
    (before.(contents := contents, history := before.history + [(id, s)]), ok && answer != HardError)
  }

  function RunOne(db: Db, m: Migration, engine: Engine): (Db, bool) {
    if m.id in db.ledger then (db, true) else
    var (after, ok) := RunStatements(db, m.id, m.statements, engine);
    (if ok then after.(ledger := after.ledger + {m.id}) else after, ok)
  }

  function RunAll(db: Db, ms: seq<Migration>, engine: Engine): (Db, bool) {
    if ms == [] then (db, true) else
    var (before, ok) := RunAll(db, ms[..|ms| - 1], engine);
    var (after, last) := RunOne(before, ms[|ms| - 1], engine);
    (after, ok && last)
  }

  class Rehearsal {
    var dbs: map<string, Db>

    constructor (dbs: map<string, Db>)
      ensures this.dbs == dbs
    {
      this.dbs := dbs;
    }

    /** `_run_migrations`: every present file gets every migration its ledger does not have. */
    method RunMigrations(files: seq<string>, migrations: seq<Migration>, engine: Engine) returns (success: bool)
      requires forall i, j | 0 <= i < j < |files| :: files[i] != files[j]
      modifies this
      ensures dbs.Keys == old(dbs).Keys
      ensures forall f | f in dbs ::
                dbs[f] == if f in files then RunAll(old(dbs)[f], migrations, engine).0 else old(dbs)[f]
      ensures success <==> forall f | f in files && f in old(dbs) :: RunAll(old(dbs)[f], migrations, engine).1
    {
      var anyHardErrors := false;
      for i := 0 to |files|
        invariant dbs.Keys == old(dbs).Keys
        invariant forall f | f in dbs ::
                    dbs[f] == if f in files[..i] then RunAll(old(dbs)[f], migrations, engine).0 else old(dbs)[f]
        invariant !anyHardErrors
                  <==> forall f | f in files[..i] && f in old(dbs) :: RunAll(old(dbs)[f], migrations, engine).1
      {
        assert files[..i + 1] == files[..i] + [files[i]];
        assert files[i] !in files[..i];
        if files[i] in dbs {
          var db, ok := MigrateOne(dbs[files[i]], migrations, engine);
          dbs := dbs[files[i] := db];
          anyHardErrors := anyHardErrors || !ok;
        }
      }
      assert files[..|files|] == files;
      success := !anyHardErrors;
    }
  }

  /** The loop over one file's migrations and their statements. */
  method MigrateOne(start: Db, migrations: seq<Migration>, engine: Engine) returns (db: Db, ok: bool)
    ensures (db, ok) == RunAll(start, migrations, engine)
  {
    db, ok := start, true;
    for k := 0 to |migrations|
      invariant (db, ok) == RunAll(start, migrations[..k], engine)
    {
      assert migrations[..k + 1][..k] == migrations[..k];
      var m := migrations[k];
      if m.id in db.ledger {
        continue;
      }
      ghost var before := db;
      var hardErrors := 0;
      for j := 0 to |m.statements|
        invariant (db, hardErrors == 0) == RunStatements(before, m.id, m.statements[..j], engine)
      {
        assert m.statements[..j + 1][..j] == m.statements[..j];
        var (contents, answer) := engine(db.contents, m.statements[j]);
        db := db.(contents := contents, history := db.history + [(m.id, m.statements[j])]);
        if answer == HardError {
          hardErrors := hardErrors + 1;
        }
      }
      assert m.statements[..|m.statements|] == m.statements;
      if hardErrors > 0 {
        ok := false;
      } else {
        db := db.(ledger := db.ledger + {m.id});
      }
    }
    assert migrations[..|migrations|] == migrations;
  }

  // ----- What the ledger guarantees

  lemma {:induction false} StatementsFacts(db: Db, id: string, statements: seq<string>, engine: Engine)
    ensures var after := RunStatements(db, id, statements, engine).0;
            && after.ledger == db.ledger && |after.history| == |db.history| + |statements|
            && after.history[..|db.history|] == db.history
            && forall i | |db.history| <= i < |after.history| ::
                 after.history[i] == (id, statements[i - |db.history|])
  {
    if statements != [] {
      StatementsFacts(db, id, statements[..|statements| - 1], engine);
    }
  }

  function Ids(ms: seq<Migration>): set<string> {
    set i | 0 <= i < |ms| :: ms[i].id
  }

  lemma {:induction false} IdsAppend(front: seq<Migration>, m: Migration)
    ensures Ids(front + [m]) == Ids(front) + {m.id}
  {
    assert (front + [m])[|front|] == m;
    forall x | x in Ids(front) ensures x in Ids(front + [m]) {
      var i :| 0 <= i < |front| && front[i].id == x;
      assert (front + [m])[i].id == x;
    }
  }

  lemma {:induction false} FailedStaysOut(db: Db, m: Migration, engine: Engine)
    requires m.id !in db.ledger
    ensures var (after, ok) := RunOne(db, m, engine); after.ledger == if ok then db.ledger + {m.id} else db.ledger
  {
    StatementsFacts(db, m.id, m.statements, engine);
  }

  /** The ledger gains only migrations of the run; and, no id being listed twice, it has them all exactly when the run
      succeeded. */
  lemma {:induction false} LedgerIsCompleteExactlyWhen(db: Db, ms: seq<Migration>, engine: Engine)
    ensures var (after, ok) := RunAll(db, ms, engine); db.ledger <= after.ledger <= db.ledger + Ids(ms)
    ensures var (after, ok) := RunAll(db, ms, engine);
            (forall i, j | 0 <= i < j < |ms| :: ms[i].id != ms[j].id) ==> (ok <==> Ids(ms) <= after.ledger)
  {
    if ms != [] {
      var front, m := ms[..|ms| - 1], ms[|ms| - 1];
      assert ms == front + [m];
      LedgerIsCompleteExactlyWhen(db, front, engine);
      IdsAppend(front, m);
      var before := RunAll(db, front, engine).0;
      if m.id !in before.ledger {
        FailedStaysOut(before, m, engine);
      }
    }
  }

  /** Whatever a run adds to the history belongs to migrations of the run that the ledger did not have; the ledger only
      grows; and after success it has all of the run. */
  lemma {:induction false} LedgeredNeverRunsAgain(db: Db, ms: seq<Migration>, engine: Engine)
    ensures var (after, ok) := RunAll(db, ms, engine);
            && db.ledger <= after.ledger && |db.history| <= |after.history|
            && after.history[..|db.history|] == db.history
            && (forall i | |db.history| <= i < |after.history| ::
                  after.history[i].0 !in db.ledger && after.history[i].0 in Ids(ms))
            && (ok ==> forall m | m in ms :: m.id in after.ledger)
  {
    if ms != [] {
      var front, m := ms[..|ms| - 1], ms[|ms| - 1];
      var before := RunAll(db, front, engine).0;
      LedgeredNeverRunsAgain(db, front, engine);
      StatementsFacts(before, m.id, m.statements, engine);
      var after := RunAll(db, ms, engine).0;
      assert ms == front + [m];
      IdsAppend(front, m);
      forall i | |db.history| <= i < |after.history|
        ensures after.history[i].0 !in db.ledger && after.history[i].0 in Ids(ms)
      {
        if i < |before.history| {
          assert after.history[..|before.history|][i] == before.history[i];
        }
      }
      assert after.history[..|db.history|] == after.history[..|before.history|][..|db.history|];
    }
  }

  lemma {:induction false} NothingToRun(db: Db, ms: seq<Migration>, engine: Engine)
    requires forall m | m in ms :: m.id in db.ledger
    ensures RunAll(db, ms, engine) == (db, true)
  {
    if ms != [] {
      assert ms[|ms| - 1] in ms;
      assert forall m | m in ms[..|ms| - 1] :: m in ms;
      NothingToRun(db, ms[..|ms| - 1], engine);
    }
  }

  /** After a successful run, running again, even against a different engine, executes nothing and changes nothing. */
  lemma SuccessIsIdempotent(db: Db, ms: seq<Migration>, engine: Engine, again: Engine)
    ensures RunAll(db, ms, engine).1 ==> RunAll(RunAll(db, ms, engine).0, ms, again) == (RunAll(db, ms, engine).0, true)
  {
    LedgeredNeverRunsAgain(db, ms, engine);
    if RunAll(db, ms, engine).1 {
      NothingToRun(RunAll(db, ms, engine).0, ms, again);
    }
  }

  /** What the engine says to each statement, run one after the other from the given contents. */
  function Answers(contents: string, statements: seq<string>, engine: Engine): seq<Answer>
    decreases |statements|
  {
    if statements == [] then [] else
    var (next, answer) := engine(contents, statements[0]);
    [answer] + Answers(next, statements[1..], engine)
  }

  lemma {:induction false} StatementsFromFront(db: Db, id: string, s: string, rest: seq<string>, engine: Engine)
    ensures var (contents, answer) := engine(db.contents, s);
            var next := db.(contents := contents, history := db.history + [(id, s)]);
            RunStatements(db, id, [s] + rest, engine)
            == (RunStatements(next, id, rest, engine).0, answer != HardError && RunStatements(next, id, rest, engine).1)
  {
    if rest == [] {
      assert [s] + rest == [s] && [s][..0] == [];
    } else {
      var n := |rest| - 1;
      assert ([s] + rest)[..|[s] + rest| - 1] == [s] + rest[..n];
      StatementsFromFront(db, id, s, rest[..n], engine);
    }
  }

  lemma {:induction false} StatementsSucceedWhen(db: Db, id: string, statements: seq<string>, engine: Engine)
    ensures RunStatements(db, id, statements, engine).1 <==> HardError !in Answers(db.contents, statements, engine)
    decreases |statements|
  {
    if statements != [] {
      var s, rest := statements[0], statements[1..];
      assert statements == [s] + rest;
      StatementsFromFront(db, id, s, rest, engine);
      var next := db.(contents := engine(db.contents, s).0, history := db.history + [(id, s)]);
      StatementsSucceedWhen(next, id, rest, engine);
    }
  }

  /** A migration enters the ledger exactly when it was there already or the engine gave no hard error for it;
      benign errors, such as a table that lives in another file, do not keep it out. */
  lemma LedgeredExactlyWhen(db: Db, m: Migration, engine: Engine)
    ensures m.id in RunOne(db, m, engine).0.ledger
            <==> m.id in db.ledger || HardError !in Answers(db.contents, m.statements, engine)
  {
    StatementsFacts(db, m.id, m.statements, engine);
    StatementsSucceedWhen(db, m.id, m.statements, engine);
  }
}
