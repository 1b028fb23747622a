/** Nested, lazily begun transactions: only a call that finds no container in its context gets one, the first
    statement begins the database transaction in it, and every nested call is handed a no-operation instead. */
module Transactions {
  import opened Common

  /** What a function run in a transaction does, one statement after the other. `Test` reads the rows it
      sees and continues according to whether one of them has the given value; `Call` runs a nested
      transactional function and continues according to whether that returned an error. */
  datatype Program =
    | Return
    | Fail
    | Write(row: string, next: Program)
    | Test(row: string, found: Program, missing: Program)
    | Call(body: Program, ok: Program, failed: Program)

  datatype Result = Result(rows: seq<string>, ok: bool)

  /** The plain meaning of a program: statements act on the rows in order, calls are inlined. */
  function Flat(p: Program, rows: seq<string>): (r: Result)
    ensures rows <= r.rows
  {
    match p
    case Return => Result(rows, true)
    case Fail => Result(rows, false)
    case Write(row, next) => Flat(next, rows + [row])
    case Test(row, found, missing) => if row in rows then Flat(found, rows) else Flat(missing, rows)
    case Call(body, ok, failed) =>
      var r := Flat(body, rows);
      if r.ok then Flat(ok, r.rows) else Flat(failed, r.rows)
  }

  /** Writing rows one after the other and then returning, with an error or without. */
  function WriteAll(ws: seq<string>, ok: bool): Program {
    if ws == [] then if ok then Return else Fail else Write(ws[0], WriteAll(ws[1..], ok))
  }

  /** The rows are appended in the order of the statements. */
  lemma {:induction false} WritesAreInOrder(ws: seq<string>, ok: bool, rows: seq<string>)
    ensures Flat(WriteAll(ws, ok), rows) == Result(rows + ws, ok)
  {
    if ws != [] {
      WritesAreInOrder(ws[1..], ok, rows + [ws[0]]);
      assert rows + [ws[0]] + ws[1..] == rows + ws;
    } else {
      assert rows + ws == rows;
    }
  }

  /** A test finds the rows there were and those written before it, and no others. */
  lemma TestSeesEarlierWrites(row: string, written: string, found: Program, missing: Program, rows: seq<string>)
    ensures Flat(Write(written, Test(row, found, missing)), rows) ==
            Flat(if row == written || exists i :: 0 <= i < |rows| && rows[i] == row then found else missing, rows + [written])
  {
  }

  /** What a nested call wrote before its error stays, and the caller goes on after the error. */
  lemma ErrorsKeepWrites(ws: seq<string>, ok: bool, onOk: Program, onFailed: Program, rows: seq<string>)
    ensures Flat(Call(WriteAll(ws, ok), onOk, onFailed), rows) == Flat(if ok then onOk else onFailed, rows + ws)
  {
    WritesAreInOrder(ws, ok, rows);
  }

  // ---- Nested calls are inlined ------------------------------------------------------------------------

  ghost predicate CallFree(p: Program) {
    match p
    case Return | Fail => true
    case Write(_, next) => CallFree(next)
    case Test(_, found, missing) => CallFree(found) && CallFree(missing)
    case Call(_, _, _) => false
  }

  /** Continues a program with one of two others, depending on how it ends. */
  function Continue(p: Program, ok: Program, failed: Program): Program {
    match p
    case Return => ok
    case Fail => failed
    case Write(row, next) => Write(row, Continue(next, ok, failed))
    case Test(row, found, missing) => Test(row, Continue(found, ok, failed), Continue(missing, ok, failed))
    case Call(body, onOk, onFailed) => Call(body, Continue(onOk, ok, failed), Continue(onFailed, ok, failed))
  }

  /** The same statements without any nested call. */
  function Inlined(p: Program): Program {
    match p
    case Return | Fail => p
    case Write(row, next) => Write(row, Inlined(next))
    case Test(row, found, missing) => Test(row, Inlined(found), Inlined(missing))
    case Call(body, ok, failed) => Continue(Inlined(body), Inlined(ok), Inlined(failed))
  }

  lemma {:induction false} ContinueMeans(p: Program, ok: Program, failed: Program, rows: seq<string>)
    requires CallFree(p) && CallFree(ok) && CallFree(failed)
    ensures CallFree(Continue(p, ok, failed))
    ensures Flat(Continue(p, ok, failed), rows) == Flat(Call(p, ok, failed), rows)
  {
    match p
    case Return =>
    case Fail =>
    case Write(row, next) => ContinueMeans(next, ok, failed, rows + [row]);
    case Test(_, found, missing) =>
      ContinueMeans(found, ok, failed, rows);
      ContinueMeans(missing, ok, failed, rows);
  }

  /** A tree of nested calls means what one function without nested calls means: a nested error that is
      handled undoes nothing, and nesting changes neither the writes nor their order. */
  lemma {:induction false} NestingIsFlat(p: Program, rows: seq<string>)
    ensures CallFree(Inlined(p)) && Flat(Inlined(p), rows) == Flat(p, rows)
  {
    match p
    case Return =>
    case Fail =>
    case Write(row, next) => NestingIsFlat(next, rows + [row]);
    case Test(_, found, missing) =>
      NestingIsFlat(found, rows);
      NestingIsFlat(missing, rows);
    case Call(body, ok, failed) =>
      var r := Flat(body, rows);
      NestingIsFlat(body, rows);
      NestingIsFlat(ok, rows);
      NestingIsFlat(failed, rows);
      NestingIsFlat(if r.ok then ok else failed, r.rows);
      ContinueMeans(Inlined(body), Inlined(ok), Inlined(failed), rows);
  }

  // ---- The implementation ------------------------------------------------------------------------------

  /** The database: committed rows and the number of transactions that are open. */
  class Database {
    var rows: seq<string>
    var open: nat

    constructor ()
      ensures rows == [] && open == 0
    {
      rows, open := [], 0;
    }
  }

  /** A transaction sees the rows committed when it began and its own. */
  class Tx {
    const db: Database
    var rows: seq<string>
    var done: bool

    constructor Begin(db: Database)
      modifies db`open
      ensures this.db == db && rows == db.rows && !done
      ensures db.open == old(db.open) + 1
    {
      this.db, rows, done := db, db.rows, false;
      new;
      db.open := db.open + 1;
    }

    /** `accepted` tells whether the database commits. Either way the transaction is over. */
    method Commit(accepted: bool) returns (ok: bool)
      requires !done && db.open > 0
      modifies this`done, db
      ensures done && ok == accepted
      ensures db.open == old(db.open) - 1
      ensures db.rows == if ok then rows else old(db.rows)
    {
      done := true;
      db.open := db.open - 1;
      if accepted {
        db.rows := rows;
      }
      ok := accepted;
    }

    /** Rolling back a finished transaction is the error that callers ignore. */
    method Rollback() returns (txDone: bool)
      requires !done ==> db.open > 0
      modifies this`done, db`open
      ensures done && txDone == old(done)
      ensures db.open == if txDone then old(db.open) else old(db.open) - 1
    {
      txDone := done;
      if !done {
        done := true;
        db.open := db.open - 1;
      }
    }
  }

  /** What a context carries from the outermost call on. */
  class Container {
    var tx: Tx?

    constructor ()
      ensures tx == null
    {
      tx := null;
    }

    method Commit(accepted: bool) returns (ok: bool)
      requires tx != null ==> !tx.done && tx.db.open > 0
      modifies this, tx, if tx == null then {} else {tx.db}
      ensures tx == null
      ensures old(tx) == null ==> ok
      ensures old(tx) != null ==>
                && old(tx).done && ok == accepted
                && old(tx).db.open == old(tx.db.open) - 1
                && old(tx).db.rows == if ok then old(tx.rows) else old(tx.db.rows)
    {
      if tx == null {
        return true;
      }
      ok := tx.Commit(accepted);
      tx := null;
    }

    method Rollback()
      requires tx != null ==> !tx.done && tx.db.open > 0
      modifies this, tx, if tx == null then {} else {tx.db}
      ensures tx == null
      ensures old(tx) != null ==>
                && old(tx).done && old(tx).db.open == old(tx.db.open) - 1 && old(tx).db.rows == old(tx.db.rows)
    {
      if tx == null {
        return;
      }
      var txDone := tx.Rollback();
      tx := null;
    }
  }

  /** The rows that statements see: the container's transaction if it has begun, else the database. */
  ghost function View(db: Database, tc: Container): seq<string>
    reads db, tc, tc.tx
  {
    if tc.tx == null then db.rows else tc.tx.rows
  }

  /** The container's transaction, if begun, is the one open transaction and it is on this database. */
  ghost predicate Joined(db: Database, tc: Container, outside: nat)
    reads db, tc, tc.tx
  {
    if tc.tx == null then db.open == outside
    else tc.tx.db == db && !tc.tx.done && db.open == outside + 1
  }

  /** The connection a statement uses within a container: it begins the transaction if there is none yet. */
  method GetDBTX(db: Database, tc: Container, ghost outside: nat) returns (tx: Tx)
    requires Joined(db, tc, outside)
    modifies tc, db`open
    ensures tc.tx == tx && Joined(db, tc, outside)
    ensures View(db, tc) == old(View(db, tc)) && db.rows == old(db.rows)
    ensures if old(tc.tx) == null then fresh(tx) else tx == old(tc.tx)
  {
    if tc.tx == null {
      tx := new Tx.Begin(db);
      tc.tx := tx;
    } else {
      tx := tc.tx;
    }
  }

  /** What beginning hands out: the container that was created, or nothing to commit or roll back. */
  datatype Transaction = Owner(tc: Container) | Noop {
    method Commit(accepted: bool) returns (ok: bool)
      requires Owner? && tc.tx != null ==> !tc.tx.done && tc.tx.db.open > 0
      modifies if Owner? then {tc, tc.tx} else {}, if Owner? && tc.tx != null then {tc.tx.db} else {}
      ensures Noop? ==> ok
      ensures Owner? ==> tc.tx == null
      ensures Owner? && old(tc.tx) == null ==> ok
      ensures Owner? && old(tc.tx) != null ==>
                && ok == accepted && old(tc.tx.db).open == old(tc.tx.db.open) - 1
                && old(tc.tx.db).rows == if ok then old(tc.tx.rows) else old(tc.tx.db.rows)
    {
      if Noop? {
        return true;
      }
      ok := tc.Commit(accepted);
    }

    method Rollback()
      requires Owner? && tc.tx != null ==> !tc.tx.done && tc.tx.db.open > 0
      modifies if Owner? then {tc, tc.tx} else {}, if Owner? && tc.tx != null then {tc.tx.db} else {}
      ensures Owner? ==> tc.tx == null
      ensures Owner? && old(tc.tx) != null ==>
                old(tc.tx.db).open == old(tc.tx.db.open) - 1 && old(tc.tx.db).rows == old(tc.tx.db.rows)
    {
      if Owner? {
        tc.Rollback();
      }
    }
  }

  /** Looks for a container in the context. Only a call that finds none gets one of its own. */
  method Begin(ctx: Container?) returns (tc: Container, trans: Transaction)
    ensures ctx != null ==> tc == ctx && trans == Noop
    ensures ctx == null ==> fresh(tc) && tc.tx == null && trans == Owner(tc)
  {
    if ctx != null {
      return ctx, Noop;
    }
    tc := new Container();
    return tc, Owner(tc);
  }

  /** The context's container, if there is one, is in order. */
  ghost predicate InContext(db: Database, ctx: Container?, outside: nat)
    reads db, ctx, if ctx == null then {} else {ctx.tx}
  {
    if ctx == null then db.open == outside else Joined(db, ctx, outside)
  }

  /** Runs the statements of a program in a container; `accepted` is the database's verdict on a commit. */
  method Execute(db: Database, tc: Container, p: Program, accepted: bool, ghost outside: nat) returns (ok: bool)
    requires Joined(db, tc, outside)
    modifies tc, tc.tx, db
    ensures Joined(db, tc, outside) && db.rows == old(db.rows)
    ensures old(tc.tx) != null ==> tc.tx == old(tc.tx)
    ensures old(tc.tx) == null && tc.tx != null ==> fresh(tc.tx)
    ensures Result(View(db, tc), ok) == Flat(p, old(View(db, tc)))
    decreases p, 0
  {
    match p
    case Return =>
      ok := true;
    case Fail =>
      ok := false;
    case Write(row, next) =>
      var tx := GetDBTX(db, tc, outside);
      tx.rows := tx.rows + [row];
      ok := Execute(db, tc, next, accepted, outside);
    case Test(row, found, missing) =>
      var tx := GetDBTX(db, tc, outside);
      if row in tx.rows {
        ok := Execute(db, tc, found, accepted, outside);
      } else {
        ok := Execute(db, tc, missing, accepted, outside);
      }
    case Call(body, onOk, onFailed) =>
      var r := Do(db, tc, body, accepted, outside);
      if r {
        ok := Execute(db, tc, onOk, accepted, outside);
      } else {
        ok := Execute(db, tc, onFailed, accepted, outside);
      }
  }

  /** Runs a transactional function, whether its context already has a container or not. Without one, all
      writes land, in order, exactly when it returns no error, otherwise none does, and no transaction stays
      open. With one, the writes are added to what the container's statements see and nothing is committed or
      rolled back, not even after an error. */
  method Do(db: Database, ctx: Container?, p: Program, accepted: bool, ghost outside: nat) returns (ok: bool)
    requires InContext(db, ctx, outside)
    modifies db, ctx, if ctx == null then {} else {ctx.tx}
    ensures InContext(db, ctx, outside)
    ensures ctx == null && ok ==> db.rows == Flat(p, old(db.rows)).rows && Flat(p, old(db.rows)).ok
    ensures ctx == null && ok ==> db.rows == Flat(Inlined(p), old(db.rows)).rows
    ensures ctx == null && !ok ==> db.rows == old(db.rows)
    ensures ctx == null && Flat(p, old(db.rows)).ok && accepted ==> ok
    ensures ctx != null ==> db.rows == old(db.rows) && Result(View(db, ctx), ok) == Flat(p, old(View(db, ctx)))
    ensures ctx != null && old(ctx.tx) != null ==> ctx.tx == old(ctx.tx)
    ensures ctx != null && old(ctx.tx) == null && ctx.tx != null ==> fresh(ctx.tx)
    decreases p, 1
  {
    NestingIsFlat(p, db.rows);
    var tc, trans := Begin(ctx);
    ok := Execute(db, tc, p, accepted, outside);
    if ok {
      ok := trans.Commit(accepted);
    }
    // The deferred rollback finds nothing to do after a commit, failed or not.
    trans.Rollback();
  }

  /** A list of outermost calls, one after the other. */
  method DoAll(db: Database, ps: seq<Program>, accepted: seq<bool>) returns (oks: seq<bool>)
    requires |accepted| == |ps|
    modifies db
    ensures |oks| == |ps| && db.rows == Serial(ps, oks, old(db.rows)) && db.open == old(db.open)
  {
    oks := [];
    for k := 0 to |ps|
      invariant |oks| == k && db.rows == Serial(ps[..k], oks, old(db.rows)) && db.open == old(db.open)
    {
      var ok := Do(db, null, ps[k], accepted[k], db.open);
      assert ps[..k + 1][..k] == ps[..k];
      oks := oks + [ok];
    }
    assert ps[..|ps|] == ps;
  }

  /** The rows after those programs that committed, each as one atomic step. */
  function Serial(ps: seq<Program>, oks: seq<bool>, rows: seq<string>): seq<string>
    requires |oks| == |ps|
  {
    if ps == [] then rows
    else
      var n := |ps| - 1;
      var before := Serial(ps[..n], oks[..n], rows);
      if oks[n] then Flat(ps[n], before).rows else before
  }
}
