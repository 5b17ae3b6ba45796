/** The `sqlx` package: three independent statement caches, one per kind of
    statement (`Prepare`, `Preparex`, `PrepareNamed`), each a plain map
    guarded by its own read-write lock and following the get-or-prepare
    protocol. */
module Sqlx {
  import opened Base
  import Protocol

  /** `DB`: the three statement tables. */
  datatype DB = DB(stmtSet: Table, stmtxSet: Table, namedStmtSet: Table)

  /** Which of the three caches a call goes to. */
  datatype Kind = Plain | Extended | Named

  function TableOf(db: DB, k: Kind): Table
  {
    match k
    case Plain => db.stmtSet
    case Extended => db.stmtxSet
    case Named => db.namedStmtSet
  }

  /** `NewDB`: all three caches start empty, so the first call of each kind
      for any query goes to the database. */
  function NewDB(): (db: DB)
    ensures db.stmtSet == map[] && db.stmtxSet == map[] && db.namedStmtSet == map[]
    ensures forall k: Kind, q :: Probe(TableOf(db, k), q) == None
  {
    DB(map[], map[], map[])
  }

  /** Wrappers handed to callers; their `Close` releases nothing. */
  datatype Stmt = Stmt(stmt: Ptr)
  {
    function Close(): (err: Option<Error>)
      ensures err == None
    {
      None
    }
  }

  datatype Stmtx = Stmtx(stmt: Ptr)
  {
    function Close(): (err: Option<Error>)
      ensures err == None
    {
      None
    }
  }

  datatype NamedStmt = NamedStmt(namedStmt: Ptr)
  {
    function Close(): (err: Option<Error>)
      ensures err == None
    {
      None
    }
  }

  /** One call's result: the database afterwards, the returned wrapper and
      error, and how many times the database's prepare was invoked. */
  datatype Reply<W> = Reply(db: DB, stmt: W, err: Option<Error>, dbCalls: nat)

  /** `DB.Prepare`: get-or-prepare on `stmtSet` only. */
  function Prepare(db: DB, q: Query, a: Answer): (r: Reply<Stmt>)
    ensures Protocol.Obeys(db.stmtSet, q, a,
                           Protocol.Outcome(r.db.stmtSet, r.stmt.stmt, r.err, r.dbCalls))
    ensures r.db.stmtxSet == db.stmtxSet && r.db.namedStmtSet == db.namedStmtSet
  {
    var o := Protocol.GetOrPrepare(db.stmtSet, q, a);
    Reply(db.(stmtSet := o.table), Stmt(o.stmt), o.err, o.dbCalls)
  }

  /** `DB.Preparex`: get-or-prepare on `stmtxSet` only. */
  function Preparex(db: DB, q: Query, a: Answer): (r: Reply<Stmtx>)
    ensures Protocol.Obeys(db.stmtxSet, q, a,
                           Protocol.Outcome(r.db.stmtxSet, r.stmt.stmt, r.err, r.dbCalls))
    ensures r.db.stmtSet == db.stmtSet && r.db.namedStmtSet == db.namedStmtSet
  {
    var o := Protocol.GetOrPrepare(db.stmtxSet, q, a);
    Reply(db.(stmtxSet := o.table), Stmtx(o.stmt), o.err, o.dbCalls)
  }

  /** `DB.PrepareNamed`: get-or-prepare on `namedStmtSet` only. */
  function PrepareNamed(db: DB, q: Query, a: Answer): (r: Reply<NamedStmt>)
    ensures Protocol.Obeys(db.namedStmtSet, q, a,
                           Protocol.Outcome(r.db.namedStmtSet, r.stmt.namedStmt, r.err, r.dbCalls))
    ensures r.db.stmtSet == db.stmtSet && r.db.stmtxSet == db.stmtxSet
  {
    var o := Protocol.GetOrPrepare(db.namedStmtSet, q, a);
    Reply(db.(namedStmtSet := o.table), NamedStmt(o.stmt), o.err, o.dbCalls)
  }

  /** One call of a mixed sequence: the cache it goes to, its query and
      what the database would answer. */
  datatype Call = Call(kind: Kind, query: Query, answer: Answer)

  /** A call as the outcome seen from its own cache, with the database
      afterwards. */
  function Dispatch(db: DB, c: Call): (DB, Protocol.Outcome)
  {
    match c.kind
    case Plain =>
      var r := Prepare(db, c.query, c.answer);
      (r.db, Protocol.Outcome(r.db.stmtSet, r.stmt.stmt, r.err, r.dbCalls))
    case Extended =>
      var r := Preparex(db, c.query, c.answer);
      (r.db, Protocol.Outcome(r.db.stmtxSet, r.stmt.stmt, r.err, r.dbCalls))
    case Named =>
      var r := PrepareNamed(db, c.query, c.answer);
      (r.db, Protocol.Outcome(r.db.namedStmtSet, r.stmt.namedStmt, r.err, r.dbCalls))
  }

  /** The caches are independent: a call obeys the protocol on its own
      cache and leaves the other two exactly as they were. */
  lemma CachesIndependent(db: DB, c: Call, k: Kind)
    ensures var (db', o) := Dispatch(db, c);
            && Protocol.Obeys(TableOf(db, c.kind), c.query, c.answer, o)
            && o.table == TableOf(db', c.kind)
            && (k != c.kind ==> TableOf(db', k) == TableOf(db, k))
  {
  }

  /** The database after each call of a mixed sequence, and each call's
      outcome. */
  function Steps(db: DB, calls: seq<Call>): (os: seq<(DB, Protocol.Outcome)>)
    ensures |os| == |calls|
    decreases |calls|
  {
    if |calls| == 0 then []
    else
      var d := Dispatch(db, calls[0]);
      [d] + Steps(d.0, calls[1..])
  }

  /** A query cached in one cache stays cached there through any mixed
      sequence of calls, and every call of that kind for it returns the
      cached statement, with no error, without calling the database. */
  lemma {:induction false} StaysCached(db: DB, calls: seq<Call>, k: Kind, q: Query, s: Ptr)
    requires Probe(TableOf(db, k), q) == Some(s)
    ensures forall i :: 0 <= i < |calls| ==>
              Probe(TableOf(Steps(db, calls)[i].0, k), q) == Some(s)
              && (calls[i].kind == k && calls[i].query == q ==>
                    Steps(db, calls)[i].1.dbCalls == 0 && Steps(db, calls)[i].1.stmt == s
                    && Steps(db, calls)[i].1.err == None)
    decreases |calls|
  {
    if |calls| > 0 {
      var d := Dispatch(db, calls[0]);
      CachesIndependent(db, calls[0], k);
      if calls[0].kind == k {
        Protocol.CachedEntryStays(TableOf(db, k), calls[0].query, calls[0].answer, q);
      }
      StaysCached(d.0, calls[1..], k, q, s);
      forall i | 1 <= i < |calls|
        ensures Steps(db, calls)[i] == Steps(d.0, calls[1..])[i - 1]
      {
      }
    }
  }

  /** After call `i` prepared its query successfully in its cache, every
      later call to the same cache with the same query returns the same
      statement with no error and does not call the database. */
  lemma {:induction false} SameStatementAfterSuccess(db: DB, calls: seq<Call>, i: nat, j: nat)
    requires i < j < |calls|
    requires calls[i].kind == calls[j].kind && calls[i].query == calls[j].query
    requires Protocol.Succeeded(Steps(db, calls)[i].1)
    ensures Steps(db, calls)[j].1.dbCalls == 0
    ensures Steps(db, calls)[j].1.stmt == Steps(db, calls)[i].1.stmt
    ensures Steps(db, calls)[j].1.err == None
    decreases i
  {
    var d := Dispatch(db, calls[0]);
    var rest := calls[1..];
    assert Steps(db, calls)[j] == Steps(d.0, rest)[j - 1];
    if i == 0 {
      CachesIndependent(db, calls[0], calls[0].kind);
      assert Probe(TableOf(d.0, calls[0].kind), calls[0].query) == Some(d.1.stmt);
      StaysCached(d.0, rest, calls[0].kind, calls[0].query, d.1.stmt);
    } else {
      assert Steps(db, calls)[i] == Steps(d.0, rest)[i - 1];
      SameStatementAfterSuccess(d.0, rest, i - 1, j - 1);
    }
  }

  /** Nothing is shared between caches: after `Prepare` cached a query, a
      `Preparex` or `PrepareNamed` of the same query on the fresh caches
      still goes to the database. */
  lemma NothingSharedAcrossKinds(q: Query, p: nat, a: Answer)
    ensures var r := Prepare(NewDB(), q, Prepared(p));
            && r.err == None
            && Preparex(r.db, q, a).dbCalls == 1
            && PrepareNamed(r.db, q, a).dbCalls == 1
  {
    var db := NewDB();
    assert Probe(TableOf(db, Extended), q) == None;
    assert Probe(TableOf(db, Named), q) == None;
  }
}
