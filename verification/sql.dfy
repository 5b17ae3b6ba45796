/** The `sql` package: a statement cache whose table is an immutable
    snapshot behind an atomically swapped pointer. Readers load the pointer
    without a lock; a writer copies the current snapshot, adds one entry to
    the copy and publishes the copy, so a snapshot a reader holds is never
    written. The heap of every snapshot ever published is kept explicitly,
    so that this last guarantee can be stated. */
module Sql {
  import opened Base
  import Protocol

  /** `DB`: `heap` holds the snapshots published so far, in publication
      order, and `root` is `stmtMapPtr` (`None` for the nil pointer). */
  datatype DB = DB(heap: seq<Table>, root: Option<nat>)

  /** The pointer, when set, names a published snapshot. */
  predicate Valid(db: DB)
  {
    db.root.Some? ==> db.root.value < |db.heap|
  }

  /** The table a reader sees through pointer `p`: a nil pointer reads as
      the empty table, as a nil Go map does. */
  function Deref(db: DB, p: Option<nat>): Table
    requires p.Some? ==> p.value < |db.heap|
  {
    match p
    case None => map[]
    case Some(a) => db.heap[a]
  }

  /** The snapshot currently published. */
  function Current(db: DB): Table
    requires Valid(db)
  {
    Deref(db, db.root)
  }

  /** `NewDB`: the pointer starts nil, which every reader sees as an empty
      table. */
  function NewDB(): (db: DB)
    ensures Valid(db) && db.root == None
    ensures Current(db) == map[]
    ensures forall q :: Probe(Current(db), q) == None
  {
    DB([], None)
  }

  /** The wrapper handed to callers; its `Close` releases nothing, because
      the cache owns the statement. */
  datatype Stmt = Stmt(stmt: Ptr)
  {
    function Close(): (err: Option<Error>)
      ensures err == None
    {
      None
    }
  }

  /** One call's result: the database afterwards, the returned statement and
      error, and how many times the database's prepare was invoked. */
  datatype Reply = Reply(db: DB, stmt: Stmt, err: Option<Error>, dbCalls: nat)

  /** The same call seen as a transition of the published table. */
  function AsOutcome(r: Reply): Protocol.Outcome
    requires Valid(r.db)
  {
    Protocol.Outcome(Current(r.db), r.stmt.stmt, r.err, r.dbCalls)
  }

  /** The part of `DB.Prepare` run under the writer lock: load the pointer
      again (another writer may have published since the lock-free read),
      and only if the statement is still missing call the database's
      prepare and, on success, publish a copy of the snapshot extended by
      the new entry. */
  function LockedPrepare(db: DB, q: Query, a: Answer): (r: Reply)
    requires Valid(db)
    ensures Valid(r.db)
    ensures Protocol.Obeys(Current(db), q, a, AsOutcome(r))
    ensures |db.heap| <= |r.db.heap| && r.db.heap[..|db.heap|] == db.heap
    ensures r.db.root != db.root ==> Protocol.Succeeded(AsOutcome(r))
    // a hit or a failure stores nothing; a success allocates and publishes one snapshot
    ensures !Protocol.Succeeded(AsOutcome(r)) ==> r.db == db
    ensures Protocol.Succeeded(AsOutcome(r)) ==>
              |r.db.heap| == |db.heap| + 1 && r.db.root == Some(|db.heap|)
  {
    var m := Deref(db, db.root);
    if Index(m, q) != Nil then
      Reply(db, Stmt(Index(m, q)), None, 0)
    else
      match a
      case Failed(e) => Reply(db, Stmt(Nil), Some(e), 1)
      case Prepared(p) =>
        var m2 := m[q := Ref(p)];
        Reply(DB(db.heap + [m2], Some(|db.heap|)), Stmt(Ref(p)), None, 1)
  }

  /** `DB.Prepare`: a lock-free lookup in the published snapshot, and on a
      miss the locked part. */
  function Prepare(db: DB, q: Query, a: Answer): (r: Reply)
    requires Valid(db)
    ensures Valid(r.db)
    ensures Protocol.Obeys(Current(db), q, a, AsOutcome(r))
    ensures |db.heap| <= |r.db.heap| && r.db.heap[..|db.heap|] == db.heap
    ensures r.db.root != db.root ==> Protocol.Succeeded(AsOutcome(r))
    // a hit or a failure stores nothing; a success allocates and publishes one snapshot
    ensures !Protocol.Succeeded(AsOutcome(r)) ==> r.db == db
    ensures Protocol.Succeeded(AsOutcome(r)) ==>
              |r.db.heap| == |db.heap| + 1 && r.db.root == Some(|db.heap|)
  {
    var m := Deref(db, db.root);
    if Index(m, q) != Nil then
      Reply(db, Stmt(Index(m, q)), None, 0)
    else
      LockedPrepare(db, q, a)
  }

  /** The copy loop of `DB.Prepare`: a fresh map receives every entry of the
      old snapshot, then the new entry. The old snapshot is only read. */
  method CopyAndInsert(m: Table, q: Query, s: Ptr) returns (m2: Table)
    ensures m2.Keys == m.Keys + {q}
    ensures m2[q] == s
    ensures forall k :: k in m && k != q ==> m2[k] == m[k]
    ensures m2 == m[q := s]
  {
    m2 := map[];
    var rest := m.Keys;
    while rest != {}
      invariant rest <= m.Keys
      invariant m2.Keys == m.Keys - rest
      invariant forall k :: k in m2 ==> m2[k] == m[k]
      decreases rest
    {
      var k :| k in rest;
      m2 := m2[k := m[k]];
      rest := rest - {k};
    }
    m2 := m2[q := s];
  }

  /** Copy-on-write: a snapshot a reader loaded before the call is, after
      the call, still present and exactly as it was. */
  lemma LoadedSnapshotUnchanged(db: DB, q: Query, a: Answer, p: Option<nat>)
    requires Valid(db)
    requires p.Some? ==> p.value < |db.heap|
    ensures var r := Prepare(db, q, a);
            (p.Some? ==> p.value < |r.db.heap|) && Deref(r.db, p) == Deref(db, p)
  {
    var r := Prepare(db, q, a);
    if p.Some? {
      assert r.db.heap[..|db.heap|][p.value] == db.heap[p.value];
    }
  }

  /** A reader that loaded the snapshot published after a call for `q1`
      still sees `q1`'s entry, and not `q2`'s, after a later call for a
      different query `q2` that was missing. */
  lemma ReaderKeepsOldSnapshot(db: DB, q1: Query, a1: Answer, q2: Query, a2: Answer)
    requires Valid(db)
    requires q1 != q2 && Probe(Current(db), q2) == None
    ensures var r1 := Prepare(db, q1, a1);
            var r2 := Prepare(r1.db, q2, a2);
            var held := r1.db.root;
            (held.Some? ==> held.value < |r2.db.heap|)
            && Deref(r2.db, held) == Current(r1.db)
            && Probe(Deref(r2.db, held), q2) == None
            && (r1.err == None ==> Probe(Deref(r2.db, held), q1) == Some(r1.stmt.stmt))
  {
    var r1 := Prepare(db, q1, a1);
    LoadedSnapshotUnchanged(r1.db, q2, a2, r1.db.root);
    Protocol.OtherKeysUntouched(Current(db), q1, a1, q2);
  }

  /** Keys are the literal query text: two queries that differ only in
      whitespace get separate entries, each prepared by its own call. */
  lemma WhitespaceMakesDistinctKeys(p1: nat, p2: nat)
    ensures var r1 := Prepare(NewDB(), "SELECT 1", Prepared(p1));
            var r2 := Prepare(r1.db, "SELECT  1", Prepared(p2));
            && r1.dbCalls == 1 && r2.dbCalls == 1 && r2.stmt == Stmt(Ref(p2))
            && Probe(Current(r2.db), "SELECT 1") == Some(Ref(p1))
            && Probe(Current(r2.db), "SELECT  1") == Some(Ref(p2))
  {
    var r1 := Prepare(NewDB(), "SELECT 1", Prepared(p1));
    assert "SELECT 1" != "SELECT  1" by {
      assert |"SELECT 1"| != |"SELECT  1"|;
    }
    assert Probe(Current(r1.db), "SELECT  1") == None;
  }

  /** The snapshot cache makes the same transitions as the in-place
      protocol: same statement, error and database calls, and its
      published table is the protocol's table. */
  lemma RefinesProtocol(db: DB, q: Query, a: Answer)
    requires Valid(db)
    ensures AsOutcome(Prepare(db, q, a)) == Protocol.GetOrPrepare(Current(db), q, a)
  {
    var r := Prepare(db, q, a);
    Protocol.ObeysDeterminesOutcome(Current(db), q, a, AsOutcome(r),
                                    Protocol.GetOrPrepare(Current(db), q, a));
  }

  /** How many times the database prepared `q` successfully during a
      sequence of calls. */
  function PrepareCount(db: DB, calls: seq<Protocol.Call>, q: Query): nat
    requires Valid(db)
    decreases |calls|
  {
    if |calls| == 0 then 0
    else
      var r := Prepare(db, calls[0].query, calls[0].answer);
      (if calls[0].query == q && Protocol.Succeeded(AsOutcome(r)) then 1 else 0)
      + PrepareCount(r.db, calls[1..], q)
  }

  /** Counting successful prepares on the snapshot cache gives the same
      number as on the in-place protocol started from the published table. */
  lemma {:induction false} PrepareCountMatches(db: DB, calls: seq<Protocol.Call>, q: Query)
    requires Valid(db)
    ensures PrepareCount(db, calls, q) == Protocol.PrepareCount(Current(db), calls, q)
    decreases |calls|
  {
    if |calls| > 0 {
      var r := Prepare(db, calls[0].query, calls[0].answer);
      RefinesProtocol(db, calls[0].query, calls[0].answer);
      PrepareCountMatches(r.db, calls[1..], q);
    }
  }

  /** At most one successful prepare per query over any sequence of calls
      on the snapshot cache, and none for a query already published. */
  lemma AtMostOnePrepare(db: DB, calls: seq<Protocol.Call>, q: Query)
    requires Valid(db)
    ensures PrepareCount(db, calls, q) <= if Probe(Current(db), q).Some? then 0 else 1
  {
    PrepareCountMatches(db, calls, q);
    Protocol.AtMostOnePrepare(Current(db), calls, q);
  }

  /** The outcomes, seen on the published table, of a sequence of calls
      made one after another. */
  function Steps(db: DB, calls: seq<Protocol.Call>): (os: seq<Protocol.Outcome>)
    requires Valid(db)
    ensures |os| == |calls|
    decreases |calls|
  {
    if |calls| == 0 then []
    else
      var r := Prepare(db, calls[0].query, calls[0].answer);
      [AsOutcome(r)] + Steps(r.db, calls[1..])
  }

  /** Over any sequence of calls, the snapshot cache goes through exactly the
      outcomes of the in-place protocol started from the published table. */
  lemma {:induction false} StepsMatch(db: DB, calls: seq<Protocol.Call>)
    requires Valid(db)
    ensures Steps(db, calls) == Protocol.Steps(Current(db), calls)
    decreases |calls|
  {
    if |calls| > 0 {
      var r := Prepare(db, calls[0].query, calls[0].answer);
      RefinesProtocol(db, calls[0].query, calls[0].answer);
      StepsMatch(r.db, calls[1..]);
    }
  }

  /** A published query stays published through any sequence of calls, and
      every call for it returns the cached statement, with no error, without
      calling the database. */
  lemma StaysCached(db: DB, calls: seq<Protocol.Call>, q: Query, s: Ptr)
    requires Valid(db)
    requires Probe(Current(db), q) == Some(s)
    ensures forall i :: 0 <= i < |calls| ==>
              Probe(Steps(db, calls)[i].table, q) == Some(s)
              && (calls[i].query == q ==>
                    Steps(db, calls)[i].dbCalls == 0 && Steps(db, calls)[i].stmt == s
                    && Steps(db, calls)[i].err == None)
  {
    StepsMatch(db, calls);
    Protocol.StaysCached(Current(db), calls, q, s);
  }

  /** Sequential at-most-one-prepare on the snapshot cache: after call `i`
      prepared its query successfully, every later call `j` for the same
      query returns the same statement with no error and does not call the
      database. */
  lemma SameStatementAfterSuccess(db: DB, calls: seq<Protocol.Call>, i: nat, j: nat)
    requires Valid(db)
    requires i < j < |calls|
    requires calls[i].query == calls[j].query
    requires Protocol.Succeeded(Steps(db, calls)[i])
    ensures Steps(db, calls)[j].dbCalls == 0
    ensures Steps(db, calls)[j].stmt == Steps(db, calls)[i].stmt
    ensures Steps(db, calls)[j].err == None
  {
    StepsMatch(db, calls);
    Protocol.SameStatementAfterSuccess(Current(db), calls, i, j);
  }

  /** What a caller does with the cache: acquire a statement, or close a
      statement it holds. */
  datatype Op = Acquire(query: Query, answer: Answer) | Release(stmt: Stmt)

  /** The state after a sequence of operations, the errors every `Close`
      reported, and the number of database prepare calls. */
  datatype Session = Session(db: DB, closeErrs: seq<Option<Error>>, dbCalls: nat)

  function Run(db: DB, ops: seq<Op>): (s: Session)
    requires Valid(db)
    ensures Valid(s.db)
    decreases |ops|
  {
    if |ops| == 0 then Session(db, [], 0)
    else
      match ops[0]
      case Acquire(q, a) =>
        var r := Prepare(db, q, a);
        var s := Run(r.db, ops[1..]);
        Session(s.db, s.closeErrs, r.dbCalls + s.dbCalls)
      case Release(st) =>
        var s := Run(db, ops[1..]);
        Session(s.db, [st.Close()] + s.closeErrs, s.dbCalls)
  }

  /** The acquisitions of a sequence of operations, in order. */
  function Acquisitions(ops: seq<Op>): seq<Op>
    decreases |ops|
  {
    if |ops| == 0 then []
    else if ops[0].Acquire? then [ops[0]] + Acquisitions(ops[1..])
    else Acquisitions(ops[1..])
  }

  /** Closing is a no-op: every `Close` reports success, and removing all of
      them from a sequence of operations changes neither the cache nor the
      number of database prepare calls. */
  lemma {:induction false} CloseIsNoOp(db: DB, ops: seq<Op>)
    requires Valid(db)
    ensures forall e :: e in Run(db, ops).closeErrs ==> e == None
    ensures Run(db, Acquisitions(ops)).db == Run(db, ops).db
    ensures Run(db, Acquisitions(ops)).dbCalls == Run(db, ops).dbCalls
    decreases |ops|
  {
    if |ops| > 0 {
      match ops[0]
      case Acquire(q, a) =>
        var r := Prepare(db, q, a);
        CloseIsNoOp(r.db, ops[1..]);
        assert Acquisitions(ops) == [ops[0]] + Acquisitions(ops[1..]);
        assert ([ops[0]] + Acquisitions(ops[1..]))[1..] == Acquisitions(ops[1..]);
      case Release(st) =>
        CloseIsNoOp(db, ops[1..]);
    }
  }
}
