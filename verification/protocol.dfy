/** The get-or-prepare protocol on one statement table, as the sqlx package
    writes it for each of its caches: a read-locked lookup, then under the
    write lock a second lookup, and only on a second miss one call to the
    database's prepare, whose statement is inserted on success. With the
    locks taken as atomic steps, each call is a pure transition of the
    table. */
module Protocol {
  import opened Base

  /** One call's result: the table afterwards, the returned statement
      pointer (nil alongside an error), the error, and how many times the
      database's prepare was invoked. */
  datatype Outcome = Outcome(table: Table, stmt: Ptr, err: Option<Error>, dbCalls: nat)

  /** The call invoked the database's prepare and it succeeded. */
  predicate Succeeded(o: Outcome)
  {
    o.dbCalls == 1 && o.err == None
  }

  /** The contract every variant of the cache keeps, for a call with query
      `q` on table `m` when the database would answer `a`:
      a hit returns the cached statement, changes nothing and does not call
      the database; a miss calls the database exactly once; a failure is
      returned and leaves the table as it was; a success inserts exactly
      `q` with the new statement and keeps every other entry. */
  predicate Obeys(m: Table, q: Query, a: Answer, o: Outcome)
  {
    match Probe(m, q)
    case Some(s) =>
      o.table == m && o.stmt == s && o.err == None && o.dbCalls == 0
    case None =>
      && o.dbCalls == 1
      && match a
         case Failed(e) =>
           o.table == m && o.stmt == Nil && o.err == Some(e)
         case Prepared(p) =>
           && o.stmt == Ref(p) && o.err == None
           && o.table.Keys == m.Keys + {q}
           && o.table[q] == Ref(p)
           && forall k :: k in m && k != q ==> o.table[k] == m[k]
  }

  /** The part of a call that runs under the write lock: look again, and
      prepare and insert only if the statement is still missing. Because the
      second look happens under the lock, the database is never asked to
      prepare a query that the table holds at that moment, whatever other
      writers did since the lock-free read. */
  function Locked(m: Table, q: Query, a: Answer): (o: Outcome)
    ensures Obeys(m, q, a, o)
    ensures o.dbCalls == 1 <==> Probe(m, q) == None
  {
    match Probe(m, q)
    case Some(s) => Outcome(m, s, None, 0)
    case None =>
      match a
      case Failed(e) => Outcome(m, Nil, Some(e), 1)
      case Prepared(p) => Outcome(m[q := Ref(p)], Ref(p), None, 1)
  }

  /** A whole call: the lock-free read, and on a miss the locked part. */
  function GetOrPrepare(m: Table, q: Query, a: Answer): (o: Outcome)
    ensures Obeys(m, q, a, o)
    ensures o == Locked(m, q, a)
  {
    match Probe(m, q)
    case Some(s) => Outcome(m, s, None, 0)
    case None => Locked(m, q, a)
  }

  /** The contract pins the outcome down: any two outcomes that keep it for
      the same call are equal. */
  lemma ObeysDeterminesOutcome(m: Table, q: Query, a: Answer, o1: Outcome, o2: Outcome)
    requires Obeys(m, q, a, o1) && Obeys(m, q, a, o2)
    ensures o1 == o2
  {
    if Probe(m, q) == None && a.Prepared? {
      assert o1.table.Keys == o2.table.Keys;
      forall k | k in o1.table
        ensures o1.table[k] == o2.table[k]
      {
        if k != q {
          assert k in m;
        }
      }
      assert o1.table == o2.table;
    }
  }

  /** A call for query `k` never adds, changes or removes the entry of any
      other query: keys are compared exactly. */
  lemma OtherKeysUntouched(m: Table, k: Query, a: Answer, q: Query)
    requires k != q
    ensures Index(GetOrPrepare(m, k, a).table, q) == Index(m, q)
    ensures q in GetOrPrepare(m, k, a).table <==> q in m
  {
  }

  /** Once a query is cached, every call keeps its entry as it is. */
  lemma CachedEntryStays(m: Table, k: Query, a: Answer, q: Query)
    requires Probe(m, q).Some?
    ensures Probe(GetOrPrepare(m, k, a).table, q) == Probe(m, q)
  {
  }

  /** A failure does not poison the cache: a later call for the same query
      asks the database again and caches that statement if it succeeds. */
  lemma FailureIsRetried(m: Table, q: Query, e: Error, p: nat)
    requires Probe(m, q) == None
    ensures var o1 := GetOrPrepare(m, q, Failed(e));
            var o2 := GetOrPrepare(o1.table, q, Prepared(p));
            o1.table == m && o2.dbCalls == 1 && o2.stmt == Ref(p)
            && Probe(o2.table, q) == Some(Ref(p))
  {
  }

  /** One call of a sequence: its query and what the database would answer. */
  datatype Call = Call(query: Query, answer: Answer)

  /** The outcomes of a sequence of calls made one after another. */
  function Steps(m: Table, calls: seq<Call>): (os: seq<Outcome>)
    ensures |os| == |calls|
    decreases |calls|
  {
    if |calls| == 0 then []
    else
      var o := GetOrPrepare(m, calls[0].query, calls[0].answer);
      [o] + Steps(o.table, calls[1..])
  }

  /** How many times the database prepared `q` successfully during a
      sequence of calls: the per-key prepare counter. */
  function PrepareCount(m: Table, calls: seq<Call>, q: Query): nat
    decreases |calls|
  {
    if |calls| == 0 then 0
    else
      var o := GetOrPrepare(m, calls[0].query, calls[0].answer);
      (if calls[0].query == q && Succeeded(o) then 1 else 0)
      + PrepareCount(o.table, calls[1..], q)
  }

  /** At most one successful prepare per query over any sequence of calls,
      and none at all for a query that is already cached. */
  lemma {:induction false} AtMostOnePrepare(m: Table, calls: seq<Call>, q: Query)
    ensures PrepareCount(m, calls, q) <= if Probe(m, q).Some? then 0 else 1
    decreases |calls|
  {
    if |calls| > 0 {
      var c := calls[0];
      var o := GetOrPrepare(m, c.query, c.answer);
      AtMostOnePrepare(o.table, calls[1..], q);
      if c.query != q {
        OtherKeysUntouched(m, c.query, c.answer, q);
      } else if Probe(m, q).Some? {
        CachedEntryStays(m, c.query, c.answer, q);
      }
    }
  }

  /** A cached query stays cached through any sequence of calls, and every
      call for it in that sequence returns the cached statement, with no
      error, without calling the database. */
  lemma {:induction false} StaysCached(m: Table, calls: seq<Call>, q: Query, s: Ptr)
    requires Probe(m, q) == Some(s)
    ensures forall i :: 0 <= i < |calls| ==>
              Probe(Steps(m, calls)[i].table, q) == Some(s)
              && (calls[i].query == q ==>
                    Steps(m, calls)[i].dbCalls == 0 && Steps(m, calls)[i].stmt == s
                    && Steps(m, calls)[i].err == None)
    decreases |calls|
  {
    if |calls| > 0 {
      var o := GetOrPrepare(m, calls[0].query, calls[0].answer);
      CachedEntryStays(m, calls[0].query, calls[0].answer, q);
      StaysCached(o.table, calls[1..], q, s);
      forall i | 1 <= i < |calls|
        ensures Steps(m, calls)[i] == Steps(o.table, calls[1..])[i - 1]
      {
      }
    }
  }

  /** Sequential at-most-one-prepare: after call `i` prepared its query
      successfully, every later call `j` for the same query returns the
      same statement with no error and does not call the database. */
  lemma {:induction false} SameStatementAfterSuccess(m: Table, calls: seq<Call>, i: nat, j: nat)
    requires i < j < |calls|
    requires calls[i].query == calls[j].query
    requires Succeeded(Steps(m, calls)[i])
    ensures Steps(m, calls)[j].dbCalls == 0
    ensures Steps(m, calls)[j].stmt == Steps(m, calls)[i].stmt
    ensures Steps(m, calls)[j].err == None
    decreases i
  {
    var o := GetOrPrepare(m, calls[0].query, calls[0].answer);
    var rest := calls[1..];
    assert Steps(m, calls)[j] == Steps(o.table, rest)[j - 1];
    if i == 0 {
      assert Probe(o.table, calls[0].query) == Some(o.stmt);
      StaysCached(o.table, rest, calls[0].query, o.stmt);
    } else {
      assert Steps(m, calls)[i] == Steps(o.table, rest)[i - 1];
      SameStatementAfterSuccess(o.table, rest, i - 1, j - 1);
    }
  }
}
