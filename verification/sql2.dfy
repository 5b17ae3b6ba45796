/** The `sql2` package: the get-or-prepare protocol over a capacity-limited
    cache reached only through its `Get`, `Add` and `SetSize` operations.
    The cache's contents and eviction policy are not part of this model: the
    replies of the two `Get` calls are parameters, and the calls `Prepare`
    makes on the cache and on the database are returned, in order, as
    effects. */
module Sql2 {
  import opened Base
  import Protocol

  /** `DefaultCacheSize`: the capacity of a new cache, and the fallback for
      a requested capacity that is not positive. */
  const DefaultCacheSize: int := 1024

  /** `DB`: the capacity the cache was last configured with. */
  datatype DB = DB(cacheSize: int)

  /** `NewDB`: the cache is created with the default capacity. */
  function NewDB(): (db: DB)
    ensures db.cacheSize == DefaultCacheSize && db.cacheSize > 0
  {
    DB(DefaultCacheSize)
  }

  /** `DB.SetCacheSize`: a positive size is passed to the cache as it is;
      any other size is replaced by the default. */
  function SetCacheSize(db: DB, size: int): (r: DB)
    ensures r.cacheSize > 0
    ensures r.cacheSize == size <==> size > 0
    ensures size <= 0 ==> r.cacheSize == DefaultCacheSize
  {
    if size <= 0 then DB(DefaultCacheSize) else DB(size)
  }

  /** Normalisation is idempotent, and the new capacity depends only on the
      requested size, not on the capacity configured before. */
  lemma SetCacheSizeIdempotent(db: DB, db0: DB, size: int)
    ensures var r := SetCacheSize(db, size);
            SetCacheSize(r, r.cacheSize) == r && SetCacheSize(db0, size) == r
  {
  }

  /** The wrapper handed to callers; its `Close` releases nothing. */
  datatype Stmt = Stmt(stmt: Ptr)
  {
    function Close(): (err: Option<Error>)
      ensures err == None
    {
      None
    }
  }

  /** What the cache's `Get` returned: a value, `ErrNotFound`, or any other
      error. */
  datatype GetReply = Found(value: Stmt) | NotFound | GetFailed(err: Error)

  /** A call `Prepare` makes on the cache or on the database. */
  datatype Effect = CacheGet(key: Query) | DbPrepare(key: Query) | CacheAdd(key: Query, value: Stmt)

  /** One call's result: the returned statement and error, and the calls
      made, in order. */
  datatype Reply = Reply(stmt: Stmt, err: Option<Error>, effects: seq<Effect>)

  /** `DB.Prepare` for query `q`, when the first `Get` replies `first`, the
      `Get` under the writer lock replies `second` and the database would
      answer `a`. */
  function Prepare(q: Query, first: GetReply, second: GetReply, a: Answer): (r: Reply)
    // every call is about `q`, in protocol order, at most one prepare and one add
    ensures 0 < |r.effects|
    ensures r.effects <= [CacheGet(q), CacheGet(q), DbPrepare(q), CacheAdd(q, r.stmt)]
    // a hit or an error on the first lookup returns before the lock: one `Get` only
    ensures |r.effects| == if !first.NotFound? then 1
                           else if !second.NotFound? then 2
                           else if a.Failed? then 3
                           else 4
    // the database is asked only after both lookups missed
    ensures DbPrepare(q) in r.effects <==> first.NotFound? && second.NotFound?
    // the statement is added only after the database prepared it
    ensures CacheAdd(q, r.stmt) in r.effects <==> first.NotFound? && second.NotFound? && a.Prepared?
    // a hit on either lookup returns the cached value
    ensures first.Found? ==> r.stmt == first.value && r.err == None
    ensures first.NotFound? && second.Found? ==> r.stmt == second.value && r.err == None
    // errors other than `ErrNotFound`, and database failures, are returned as they are
    ensures first.GetFailed? ==> r.err == Some(first.err)
    ensures first.NotFound? && second.GetFailed? ==> r.err == Some(second.err)
    ensures first.NotFound? && second.NotFound? && a.Failed? ==> r.err == Some(a.err)
    ensures r.err.Some? ==> r.stmt == Stmt(Nil)
    // on success the statement added is the one returned
    ensures first.NotFound? && second.NotFound? && a.Prepared? ==>
              r.err == None && r.stmt == Stmt(Ref(a.addr))
  {
    match first
    case GetFailed(e) => Reply(Stmt(Nil), Some(e), [CacheGet(q)])
    case Found(v) => Reply(v, None, [CacheGet(q)])
    case NotFound =>
      match second
      case GetFailed(e) => Reply(Stmt(Nil), Some(e), [CacheGet(q), CacheGet(q)])
      case Found(v) => Reply(v, None, [CacheGet(q), CacheGet(q)])
      case NotFound =>
        match a
        case Failed(e) => Reply(Stmt(Nil), Some(e), [CacheGet(q), CacheGet(q), DbPrepare(q)])
        case Prepared(p) =>
          var s := Stmt(Ref(p));
          Reply(s, None, [CacheGet(q), CacheGet(q), DbPrepare(q), CacheAdd(q, s)])
  }

  /** The reply of a cache that holds exactly table `m` and never fails. */
  function GetFrom(m: Table, q: Query): GetReply
  {
    if q in m then Found(Stmt(m[q])) else NotFound
  }

  /** The table `m` after the calls a `Prepare` made on it. */
  function Apply(m: Table, effects: seq<Effect>): Table
    decreases |effects|
  {
    if |effects| == 0 then m
    else
      match effects[0]
      case CacheAdd(k, v) => Apply(m[k := v.stmt], effects[1..])
      case _ => Apply(m, effects[1..])
  }

  /** Against a cache that behaves as a plain table with no nil entries,
      `sql2`'s `Prepare` makes the same transition as the in-place
      protocol: same statement, same error, a database call exactly when
      the protocol makes one, and the same table once its `Add` is done. */
  lemma AgreesWithProtocol(m: Table, q: Query, a: Answer)
    requires NoNil(m)
    ensures var g := GetFrom(m, q);
            var r := Prepare(q, g, g, a);
            var o := Protocol.GetOrPrepare(m, q, a);
            && r.stmt.stmt == o.stmt && r.err == o.err
            && (DbPrepare(q) in r.effects <==> o.dbCalls == 1)
            && Apply(m, r.effects) == o.table
  {
    var g := GetFrom(m, q);
    var r := Prepare(q, g, g, a);
    var o := Protocol.GetOrPrepare(m, q, a);
    if q !in m && a.Prepared? {
      var s := Stmt(Ref(a.addr));
      assert r.effects == [CacheGet(q), CacheGet(q), DbPrepare(q)] + [CacheAdd(q, s)];
      ApplyAppendAdd(m, [CacheGet(q), CacheGet(q), DbPrepare(q)], q, s);
      ApplyWithoutAdds(m, [CacheGet(q), CacheGet(q), DbPrepare(q)]);
    } else {
      ApplyWithoutAdds(m, r.effects);
    }
  }

  /** Calls other than `Add` leave the table as it is. */
  lemma {:induction false} ApplyWithoutAdds(m: Table, effects: seq<Effect>)
    requires forall i :: 0 <= i < |effects| ==> !effects[i].CacheAdd?
    ensures Apply(m, effects) == m
    decreases |effects|
  {
    if |effects| > 0 {
      ApplyWithoutAdds(m, effects[1..]);
    }
  }

  /** A final `Add` stores its value under its key. */
  lemma {:induction false} ApplyAppendAdd(m: Table, effects: seq<Effect>, k: Query, v: Stmt)
    ensures Apply(m, effects + [CacheAdd(k, v)]) == Apply(m, effects)[k := v.stmt]
    decreases |effects|
  {
    if |effects| == 0 {
      assert [CacheAdd(k, v)][1..] == [];
    } else {
      assert (effects + [CacheAdd(k, v)])[1..] == effects[1..] + [CacheAdd(k, v)];
      match effects[0]
      case CacheAdd(k0, v0) => ApplyAppendAdd(m[k0 := v0.stmt], effects[1..], k, v);
      case _ => ApplyAppendAdd(m, effects[1..], k, v);
    }
  }
}
