/** Values shared by the three statement caches: query keys, statement
    pointers, database errors, and the database client's answer to one
    prepare call. */
module Base {

  /** The literal query text; keys are compared for exact equality. */
  type Query = string

  datatype Option<+T> = None | Some(value: T)

  /** A Go pointer to a prepared statement (`*sql.Stmt`, `*sqlx.Stmt` or
      `*sqlx.NamedStmt`): nil, or the address of a live statement. A wrapper
      struct that only embeds such a pointer is represented by the pointer. */
  datatype Ptr = Nil | Ref(addr: nat)

  /** An error value returned by the database client, passed on unchanged. */
  datatype Error = Error(message: string)

  /** What the database client's prepare call returned. On success the
      statement pointer is never nil, as the client guarantees. */
  datatype Answer = Prepared(addr: nat) | Failed(err: Error)

  /** A statement table `map[query]Stmt`. */
  type Table = map<Query, Ptr>

  /** Go's map index `m[q]`: the zero value (a nil pointer) when `q` is absent. */
  function Index(m: Table, q: Query): Ptr
  {
    if q in m then m[q] else Nil
  }

  /** The nil-checked read `stmt = m[q]; stmt.Stmt != nil` used by every
      lookup: `Some` on a hit, `None` on a miss. */
  function Probe(m: Table, q: Query): Option<Ptr>
  {
    if Index(m, q) != Nil then Some(Index(m, q)) else None
  }

  /** No table entry holds a nil pointer. */
  predicate NoNil(m: Table)
  {
    forall q :: q in m ==> m[q] != Nil
  }
}
