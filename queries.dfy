/**
 * The part of Django's ORM that the connection field relies on: a lazy query
 * with a `distinct` flag, `.distinct()`, `&`, `.count()` and object identity,
 * and the two shapes a resolver's value can take once normalised.
 */
module Queries {

  /** Object identity of a query. Derived queries are new objects. */
  datatype QueryId = Root(n: nat) | DistinctOf(base: QueryId) | Combined(left: QueryId, right: QueryId)

  /** A lazy query: its identity, its `query.distinct` flag and the rows it selects. */
  datatype Query<T> = Query(id: QueryId, distinct: bool, rows: set<T>)

  /** `qs.distinct()`: a new query over the same rows with the flag set. */
  function Distinct<T>(q: Query<T>): (r: Query<T>)
    ensures r.distinct && r.rows == q.rows
  {
    Query(DistinctOf(q.id), true, q.rows)
  }

  /**
   * `a & b`: the AND-combination of two queries. Django refuses to combine a
   * distinct query with a non-distinct one, hence the precondition.
   */
  function And<T>(a: Query<T>, b: Query<T>): (r: Query<T>)
    requires a.distinct == b.distinct
    ensures r.distinct == a.distinct
    ensures r.rows == a.rows * b.rows
  {
    Query(Combined(a.id, b.id), a.distinct, a.rows * b.rows)
  }

  /** `qs.count()`: the number of rows the query selects. */
  function Count<T>(q: Query<T>): nat
  {
    |q.rows|
  }

  /**
   * A resolver's value after normalisation: a lazy query, or any other
   * iterable as the sequence of its items.
   */
  datatype Collection<T> = Lazy(q: Query<T>) | Materialized(items: seq<T>)
}
