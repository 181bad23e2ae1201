/**
 * What the connection field promises, stated over the model in `Fields`:
 * which requests are rejected before the resolver runs, how the page size is
 * bounded, and which source is merged, counted and sliced.
 */
module FieldProperties {
  import opened Wrappers
  import opened Queries
  import opened Fields

  /** The page size a request asks for: the smaller of the `first` and `last` it gives. */
  function RequestedCount(first: Option<int>, last: Option<int>): int
    requires first.Some? || last.Some?
  {
    if first.None? then last.value
    else if last.None? then first.value
    else if first.value <= last.value then first.value
    else last.value
  }

  /** A request `connection_resolver` lets through to the resolver. */
  predicate Acceptable(kwargs: PageArgs, maxLimit: Option<int>, enforceFirstOrLast: bool)
  {
    var first, last := kwargs.first, kwargs.last;
    && (first.Some? ==> first.value > 0)
    && (last.Some? ==> last.value > 0)
    && (enforceFirstOrLast ==> first.Some? || last.Some?)
    && (Truthy(maxLimit) && (first.Some? || last.Some?) ==> RequestedCount(first, last) <= maxLimit.value)
  }

  /** Once `first` and `last` are known to be positive where present, `min(...)` is the requested count. */
  lemma MinOfPositivePair(first: Option<int>, last: Option<int>)
    requires first.Some? ==> first.value > 0
    requires last.Some? ==> last.value > 0
    requires first.Some? || last.Some?
    ensures MinOfTruthy([first, last]) == Some(RequestedCount(first, last))
  {
  }

  /** A present `first` or `last` that is not positive is rejected, `first` being checked before `last`. */
  lemma NonPositiveRejected(kwargs: PageArgs, maxLimit: Option<int>, enforceFirstOrLast: bool, fieldName: string)
    requires NotPositive(kwargs.first) || NotPositive(kwargs.last)
    ensures CheckedArgs(kwargs, maxLimit, enforceFirstOrLast, fieldName) ==
      if NotPositive(kwargs.first) then Failure(FirstNotPositive(kwargs.first.value))
      else Failure(LastNotPositive(kwargs.last.value))
  {
  }

  /** When `first` or `last` is required and neither is given, the request is rejected. */
  lemma MissingFirstAndLastRejected(kwargs: PageArgs, maxLimit: Option<int>, fieldName: string)
    requires kwargs.first.None? && kwargs.last.None?
    ensures CheckedArgs(kwargs, maxLimit, true, fieldName) == Failure(FirstOrLastRequired(fieldName))
  {
  }

  /** With a limit and neither `first` nor `last`, `first := max_limit` and nothing else changes. */
  lemma MaxLimitInjectedAsFirst(kwargs: PageArgs, maxLimit: Option<int>, fieldName: string)
    requires Truthy(maxLimit)
    requires kwargs.first.None? && kwargs.last.None?
    ensures CheckedArgs(kwargs, maxLimit, false, fieldName) == Success(kwargs.(first := maxLimit))
  {
  }

  /**
   * With a limit and `first` or `last` given (and positive where given), the
   * request fails exactly when the smaller of them exceeds the limit, and
   * otherwise reaches the resolver unchanged.
   */
  lemma LimitEnforced(kwargs: PageArgs, maxLimit: Option<int>, enforceFirstOrLast: bool, fieldName: string)
    requires Truthy(maxLimit)
    requires kwargs.first.Some? || kwargs.last.Some?
    requires !NotPositive(kwargs.first) && !NotPositive(kwargs.last)
    ensures var r := CheckedArgs(kwargs, maxLimit, enforceFirstOrLast, fieldName);
      var count := RequestedCount(kwargs.first, kwargs.last);
      && (r.Failure? <==> count > maxLimit.value)
      && (r.Failure? ==> r.error == LimitExceeded(fieldName, count, maxLimit.value))
      && (r.Success? ==> r.value == kwargs)
  {
    MinOfPositivePair(kwargs.first, kwargs.last);
  }

  /** Without a limit the arguments are never changed, and only the positivity and presence checks reject. */
  lemma NoLimitNoChange(kwargs: PageArgs, maxLimit: Option<int>, enforceFirstOrLast: bool, fieldName: string)
    requires !Truthy(maxLimit)
    ensures var r := CheckedArgs(kwargs, maxLimit, enforceFirstOrLast, fieldName);
      && (r.Success? ==> r.value == kwargs)
      && (r.Failure? <==>
            NotPositive(kwargs.first) || NotPositive(kwargs.last)
            || (enforceFirstOrLast && kwargs.first.None? && kwargs.last.None?))
      && (r.Failure? ==> !r.error.LimitExceeded?)
  {
  }

  /** `connection_resolver` accepts exactly the acceptable requests. */
  lemma AcceptedIffAcceptable(kwargs: PageArgs, maxLimit: Option<int>, enforceFirstOrLast: bool, fieldName: string)
    ensures CheckedArgs(kwargs, maxLimit, enforceFirstOrLast, fieldName).Success?
        <==> Acceptable(kwargs, maxLimit, enforceFirstOrLast)
  {
    if !NotPositive(kwargs.first) && !NotPositive(kwargs.last) && (kwargs.first.Some? || kwargs.last.Some?) {
      MinOfPositivePair(kwargs.first, kwargs.last);
    }
  }

  /**
   * What the resolver is called with is a bounded page request: `first` and
   * `last` positive where present, one of them present when required, and
   * under a positive limit one of them present and the smaller at most the limit.
   */
  lemma ResolverSeesBoundedPage(kwargs: PageArgs, maxLimit: Option<int>, enforceFirstOrLast: bool, fieldName: string)
    requires CheckedArgs(kwargs, maxLimit, enforceFirstOrLast, fieldName).Success?
    ensures var args := CheckedArgs(kwargs, maxLimit, enforceFirstOrLast, fieldName).value;
      && (args.first.Some? ==> args.first.value > 0 || (kwargs.first.None? && args.first == maxLimit))
      && (args.last.Some? ==> args.last.value > 0)
      && (enforceFirstOrLast ==> args.first.Some? || args.last.Some?)
      && (maxLimit.Some? && maxLimit.value > 0 ==>
            (args.first.Some? || args.last.Some?) && RequestedCount(args.first, args.last) <= maxLimit.value)
  {
    if Truthy(maxLimit) && (kwargs.first.Some? || kwargs.last.Some?) {
      MinOfPositivePair(kwargs.first, kwargs.last);
    }
  }

  /** When the two flags already agree, `merge_querysets` is the plain `&` of the inputs. */
  lemma MergeAgreeingIsPlainAnd<T>(defaultQueryset: Query<T>, queryset: Query<T>)
    requires defaultQueryset.distinct == queryset.distinct
    ensures MergeQuerysets(defaultQueryset, queryset) == And(queryset, defaultQueryset)
  {
  }

  /** Merging a query with itself selects the same rows with the same flag. */
  lemma MergeWithSelfKeepsContent<T>(q: Query<T>)
    ensures MergeQuerysets(q, q).rows == q.rows
    ensures MergeQuerysets(q, q).distinct == q.distinct
  {
  }

  /** A resolver returning `None` gets the default query. */
  lemma NoneUsesDefault<T>(defaultManager: Query<T>)
    ensures ResolvedSource(defaultManager, None) == Lazy(defaultManager)
    ensures Size(ResolvedSource(defaultManager, None)) == |defaultManager.rows|
  {
  }

  /** The default query itself is not merged with itself. */
  lemma IdenticalNotMerged<T>(defaultManager: Query<T>)
    ensures ResolvedSource(defaultManager, Some(Lazy(defaultManager))) == Lazy(defaultManager)
  {
  }

  /**
   * A lazy result other than the default is replaced by its merge with the
   * default, and the length is the size of the intersection, which is no
   * more than either side.
   */
  lemma DifferentMerged<T>(defaultManager: Query<T>, q: Query<T>)
    requires q != defaultManager
    ensures ResolvedSource(defaultManager, Some(Lazy(q))) == Lazy(MergeQuerysets(defaultManager, q))
    ensures var n := Size(ResolvedSource(defaultManager, Some(Lazy(q))));
      n == |q.rows * defaultManager.rows| && n <= |q.rows| && n <= |defaultManager.rows|
  {
    var both := q.rows * defaultManager.rows;
    SubsetNoLarger(both, q.rows);
    SubsetNoLarger(both, defaultManager.rows);
  }

  /** A query restricted further selects no more rows. */
  lemma {:induction false} SubsetNoLarger<T>(a: set<T>, b: set<T>)
    requires a <= b
    ensures |a| <= |b|
  {
    if a != {} {
      var x :| x in a;
      SubsetNoLarger(a - {x}, b - {x});
    }
  }

  /** A concrete result is used as it is, and its length is `len`. */
  lemma MaterializedUsedAsIs<T>(defaultManager: Query<T>, items: seq<T>)
    ensures ResolvedSource(defaultManager, Some(Materialized(items))) == Materialized(items)
    ensures Size(ResolvedSource(defaultManager, Some(Materialized(items)))) == |items|
  {
  }

  /**
   * Skipping the merge for the default query is only a shortcut: for a
   * lazy result, the resolved source selects the rows the result and the
   * default have in common, with the flag set when either has it.
   */
  lemma ResolvedLazyIsIntersection<T>(defaultManager: Query<T>, q: Query<T>)
    ensures var c := ResolvedSource(defaultManager, Some(Lazy(q)));
      && c.Lazy?
      && c.q.rows == q.rows * defaultManager.rows
      && c.q.distinct == (q.distinct || defaultManager.distinct)
  {
  }
}
