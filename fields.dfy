/**
 * `DjangoConnectionField` of graphene-django: validation of the pagination
 * arguments and enforcement of the page-size limit, the merge of a
 * resolver's query with the field's default query, the choice of the source
 * that is counted and sliced, and the choice of the default manager.
 */
module Fields {
  import opened Wrappers
  import opened Queries

  /** A resolver-specific keyword argument value. */
  datatype Value = Null | Bool(b: bool) | Int(i: int) | Str(s: string)

  /**
   * The keyword arguments a connection field is resolved with: the four
   * relay pagination arguments (`None` when absent or null) and the
   * resolver-specific filters.
   */
  datatype PageArgs = PageArgs(
    first: Option<int>,
    last: Option<int>,
    after: Option<string>,
    before: Option<string>,
    extra: map<string, Value>)

  /** The `ValueError`s `connection_resolver` raises, with the values their messages carry. */
  datatype ArgError =
    | FirstNotPositive(first: int)
    | LastNotPositive(last: int)
    | FirstOrLastRequired(fieldName: string)
    | LimitExceeded(fieldName: string, count: int, maxLimit: int)

  /** Python truthiness of an optional integer: present and non-zero. */
  predicate Truthy(x: Option<int>)
  {
    x.Some? && x.value != 0
  }

  /** `x is not None and x <= 0` */
  predicate NotPositive(x: Option<int>)
  {
    x.Some? && x.value <= 0
  }

  /**
   * `min(i for i in xs if i)`: the smallest truthy value, or `None` where
   * Python's `min` would raise because nothing is left after the filter.
   */
  function MinOfTruthy(xs: seq<Option<int>>): (r: Option<int>)
    ensures r.None? <==> forall i :: 0 <= i < |xs| ==> !Truthy(xs[i])
    ensures r.Some? ==> exists i :: 0 <= i < |xs| && Truthy(xs[i]) && xs[i].value == r.value
    ensures r.Some? ==> forall i :: 0 <= i < |xs| && Truthy(xs[i]) ==> r.value <= xs[i].value
  {
    if |xs| == 0 then None
    else
      var rest := MinOfTruthy(xs[1..]);
      assert forall i :: 1 <= i < |xs| ==> xs[i] == xs[1..][i - 1];
      if !Truthy(xs[0]) then rest
      else if rest.None? || xs[0].value <= rest.value then xs[0]
      else rest
  }

  /**
   * What `connection_resolver` makes of the keyword arguments before it
   * calls the resolver: the (possibly updated) arguments, or the error it raises.
   */
  function CheckedArgs(kwargs: PageArgs, maxLimit: Option<int>, enforceFirstOrLast: bool, fieldName: string)
    : (r: Result<PageArgs, ArgError>)
    ensures r.Success? ==> r.value.(first := kwargs.first) == kwargs
    ensures r.Success? && r.value.first != kwargs.first ==>
      kwargs.first.None? && kwargs.last.None? && r.value.first == maxLimit
  {
    var first, last := kwargs.first, kwargs.last;
    if NotPositive(first) then Failure(FirstNotPositive(first.value))
    else if NotPositive(last) then Failure(LastNotPositive(last.value))
    else if enforceFirstOrLast && !(Truthy(first) || Truthy(last)) then Failure(FirstOrLastRequired(fieldName))
    else if !Truthy(maxLimit) then Success(kwargs)
    else if first.None? && last.None? then Success(kwargs.(first := maxLimit))
    else
      var count := MinOfTruthy([first, last]);
      assert Truthy([first, last][0]) || Truthy([first, last][1]);
      if count.value > maxLimit.value then Failure(LimitExceeded(fieldName, count.value, maxLimit.value))
      else Success(kwargs)
  }

  /**
   * The validation steps of `connection_resolver`, in order, on its own
   * copy of the keyword arguments, which it updates in place.
   */
  method ValidateArguments(kwargs: PageArgs, maxLimit: Option<int>, enforceFirstOrLast: bool, fieldName: string)
    returns (r: Result<PageArgs, ArgError>)
    ensures r == CheckedArgs(kwargs, maxLimit, enforceFirstOrLast, fieldName)
  {
    var args := kwargs;
    var first := args.first;
    var last := args.last;
    if first.Some? && first.value <= 0 {
      return Failure(FirstNotPositive(first.value));
    }
    if last.Some? && last.value <= 0 {
      return Failure(LastNotPositive(last.value));
    }
    if enforceFirstOrLast && !(Truthy(first) || Truthy(last)) {
      return Failure(FirstOrLastRequired(fieldName));
    }
    if Truthy(maxLimit) {
      if first.None? && last.None? {
        args := args.(first := maxLimit);
      } else {
        var count := MinOfTruthy([first, last]);
        assert Truthy([first, last][0]) || Truthy([first, last][1]);
        if count.value > maxLimit.value {
          return Failure(LimitExceeded(fieldName, count.value, maxLimit.value));
        }
      }
    }
    return Success(args);
  }

  /**
   * The flag reconciliation of `merge_querysets`: the pair
   * (resolver query, default query) after `.distinct()` has been applied to
   * the one side that lacks it.
   */
  function Reconcile<T>(defaultQueryset: Query<T>, queryset: Query<T>): (r: (Query<T>, Query<T>))
    ensures r.0.distinct == r.1.distinct == (defaultQueryset.distinct || queryset.distinct)
    ensures r.0.rows == queryset.rows && r.1.rows == defaultQueryset.rows
    ensures queryset.distinct == defaultQueryset.distinct ==> r == (queryset, defaultQueryset)
  {
    if defaultQueryset.distinct && !queryset.distinct then (Distinct(queryset), defaultQueryset)
    else if queryset.distinct && !defaultQueryset.distinct then (queryset, Distinct(defaultQueryset))
    else (queryset, defaultQueryset)
  }

  /** `merge_querysets`: the resolver's query restricted to the default query's rows. */
  function MergeQuerysets<T>(defaultQueryset: Query<T>, queryset: Query<T>): (r: Query<T>)
    ensures r.distinct <==> defaultQueryset.distinct || queryset.distinct
    ensures r.rows == queryset.rows * defaultQueryset.rows
  {
    var (q, d) := Reconcile(defaultQueryset, queryset);
    And(q, d)
  }

  /** The number `resolve_connection` passes on as the length: `count()` or `len`. */
  function Size<T>(c: Collection<T>): (n: nat)
    ensures c.Lazy? ==> n == |c.q.rows|
    ensures c.Materialized? ==> n == |c.items|
  {
    match c
    case Lazy(q) => Count(q)
    case Materialized(items) => |items|
  }

  /**
   * The source `resolve_connection` counts and slices, given the default
   * query and the resolver's value (`None` when the resolver returned `None`).
   */
  function ResolvedSource<T(==)>(defaultManager: Query<T>, result: Option<Collection<T>>): (c: Collection<T>)
    ensures c.Lazy? ==> c.q.rows <= defaultManager.rows
    ensures c.Lazy? ==> (c.q.distinct <==> defaultManager.distinct || (result.Some? && result.value.Lazy? && result.value.q.distinct))
    ensures c.Materialized? <==> result.Some? && result.value.Materialized?
    ensures c.Materialized? ==> c == result.value
  {
    var iterable := if result.None? then Lazy(defaultManager) else result.value;
    if iterable.Lazy? && iterable.q != defaultManager then Lazy(MergeQuerysets(defaultManager, iterable.q))
    else iterable
  }

  /** The arguments `resolve_connection` hands to `connection_from_list_slice`. */
  datatype SliceRequest<T> = SliceRequest(
    iterable: Collection<T>,
    args: PageArgs,
    sliceStart: int,
    listLength: nat,
    listSliceLength: nat)

  /**
   * A connection payload. `page` is what the slicer built (edges and page
   * info); `iterable` and `length` are the attributes `resolve_connection`
   * sets on it afterwards (`None` until then).
   */
  class Connection<T(==), P> {
    const page: P
    var iterable: Option<Collection<T>>
    var length: Option<nat>

    constructor (page: P)
      ensures this.page == page && iterable.None? && length.None?
    {
      this.page := page;
      iterable := None;
      length := None;
    }
  }

  /**
   * The state of a connection once `resolve_connection` is done with it: it
   * was sliced from the resolved source over `[0, length)` and carries that
   * source and its length.
   */
  ghost predicate Settled<T, P>(
    c: Connection<T, P>, slicer: SliceRequest<T> -> P,
    defaultManager: Query<T>, args: PageArgs, result: Option<Collection<T>>)
    reads c
    ensures Settled(c, slicer, defaultManager, args, result) ==>
      && c.iterable.Some?
      && c.length == Some(Size(c.iterable.value))
      && c.page == slicer(SliceRequest(c.iterable.value, args, 0, c.length.value, c.length.value))
  {
    var source := ResolvedSource(defaultManager, result);
    && c.iterable == Some(source)
    && c.length == Some(Size(source))
    && c.page == slicer(SliceRequest(source, args, 0, Size(source), Size(source)))
  }

  /**
   * `resolve_connection`: falls back to the default query, merges a
   * different lazy query with it, counts, slices with the foreign `slicer`
   * and records the source and length on the new connection.
   */
  method ResolveConnection<T(==), P>(
    slicer: SliceRequest<T> -> P, defaultManager: Query<T>, args: PageArgs, result: Option<Collection<T>>)
    returns (connection: Connection<T, P>)
    ensures fresh(connection)
    ensures Settled(connection, slicer, defaultManager, args, result)
  {
    var iterable := if result.None? then Lazy(defaultManager) else result.value;
    var len: nat;
    if iterable.Lazy? {
      if iterable.q != defaultManager {
        var defaultQueryset := defaultManager;
        iterable := Lazy(MergeQuerysets(defaultQueryset, iterable.q));
      }
      len := Count(iterable.q);
    } else {
      len := |iterable.items|;
    }
    var page := slicer(SliceRequest(iterable, args, 0, len, len));
    connection := new Connection(page);
    connection.iterable := Some(iterable);
    connection.length := Some(len);
  }

  /**
   * `connection_resolver` on its synchronous path: validates the arguments,
   * calls the resolver with them, and resolves the connection from what it
   * returned. `resolvedWith` is the keyword arguments the resolver was
   * called with, `None` when it was not called.
   */
  method ConnectionResolver<T(==), P>(
    resolver: PageArgs -> Option<Collection<T>>, slicer: SliceRequest<T> -> P,
    defaultManager: Query<T>, maxLimit: Option<int>, enforceFirstOrLast: bool,
    fieldName: string, kwargs: PageArgs)
    returns (r: Result<Connection<T, P>, ArgError>, resolvedWith: Option<PageArgs>)
    ensures var checked := CheckedArgs(kwargs, maxLimit, enforceFirstOrLast, fieldName);
      && (checked.Failure? <==> resolvedWith.None?)
      && (checked.Success? ==> resolvedWith == Some(checked.value))
      && (r.Failure? <==> checked.Failure?)
      && (r.Failure? ==> r.error == checked.error)
    ensures r.Success? ==>
      && resolvedWith.Some?
      && fresh(r.value)
      && Settled(r.value, slicer, defaultManager, resolvedWith.value, resolver(resolvedWith.value))
  {
    var checked := ValidateArguments(kwargs, maxLimit, enforceFirstOrLast, fieldName);
    if checked.Failure? {
      return Failure(checked.error), None;
    }
    var args := checked.value;
    var iterable := resolver(args);
    var connection := ResolveConnection(slicer, defaultManager, args, iterable);
    return Success(connection), Some(args);
  }

  /** A Django model as far as `get_manager` sees it: its default manager and its named accessors. */
  datatype DjangoModel<T> = DjangoModel(defaultManager: Query<T>, accessors: map<string, Query<T>>)

  /** The `AttributeError` `getattr` raises for an accessor the model does not have. */
  datatype ManagerError = NoSuchAccessor(name: string)

  /** Python truthiness of the field's `on` option (`False` when not given). */
  predicate OnIsSet(on: Option<string>)
  {
    on.Some? && on.value != ""
  }

  /** `get_manager`: the accessor named by `on`, or the model's default manager. */
  function GetManager<T>(model: DjangoModel<T>, on: Option<string>): (r: Result<Query<T>, ManagerError>)
    ensures r.Failure? <==> OnIsSet(on) && on.value !in model.accessors
    ensures OnIsSet(on) && on.value in model.accessors ==> r == Success(model.accessors[on.value])
    ensures !OnIsSet(on) ==> r == Success(model.defaultManager)
  {
    if OnIsSet(on) then
      if on.value in model.accessors then Success(model.accessors[on.value])
      else Failure(NoSuchAccessor(on.value))
    else Success(model.defaultManager)
  }
}
