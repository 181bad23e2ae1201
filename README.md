# DjangoConnectionField, modelled in Dafny

This project models the pagination pipeline of graphene-django's
`DjangoConnectionField` (`graphene_django/fields.py`). The pipeline sits between a
relay connection field of a GraphQL schema and a Django query. It has these parts:

- **Argument validation and page-size limit** (`connection_resolver`). A present
  `first` or `last` must be positive. When the field enforces it, one of the two must
  be given. When a `max_limit` is set, a request naming neither gets
  `first = max_limit`. A request naming one or both is rejected when the smaller of
  them exceeds the limit. The resolver then runs with the possibly updated keyword
  arguments.
- **Distinct-flag merge** (`merge_querysets`). When only one of the two queries is
  `distinct`, `.distinct()` is applied to the other one. The result is their `&`.
- **Source selection and length** (`resolve_connection`). A `None` result falls back
  to the default manager. A lazy result that is not the default object is merged
  with the default. The length is `count()` for a lazy result and `len` for any other
  result. The slicer gets `slice_start = 0` and that length as both `list_length` and
  `list_slice_length`. The slicer's source and the length are then stored on the
  connection.
- **Default manager** (`get_manager`). This is the accessor named by `on`, or else the
  model's `_default_manager`.

Files:

- `wrappers.dfy` (module `Wrappers`): `Option` stands for Python's `None`, and `Result`
  for a raised exception.
- `queries.dfy` (module `Queries`): the ORM part the field uses.
  - A `Query` is a lazy query: an identity, the `query.distinct` flag and the set of
    rows it selects.
  - `Distinct` and `And` are `.distinct()` and `&`. `And` requires equal flags, because
    Django refuses to combine a distinct query with a non-distinct one.
  - `Count` is `.count()`.
  - `Collection` is a resolver's value: a lazy query, or a materialized sequence.
- `fields.dfy` (module `Fields`): the field itself.
  - `CheckedArgs` specifies the validation.
  - `ValidateArguments` performs it step by step on a local copy of the keyword
    arguments, and is proved equal to `CheckedArgs`.
  - `Reconcile` and `MergeQuerysets` model `merge_querysets`.
  - `ResolvedSource` specifies the source that is counted and sliced.
  - `Connection` is a class whose `iterable` and `length` fields are assigned after
    slicing.
  - `ResolveConnection` and `ConnectionResolver` are the two methods.
  - `GetManager` models `get_manager`.
- `properties.dfy` (module `FieldProperties`): lemmas over that model.

Two collaborators are passed in as function parameters, so the model does not fix
what they compute:

- The wrapped resolver is a parameter `resolver`. `ConnectionResolver` also returns
  `resolvedWith`, the keyword arguments the resolver was called with. It is `None`
  exactly when validation failed, so the resolver runs only on success.
- `connection_from_list_slice` (from `graphql_relay`) is a parameter `slicer`. The
  model states only which arguments it receives.

Python's `is` is modelled as equality of `Query` values. A query's identity is part
of its value, and the queries built by `.distinct()` and `&` get identities of their
own (`DistinctOf`, `Combined`).

Where the code is more specific than a plain reading of the field's documented
behaviour, the model follows the code:

- `if max_limit:` and `enforce_first_or_last and not (first or last)` test Python
  truthiness, not presence. For `first`/`last` the two coincide once the positivity
  checks have passed (lemma `AcceptedIffAcceptable`).
- For `max_limit` they do not coincide. `0` behaves like "no limit". A negative limit
  counts as set: a request naming neither `first` nor `last` gets that negative value
  as `first`, and any other request is rejected. `ResolverSeesBoundedPage` therefore
  bounds the page only under a positive limit.
- The `first` check runs before the `last` check. When both are non-positive, the
  error names `first`.

## Model

| member | source | states |
|---|---|---|
| `Fields.MinOfTruthy` | graphene_django/fields.py:138 | `min(i for i in (first, last) if i)`: no result exactly when no value is truthy; otherwise the result is one of the truthy values and no larger than any of them |
| `Fields.CheckedArgs` | graphene_django/fields.py:116-143 | On success, every argument except `first` is unchanged. `first` changes only when neither `first` nor `last` was given, and then it becomes `max_limit` |
| `Fields.ValidateArguments` | graphene_django/fields.py:116-143 | The in-place steps of `connection_resolver` (checks in source order, `kwargs['first'] = max_limit`, the `min` count) give exactly the `CheckedArgs` outcome |
| `Fields.Reconcile` | graphene_django/fields.py:71-75 | After reconciliation both operands have the same `distinct` flag, which is the OR of the inputs' flags. Rows are untouched. When the flags already agree, both inputs are returned as they are |
| `Fields.MergeQuerysets` | graphene_django/fields.py:71-76 | The merge is distinct iff either input is, and it selects the intersection of the two inputs' rows; the `&` it ends with is only reached on operands with equal flags |
| `Fields.ResolvedSource` | graphene_django/fields.py:80-86 | A lazy resolved source never selects a row outside the default manager. It is distinct iff the default or a lazy result is. It is materialized exactly when the result was, and is then that result unchanged |
| `Fields.ResolveConnection` | graphene_django/fields.py:79-102 | Returns a new connection. The slicer was called with the resolved source, the args, `slice_start = 0` and the length (`count()` or `len`) as both list lengths. The connection's `iterable` and `length` are that source and that length |
| `Fields.ConnectionResolver` | graphene_django/fields.py:104-151 | The resolver is called exactly when validation succeeds, with the validated kwargs. A validation error is returned unchanged. On success the connection is settled from the resolver's value with those kwargs |
| `Fields.GetManager` | graphene_django/fields.py:64-68 | Fails exactly when `on` is truthy and names no accessor of the model. When `on` is truthy and names an accessor, the result is that accessor. When `on` is unset, the result is the default manager |
| `Fields.Size` | graphene_django/fields.py:87-89 | The length of a lazy source is its row count (`count()`); the length of a materialized source is its number of items (`len`) |
| `Fields.Settled` | graphene_django/fields.py:90-101 | A settled connection records a source and, as its length, that source's size; its page is what the slicer built from that same source and the args with `slice_start = 0` and the length as both `list_length` and `list_slice_length` |
| `FieldProperties.MinOfPositivePair` | graphene_django/fields.py:135-138 | When `first`/`last` are positive where present and one is present, the `min` over the truthy ones is the smaller present value |
| `FieldProperties.NonPositiveRejected` | graphene_django/fields.py:118-125 | A present `first` or `last` that is `<= 0` is rejected with the error naming it, `first` taking precedence |
| `FieldProperties.MissingFirstAndLastRejected` | graphene_django/fields.py:126-132 | With `enforce_first_or_last` and neither `first` nor `last`, the request is rejected whatever the limit |
| `FieldProperties.MaxLimitInjectedAsFirst` | graphene_django/fields.py:134-136 | With a truthy limit and neither `first` nor `last`, the resolver gets the input args with `first := max_limit` and nothing else changed |
| `FieldProperties.LimitEnforced` | graphene_django/fields.py:137-143 | With a truthy limit and valid `first`/`last` present, the request fails iff the smaller present value exceeds the limit. The error carries that count and the limit. Otherwise the args pass unchanged |
| `FieldProperties.NoLimitNoChange` | graphene_django/fields.py:118-134 | Without a truthy limit the args are never changed. A request is rejected exactly by the positivity or the enforce check, never by the limit |
| `FieldProperties.AcceptedIffAcceptable` | graphene_django/fields.py:116-143 | Validation succeeds exactly for requests with positive `first`/`last` where present, one of them present when enforced, and the smaller one within a truthy limit |
| `FieldProperties.ResolverSeesBoundedPage` | graphene_django/fields.py:116-145 | The args the resolver receives are positive where the client gave them, name `first` or `last` when enforced, and under a positive limit name one of them with the smaller at most the limit |
| `FieldProperties.MergeAgreeingIsPlainAnd` | graphene_django/fields.py:72-76 | When the flags agree, `merge_querysets` is the plain `queryset & default_queryset` |
| `FieldProperties.MergeWithSelfKeepsContent` | graphene_django/fields.py:71-76 | Merging a query with itself keeps its rows and flag |
| `FieldProperties.NoneUsesDefault` | graphene_django/fields.py:80-81 | A `None` result is replaced by the default manager, and the length is its row count |
| `FieldProperties.IdenticalNotMerged` | graphene_django/fields.py:83-84 | When the default is itself a QuerySet object and the resolver returns that same object, it is used without merging (a default that is a Manager never passes this test in the source; see Left out) |
| `FieldProperties.DifferentMerged` | graphene_django/fields.py:83-87 | A lazy result other than the default is replaced by its merge with the default. Its length is the size of the intersection, which is at most either side's size |
| `FieldProperties.SubsetNoLarger` | graphene_django/fields.py:86-87 | A query that selects a subset of another query's rows has a count no larger than that query's |
| `FieldProperties.MaterializedUsedAsIs` | graphene_django/fields.py:82-89 | A materialized result bypasses merging and counting, and its length is `len` |
| `FieldProperties.ResolvedLazyIsIntersection` | graphene_django/fields.py:83-86 | For any lazy result, including the default itself, the resolved source selects the rows the result and the default share. Its flag is the OR of theirs. So skipping the merge for the identical object changes nothing |

## Left out

- The promise path of `connection_resolver` (fields.py:148-149) is not modelled. It is asynchronous continuation plumbing, and only the synchronous path (fields.py:151) is. Both paths apply the same `resolve_connection`.
- `connection_from_list_slice` is foreign code that implements cursor pagination. It is a function parameter, so edge counts, cursors and `hasNextPage` are not modelled. Only the arguments it receives are. Its `connection_type`, `edge_type` and `pageinfo_type` arguments are schema objects and are left out of `SliceRequest`.
- The `type`, `node_type` and `model` properties (fields.py:43-62) and `DjangoListField.model` (fields.py:19-21) are not modelled. They are schema introspection over graphene and Django metaclasses. `GetManager` takes the model as a parameter.
- `maybe_queryset` is not modelled; graphene_django/utils.py is not part of this model. A resolver's value is taken already normalised, as a lazy query or a materialized sequence. A manager is taken as the query it stands for. For that reason `DjangoListField.list_resolver` (fields.py:23-25), which only applies `maybe_queryset` to the resolver's value, has no member of its own.
- Django `QuerySet` internals are reduced to a distinct flag and a set of rows. Row order is not modelled, and neither is duplicate rows' effect on `count()`.
- `graphene_settings` defaults (fields.py:34-40) and the field constructor are not modelled. `max_limit`, `enforce_first_or_last` and `on` are parameters.
- Error message strings are not modelled. Errors are kinds carrying the values the messages name (`info.field_name` is the `fieldName` parameter).
- The `functools.partial` wiring in both `get_resolver` methods (fields.py:27-28, 153-161) is not modelled; it is closure plumbing.
- The resolver is a total function and cannot fail, so its own exceptions are not modelled; the source propagates them unchanged. `getattr` is assumed to return a manager.
- ResolvedSource, NoneUsesDefault, IdenticalNotMerged: the default source is modelled as the query it stands for, so a `None` result, or a resolver that returns the default itself, is used unmerged. In the source the default is normally a Manager (`_default_manager`, or the `on` accessor). After `maybe_queryset` and the `isinstance(iterable, QuerySet)` test, `iterable` is a QuerySet and can never be that Manager object, so the source merges the default with a fresh queryset of itself. Rows, flag and count are the same either way (ResolvedLazyIsIntersection); what the model does not capture is that the slicer and `connection.iterable` then receive the new `&` query object, not the default. The identity shortcut is taken only when the default is itself a QuerySet object.
- Queries.And: `&` is total in the model. Django also refuses to combine a sliced query, or queries over different models. Reducing a query to a flag and a set of rows hides those failures.
- `first` and `last` are integers or absent, as the relay schema declares them. A `null` argument is treated like an absent one, and both read as `None` through `kwargs.get`.
