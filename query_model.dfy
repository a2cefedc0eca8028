/**
 * The values the query-by-example layer passes around: Spring Data's `Sort`,
 * `Pageable` and `Page`, the caller's `Example`, and the arguments handed to the
 * collaborators that are not part of this model (`QueryFragmentsAndParameters`,
 * `Predicate.create`, the single-result view of a query).
 */
module QueryModel {
  import opened Wrappers

  /** A `Class<R>` literal, identified by its name. */
  type TypeTag = string

  datatype Direction = Asc | Desc

  /** One `Sort.Order`: a property name and a direction. */
  datatype Order = Order(property: string, direction: Direction)

  /**
   * `Sort` is an ordered list of orders: `Sort.unsorted()` is `[]` and
   * `a.and(b)` is `a + b`.
   */
  type Sort = seq<Order>

  /** `Pageable`: either unpaged, or a zero-based page number, a page size and a sort. */
  datatype Pageable = Unpaged | PageRequest(pageNumber: nat, pageSize: nat, sort: Sort)

  /** A `Page` as the content of one window paired with the total from a separate count. */
  datatype Page<V> = Page(content: seq<V>, pageable: Pageable, total: nat)

  /**
   * `Example<S>`: a probe (with its matcher, opaque here) and the probe's type,
   * the only part of an example that the core reads itself.
   */
  datatype Example<P> = Example(probe: P, probeType: TypeTag)

  /** A relaxed property path, by its dotted form (`address.city`). */
  type DotPath = string

  /** The third argument of `forExample`: how the results are ordered or windowed. */
  datatype Ordering = NoOrdering | BySort(sort: Sort) | ByPage(pageable: Pageable)

  /**
   * `QueryFragmentsAndParameters.forExample(mappingContext, example, ...)`, taken as an
   * uninterpreted function of its arguments: the value records which overload was
   * called and with what. `includeField` is `None` for the overloads without a
   * property-filter argument.
   */
  datatype Fragments<P> = ForExample(example: Example<P>, ordering: Ordering, includeField: Option<DotPath -> bool>)

  /** `Predicate.create(mappingContext, example)`, uninterpreted. */
  datatype ExamplePredicate<P> = PredicateFor(example: Example<P>)

  /** The exceptions (or error signals) that can end a query in this layer. */
  datatype Failure =
    | NonUniqueResult                   // a single result was asked for, more than one row came back
    | MoreThanOneItem                   // Reactor's `singleOrEmpty` on a source of two or more items
    | UnsupportedOperation              // `findBy` without fluent support
    | DataAccess(message: string)       // anything an injected operation signals itself

  /**
   * The single-result view of a query's rows (`oneValue()`, `getSingleResult()`):
   * no value for no rows, the value for one row, a non-unique failure otherwise.
   */
  function SingleResult<V>(rows: seq<V>): (r: Result<Option<V>, Failure>)
    ensures r == Success(None) <==> rows == []
    ensures r.Success? && r.value.Some? <==> |rows| == 1
    ensures r.Success? && r.value.Some? ==> r.value.value == rows[0]
    ensures r.Failure? <==> |rows| > 1
    ensures r.Failure? ==> r.error == NonUniqueResult
  {
    if |rows| == 0 then Success(None)
    else if |rows| == 1 then Success(Some(rows[0]))
    else Failure(NonUniqueResult)
  }
}
