/**
 * The immutable state of a fluent query by example, shared by the blocking
 * `FetchableFluentQuerySupport`, the blocking `FetchableFluentQueryImpl` and the
 * reactive `ReactiveFluentQueryImpl`: all three hold the same final fields and build
 * new instances with the same two constructors, the same included-fields predicate
 * and the same chaining operations `sortBy`, `as` and `project`.
 */
module FluentQuerySpec {
  import opened Wrappers
  import opened QueryModel
  import opened Reactor

  /**
   * The find, count and exists operations a blocking fluent query is built with.
   * `find(domainType, resultType, fragments)` stands for
   * `findOperation.find(domainType).as(resultType).matching(fragments).all()`.
   */
  datatype FluentFindOps<!P, V> = FluentFindOps(
    find: (TypeTag, TypeTag, Fragments<P>) -> seq<V>,
    countOperation: Example<P> -> nat,
    existsOperation: Example<P> -> bool)

  /** The same for a reactive fluent query: a `Flux` of rows, and `Mono`s for count and exists. */
  datatype ReactiveFluentFindOps<!P, V> = ReactiveFluentFindOps(
    find: (TypeTag, TypeTag, Fragments<P>) -> seq<V>,
    countOperation: Example<P> -> Mono<nat>,
    existsOperation: Example<P> -> Mono<bool>)

  /**
   * The final fields of a fluent query: the example, the result type, the injected
   * operations `ops`, the accumulated sort and the projected properties (`None` for
   * a `null` set, meaning "no projection").
   */
  datatype FluentQuery<P, Ops> = FluentQuery(
    example: Example<P>,
    resultType: TypeTag,
    ops: Ops,
    sort: Sort,
    properties: Option<set<string>>)

  /** True when `path` passes a projection given as an optional set of dotted paths. */
  predicate Included(properties: Option<set<string>>, path: DotPath) {
    properties == None || path in properties.value
  }

  /**
   * The eight-argument constructor. The properties are copied into a fresh set, so
   * the query holds a value of its own: nothing done later to the caller's
   * collection can reach it.
   */
  function NewQueryWith<P, Ops>(example: Example<P>, resultType: TypeTag, ops: Ops, sort: Sort,
                                properties: Option<set<string>>): (q: FluentQuery<P, Ops>)
    ensures q.example == example && q.resultType == resultType && q.ops == ops && q.sort == sort
    ensures q.properties == properties
  {
    FluentQuery(example, resultType, ops, sort,
                match properties
                case None => None
                case Some(ps) =>
                  var copy := set p | p in ps;
                  assert copy == ps;
                  Some(copy))
  }

  /** The six-argument constructor: unsorted, no projection. */
  function NewQuery<P, Ops>(example: Example<P>, resultType: TypeTag, ops: Ops): (q: FluentQuery<P, Ops>)
    ensures q.example == example && q.resultType == resultType && q.ops == ops
    ensures q.sort == [] && q.properties == None
  {
    NewQueryWith(example, resultType, ops, [], None)
  }

  /** The path filter for an optional set of dotted paths. */
  function PathFilter(properties: Option<set<string>>): DotPath -> bool {
    (path: DotPath) => Included(properties, path)
  }

  /**
   * `createIncludedFieldsPredicate()`: accepts every path when no properties are set,
   * and otherwise exactly the paths whose dotted form is one of them.
   */
  function IncludedFieldsPredicate<P, Ops>(q: FluentQuery<P, Ops>): (includes: DotPath -> bool)
    ensures q.properties == None ==> forall path :: includes(path)
    ensures q.properties.Some? ==> forall path :: includes(path) <==> path in q.properties.value
  {
    PathFilter(q.properties)
  }

  /**
   * `QueryFragmentsAndParameters.forExample(mappingContext, example, sortOrPageable,
   * createIncludedFieldsPredicate())`, as the terminal operations call it: the fragments
   * carry the query's example, the given ordering and a filter that passes exactly
   * the paths the projection includes.
   */
  function QueryFragments<P, Ops>(q: FluentQuery<P, Ops>, ordering: Ordering): (f: Fragments<P>)
    ensures f.example == q.example && f.ordering == ordering
    ensures f.includeField.Some?
    ensures forall path :: f.includeField.value(path) <==> Included(q.properties, path)
  {
    ForExample(q.example, ordering, Some(IncludedFieldsPredicate(q)))
  }

  /** `sortBy(sort)`: the new sort is the old one followed by `sort`; nothing else changes. */
  function SortBy<P, Ops>(q: FluentQuery<P, Ops>, sort: Sort): (r: FluentQuery<P, Ops>)
    ensures r.sort == q.sort + sort
    ensures r.example == q.example && r.resultType == q.resultType && r.ops == q.ops
    ensures r.properties == q.properties
  {
    NewQueryWith(q.example, q.resultType, q.ops, q.sort + sort, q.properties)
  }

  /**
   * `as(resultType)`: keeps the example and the operations, takes the new result type,
   * and goes through the six-argument constructor, so the accumulated sort and
   * projection are both dropped.
   */
  function As<P, Ops>(q: FluentQuery<P, Ops>, resultType: TypeTag): (r: FluentQuery<P, Ops>)
    ensures r.example == q.example && r.ops == q.ops && r.resultType == resultType
    ensures r.sort == [] && r.properties == None
  {
    NewQuery(q.example, resultType, q.ops)
  }

  /**
   * `project(properties)`: the new projection is the union of the old one (empty when
   * there was none) and the given properties; the sort and result type are kept.
   */
  function Project<P, Ops>(q: FluentQuery<P, Ops>, properties: seq<string>): (r: FluentQuery<P, Ops>)
    ensures r.properties.Some?
    ensures forall p :: p in r.properties.value <==> (q.properties.Some? && p in q.properties.value) || p in properties
    ensures r.example == q.example && r.resultType == q.resultType && r.ops == q.ops && r.sort == q.sort
  {
    var previous := match q.properties case None => {} case Some(ps) => ps;
    NewQueryWith(q.example, q.resultType, q.ops, q.sort, Some(previous + set p | p in properties))
  }

  /** Two `sortBy` calls in a row order like one `sortBy` with the two sorts joined by `and`. */
  lemma SortByTwice<P, Ops>(q: FluentQuery<P, Ops>, a: Sort, b: Sort)
    ensures SortBy(SortBy(q, a), b) == SortBy(q, a + b)
  {
    assert q.sort + a + b == q.sort + (a + b);
  }

  /** Projecting the same properties twice is the same as projecting them once. */
  lemma ProjectIdempotent<P, Ops>(q: FluentQuery<P, Ops>, properties: seq<string>)
    ensures Project(Project(q, properties), properties) == Project(q, properties)
  {
    var once := Project(q, properties);
    var twice := Project(once, properties);
    assert twice.properties.value == once.properties.value;
  }

  /** Two `project` calls accumulate the union; their order does not matter. */
  lemma ProjectTwice<P, Ops>(q: FluentQuery<P, Ops>, a: seq<string>, b: seq<string>)
    ensures Project(Project(q, a), b) == Project(q, a + b)
    ensures Project(Project(q, a), b) == Project(Project(q, b), a)
  {
    var ab := Project(Project(q, a), b);
    var ba := Project(Project(q, b), a);
    var joined := Project(q, a + b);
    assert ab.properties.value == joined.properties.value;
    assert ab.properties.value == ba.properties.value;
  }

  /**
   * After `project`, the included-fields predicate accepts exactly the projected
   * paths: on a query without projection this narrows "every path" to the given ones.
   */
  lemma ProjectNarrowsPredicate<P, Ops>(q: FluentQuery<P, Ops>, properties: seq<string>, path: DotPath)
    ensures IncludedFieldsPredicate(Project(q, properties))(path) <==> (q.properties.Some? && path in q.properties.value) || path in properties
    ensures q.properties == None ==> (IncludedFieldsPredicate(Project(q, properties))(path) <==> path in properties)
  {
  }

  /** `as` forgets every earlier refinement: only the example and the operations survive it. */
  lemma AsForgetsRefinements<P, Ops>(q: FluentQuery<P, Ops>, q': FluentQuery<P, Ops>, resultType: TypeTag)
    requires q.example == q'.example && q.ops == q'.ops
    ensures As(q, resultType) == As(q', resultType)
  {
  }
}
