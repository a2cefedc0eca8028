/**
 * `SimpleQueryByExampleExecutor`: the blocking query-by-example entry points of a
 * repository, built on `Neo4jOperations` and the mapping context.
 */
module SimpleQueryByExampleExecutor {
  import opened Wrappers
  import opened QueryModel
  import opened FluentQuerySpec
  import opened FluentQueryChains
  import Fluent = FetchableFluentQuerySupport

  /**
   * What the executor uses of `Neo4jOperations`: `query(domainType, resultType, fragments)`
   * gives the rows of the query the fragments describe (both through
   * `toExecutableQuery(domainType, fragments).getResults()` and through the fluent
   * `find(domainType).as(resultType).matching(fragments).all()`); `count(predicate)` runs
   * `MATCH ... RETURN count(*)` built from the predicate, with its parameters; and
   * `isFluentFindOperation` tells whether the object also implements `FluentFindOperation`.
   */
  datatype Neo4jOperations<!P, V> = Neo4jOperations(
    query: (TypeTag, TypeTag, Fragments<P>) -> seq<V>,
    count: ExamplePredicate<P> -> nat,
    isFluentFindOperation: bool)

  /** `findAll(example)`: the rows of the probe type for the example, unsorted and unpaged. */
  function FindAll<P, V>(ops: Neo4jOperations<P, V>, example: Example<P>): (rows: seq<V>)
    ensures rows == ops.query(example.probeType, example.probeType, ForExample(example, NoOrdering, None))
  {
    ops.query(example.probeType, example.probeType, ForExample(example, NoOrdering, None))
  }

  /**
   * `findOne(example)`: built from the same fragments as `findAll(example)`; empty when
   * that finds nothing, the row when it finds one, a non-unique failure otherwise.
   */
  function FindOne<P, V>(ops: Neo4jOperations<P, V>, example: Example<P>): (r: Result<Option<V>, Failure>)
    ensures r == Success(None) <==> FindAll(ops, example) == []
    ensures r.Success? && r.value.Some? <==> |FindAll(ops, example)| == 1
    ensures r.Success? && r.value.Some? ==> r.value.value == FindAll(ops, example)[0]
    ensures r.Failure? <==> |FindAll(ops, example)| > 1
    ensures r.Failure? ==> r.error == NonUniqueResult
  {
    SingleResult(ops.query(example.probeType, example.probeType, ForExample(example, NoOrdering, None)))
  }

  /** `findAll(example, sort)`: the fragments carry the example and the caller's sort. */
  function FindAllSorted<P, V>(ops: Neo4jOperations<P, V>, example: Example<P>, sort: Sort): (rows: seq<V>)
    ensures rows == ops.query(example.probeType, example.probeType, ForExample(example, BySort(sort), None))
  {
    ops.query(example.probeType, example.probeType, ForExample(example, BySort(sort), None))
  }

  /** `count(example)`: the count statement for `Predicate.create(mappingContext, example)`. */
  function Count<P, V>(ops: Neo4jOperations<P, V>, example: Example<P>): (n: nat)
    ensures n == ops.count(PredicateFor(example))
  {
    ops.count(PredicateFor(example))
  }

  /**
   * `findAll(example, pageable)`: the rows of the fragments windowed by `pageable`,
   * with the total from `count(example)`.
   */
  function FindAllPaged<P, V>(ops: Neo4jOperations<P, V>, example: Example<P>, pageable: Pageable): (page: Page<V>)
    ensures page.content == ops.query(example.probeType, example.probeType, ForExample(example, ByPage(pageable), None))
    ensures page.pageable == pageable
    ensures page.total == Count(ops, example)
  {
    var content := ops.query(example.probeType, example.probeType, ForExample(example, ByPage(pageable), None));
    Page(content, pageable, Count(ops, example))
  }

  /** `exists(example)`: true exactly when `findAll(example)` has an element. */
  function Exists<P, V>(ops: Neo4jOperations<P, V>, example: Example<P>): (b: bool)
    ensures b <==> FindAll(ops, example) != []
  {
    |FindAll(ops, example)| > 0
  }

  /** `exists(example)` holds exactly when `findOne(example)` does not come back empty. */
  lemma ExistsVersusFindOne<P, V>(ops: Neo4jOperations<P, V>, example: Example<P>)
    ensures Exists(ops, example) <==> FindOne(ops, example) != Success(None)
  {
  }

  /**
   * The fluent query `findBy` hands out: the example, its probe type as result type,
   * no sort and no projection, the operations object as find operation, and this
   * executor's `count` and `exists` as count and exists operations.
   */
  function FluentQueryFor<P, V>(ops: Neo4jOperations<P, V>, example: Example<P>): (q: Fluent.BlockingQuery<P, V>)
    ensures q.example == example && q.resultType == example.probeType
    ensures q.sort == [] && q.properties == None
    ensures q.ops.find == ops.query
    ensures q.ops.countOperation(example) == Count(ops, example)
    ensures q.ops.existsOperation(example) == Exists(ops, example)
  {
    NewQuery(example, example.probeType,
             FluentFindOps(ops.query, (e: Example<P>) => Count(ops, e), (e: Example<P>) => Exists(ops, e)))
  }

  /**
   * The count and exists operations of the query `findBy` hands out are the executor's
   * own `count` and `exists`, for every example they may be asked about.
   */
  lemma FluentQueryForAnswersLikeExecutor<P, V>(ops: Neo4jOperations<P, V>, example: Example<P>)
    ensures forall e: Example<P> :: FluentQueryFor(ops, example).ops.countOperation(e) == Count(ops, e)
    ensures forall e: Example<P> :: FluentQueryFor(ops, example).ops.existsOperation(e) == Exists(ops, e)
  {
  }

  /**
   * `findBy(example, function)`: unsupported unless the operations are a
   * `FluentFindOperation`; otherwise the function applied to the fresh fluent query.
   */
  function FindBy<P, V, R>(ops: Neo4jOperations<P, V>, example: Example<P>, f: Fluent.BlockingQuery<P, V> -> R): (r: Result<R, Failure>)
    ensures r.Failure? <==> !ops.isFluentFindOperation
    ensures r.Failure? ==> r.error == UnsupportedOperation
    ensures r.Success? ==> r.value == f(FluentQueryFor(ops, example))
  {
    if ops.isFluentFindOperation then Success(f(FluentQueryFor(ops, example)))
    else Failure(UnsupportedOperation)
  }

  /**
   * Through `findBy`, however the fluent query is refined, `count()` and `exists()`
   * answer what this executor's `count(example)` and `exists(example)` answer.
   */
  lemma FluentCountAndExistsAgree<P, V>(ops: Neo4jOperations<P, V>, example: Example<P>, steps: seq<Refinement>)
    requires ops.isFluentFindOperation
    ensures FindBy(ops, example, (q: Fluent.BlockingQuery<P, V>) => Fluent.Count(Chain(q, steps))) == Success(Count(ops, example))
    ensures FindBy(ops, example, (q: Fluent.BlockingQuery<P, V>) => Fluent.Exists(Chain(q, steps))) == Success(Exists(ops, example))
  {
    Fluent.CountAndExistsIgnoreRefinements(FluentQueryFor(ops, example), steps);
  }

  /** A fluent page's total, like that of `findAll(example, pageable)`, is `count(example)`. */
  lemma FluentPageTotalAgrees<P, V>(ops: Neo4jOperations<P, V>, example: Example<P>, steps: seq<Refinement>, pageable: Pageable)
    requires ops.isFluentFindOperation
    ensures FindBy(ops, example, (q: Fluent.BlockingQuery<P, V>) => Fluent.Page(Chain(q, steps), pageable).total)
            == Success(FindAllPaged(ops, example, pageable).total)
  {
    Fluent.PageTotalIgnoresRefinements(FluentQueryFor(ops, example), steps, pageable);
  }
}
