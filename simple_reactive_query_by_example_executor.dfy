/**
 * `SimpleReactiveQueryByExampleExecutor`: the reactive query-by-example entry points,
 * built on `ReactiveNeo4jOperations` and the mapping context.
 */
module SimpleReactiveQueryByExampleExecutor {
  import opened Wrappers
  import opened QueryModel
  import opened Reactor
  import Fluent = ReactiveFluentQueryImpl

  /**
   * What the executor uses of `ReactiveNeo4jOperations`: the rows of the executable
   * query for a domain type and fragments, and the `Mono` of the count statement built
   * from a predicate, run with its parameters.
   */
  datatype ReactiveNeo4jOperations<!P, V> = ReactiveNeo4jOperations(
    query: (TypeTag, TypeTag, Fragments<P>) -> seq<V>,
    count: ExamplePredicate<P> -> Mono<nat>)

  /** `findAll(example)`: the rows of the probe type for the example, unsorted and unpaged. */
  function FindAll<P, V>(ops: ReactiveNeo4jOperations<P, V>, example: Example<P>): (rows: seq<V>)
    ensures rows == ops.query(example.probeType, example.probeType, ForExample(example, NoOrdering, None))
  {
    ops.query(example.probeType, example.probeType, ForExample(example, NoOrdering, None))
  }

  /** `findOne(example)`: the single-result view of the rows `findAll(example)` emits. */
  function FindOne<P, V>(ops: ReactiveNeo4jOperations<P, V>, example: Example<P>): (m: Mono<V>)
    ensures m == Empty <==> FindAll(ops, example) == []
    ensures m.Just? <==> |FindAll(ops, example)| == 1
    ensures m.Just? ==> m.value == FindAll(ops, example)[0]
    ensures m.Error? <==> |FindAll(ops, example)| > 1
    ensures m.Error? ==> m.error == NonUniqueResult
  {
    SingleResultMono(ops.query(example.probeType, example.probeType, ForExample(example, NoOrdering, None)))
  }

  /** `findAll(example, sort)`: the fragments carry the example and the caller's sort. */
  function FindAllSorted<P, V>(ops: ReactiveNeo4jOperations<P, V>, example: Example<P>, sort: Sort): (rows: seq<V>)
    ensures rows == ops.query(example.probeType, example.probeType, ForExample(example, BySort(sort), None))
  {
    ops.query(example.probeType, example.probeType, ForExample(example, BySort(sort), None))
  }

  /** `count(example)`: the count statement for `Predicate.create(mappingContext, example)`. */
  function Count<P, V>(ops: ReactiveNeo4jOperations<P, V>, example: Example<P>): (m: Mono<nat>)
    ensures m == ops.count(PredicateFor(example))
  {
    ops.count(PredicateFor(example))
  }

  /** `exists(example)`: `findAll(example).hasElements()`, a value that is true exactly when there is a match. */
  function Exists<P, V>(ops: ReactiveNeo4jOperations<P, V>, example: Example<P>): (m: Mono<bool>)
    ensures m.Just?
    ensures m.value <==> FindAll(ops, example) != []
  {
    HasElements(FindAll(ops, example))
  }

  /** `exists(example)` emits true exactly when `findOne(example)` would not be empty. */
  lemma ExistsVersusFindOne<P, V>(ops: ReactiveNeo4jOperations<P, V>, example: Example<P>)
    ensures Exists(ops, example).value <==> FindOne(ops, example) != Empty
  {
  }

  /** `findBy(example, function)`: unsupported, for every example and every function. */
  function FindBy<P, V, R>(ops: ReactiveNeo4jOperations<P, V>, example: Example<P>, f: Fluent.ReactiveQuery<P, V> -> R): (r: Result<R, Failure>)
    ensures r == Failure(UnsupportedOperation)
  {
    Failure(UnsupportedOperation)
  }
}
