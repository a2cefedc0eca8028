/**
 * The terminal operations of `ReactiveFluentQueryImpl`. A `Flux` is the sequence of
 * rows it emits and a `Mono` its completed outcome; subscription, laziness and the
 * interleaving inside `zipWith` are not modelled.
 */
module ReactiveFluentQueryImpl {
  import opened Wrappers
  import opened QueryModel
  import opened Reactor
  import opened FluentQuerySpec
  import opened FluentQueryChains
  import Blocking = FetchableFluentQuerySupport

  type ReactiveQuery<!P, V> = FluentQuery<P, ReactiveFluentFindOps<P, V>>

  /** `all()`: the rows for the probe type and result type, ordered by the sort, filtered by the projection. */
  function All<P, V>(q: ReactiveQuery<P, V>): (rows: seq<V>)
    ensures rows == q.ops.find(q.example.probeType, q.resultType, QueryFragments(q, BySort(q.sort)))
  {
    q.ops.find(q.example.probeType, q.resultType, QueryFragments(q, BySort(q.sort)))
  }

  /** `one()`: the single-result view of the rows `all()` emits. */
  function One<P, V>(q: ReactiveQuery<P, V>): (m: Mono<V>)
    ensures m == Empty <==> All(q) == []
    ensures m.Just? <==> |All(q)| == 1
    ensures m.Just? ==> m.value == All(q)[0]
    ensures m.Error? <==> |All(q)| > 1
    ensures m.Error? ==> m.error == NonUniqueResult
  {
    SingleResultMono(q.ops.find(q.example.probeType, q.resultType, QueryFragments(q, BySort(q.sort))))
  }

  /**
   * `first()` as written, `all().singleOrEmpty()`: empty for no rows, the row for one,
   * and an error, not the head, for two or more.
   */
  function FirstAsWritten<P, V>(q: ReactiveQuery<P, V>): (m: Mono<V>)
    ensures m == Empty <==> All(q) == []
    ensures m.Just? <==> |All(q)| == 1
    ensures m.Just? ==> m.value == All(q)[0]
    ensures m.Error? <==> |All(q)| >= 2
    ensures m.Error? ==> m.error == MoreThanOneItem
  {
    SingleOrEmpty(All(q))
  }

  /** `first()` as `FluentQuery` describes it, `all().next()`: the first row, or empty; it never fails. */
  function First<P, V>(q: ReactiveQuery<P, V>): (m: Mono<V>)
    ensures m == Empty <==> All(q) == []
    ensures !m.Error?
    ensures m.Just? ==> m.value == All(q)[0]
  {
    Next(All(q))
  }

  /**
   * `page(pageable)`: the rows of the windowed fragments, collected and zipped with
   * `countOperation(example)`. There is a page exactly when the count emits a value,
   * and its total is that value; an empty or failing count makes the page empty or
   * failing in the same way.
   */
  function Page<P, V>(q: ReactiveQuery<P, V>, pageable: Pageable): (m: Mono<QueryModel.Page<V>>)
    ensures m.Just? <==> q.ops.countOperation(q.example).Just?
    ensures m.Just? ==> m.value.content == q.ops.find(q.example.probeType, q.resultType, QueryFragments(q, ByPage(pageable)))
    ensures m.Just? ==> m.value.pageable == pageable && m.value.total == q.ops.countOperation(q.example).value
    ensures m == Empty <==> q.ops.countOperation(q.example) == Empty
    ensures m.Error? <==> q.ops.countOperation(q.example).Error?
    ensures m.Error? ==> m.error == q.ops.countOperation(q.example).error
  {
    var results := q.ops.find(q.example.probeType, q.resultType, QueryFragments(q, ByPage(pageable)));
    match CollectListZipWith(results, q.ops.countOperation(q.example))
    case Empty => Empty
    case Error(e) => Error(e)
    case Just(tuple) => Just(QueryModel.Page(tuple.0, pageable, tuple.1))
  }

  /** `count()`: the injected count operation on the example. */
  function Count<P, V>(q: ReactiveQuery<P, V>): (m: Mono<nat>)
    ensures m == q.ops.countOperation(q.example)
  {
    q.ops.countOperation(q.example)
  }

  /** `exists()`: the injected exists operation on the example. */
  function Exists<P, V>(q: ReactiveQuery<P, V>): (m: Mono<bool>)
    ensures m == q.ops.existsOperation(q.example)
  {
    q.ops.existsOperation(q.example)
  }

  /** `count()` and `exists()` depend on the example alone, whatever was chained before. */
  lemma {:induction false} CountAndExistsIgnoreRefinements<P, V>(q: ReactiveQuery<P, V>, steps: seq<Refinement>)
    ensures Count(Chain(q, steps)) == Count(q)
    ensures Exists(Chain(q, steps)) == Exists(q)
  {
    ChainOutcome(q, steps);
  }

  /**
   * With two or more matches the written `first()` fails where the corrected one, like
   * the blocking `first()`, yields the first match.
   */
  lemma FirstAsWrittenFailsOnTwoMatches<P, V>(q: ReactiveQuery<P, V>)
    requires |All(q)| >= 2
    ensures FirstAsWritten(q) == Error(MoreThanOneItem)
    ensures First(q) == Just(All(q)[0])
  {
  }

  /** A concrete query that shows it: two people named Smith, and `first()` errors. */
  lemma FirstAsWrittenCounterexample()
    ensures var q := NewQuery(Example("Smith", "Person"), "Person",
                              ReactiveFluentFindOps((domain: TypeTag, result: TypeTag, f: Fragments<string>) => ["Anna Smith", "Bob Smith"],
                                                    (e: Example<string>) => Just(2),
                                                    (e: Example<string>) => Just(true)));
            FirstAsWritten(q) == Error(MoreThanOneItem) && First(q) == Just("Anna Smith")
  {
  }

  /**
   * The reactive and blocking fluent queries are the same specification over the same
   * find operation: their `all()` emit the same rows, and the corrected reactive
   * `first()` yields what the blocking `first()` returns.
   */
  lemma SameAsBlocking<P, V>(rq: ReactiveQuery<P, V>, bq: Blocking.BlockingQuery<P, V>)
    requires rq.example == bq.example && rq.resultType == bq.resultType
    requires rq.sort == bq.sort && rq.properties == bq.properties
    requires rq.ops.find == bq.ops.find
    ensures All(rq) == Blocking.All(bq)
    ensures First(rq) == Empty <==> Blocking.First(bq) == None
    ensures First(rq).Just? <==> Blocking.First(bq).Some?
    ensures First(rq).Just? ==> First(rq).value == Blocking.First(bq).value
    ensures One(rq).Just? <==> Blocking.One(bq).Success? && Blocking.One(bq).value.Some?
    ensures One(rq).Error? <==> Blocking.One(bq).Failure?
    ensures One(rq).Just? ==> One(rq).value == Blocking.One(bq).value.value
  {
    assert QueryFragments(rq, BySort(rq.sort)) == QueryFragments(bq, BySort(bq.sort));
  }
}
