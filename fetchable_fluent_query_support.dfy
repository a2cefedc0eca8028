/**
 * The terminal operations of the blocking `FetchableFluentQuerySupport`: each one runs
 * the injected find, count or exists operation on the query's current state.
 */
module FetchableFluentQuerySupport {
  import opened Wrappers
  import opened QueryModel
  import opened FluentQuerySpec
  import opened FluentQueryChains

  type BlockingQuery<!P, V> = FluentQuery<P, FluentFindOps<P, V>>

  /**
   * `all()`: the rows the find operation returns for the probe type, mapped to the
   * current result type, ordered by the accumulated sort and filtered by the projection.
   */
  function All<P, V>(q: BlockingQuery<P, V>): (rows: seq<V>)
    ensures rows == q.ops.find(q.example.probeType, q.resultType, QueryFragments(q, BySort(q.sort)))
  {
    q.ops.find(q.example.probeType, q.resultType, QueryFragments(q, BySort(q.sort)))
  }

  /**
   * `one()`: the single-result view of the very rows `all()` returns: no value for no
   * match, the match for exactly one, a non-unique failure for more.
   */
  function One<P, V>(q: BlockingQuery<P, V>): (r: Result<Option<V>, Failure>)
    ensures r == Success(None) <==> All(q) == []
    ensures r.Success? && r.value.Some? <==> |All(q)| == 1
    ensures r.Success? && r.value.Some? ==> r.value.value == All(q)[0]
    ensures r.Failure? <==> |All(q)| > 1
    ensures r.Failure? ==> r.error == NonUniqueResult
  {
    SingleResult(q.ops.find(q.example.probeType, q.resultType, QueryFragments(q, BySort(q.sort))))
  }

  /** `first()`: `null` when `all()` is empty, otherwise its element at index 0; it never fails. */
  function First<P, V>(q: BlockingQuery<P, V>): (r: Option<V>)
    ensures r == None <==> All(q) == []
    ensures r.Some? ==> r.value == All(q)[0]
  {
    var all := All(q);
    if all == [] then None else Some(all[0])
  }

  /**
   * `page(pageable)`: the content is what the find operation returns when the fragments
   * are windowed by `pageable` instead of ordered by the accumulated sort; the total
   * comes from `count()`, never from the content.
   */
  function Page<P, V>(q: BlockingQuery<P, V>, pageable: Pageable): (page: QueryModel.Page<V>)
    ensures page.content == q.ops.find(q.example.probeType, q.resultType, QueryFragments(q, ByPage(pageable)))
    ensures page.pageable == pageable
    ensures page.total == Count(q)
  {
    QueryModel.Page(q.ops.find(q.example.probeType, q.resultType, QueryFragments(q, ByPage(pageable))),
                    pageable, Count(q))
  }

  /** `stream()`: the elements of `all()`, in the same order. */
  function Stream<P, V>(q: BlockingQuery<P, V>): (s: seq<V>)
    ensures s == All(q)
  {
    All(q)
  }

  /** `count()`: the injected count operation applied to the example. */
  function Count<P, V>(q: BlockingQuery<P, V>): (n: nat)
    ensures n == q.ops.countOperation(q.example)
  {
    q.ops.countOperation(q.example)
  }

  /** `exists()`: the injected exists operation applied to the example. */
  function Exists<P, V>(q: BlockingQuery<P, V>): (b: bool)
    ensures b == q.ops.existsOperation(q.example)
  {
    q.ops.existsOperation(q.example)
  }

  /**
   * `first()` and `one()` agree while there is at most one match; with two or more,
   * `one()` fails and `first()` still yields the first of them.
   */
  lemma FirstVersusOne<P, V>(q: BlockingQuery<P, V>)
    ensures |All(q)| <= 1 ==> One(q) == Success(First(q))
    ensures |All(q)| >= 2 ==> One(q) == Failure(NonUniqueResult) && First(q) == Some(All(q)[0])
  {
  }

  /**
   * `count()` and `exists()` depend on the example alone: no chain of `sortBy`,
   * `project` or `as` calls changes them.
   */
  lemma {:induction false} CountAndExistsIgnoreRefinements<P, V>(q: BlockingQuery<P, V>, steps: seq<Refinement>)
    ensures Count(Chain(q, steps)) == Count(q)
    ensures Exists(Chain(q, steps)) == Exists(q)
  {
    ChainOutcome(q, steps);
  }

  /** `page(pageable)` does not use the accumulated sort: a `sortBy` before it changes nothing. */
  lemma PageIgnoresAccumulatedSort<P, V>(q: BlockingQuery<P, V>, sort: Sort, pageable: Pageable)
    ensures Page(SortBy(q, sort), pageable) == Page(q, pageable)
  {
  }

  /** Whatever was chained before, the total of a page is the count for the example. */
  lemma {:induction false} PageTotalIgnoresRefinements<P, V>(q: BlockingQuery<P, V>, steps: seq<Refinement>, pageable: Pageable)
    ensures Page(Chain(q, steps), pageable).total == q.ops.countOperation(q.example)
  {
    CountAndExistsIgnoreRefinements(q, steps);
  }
}
