/**
 * The terminal operations of the blocking `FetchableFluentQueryImpl`, a second copy of
 * `FetchableFluentQuerySupport` that differs from it only in names. Each operation is
 * modelled from its own code and proved equal to the corresponding one of
 * `FetchableFluentQuerySupport` for every query and every set of injected operations.
 */
module FetchableFluentQueryImpl {
  import opened Wrappers
  import opened QueryModel
  import opened FluentQuerySpec
  import Support = FetchableFluentQuerySupport

  type BlockingQuery<!P, V> = FluentQuery<P, FluentFindOps<P, V>>

  /** `all()`: the rows for the probe type and result type, ordered by the sort, filtered by the projection. */
  function All<P, V>(q: BlockingQuery<P, V>): (rows: seq<V>)
    ensures rows == Support.All(q)
  {
    q.ops.find(q.example.probeType, q.resultType, QueryFragments(q, BySort(q.sort)))
  }

  /**
   * `one()`: built from the same example, sort and predicate as `all()`, so it is the
   * single-result view of the rows `all()` returns.
   */
  function One<P, V>(q: BlockingQuery<P, V>): (r: Result<Option<V>, Failure>)
    ensures r == Support.One(q)
    ensures r == Success(None) <==> All(q) == []
    ensures r.Success? && r.value.Some? <==> |All(q)| == 1
    ensures r.Success? && r.value.Some? ==> r.value.value == All(q)[0]
    ensures r.Failure? <==> |All(q)| > 1
    ensures r.Failure? ==> r.error == NonUniqueResult
  {
    SingleResult(q.ops.find(q.example.probeType, q.resultType, QueryFragments(q, BySort(q.sort))))
  }

  /** `first()`: the head of `all()`, or `null`. */
  function First<P, V>(q: BlockingQuery<P, V>): (r: Option<V>)
    ensures r == Support.First(q)
  {
    var all := All(q);
    if all == [] then None else Some(all[0])
  }

  /**
   * `page(pageable)`: the fragments take the pageable where `all()` takes the sort, with
   * the same example and predicate; the total is `count()`.
   */
  function Page<P, V>(q: BlockingQuery<P, V>, pageable: Pageable): (page: QueryModel.Page<V>)
    ensures page == Support.Page(q, pageable)
    ensures page.content == q.ops.find(q.example.probeType, q.resultType, QueryFragments(q, ByPage(pageable)))
    ensures page.total == q.ops.countOperation(q.example)
  {
    QueryModel.Page(q.ops.find(q.example.probeType, q.resultType, QueryFragments(q, ByPage(pageable))),
                    pageable, Count(q))
  }

  /** `stream()`: the same elements as `all()`, in the same order. */
  function Stream<P, V>(q: BlockingQuery<P, V>): (s: seq<V>)
    ensures s == Support.Stream(q)
    ensures |s| == |All(q)| && forall i :: 0 <= i < |s| ==> s[i] == All(q)[i]
  {
    All(q)
  }

  /** `count()`: the injected count operation on the example. */
  function Count<P, V>(q: BlockingQuery<P, V>): (n: nat)
    ensures n == Support.Count(q)
  {
    q.ops.countOperation(q.example)
  }

  /** `exists()`: the injected exists operation on the example. */
  function Exists<P, V>(q: BlockingQuery<P, V>): (b: bool)
    ensures b == Support.Exists(q)
  {
    q.ops.existsOperation(q.example)
  }
}
