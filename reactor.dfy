/**
 * Reactor's `Mono` as a completed value, and the few `Flux`/`Mono` operators the
 * reactive classes use. A `Flux` is the finite sequence of items it emits.
 */
module Reactor {
  import opened Wrappers
  import opened QueryModel

  /** A completed `Mono`: it emitted nothing, one value, or an error. */
  datatype Mono<+T> = Empty | Just(value: T) | Error(error: Failure)

  /** `flux.singleOrEmpty()`. */
  function SingleOrEmpty<T>(flux: seq<T>): (m: Mono<T>)
    ensures m == Empty <==> flux == []
    ensures m.Just? <==> |flux| == 1
    ensures m.Just? ==> m.value == flux[0]
    ensures m.Error? <==> |flux| >= 2
    ensures m.Error? ==> m.error == MoreThanOneItem
  {
    if |flux| == 0 then Empty
    else if |flux| == 1 then Just(flux[0])
    else Error(MoreThanOneItem)
  }

  /** `flux.next()`: the first item, if there is one. */
  function Next<T>(flux: seq<T>): (m: Mono<T>)
    ensures m == Empty <==> flux == []
    ensures !m.Error?
    ensures m.Just? ==> m.value == flux[0]
  {
    if flux == [] then Empty else Just(flux[0])
  }

  /** `flux.hasElements()`. */
  function HasElements<T>(flux: seq<T>): (m: Mono<bool>)
    ensures m.Just? && (m.value <==> |flux| > 0)
  {
    Just(|flux| > 0)
  }

  /** The single-result view of a query's rows as a `Mono`. */
  function SingleResultMono<V>(rows: seq<V>): (m: Mono<V>)
    ensures m == Empty <==> rows == []
    ensures m.Just? <==> |rows| == 1
    ensures m.Just? ==> m.value == rows[0]
    ensures m.Error? <==> |rows| > 1
    ensures m.Error? ==> m.error == NonUniqueResult
  {
    match SingleResult(rows)
    case Success(None) => Empty
    case Success(Some(v)) => Just(v)
    case Failure(e) => Error(e)
  }

  /**
   * `flux.collectList().zipWith(other)`: the collected list cannot fail here, so the
   * pair exists exactly when `other` emits a value; otherwise the result is whatever
   * `other` completed with.
   */
  function CollectListZipWith<T, U>(flux: seq<T>, other: Mono<U>): (m: Mono<(seq<T>, U)>)
    ensures m.Just? <==> other.Just?
    ensures m.Just? ==> m.value == (flux, other.value)
    ensures m == Empty <==> other == Empty
    ensures m.Error? <==> other.Error?
    ensures m.Error? ==> m.error == other.error
  {
    match other
    case Empty => Empty
    case Just(u) => Just((flux, u))
    case Error(e) => Error(e)
  }
}
