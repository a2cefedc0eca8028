/**
 * Chains of refinements on a fluent query, `q.sortBy(a).project(ps).as(T).sortBy(b)...`,
 * and what such a chain yields, stated without the chaining functions: the example
 * and the operations never change; the last `as` decides the result type and wipes
 * out everything before it; after it, the sorts accumulate in call order and the
 * projections accumulate by union.
 */
module FluentQueryChains {
  import opened Wrappers
  import opened QueryModel
  import opened FluentQuerySpec

  /** One chaining call on a fluent query. */
  datatype Refinement = SortByStep(sort: Sort) | AsStep(resultType: TypeTag) | ProjectStep(properties: seq<string>)

  function Refine<P, Ops>(q: FluentQuery<P, Ops>, step: Refinement): FluentQuery<P, Ops> {
    match step
    case SortByStep(s) => SortBy(q, s)
    case AsStep(t) => As(q, t)
    case ProjectStep(ps) => Project(q, ps)
  }

  /** The query `q` followed by the calls in `steps`, left to right. */
  function Chain<P, Ops>(q: FluentQuery<P, Ops>, steps: seq<Refinement>): FluentQuery<P, Ops>
    decreases |steps|
  {
    if steps == [] then q else Refine(Chain(q, steps[..|steps| - 1]), steps[|steps| - 1])
  }

  /** The result type named by the last `as` among `steps`, if there is one. */
  function LastAs(steps: seq<Refinement>): Option<TypeTag>
    decreases |steps|
  {
    if steps == [] then None
    else if steps[|steps| - 1].AsStep? then Some(steps[|steps| - 1].resultType)
    else LastAs(steps[..|steps| - 1])
  }

  /** The steps after the last `as` (all of them when there is none). */
  function AfterLastAs(steps: seq<Refinement>): seq<Refinement>
    decreases |steps|
  {
    if steps == [] then []
    else if steps[|steps| - 1].AsStep? then []
    else AfterLastAs(steps[..|steps| - 1]) + [steps[|steps| - 1]]
  }

  /** The sorts given to the `sortBy` steps, joined in call order. */
  function SortsOf(steps: seq<Refinement>): Sort
    decreases |steps|
  {
    if steps == [] then []
    else (if steps[0].SortByStep? then steps[0].sort else []) + SortsOf(steps[1..])
  }

  /** True when some step is a `project`. */
  predicate Projects(steps: seq<Refinement>) {
    exists i :: 0 <= i < |steps| && steps[i].ProjectStep?
  }

  /** Every property named by a `project` step. */
  function ProjectedOf(steps: seq<Refinement>): set<string>
    decreases |steps|
  {
    if steps == [] then {}
    else (if steps[0].ProjectStep? then set p | p in steps[0].properties else {}) + ProjectedOf(steps[1..])
  }

  /** The projection that results from `base` and steps among which there is no `as`. */
  function Accumulated(base: Option<set<string>>, steps: seq<Refinement>): Option<set<string>> {
    if !Projects(steps) then base
    else Some((if base.Some? then base.value else {}) + ProjectedOf(steps))
  }

  lemma {:induction false} SortsOfSnoc(steps: seq<Refinement>, step: Refinement)
    ensures SortsOf(steps + [step]) == SortsOf(steps) + (if step.SortByStep? then step.sort else [])
    decreases |steps|
  {
    if steps == [] {
      assert [step][1..] == [];
    } else {
      assert (steps + [step])[1..] == steps[1..] + [step];
      SortsOfSnoc(steps[1..], step);
    }
  }

  lemma {:induction false} ProjectedOfSnoc(steps: seq<Refinement>, step: Refinement)
    ensures ProjectedOf(steps + [step]) == ProjectedOf(steps) + (if step.ProjectStep? then set p | p in step.properties else {})
    decreases |steps|
  {
    if steps == [] {
      assert [step][1..] == [];
    } else {
      assert (steps + [step])[1..] == steps[1..] + [step];
      ProjectedOfSnoc(steps[1..], step);
    }
  }

  lemma {:induction false} NoProjectionsNoProperties(steps: seq<Refinement>)
    requires !Projects(steps)
    ensures ProjectedOf(steps) == {}
    decreases |steps|
  {
    if steps != [] {
      assert !Projects(steps[1..]) by {
        forall i | 0 <= i < |steps[1..]| ensures !steps[1..][i].ProjectStep? {
          assert steps[1..][i] == steps[i + 1];
        }
      }
      NoProjectionsNoProperties(steps[1..]);
    }
  }

  /** Appending a step to the steps after the last `as` accumulates as that step would. */
  lemma AccumulatedSnoc(base: Option<set<string>>, steps: seq<Refinement>, step: Refinement)
    requires !step.AsStep?
    ensures Accumulated(base, steps + [step]) ==
            if step.ProjectStep?
            then Some((if Accumulated(base, steps).Some? then Accumulated(base, steps).value else {}) + set p | p in step.properties)
            else Accumulated(base, steps)
  {
    ProjectedOfSnoc(steps, step);
    var all := steps + [step];
    assert forall i :: 0 <= i < |steps| ==> all[i] == steps[i];
    assert all[|steps|] == step;
    if Projects(steps) {
      assert Projects(all) by {
        var i :| 0 <= i < |steps| && steps[i].ProjectStep?;
        assert all[i].ProjectStep?;
      }
    }
    if !Projects(steps) {
      NoProjectionsNoProperties(steps);
      if !step.ProjectStep? {
        assert !Projects(all) by {
          forall i | 0 <= i < |all| ensures !all[i].ProjectStep? {
            if i < |steps| { assert all[i] == steps[i]; }
          }
        }
      }
    }
    if step.ProjectStep? {
      assert Projects(all) by { assert all[|steps|].ProjectStep?; }
      var b := if base.Some? then base.value else {};
      var added := set p | p in step.properties;
      assert ProjectedOf(all) == ProjectedOf(steps) + added;
      assert Accumulated(base, all) == Some(b + ProjectedOf(all));
      if Projects(steps) {
        assert Accumulated(base, steps) == Some(b + ProjectedOf(steps));
        assert b + ProjectedOf(all) == (b + ProjectedOf(steps)) + added;
      } else {
        assert Accumulated(base, steps) == base;
        assert b + ProjectedOf(all) == b + added;
      }
    } else {
      assert ProjectedOf(all) == ProjectedOf(steps);
    }
  }

  /** A chain can be split anywhere: running `a` and then `b` is running `a + b`. */
  lemma {:induction false} ChainSplit<P, Ops>(q: FluentQuery<P, Ops>, a: seq<Refinement>, b: seq<Refinement>)
    ensures Chain(q, a + b) == Chain(Chain(q, a), b)
    decreases |b|
  {
    if b == [] {
      assert a + b == a;
    } else {
      var last := b[|b| - 1];
      var init := b[..|b| - 1];
      assert a + b == (a + init) + [last];
      assert (a + b)[..|a + b| - 1] == a + init;
      ChainSplit(q, a, init);
    }
  }

  /**
   * What any chain yields: the example and operations of `q`; the result type of the
   * last `as` (or of `q`); after the last `as` (or from `q` when there is none) the
   * sorts of the later `sortBy` calls appended in order, and the union of the later
   * `project` calls' properties.
   */
  lemma {:induction false} ChainOutcome<P, Ops>(q: FluentQuery<P, Ops>, steps: seq<Refinement>)
    ensures Chain(q, steps).example == q.example
    ensures Chain(q, steps).ops == q.ops
    ensures Chain(q, steps).resultType == (if LastAs(steps).Some? then LastAs(steps).value else q.resultType)
    ensures Chain(q, steps).sort == (if LastAs(steps).Some? then [] else q.sort) + SortsOf(AfterLastAs(steps))
    ensures Chain(q, steps).properties == Accumulated(if LastAs(steps).Some? then None else q.properties, AfterLastAs(steps))
    decreases |steps|
  {
    if steps == [] {
      assert !Projects([]);
    } else {
      var init := steps[..|steps| - 1];
      var last := steps[|steps| - 1];
      ChainOutcome(q, init);
      var tail := AfterLastAs(init);
      var base := if LastAs(init).Some? then None else q.properties;
      match last
      case AsStep(t) =>
      case SortByStep(s) =>
        SortsOfSnoc(tail, last);
        AccumulatedSnoc(base, tail, last);
      case ProjectStep(ps) =>
        SortsOfSnoc(tail, last);
        AccumulatedSnoc(base, tail, last);
    }
  }

  /** Without `as`, a chain appends every sort in call order and unions every projection. */
  lemma {:induction false} ChainWithoutAs<P, Ops>(q: FluentQuery<P, Ops>, steps: seq<Refinement>)
    requires forall i :: 0 <= i < |steps| ==> !steps[i].AsStep?
    ensures Chain(q, steps).resultType == q.resultType
    ensures Chain(q, steps).sort == q.sort + SortsOf(steps)
    ensures Chain(q, steps).properties == Accumulated(q.properties, steps)
  {
    NoAsKeepsAll(steps);
    ChainOutcome(q, steps);
  }

  lemma {:induction false} NoAsKeepsAll(steps: seq<Refinement>)
    requires forall i :: 0 <= i < |steps| ==> !steps[i].AsStep?
    ensures LastAs(steps) == None && AfterLastAs(steps) == steps
    decreases |steps|
  {
    if steps != [] {
      var init := steps[..|steps| - 1];
      assert forall i :: 0 <= i < |init| ==> init[i] == steps[i];
      NoAsKeepsAll(init);
      assert init + [steps[|steps| - 1]] == steps;
    }
  }
}
