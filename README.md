# Query by example and fluent queries, modelled in Dafny

This project models the query-by-example layer of Spring Data Neo4j, in its blocking
and its reactive form.

- The blocking executor answers `findOne`, `findAll`, `findAll(sort)`,
  `findAll(pageable)`, `count` and `exists` for an `Example`.
- Its `findBy` hands the caller an immutable fluent query (a
  `FetchableFluentQuerySupport`). The caller refines that query with `sortBy`,
  `project` and `as`, and ends it with `one`, `first`, `all`, `page`, `stream`,
  `count` or `exists`.
- The reactive executor answers `findOne`, `findAll`, `findAll(sort)`, `count` and
  `exists`. It has no paged `findAll`, and its `findBy` is unsupported: it always
  fails with `UnsupportedOperationException`.
- `FetchableFluentQueryImpl` and `ReactiveFluentQueryImpl` are fluent queries of the
  same shape that no executor in this layer builds. They are modelled as classes a
  caller constructs directly.

Three classes hold the fluent query's state: `FetchableFluentQuerySupport`,
`FetchableFluentQueryImpl` (both blocking) and `ReactiveFluentQueryImpl`. Lines 52-140
of the three files are the same code up to the class names and the types of the
injected operations: the final fields, the two constructors,
`createIncludedFieldsPredicate`, `sortBy`, `as` and `project`. The model therefore
has one value type for that state, `FluentQuerySpec.FluentQuery`, and one function
per chaining call. Each class then gets its own module of terminal operations.

How the model is built:

- **Plain values.** The model works on datatypes and functions, as the source does.
  Every field is final and every chaining call builds a new instance.
- **`Sort`** is a sequence of orders. `Sort.unsorted()` is `[]` and `a.and(b)` is `a + b`.
- **Projected properties** are an `Option<set<string>>`. `None` stands for `null`.
- **Injected operations** are function-valued fields of the query. These are the
  find operation and the count and exists operations.
- **`forExample(...)`** (`QueryFragmentsAndParameters.forExample`) is treated as an
  uninterpreted function of its arguments. The `Fragments` value records which
  overload was called and with what.
- **`Mono`** is a completed outcome: empty, one value, or an error.
- **`Flux`** is the finite sequence of rows it emits.

Module layout:

- `wrappers.dfy`: `Option` and `Result`.
- `query_model.dfy`: `Sort`, `Pageable`, `Page`, `Example`, the fragments, the failures,
  and the single-result view of a query (`oneValue`/`getSingleResult`).
- `reactor.dfy`: the few Reactor operators the reactive code uses.
- `fluent_query_spec.dfy`: the shared fluent-query state and its chaining calls.
- `fluent_query_chains.dfy`: what an arbitrary chain of `sortBy`/`project`/`as` calls
  yields. It is stated against reference definitions that do not use the chaining
  functions.
- `fetchable_fluent_query_support.dfy`, `fetchable_fluent_query_impl.dfy`,
  `reactive_fluent_query_impl.dfy`: the terminal operations of each class.
- `simple_query_by_example_executor.dfy`, `simple_reactive_query_by_example_executor.dfy`:
  the two executors.

The blocking `FetchableFluentQueryImpl` is a copy of `FetchableFluentQuerySupport`
under another name. Each of its operations is modelled from its own code and proved
equal to the `FetchableFluentQuerySupport` operation, for every query and every set
of injected operations.

`as(type)` does not carry refinements over: it calls the six-argument constructor
(FetchableFluentQuerySupport.java:125-126), which passes `Sort.unsorted()` and `null`
(:77-78), so both the accumulated sort and the projection are dropped. `FluentQuerySpec.As` and
`FluentQuerySpec.AsForgetsRefinements` state this behaviour.

## Model

| member | source | states |
|---|---|---|
| `QueryModel.SingleResult` | src/main/java/org/springframework/data/neo4j/repository/query/FetchableFluentQuerySupport.java:145-149 | The single-result view of a query's rows: empty for no row, the row for exactly one, a `NonUniqueResult` failure for two or more (both directions of each case) |
| `Reactor.SingleOrEmpty` | src/main/java/org/springframework/data/neo4j/repository/query/ReactiveFluentQueryImpl.java:155 | `singleOrEmpty()`: empty iff no items, the item iff exactly one, a "more than one item" error iff two or more |
| `Reactor.Next` | src/main/java/org/springframework/data/neo4j/repository/query/ReactiveFluentQueryImpl.java:152-156 | `next()`, used by the corrected reactive `first()`: empty iff no items, otherwise the first item, never an error |
| `Reactor.HasElements` | src/main/java/org/springframework/data/neo4j/repository/query/SimpleReactiveQueryByExampleExecutor.java:93 | `hasElements()` always emits a value, and the value is true iff the flux has an item |
| `Reactor.SingleResultMono` | src/main/java/org/springframework/data/neo4j/repository/query/ReactiveFluentQueryImpl.java:142-150 | The reactive single-result view: empty, the one row, or a non-unique error, each iff the row count is 0, 1 or more |
| `Reactor.CollectListZipWith` | src/main/java/org/springframework/data/neo4j/repository/query/ReactiveFluentQueryImpl.java:176 | `collectList().zipWith(other)` yields the pair (all rows, other's value) iff `other` emits a value; it is empty iff `other` is empty and fails with `other`'s error iff `other` fails |
| `FluentQuerySpec.NewQueryWith` | src/main/java/org/springframework/data/neo4j/repository/query/FetchableFluentQuerySupport.java:81-103 | The eight-argument constructor stores its arguments. The properties become a set copy that equals the given set, and `null` stays `null` |
| `FluentQuerySpec.NewQuery` | src/main/java/org/springframework/data/neo4j/repository/query/FetchableFluentQuerySupport.java:69-79 | The six-argument constructor yields an unsorted query without projection, with the given example, result type and operations |
| `FluentQuerySpec.IncludedFieldsPredicate` | src/main/java/org/springframework/data/neo4j/repository/query/FetchableFluentQuerySupport.java:105-111 | With no properties the predicate accepts every path; otherwise it accepts a path iff its dotted form is one of the properties |
| `FluentQuerySpec.QueryFragments` | src/main/java/org/springframework/data/neo4j/repository/query/FetchableFluentQuerySupport.java:145-176 | The fragments of a terminal call carry the query's example and the given sort or pageable. Their filter passes a path iff the projection includes it |
| `FluentQuerySpec.SortBy` | src/main/java/org/springframework/data/neo4j/repository/query/FetchableFluentQuerySupport.java:113-119 | The new sort is the old sort followed by the given one. Example, result type, operations and properties are unchanged. The same code is at FetchableFluentQueryImpl.java:115-119 and ReactiveFluentQueryImpl.java:115-119 |
| `FluentQuerySpec.As` | src/main/java/org/springframework/data/neo4j/repository/query/FetchableFluentQuerySupport.java:121-127 | Keeps example and operations and takes the new result type, but resets the sort to unsorted and the properties to `null` (also FetchableFluentQueryImpl.java:125-126, ReactiveFluentQueryImpl.java:125-126) |
| `FluentQuerySpec.Project` | src/main/java/org/springframework/data/neo4j/repository/query/FetchableFluentQuerySupport.java:129-140 | The new properties are exactly the old ones (none when `null`) plus the given ones. Sort, result type, example and operations are kept (also FetchableFluentQueryImpl.java:131-140, ReactiveFluentQueryImpl.java:131-140) |
| `FluentQuerySpec.SortByTwice` | src/main/java/org/springframework/data/neo4j/repository/query/FetchableFluentQuerySupport.java:115-119 | `sortBy(a).sortBy(b)` is the same query as `sortBy(a.and(b))` |
| `FluentQuerySpec.ProjectIdempotent` | src/main/java/org/springframework/data/neo4j/repository/query/FetchableFluentQuerySupport.java:131-140 | `project(ps).project(ps)` is the same query as `project(ps)` |
| `FluentQuerySpec.ProjectTwice` | src/main/java/org/springframework/data/neo4j/repository/query/FetchableFluentQuerySupport.java:133-137 | `project(a).project(b)` equals `project(a ∪ b)` and equals `project(b).project(a)` |
| `FluentQuerySpec.ProjectNarrowsPredicate` | src/main/java/org/springframework/data/neo4j/repository/query/FetchableFluentQuerySupport.java:105-140 | After `project`, the predicate accepts exactly the old and new properties. On a query without projection it narrows "every path" to the given paths |
| `FluentQuerySpec.AsForgetsRefinements` | src/main/java/org/springframework/data/neo4j/repository/query/FetchableFluentQuerySupport.java:123-127 | Two queries with the same example and operations give the same query after `as(t)`, whatever sort or projection they had accumulated |
| `FluentQueryChains.ChainSplit` | src/main/java/org/springframework/data/neo4j/repository/query/FetchableFluentQuerySupport.java:113-140 | Running the calls `a` and then the calls `b` on the result is the same as running the calls `a + b` |
| `FluentQueryChains.ChainOutcome` | src/main/java/org/springframework/data/neo4j/repository/query/FetchableFluentQuerySupport.java:113-140 | For every chain of calls: example and operations never change, and the last `as` fixes the result type. After the last `as` (or from the start when there is none), the sorts of later `sortBy` calls are appended in call order. The properties become the union of later `project` calls, or stay as they were when there is no such call |
| `FluentQueryChains.ChainWithoutAs` | src/main/java/org/springframework/data/neo4j/repository/query/FetchableFluentQuerySupport.java:113-140 | Without `as`, a chain keeps the result type, appends every sort to the original one and unions every projection into the original one |
| `FetchableFluentQuerySupport.All` | src/main/java/org/springframework/data/neo4j/repository/query/FetchableFluentQuerySupport.java:159-167 | The rows the find operation returns for the probe type, mapped to the result type. The fragments are ordered by the accumulated sort and filtered by the included-fields predicate |
| `FetchableFluentQuerySupport.One` | src/main/java/org/springframework/data/neo4j/repository/query/FetchableFluentQuerySupport.java:142-150 | Uses the same fragments as `all()`: no value iff `all()` is empty, the row iff it has exactly one, a `NonUniqueResult` failure iff it has more |
| `FetchableFluentQuerySupport.First` | src/main/java/org/springframework/data/neo4j/repository/query/FetchableFluentQuerySupport.java:152-157 | `null` iff `all()` is empty, otherwise the element at index 0 of `all()` |
| `FetchableFluentQuerySupport.Page` | src/main/java/org/springframework/data/neo4j/repository/query/FetchableFluentQuerySupport.java:169-180 | Content from fragments built with the pageable in place of the sort, with the same example and predicate. The total is `count()` |
| `FetchableFluentQuerySupport.Stream` | src/main/java/org/springframework/data/neo4j/repository/query/FetchableFluentQuerySupport.java:182-185 | The same elements as `all()`, in the same order |
| `FetchableFluentQuerySupport.Count` | src/main/java/org/springframework/data/neo4j/repository/query/FetchableFluentQuerySupport.java:187-190 | Exactly the injected count operation applied to the example |
| `FetchableFluentQuerySupport.Exists` | src/main/java/org/springframework/data/neo4j/repository/query/FetchableFluentQuerySupport.java:192-195 | Exactly the injected exists operation applied to the example |
| `FetchableFluentQuerySupport.FirstVersusOne` | src/main/java/org/springframework/data/neo4j/repository/query/FetchableFluentQuerySupport.java:142-157 | With at most one match, `one()` and `first()` agree. With two or more, `one()` fails with `NonUniqueResult` while `first()` yields the first match |
| `FetchableFluentQuerySupport.CountAndExistsIgnoreRefinements` | src/main/java/org/springframework/data/neo4j/repository/query/FetchableFluentQuerySupport.java:187-195 | No chain of `sortBy`, `project` or `as` calls changes `count()` or `exists()` |
| `FetchableFluentQuerySupport.PageIgnoresAccumulatedSort` | src/main/java/org/springframework/data/neo4j/repository/query/FetchableFluentQuerySupport.java:169-180 | `page(p)` does not use the accumulated sort: `sortBy(s).page(p)` equals `page(p)` |
| `FetchableFluentQuerySupport.PageTotalIgnoresRefinements` | src/main/java/org/springframework/data/neo4j/repository/query/FetchableFluentQuerySupport.java:169-190 | After any chain of calls, a page's total is the injected count of the original example |
| `FetchableFluentQueryImpl.All` | src/main/java/org/springframework/data/neo4j/repository/query/FetchableFluentQueryImpl.java:159-167 | Equal to `FetchableFluentQuerySupport.all()` for every query and operations |
| `FetchableFluentQueryImpl.One` | src/main/java/org/springframework/data/neo4j/repository/query/FetchableFluentQueryImpl.java:142-150 | Equal to the Support version. Built from the same example, sort and predicate as `all()`, so it is the single-result view of `all()`'s rows: a `NonUniqueResult` failure iff it has more than one |
| `FetchableFluentQueryImpl.First` | src/main/java/org/springframework/data/neo4j/repository/query/FetchableFluentQueryImpl.java:152-157 | Equal to the Support version for every input |
| `FetchableFluentQueryImpl.Page` | src/main/java/org/springframework/data/neo4j/repository/query/FetchableFluentQueryImpl.java:169-180 | Equal to the Support version. Content from the pageable-windowed fragments; total from the injected count of the example, never from the content |
| `FetchableFluentQueryImpl.Stream` | src/main/java/org/springframework/data/neo4j/repository/query/FetchableFluentQueryImpl.java:182-185 | Equal to the Support version: element for element, `all()` in the same order |
| `FetchableFluentQueryImpl.Count` | src/main/java/org/springframework/data/neo4j/repository/query/FetchableFluentQueryImpl.java:187-190 | Equal to the Support version for every input |
| `FetchableFluentQueryImpl.Exists` | src/main/java/org/springframework/data/neo4j/repository/query/FetchableFluentQueryImpl.java:192-195 | Equal to the Support version for every input |
| `ReactiveFluentQueryImpl.All` | src/main/java/org/springframework/data/neo4j/repository/query/ReactiveFluentQueryImpl.java:158-166 | The rows the find operation emits for the probe type, the result type, the accumulated sort and the included-fields predicate |
| `ReactiveFluentQueryImpl.One` | src/main/java/org/springframework/data/neo4j/repository/query/ReactiveFluentQueryImpl.java:142-150 | Same fragments as `all()`: empty iff no rows, the row iff one, a non-unique error iff more |
| `ReactiveFluentQueryImpl.FirstAsWritten` | src/main/java/org/springframework/data/neo4j/repository/query/ReactiveFluentQueryImpl.java:152-156 | `all().singleOrEmpty()`: empty for zero rows, the row for one, and for two or more an error instead of the head |
| `ReactiveFluentQueryImpl.First` | src/main/java/org/springframework/data/neo4j/repository/query/ReactiveFluentQueryImpl.java:152-156 | Corrected `first()`: empty iff `all()` is empty, otherwise the first row; never an error |
| `ReactiveFluentQueryImpl.Page` | src/main/java/org/springframework/data/neo4j/repository/query/ReactiveFluentQueryImpl.java:168-180 | A page iff the count emits a value. Its content is the windowed rows and its total is that count. An empty or failing count makes the page empty or failing with the same error |
| `ReactiveFluentQueryImpl.Count` | src/main/java/org/springframework/data/neo4j/repository/query/ReactiveFluentQueryImpl.java:182-185 | Exactly the injected count operation on the example |
| `ReactiveFluentQueryImpl.Exists` | src/main/java/org/springframework/data/neo4j/repository/query/ReactiveFluentQueryImpl.java:187-190 | Exactly the injected exists operation on the example |
| `ReactiveFluentQueryImpl.CountAndExistsIgnoreRefinements` | src/main/java/org/springframework/data/neo4j/repository/query/ReactiveFluentQueryImpl.java:182-190 | No chain of `sortBy`, `project` or `as` calls changes the reactive `count()` or `exists()` |
| `ReactiveFluentQueryImpl.FirstAsWrittenFailsOnTwoMatches` | src/main/java/org/springframework/data/neo4j/repository/query/ReactiveFluentQueryImpl.java:155 | With two or more matches, the written `first()` fails with "more than one item" where the corrected one yields the first match |
| `ReactiveFluentQueryImpl.FirstAsWrittenCounterexample` | src/main/java/org/springframework/data/neo4j/repository/query/ReactiveFluentQueryImpl.java:155 | A concrete query whose find returns two people named Smith: the written `first()` errors, the corrected one yields the first |
| `ReactiveFluentQueryImpl.SameAsBlocking` | src/main/java/org/springframework/data/neo4j/repository/query/ReactiveFluentQueryImpl.java:142-166 | Over the same state and find operation, reactive and blocking `all()` agree. The corrected reactive `first()` matches blocking `first()` case by case, reactive `one()` has a value iff blocking `one()` has one, the same value, and errors iff blocking `one()` fails |
| `SimpleQueryByExampleExecutor.FindAll` | src/main/java/org/springframework/data/neo4j/repository/query/SimpleQueryByExampleExecutor.java:70-74 | The rows of the executable query for the probe type. The fragments come from the example alone: no sort, no paging, no projection filter |
| `SimpleQueryByExampleExecutor.FindOne` | src/main/java/org/springframework/data/neo4j/repository/query/SimpleQueryByExampleExecutor.java:64-68 | Same fragments as `findAll(e)`: empty iff `findAll(e)` is empty, the row iff it has one, a non-unique failure iff it has more |
| `SimpleQueryByExampleExecutor.FindAllSorted` | src/main/java/org/springframework/data/neo4j/repository/query/SimpleQueryByExampleExecutor.java:76-80 | The caller's sort reaches the fragments unchanged, next to the example that drives matching |
| `SimpleQueryByExampleExecutor.Count` | src/main/java/org/springframework/data/neo4j/repository/query/SimpleQueryByExampleExecutor.java:92-100 | The count statement for `Predicate.create(mappingContext, e)`, without fragments or projection |
| `SimpleQueryByExampleExecutor.FindAllPaged` | src/main/java/org/springframework/data/neo4j/repository/query/SimpleQueryByExampleExecutor.java:82-90 | Content from the pageable-windowed fragments. The total is `count(e)` |
| `SimpleQueryByExampleExecutor.Exists` | src/main/java/org/springframework/data/neo4j/repository/query/SimpleQueryByExampleExecutor.java:102-105 | True iff `findAll(e)` has at least one element |
| `SimpleQueryByExampleExecutor.ExistsVersusFindOne` | src/main/java/org/springframework/data/neo4j/repository/query/SimpleQueryByExampleExecutor.java:64-105 | `exists(e)` holds iff `findOne(e)` does not come back empty |
| `SimpleQueryByExampleExecutor.FluentQueryFor` | src/main/java/org/springframework/data/neo4j/repository/query/SimpleQueryByExampleExecutor.java:110-112 | The query `findBy` builds: the example, the probe type as result type, unsorted, no projection. The operations object is the find operation, and the executor's `count`/`exists` answer for the example |
| `SimpleQueryByExampleExecutor.FluentQueryForAnswersLikeExecutor` | src/main/java/org/springframework/data/neo4j/repository/query/SimpleQueryByExampleExecutor.java:110-112 | The count and exists operations of the query `findBy` builds answer exactly as the executor's `count` and `exists`, for every example |
| `SimpleQueryByExampleExecutor.FindBy` | src/main/java/org/springframework/data/neo4j/repository/query/SimpleQueryByExampleExecutor.java:107-117 | Fails with `UnsupportedOperation` iff the operations are not a `FluentFindOperation`. Otherwise it is the function applied to that fresh query |
| `SimpleQueryByExampleExecutor.FluentCountAndExistsAgree` | src/main/java/org/springframework/data/neo4j/repository/query/SimpleQueryByExampleExecutor.java:107-117 | Through `findBy`, however the query is refined, the fluent `count()`/`exists()` equal the executor's `count(e)`/`exists(e)` |
| `SimpleQueryByExampleExecutor.FluentPageTotalAgrees` | src/main/java/org/springframework/data/neo4j/repository/query/SimpleQueryByExampleExecutor.java:82-117 | Through `findBy`, after any refinement, a fluent page's total equals the total of `findAll(e, pageable)` |
| `SimpleReactiveQueryByExampleExecutor.FindAll` | src/main/java/org/springframework/data/neo4j/repository/query/SimpleReactiveQueryByExampleExecutor.java:67-72 | The rows of the executable query for the probe type, from fragments with no sort and no paging |
| `SimpleReactiveQueryByExampleExecutor.FindOne` | src/main/java/org/springframework/data/neo4j/repository/query/SimpleReactiveQueryByExampleExecutor.java:60-65 | Same fragments as `findAll(e)`: empty, the row, or a `NonUniqueResult` error, each iff `findAll(e)` has 0, 1 or more rows |
| `SimpleReactiveQueryByExampleExecutor.FindAllSorted` | src/main/java/org/springframework/data/neo4j/repository/query/SimpleReactiveQueryByExampleExecutor.java:74-79 | The caller's sort reaches the fragments unchanged |
| `SimpleReactiveQueryByExampleExecutor.Count` | src/main/java/org/springframework/data/neo4j/repository/query/SimpleReactiveQueryByExampleExecutor.java:81-89 | The count statement for the example predicate and its parameters |
| `SimpleReactiveQueryByExampleExecutor.Exists` | src/main/java/org/springframework/data/neo4j/repository/query/SimpleReactiveQueryByExampleExecutor.java:91-94 | Always emits a value, true iff `findAll(e)` emits at least one row |
| `SimpleReactiveQueryByExampleExecutor.ExistsVersusFindOne` | src/main/java/org/springframework/data/neo4j/repository/query/SimpleReactiveQueryByExampleExecutor.java:60-94 | `exists(e)` emits true iff `findOne(e)` is not empty |
| `SimpleReactiveQueryByExampleExecutor.FindBy` | src/main/java/org/springframework/data/neo4j/repository/query/SimpleReactiveQueryByExampleExecutor.java:96-100 | Fails with `UnsupportedOperation` for every example and every function |

## Findings

| source | as written | input that shows it | evidently intended | confidence | as-written member | corrected member |
|---|---|---|---|---|---|---|
| src/main/java/org/springframework/data/neo4j/repository/query/ReactiveFluentQueryImpl.java:155 | `first()` is `all().singleOrEmpty()`. That signals an error when the query matches two or more rows | A query whose `all()` emits two rows, e.g. two people named Smith | The first row, or empty when there is none. The blocking `first()` (FetchableFluentQueryImpl.java:155-156) does this, and so does `first` in the `FluentQuery` contract. No code in this layer builds `ReactiveFluentQueryImpl` (the reactive `findBy` always fails), so the error is reached only by constructing that class directly | medium, not executed | `ReactiveFluentQueryImpl.FirstAsWritten` | `ReactiveFluentQueryImpl.First` |

## Left out

- `QueryFragmentsAndParameters.forExample`, `Predicate.create` and `CypherGenerator.prepareMatchOf` are not part of this model. Fragments and example predicates are free values built from their arguments. No Cypher is modelled, and neither is how an example becomes matching terms. Properties that depend on that translation are not stated, for example "an empty probe matches every entity" or "ignored fields produce no term".
- The mapping context is not modelled. Each executor has one, and the fragments are taken as a function of the remaining arguments.
- `PageableExecutionUtils.getPage` is not part of this model. A page is the window's content paired with the total from the count, and its shortcut of skipping the count is not modelled.
- The single-result view (`oneValue`, `getSingleResult`, reactive `one`) belongs to the operations layer, which is not part of this model. The model takes its documented behaviour: empty, the row, or a non-unique failure for two or more rows.
- The blocking executor's `toExecutableQuery(...).getResults()` and the fluent `find(...).as(...).matching(...).all()` are modelled by one query function of (domain type, result type, fragments) on the operations object.
- Driver and storage errors are not modelled on the find path: a find returns a completed sequence of rows. The injected reactive count and exists operations may still be empty or fail, and `page` propagates that.
- `Mono`/`Flux` laziness, subscription, cancellation and the concurrency of `zipWith` are not modelled. Only completed outcomes are.
- `Class<R>` conversion is not modelled: a result type is a type name passed to the find operation. `HashSet` hashing is a mathematical set, and a `RelaxedPropertyPath` is its dotted string.
- The `project` argument (`Collection<String>`) is a sequence of names. The eight-argument constructor receives the sets its callers build.
- Identity-based immutability and the defensive copy are not modelled. Every query is a value, so a derived query cannot affect the one it came from, and a caller's later changes to a collection cannot reach a query. These properties hold by construction and are not stated as lemmas.
- `SimpleQueryByExampleExecutor.FluentQueryFor` states in its own contract that the injected count and exists answer like the executor only for the query's own example, because a function contract here cannot quantify over all examples of a generic probe type; the lemma `FluentQueryForAnswersLikeExecutor` states it for every example.
- The low-level client (`DefaultNeo4jClient`) is not modelled. It covers session and transaction plumbing, the auto-closing proxy, result consumption and exception translation.
