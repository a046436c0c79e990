# ts-enumerable: the lazy `where`/`select` pipeline in Dafny

This project models the part of the ts-enumerable library that has code in
`src/enumerable.ts`. That part is a LINQ-style lazy pipeline over finite
sequences:

- `stream(iter)` wraps a JavaScript array in an `ArrayEnumerable` and any other
  iterable in an `IterEnumerable`;
- `where(predicate)` and `select(selector)` build new nodes without touching
  the data. Their generators hand the caller's function each element together
  with its 0-based position in the upstream enumeration;
- `toArray()` collects one enumeration. The array-backed node returns its
  source instead;
- `count` counts one enumeration. The array-backed node returns its source
  length instead;
- `selectMany` is declared but throws `Error('not impl this..')` as soon as it
  is called.

Files:

- `operators.dfy` (module `Operators`): the meaning of `where` and `select` over
  `seq<T>`, with index-aware `Predicate<T> = (T, nat) -> bool` and
  `Selector<T, U> = (T, nat) -> U`. It also holds the laws about them:
  - which positions `where` keeps, and in what order;
  - streaming, i.e. prefixes of the source give prefixes of the output;
  - when `where` keeps everything or nothing;
  - idempotence;
  - composition of chained operators.
- `enumerable.dfy` (module `Enumerables`): the node datatype and
  `Stream`/`Where`/`Select`/`SelectMany`/`ToArray`. It also has the generator
  loops (`RunWhere`, `RunSelect`), one whole enumeration (`Enumerate`) and the
  two `count` paths.
- `composition.dfy` (module `Pipelines`): the composition laws restated on
  pipeline nodes.
- `scenarios.dfy` (module `Scenarios`): the library's test cases for `where`,
  `select`, their composition and `selectMany`, as concrete facts. It includes
  JavaScript's truncating `%` (`JsRem`).
- `wrappers.dfy` (module `Wrappers`): the `Result` type for the error that
  `selectMany` throws.

A node is an immutable value. `Iterate(e)` is the sequence one enumeration
yields. A `select` node changes the element type, and a Dafny datatype cannot
hide its upstream's element type. So `SelectEnumerable` stores the enumeration
closure, which captures the upstream node and the selector. `WhereEnumerable`
keeps its upstream and predicate as fields, like the class does.

The library's tests also call `orderBy`, `thenBy`, `join`, `groupJoin`,
`groupBy`, `take`, `takeWhile`, `zip`, `union`, `except`, `intersect`,
`distinct`, `reverse` and `concat`. `src/enumerable.ts` has no code for any of
them, so they are not modelled (see "Left out").

Filtering twice equals filtering once whenever the predicate ignores the
index (`Operators.WhereIdempotent`). With an index-aware predicate this can
fail, because a second `where` numbers the survivors from 0 again
(`Operators.WhereNotIdempotentWithIndex`).

## Model

| member | source | states |
|---|---|---|
| `Enumerables.Stream` | src/enumerable.ts:1-5 | Arrays, and only arrays, get the array-backed node; any other iterable gets the generic node. Either way, enumerating the node yields exactly the given elements. |
| `Enumerables.Where` | src/enumerable.ts:77-93 | Enumerating the `where` node yields the upstream elements at exactly the positions where `predicate(v, i)` holds, in upstream order, and nothing else. This is the sequence-level `where` of the upstream enumeration. |
| `Enumerables.Select` | src/enumerable.ts:95-109 | The `select` node enumerates to as many elements as its upstream. Element `i` is `selector(upstream[i], i)`. |
| `Enumerables.SelectMany` | src/enumerable.ts:34-36 | For every node and selector, `selectMany` fails with `NotImplemented("not impl this..")` and never produces a node. |
| `Enumerables.ToArray` | src/enumerable.ts:58-60 | The array override returns the source. It agrees with the generic `toArray` (lines 38-40): both equal what one enumeration yields. |
| `Enumerables.RunWhere` | src/enumerable.ts:85-92 | The `where` generator loop advances its counter for every element it pulls, not only for those it emits. It produces exactly the sequence-level `where`. |
| `Enumerables.RunSelect` | src/enumerable.ts:103-108 | The `select` generator loop yields `selector(v, i)` with a counter advanced per element. It produces exactly the sequence-level `select`. |
| `Enumerables.Enumerate` | src/enumerable.ts:54-108 | One enumeration of any node yields exactly the elements `Iterate` assigns it. Array and generic nodes yield their source. A `where` node enumerates its upstream and runs the `where` generator loop over it, with its counter starting at 0 on each call. A `select` node evaluates its stored closure (see "Left out"). So the result is determined by the node alone, and repeated enumerations agree. |
| `Enumerables.GenericCount` | src/enumerable.ts:42-46 | Counting by one full enumeration gives the number of elements `toArray` returns. |
| `Enumerables.Count` | src/enumerable.ts:62-64 | The array fast path (source length) and the generic path both give the length of `toArray`, so the two agree. |
| `Operators.Where` | src/enumerable.ts:85-91 | Filtering never lengthens the sequence and only emits elements of the source. |
| `Operators.Select` | src/enumerable.ts:103-107 | Projection keeps the length, and output `i` is `f(s[i], i)`. |
| `Operators.Positions` | src/enumerable.ts:86-88 | Lists the upstream indices where the predicate holds on the element at that index: all of them, only them, strictly increasing. |
| `Operators.WhereSelectsPositions` | src/enumerable.ts:85-91 | `where` outputs exactly the source elements at those positions, in source order. Output `k` is the source element at the `k`-th position. |
| `Operators.WhereStep` | src/enumerable.ts:87-90 | Pulling element `k` appends it to the output exactly when `predicate(s[k], k)` holds. |
| `Operators.WhereAppend` | src/enumerable.ts:86-88 | Filtering `a + b` filters `a`, then filters `b` with indices offset by `|a|`. The counter never restarts mid-enumeration. |
| `Operators.WherePrefix` | src/enumerable.ts:87-90 | What `where` has emitted after `n` pulls is a prefix of its final output. Output is streamed, not buffered. |
| `Operators.WhereKeepsAllIff` | src/enumerable.ts:88-90 | `where` returns its whole source if and only if the predicate holds at every position. |
| `Operators.WhereDropsAllIff` | src/enumerable.ts:88-90 | `where` returns nothing if and only if the predicate fails at every position. |
| `Operators.WhereIdempotent` | src/enumerable.ts:85-91 | With a predicate that ignores the index, filtering twice equals filtering once. |
| `Operators.WhereNotIdempotentWithIndex` | src/enumerable.ts:86-88 | With `(v, i) => i == 1`, filtering `[10, 20, 30]` twice differs from filtering it once, because the second pass re-indexes from 0. |
| `Operators.WhereOfWhere` | src/enumerable.ts:86-88 | Two chained filters equal one filter. It tests the first predicate at the upstream index, then the second at the number of earlier survivors. |
| `Operators.SelectIdentity` | src/enumerable.ts:103-107 | Projecting with `(v, i) => v` returns the source. |
| `Operators.SelectSelect` | src/enumerable.ts:103-107 | `select(select(s, f), g)` equals `select(s, (x, i) => g(f(x, i), i))`. |
| `Operators.SelectOfWhere` | src/enumerable.ts:85-108 | `select` after `where`: one output per survivor. Output `k` is `f` of the `k`-th surviving element with index `k`, its output position, not its upstream position. |
| `Pipelines.SelectSelectNodes` | src/enumerable.ts:95-108 | A chained pair of `select` nodes enumerates like one node with the composed selector. |
| `Pipelines.SelectOfWhereNodes` | src/enumerable.ts:77-108 | A `select` node over a `where` node enumerates to `f` applied to each survivor, indexed by output position. |
| `Pipelines.WhereWhereNodes` | src/enumerable.ts:77-93 | A chained pair of `where` nodes enumerates like one `where` node with the chained predicate. |
| `Pipelines.StreamToArray` | src/enumerable.ts:1-5 | `stream(a).toArray()` returns `a`'s elements in order, for arrays and other iterables alike. This combines `stream` with the array `toArray` override (lines 58-60) and the generic `toArray` (lines 38-40). |
| `Scenarios.JsRem` | test/where.test.ts:8 | JavaScript's `%` used by the test predicates: the remainder truncated toward zero. It has the sign of the dividend, is smaller than the divisor in magnitude, and differs from the dividend by a multiple of the divisor. |
| `Scenarios.WhereOdd` | test/where.test.ts:5-10 | `stream([1,2,3]).where(v => v % 2 === 1).toArray()` is `[1, 3]`. |
| `Scenarios.WhereOddAtEvenIndex` | test/where.test.ts:13-18 | `where((v, i) => v % 2 === 1 && i % 2 === 0)` on `[1,2,3,3,6,8,8,9,4]` is `[1, 3]`. The index is the upstream position. |
| `Scenarios.WhereEven` | test/composeFunc.test.ts:7-8 | `where(v => v % 2 === 0)` on the same sample is `[2, 6, 8, 8, 4]`. |
| `Scenarios.SelectOdd` | test/select.test.ts:5-10 | `select(v => v % 2 === 1)` on `[1,2,3]` is `[true, false, true]`. |
| `Scenarios.SelectOddAtEvenIndex` | test/select.test.ts:13-18 | The index-aware `select` on the sample gives the nine booleans the test expects. |
| `Scenarios.WhereThenSelect` | test/composeFunc.test.ts:5-11 | `where` even, then `select(String)`, gives `['2', '6', '8', '8', '4']`. |
| `Scenarios.SelectManyThrows` | test/selectMany.test.ts:5-11 | The test's `selectMany` call fails with the not-implemented error instead of yielding `[1, 2, 3]` as the test expects. |

## Left out

- The operators that only the tests use. These are orderBy/orderByDescending/thenBy/thenByDescending, join, groupJoin, groupBy, take, takeWhile, zip, union, except, intersect, distinct, reverse and concat. `src/enumerable.ts` has no code for them, and modelling them would invent behaviour.
- The flattening that test/selectMany.test.ts expects. The code throws at src/enumerable.ts:35, so only the failure is modelled.
- JavaScript iterator and generator machinery (`yield*`, `Symbol.iterator`, suspension between pulls). Both kinds of source are a finite `seq`. Laziness appears only as the prefix law `Operators.WherePrefix` and as node construction not reading the data.
- The runtime `Array.isArray` test. The caller's value arrives already tagged as `ArraySource` or `IterableSource`.
- Reference identity and aliasing of the array that `ArrayEnumerable.toArray` returns. The model compares values only.
- Side-effecting, single-use or infinite iterables. Every source is a finite value that can be enumerated any number of times with the same result. Predicates and selectors are pure Dafny functions, so callbacks that throw or have side effects are not modelled.
- JavaScript `number` for counters and `count`. Indices and counts are unbounded `nat`, so there is no floating-point precision limit.
- Enumerables.Enumerate: a `select` node is enumerated by evaluating its stored closure, which applies the functional `Operators.Select` to the upstream's `Iterate`. It does not run `RunSelect` over `Enumerate(upstream)`, so `where` nodes below a `select` are not run through `RunWhere` either. `RunSelect` is proved equal to `Operators.Select` separately. The closure stands in for the upstream node and selector, which a Dafny datatype cannot hold while the element type changes.
- Enumerables.Iterate has no contract of its own. It defines what one enumeration yields, and `Enumerate` is the method proved to compute it.
