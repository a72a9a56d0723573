# monoflux `Flux`: a Dafny model of its pull protocol and operators

`Flux` is a lazy, pull-driven asynchronous sequence. It wraps an async
generator, offers operators that build a new `Flux` pulling from the current
one (`filter`, `map`, `take`, `untilExcl`, `doOnEach`, `doAfterLast`,
`flatMap`, `transform`), can be cancelled through its upstream chain, and can
be awaited as a promise of the collected list (`asList`, `reduce`, `then`).

This model reads every generator as a finite **trace**: the values it yields,
in order, then exactly one terminal event, `Done` or `Fail(e)`.

- `Traces` (traces.dfy): errors, results, traces, and list map, filter and
  concatenation. These are the list-level operations the operators are
  compared with.
- `Operators` (operators.dfy): each operator is a trace transformer. A
  mapper, predicate or callback that throws is a `Result`, so "throws at
  item k" can be stated. `map`, `filter`, `untilExcl`, `doOnEach` and
  `flatMap` are functions with lemmas. `take` and `doAfterLast` keep a
  counter or an event list, so they are methods with loops proved against
  their contracts.
- `Wrapper` (wrapper.dfy): the generator the constructor wraps around every
  inner generator, as a state machine. On failure it yields an internal
  sentinel, then rethrows, and its `finally` marks the Flux closed. The
  module also has its `throw` and `return`, and `Pull`, which is what the
  public `next()` returns, read directly off the trace.
- `Collect` (collect.dfy): what draining resolves to. `asList` is the list
  or the failure, `reduce` is a left fold, and `then` applies the handlers.
- `FluxObject` (flux.dfy): the `Flux` class. Its fields are the wrapper's
  state, `_closed`, the readonly `upstream` and `handleCancel`, and a
  record of `handleCancel` calls. `Next` loops over the wrapper until the
  result is not the sentinel. `Cancel` recurses along the upstream chain,
  which is finite because each Flux's ghost `depth` is larger than its
  upstream's. `AsList` and `Reduce` drain with loops. The operator methods
  derive new Fluxes.
- `Scenarios` (scenarios.dfy): concrete runs from the repository's tests.

Callbacks are total Dafny functions that return `Ok` or `Err`. A callback's
effects are reduced to the arguments it is called with, the order of the calls
and its outcome. No clock, timer or scheduler is modelled.

### Behaviour worth knowing

- When the upstream has more than `n` values, `take(n)` pulls one value
  more than it emits, then breaks; the break makes `for await` call the
  upstream's `return()`. Otherwise it passes every value and the upstream's
  end, and never breaks (`Operators.Take`: `pulls`, `returned`).
- A `cancel` thrown into a suspended source is answered with the sentinel
  and leaves `_closed` false, so a second `cancel` throws again and rejects
  (`Wrapper.ThrowWhileSuspended`, `Wrapper.ThrowTwice`). A `cancel` before
  the first pull rejects, and the Flux then stays open
  (`Wrapper.ThrowBeforeStart`).
- `flatMap` checks `Array.isArray` on each mapper result separately. It
  awaits each promise before it pulls the next upstream value.
- Only `next()` filters the sentinel; `throw()` hands it to its caller
  (`Wrapper.WrapperThrow`, `FluxObject.Flux.Throw`).
- After a failure has been delivered, further pulls report `done`
  (`Wrapper.Pull` on a completed generator).

## Model

| member | source | states |
|---|---|---|
| Operators.Map | src/Flux.ts:199-209 | `map` never yields more values than the upstream did |
| Operators.MapSpec | src/Flux.ts:199-209 | if the mapper first throws at item k, the output is `mapper(v0..v(k-1))` in order, then that error; a mapper that never throws keeps the upstream's terminal |
| Operators.MapTotal | src/Flux.ts:199-209 | with a non-throwing mapper, `map` equals list map on the values and keeps the upstream's end |
| Operators.MapInterrupted | src/Flux.ts:199-209 | a failure injected into the upstream after k values leaves a prefix of the uninterrupted `map` output |
| Operators.Filter | src/Flux.ts:135-147 | `filter` never yields more values than the upstream did |
| Operators.FilterSpec | src/Flux.ts:135-147 | the output is the list filter of the values before the first predicate throw, then that error (or the upstream's end) |
| Operators.FilterTotal | src/Flux.ts:135-147 | with a non-throwing predicate, `filter` equals list filter, in order |
| Operators.FilterMembers | src/Flux.ts:135-147 | with a non-throwing predicate a value is yielded exactly when the upstream yielded it and the predicate holds for it |
| Operators.FilterInterrupted | src/Flux.ts:135-147 | an interrupted upstream gives a prefix of the uninterrupted `filter` output |
| Operators.UntilExcl | src/Flux.ts:149-169 | `untilExcl` yields a prefix of the upstream's values |
| Operators.UntilExclSpec | src/Flux.ts:149-169 | the output is the longest prefix on which the predicate is false; the first true value and everything after it are dropped and the output ends `Done`; a throw ends it with that error |
| Operators.DoOnEach | src/Flux.ts:171-182 | the values yielded are a prefix of the values the callback was called with, which are a prefix of the upstream's values: each value is seen by the callback before it is yielded |
| Operators.DoOnEachSpec | src/Flux.ts:171-182 | values pass through unchanged up to the first callback that throws; the callback is called once per value in order, up to and including the one that throws |
| Operators.DoOnEachPassThrough | src/Flux.ts:171-182 | with a non-throwing callback the trace is unchanged and the callback saw exactly the values in order |
| Operators.Expand | src/Flux.ts:235-242 | a promise result contributes exactly one value |
| Operators.FlatMap | src/Flux.ts:228-247 | `flatMap` ends naturally only when its upstream did |
| Operators.FlatMapArrays | src/Flux.ts:228-247 | with an array mapper the output is the in-order concatenation of the mapped arrays |
| Operators.FlatMapPromises | src/Flux.ts:228-247 | with a promise mapper the output is one awaited result per input, in input order, and equals `map` with the settled results |
| Operators.FlatMapFailsAt | src/Flux.ts:228-247 | a thrown or rejected mapper call at item k ends the output right after what items 0..k-1 contributed, with that error |
| Operators.FlatMapInterrupted | src/Flux.ts:228-247 | an interrupted upstream gives a prefix of the uninterrupted `flatMap` output |
| Operators.Take | src/Flux.ts:211-226 | emits exactly the first min(n, len) values; ends `Done` when it breaks, else like the upstream; pulls the upstream min(n, len)+1 times, so when the upstream has more than n values the (n+1)-th value is pulled and discarded; calls the upstream's `return()` exactly when it breaks |
| Operators.DoAfterLast | src/Flux.ts:184-197 | values pass through unchanged; the callback is called once with exactly the list of all values, only after natural exhaustion, never after an upstream failure; a failing callback ends the output with its error |
| Wrapper.Start | src/Flux.ts:13-22 | a freshly constructed wrapper is well formed and still has the inner generator's whole trace ahead |
| Wrapper.Remaining | src/Flux.ts:13-22 | at most the undelivered inner values remain |
| Wrapper.DeliveredAndRemaining | src/Flux.ts:13-22 | before a terminal event, the values delivered followed by what remains are the inner generator's whole trace |
| Wrapper.WrapperNext | src/Flux.ts:13-22 | one step of the constructor's wrapper generator keeps its state well formed and its inner generator |
| Wrapper.WrapperThrow | src/Flux.ts:46-48 | `throw(e)` keeps the wrapper well formed |
| Wrapper.WrapperReturn | src/Flux.ts:42-44 | `return()` keeps the wrapper well formed |
| Wrapper.Pull | src/Flux.ts:35-40 | what `next()` returns is never the sentinel |
| Wrapper.PullSkipsSentinel | src/Flux.ts:13-40 | the wrapper yields the sentinel only on the failure path, without closing; pulling once more after it gives exactly `Pull` |
| Wrapper.PullConsumes | src/Flux.ts:13-40 | one `next()` delivers the first remaining event and leaves the rest; the Flux becomes closed exactly at the terminal event of a generator that had not completed |
| Wrapper.Drain | src/Flux.ts:13-40 | n pulls deliver the first n events of the trace: every value in order, then the failure or `done`; `closed` becomes true at the terminal pull and not before, unless the generator had already completed (a wrapper thrown or returned into before its first pull stays open at its terminal pull) |
| Wrapper.ThrowWhileSuspended | src/Flux.ts:46-63 | a throw at an inner yield is answered with the sentinel and leaves the Flux open; the next pull fails with the injected error and closes it |
| Wrapper.ThrowInterrupts | src/Flux.ts:13-22 | a consumer of a source interrupted by a throw sees the values delivered before it, then the injected failure |
| Wrapper.ThrowTwice | src/Flux.ts:46-63 | a second throw rejects with the new error, closes the Flux and ends the trace |
| Wrapper.ThrowBeforeStart | src/Flux.ts:13-22 | a throw before the first pull rejects without running `finally`; later pulls report `done` and the Flux stays open |
| Wrapper.ReturnEndsTrace | src/Flux.ts:42-44 | `return()` ends the trace; `finally` runs only if the body had been entered and not finished |
| Collect.Collected | src/Flux.ts:271-277 | `asList` resolves exactly when the trace ends naturally, to its values in emission order; otherwise it rejects with the trace's failure |
| Collect.Reduced | src/Flux.ts:263-269 | `reduce` resolves only when the trace ends naturally, and to a reducer result (`Some`) whenever a value was folded |
| Collect.ReducedSnoc | src/Flux.ts:263-269 | `reduce` is a left fold: the last value is folded last, into the fold of the others |
| Collect.ReducePushIsAsList | src/Flux.ts:263-277 | reducing with an appending reducer from `[]` gives exactly what `asList` gives, failure included |
| Collect.ReduceWithoutInitialValue | src/Flux.ts:263-268 | without an initial value, an empty trace reduces to `undefined`; the first reducer call receives `undefined`, a throw there rejects, and otherwise its result is the accumulator for the rest |
| Collect.ThenResult | src/Flux.ts:69-85 | without `onrejected`, `then` resolves only when the drain succeeded; it resolves to the list itself only when the drain succeeded and `onfulfilled` is absent |
| Collect.ThenSpec | src/Flux.ts:69-85 | without `onfulfilled` a successful drain gives the list; without `onrejected` the drain's failure, or one thrown by `onfulfilled`, is rethrown; `onfulfilled` gets the list; `onrejected` gets the drain's failure, and also a failure thrown by `onfulfilled` |
| FluxObject.Flux.constructor | src/Flux.ts:7-25 | a new Flux wraps the given generator unstarted, is not closed, and records its upstream and `handleCancel` |
| FluxObject.Flux.Closed | src/Flux.ts:343-345 | the getter `closed`; a closed Flux has completed and yields nothing more |
| FluxObject.Flux.Next | src/Flux.ts:33-40 | never returns the sentinel; result and new state are `Pull` of the old state; `closed` is set exactly when the wrapper's `finally` ran |
| FluxObject.Flux.Throw | src/Flux.ts:46-48 | forwards to the wrapper; the result may be the sentinel |
| FluxObject.Flux.Return | src/Flux.ts:42-44 | forwards to the wrapper |
| FluxObject.Flux.Cancel | src/Flux.ts:50-63 | no change at all when some Flux on the way to the source is closed; otherwise exactly one action at the source: `handleCancel(e)` when present, else `throw(e)`, rejecting when the throw does |
| FluxObject.Flux.AsList | src/Flux.ts:271-277 | resolves to all remaining values in emission order, or the failure; afterwards the generator is completed and nothing remains, so awaiting again yields `[]`; the Flux is then closed unless its generator had already completed (a Flux thrown or returned into before its first pull stays open) |
| FluxObject.Flux.Reduce | src/Flux.ts:261-269 | resolves to the left fold of the remaining values from the second argument; a throwing reducer makes the loop call `return()`; afterwards the generator is completed, and the Flux is closed unless it had already completed |
| FluxObject.Flux.Then | src/Flux.ts:69-85 | resolves to `then`'s handler logic applied to the `asList` result; afterwards the generator is completed, and the Flux is closed unless it had already completed |
| FluxObject.Flux.Derive | src/Flux.ts:293-303 | a derived Flux is new and unpulled, with this Flux as its upstream |
| FluxObject.Flux.Filter | src/Flux.ts:135-147 | the derived Flux's trace is `filter` of this one's remaining trace |
| FluxObject.Flux.UntilExcl | src/Flux.ts:156-169 | the derived Flux's trace is `untilExcl` of this one's remaining trace |
| FluxObject.Flux.DoOnEach | src/Flux.ts:171-182 | the derived Flux's trace is `doOnEach` of this one's remaining trace |
| FluxObject.Flux.DoAfterLast | src/Flux.ts:184-197 | the derived Flux yields the same values and ends with the upstream's failure, the callback's failure, or `Done` |
| FluxObject.Flux.Map | src/Flux.ts:199-209 | the derived Flux's trace is `map` of this one's remaining trace |
| FluxObject.Flux.Take | src/Flux.ts:211-226 | the derived Flux yields the first min(n, len) values and ends `Done` when it broke early, else like the upstream |
| FluxObject.Flux.FlatMap | src/Flux.ts:228-247 | the derived Flux's trace is `flatMap` of this one's remaining trace |
| FluxObject.Flux.Transform | src/Flux.ts:249-259 | the derived Flux passes through the user-defined generator's trace |
| FluxObject.Flux.FromArray | src/Flux.ts:285-291 | a source Flux over the array's elements, ending `Done`, without upstream or `handleCancel` |
| FluxObject.Flux.FromGenerator | src/Flux.ts:316-321 | a source Flux over a generator, with or without `handleCancel` |
| Scenarios.FlatMapTwoEach | src/Flux.flatMap.test.ts:6-13 | `[1,2,3]` flat-mapped by `v => [10v, 10v+1]` gives `[10,11,20,21,30,31]` |
| Scenarios.FlatMapEmptyArrays | src/Flux.flatMap.test.ts:15-24 | empty arrays contribute nothing: the output is `[2]` |
| Scenarios.MapThrowsAtSecond | src/Flux.test.ts:67-84 | a mapper throwing on 2 makes the awaited Flux reject with that error after yielding 2 |
| Scenarios.FilterThrowsAtSecond | src/Flux.test.ts:129-146 | a predicate throwing on 2 ends the output with that error |
| Scenarios.IteratingConsumerSeesError | tests/Flux.test.ts:53-72 | iterating a source that yields "foo" then throws delivers "foo", then the error, and closes the Flux |

When `closed` becomes true is stated by `Next`, `Drain` and `PullConsumes`.

## Left out

- Laziness between a derived Flux and its upstream: a derived Flux holds the trace its operator makes of the upstream's remaining trace when the operator is applied. Pulling a derived Flux therefore does not advance its upstream's state or close it, and a failure that `cancel` throws into the source does not reach the Fluxes derived earlier; the `...Interrupted` and `ThrowInterrupts` lemmas state at trace level what they would see. In particular, `Cancel` through a chain whose derived Fluxes have been pulled acts on a source that has not been pulled, so it rejects where the program's source, suspended at a yield, would answer with the sentinel and resolve; and the `return()` an operator's `for await` calls on its upstream after a mapper throw or an early exit (`untilExcl`, `take`) does not close that upstream here. `Cancel`'s outcome on such chains is the model's, not the program's.
- FluxObject.Flux.DoOnEach: does not record the callback calls, because the callback runs lazily, as the derived Flux is pulled; `Operators.DoOnEach` states them.
- FluxObject.Flux.DoAfterLast: does not record the callback call, for the same reason; `Operators.DoAfterLast` states it.
- Callback effects in general: a callback is a function returning `Ok` or `Err`; only its argument, call order and outcome are modelled.
- Early stopping by a consumer: the operator functions describe a fully drained generator; an operator generator closed before the end (its consumer breaks) is modelled only for `take`'s own upstream (`returned`).
- Inner generators that catch a thrown-in error: a throw into a suspended inner generator is rethrown, as the generators of `fromArray` and of the operators do.
- `throw` and `return` beyond ending the trace: the async-generator runtime's request queue, concurrent pulls, and what a `return(value)` resolves to.
- `handleCancel` throwing, and `cancel()` without a reason: the reason is always an `Error`.
- `take(n)` with a non-integer `n` (fractional, `NaN`, `Infinity`; `take(NaN)` passes every value, because `i >= NaN` is never true): `n` is an integer here.
- `map` with a promise-returning mapper: `yield` awaits, so it acts like `flatMap`'s promise branch; the mapper's `Result` stands for the settled value.
- `reduce`'s first overload `(initialValue, reducer)`: only the implementation's order `(reducer, initialValue?)` is modelled.
- `catch` and `finally` (src/Flux.ts:87-105): `catch` returns `asList()` without awaiting it inside its `try`, so its handler never sees an asynchronous failure, and `finally` calls its handler only on success; neither is modelled.
- `subscribe` (fire-and-forget recursion that logs errors), `whenComplete`, `fromReadableStream` (foreign stream reader), `fromGeneratorFunction` (same as `FromGenerator`), `Symbol.asyncIterator` and `Symbol.toStringTag`.
- `src/util/timer.ts`, all timing, and everything the tests exercise that `Flux.ts` does not implement (`Flux.create`, `delayElements`, nested-Flux `flatMap`, the concurrency option).
- Values: JavaScript values are one small `Value` datatype; their identity (the sentinel is a unique object) is modelled by a separate `YieldSentinel` step.
