/**
 * Concrete runs taken from the repository's tests (src/Flux.flatMap.test.ts,
 * src/Flux.test.ts, tests/Flux.test.ts), stated on the model.
 */
module Scenarios {
  import opened Traces
  import opened Operators
  import Wrapper
  import Collect

  /** `fromArray([1, 2, 3]).flatMap(v => [v * 10, v * 10 + 1])`. */
  lemma FlatMapTwoEach()
    ensures FlatMap(Trace([1, 2, 3], Done), (v: int) => Ok(Items([v * 10, v * 10 + 1])))
            == Trace([10, 11, 20, 21, 30, 31], Done)
  {
    FlatMapArrays(Trace([1, 2, 3], Done), (v: int) => [v * 10, v * 10 + 1]);
  }

  /** `fromArray([1, 2, 3]).flatMap(v => v === 2 ? [v] : [])`: empty arrays
      contribute nothing. */
  lemma FlatMapEmptyArrays()
    ensures FlatMap(Trace([1, 2, 3], Done), (v: int) => Ok(Items(if v == 2 then [v] else [])))
            == Trace([2], Done)
  {
    FlatMapArrays(Trace([1, 2, 3], Done), (v: int) => if v == 2 then [v] else []);
  }

  /** `fromArray([1, 2, 3]).map(v => { if (v === 2) throw err; return v * 2 })`
      rejects with `err` (after the output 2 for item 1). */
  lemma MapThrowsAtSecond(err: Error)
    ensures var r := Map(Trace([1, 2, 3], Done), (v: int) => if v == 2 then Err(err) else Ok(v * 2));
            r == Trace([2], Fail(err)) && Collect.Collected(r) == Err(err)
  {
    var mapper := (v: int) => if v == 2 then Err(err) else Ok(v * 2);
    MapSpec(Trace([1, 2, 3], Done), mapper);
    assert FirstNot([1, 2, 3], x => mapper(x).Ok?) == 1;
  }

  /** The same with `filter(v => { if (v === 2) throw err; return v > 1 })`. */
  lemma FilterThrowsAtSecond(err: Error)
    ensures Filter(Trace([1, 2, 3], Done), (v: int) => if v == 2 then Err(err) else Ok(v > 1))
            == Trace([], Fail(err))
  {
    var pred := (v: int) => if v == 2 then Err(err) else Ok(v > 1);
    FilterSpec(Trace([1, 2, 3], Done), pred);
    assert FirstNot([1, 2, 3], x => pred(x).Ok?) == 1;
  }

  /** A source that yields "foo" and then throws: iterating delivers "foo",
      then the error, and the Flux is closed. */
  lemma IteratingConsumerSeesError(err: Error)
    ensures var run := Wrapper.RunPulls(Wrapper.Start(Trace(["foo"], Fail(err))), 2);
            run.steps == [Wrapper.Yield("foo"), Wrapper.Throw(err)] && run.finallyRan
  {
    var g := Wrapper.Start(Trace(["foo"], Fail(err)));
    Wrapper.Drain(g, 2);
    assert Wrapper.StepsOf(Wrapper.Remaining(g))[..2] == Wrapper.StepsOf(Wrapper.Remaining(g));
  }
}
