/**
 * The Flux operators read as trace transformers (src/Flux.ts).
 *
 * Each operator builds a generator that runs `for await (const value of
 * upstream)` and yields downstream values. Drained to the end, that
 * generator turns the upstream trace into a downstream trace. A callback
 * that throws ends the downstream trace with that failure; a `break`
 * ends it with `Done`, whatever the upstream would still have produced.
 *
 * filter, untilExcl, map, doOnEach and flatMap are functions; take and
 * doAfterLast keep a counter or an event list, and are methods with loops.
 */
module Operators {
  import opened Traces

  // ---------------------------------------------------------------- map

  /** `map(mapper)`: yields `mapper(value)` for each upstream value. */
  function Map<T, O>(t: Trace<T>, mapper: T -> Result<O>): (r: Trace<O>)
    ensures |r.values| <= |t.values|
    decreases |t.values|
  {
    if t.values == [] then Trace([], t.end)
    else match mapper(t.values[0])
      case Err(e) => Trace([], Fail(e))
      case Ok(o) => Prepend([o], Map(Tail(t), mapper))
  }

  /** With a mapper that fails at item k (the first value it does not map),
      the output is the mapped items 0..k-1 followed by that failure; with a
      mapper that never fails, it is the list map, ending like the upstream. */
  lemma {:induction false} MapSpec<T, O>(t: Trace<T>, mapper: T -> Result<O>)
    ensures var k := FirstNot(t.values, x => mapper(x).Ok?);
            var r := Map(t, mapper);
            && |r.values| == k
            && (forall i :: 0 <= i < k ==> mapper(t.values[i]) == Ok(r.values[i]))
            && r.end == (if k < |t.values| then Fail(mapper(t.values[k]).error) else t.end)
    decreases |t.values|
  {
    if t.values != [] && mapper(t.values[0]).Ok? {
      MapSpec(Tail(t), mapper);
      var s := t.values;
      assert s[1..] == Tail(t).values;
      var r := Map(t, mapper);
      assert r.values == [mapper(s[0]).value] + Map(Tail(t), mapper).values;
      forall i | 1 <= i < FirstNot(s, x => mapper(x).Ok?)
        ensures mapper(s[i]) == Ok(r.values[i])
      {
        assert s[i] == s[1..][i - 1];
      }
    }
  }

  /** A mapper that never throws: `map` is list map on the values. */
  lemma {:induction false} MapTotal<T, O>(t: Trace<T>, g: T -> O)
    ensures Map(t, x => Ok(g(x))) == Trace(ListMap(t.values, g), t.end)
    decreases |t.values|
  {
    if t.values != [] {
      MapTotal(Tail(t), g);
    }
  }

  /** Interrupting the upstream (a cancel that throws into the source) keeps
      every output value already produced: the output is a prefix of the
      output on the uninterrupted trace. */
  lemma {:induction false} MapInterrupted<T, O>(t: Trace<T>, k: nat, e: Error, mapper: T -> Result<O>)
    requires k <= |t.values|
    ensures Map(Interrupted(t, k, e), mapper).values <= Map(t, mapper).values
    decreases k
  {
    if k > 0 && mapper(t.values[0]).Ok? {
      assert Tail(Interrupted(t, k, e)) == Interrupted(Tail(t), k - 1, e);
      MapInterrupted(Tail(t), k - 1, e, mapper);
    }
  }

  // ------------------------------------------------------------- filter

  /** `filter(predicate)`: yields the values for which the predicate is true. */
  function Filter<T>(t: Trace<T>, pred: T -> Result<bool>): (r: Trace<T>)
    ensures |r.values| <= |t.values|
    decreases |t.values|
  {
    if t.values == [] then Trace([], t.end)
    else match pred(t.values[0])
      case Err(e) => Trace([], Fail(e))
      case Ok(keep) =>
        if keep then Prepend([t.values[0]], Filter(Tail(t), pred))
        else Filter(Tail(t), pred)
  }

  /** The output is the list filter of the values before the first one on
      which the predicate throws, then that failure (or the upstream's end). */
  lemma {:induction false} FilterSpec<T>(t: Trace<T>, pred: T -> Result<bool>)
    ensures var k := FirstNot(t.values, x => pred(x).Ok?);
            Filter(t, pred) ==
              Trace(ListFilter(t.values[..k], x => pred(x) == Ok(true)),
                    if k < |t.values| then Fail(pred(t.values[k]).error) else t.end)
    decreases |t.values|
  {
    var s := t.values;
    if s != [] && pred(s[0]).Ok? {
      FilterSpec(Tail(t), pred);
      var k := FirstNot(s, x => pred(x).Ok?);
      assert s[..k] == [s[0]] + s[1..][..k - 1];
      assert (s[..k])[1..] == s[1..][..k - 1];
    }
  }

  /** A predicate that never throws: `filter` is list filter on the values. */
  lemma {:induction false} FilterTotal<T>(t: Trace<T>, keep: T -> bool)
    ensures Filter(t, x => Ok(keep(x))) == Trace(ListFilter(t.values, keep), t.end)
    decreases |t.values|
  {
    if t.values != [] {
      FilterTotal(Tail(t), keep);
    }
  }

  /** With a predicate that never throws, a value is yielded exactly when
      the upstream yielded it and the predicate holds for it. */
  lemma FilterMembers<T>(t: Trace<T>, keep: T -> bool, v: T)
    ensures v in Filter(t, x => Ok(keep(x))).values <==> v in t.values && keep(v)
  {
    FilterTotal(t, keep);
    ListFilterMembers(t.values, keep, v);
  }

  lemma {:induction false} FilterInterrupted<T>(t: Trace<T>, k: nat, e: Error, pred: T -> Result<bool>)
    requires k <= |t.values|
    ensures Filter(Interrupted(t, k, e), pred).values <= Filter(t, pred).values
    decreases k
  {
    if k > 0 && pred(t.values[0]).Ok? {
      assert Tail(Interrupted(t, k, e)) == Interrupted(Tail(t), k - 1, e);
      FilterInterrupted(Tail(t), k - 1, e, pred);
    }
  }

  // ---------------------------------------------------------- untilExcl

  /** `untilExcl(predicate)`: yields values until the predicate is true, and
      breaks there; the value that stops it is not yielded. */
  function UntilExcl<T>(t: Trace<T>, pred: T -> Result<bool>): (r: Trace<T>)
    ensures r.values <= t.values
    decreases |t.values|
  {
    if t.values == [] then Trace([], t.end)
    else match pred(t.values[0])
      case Err(e) => Trace([], Fail(e))
      case Ok(stop) =>
        if stop then Trace([], Done)
        else Prepend([t.values[0]], UntilExcl(Tail(t), pred))
  }

  /** The output is the longest prefix of the values on which the predicate
      is false; the first value on which it is true ends the output with
      `Done`, one on which it throws ends it with that failure. */
  lemma {:induction false} UntilExclSpec<T>(t: Trace<T>, pred: T -> Result<bool>)
    ensures var r := UntilExcl(t, pred);
            var k := |r.values|;
            && k <= |t.values| && r.values == t.values[..k]
            && (forall i :: 0 <= i < k ==> pred(t.values[i]) == Ok(false))
            && (k < |t.values| ==> pred(t.values[k]) != Ok(false))
            && r.end == (if k == |t.values| then t.end
                         else if pred(t.values[k]).Err? then Fail(pred(t.values[k]).error)
                         else Done)
    decreases |t.values|
  {
    var s := t.values;
    if s != [] && pred(s[0]) == Ok(false) {
      UntilExclSpec(Tail(t), pred);
      var r := UntilExcl(t, pred);
      var k := |r.values|;
      assert r.values == [s[0]] + UntilExcl(Tail(t), pred).values;
      assert s[..k] == [s[0]] + s[1..][..k - 1];
      forall i | 1 <= i < k ensures pred(s[i]) == Ok(false) {
        assert s[i] == s[1..][i - 1];
      }
    }
  }

  // ----------------------------------------------------------- doOnEach

  /** A downstream trace together with the arguments a side-effect callback
      was called with, in call order. */
  datatype Observed<T> = Observed(trace: Trace<T>, calls: seq<T>)

  /** `doOnEach(callback)`: calls the callback on each value, then yields it. */
  function DoOnEach<T>(t: Trace<T>, callback: T -> Result<()>): (r: Observed<T>)
    ensures r.trace.values <= r.calls <= t.values
    decreases |t.values|
  {
    if t.values == [] then Observed(Trace([], t.end), [])
    else match callback(t.values[0])
      case Err(e) => Observed(Trace([], Fail(e)), [t.values[0]])
      case Ok(_) =>
        var rest := DoOnEach(Tail(t), callback);
        Observed(Prepend([t.values[0]], rest.trace), [t.values[0]] + rest.calls)
  }

  /** Values pass through unchanged up to the first callback that throws;
      the callback is called once per value, in order, up to and including
      the one that throws. */
  lemma {:induction false} DoOnEachSpec<T>(t: Trace<T>, callback: T -> Result<()>)
    ensures var k := FirstNot(t.values, x => callback(x).Ok?);
            var r := DoOnEach(t, callback);
            && r.trace == Trace(t.values[..k],
                                if k < |t.values| then Fail(callback(t.values[k]).error) else t.end)
            && r.calls == t.values[..if k < |t.values| then k + 1 else k]
    decreases |t.values|
  {
    var s := t.values;
    if s != [] {
      var good := x => callback(x).Ok?;
      var k := FirstNot(s, good);
      if callback(s[0]).Ok? {
        DoOnEachSpec(Tail(t), callback);
        var rest := DoOnEach(Tail(t), callback);
        assert DoOnEach(t, callback) == Observed(Prepend([s[0]], rest.trace), [s[0]] + rest.calls);
        assert k == 1 + FirstNot(s[1..], good);
        assert s[..k] == [s[0]] + s[1..][..k - 1];
        if k < |s| {
          assert s[..k + 1] == [s[0]] + s[1..][..k];
        }
      } else {
        assert s[..1] == [s[0]];
      }
    }
  }

  /** A callback that never throws: the trace is unchanged and the callback
      saw exactly the values, in order. */
  lemma DoOnEachPassThrough<T>(t: Trace<T>, callback: T -> Result<()>)
    requires forall i :: 0 <= i < |t.values| ==> callback(t.values[i]).Ok?
    ensures DoOnEach(t, callback) == Observed(t, t.values)
  {
    DoOnEachSpec(t, callback);
    assert t.values[..|t.values|] == t.values;
  }

  // ------------------------------------------------------------ flatMap

  /** What a flatMap mapper returns for one value: an array, whose elements
      are yielded one by one, or a promise, whose settled result is awaited. */
  datatype Mapped<O> = Items(items: seq<O>) | Promise(settled: Result<O>)

  /** The downstream values one mapper call contributes, or its failure:
      the mapper throws, or its promise rejects. */
  function Expand<O>(m: Result<Mapped<O>>): (r: Result<seq<O>>)
    ensures r.Ok? && m.Ok? && m.value.Promise? ==> |r.value| == 1
  {
    match m
    case Err(e) => Err(e)
    case Ok(Items(items)) => Ok(items)
    case Ok(Promise(Ok(o))) => Ok([o])
    case Ok(Promise(Err(e))) => Err(e)
  }

  /** `flatMap(mapper)`: for each upstream value, awaits the mapper's promise
      and yields its result, or yields the elements of the mapper's array,
      before the next upstream value is pulled. */
  function FlatMap<T, O>(t: Trace<T>, mapper: T -> Result<Mapped<O>>): (r: Trace<O>)
    ensures r.end.Done? ==> t.end.Done?
    decreases |t.values|
  {
    if t.values == [] then Trace([], t.end)
    else match Expand(mapper(t.values[0]))
      case Err(e) => Trace([], Fail(e))
      case Ok(out) => Prepend(out, FlatMap(Tail(t), mapper))
  }

  /** An array mapper: the output is the in-order concatenation of the
      mapped arrays (empty arrays contribute nothing). */
  lemma {:induction false} FlatMapArrays<T, O>(t: Trace<T>, g: T -> seq<O>)
    ensures FlatMap(t, x => Ok(Items(g(x)))) == Trace(Concat(ListMap(t.values, g)), t.end)
    decreases |t.values|
  {
    if t.values != [] {
      FlatMapArrays(Tail(t), g);
      assert ListMap(t.values, g)[1..] == ListMap(t.values[1..], g);
    }
  }

  /** A promise mapper: one awaited result per input, in input order, and the
      first rejection ends the output, exactly as `map` does. */
  lemma {:induction false} FlatMapPromises<T, O>(t: Trace<T>, g: T -> Result<O>)
    ensures FlatMap(t, x => Ok(Promise(g(x)))) == Map(t, g)
    decreases |t.values|
  {
    if t.values != [] {
      FlatMapPromises(Tail(t), g);
    }
  }

  /** A failure of the k-th mapper call (thrown or rejected) ends the output
      right after everything items 0..k-1 contributed. */
  lemma {:induction false} FlatMapFailsAt<T, O>(t: Trace<T>, mapper: T -> Result<Mapped<O>>)
    ensures var k := FirstNot(t.values, x => Expand(mapper(x)).Ok?);
            FlatMap(t, mapper) ==
              Trace(FlatMap(Trace(t.values[..k], Done), mapper).values,
                    if k < |t.values| then Fail(Expand(mapper(t.values[k])).error) else t.end)
    decreases |t.values|
  {
    var s := t.values;
    if s != [] && Expand(mapper(s[0])).Ok? {
      FlatMapFailsAt(Tail(t), mapper);
      var k := FirstNot(s, x => Expand(mapper(x)).Ok?);
      assert s[..k][1..] == s[1..][..k - 1];
    }
  }

  lemma {:induction false} FlatMapInterrupted<T, O>(t: Trace<T>, k: nat, e: Error,
                                                   mapper: T -> Result<Mapped<O>>)
    requires k <= |t.values|
    ensures FlatMap(Interrupted(t, k, e), mapper).values <= FlatMap(t, mapper).values
    decreases k
  {
    if k > 0 && Expand(mapper(t.values[0])).Ok? {
      assert Tail(Interrupted(t, k, e)) == Interrupted(Tail(t), k - 1, e);
      FlatMapInterrupted(Tail(t), k - 1, e, mapper);
    }
  }

  // --------------------------------------------------------------- take

  function Min(a: int, b: int): int { if a < b then a else b }

  /** `take(n)`: the generator body's loop, pulling the upstream trace one
      event at a time. It counts yielded values in `i` and breaks on the
      first value pulled once `i >= n`; the break makes for-await call the
      upstream's `return()`. Reports the number of upstream pulls (values
      and the terminal event both count) and whether `return()` was called.
      `n` is read as an integer; `n <= 0` behaves as 0. */
  method Take<T>(up: Trace<T>, n: int) returns (out: Trace<T>, pulls: nat, returned: bool)
    ensures var m := if n < 0 then 0 else n;
            && out.values == up.values[..Min(m, |up.values|)]
            && out.end == (if |up.values| > m then Done else up.end)
            && pulls == (if |up.values| > m then m + 1 else |up.values| + 1)
            && returned == (|up.values| > m)
  {
    var m := if n < 0 then 0 else n;
    var i := 0;
    var k := 0;
    var emitted: seq<T> := [];
    pulls, returned := 0, false;
    out := Trace([], up.end);
    var stop := false;
    while !stop
      invariant k <= |up.values| && i == k && pulls == k + (if stop then 1 else 0)
      invariant !stop ==> k <= m && emitted == up.values[..k] && !returned
      invariant stop ==> out.values == up.values[..Min(m, |up.values|)]
      invariant stop ==> out.end == (if |up.values| > m then Done else up.end)
      invariant stop ==> pulls == (if |up.values| > m then m + 1 else |up.values| + 1)
      invariant stop ==> returned == (|up.values| > m)
      decreases |up.values| - k, if stop then 0 else 1
    {
      pulls := pulls + 1;
      if k == |up.values| {
        out := Trace(emitted, up.end);
        stop := true;
      } else {
        var value := up.values[k];
        if i >= n {
          returned := true;
          out := Trace(emitted, Done);
          stop := true;
        } else {
          k := k + 1;
          i := i + 1;
          emitted := emitted + [value];
          assert emitted == up.values[..k];
        }
      }
    }
  }

  // -------------------------------------------------------- doAfterLast

  /** `doAfterLast(callback)`: pushes each value onto an event list and yields
      it; after natural exhaustion, awaits `callback(events)`. A failing
      upstream never reaches the callback; a callback that throws or rejects
      ends the output with that failure. `calledWith` is the argument of the
      one callback call, if any. */
  method DoAfterLast<T>(up: Trace<T>, callback: seq<T> -> Result<()>)
    returns (out: Trace<T>, calledWith: Option<seq<T>>)
    ensures out.values == up.values
    ensures calledWith == (if up.end.Done? then Some(up.values) else None)
    ensures out.end == (if up.end.Fail? then up.end
                        else if callback(up.values).Err? then Fail(callback(up.values).error)
                        else Done)
  {
    var events: seq<T> := [];
    var emitted: seq<T> := [];
    var k := 0;
    while k < |up.values|
      invariant k <= |up.values|
      invariant events == up.values[..k] && emitted == up.values[..k]
    {
      var value := up.values[k];
      events := events + [value];
      emitted := emitted + [value];
      k := k + 1;
    }
    assert events == up.values;
    match up.end
    case Fail(e) =>
      out, calledWith := Trace(emitted, Fail(e)), None;
    case Done =>
      var settled := callback(events);
      calledWith := Some(events);
      out := Trace(emitted, if settled.Err? then Fail(settled.error) else Done);
  }
}
