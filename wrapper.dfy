/**
 * The generator that the Flux constructor wraps around every inner
 * generator (src/Flux.ts:13-22), and the public `next()` that skips the
 * wrapper's internal sentinel (src/Flux.ts:35-40), as a state machine.
 *
 * The wrapper runs `yield* generator` inside `try`. When the inner
 * generator throws, the `catch` first yields an internal sentinel object
 * and only then rethrows; the `finally` sets the Flux's `_closed` flag.
 * A transition reports whether that `finally` ran, so that the Flux
 * object can set its flag.
 *
 * The inner generator is its trace: it yields the trace's values and
 * then ends or throws. A throw injected into it while it is suspended is
 * not caught by it (as for the generators `fromArray` and the operators
 * build).
 */
module Wrapper {
  import opened Traces

  datatype Phase =
    | NotStarted              // body not yet entered
    | Suspended               // suspended at a yield of the inner generator
    | AtSentinel(pending: Error)  // suspended at `yield ignorableValue`, about to rethrow
    | Completed               // returned or threw; further calls do nothing

  /** What one call of `next`, `throw` or `return` settles to: a value, the
      internal sentinel, `{done: true}`, or a rejection. */
  datatype Step<T> = Yield(value: T) | YieldSentinel | Return | Throw(error: Error)

  /** The wrapper generator: its inner trace, how many of the trace's values
      it has delivered, and where it is suspended. */
  datatype GenState<T> = GenState(inner: Trace<T>, pos: nat, phase: Phase)

  datatype Transition<T> = Transition(step: Step<T>, next: GenState<T>, finallyRan: bool)

  ghost predicate Valid<T>(g: GenState<T>)
  {
    g.pos <= |g.inner.values| && (g.phase.NotStarted? ==> g.pos == 0)
  }

  /** A freshly constructed wrapper around a generator with trace `t`. */
  function Start<T>(t: Trace<T>): (g: GenState<T>)
    ensures Valid(g) && Remaining(g) == t
  {
    GenState(t, 0, NotStarted)
  }

  function TerminalStep<T>(end: Terminal): Step<T>
  {
    match end
    case Done => Return
    case Fail(e) => Throw(e)
  }

  /** The events a consumer still sees from `g`: values, then one terminal. */
  function Remaining<T>(g: GenState<T>): (r: Trace<T>)
    requires Valid(g)
    ensures |r.values| <= |g.inner.values| - g.pos
  {
    match g.phase
    case Completed => Trace([], Done)
    case AtSentinel(e) => Trace([], Fail(e))
    case _ => Trace(g.inner.values[g.pos..], g.inner.end)
  }

  /** Before a terminal event, what was delivered followed by what remains
      is the inner generator's whole trace. */
  lemma DeliveredAndRemaining<T>(g: GenState<T>)
    requires Valid(g) && (g.phase.NotStarted? || g.phase.Suspended?)
    ensures Prepend(g.inner.values[..g.pos], Remaining(g)) == g.inner
  {
    assert g.inner.values[..g.pos] + g.inner.values[g.pos..] == g.inner.values;
  }

  /** `this.generator.next()`: the wrapper generator steps once. */
  function WrapperNext<T>(g: GenState<T>): (r: Transition<T>)
    requires Valid(g)
    ensures Valid(r.next) && r.next.inner == g.inner
  {
    match g.phase
    case Completed => Transition(Return, g, false)
    case AtSentinel(e) => Transition(Throw(e), g.(phase := Completed), true)
    case _ =>
      if g.pos < |g.inner.values| then
        Transition(Yield(g.inner.values[g.pos]), g.(pos := g.pos + 1, phase := Suspended), false)
      else match g.inner.end
        case Done => Transition(Return, g.(phase := Completed), true)
        case Fail(e) => Transition(YieldSentinel, g.(phase := AtSentinel(e)), false)
  }

  /** `this.generator.throw(e)`. Before the body is entered the generator just
      completes and rejects, without running `finally`. At an inner yield the
      throw goes to the inner generator, which rethrows it into the wrapper's
      `catch`: the wrapper yields the sentinel. At the sentinel the throw
      leaves the `catch`, so `finally` runs. */
  function WrapperThrow<T>(g: GenState<T>, e: Error): (r: Transition<T>)
    requires Valid(g)
    ensures Valid(r.next) && r.next.inner == g.inner
  {
    match g.phase
    case NotStarted => Transition(Throw(e), g.(phase := Completed), false)
    case Suspended => Transition(YieldSentinel, g.(phase := AtSentinel(e)), false)
    case AtSentinel(_) => Transition(Throw(e), g.(phase := Completed), true)
    case Completed => Transition(Throw(e), g, false)
  }

  /** `this.generator.return(v)`: terminates the trace; `finally` runs when
      the body had been entered and had not finished. */
  function WrapperReturn<T>(g: GenState<T>): (r: Transition<T>)
    requires Valid(g)
    ensures Valid(r.next) && r.next.inner == g.inner
  {
    match g.phase
    case NotStarted => Transition(Return, g.(phase := Completed), false)
    case Completed => Transition(Return, g, false)
    case _ => Transition(Return, g.(phase := Completed), true)
  }

  /** The public `next()` read off the trace directly: the next value, or the
      trace's terminal event, after which the generator is completed. */
  function Pull<T>(g: GenState<T>): (r: Transition<T>)
    requires Valid(g)
    ensures Valid(r.next) && r.next.inner == g.inner
    ensures !r.step.YieldSentinel?
  {
    match g.phase
    case Completed => Transition(Return, g, false)
    case AtSentinel(e) => Transition(Throw(e), g.(phase := Completed), true)
    case _ =>
      if g.pos < |g.inner.values| then
        Transition(Yield(g.inner.values[g.pos]), g.(pos := g.pos + 1, phase := Suspended), false)
      else Transition(TerminalStep(g.inner.end), g.(phase := Completed), true)
  }

  /** `next()` pulls the wrapper once more exactly when it got the sentinel;
      what it then returns is `Pull`. */
  lemma PullSkipsSentinel<T>(g: GenState<T>)
    requires Valid(g)
    ensures var t := WrapperNext(g);
            && (t.step.YieldSentinel? ==> t.next.phase.AtSentinel? && !t.finallyRan)
            && Pull(g) == (if t.step.YieldSentinel? then WrapperNext(t.next) else t)
  {
  }

  /** One pull delivers the first remaining event and leaves the rest;
      `finally` runs (the Flux becomes closed) exactly at the terminal event
      of a generator that had not completed before. */
  lemma PullConsumes<T>(g: GenState<T>)
    requires Valid(g)
    ensures var R := Remaining(g);
            var t := Pull(g);
            if R.values != [] then
              && t.step == Yield(R.values[0])
              && Remaining(t.next) == Tail(R)
              && !t.finallyRan
            else
              && t.step == TerminalStep(R.end)
              && Remaining(t.next) == Trace([], Done)
              && t.next.phase.Completed?
              && t.finallyRan == !g.phase.Completed?
  {
  }

  /** Every event a consumer sees from a trace, in order. */
  function StepsOf<T>(t: Trace<T>): (r: seq<Step<T>>)
    ensures |r| == |t.values| + 1
    ensures forall i :: 0 <= i < |t.values| ==> r[i] == Yield(t.values[i])
    ensures r[|t.values|] == TerminalStep(t.end)
    decreases |t.values|
  {
    if t.values == [] then [TerminalStep(t.end)]
    else [Yield(t.values[0])] + StepsOf(Tail(t))
  }

  datatype Run<T> = Run(steps: seq<Step<T>>, last: GenState<T>, finallyRan: bool)

  /** `n` consecutive calls of the public `next()`. */
  function RunPulls<T>(g: GenState<T>, n: nat): (r: Run<T>)
    requires Valid(g)
    ensures |r.steps| == n && Valid(r.last)
    decreases n
  {
    if n == 0 then Run([], g, false)
    else
      var t := Pull(g);
      var rest := RunPulls(t.next, n - 1);
      Run([t.step] + rest.steps, rest.last, t.finallyRan || rest.finallyRan)
  }

  /** Pulling delivers every remaining value in order and then the terminal
      event (so the sentinel never escapes), and the Flux becomes closed at
      that terminal event and not before. */
  lemma {:induction false} Drain<T>(g: GenState<T>, n: nat)
    requires Valid(g) && n <= |Remaining(g).values| + 1
    ensures var R := Remaining(g);
            var run := RunPulls(g, n);
            && run.steps == StepsOf(R)[..n]
            && run.finallyRan == (n == |R.values| + 1 && !g.phase.Completed?)
            && Remaining(run.last) ==
                 (if n <= |R.values| then Trace(R.values[n..], R.end) else Trace([], Done))
    decreases n
  {
    var R := Remaining(g);
    if n > 0 {
      PullConsumes(g);
      var t := Pull(g);
      if R.values != [] {
        Drain(t.next, n - 1);
        assert StepsOf(R) == [Yield(R.values[0])] + StepsOf(Tail(R));
        assert StepsOf(R)[..n] == [Yield(R.values[0])] + StepsOf(Tail(R))[..n - 1];
        if n <= |R.values| {
          assert Tail(R).values[n - 1..] == R.values[n..];
        }
      } else {
        assert RunPulls(t.next, 0).steps == [];
      }
    }
  }

  /** A throw injected while the inner generator is suspended (a cancel at a
      source without a cancel handler) is answered with the sentinel and does
      not close the Flux; the next pull then fails with the injected error,
      and only that pull closes it. */
  lemma ThrowWhileSuspended<T>(g: GenState<T>, e: Error)
    requires Valid(g) && g.phase.Suspended?
    ensures var t := WrapperThrow(g, e);
            && t.step == YieldSentinel && !t.finallyRan
            && Remaining(t.next) == Trace([], Fail(e))
            && Pull(t.next).step == Throw(e) && Pull(t.next).finallyRan
  {
  }

  /** What a consumer sees over the whole life of a generator interrupted
      that way: the values it had delivered, then the injected failure. */
  lemma ThrowInterrupts<T>(g: GenState<T>, e: Error)
    requires Valid(g) && g.phase.Suspended?
    ensures g.inner.values[..g.pos] + Remaining(WrapperThrow(g, e).next).values ==
            Interrupted(g.inner, g.pos, e).values
    ensures Remaining(WrapperThrow(g, e).next).end == Interrupted(g.inner, g.pos, e).end
  {
  }

  /** A second throw at the pending sentinel rejects with the new error and
      closes the Flux. */
  lemma ThrowTwice<T>(g: GenState<T>, e1: Error, e2: Error)
    requires Valid(g) && g.phase.Suspended?
    ensures var t := WrapperThrow(WrapperThrow(g, e1).next, e2);
            t.step == Throw(e2) && t.finallyRan && Remaining(t.next) == Trace([], Done)
  {
  }

  /** A throw before the first pull rejects at once and completes the
      generator without running `finally`: the Flux stays open, and every
      later pull reports `done`. */
  lemma ThrowBeforeStart<T>(g: GenState<T>, e: Error)
    requires Valid(g) && g.phase.NotStarted?
    ensures var t := WrapperThrow(g, e);
            && t.step == Throw(e) && !t.finallyRan
            && Pull(t.next) == Transition(Return, t.next, false)
  {
  }

  /** `return()` ends the trace: nothing is delivered afterwards. */
  lemma ReturnEndsTrace<T>(g: GenState<T>)
    requires Valid(g)
    ensures var t := WrapperReturn(g);
            && t.step == Return
            && Remaining(t.next) == Trace([], Done)
            && t.finallyRan == (g.phase.Suspended? || g.phase.AtSentinel?)
  {
  }
}
