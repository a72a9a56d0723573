/**
 * The `Flux` object (src/Flux.ts): its wrapper generator, its `_closed`
 * flag, its readonly `upstream` and `handleCancel`, the pull protocol
 * (`next`, `throw`, `return`, `cancel`), the operators that derive a new
 * Flux from this one, and the methods that drain it (`asList`, `reduce`,
 * `then`).
 *
 * JavaScript values are dynamically typed, and a derived Flux records an
 * upstream of any element type, so the class is over one `Value` type.
 */
module FluxObject {
  import opened Traces
  import Wrapper
  import Operators
  import Collect

  /** A JavaScript value flowing through a Flux. */
  datatype Value = Undefined | Bool(b: bool) | Num(n: int) | Str(s: string)

  class Flux {
    /** The state of `this.generator`, the wrapper built in the constructor. */
    var generator: Wrapper.GenState<Value>
    /** `_closed`: set by the wrapper's `finally`. */
    var isClosed: bool
    const upstream: Flux?
    /** Whether `handleCancel` was given. */
    const hasCancelHandler: bool
    /** The arguments `handleCancel` has been called with, in order. */
    var cancelCalls: seq<Error>

    /** The Fluxes from this one to its source, and its distance from it. */
    ghost const Repr: set<Flux>
    ghost const depth: nat

    /** The upstream chain is finite, acyclic and ends at a source. */
    ghost predicate Linked()
      decreases depth
    {
      && this in Repr
      && (upstream == null ==> Repr == {this})
      && (upstream != null ==>
            && upstream.depth < depth
            && this !in upstream.Repr
            && Repr == {this} + upstream.Repr
            && upstream.Linked())
    }

    ghost predicate Valid()
      reads Repr
      decreases depth
    {
      && this in Repr
      && Linked()
      && Wrapper.Valid(generator)
      && (isClosed ==> generator.phase.Completed?)
      && (upstream != null ==> upstream.Valid())
    }

    /** A Flux as the constructor leaves it: not yet pulled, not closed. */
    ghost predicate Unpulled(inner: Trace<Value>, up: Flux?, handler: bool)
      reads Repr
    {
      && Valid()
      && generator == Wrapper.Start(inner)
      && !isClosed
      && upstream == up
      && hasCancelHandler == handler
      && cancelCalls == []
    }

    /** The source at the end of the upstream chain. */
    ghost function Source(): (s: Flux)
      requires Linked()
      ensures s in Repr && s.upstream == null && s.Linked()
      decreases depth
    {
      if upstream == null then this else upstream.Source()
    }

    /** The generator state of the source. */
    ghost function SourceGenerator(): (g: Wrapper.GenState<Value>)
      requires Valid()
      reads Repr
      ensures Wrapper.Valid(g) && g == Source().generator
      decreases depth
    {
      if upstream == null then generator else upstream.SourceGenerator()
    }

    /** Some Flux on the way from this one to the source is closed. */
    ghost predicate ChainClosed()
      requires Linked()
      reads Repr
      decreases depth
    {
      isClosed || (upstream != null && upstream.ChainClosed())
    }

    /** The getter `closed`. A closed Flux has completed: it yields nothing
        more. */
    function Closed(): (c: bool)
      requires Valid()
      reads Repr
      ensures c ==> generator.phase.Completed? && Remaining() == Trace([], Done)
    {
      isClosed
    }

    /** The events a consumer of this Flux will still see. */
    function Remaining(): Trace<Value>
      requires Wrapper.Valid(generator)
      reads this
    {
      Wrapper.Remaining(generator)
    }

    /** `new Flux(generator, upstream, handleCancel)`. */
    constructor (inner: Trace<Value>, upstream: Flux?, hasCancelHandler: bool)
      requires upstream != null ==> upstream.Valid()
      ensures Unpulled(inner, upstream, hasCancelHandler)
      ensures Repr == {this} + (if upstream == null then {} else upstream.Repr)
    {
      generator := Wrapper.Start(inner);
      isClosed := false;
      this.upstream := upstream;
      this.hasCancelHandler := hasCancelHandler;
      cancelCalls := [];
      Repr := {this} + (if upstream == null then {} else upstream.Repr);
      depth := if upstream == null then 0 else upstream.depth + 1;
    }

    /** `next()`: pulls the wrapper generator, and pulls it again when it
        yields the sentinel. The result is `Pull`: never the sentinel. */
    method Next() returns (r: Wrapper.Step<Value>)
      requires Valid()
      modifies this
      ensures Valid()
      ensures !r.YieldSentinel?
      ensures var t := Wrapper.Pull(old(generator));
              && r == t.step && generator == t.next
              && isClosed == (old(isClosed) || t.finallyRan)
      ensures cancelCalls == old(cancelCalls)
    {
      Wrapper.PullSkipsSentinel(generator);
      var t := Wrapper.WrapperNext(generator);
      generator := t.next;
      if t.finallyRan {
        isClosed := true;
      }
      r := t.step;
      while r.YieldSentinel?
        invariant Valid() && cancelCalls == old(cancelCalls)
        invariant r.YieldSentinel? ==>
                    && generator.phase.AtSentinel?
                    && isClosed == old(isClosed)
                    && Wrapper.Pull(old(generator)) == Wrapper.WrapperNext(generator)
        invariant !r.YieldSentinel? ==>
                    var p := Wrapper.Pull(old(generator));
                    r == p.step && generator == p.next && isClosed == (old(isClosed) || p.finallyRan)
        decreases if generator.phase.AtSentinel? then 1 else 0
      {
        t := Wrapper.WrapperNext(generator);
        generator := t.next;
        if t.finallyRan {
          isClosed := true;
        }
        r := t.step;
      }
    }

    /** `throw(e)`: forwarded to the wrapper generator, unfiltered. */
    method Throw(e: Error) returns (r: Wrapper.Step<Value>)
      requires Valid()
      modifies this
      ensures Valid()
      ensures var t := Wrapper.WrapperThrow(old(generator), e);
              && r == t.step && generator == t.next
              && isClosed == (old(isClosed) || t.finallyRan)
      ensures cancelCalls == old(cancelCalls)
    {
      var t := Wrapper.WrapperThrow(generator, e);
      generator := t.next;
      if t.finallyRan {
        isClosed := true;
      }
      r := t.step;
    }

    /** `return()`: forwarded to the wrapper generator. */
    method Return() returns (r: Wrapper.Step<Value>)
      requires Valid()
      modifies this
      ensures Valid()
      ensures var t := Wrapper.WrapperReturn(old(generator));
              && r == t.step && generator == t.next
              && isClosed == (old(isClosed) || t.finallyRan)
      ensures cancelCalls == old(cancelCalls)
    {
      var t := Wrapper.WrapperReturn(generator);
      generator := t.next;
      if t.finallyRan {
        isClosed := true;
      }
      r := t.step;
    }

    /** `cancel(e)`: a closed Flux returns at once; otherwise the call moves
        to the upstream, and at the source it calls `handleCancel(e)` when
        one was given and `throw(e)` otherwise. Only the source can change,
        and only when no Flux on the way is closed. The promise rejects when
        that `throw` does. */
    method Cancel(e: Error) returns (r: Result<()>)
      requires Valid()
      modifies Source()
      ensures Valid()
      ensures old(ChainClosed()) ==> r == Ok(()) && unchanged(Source())
      ensures !old(ChainClosed()) && Source().hasCancelHandler ==>
                && r == Ok(())
                && Source().cancelCalls == old(Source().cancelCalls) + [e]
                && Source().generator == old(Source().generator)
                && Source().isClosed == old(Source().isClosed)
      ensures !old(ChainClosed()) && !Source().hasCancelHandler ==>
                var t := Wrapper.WrapperThrow(old(SourceGenerator()), e);
                && r == (if t.step.Throw? then Err(t.step.error) else Ok(()))
                && Source().generator == t.next
                && Source().isClosed == (old(Source().isClosed) || t.finallyRan)
                && Source().cancelCalls == old(Source().cancelCalls)
      decreases depth
    {
      if isClosed {
        return Ok(());
      }
      if upstream != null {
        r := upstream.Cancel(e);
      } else if hasCancelHandler {
        cancelCalls := cancelCalls + [e];
        r := Ok(());
      } else {
        var step := Throw(e);
        r := if step.Throw? then Err(step.error) else Ok(());
      }
    }

    /** `asList()`: pulls with `for await` until the end, pushing each value. */
    method AsList() returns (r: Result<seq<Value>>)
      requires Valid()
      modifies this
      ensures Valid() && cancelCalls == old(cancelCalls)
      ensures r == Collect.Collected(old(Remaining()))
      ensures Remaining() == Trace([], Done)
      ensures generator.phase.Completed? && generator.inner == old(generator.inner)
      ensures isClosed == (old(isClosed) || !old(generator.phase.Completed?))
    {
      var result: seq<Value> := [];
      while true
        invariant Valid() && cancelCalls == old(cancelCalls)
        invariant generator.inner == old(generator.inner)
        invariant result + Remaining().values == old(Remaining()).values
        invariant Remaining().end == old(Remaining()).end
        invariant isClosed == old(isClosed)
        invariant generator.phase.Completed? == old(generator.phase.Completed?)
        decreases |Remaining().values|
      {
        Wrapper.PullConsumes(generator);
        ghost var before := Remaining();
        var step := Next();
        if step.Yield? {
          result := result + [step.value];
        } else if step.Return? {
          assert before.values == [] && before.end == Done;
          assert result == old(Remaining()).values;
          return Ok(result);
        } else {
          return Err(step.error);
        }
      }
    }

    /** `reduce(reducer, initialValue?)`: folds with `for await`. When the
        reducer throws, leaving the loop calls `return()` on this Flux. */
    method Reduce<O>(reducer: (Option<O>, Value) -> Result<O>, initialValue: Option<O>)
      returns (r: Result<Option<O>>)
      requires Valid()
      modifies this
      ensures Valid() && cancelCalls == old(cancelCalls)
      ensures r == Collect.Reduced(old(Remaining()), reducer, initialValue)
      ensures Remaining() == Trace([], Done)
      ensures generator.phase.Completed? && generator.inner == old(generator.inner)
      ensures isClosed == (old(isClosed) || !old(generator.phase.Completed?))
    {
      var reduction := initialValue;
      while true
        invariant Valid() && cancelCalls == old(cancelCalls)
        invariant generator.inner == old(generator.inner)
        invariant isClosed == old(isClosed)
        invariant Collect.Reduced(Remaining(), reducer, reduction) ==
                  Collect.Reduced(old(Remaining()), reducer, initialValue)
        invariant generator.phase.Completed? == old(generator.phase.Completed?)
        decreases |Remaining().values|
      {
        Wrapper.PullConsumes(generator);
        var step := Next();
        if step.Yield? {
          var next := reducer(reduction, step.value);
          if next.Err? {
            var ignored := Return();
            return Err(next.error);
          }
          reduction := Some(next.value);
        } else if step.Return? {
          return Ok(reduction);
        } else {
          return Err(step.error);
        }
      }
    }

    /** `then(onfulfilled, onrejected)`: `asList()` and `onfulfilled` run in one
        `try`, and its `catch` hands any failure to `onrejected`. */
    method Then<R>(onFulfilled: Option<seq<Value> -> Result<R>>, onRejected: Option<Error -> Result<R>>)
      returns (r: Result<Collect.Settlement<Value, R>>)
      requires Valid()
      modifies this
      ensures Valid() && cancelCalls == old(cancelCalls)
      ensures r == Collect.ThenResult(Collect.Collected(old(Remaining())), onFulfilled, onRejected)
      ensures Remaining() == Trace([], Done)
      ensures generator.phase.Completed? && generator.inner == old(generator.inner)
      ensures isClosed == (old(isClosed) || !old(generator.phase.Completed?))
    {
      var drained := AsList();
      var attempt: Result<Collect.Settlement<Value, R>>;
      if drained.Err? {
        attempt := Err(drained.error);
      } else if onFulfilled.Some? {
        var handled := onFulfilled.value(drained.value);
        attempt := if handled.Ok? then Ok(Collect.Handled(handled.value)) else Err(handled.error);
      } else {
        attempt := Ok(Collect.List(drained.value));
      }
      if attempt.Err? && onRejected.Some? {
        var handled := onRejected.value(attempt.error);
        r := if handled.Ok? then Ok(Collect.Handled(handled.value)) else Err(handled.error);
      } else {
        r := attempt;
      }
    }

    /** `constructFromGeneratorFunction(gen, this)`: a new Flux over `inner`
        whose upstream is this one. */
    method Derive(inner: Trace<Value>) returns (d: Flux)
      requires Valid()
      ensures fresh(d) && d.Unpulled(inner, this, false)
    {
      d := new Flux(inner, this, false);
    }

    method Filter(pred: Value -> Result<bool>) returns (d: Flux)
      requires Valid()
      ensures fresh(d) && d.Unpulled(Operators.Filter(Remaining(), pred), this, false)
    {
      d := Derive(Operators.Filter(Remaining(), pred));
    }

    method UntilExcl(pred: Value -> Result<bool>) returns (d: Flux)
      requires Valid()
      ensures fresh(d) && d.Unpulled(Operators.UntilExcl(Remaining(), pred), this, false)
    {
      d := Derive(Operators.UntilExcl(Remaining(), pred));
    }

    method DoOnEach(callback: Value -> Result<()>) returns (d: Flux)
      requires Valid()
      ensures fresh(d) && d.Unpulled(Operators.DoOnEach(Remaining(), callback).trace, this, false)
    {
      d := Derive(Operators.DoOnEach(Remaining(), callback).trace);
    }

    method DoAfterLast(callback: seq<Value> -> Result<()>) returns (d: Flux)
      requires Valid()
      ensures var R := Remaining();
              fresh(d) && d.Unpulled(Trace(R.values,
                                           if R.end.Fail? then R.end
                                           else if callback(R.values).Err? then Fail(callback(R.values).error)
                                           else Done), this, false)
    {
      var out, _ := Operators.DoAfterLast(Remaining(), callback);
      d := Derive(out);
    }

    method Map(mapper: Value -> Result<Value>) returns (d: Flux)
      requires Valid()
      ensures fresh(d) && d.Unpulled(Operators.Map(Remaining(), mapper), this, false)
    {
      d := Derive(Operators.Map(Remaining(), mapper));
    }

    method Take(n: int) returns (d: Flux)
      requires Valid()
      ensures var m := if n < 0 then 0 else n;
              var R := Remaining();
              fresh(d) && d.Unpulled(Trace(R.values[..Operators.Min(m, |R.values|)],
                                           if |R.values| > m then Done else R.end), this, false)
    {
      var out, _, _ := Operators.Take(Remaining(), n);
      d := Derive(out);
    }

    method FlatMap(mapper: Value -> Result<Operators.Mapped<Value>>) returns (d: Flux)
      requires Valid()
      ensures fresh(d) && d.Unpulled(Operators.FlatMap(Remaining(), mapper), this, false)
    {
      d := Derive(Operators.FlatMap(Remaining(), mapper));
    }

    /** `transform(defineGenerator)`: forwards whatever the user-defined
        generator yields; that generator is given as its trace. */
    method Transform(defined: Trace<Value>) returns (d: Flux)
      requires Valid()
      ensures fresh(d) && d.Unpulled(defined, this, false)
    {
      d := Derive(defined);
    }

    /** `fromArray(array)`: a source that yields the array's elements. */
    static method FromArray(elements: seq<Value>) returns (f: Flux)
      ensures fresh(f) && f.Unpulled(Trace(elements, Done), null, false)
    {
      f := new Flux(Trace(elements, Done), null, false);
    }

    /** `fromGenerator(generator, handleCancel?)`: a source over a generator. */
    static method FromGenerator(inner: Trace<Value>, hasCancelHandler: bool) returns (f: Flux)
      ensures fresh(f) && f.Unpulled(inner, null, hasCancelHandler)
    {
      f := new Flux(inner, null, hasCancelHandler);
    }
  }
}
