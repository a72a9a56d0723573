/**
 * What a Flux resolves to when it is drained: `asList`, `reduce` and the
 * promise method `then` (src/Flux.ts:69-85, 261-277), as functions of the
 * trace that is drained.
 */
module Collect {
  import opened Traces

  /** `asList()`: the values in emission order when the trace ends
      naturally; its failure otherwise. */
  function Collected<T>(t: Trace<T>): (r: Result<seq<T>>)
    ensures r.Ok? <==> t.end.Done?
    ensures r.Ok? ==> r.value == t.values
    ensures r.Err? ==> t.end == Fail(r.error)
  {
    match t.end
    case Done => Ok(t.values)
    case Fail(e) => Err(e)
  }

  /** `reduce(reducer, initialValue?)`: a left fold. An absent initial value
      is `undefined`, so the first reducer call gets `None`; a reducer that
      throws, or a failing trace, rejects. */
  function Reduced<T, O>(t: Trace<T>, reducer: (Option<O>, T) -> Result<O>, reduction: Option<O>)
    : (r: Result<Option<O>>)
    ensures r.Ok? ==> t.end.Done?
    ensures r.Ok? && t.values != [] ==> r.value.Some?
    decreases |t.values|
  {
    if t.values == [] then
      match t.end
      case Done => Ok(reduction)
      case Fail(e) => Err(e)
    else match reducer(reduction, t.values[0])
      case Err(e) => Err(e)
      case Ok(next) => Reduced(Tail(t), reducer, Some(next))
  }

  /** The fold's last step is the reducer applied to the fold of the other
      values and the last value: `reduce` folds from the left. */
  lemma {:induction false} ReducedSnoc<T, O>(a: seq<T>, v: T, end: Terminal,
                                           reducer: (Option<O>, T) -> Result<O>, reduction: Option<O>)
    ensures Reduced(Trace(a + [v], end), reducer, reduction) ==
            match Reduced(Trace(a, Done), reducer, reduction)
            case Err(e) => Err(e)
            case Ok(acc) =>
              match reducer(acc, v)
              case Err(e) => Err(e)
              case Ok(next) => Reduced(Trace([], end), reducer, Some(next))
    decreases |a|
  {
    if a != [] {
      assert Tail(Trace(a + [v], end)).values == a[1..] + [v];
      match reducer(reduction, a[0])
      case Err(e) =>
      case Ok(next) =>
        ReducedSnoc(a[1..], v, end, reducer, Some(next));
    }
  }

  function Push<T>(reduction: Option<seq<T>>, v: T): Result<seq<T>>
  {
    Ok((if reduction.Some? then reduction.value else []) + [v])
  }

  /** Reducing with a reducer that appends to its accumulator, from `[]`,
      gives what `asList` gives. */
  lemma {:induction false} ReducePushIsAsList<T>(t: Trace<T>, prefix: seq<T>)
    ensures Reduced(t, Push, Some(prefix)) ==
            match Collected(t)
            case Ok(values) => Ok(Some(prefix + values))
            case Err(e) => Err(e)
    decreases |t.values|
  {
    if t.values != [] {
      ReducePushIsAsList(Tail(t), prefix + [t.values[0]]);
      assert prefix + [t.values[0]] + t.values[1..] == prefix + t.values;
    } else {
      assert prefix + t.values == prefix;
    }
  }

  /** Without an initial value, reducing a trace that ends with no value
      resolves to `undefined`; otherwise the first reducer call receives
      `undefined` as its accumulator. */
  lemma ReduceWithoutInitialValue<T, O>(t: Trace<T>, reducer: (Option<O>, T) -> Result<O>)
    ensures t == Trace([], Done) ==> Reduced(t, reducer, None) == Ok(None)
    ensures t.values != [] && reducer(None, t.values[0]).Err? ==>
              Reduced(t, reducer, None) == Err(reducer(None, t.values[0]).error)
    ensures t.values != [] && reducer(None, t.values[0]).Ok? ==>
              Reduced(t, reducer, None) == Reduced(Tail(t), reducer, Some(reducer(None, t.values[0]).value))
  {
  }

  /** What `then` resolves to: the collected list itself, or what a handler
      returned. */
  datatype Settlement<T, R> = List(items: seq<T>) | Handled(value: R)

  function Lift<T, R>(h: Result<R>): Result<Settlement<T, R>>
  {
    match h
    case Ok(x) => Ok(Handled(x))
    case Err(e) => Err(e)
  }

  /** `then(onfulfilled, onrejected)`: awaits `asList()` and `onfulfilled`
      inside one `try`, so the `catch` handles a failure of either. */
  function ThenResult<T, R>(drained: Result<seq<T>>,
                            onFulfilled: Option<seq<T> -> Result<R>>,
                            onRejected: Option<Error -> Result<R>>): (r: Result<Settlement<T, R>>)
    ensures r.Ok? && onRejected.None? ==> drained.Ok?
    ensures r.Ok? && r.value.List? ==> drained == Ok(r.value.items) && onFulfilled.None?
  {
    var attempt: Result<Settlement<T, R>> :=
      match drained
      case Err(e) => Err(e)
      case Ok(list) => if onFulfilled.Some? then Lift(onFulfilled.value(list)) else Ok(List(list));
    match attempt
    case Ok(s) => Ok(s)
    case Err(e) => if onRejected.Some? then Lift(onRejected.value(e)) else Err(e)
  }

  /** Without `onfulfilled` a successful drain resolves to the list; without
      `onrejected` a failure is rethrown, whether the drain or `onfulfilled`
      failed; `onfulfilled` receives the list; `onrejected` receives the
      drain's failure, and also a failure thrown by `onfulfilled`. */
  lemma ThenSpec<T, R>(drained: Result<seq<T>>,
                       onFulfilled: Option<seq<T> -> Result<R>>,
                       onRejected: Option<Error -> Result<R>>)
    ensures drained.Ok? && onFulfilled.None? ==>
              ThenResult(drained, onFulfilled, onRejected) == Ok(List(drained.value))
    ensures drained.Err? && onRejected.None? ==>
              ThenResult(drained, onFulfilled, onRejected) == Err(drained.error)
    ensures drained.Ok? && onFulfilled.Some? && onFulfilled.value(drained.value).Err? && onRejected.None? ==>
              ThenResult(drained, onFulfilled, onRejected) == Err(onFulfilled.value(drained.value).error)
    ensures drained.Ok? && onFulfilled.Some? && onFulfilled.value(drained.value).Ok? ==>
              ThenResult(drained, onFulfilled, onRejected) ==
                Ok(Handled(onFulfilled.value(drained.value).value))
    ensures drained.Err? && onRejected.Some? ==>
              ThenResult(drained, onFulfilled, onRejected) == Lift(onRejected.value(drained.error))
    ensures drained.Ok? && onFulfilled.Some? && onFulfilled.value(drained.value).Err? && onRejected.Some? ==>
              ThenResult(drained, onFulfilled, onRejected) ==
                Lift(onRejected.value(onFulfilled.value(drained.value).error))
  {
  }
}
