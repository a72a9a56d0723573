/**
 * Finite traces of an asynchronous generator, and the list-level
 * operations that the Flux operators are compared with.
 *
 * A trace is the whole observable life of a generator that is pulled
 * until it stops: the values it yields, in order, followed by exactly
 * one terminal event, natural exhaustion (`Done`) or a failure.
 */
module Traces {

  /** A thrown JavaScript value (an exception or a cancellation reason),
      reduced to an opaque reason. */
  datatype Error = Error(reason: string)

  datatype Option<T> = None | Some(value: T)

  /** The outcome of a user callback (mapper, predicate, reducer, handler):
      it returns a value or throws. */
  datatype Result<T> = Ok(value: T) | Err(error: Error)

  datatype Terminal = Done | Fail(error: Error)

  datatype Trace<T> = Trace(values: seq<T>, end: Terminal)

  function Prepend<T>(s: seq<T>, t: Trace<T>): Trace<T>
  {
    Trace(s + t.values, t.end)
  }

  function Tail<T>(t: Trace<T>): Trace<T>
    requires t.values != []
  {
    Trace(t.values[1..], t.end)
  }

  /** The trace a generator shows when a failure `e` is thrown into it
      after it has delivered its first `k` values. */
  function Interrupted<T>(t: Trace<T>, k: nat, e: Error): Trace<T>
    requires k <= |t.values|
  {
    Trace(t.values[..k], Fail(e))
  }

  /** The index of the first element of `s` that is not `good`,
      or `|s|` when every element is. */
  function FirstNot<T>(s: seq<T>, good: T -> bool): (k: nat)
    ensures k <= |s|
    ensures forall i :: 0 <= i < k ==> good(s[i])
    ensures k < |s| ==> !good(s[k])
  {
    if s == [] || !good(s[0]) then 0 else 1 + FirstNot(s[1..], good)
  }

  /** List map. */
  function ListMap<T, O>(s: seq<T>, g: T -> O): (r: seq<O>)
    ensures |r| == |s|
    ensures forall i :: 0 <= i < |s| ==> r[i] == g(s[i])
  {
    if s == [] then [] else [g(s[0])] + ListMap(s[1..], g)
  }

  /** List filter: the elements of `s` that satisfy `keep`, in order. */
  function ListFilter<T>(s: seq<T>, keep: T -> bool): (r: seq<T>)
    ensures |r| <= |s|
    ensures forall i :: 0 <= i < |r| ==> keep(r[i])
  {
    if s == [] then []
    else (if keep(s[0]) then [s[0]] else []) + ListFilter(s[1..], keep)
  }

  lemma {:induction false} ListFilterMembers<T>(s: seq<T>, keep: T -> bool, x: T)
    ensures x in ListFilter(s, keep) <==> x in s && keep(x)
  {
    if s != [] {
      ListFilterMembers(s[1..], keep, x);
      assert s == [s[0]] + s[1..];
    }
  }

  /** Concatenation of a list of lists, in order. */
  function Concat<T>(ss: seq<seq<T>>): (r: seq<T>)
  {
    if ss == [] then [] else ss[0] + Concat(ss[1..])
  }
}
