/** The scoped resource guard: an ordered stack of acquired closable items,
    released in reverse acquisition order when the scope ends, whatever the
    scope's body did. Every item here is a value; "closing" an item is an event
    recorded in a trace rather than an effect. */
module Closables {
  import opened Wrappers

  /** The guard's state: the error to raise when a factory yields nothing, and
      the items acquired so far, oldest first. */
  datatype Guard<T, E> = Guard(error: E, items: seq<T>)

  /** The guard after one operation inside the scope, with that operation's outcome. */
  datatype Step<T, R, E> = Step(guard: Guard<T, E>, outcome: Result<R, E>)

  /** One call of an item's `close()`; `threw` records whether that call raised. */
  datatype Release<T> = Release(item: T, threw: bool)

  /** What a whole scope observably does: the releases it performed, in order,
      and the value or error it surfaces. */
  datatype Scope<T, R, E> = Scope(trace: seq<Release<T>>, result: Result<R, E>)

  /** The sequence read back to front. */
  function Reverse<T>(s: seq<T>): (r: seq<T>)
    ensures |r| == |s|
    ensures forall i :: 0 <= i < |s| ==> r[i] == s[|s| - 1 - i]
  {
    if |s| == 0 then [] else [s[|s| - 1]] + Reverse(s[..|s| - 1])
  }

  /** The items a trace released, in release order. */
  function ReleasedItems<T>(trace: seq<Release<T>>): (r: seq<T>)
    ensures |r| == |trace|
    ensures forall i :: 0 <= i < |trace| ==> r[i] == trace[i].item
  {
    seq(|trace|, i requires 0 <= i < |trace| => trace[i].item)
  }

  /** Every release in the trace records exactly what the item's `close()` did. */
  ghost predicate ReportsCloseFailures<T>(trace: seq<Release<T>>, closeThrows: T -> bool) {
    forall i :: 0 <= i < |trace| ==> trace[i].threw == closeThrows(trace[i].item)
  }

  /** The values of the factories up to (not including) the first one that
      yields nothing: the items a run of acquisitions manages to hold. */
  function YieldedPrefix<T>(factories: seq<Option<T>>): (r: seq<T>)
    ensures |r| <= |factories|
    ensures forall i :: 0 <= i < |r| ==> factories[i] == Some(r[i])
    ensures |r| < |factories| ==> factories[|r|].None?
  {
    if |factories| == 0 || factories[0].None? then []
    else [factories[0].value] + YieldedPrefix(factories[1..])
  }

  /** Acquires one item. A factory that yields an item pushes it on top of the
      stack and returns it; one that yields nothing raises the guard's error
      and leaves the stack as it was. */
  function New<T, E>(g: Guard<T, E>, made: Option<T>): (s: Step<T, T, E>)
    ensures s.guard.error == g.error
    ensures made.Some? ==>
              && s.outcome == Success(made.value)
              && |s.guard.items| == |g.items| + 1
              && s.guard.items[..|g.items|] == g.items
              && s.guard.items[|g.items|] == made.value
    ensures made.None? ==> s.outcome == Failure(g.error) && s.guard.items == g.items
  {
    match made
    case None => Step(g, Failure(g.error))
    case Some(item) => Step(g.(items := g.items + [item]), Success(item))
  }

  /** Acquires items one after another, each through `New`, stopping at the
      first factory that yields nothing. */
  function AcquireAll<T, E>(g: Guard<T, E>, factories: seq<Option<T>>): (s: Step<T, seq<T>, E>)
    ensures s.guard.error == g.error
    ensures s.guard.items == g.items + YieldedPrefix(factories)
    ensures s.outcome.Success? <==> |YieldedPrefix(factories)| == |factories|
    ensures s.outcome.Success? ==> s.outcome.value == YieldedPrefix(factories)
    ensures s.outcome.Failure? ==> s.outcome.error == g.error
    decreases |factories|
  {
    if |factories| == 0 then Step(g, Success([]))
    else
      var first := New(g, factories[0]);
      if first.outcome.Failure? then Step(first.guard, Failure(first.outcome.error))
      else
        var rest := AcquireAll(first.guard, factories[1..]);
        if rest.outcome.Failure? then rest
        else Step(rest.guard, Success([first.outcome.value] + rest.outcome.value))
  }

  /** Releases a stack of items, newest first; a failing `close()` is recorded
      and ignored, and the next item is closed all the same. */
  function CloseItems<T>(items: seq<T>, closeThrows: T -> bool): (trace: seq<Release<T>>)
    ensures ReleasedItems(trace) == Reverse(items)
    ensures ReportsCloseFailures(trace, closeThrows)
  {
    if |items| == 0 then []
    else
      var last := items[|items| - 1];
      [Release(last, closeThrows(last))] + CloseItems(items[..|items| - 1], closeThrows)
  }

  /** The guard's `close`: it never fails, it only produces releases. */
  function Close<T, E>(g: Guard<T, E>, closeThrows: T -> bool): (trace: seq<Release<T>>)
    ensures |trace| == |g.items|
    ensures forall i :: 0 <= i < |trace| ==> trace[i].item == g.items[|g.items| - 1 - i]
    ensures ReportsCloseFailures(trace, closeThrows)
  {
    CloseItems(g.items, closeThrows)
  }

  /** Runs `body` on a fresh guard, then cleans up exactly once, then surfaces
      the body's value or the body's own error. */
  function WithClosables<T, R, E>(error: E, body: Guard<T, E> -> Step<T, R, E>, closeThrows: T -> bool)
    : (r: Scope<T, R, E>)
    ensures ReleasedItems(r.trace) == Reverse(body(Guard(error, [])).guard.items)
    ensures ReportsCloseFailures(r.trace, closeThrows)
    ensures r.result == body(Guard(error, [])).outcome
  {
    var done := body(Guard(error, []));
    Scope(Close(done.guard, closeThrows), done.outcome)
  }

  lemma {:induction false} ReverseIsPermutation<T>(s: seq<T>)
    ensures multiset(Reverse(s)) == multiset(s)
  {
    if |s| > 0 {
      ReverseIsPermutation(s[..|s| - 1]);
      assert s == s[..|s| - 1] + [s[|s| - 1]];
    }
  }

  /** Cleanup releases every held item exactly as many times as it was
      acquired: the released items are a permutation of the held ones. */
  lemma CloseReleasesEachItemOnce<T, E>(g: Guard<T, E>, closeThrows: T -> bool)
    ensures multiset(ReleasedItems(Close(g, closeThrows))) == multiset(g.items)
  {
    var trace := Close(g, closeThrows);
    assert ReleasedItems(trace) == Reverse(g.items);
    ReverseIsPermutation(g.items);
  }

  /** Whether items' `close()` calls fail changes nothing about which items are
      released, in which order, nor about the value or error the scope surfaces. */
  lemma CloseFailuresAreSwallowed<T, R, E>(error: E, body: Guard<T, E> -> Step<T, R, E>,
                                           closeThrows: T -> bool, closeThrows': T -> bool)
    ensures ReleasedItems(WithClosables(error, body, closeThrows).trace)
         == ReleasedItems(WithClosables(error, body, closeThrows').trace)
    ensures WithClosables(error, body, closeThrows).result
         == WithClosables(error, body, closeThrows').result
  {
  }

  /** A scope whose body acquires a run of items releases exactly the items
      acquired before the first factory that yields nothing, newest first, and
      surfaces the guard's configured error when such a factory exists. */
  lemma AcquisitionScopeReleasesHeldPrefix<T, E>(error: E, factories: seq<Option<T>>, closeThrows: T -> bool)
    ensures var r := WithClosables(error, g => AcquireAll(g, factories), closeThrows);
            && ReleasedItems(r.trace) == Reverse(YieldedPrefix(factories))
            && (r.result.Failure? <==> exists i :: 0 <= i < |factories| && factories[i].None?)
            && (r.result.Failure? ==> r.result.error == error)
  {
    var r := WithClosables(error, g => AcquireAll(g, factories), closeThrows);
    var held := YieldedPrefix(factories);
    if r.result.Failure? {
      assert factories[|held|].None?;
    }
  }

  /** A and B are acquired, then C's factory yields nothing: B then A are
      released, and the surfaced error is the guard's configured error. */
  lemma TwoAcquiredThenFactoryFails<T, E>(error: E, a: T, b: T, closeThrows: T -> bool)
    ensures WithClosables(error, g => AcquireAll(g, [Some(a), Some(b), None]), closeThrows)
         == Scope([Release(b, closeThrows(b)), Release(a, closeThrows(a))], Failure(error))
  {
    var factories: seq<Option<T>> := [Some(a), Some(b), None];
    var r := WithClosables(error, g => AcquireAll(g, factories), closeThrows);
    assert YieldedPrefix(factories) == [a, b];
    assert ReleasedItems(r.trace) == [b, a];
    assert r.trace == [Release(b, closeThrows(b)), Release(a, closeThrows(a))];
  }
}
