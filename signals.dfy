/** The vocabulary every stream component shares: the three calls an Observer
    accepts, and the actions an operator's consumer performs in response to one
    of them. */
module Signals {

  datatype Option<T> = None | Some(value: T)

  /** One call made on an Observer: next(value), error(error) or completed().
      The error payload is untyped in the library; it is carried as text here. */
  datatype Signal<T> = Next(value: T) | Error(error: string) | Completed
  {
    /** error() and completed() end a stream; next() does not. */
    predicate IsTerminal() {
      Error? || Completed?
    }
  }

  /** What an operator's producer or consumer does, in the order it does it:
      call the downstream observer, subscribe to or unsubscribe from its source
      Observable, or call a user-supplied side-effect function. */
  datatype Action<T> = Forward(signal: Signal<T>) | SubscribeSource | UnsubscribeSource | Divert(argument: T)

  /** An emission counter after a consumer has handled some signals, and what
      the consumer did meanwhile: what skip() and take() keep per factory. */
  datatype Counted<T> = Counted(counter: int, actions: seq<Action<T>>)

  /** How many more values a counter allows before it reaches the limit. */
  function Remaining(limit: int, counter: int): nat {
    if counter < limit then limit - counter else 0
  }

  function Min(a: int, b: int): int {
    if a <= b then a else b
  }

  /** The values carried by the next() calls of a trace, in order. */
  function Values<T>(trace: seq<Signal<T>>): (vs: seq<T>)
    ensures |vs| <= |trace|
    ensures trace == [] ==> vs == []
  {
    if trace == [] then []
    else (if trace[0].Next? then [trace[0].value] else []) + Values(trace[1..])
  }

  lemma {:induction false} ValuesAppend<T>(a: seq<Signal<T>>, b: seq<Signal<T>>)
    ensures Values(a + b) == Values(a) + Values(b)
  {
    if a == [] {
      assert a + b == b;
    } else {
      var head: seq<T> := if a[0].Next? then [a[0].value] else [];
      assert (a + b)[0] == a[0];
      assert (a + b)[1..] == a[1..] + b;
      assert Values(a + b) == head + Values(a[1..] + b);
      ValuesAppend(a[1..], b);
    }
  }

  /** A stream made only of next() calls carrying vs, in order. */
  function Nexts<T>(vs: seq<T>): (trace: seq<Signal<T>>)
    ensures |trace| == |vs|
    ensures forall i :: 0 <= i < |vs| ==> trace[i] == Next(vs[i])
  {
    if vs == [] then [] else [Next(vs[0])] + Nexts(vs[1..])
  }

  lemma {:induction false} ValuesOfNexts<T>(vs: seq<T>)
    ensures Values(Nexts(vs)) == vs
  {
    if vs != [] {
      assert Nexts(vs)[1..] == Nexts(vs[1..]);
      ValuesOfNexts(vs[1..]);
    }
  }

  /** The signals an action list passes downstream, in order. */
  function Forwarded<T>(actions: seq<Action<T>>): (trace: seq<Signal<T>>)
    ensures |trace| <= |actions|
  {
    if actions == [] then []
    else (if actions[0].Forward? then [actions[0].signal] else []) + Forwarded(actions[1..])
  }

  lemma {:induction false} ForwardedAppend<T>(a: seq<Action<T>>, b: seq<Action<T>>)
    ensures Forwarded(a + b) == Forwarded(a) + Forwarded(b)
  {
    if a == [] {
      assert a + b == b;
    } else {
      var head: seq<Signal<T>> := if a[0].Forward? then [a[0].signal] else [];
      assert (a + b)[0] == a[0];
      assert (a + b)[1..] == a[1..] + b;
      assert Forwarded(a + b) == head + Forwarded(a[1..] + b);
      ForwardedAppend(a[1..], b);
    }
  }

  /** Forward every signal of a trace, in order. */
  function Forwards<T>(trace: seq<Signal<T>>): (actions: seq<Action<T>>)
    ensures |actions| == |trace|
    ensures forall i :: 0 <= i < |trace| ==> actions[i] == Forward(trace[i])
  {
    if trace == [] then [] else [Forward(trace[0])] + Forwards(trace[1..])
  }

  lemma {:induction false} ForwardedForwards<T>(trace: seq<Signal<T>>)
    ensures Forwarded(Forwards(trace)) == trace
    decreases |trace|
  {
    if trace != [] {
      ForwardedAppend([Forward(trace[0])], Forwards(trace[1..]));
      assert Forwards(trace) == [Forward(trace[0])] + Forwards(trace[1..]);
      ForwardedForwards(trace[1..]);
    }
  }

  /** An Observer's contract as seen from its side: no call follows a terminal
      call, so at most one terminal call is ever received, and only last. */
  predicate StopsAtTerminal<T>(trace: seq<Signal<T>>) {
    forall i :: 0 <= i < |trace| - 1 ==> !trace[i].IsTerminal()
  }

  /** A trace that has received its terminal call. */
  predicate Ended<T>(trace: seq<Signal<T>>) {
    |trace| > 0 && trace[|trace| - 1].IsTerminal()
  }

  lemma AtMostOneTerminal<T>(trace: seq<Signal<T>>, i: nat, j: nat)
    requires StopsAtTerminal(trace)
    requires i < |trace| && j < |trace|
    requires trace[i].IsTerminal() && trace[j].IsTerminal()
    ensures i == j && i == |trace| - 1
  {
  }

  /** The prefix of a trace up to and including its first terminal call: what a
      guarded observer lets through when every signal reaches it. */
  function Cut<T>(trace: seq<Signal<T>>): (r: seq<Signal<T>>)
    ensures |r| <= |trace| && r == trace[..|r|]
    ensures StopsAtTerminal(r)
    ensures (exists i :: 0 <= i < |trace| && trace[i].IsTerminal()) <==> Ended(r)
  {
    if trace == [] then []
    else if trace[0].IsTerminal() then [trace[0]]
    else
      var rest := Cut(trace[1..]);
      assert forall i :: 0 < i < |trace| ==> trace[i] == trace[1..][i - 1];
      [trace[0]] + rest
  }
}
