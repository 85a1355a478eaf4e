/** skip(limit): the factory keeps one emission counter, created with the
    operator and shared by every Observable and every subscription built from
    that operator value. While the counter is below the limit a source value
    is dropped and counted; from then on values pass unchanged. error() and
    completed() pass unchanged. The limit is an integer (the library rounds a
    fractional limit first). */
module SkipOperator {
  import opened Signals

  /** The consumer skip() subscribes to its source with, reading and updating
      the factory's counter: each value is either dropped and counted, or
      forwarded unchanged, never both. */
  function Step<T>(limit: int, counter: int, s: Signal<T>): (r: Counted<T>)
    ensures s.IsTerminal() ==> r == Counted(counter, [Forward(s)])
    ensures s.Next? ==> (r.actions == [] <==> counter < limit)
    ensures s.Next? ==> (r.counter == counter + 1 <==> counter < limit)
    ensures s.Next? && counter >= limit ==> r == Counted(counter, [Forward(s)])
  {
    match s
    case Next(v) => if counter < limit then Counted(counter + 1, []) else Counted(counter, [Forward(Next(v))])
    case Error(e) => Counted(counter, [Forward(Error(e))])
    case Completed => Counted(counter, [Forward(Completed)])
  }

  /** A sequence of source signals through the consumer, from a given counter. */
  function Steps<T>(limit: int, counter: int, trace: seq<Signal<T>>): Counted<T>
    decreases |trace|
  {
    if trace == [] then Counted(counter, [])
    else
      var first := Step(limit, counter, trace[0]);
      var rest := Steps(limit, first.counter, trace[1..]);
      Counted(rest.counter, first.actions + rest.actions)
  }

  /** What DropsRemaining states about the trace. */
  ghost predicate DropsPrefix<T>(limit: int, counter: int, trace: seq<Signal<T>>) {
    var r := Steps(limit, counter, trace);
    var dropped := Min(Remaining(limit, counter), |Values(trace)|);
    && Values(Forwarded(r.actions)) == Values(trace)[dropped..]
    && r.counter == counter + dropped
    && forall a :: a in r.actions ==> a.Forward?
  }

  /** The consumer drops the first Remaining(limit, counter) source values and
      forwards the rest unchanged and in order; the counter grows by the
      number of values dropped; nothing but forwards is ever done. */
  lemma {:induction false} DropsRemaining<T>(limit: int, counter: int, trace: seq<Signal<T>>)
    ensures var r := Steps(limit, counter, trace);
      var dropped := Min(Remaining(limit, counter), |Values(trace)|);
      && Values(Forwarded(r.actions)) == Values(trace)[dropped..]
      && r.counter == counter + dropped
      && forall a :: a in r.actions ==> a.Forward?
    decreases |trace|
  {
    if trace == [] {
      assert DropsPrefix(limit, counter, trace);
    } else {
      DropsRemaining(limit, Step(limit, counter, trace[0]).counter, trace[1..]);
      DropsPrefixCons(limit, counter, trace);
      assert DropsPrefix(limit, counter, trace);
    }
  }

  /** One signal in front of a trace the consumer already handles as stated. */
  lemma DropsPrefixCons<T>(limit: int, counter: int, trace: seq<Signal<T>>)
    requires trace != []
    requires DropsPrefix(limit, Step(limit, counter, trace[0]).counter, trace[1..])
    ensures DropsPrefix(limit, counter, trace)
  {
    StepsCons(limit, counter, trace);
    if trace[0].Next? && counter < limit {
      DropsPrefixDropped(limit, counter, trace);
    } else if trace[0].Next? {
      DropsPrefixPassed(limit, counter, trace);
    } else {
      DropsPrefixTerminal(limit, counter, trace);
    }
  }

  /** The forwarded values of a non-empty trace, split at its first signal. */
  lemma StepsCons<T>(limit: int, counter: int, trace: seq<Signal<T>>)
    requires trace != []
    ensures StepsConsFacts(limit, counter, trace)
  {
    var first := Step(limit, counter, trace[0]);
    var rest := Steps(limit, first.counter, trace[1..]);
    ForwardedAppend(first.actions, rest.actions);
    ValuesAppend(Forwarded(first.actions), Forwarded(rest.actions));
    assert trace == [trace[0]] + trace[1..];
    ValuesAppend([trace[0]], trace[1..]);
  }

  lemma DropsPrefixDropped<T>(limit: int, counter: int, trace: seq<Signal<T>>)
    requires trace != [] && trace[0].Next? && counter < limit
    requires DropsPrefix(limit, counter + 1, trace[1..])
    requires StepsConsFacts(limit, counter, trace)
    ensures DropsPrefix(limit, counter, trace)
  {
    var first := Step(limit, counter, trace[0]);
    var tailValues := Values(trace[1..]);
    assert Values([trace[0]]) == [trace[0].value];
    assert Values(trace) == [trace[0].value] + tailValues;
    assert Forwarded(first.actions) == [];
    assert Values(trace)[Min(Remaining(limit, counter), |Values(trace)|)..]
        == tailValues[Min(Remaining(limit, counter + 1), |tailValues|)..];
  }

  lemma DropsPrefixPassed<T>(limit: int, counter: int, trace: seq<Signal<T>>)
    requires trace != [] && trace[0].Next? && counter >= limit
    requires DropsPrefix(limit, counter, trace[1..])
    requires StepsConsFacts(limit, counter, trace)
    ensures DropsPrefix(limit, counter, trace)
  {
    var first := Step(limit, counter, trace[0]);
    assert Values([trace[0]]) == [trace[0].value];
    assert Forwarded(first.actions) == [trace[0]];
    assert Values(Forwarded(first.actions)) == [trace[0].value];
  }

  lemma DropsPrefixTerminal<T>(limit: int, counter: int, trace: seq<Signal<T>>)
    requires trace != [] && trace[0].IsTerminal()
    requires DropsPrefix(limit, counter, trace[1..])
    requires StepsConsFacts(limit, counter, trace)
    ensures DropsPrefix(limit, counter, trace)
  {
    var first := Step(limit, counter, trace[0]);
    assert Values([trace[0]]) == [];
    assert Forwarded(first.actions) == [trace[0]];
    assert Values(Forwarded(first.actions)) == [];
  }

  ghost predicate StepsConsFacts<T>(limit: int, counter: int, trace: seq<Signal<T>>)
    requires trace != []
  {
    var first := Step(limit, counter, trace[0]);
    var rest := Steps(limit, first.counter, trace[1..]);
    && Steps(limit, counter, trace) == Counted(rest.counter, first.actions + rest.actions)
    && Values(Forwarded(Steps(limit, counter, trace).actions))
       == Values(Forwarded(first.actions)) + Values(Forwarded(rest.actions))
    && Values(trace) == Values([trace[0]]) + Values(trace[1..])
  }

  /** A fresh skip(limit) drops the first max(limit, 0) values of its source
      and forwards the rest, unchanged and in order. */
  lemma FreshSkipDrops<T>(limit: int, trace: seq<Signal<T>>)
    ensures var dropped := Min(if limit > 0 then limit else 0, |Values(trace)|);
      Values(Forwarded(Steps(limit, 0, trace).actions)) == Values(trace)[dropped..]
  {
    DropsRemaining(limit, 0, trace);
  }

  /** The counter only grows while it is below the limit, so starting from 0
      it never exceeds max(limit, 0). */
  lemma CounterBounded<T>(limit: int, counter: int, trace: seq<Signal<T>>)
    requires 0 <= counter <= (if limit > 0 then limit else 0)
    ensures 0 <= Steps(limit, counter, trace).counter <= (if limit > 0 then limit else 0)
  {
    DropsRemaining(limit, counter, trace);
  }

  /** Once the shared counter has reached the limit, every later subscription
      through the same skip(limit) value gets its source stream unchanged. */
  lemma {:induction false} ExhaustedSkipsNothing<T>(limit: int, counter: int, trace: seq<Signal<T>>)
    requires counter >= limit
    ensures Steps(limit, counter, trace) == Counted(counter, Forwards(trace))
    decreases |trace|
  {
    if trace != [] {
      ExhaustedSkipsNothing(limit, counter, trace[1..]);
      assert Forwards(trace) == [Forward(trace[0])] + Forwards(trace[1..]);
    }
  }

  /** The state skip(limit) creates once, in the factory's scope. Every
      consumer built from this operator value reads and updates the same
      counter. */
  class Skip {
    const limit: int
    var emissionCounter: int

    /** skip(limit): the counter starts at 0. */
    constructor (limit: int)
      ensures this.limit == limit && emissionCounter == 0
    {
      this.limit := limit;
      emissionCounter := 0;
    }

    /** One call on a consumer built from this operator value. */
    method Consume<T>(s: Signal<T>) returns (actions: seq<Action<T>>)
      modifies this
      ensures Counted(emissionCounter, actions) == Step(limit, old(emissionCounter), s)
    {
      match s {
        case Next(v) =>
          if emissionCounter < limit {
            emissionCounter := emissionCounter + 1;
            return [];
          }
          actions := [Forward(Next(v))];
        case Error(e) =>
          actions := [Forward(Error(e))];
        case Completed =>
          actions := [Forward(Completed)];
      }
    }
  }
}
