/** take(limit): the factory keeps one emission counter, created with the
    operator and shared by every Observable and every subscription built from
    that operator value. Every source value increments it; a value is
    forwarded unchanged while the counter is at most the limit, and when the
    counter equals the limit the consumer unsubscribes its source
    subscription and then sends completed() downstream. error() and
    completed() from the source pass unchanged. The limit is an integer (the
    library rounds a fractional limit first). */
module TakeOperator {
  import opened Signals

  /** The consumer take() subscribes to its source with. */
  function Step<T>(limit: int, counter: int, s: Signal<T>): (r: Counted<T>)
    ensures s.IsTerminal() ==> r == Counted(counter, [Forward(s)])
    ensures s.Next? ==> r.counter == counter + 1
    ensures s.Next? ==> (Forward(s) in r.actions <==> counter + 1 <= limit)
    ensures s.Next? ==> (UnsubscribeSource in r.actions <==> counter + 1 == limit)
    ensures s.Next? && counter + 1 == limit ==> r.actions == [Forward(s), UnsubscribeSource, Forward(Completed)]
  {
    match s
    case Next(v) =>
      var c := counter + 1;
      var forwarded: seq<Action<T>> := if c <= limit then [Forward(Next(v))] else [];
      Counted(c, forwarded + (if c == limit then [UnsubscribeSource, Forward(Completed)] else []))
    case Error(e) => Counted(counter, [Forward(Error(e))])
    case Completed => Counted(counter, [Forward(Completed)])
  }

  /** A sequence of source signals through the consumer, from a given counter. */
  function Steps<T>(limit: int, counter: int, trace: seq<Signal<T>>): Counted<T>
    decreases |trace|
  {
    if trace == [] then Counted(counter, [])
    else
      var first := Step(limit, counter, trace[0]);
      var rest := Steps(limit, first.counter, trace[1..]);
      Counted(rest.counter, first.actions + rest.actions)
  }

  lemma ForwardsNextsCons<T>(v: T, vs: seq<T>)
    ensures Forwards(Nexts([v] + vs)) == [Forward(Next(v))] + Forwards(Nexts(vs))
  {
    assert Nexts([v] + vs) == [Next(v)] + Nexts(vs);
  }

  /** What TakesRemaining states about the values vs. */
  ghost predicate TakesPrefix<T>(limit: int, counter: int, vs: seq<T>) {
    var r := Steps(limit, counter, Nexts(vs));
    var n := Remaining(limit, counter);
    && r.counter == counter + |vs|
    && r.actions == if 0 < n <= |vs| then Forwards(Nexts(vs[..n])) + [UnsubscribeSource, Forward(Completed)]
                    else Forwards(Nexts(vs[..Min(n, |vs|)]))
  }

  /** Given values v1..vk, the consumer forwards the first
      min(k, Remaining(limit, counter)) of them unchanged and in order; if the
      limit is reached, right after the last of them it unsubscribes its
      source and completes; the counter grows by one per value. */
  lemma {:induction false} TakesRemaining<T>(limit: int, counter: int, vs: seq<T>)
    ensures var r := Steps(limit, counter, Nexts(vs));
      var n := Remaining(limit, counter);
      && r.counter == counter + |vs|
      && r.actions == if 0 < n <= |vs| then Forwards(Nexts(vs[..n])) + [UnsubscribeSource, Forward(Completed)]
                      else Forwards(Nexts(vs[..Min(n, |vs|)]))
    decreases |vs|
  {
    if vs == [] {
      assert TakesPrefix(limit, counter, vs);
    } else {
      assert vs == [vs[0]] + vs[1..];
      TakesRemaining(limit, counter + 1, vs[1..]);
      TakesPrefixCons(limit, counter, vs[0], vs[1..]);
      assert TakesPrefix(limit, counter, vs);
    }
  }

  /** One value in front of values the consumer already handles as stated. */
  lemma TakesPrefixCons<T>(limit: int, counter: int, v: T, tail: seq<T>)
    requires TakesPrefix(limit, counter + 1, tail)
    ensures TakesPrefix(limit, counter, [v] + tail)
  {
    var vs := [v] + tail;
    var ending: seq<Action<T>> := [UnsubscribeSource, Forward(Completed)];
    var first := Step(limit, counter, Next(v));
    var rest := Steps(limit, counter + 1, Nexts(tail));
    StepsNextsCons(limit, counter, v, tail);
    var n := Remaining(limit, counter);
    if n == 0 {
      assert first.actions == [] && rest.actions == [];
      assert vs[..Min(n, |vs|)] == [];
    } else if n == 1 {
      assert first.actions == [Forward(Next(v))] + ending;
      assert Remaining(limit, counter + 1) == 0;
      assert rest.actions == [];
      assert vs[..n] == [v] + [];
      ForwardsNextsCons(v, []);
    } else if n <= |vs| {
      TakesPrefixMiddle(limit, counter, v, tail);
    } else {
      TakesPrefixShort(limit, counter, v, tail);
    }
  }

  lemma TakesPrefixMiddle<T>(limit: int, counter: int, v: T, tail: seq<T>)
    requires TakesPrefix(limit, counter + 1, tail)
    requires 1 < Remaining(limit, counter) <= |tail| + 1
    ensures TakesPrefix(limit, counter, [v] + tail)
  {
    var vs := [v] + tail;
    var n := Remaining(limit, counter);
    var ending: seq<Action<T>> := [UnsubscribeSource, Forward(Completed)];
    StepsNextsCons(limit, counter, v, tail);
    assert Step(limit, counter, Next(v)).actions == [Forward(Next(v))];
    assert Remaining(limit, counter + 1) == n - 1;
    assert vs[..n] == [v] + tail[..n - 1];
    ForwardsNextsCons(v, tail[..n - 1]);
  }

  lemma TakesPrefixShort<T>(limit: int, counter: int, v: T, tail: seq<T>)
    requires TakesPrefix(limit, counter + 1, tail)
    requires |tail| + 1 < Remaining(limit, counter)
    ensures TakesPrefix(limit, counter, [v] + tail)
  {
    var vs := [v] + tail;
    var n := Remaining(limit, counter);
    StepsNextsCons(limit, counter, v, tail);
    assert Step(limit, counter, Next(v)).actions == [Forward(Next(v))];
    assert Remaining(limit, counter + 1) == n - 1;
    assert vs[..Min(n, |vs|)] == vs == [v] + tail[..Min(n - 1, |tail|)];
    ForwardsNextsCons(v, tail[..Min(n - 1, |tail|)]);
  }

  lemma StepsNextsCons<T>(limit: int, counter: int, v: T, tail: seq<T>)
    ensures var first := Step(limit, counter, Next(v));
      var rest := Steps(limit, counter + 1, Nexts(tail));
      Steps(limit, counter, Nexts([v] + tail)) == Counted(rest.counter, first.actions + rest.actions)
  {
    assert Nexts([v] + tail)[0] == Next(v);
    assert Nexts([v] + tail)[1..] == Nexts(tail);
  }

  /** The forwarded values and whether the stream completes, given the counter
      a subscription starts from (0 for a fresh take(limit); what earlier
      subscriptions left behind otherwise). */
  lemma ForwardedPrefix<T>(limit: int, counter: int, vs: seq<T>)
    ensures var r := Steps(limit, counter, Nexts(vs));
      var n := Remaining(limit, counter);
      && Values(Forwarded(r.actions)) == vs[..Min(n, |vs|)]
      && (Forward(Completed) in r.actions <==> 0 < n <= |vs|)
      && (UnsubscribeSource in r.actions <==> 0 < n <= |vs|)
  {
    TakesRemaining(limit, counter, vs);
    var n := Remaining(limit, counter);
    var prefix := vs[..Min(n, |vs|)];
    ForwardedForwards(Nexts(prefix));
    ValuesOfNexts(prefix);
    if 0 < n <= |vs| {
      ForwardedAppend(Forwards(Nexts(prefix)), [UnsubscribeSource, Forward(Completed)]);
      var ending: seq<Action<T>> := [UnsubscribeSource, Forward(Completed)];
      var completed: seq<Signal<T>> := [Completed];
      ValuesAppend(Nexts(prefix), completed);
      assert Values(completed) == [];
      assert Forwarded(ending) == completed;
    } else {
      assert forall i :: 0 <= i < |Forwards(Nexts(prefix))| ==> Forwards(Nexts(prefix))[i] == Forward(Next(prefix[i]));
    }
  }

  /** A fresh take(limit) forwards exactly the first min(k, max(limit, 0)) of
      k source values, and completes exactly when 1 <= limit <= k. */
  lemma FreshTake<T>(limit: int, vs: seq<T>)
    ensures var r := Steps(limit, 0, Nexts(vs));
      && Values(Forwarded(r.actions)) == vs[..Min(if limit > 0 then limit else 0, |vs|)]
      && (Forward(Completed) in r.actions <==> 1 <= limit <= |vs|)
  {
    ForwardedPrefix(limit, 0, vs);
  }

  /** With limit <= 0 (and the counter, as always, at least 0), whatever the
      source sends, no value is forwarded and take never unsubscribes or
      completes on its own: the counter is at least 1 when compared. */
  lemma {:induction false} NonPositiveLimitForwardsNoValue<T>(limit: int, counter: int, trace: seq<Signal<T>>)
    requires limit <= 0 <= counter
    ensures var r := Steps(limit, counter, trace);
      && Values(Forwarded(r.actions)) == []
      && UnsubscribeSource !in r.actions
      && forall i :: 0 <= i < |r.actions| ==> r.actions[i].Forward? && r.actions[i].signal.IsTerminal()
    decreases |trace|
  {
    if trace != [] {
      var first := Step(limit, counter, trace[0]);
      var rest := Steps(limit, first.counter, trace[1..]);
      NonPositiveLimitForwardsNoValue(limit, first.counter, trace[1..]);
      ForwardedAppend(first.actions, rest.actions);
      ValuesAppend(Forwarded(first.actions), Forwarded(rest.actions));
      if trace[0].Next? {
        assert first.actions == [];
      } else {
        assert Forwarded(first.actions) == [trace[0]];
        assert Values([trace[0]]) == [];
      }
    }
  }

  /** The counter grows by exactly one per source value, whatever else arrives. */
  lemma {:induction false} CountsEveryValue<T>(limit: int, counter: int, trace: seq<Signal<T>>)
    ensures Steps(limit, counter, trace).counter == counter + |Values(trace)|
    decreases |trace|
  {
    if trace != [] {
      CountsEveryValue(limit, Step(limit, counter, trace[0]).counter, trace[1..]);
      assert trace == [trace[0]] + trace[1..];
      ValuesAppend([trace[0]], trace[1..]);
      if trace[0].Next? {
        assert Values([trace[0]]) == [trace[0].value];
      } else {
        assert Values([trace[0]]) == [];
      }
    }
  }

  /** The state take(limit) creates once, in the factory's scope. Every
      consumer built from this operator value reads and updates the same
      counter. */
  class Take {
    const limit: int
    var emissionCounter: int

    /** take(limit): the counter starts at 0. */
    constructor (limit: int)
      ensures this.limit == limit && emissionCounter == 0
    {
      this.limit := limit;
      emissionCounter := 0;
    }

    /** One call on a consumer built from this operator value. */
    method Consume<T>(s: Signal<T>) returns (actions: seq<Action<T>>)
      modifies this
      ensures Counted(emissionCounter, actions) == Step(limit, old(emissionCounter), s)
    {
      match s {
        case Next(v) =>
          emissionCounter := emissionCounter + 1;
          actions := [];
          if emissionCounter <= limit {
            actions := actions + [Forward(Next(v))];
          }
          if emissionCounter == limit {
            actions := actions + [UnsubscribeSource, Forward(Completed)];
          }
        case Error(e) =>
          actions := [Forward(Error(e))];
        case Completed =>
          actions := [Forward(Completed)];
      }
    }
  }
}
