/** startWith(startingValue): the factory keeps one flag,
    hasEmittedStartingValue, created with the operator and shared by every
    Observable and every subscription built from that operator value. The
    derived Observable's producer first emits the starting value downstream
    if the flag is still clear (setting it before emitting), and only then
    subscribes to its source; every source signal is then passed on
    unchanged. */
module StartWithOperator {
  import opened Signals

  /** The consumer startWith() subscribes to its source with: every signal
      passes on unchanged. */
  function OnSignal<T>(s: Signal<T>): (out: seq<Action<T>>)
    ensures |out| == 1 && out[0].Forward? && out[0].signal == s
  {
    [Forward(s)]
  }

  /** The flag after one run of the derived producer, and what the producer
      did before its source subscription returned. */
  datatype Outcome<T> = Outcome(hasEmittedStartingValue: bool, actions: seq<Action<T>>)

  /** One invocation of the derived producer, up to and including its
      subscription to the source. */
  function Prologue<T>(startingValue: T, hasEmittedStartingValue: bool): (r: Outcome<T>)
    ensures r.hasEmittedStartingValue
    ensures !hasEmittedStartingValue ==> r.actions == [Forward(Next(startingValue)), SubscribeSource]
    ensures hasEmittedStartingValue ==> r.actions == [SubscribeSource]
  {
    var seed: seq<Action<T>> := if hasEmittedStartingValue then [] else [Forward(Next(startingValue))];
    Outcome(true, seed + [SubscribeSource])
  }

  /** What can happen to a derived Observable built from one startWith value:
      a subscription to it (which runs its producer), or a signal its source
      sends to the consumer of one of those subscriptions. */
  datatype Event<T> = Subscribe | Source(signal: Signal<T>)

  function Steps<T>(startingValue: T, hasEmittedStartingValue: bool, events: seq<Event<T>>): Outcome<T>
    decreases |events|
  {
    if events == [] then Outcome(hasEmittedStartingValue, [])
    else
      var first := match events[0]
        case Subscribe => Prologue(startingValue, hasEmittedStartingValue)
        case Source(s) => Outcome(hasEmittedStartingValue, OnSignal(s));
      var rest := Steps(startingValue, first.hasEmittedStartingValue, events[1..]);
      Outcome(rest.hasEmittedStartingValue, first.actions + rest.actions)
  }

  /** What the events would cause without any starting value: a source
      subscription per subscription and each source signal passed on. */
  function Plain<T>(events: seq<Event<T>>): (actions: seq<Action<T>>)
    ensures |actions| == |events|
    ensures forall i :: 0 <= i < |events| ==>
      actions[i] == if events[i].Subscribe? then SubscribeSource else Forward(events[i].signal)
    decreases |events|
  {
    if events == [] then []
    else [if events[0].Subscribe? then SubscribeSource else Forward(events[0].signal)] + Plain(events[1..])
  }

  lemma PlainAppend<T>(a: seq<Event<T>>, b: seq<Event<T>>)
    ensures Plain(a + b) == Plain(a) + Plain(b)
  {
  }

  /** Once the flag is set, the derived Observables add nothing: every later
      subscription only subscribes to its source, and every source signal is
      passed on unchanged. */
  lemma {:induction false} SetFlagAddsNothing<T>(startingValue: T, events: seq<Event<T>>)
    ensures Steps(startingValue, true, events) == Outcome(true, Plain(events))
    decreases |events|
  {
    if events != [] {
      SetFlagAddsNothing(startingValue, events[1..]);
      assert Plain(events) == Plain([events[0]]) + Plain(events[1..]) by {
        assert events == [events[0]] + events[1..];
        PlainAppend([events[0]], events[1..]);
      }
    }
  }

  /** With the flag still clear, the starting value is emitted exactly once,
      right before the source subscription of the first subscription made
      (and never if nothing subscribes); everything else is as without it. */
  lemma {:induction false} SeedBeforeFirstSubscription<T>(startingValue: T, events: seq<Event<T>>, k: nat)
    requires k < |events| && events[k].Subscribe?
    requires forall i :: 0 <= i < k ==> events[i].Source?
    ensures Steps(startingValue, false, events)
      == Outcome(true, Plain(events[..k]) + [Forward(Next(startingValue))] + Plain(events[k..]))
    decreases k
  {
    var seed := [Forward(Next(startingValue))];
    if k == 0 {
      SeedAtFirstEvent(startingValue, events);
    } else {
      SeedBeforeFirstSubscription(startingValue, events[1..], k - 1);
      var p := Plain(events[1..][..k - 1]);
      var q := Plain(events[1..][k - 1..]);
      var head := [Forward(events[0].signal)];
      SourceThenSteps(startingValue, events, p + seed + q);
      PlainSplit(events, k);
      assert head + (p + seed + q) == (head + p) + seed + q;
    }
  }

  /** A subscription as the very first event: the seed, then the source
      subscription, and nothing more from then on. */
  lemma SeedAtFirstEvent<T>(startingValue: T, events: seq<Event<T>>)
    requires 0 < |events| && events[0].Subscribe?
    ensures Steps(startingValue, false, events)
      == Outcome(true, Plain(events[..0]) + [Forward(Next(startingValue))] + Plain(events[0..]))
  {
    var seed := [Forward(Next(startingValue))];
    var later := Plain(events[1..]);
    SetFlagAddsNothing(startingValue, events[1..]);
    assert Steps(startingValue, false, events) == Outcome(true, seed + [SubscribeSource] + later);
    assert Plain(events) == [SubscribeSource] + later;
    assert events[..0] == [] && events[0..] == events;
    assert seed + [SubscribeSource] + later == [] + seed + ([SubscribeSource] + later);
  }

  /** A source signal ahead of everything else is passed on and leaves the
      flag as it was. */
  lemma SourceThenSteps<T>(startingValue: T, events: seq<Event<T>>, later: seq<Action<T>>)
    requires 0 < |events| && events[0].Source?
    requires Steps(startingValue, false, events[1..]) == Outcome(true, later)
    ensures Steps(startingValue, false, events) == Outcome(true, [Forward(events[0].signal)] + later)
  {
  }

  lemma PlainSplit<T>(events: seq<Event<T>>, k: nat)
    requires 0 < k < |events| && events[0].Source?
    ensures Plain(events[..k]) == [Forward(events[0].signal)] + Plain(events[1..][..k - 1])
    ensures Plain(events[k..]) == Plain(events[1..][k - 1..])
  {
    assert events[1..][..k - 1] == events[1..k];
    assert events[1..][k - 1..] == events[k..];
    assert events[..k] == [events[0]] + events[1..k];
    PlainAppend([events[0]], events[1..k]);
  }

  /** With the flag still clear and no subscription at all, nothing is added. */
  lemma {:induction false} NoSubscriptionNoSeed<T>(startingValue: T, events: seq<Event<T>>)
    requires forall i :: 0 <= i < |events| ==> events[i].Source?
    ensures Steps(startingValue, false, events) == Outcome(false, Plain(events))
    decreases |events|
  {
    if events != [] {
      NoSubscriptionNoSeed(startingValue, events[1..]);
      assert Plain(events) == [Forward(events[0].signal)] + Plain(events[1..]);
    }
  }

  /** The first subscription through a fresh startWith(x) to a source that
      sends the trace: x first, then the source's signals unchanged and in
      order. */
  lemma FirstSubscriptionStream<T>(startingValue: T, trace: seq<Signal<T>>)
    ensures Forwarded(Steps(startingValue, false, [Subscribe] + Sources(trace)).actions)
      == [Next(startingValue)] + trace
  {
    FirstSubscriptionActions(startingValue, trace);
    ForwardedAppend([Forward(Next(startingValue)), SubscribeSource], Forwards(trace));
    ForwardedForwards(trace);
  }

  lemma FirstSubscriptionActions<T>(startingValue: T, trace: seq<Signal<T>>)
    ensures Steps(startingValue, false, [Subscribe] + Sources(trace)).actions
      == [Forward(Next(startingValue)), SubscribeSource] + Forwards(trace)
  {
    var events := [Subscribe] + Sources(trace);
    assert events[0] == Subscribe && events[1..] == Sources(trace);
    SetFlagAddsNothing(startingValue, Sources(trace));
    PlainOfSources(trace);
  }

  function Sources<T>(trace: seq<Signal<T>>): (events: seq<Event<T>>)
    ensures |events| == |trace|
    ensures forall i :: 0 <= i < |trace| ==> events[i] == Source(trace[i])
    decreases |trace|
  {
    if trace == [] then [] else [Source(trace[0])] + Sources(trace[1..])
  }

  lemma PlainOfSources<T>(trace: seq<Signal<T>>)
    ensures Plain(Sources(trace)) == Forwards(trace)
  {
  }

  /** The state startWith(startingValue) creates once, in the factory's scope. */
  class StartWith<T> {
    const startingValue: T
    var hasEmittedStartingValue: bool

    /** startWith(startingValue): the flag starts clear. */
    constructor (startingValue: T)
      ensures this.startingValue == startingValue && !hasEmittedStartingValue
    {
      this.startingValue := startingValue;
      hasEmittedStartingValue := false;
    }

    /** One invocation of a producer built from this operator value, up to the
        subscription to its source. */
    method Produce() returns (actions: seq<Action<T>>)
      modifies this
      ensures Outcome(hasEmittedStartingValue, actions) == Prologue(startingValue, old(hasEmittedStartingValue))
    {
      actions := [];
      if hasEmittedStartingValue == false {
        hasEmittedStartingValue := true;
        actions := actions + [Forward(Next(startingValue))];
      }
      actions := actions + [SubscribeSource];
    }
  }
}
