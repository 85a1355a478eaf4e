/** map(transformationFn): the derived Observable's producer subscribes to the
    source with a consumer that forwards next(f(v)) for every next(v) and passes
    error() and completed() on unchanged. It keeps no state. */
module MapOperator {
  import opened Signals

  /** The signal the consumer forwards for one source signal. */
  function Mapped<T, R>(f: T -> R, s: Signal<T>): Signal<R> {
    match s
    case Next(v) => Next(f(v))
    case Error(e) => Error(e)
    case Completed => Completed
  }

  /** The consumer map() subscribes to its source with. */
  function OnSignal<T, R>(f: T -> R, s: Signal<T>): (out: seq<Action<R>>)
    ensures s.Next? ==> out == [Forward(Next(f(s.value)))]
    ensures s.Error? ==> out == [Forward(Error(s.error))]
    ensures s.Completed? ==> out == [Forward(Completed)]
  {
    [Forward(Mapped(f, s))]
  }

  /** The consumer's actions for a whole source trace, in order. */
  function OnSignals<T, R>(f: T -> R, trace: seq<Signal<T>>): seq<Action<R>>
    decreases |trace|
  {
    if trace == [] then [] else OnSignal(f, trace[0]) + OnSignals(f, trace[1..])
  }

  /** Exactly one forwarded signal per source signal, at the same position:
      next(v) becomes next(f(v)) and terminal signals are unchanged. */
  lemma {:induction false} ForwardsOnePerSignal<T, R>(f: T -> R, trace: seq<Signal<T>>)
    ensures |Forwarded(OnSignals(f, trace))| == |trace|
    ensures forall i :: 0 <= i < |trace| ==>
      var out := Forwarded(OnSignals(f, trace))[i];
      && (trace[i].Next? ==> out == Next(f(trace[i].value)))
      && (trace[i].Error? ==> out == Error(trace[i].error))
      && (trace[i].Completed? ==> out == Completed)
    ensures forall a :: a in OnSignals(f, trace) ==> a.Forward?
    decreases |trace|
  {
    if trace != [] {
      ForwardsOnePerSignal(f, trace[1..]);
      ForwardedAppend(OnSignal(f, trace[0]), OnSignals(f, trace[1..]));
      var rest := Forwarded(OnSignals(f, trace[1..]));
      assert Forwarded(OnSignals(f, trace)) == [Mapped(f, trace[0])] + rest;
      forall i | 0 < i < |trace|
        ensures Forwarded(OnSignals(f, trace))[i] == rest[i - 1]
      {
      }
    }
  }

  /** The forwarded values are the source values mapped by f, in order, and
      there are as many of them as there were source values. */
  lemma {:induction false} ForwardsMappedValues<T, R>(f: T -> R, trace: seq<Signal<T>>)
    ensures |Values(Forwarded(OnSignals(f, trace)))| == |Values(trace)|
    ensures forall i :: 0 <= i < |Values(trace)| ==> Values(Forwarded(OnSignals(f, trace)))[i] == f(Values(trace)[i])
    decreases |trace|
  {
    if trace != [] {
      ForwardsMappedValues(f, trace[1..]);
      ForwardedAppend(OnSignal(f, trace[0]), OnSignals(f, trace[1..]));
      var rest := Forwarded(OnSignals(f, trace[1..]));
      ValuesAppend([Mapped(f, trace[0])], rest);
    }
  }

  /** map(f) followed by map(g) forwards what map(g o f) forwards. */
  lemma {:induction false} MapThenMap<T, R, S>(f: T -> R, g: R -> S, trace: seq<Signal<T>>)
    ensures Forwarded(OnSignals(g, Forwarded(OnSignals(f, trace)))) == Forwarded(OnSignals(x => g(f(x)), trace))
    decreases |trace|
  {
    if trace != [] {
      var fgt := Forwarded(OnSignals(f, trace));
      ForwardedAppend(OnSignal(f, trace[0]), OnSignals(f, trace[1..]));
      assert fgt == [Mapped(f, trace[0])] + Forwarded(OnSignals(f, trace[1..]));
      assert fgt[1..] == Forwarded(OnSignals(f, trace[1..]));
      ForwardedAppend(OnSignal(g, fgt[0]), OnSignals(g, fgt[1..]));
      ForwardedAppend(OnSignal(x => g(f(x)), trace[0]), OnSignals(x => g(f(x)), trace[1..]));
      MapThenMap(f, g, trace[1..]);
    }
  }
}
