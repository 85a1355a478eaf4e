/** tap(diverterFn): the derived Observable's producer subscribes to the source
    with a consumer that deep-copies each value (structuredClone), calls the
    diverter on the copy and then forwards the original value. When the copy
    fails, it sends an error downstream instead, and neither calls the
    diverter nor forwards the value. error() and completed() pass unchanged. */
module TapOperator {
  import opened Signals

  /** What structuredClone does with one value: returns a deep copy, or throws
      (an exception whose text is `reason`). The runtime's cloning algorithm is
      outside code, so it is a parameter of the model. */
  datatype CloneOutcome<T> = Cloned(copy: T) | CloneFailed(reason: string)

  /** The error text sent downstream when the copy fails. */
  function CloneFailureMessage(reason: string): string {
    "tap operator could not clone received value: " + reason
  }

  /** The consumer tap() subscribes to its source with. */
  function OnSignal<T>(clone: T -> CloneOutcome<T>, s: Signal<T>): (out: seq<Action<T>>)
    ensures s.IsTerminal() ==> out == [Forward(s)]
    ensures s.Next? && clone(s.value).Cloned? ==> out == [Divert(clone(s.value).copy), Forward(s)]
    ensures s.Next? && clone(s.value).CloneFailed? ==>
      out == [Forward(Error(CloneFailureMessage(clone(s.value).reason)))]
  {
    match s
    case Next(v) =>
      (match clone(v)
       case CloneFailed(reason) => [Forward(Error(CloneFailureMessage(reason)))]
       case Cloned(copy) => [Divert(copy), Forward(Next(v))])
    case Error(e) => [Forward(Error(e))]
    case Completed => [Forward(Completed)]
  }

  function OnSignals<T>(clone: T -> CloneOutcome<T>, trace: seq<Signal<T>>): seq<Action<T>>
    decreases |trace|
  {
    if trace == [] then [] else OnSignal(clone, trace[0]) + OnSignals(clone, trace[1..])
  }

  /** The arguments the diverter was called with, in order. */
  function Diverted<T>(actions: seq<Action<T>>): seq<T>
    decreases |actions|
  {
    if actions == [] then []
    else (if actions[0].Divert? then [actions[0].argument] else []) + Diverted(actions[1..])
  }

  lemma {:induction false} DivertedAppend<T>(a: seq<Action<T>>, b: seq<Action<T>>)
    ensures Diverted(a + b) == Diverted(a) + Diverted(b)
    decreases |a|
  {
    if a == [] {
      assert a + b == b;
    } else {
      assert (a + b)[0] == a[0];
      assert (a + b)[1..] == a[1..] + b;
      DivertedAppend(a[1..], b);
    }
  }

  /** A next(v) whose value cannot be copied. */
  predicate Uncloneable<T>(clone: T -> CloneOutcome<T>, s: Signal<T>) {
    s.Next? && clone(s.value).CloneFailed?
  }

  /** One signal downstream per source signal, at the same position: the
      original signal itself, except that a value that cannot be copied turns
      into an error carrying the copy failure. */
  lemma {:induction false} ForwardsOriginals<T>(clone: T -> CloneOutcome<T>, trace: seq<Signal<T>>)
    ensures |Forwarded(OnSignals(clone, trace))| == |trace|
    ensures forall i :: 0 <= i < |trace| && !Uncloneable(clone, trace[i]) ==>
      Forwarded(OnSignals(clone, trace))[i] == trace[i]
    ensures forall i :: 0 <= i < |trace| && Uncloneable(clone, trace[i]) ==>
      Forwarded(OnSignals(clone, trace))[i] == Error(CloneFailureMessage(clone(trace[i].value).reason))
    decreases |trace|
  {
    if trace != [] {
      ForwardsOriginals(clone, trace[1..]);
      var head := OnSignal(clone, trace[0]);
      var rest := Forwarded(OnSignals(clone, trace[1..]));
      ForwardedAppend(head, OnSignals(clone, trace[1..]));
      assert |Forwarded(head)| == 1;
      forall i | 0 < i < |trace|
        ensures Forwarded(OnSignals(clone, trace))[i] == rest[i - 1]
      {
      }
    }
  }

  /** The diverter received, position by position, a copy of each value. */
  ghost predicate CopiesOf<T>(clone: T -> CloneOutcome<T>, values: seq<T>, diverted: seq<T>) {
    |diverted| == |values| && forall i :: 0 <= i < |values| ==> clone(values[i]) == Cloned(diverted[i])
  }

  /** When every value can be copied, tap is the identity on the stream, and
      the diverter is called once per value, on that value's copy, in order. */
  lemma {:induction false} ClonedStreamUnchanged<T>(clone: T -> CloneOutcome<T>, trace: seq<Signal<T>>)
    requires forall i :: 0 <= i < |trace| ==> !Uncloneable(clone, trace[i])
    ensures Forwarded(OnSignals(clone, trace)) == trace
    ensures |Diverted(OnSignals(clone, trace))| == |Values(trace)|
    ensures forall i :: 0 <= i < |Values(trace)| ==>
      clone(Values(trace)[i]) == Cloned(Diverted(OnSignals(clone, trace))[i])
    decreases |trace|
  {
    ForwardsOriginals(clone, trace);
    if trace != [] {
      ClonedStreamUnchanged(clone, trace[1..]);
      assert CopiesOf(clone, Values(trace[1..]), Diverted(OnSignals(clone, trace[1..])));
      DivertsCopiesCons(clone, trace);
      assert CopiesOf(clone, Values(trace), Diverted(OnSignals(clone, trace)));
    }
  }

  /** One signal in front of a trace whose values were all copied. */
  lemma DivertsCopiesCons<T>(clone: T -> CloneOutcome<T>, trace: seq<Signal<T>>)
    requires trace != [] && !Uncloneable(clone, trace[0])
    requires CopiesOf(clone, Values(trace[1..]), Diverted(OnSignals(clone, trace[1..])))
    ensures CopiesOf(clone, Values(trace), Diverted(OnSignals(clone, trace)))
  {
    var head := OnSignal(clone, trace[0]);
    var later := Diverted(OnSignals(clone, trace[1..]));
    DivertedAppend(head, OnSignals(clone, trace[1..]));
    assert trace == [trace[0]] + trace[1..];
    ValuesAppend([trace[0]], trace[1..]);
    if trace[0].Next? {
      var v := trace[0].value;
      assert Values([trace[0]]) == [v];
      assert Diverted(head) == [clone(v).copy];
      CopiesCons(clone, v, Values(trace[1..]), clone(v).copy, later);
    } else {
      assert Values([trace[0]]) == [];
      assert Diverted(head) == [];
    }
  }

  lemma CopiesCons<T>(clone: T -> CloneOutcome<T>, v: T, values: seq<T>, copy: T, diverted: seq<T>)
    requires clone(v) == Cloned(copy) && CopiesOf(clone, values, diverted)
    ensures CopiesOf(clone, [v] + values, [copy] + diverted)
  {
  }
}
