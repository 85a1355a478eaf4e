/** filter(predicateFn): the derived Observable's producer subscribes to the
    source with a consumer that forwards next(v) unchanged exactly when the
    predicate holds of v, and passes error() and completed() on unchanged. */
module FilterOperator {
  import opened Signals

  /** The consumer filter() subscribes to its source with. */
  function OnSignal<T>(p: T -> bool, s: Signal<T>): (out: seq<Action<T>>)
    ensures s.IsTerminal() ==> out == [Forward(s)]
    ensures s.Next? ==> (out == [Forward(s)] <==> p(s.value)) && (out == [] <==> !p(s.value))
  {
    match s
    case Next(v) => if p(v) then [Forward(Next(v))] else []
    case Error(e) => [Forward(Error(e))]
    case Completed => [Forward(Completed)]
  }

  function OnSignals<T>(p: T -> bool, trace: seq<Signal<T>>): seq<Action<T>>
    decreases |trace|
  {
    if trace == [] then [] else OnSignal(p, trace[0]) + OnSignals(p, trace[1..])
  }

  /** The values of vs that satisfy p, in order: an independent statement of
      what filtering a sequence means. */
  function Select<T>(p: T -> bool, vs: seq<T>): (r: seq<T>)
    ensures |r| <= |vs|
    decreases |vs|
  {
    if vs == [] then [] else (if p(vs[0]) then [vs[0]] else []) + Select(p, vs[1..])
  }

  /** Select keeps every value p accepts as often as it occurs, and nothing else. */
  lemma {:induction false} SelectCounts<T>(p: T -> bool, vs: seq<T>)
    ensures forall x :: x in Select(p, vs) ==> x in vs && p(x)
    ensures forall x :: x in vs ==> multiset(Select(p, vs))[x] == if p(x) then multiset(vs)[x] else 0
    decreases |vs|
  {
    if vs != [] {
      SelectCounts(p, vs[1..]);
      var rest := Select(p, vs[1..]);
      assert vs == [vs[0]] + vs[1..];
      assert multiset(vs) == multiset([vs[0]]) + multiset(vs[1..]);
      if p(vs[0]) {
        assert multiset([vs[0]] + rest) == multiset([vs[0]]) + multiset(rest);
      }
    }
  }

  lemma SelectCons<T>(p: T -> bool, v: T, vs: seq<T>)
    ensures Select(p, [v] + vs) == (if p(v) then [v] else []) + Select(p, vs)
  {
    assert ([v] + vs)[1..] == vs;
  }

  /** The forwarded values are exactly the source values the predicate
      accepts, unchanged and in order; every action is a forward. */
  lemma {:induction false} ForwardsSelected<T>(p: T -> bool, trace: seq<Signal<T>>)
    ensures Values(Forwarded(OnSignals(p, trace))) == Select(p, Values(trace))
    ensures forall a :: a in OnSignals(p, trace) ==> a.Forward?
    decreases |trace|
  {
    if trace != [] {
      var head := OnSignal(p, trace[0]);
      var tail := OnSignals(p, trace[1..]);
      ForwardsSelected(p, trace[1..]);
      ForwardedAppend(head, tail);
      ValuesAppend(Forwarded(head), Forwarded(tail));
      assert trace == [trace[0]] + trace[1..];
      ValuesAppend([trace[0]], trace[1..]);
      if trace[0].Next? {
        var v := trace[0].value;
        assert Values([trace[0]]) == [v];
        SelectCons(p, v, Values(trace[1..]));
        if p(v) {
          assert Forwarded(head) == [trace[0]];
        } else {
          assert Forwarded(head) == [];
        }
      } else {
        assert Values([trace[0]]) == [];
        assert Forwarded(head) == [trace[0]];
        assert Values(Forwarded(head)) == [];
        assert Values(trace) == Values(trace[1..]);
        assert Values(Forwarded(head + tail)) == Values(Forwarded(tail));
      }
    }
  }

  /** The filtered stream never carries more values than its source. */
  lemma NoMoreValuesThanSource<T>(p: T -> bool, trace: seq<Signal<T>>)
    ensures |Values(Forwarded(OnSignals(p, trace)))| <= |Values(trace)|
  {
    ForwardsSelected(p, trace);
  }
}
