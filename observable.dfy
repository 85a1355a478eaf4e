/** The Observable: a cold stream that stores its producer, and on subscribe()
    wraps the caller's observer and the producer's cleanup in two guards that
    share one "unsubscribed" flag. Also pipe(), the left-to-right composition of
    operator stages.

    The producer and the caller's observer are outside code. The producer is
    modelled by what it does to the stoppable observer (the signals it emits
    while it runs, and later ones as separate events) and by the cleanup it
    returns; the caller's observer by the trace of calls it receives. */
module Observable {
  import opened Signals

  /** A cleanup function an Observable can hold: the no-op _cleanUpFn starts
      with, or the one its producer returned on its k-th invocation (k >= 1). */
  datatype CleanUp = NoOp | Returned(invocation: nat)

  /** The handle subscribe() returns. Its unsubscribe() is the stoppable
      version of the cleanup the producer returned in that call. */
  datatype Subscription = Subscription(cleanUp: CleanUp)

  /** The two fields both guards work on: _unsubscribed and _cleanUpFn. */
  datatype Guard = Guard(unsubscribed: bool, cleanUpFn: CleanUp)

  /** What one guarded call does: the guard afterwards, whether the call is
      passed on to the wrapped observer, and which cleanup it runs last. */
  datatype Reaction = Reaction(guard: Guard, passes: bool, runs: Option<CleanUp>)

  /** One call on the stoppable observer built by createStoppableObserver:
      next() passes while the flag is clear; error() and completed() pass only
      while it is clear, set it first, and run whatever _cleanUpFn holds. */
  function GuardSignal<T>(g: Guard, s: Signal<T>): Reaction {
    if g.unsubscribed then Reaction(g, false, None)
    else if s.IsTerminal() then Reaction(g.(unsubscribed := true), true, Some(g.cleanUpFn))
    else Reaction(g, true, None)
  }

  /** One call on the stoppable cleanup built by createStoppableCleanUpFn: it
      runs the cleanup captured at subscribe time, once, and sets the flag. */
  function GuardCleanUp(g: Guard, original: CleanUp): Reaction {
    if g.unsubscribed then Reaction(g, false, None)
    else Reaction(g.(unsubscribed := true), false, Some(original))
  }

  function RunList(runs: Option<CleanUp>): seq<CleanUp> {
    if runs.Some? then [runs.value] else []
  }

  /** Everything about one Observable instance that its methods change or
      that they make observable: the guard fields, how often the producer was
      invoked, the calls that reached the caller's observer(s) and the
      cleanups that were run, in order. */
  datatype State<T> = State(guard: Guard, invocations: nat, delivered: seq<Signal<T>>, cleanUpRuns: seq<CleanUp>)

  /** A newly constructed Observable: the producer is stored, not invoked. */
  function Constructed<T>(): State<T> {
    State(Guard(false, NoOp), 0, [], [])
  }

  function AfterSignal<T>(st: State<T>, s: Signal<T>): State<T> {
    var r := GuardSignal(st.guard, s);
    st.(guard := r.guard,
        delivered := st.delivered + (if r.passes then [s] else []),
        cleanUpRuns := st.cleanUpRuns + RunList(r.runs))
  }

  function AfterSignals<T>(st: State<T>, signals: seq<Signal<T>>): State<T>
    decreases |signals|
  {
    if signals == [] then st else AfterSignals(AfterSignal(st, signals[0]), signals[1..])
  }

  function AfterUnsubscribe<T>(st: State<T>, sub: Subscription): State<T> {
    var r := GuardCleanUp(st.guard, sub.cleanUp);
    st.(guard := r.guard, cleanUpRuns := st.cleanUpRuns + RunList(r.runs))
  }

  /** subscribe(): the producer is invoked once with the stoppable observer;
      the signals it emits while it runs go through the guard (and see the
      _cleanUpFn of before the call); what it returns becomes _cleanUpFn. */
  function AfterSubscribe<T>(st: State<T>, emitted: seq<Signal<T>>): State<T> {
    var invocation := st.invocations + 1;
    var during := AfterSignals(st.(invocations := invocation), emitted);
    during.(guard := during.guard.(cleanUpFn := Returned(invocation)))
  }

  /** Something outside code does to one Observable: subscribe to it (with the
      signals its producer emits while running), emit a signal later through a
      stoppable observer it was given, or call unsubscribe() on a handle. */
  datatype Event<T> = Subscribed(emitted: seq<Signal<T>>) | Emitted(signal: Signal<T>) | Unsubscribed(sub: Subscription)

  function AfterEvent<T>(st: State<T>, e: Event<T>): State<T> {
    match e
    case Subscribed(emitted) => AfterSubscribe(st, emitted)
    case Emitted(s) => AfterSignal(st, s)
    case Unsubscribed(sub) => AfterUnsubscribe(st, sub)
  }

  function AfterEvents<T>(st: State<T>, events: seq<Event<T>>): State<T>
    decreases |events|
  {
    if events == [] then st else AfterEvents(AfterEvent(st, events[0]), events[1..])
  }

  /** The invariant the shared flag maintains: the caller's observer receives
      nothing after a terminal call, a terminal call sets the flag, exactly one
      cleanup has run once the flag is set and none before, and _cleanUpFn is
      the no-op or the cleanup of a producer invocation that has happened. */
  ghost predicate Consistent<T>(st: State<T>) {
    && StopsAtTerminal(st.delivered)
    && (Ended(st.delivered) ==> st.guard.unsubscribed)
    && |st.cleanUpRuns| == (if st.guard.unsubscribed then 1 else 0)
    && (st.guard.cleanUpFn.Returned? ==> 1 <= st.guard.cleanUpFn.invocation <= st.invocations)
  }

  lemma ConstructedConsistent<T>()
    ensures Consistent(Constructed<T>())
    ensures Constructed<T>().invocations == 0 && Constructed<T>().delivered == []
  {
  }

  lemma SignalConsistent<T>(st: State<T>, s: Signal<T>)
    requires Consistent(st)
    ensures Consistent(AfterSignal(st, s))
  {
    var st' := AfterSignal(st, s);
    if !st.guard.unsubscribed {
      assert st'.delivered == st.delivered + [s];
      assert !Ended(st.delivered);
      forall i | 0 <= i < |st'.delivered| - 1
        ensures !st'.delivered[i].IsTerminal()
      {
        assert st'.delivered[i] == st.delivered[i];
      }
    }
  }

  lemma {:induction false} SignalsConsistent<T>(st: State<T>, signals: seq<Signal<T>>)
    requires Consistent(st)
    ensures Consistent(AfterSignals(st, signals))
    decreases |signals|
  {
    if signals != [] {
      SignalConsistent(st, signals[0]);
      SignalsConsistent(AfterSignal(st, signals[0]), signals[1..]);
    }
  }

  lemma {:induction false} SignalsKeepInvocations<T>(st: State<T>, signals: seq<Signal<T>>)
    ensures AfterSignals(st, signals).invocations == st.invocations
    ensures AfterSignals(st, signals).guard.cleanUpFn == st.guard.cleanUpFn
    decreases |signals|
  {
    if signals != [] {
      SignalsKeepInvocations(AfterSignal(st, signals[0]), signals[1..]);
    }
  }

  lemma EventConsistent<T>(st: State<T>, e: Event<T>)
    requires Consistent(st)
    ensures Consistent(AfterEvent(st, e))
  {
    match e
    case Subscribed(emitted) =>
      var start := st.(invocations := st.invocations + 1);
      SignalsConsistent(start, emitted);
      SignalsKeepInvocations(start, emitted);
    case Emitted(s) =>
      SignalConsistent(st, s);
    case Unsubscribed(sub) =>
  }

  /** Whatever outside code does to an Observable, starting from construction,
      the shared flag keeps the observer contract and runs at most one cleanup. */
  lemma {:induction false} EventsConsistent<T>(st: State<T>, events: seq<Event<T>>)
    requires Consistent(st)
    ensures Consistent(AfterEvents(st, events))
    decreases |events|
  {
    if events != [] {
      EventConsistent(st, events[0]);
      EventsConsistent(AfterEvent(st, events[0]), events[1..]);
    }
  }

  /** Termination is monotonic: after a terminal call reached the observer, or
      after unsubscribe(), no event delivers anything or runs any cleanup. */
  lemma {:induction false} ClosedStaysSilent<T>(st: State<T>, events: seq<Event<T>>)
    requires st.guard.unsubscribed
    ensures AfterEvents(st, events).guard.unsubscribed
    ensures AfterEvents(st, events).delivered == st.delivered
    ensures AfterEvents(st, events).cleanUpRuns == st.cleanUpRuns
    decreases |events|
  {
    if events != [] {
      var next := AfterEvent(st, events[0]);
      if events[0].Subscribed? {
        ClosedSignalsSilent(st.(invocations := st.invocations + 1), events[0].emitted);
      }
      ClosedStaysSilent(next, events[1..]);
    }
  }

  lemma {:induction false} ClosedSignalsSilent<T>(st: State<T>, signals: seq<Signal<T>>)
    requires st.guard.unsubscribed
    ensures AfterSignals(st, signals) == st
    decreases |signals|
  {
    if signals != [] {
      ClosedSignalsSilent(AfterSignal(st, signals[0]), signals[1..]);
    }
  }

  /** A stream that has reached its terminal call leaves the flag set. */
  lemma EndedIsClosed<T>(st: State<T>, events: seq<Event<T>>)
    requires Consistent(st)
    ensures Ended(AfterEvents(st, events).delivered) ==> AfterEvents(st, events).guard.unsubscribed
  {
    EventsConsistent(st, events);
  }

  function Repeat<X>(x: X, n: nat): (r: seq<X>)
    ensures |r| == n && forall i :: 0 <= i < n ==> r[i] == x
  {
    if n == 0 then [] else [x] + Repeat(x, n - 1)
  }

  /** unsubscribe() called n+1 times in a row has the effect of one call. */
  lemma {:induction false} RepeatedUnsubscribe<T>(st: State<T>, sub: Subscription, n: nat)
    ensures AfterEvents(st, Repeat(Unsubscribed(sub), n + 1)) == AfterUnsubscribe(st, sub)
  {
    var once := AfterUnsubscribe(st, sub);
    assert Repeat(Unsubscribed(sub), n + 1)[1..] == Repeat<Event<T>>(Unsubscribed(sub), n);
    ClosedStaysSilent(once, Repeat(Unsubscribed(sub), n));
    RepeatedClosed(once, sub, n);
  }

  lemma {:induction false} RepeatedClosed<T>(st: State<T>, sub: Subscription, n: nat)
    requires st.guard.unsubscribed
    ensures AfterEvents(st, Repeat(Unsubscribed(sub), n)) == st
    decreases n
  {
    if n > 0 {
      var events := Repeat<Event<T>>(Unsubscribed(sub), n);
      assert events[1..] == Repeat<Event<T>>(Unsubscribed(sub), n - 1);
      assert AfterEvent(st, events[0]) == st;
      RepeatedClosed(st, sub, n - 1);
    }
  }

  /** While the flag is clear, the stoppable observer passes the signals of a
      script up to and including the first terminal one, and nothing after. */
  lemma {:induction false} OpenDeliversCut<T>(st: State<T>, signals: seq<Signal<T>>)
    requires !st.guard.unsubscribed
    ensures AfterSignals(st, signals).delivered == st.delivered + Cut(signals)
    decreases |signals|
  {
    if signals != [] {
      var next := AfterSignal(st, signals[0]);
      if signals[0].IsTerminal() {
        ClosedSignalsSilent(next, signals[1..]);
      } else {
        OpenDeliversCut(next, signals[1..]);
        assert Cut(signals) == [signals[0]] + Cut(signals[1..]);
      }
    }
  }

  /** A terminal call emitted by the producer while subscribe() is still
      running it ends the stream and runs the cleanup of before the call (the
      no-op on a first subscription); the cleanup this invocation returns is
      stored but can never run afterwards, whatever happens next. */
  lemma SynchronousTerminalStrandsCleanUp<T>(st: State<T>, emitted: seq<Signal<T>>, k: nat, events: seq<Event<T>>)
    requires Consistent(st) && !st.guard.unsubscribed
    requires k < |emitted| && emitted[k].IsTerminal()
    ensures AfterSubscribe(st, emitted).cleanUpRuns == [st.guard.cleanUpFn]
    ensures Returned(st.invocations + 1) !in AfterEvents(AfterSubscribe(st, emitted), events).cleanUpRuns
  {
    var start := st.(invocations := st.invocations + 1);
    var during := AfterSignals(start, emitted);
    OpenDeliversCut(start, emitted);
    assert Ended(during.delivered) by {
      assert exists i :: 0 <= i < |emitted| && emitted[i].IsTerminal();
    }
    SignalsConsistent(start, emitted);
    SignalsKeepInvocations(start, emitted);
    assert during.guard.unsubscribed;
    assert |st.cleanUpRuns| == 0;
    ClosedRunsOnlyGuardCleanUp(start, emitted);
    var after := AfterSubscribe(st, emitted);
    ClosedStaysSilent(after, events);
  }

  lemma {:induction false} ClosedRunsOnlyGuardCleanUp<T>(st: State<T>, signals: seq<Signal<T>>)
    requires !st.guard.unsubscribed
    ensures AfterSignals(st, signals).cleanUpRuns == st.cleanUpRuns
         || AfterSignals(st, signals).cleanUpRuns == st.cleanUpRuns + [st.guard.cleanUpFn]
    decreases |signals|
  {
    if signals != [] {
      var next := AfterSignal(st, signals[0]);
      if signals[0].IsTerminal() {
        ClosedSignalsSilent(next, signals[1..]);
      } else {
        ClosedRunsOnlyGuardCleanUp(next, signals[1..]);
      }
    }
  }

  /** The flag is never cleared: subscribing again to a terminated or
      unsubscribed Observable invokes the producer and stores its cleanup, but
      delivers nothing, and unsubscribe() on the new handle does nothing. */
  lemma ResubscribeAfterClose<T>(st: State<T>, emitted: seq<Signal<T>>)
    requires st.guard.unsubscribed
    ensures AfterSubscribe(st, emitted).invocations == st.invocations + 1
    ensures AfterSubscribe(st, emitted).guard == Guard(true, Returned(st.invocations + 1))
    ensures AfterSubscribe(st, emitted).delivered == st.delivered
    ensures AfterSubscribe(st, emitted).cleanUpRuns == st.cleanUpRuns
    ensures AfterUnsubscribe(AfterSubscribe(st, emitted), Subscription(Returned(st.invocations + 1))) == AfterSubscribe(st, emitted)
  {
    ClosedSignalsSilent(st.(invocations := st.invocations + 1), emitted);
  }

  /** A mutable Observable instance. Its fields are the library's private
      fields (_unsubscribed, _cleanUpFn), the number of producer invocations
      (which tells apart the cleanup functions they return) and, for the
      model, what reached the outside. Next, Error and
      Completed are the three functions of the stoppable observer that
      subscribe() hands to the producer; Unsubscribe is the stoppable cleanup
      returned inside the Subscription. */
  class Observable<T> {
    var unsubscribed: bool
    var cleanUpFn: CleanUp
    var invocations: nat
    var delivered: seq<Signal<T>>
    var cleanUpRuns: seq<CleanUp>

    function Model(): State<T>
      reads this
    {
      State(Guard(unsubscribed, cleanUpFn), invocations, delivered, cleanUpRuns)
    }

    /** Stores the producer; does not invoke it. */
    constructor ()
      ensures Model() == Constructed()
      ensures invocations == 0 && delivered == []
    {
      unsubscribed := false;
      cleanUpFn := NoOp;
      invocations := 0;
      delivered := [];
      cleanUpRuns := [];
    }

    method Next(v: T)
      modifies this
      ensures Model() == AfterSignal(old(Model()), Signal.Next(v))
      ensures old(unsubscribed) ==> unchanged(this)
      ensures !old(unsubscribed) ==> delivered == old(delivered) + [Signal.Next(v)] && cleanUpRuns == old(cleanUpRuns)
    {
      if unsubscribed {
        return;
      }
      delivered := delivered + [Signal.Next(v)];
    }

    method Error(e: string)
      modifies this
      ensures Model() == AfterSignal(old(Model()), Signal.Error(e))
      ensures old(unsubscribed) ==> unchanged(this)
      ensures !old(unsubscribed) ==> unsubscribed && delivered == old(delivered) + [Signal.Error(e)]
      ensures !old(unsubscribed) ==> cleanUpRuns == old(cleanUpRuns) + [old(cleanUpFn)]
    {
      if unsubscribed {
        return;
      }
      unsubscribed := true;
      delivered := delivered + [Signal.Error(e)];
      cleanUpRuns := cleanUpRuns + [cleanUpFn];
    }

    method Completed()
      modifies this
      ensures Model() == AfterSignal(old(Model()), Signal.Completed)
      ensures old(unsubscribed) ==> unchanged(this)
      ensures !old(unsubscribed) ==> unsubscribed && delivered == old(delivered) + [Signal.Completed]
      ensures !old(unsubscribed) ==> cleanUpRuns == old(cleanUpRuns) + [old(cleanUpFn)]
    {
      if unsubscribed {
        return;
      }
      unsubscribed := true;
      delivered := delivered + [Signal.Completed];
      cleanUpRuns := cleanUpRuns + [cleanUpFn];
    }

    /** Invokes the producer exactly once; `emitted` is what the producer
        emits through the stoppable observer before it returns its cleanup. */
    method Subscribe(emitted: seq<Signal<T>>) returns (sub: Subscription)
      modifies this
      ensures Model() == AfterSubscribe(old(Model()), emitted)
      ensures invocations == old(invocations) + 1
      ensures cleanUpFn == Returned(invocations) && sub == Subscription(cleanUpFn)
    {
      invocations := invocations + 1;
      ghost var start := Model();
      var i := 0;
      while i < |emitted|
        invariant 0 <= i <= |emitted|
        invariant AfterSignals(Model(), emitted[i..]) == AfterSignals(start, emitted)
        decreases |emitted| - i
      {
        assert emitted[i..][1..] == emitted[i + 1..];
        match emitted[i] {
          case Next(v) => this.Next(v);
          case Error(e) => this.Error(e);
          case Completed => this.Completed();
        }
        i := i + 1;
      }
      assert emitted[i..] == [];
      SignalsKeepInvocations(start, emitted);
      cleanUpFn := Returned(invocations);
      sub := Subscription(cleanUpFn);
    }

    method Unsubscribe(sub: Subscription)
      modifies this
      ensures Model() == AfterUnsubscribe(old(Model()), sub)
      ensures old(unsubscribed) ==> unchanged(this)
      ensures !old(unsubscribed) ==> unsubscribed && cleanUpRuns == old(cleanUpRuns) + [sub.cleanUp]
      ensures delivered == old(delivered)
    {
      if unsubscribed {
        return;
      }
      unsubscribed := true;
      cleanUpRuns := cleanUpRuns + [sub.cleanUp];
    }
  }

  /** pipe(f1, ..., fn): Array.reduce over the operator functions, starting
      from the Observable itself, so f1 is applied first and fn last. */
  function Pipe<O>(source: O, operatorFns: seq<O -> O>): O
    decreases |operatorFns|
  {
    if operatorFns == [] then source else Pipe(operatorFns[0](source), operatorFns[1..])
  }

  /** The last operator function passed to pipe() is applied last, to what
      the others made of the source. */
  lemma PipeLast<O>(source: O, operatorFns: seq<O -> O>)
    requires operatorFns != []
    ensures Pipe(source, operatorFns)
         == operatorFns[|operatorFns| - 1](Pipe(source, operatorFns[..|operatorFns| - 1]))
  {
    var n := |operatorFns|;
    var last := operatorFns[n - 1];
    assert operatorFns == operatorFns[..n - 1] + [last];
    PipeConcat(source, operatorFns[..n - 1], [last]);
    assert [last][1..] == [];
  }

  /** Piping in two steps is piping once through all the stages, in order. */
  lemma {:induction false} PipeConcat<O>(source: O, first: seq<O -> O>, second: seq<O -> O>)
    ensures Pipe(source, first + second) == Pipe(Pipe(source, first), second)
    decreases |first|
  {
    if first != [] {
      assert (first + second)[1..] == first[1..] + second;
      PipeConcat(first[0](source), first[1..], second);
    } else {
      assert first + second == second;
    }
  }
}
