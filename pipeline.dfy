/** One subscription to an Observable built by pipe(): the source Observable
    (level 0) and, for each operator stage i, the Observable that stage
    derived from level i (level i + 1). Subscribing to the last level runs
    every producer in turn, from the last level down to the source's; each
    derived producer subscribes to the level below it with its operator's
    consumer and returns "unsubscribe from the level below" as its cleanup.

    Every level keeps its own stoppable observer and stoppable cleanup, with
    the same guard semantics as a single Observable. The operator consumers
    are the ones of the operator modules, so the chain is built from them.

    An exception is possible in the library (a ReferenceError under an
    ES2015 or later target): take's consumer calls unsubscribe() on its
    source subscription, and if the limit is reached
    while the source is still being subscribed (a value emitted
    synchronously, e.g. a starting value from startWith below it), that
    `const` is not yet initialised. The model records that as `thrown`, and
    from then on the chain stays as it is: the exception is taken as the end
    of the program, for the call that threw and every later event alike. */
module Pipeline {
  import opened Signals
  import Observable
  import MapOperator
  import FilterOperator
  import TapOperator
  import SkipOperator
  import TakeOperator
  import StartWithOperator

  /** One operator function passed to pipe(). All stages are over one value
      type; map's transformation is T -> T here. */
  datatype Stage<!T> =
    | Map(transformation: T -> T)
    | Filter(predicateFn: T -> bool)
    | Tap(clone: T -> TapOperator.CloneOutcome<T>)
    | Skip(skipLimit: int)
    | Take(takeLimit: int)
    | StartWith(startingValue: T)

  /** The factory-scoped state of one stage: the emission counter of skip and
      take, the flag of startWith. Stages use only their own field. */
  datatype Memory = Memory(emissionCounter: int, hasEmittedStartingValue: bool)

  /** What the chain does that code outside it can see, in order: a call on
      the subscriber's observer, a run of the source producer's cleanup, or a
      call of a tap diverter. */
  datatype Effect<T> = Delivered(signal: Signal<T>) | ProducerCleanUp | DiverterCalled(argument: T)

  /** guards[j]: the _unsubscribed and _cleanUpFn of level j (Returned once its
      producer has returned); memory[i]: stage i's factory state; linked[i]:
      whether stage i's subscriptionToSource$ has been initialised. */
  datatype Chain<T> = Chain(guards: seq<Observable.Guard>, memory: seq<Memory>, linked: seq<bool>,
                            log: seq<Effect<T>>, thrown: bool)

  predicate WellFormed<T>(stages: seq<Stage<T>>, c: Chain<T>) {
    |c.guards| == |stages| + 1 && |c.memory| == |stages| && |c.linked| == |stages|
  }

  /** The calls the subscriber's observer received, in order. */
  function Sink<T>(log: seq<Effect<T>>): (trace: seq<Signal<T>>)
    ensures |trace| <= |log|
  {
    if log == [] then []
    else Sink(log[..|log| - 1]) + (if log[|log| - 1].Delivered? then [log[|log| - 1].signal] else [])
  }

  /** How many times the source producer's cleanup ran. */
  function CleanUps<T>(log: seq<Effect<T>>): (n: nat)
    ensures n <= |log|
  {
    if log == [] then 0
    else CleanUps(log[..|log| - 1]) + (if log[|log| - 1].ProducerCleanUp? then 1 else 0)
  }

  lemma LogAppend<T>(log: seq<Effect<T>>, e: Effect<T>)
    ensures Sink(log + [e]) == Sink(log) + (if e.Delivered? then [e.signal] else [])
    ensures CleanUps(log + [e]) == CleanUps(log) + (if e.ProducerCleanUp? then 1 else 0)
  {
    assert (log + [e])[..|log|] == log;
  }

  /** What the library guarantees at every quiet point: the subscriber's
      observer gets nothing after a terminal call, and the source producer's
      cleanup has run at most once, and only once the source level is
      unsubscribed. */
  ghost predicate Invariant<T>(stages: seq<Stage<T>>, c: Chain<T>)
    requires WellFormed(stages, c)
  {
    && StopsAtTerminal(Sink(c.log))
    && (Ended(Sink(c.log)) ==> c.guards[|stages|].unsubscribed)
    && CleanUps(c.log) <= (if c.guards[0].unsubscribed then 1 else 0)
  }

  /** What every step of the chain respects: effects are only appended, flags
      are only set, no stored cleanup or subscription changes, and after a
      throw nothing happens. */
  ghost predicate Keeps<T>(stages: seq<Stage<T>>, c: Chain<T>, r: Chain<T>) {
    && WellFormed(stages, r)
    && |c.guards| == |r.guards|
    && c.log <= r.log
    && r.linked == c.linked
    && r.thrown == (c.thrown || r.thrown)
    && (c.thrown ==> r == c)
    && (forall k :: 0 <= k < |c.guards| ==> r.guards[k].cleanUpFn == c.guards[k].cleanUpFn)
    && (forall k :: 0 <= k < |c.guards| && c.guards[k].unsubscribed ==> r.guards[k].unsubscribed)
  }

  function Close<T>(c: Chain<T>, j: nat): (r: Chain<T>)
    requires j < |c.guards|
    ensures r.guards == c.guards[j := c.guards[j].(unsubscribed := true)]
    ensures r.log == c.log && r.memory == c.memory && r.linked == c.linked && r.thrown == c.thrown
  {
    c.(guards := c.guards[j := c.guards[j].(unsubscribed := true)])
  }

  /** The chain after one more visible effect. */
  function Record<T>(c: Chain<T>, e: Effect<T>): (r: Chain<T>)
    ensures r == c.(log := c.log + [e])
    ensures Sink(r.log) == Sink(c.log) + (if e.Delivered? then [e.signal] else [])
    ensures CleanUps(r.log) == CleanUps(c.log) + (if e.ProducerCleanUp? then 1 else 0)
  {
    LogAppend(c.log, e);
    c.(log := c.log + [e])
  }

  /** A call on level j's stoppable observer: ignored once the level is
      unsubscribed; a terminal call sets the flag, is passed on, and then
      runs the level's stored cleanup. */
  function Deliver<T>(stages: seq<Stage<T>>, j: nat, s: Signal<T>, c: Chain<T>): (r: Chain<T>)
    requires j <= |stages| && WellFormed(stages, c)
    ensures Keeps(stages, c, r)
    ensures c.guards[0].unsubscribed ==> CleanUps(r.log) == CleanUps(c.log)
    ensures Invariant(stages, c) ==> Invariant(stages, r)
    decreases |stages| - j, 4, 0
  {
    if c.thrown || c.guards[j].unsubscribed then c
    else if !s.IsTerminal() then Pass(stages, j, s, c)
    else RunStored(stages, j, Pass(stages, j, s, Close(c, j)))
  }

  /** The observer wrapped by level j's stoppable observer receives s: the
      subscriber's observer at the last level, the next stage's consumer below. */
  function Pass<T>(stages: seq<Stage<T>>, j: nat, s: Signal<T>, c: Chain<T>): (r: Chain<T>)
    requires j <= |stages| && WellFormed(stages, c)
    ensures Keeps(stages, c, r)
    ensures c.guards[0].unsubscribed ==> CleanUps(r.log) == CleanUps(c.log)
    ensures Invariant(stages, c) && (j == |stages| && !c.thrown ==> !Ended(Sink(c.log)) && (s.IsTerminal() ==> c.guards[j].unsubscribed))
      ==> Invariant(stages, r)
    decreases |stages| - j, 3, 1
  {
    if c.thrown then c
    else if j == |stages| then Record(c, Delivered(s))
    else Consume(stages, j, s, c)
  }

  /** Stage i's consumer receives s from level i and acts on level i + 1. */
  function Consume<T>(stages: seq<Stage<T>>, i: nat, s: Signal<T>, c: Chain<T>): (r: Chain<T>)
    requires i < |stages| && WellFormed(stages, c)
    ensures Keeps(stages, c, r)
    ensures c.guards[0].unsubscribed ==> CleanUps(r.log) == CleanUps(c.log)
    ensures Invariant(stages, c) ==> Invariant(stages, r)
    decreases |stages| - i, 3, 0
  {
    if c.thrown then c
    else
    var m := c.memory[i];
    match stages[i]
    case Map(f) => Perform(stages, i, MapOperator.OnSignal(f, s), c)
    case Filter(p) => Perform(stages, i, FilterOperator.OnSignal(p, s), c)
    case Tap(clone) => Perform(stages, i, TapOperator.OnSignal(clone, s), c)
    case Skip(limit) =>
      var o := SkipOperator.Step(limit, m.emissionCounter, s);
      Perform(stages, i, o.actions, c.(memory := c.memory[i := m.(emissionCounter := o.counter)]))
    case Take(limit) =>
      var o := TakeOperator.Step(limit, m.emissionCounter, s);
      Perform(stages, i, o.actions, c.(memory := c.memory[i := m.(emissionCounter := o.counter)]))
    case StartWith(_) => Perform(stages, i, StartWithOperator.OnSignal(s), c)
  }

  /** Stage i's consumer performs its actions in order. */
  function Perform<T>(stages: seq<Stage<T>>, i: nat, acts: seq<Action<T>>, c: Chain<T>): (r: Chain<T>)
    requires i < |stages| && WellFormed(stages, c)
    ensures Keeps(stages, c, r)
    ensures c.guards[0].unsubscribed ==> CleanUps(r.log) == CleanUps(c.log)
    ensures Invariant(stages, c) ==> Invariant(stages, r)
    decreases |stages| - i, 2, |acts|
  {
    if c.thrown || acts == [] then c
    else Perform(stages, i, acts[1..], Act(stages, i, acts[0], c))
  }

  /** One action of stage i's consumer. Unsubscribing a source subscription
      that is not yet initialised throws. */
  function Act<T>(stages: seq<Stage<T>>, i: nat, a: Action<T>, c: Chain<T>): (r: Chain<T>)
    requires i < |stages| && WellFormed(stages, c) && !c.thrown
    ensures Keeps(stages, c, r)
    ensures c.guards[0].unsubscribed ==> CleanUps(r.log) == CleanUps(c.log)
    ensures Invariant(stages, c) ==> Invariant(stages, r)
    decreases |stages| - i, 1, 0
  {
    match a
    case Forward(s) => Deliver(stages, i + 1, s, c)
    case UnsubscribeSource => if c.linked[i] then Cancel(stages, i, c) else c.(thrown := true)
    case Divert(x) => Record(c, DiverterCalled(x))
    case SubscribeSource => c  // made by SubscribeAt, right after the prologue that ends with it
  }

  /** unsubscribe() on the subscription to level j: its stoppable cleanup. */
  function Cancel<T>(stages: seq<Stage<T>>, j: nat, c: Chain<T>): (r: Chain<T>)
    requires j <= |stages| && WellFormed(stages, c)
    ensures Keeps(stages, c, r)
    ensures c.guards[0].unsubscribed ==> CleanUps(r.log) == CleanUps(c.log)
    ensures Invariant(stages, c) ==> Invariant(stages, r)
    decreases 0, 1, 3 * j + 2
  {
    if c.thrown || c.guards[j].unsubscribed then c
    else RunReturned(stages, j, Close(c, j))
  }

  /** Level j's stored _cleanUpFn, run by its stoppable observer after a
      terminal call: the no-op while its producer has not returned. */
  function RunStored<T>(stages: seq<Stage<T>>, j: nat, c: Chain<T>): (r: Chain<T>)
    requires j <= |stages| && WellFormed(stages, c)
    ensures Keeps(stages, c, r)
    ensures j > 0 && c.guards[0].unsubscribed ==> CleanUps(r.log) == CleanUps(c.log)
    ensures Invariant(stages, c) && (j == 0 ==> c.guards[0].unsubscribed && CleanUps(c.log) == 0) ==> Invariant(stages, r)
    decreases 0, 1, 3 * j + 1
  {
    if c.thrown || c.guards[j].cleanUpFn.NoOp? then c
    else RunReturned(stages, j, c)
  }

  /** The cleanup level j's producer returned: the source producer's own
      cleanup at level 0, "unsubscribe from the level below" above it. */
  function RunReturned<T>(stages: seq<Stage<T>>, j: nat, c: Chain<T>): (r: Chain<T>)
    requires j <= |stages| && WellFormed(stages, c)
    ensures Keeps(stages, c, r)
    ensures j > 0 && c.guards[0].unsubscribed ==> CleanUps(r.log) == CleanUps(c.log)
    ensures Invariant(stages, c) && (j == 0 ==> c.guards[0].unsubscribed && CleanUps(c.log) == 0) ==> Invariant(stages, r)
    decreases 0, 1, 3 * j
  {
    if c.thrown then c
    else if j == 0 then Record(c, ProducerCleanUp)
    else if c.linked[j - 1] then Cancel(stages, j - 1, c)
    else c.(thrown := true)
  }

  /** Level j's producer has returned its cleanup. */
  function Store<T>(c: Chain<T>, j: nat): (r: Chain<T>)
    requires j < |c.guards|
    ensures r.guards == c.guards[j := c.guards[j].(cleanUpFn := Observable.Returned(1))]
    ensures r.log == c.log && r.memory == c.memory && r.linked == c.linked && r.thrown == c.thrown
  {
    c.(guards := c.guards[j := c.guards[j].(cleanUpFn := Observable.Returned(1))])
  }

  /** The source producer emits signals through level 0's stoppable observer. */
  function Emit<T>(stages: seq<Stage<T>>, signals: seq<Signal<T>>, c: Chain<T>): (r: Chain<T>)
    requires WellFormed(stages, c)
    ensures Keeps(stages, c, r)
    ensures Invariant(stages, c) ==> Invariant(stages, r)
    decreases |signals|
  {
    if signals == [] then c else Emit(stages, signals[1..], Deliver(stages, 0, signals[0], c))
  }

  /** subscribe() on level j: invokes level j's producer. The source producer
      emits `emitted` and returns its cleanup. Stage j - 1's producer, if it
      is a startWith, first performs its prologue (the starting value, if
      its flag is clear, then its source subscription, always last); every
      stage's producer then subscribes to level j - 1, initialises its
      subscriptionToSource$ and returns "unsubscribe from the level below". */
  function SubscribeAt<T>(stages: seq<Stage<T>>, j: nat, emitted: seq<Signal<T>>, c: Chain<T>): (r: Chain<T>)
    requires j <= |stages| && WellFormed(stages, c)
    ensures WellFormed(stages, r)
    ensures c.log <= r.log
    ensures Invariant(stages, c) ==> Invariant(stages, r)
    ensures !r.thrown ==> (forall k :: 0 <= k < j ==> r.linked[k]) && (forall k :: 0 <= k <= j ==> r.guards[k].cleanUpFn.Returned?)
    decreases j
  {
    if c.thrown then c
    else if j == 0 then
      var c1 := Emit(stages, emitted, c);
      if c1.thrown then c1 else Store(c1, 0)
    else
      var i := j - 1;
      var c1 := if stages[i].StartWith? then
          var o := StartWithOperator.Prologue(stages[i].startingValue, c.memory[i].hasEmittedStartingValue);
          Perform(stages, i, o.actions, c.(memory := c.memory[i := c.memory[i].(hasEmittedStartingValue := o.hasEmittedStartingValue)]))
        else c;
      var c2 := SubscribeAt(stages, i, emitted, c1);
      if c2.thrown then c2 else Store(c2.(linked := c2.linked[i := true]), j)
  }

  /** A chain nobody has subscribed to yet, with the stages' factory state
      as earlier subscriptions left it. */
  function Fresh<T>(stages: seq<Stage<T>>, memory: seq<Memory>): (c: Chain<T>)
    requires |memory| == |stages|
    ensures WellFormed(stages, c) && Invariant(stages, c)
  {
    Chain(seq(|stages| + 1, _ => Observable.Guard(false, Observable.NoOp)), memory, seq(|stages|, _ => false), [], false)
  }

  /** subscribe() on the Observable pipe() returned. */
  function Start<T>(stages: seq<Stage<T>>, memory: seq<Memory>, emitted: seq<Signal<T>>): (r: Chain<T>)
    requires |memory| == |stages|
    ensures WellFormed(stages, r) && Invariant(stages, r)
  {
    SubscribeAt(stages, |stages|, emitted, Fresh(stages, memory))
  }

  /** What happens after subscribe() has returned: the source producer emits
      a signal later, or the subscriber calls unsubscribe(). */
  datatype Event<T> = SourceEmits(signal: Signal<T>) | SubscriberUnsubscribes

  function AfterEvent<T>(stages: seq<Stage<T>>, c: Chain<T>, e: Event<T>): (r: Chain<T>)
    requires WellFormed(stages, c)
    ensures WellFormed(stages, r) && c.log <= r.log
    ensures Invariant(stages, c) ==> Invariant(stages, r)
  {
    match e
    case SourceEmits(s) => Deliver(stages, 0, s, c)
    case SubscriberUnsubscribes => Cancel(stages, |stages|, c)
  }

  function Run<T>(stages: seq<Stage<T>>, c: Chain<T>, events: seq<Event<T>>): (r: Chain<T>)
    requires WellFormed(stages, c)
    ensures WellFormed(stages, r) && c.log <= r.log
    ensures Invariant(stages, c) ==> Invariant(stages, r)
    decreases |events|
  {
    if events == [] then c else Run(stages, AfterEvent(stages, c, events[0]), events[1..])
  }

  /** Whatever the stages, the factory state, the source's script and the
      later events: the subscriber's observer receives nothing after a
      terminal call, and the source producer's cleanup runs at most once. */
  lemma ObserverContract<T>(stages: seq<Stage<T>>, memory: seq<Memory>, emitted: seq<Signal<T>>, events: seq<Event<T>>)
    requires |memory| == |stages|
    ensures StopsAtTerminal(Sink(Run(stages, Start(stages, memory, emitted), events).log))
    ensures CleanUps(Run(stages, Start(stages, memory, emitted), events).log) <= 1
  {
  }

  /** Every level's producer has returned and every subscriptionToSource$ is
      initialised. */
  predicate Subscribed<T>(stages: seq<Stage<T>>, c: Chain<T>)
    requires WellFormed(stages, c)
  {
    && !c.thrown
    && (forall k :: 0 <= k < |stages| ==> c.linked[k])
    && (forall k :: 0 <= k <= |stages| ==> c.guards[k].cleanUpFn.Returned?)
  }

  lemma StartSubscribes<T>(stages: seq<Stage<T>>, memory: seq<Memory>, emitted: seq<Signal<T>>)
    requires |memory| == |stages|
    ensures !Start(stages, memory, emitted).thrown ==> Subscribed(stages, Start(stages, memory, emitted))
  {
  }

  /** No level is unsubscribed from j upwards. */
  predicate OpenFrom<T>(c: Chain<T>, j: nat) {
    forall k :: j <= k < |c.guards| ==> !c.guards[k].unsubscribed
  }

  /** Every level up to j is unsubscribed. */
  predicate ClosedUpTo<T>(c: Chain<T>, j: int) {
    forall k :: 0 <= k <= j && k < |c.guards| ==> c.guards[k].unsubscribed
  }

  /** unsubscribe() on the subscription to level j, in a subscribed chain
      where no level up to j is unsubscribed yet: every level down to the
      source is unsubscribed in turn and the source producer's cleanup runs
      exactly once; nothing reaches the subscriber. */
  lemma {:induction false} CancelCascades<T>(stages: seq<Stage<T>>, j: nat, c: Chain<T>)
    requires j <= |stages| && WellFormed(stages, c) && Subscribed(stages, c)
    requires forall k :: 0 <= k <= j ==> !c.guards[k].unsubscribed
    ensures var r := Cancel(stages, j, c);
      && r.log == c.log + [ProducerCleanUp]
      && !r.thrown && r.memory == c.memory
      && ClosedUpTo(r, j)
      && forall k :: j < k <= |stages| ==> r.guards[k] == c.guards[k]
    decreases j
  {
    if j > 0 {
      CancelCascades(stages, j - 1, Close(c, j));
    }
  }

  /** Every operator's consumer passes a terminal call on unchanged, leaving
      its factory state as it was. */
  lemma TerminalPassesThrough<T>(stages: seq<Stage<T>>, i: nat, s: Signal<T>, c: Chain<T>)
    requires i < |stages| && WellFormed(stages, c) && !c.thrown
    requires s.IsTerminal()
    ensures Consume(stages, i, s, c) == Deliver(stages, i + 1, s, c)
  {
    var acts := [Forward(s)];
    assert c.memory[i := c.memory[i]] == c.memory;
    assert Consume(stages, i, s, c) == Perform(stages, i, acts, c);
    var c1 := Deliver(stages, i + 1, s, c);
    assert Perform(stages, i, acts, c) == Perform(stages, i, [], c1);
  }

  /** A terminal call arriving at level j, when every level below j is
      already unsubscribed and none from j upwards is: every operator passes
      it on, so it reaches the subscriber and closes every level; only then
      does the source producer's cleanup run, if the call came from the
      source itself. */
  lemma TerminalShortCircuits<T>(stages: seq<Stage<T>>, j: nat, s: Signal<T>, c: Chain<T>)
    requires j <= |stages| && WellFormed(stages, c) && Subscribed(stages, c)
    requires s.IsTerminal()
    requires ClosedUpTo(c, j - 1) && OpenFrom(c, j)
    ensures var r := Deliver(stages, j, s, c);
      && r.log == c.log + [Delivered(s)] + (if j == 0 then [ProducerCleanUp] else [])
      && !r.thrown && r.memory == c.memory
      && ClosedUpTo(r, |stages|)
  {
    if j == 0 {
      var c1 := Close(c, 0);
      PassTerminal(stages, 0, s, c1);
      var c2 := Pass(stages, 0, s, c1);
      assert Deliver(stages, 0, s, c) == RunStored(stages, 0, c2);
      assert c2.guards[0].cleanUpFn.Returned?;
    } else {
      TerminalClosesAbove(stages, j, s, c);
    }
  }

  /** A terminal call arriving at level j while no level is unsubscribed, as
      tap's error for a value it cannot copy does at the level above the
      tap: every operator passes it on, so it reaches the subscriber and
      closes every level from j upwards; then level j's cleanup unsubscribes
      from the level below, which cascades down to the source, whose
      producer's cleanup runs once. */
  lemma TerminalCascades<T>(stages: seq<Stage<T>>, j: nat, s: Signal<T>, c: Chain<T>)
    requires j <= |stages| && WellFormed(stages, c) && Subscribed(stages, c)
    requires s.IsTerminal()
    requires OpenFrom(c, 0)
    ensures var r := Deliver(stages, j, s, c);
      && r.log == c.log + [Delivered(s), ProducerCleanUp]
      && !r.thrown && r.memory == c.memory
      && ClosedUpTo(r, |stages|)
  {
    if j == 0 {
      TerminalShortCircuits(stages, 0, s, c);
    } else {
      var c1 := Close(c, j);
      PassTerminal(stages, j, s, c1);
      var c2 := Pass(stages, j, s, c1);
      assert Deliver(stages, j, s, c) == RunStored(stages, j, c2);
      assert c2.guards[j].cleanUpFn.Returned? && c2.linked[j - 1];
      assert RunStored(stages, j, c2) == Cancel(stages, j - 1, c2);
      CancelCascades(stages, j - 1, c2);
    }
  }

  /** tap at stage i, receiving a value it cannot copy, while no level is
      unsubscribed: the diverter is not called, the subscriber receives the
      formatted error, and the error's cleanup unsubscribes the whole chain
      down to the source, whose producer's cleanup runs once. */
  lemma TapCloneFailureCascades<T>(stages: seq<Stage<T>>, i: nat, v: T, c: Chain<T>)
    requires i < |stages| && WellFormed(stages, c) && Subscribed(stages, c) && OpenFrom(c, 0)
    requires stages[i].Tap? && stages[i].clone(v).CloneFailed?
    ensures var r := Consume(stages, i, Next(v), c);
      && r.log == c.log + [Delivered(Error(TapOperator.CloneFailureMessage(stages[i].clone(v).reason))), ProducerCleanUp]
      && !r.thrown && ClosedUpTo(r, |stages|)
  {
    var e := Error(TapOperator.CloneFailureMessage(stages[i].clone(v).reason));
    assert Consume(stages, i, Next(v), c) == Perform(stages, i, [Forward(e)], c);
    PerformSingle(stages, i, Forward(e), c);
    TerminalCascades(stages, i + 1, e, c);
  }

  /** Every level from j upwards is unsubscribed. */
  predicate ClosedFrom<T>(c: Chain<T>, j: nat) {
    forall k :: j <= k < |c.guards| ==> c.guards[k].unsubscribed
  }

  /** A terminal call arriving at level j > 0, when level j - 1 is already
      unsubscribed and no level from j upwards is: it reaches the subscriber
      and closes every level from j upwards, and the levels below j are left
      as they were. */
  lemma {:induction false} TerminalClosesAbove<T>(stages: seq<Stage<T>>, j: nat, s: Signal<T>, c: Chain<T>)
    requires 0 < j <= |stages| && WellFormed(stages, c) && Subscribed(stages, c)
    requires s.IsTerminal()
    requires c.guards[j - 1].unsubscribed && OpenFrom(c, j)
    ensures var r := Deliver(stages, j, s, c);
      && r.log == c.log + [Delivered(s)]
      && !r.thrown && r.memory == c.memory && Subscribed(stages, r)
      && (forall k :: 0 <= k < j ==> r.guards[k] == c.guards[k])
      && ClosedFrom(r, j)
    decreases |stages| - j, 1
  {
    var c1 := Close(c, j);
    PassTerminal(stages, j, s, c1);
    var c2 := Pass(stages, j, s, c1);
    assert Deliver(stages, j, s, c) == RunStored(stages, j, c2);
    assert c2.guards[j].cleanUpFn.Returned? && c2.linked[j - 1] && c2.guards[j - 1].unsubscribed;
    assert RunStored(stages, j, c2) == Cancel(stages, j - 1, c2);
  }

  /** Level j's stoppable observer, already unsubscribed, passing a terminal
      call on while no level above it is unsubscribed: it reaches the
      subscriber and closes every level above j; levels up to j are left as
      they were. */
  lemma {:induction false} PassTerminal<T>(stages: seq<Stage<T>>, j: nat, s: Signal<T>, c: Chain<T>)
    requires j <= |stages| && WellFormed(stages, c) && Subscribed(stages, c)
    requires s.IsTerminal()
    requires c.guards[j].unsubscribed && OpenFrom(c, j + 1)
    ensures var r := Pass(stages, j, s, c);
      && r.log == c.log + [Delivered(s)]
      && !r.thrown && r.memory == c.memory && Subscribed(stages, r)
      && (forall k :: 0 <= k <= j ==> r.guards[k] == c.guards[k])
      && ClosedFrom(r, j)
    decreases |stages| - j, 0
  {
    if j < |stages| {
      TerminalPassesThrough(stages, j, s, c);
      TerminalClosesAbove(stages, j + 1, s, c);
    } else {
      assert Pass(stages, j, s, c) == Record(c, Delivered(s));
    }
  }

  /** Once every level is unsubscribed, nothing anybody does has any effect. */
  lemma {:induction false} ClosedChainSilent<T>(stages: seq<Stage<T>>, c: Chain<T>, events: seq<Event<T>>)
    requires WellFormed(stages, c) && ClosedUpTo(c, |stages|)
    ensures Run(stages, c, events) == c
    decreases |events|
  {
    if events != [] {
      assert c.guards[0].unsubscribed && c.guards[|stages|].unsubscribed;
      ClosedChainSilent(stages, c, events[1..]);
    }
  }

  /** unsubscribe() by the subscriber, while no level is unsubscribed: the
      source producer's cleanup runs once, the subscriber receives nothing,
      and from then on nothing has any effect (a second unsubscribe()
      included). */
  lemma UnsubscribeReachesSource<T>(stages: seq<Stage<T>>, c: Chain<T>, events: seq<Event<T>>)
    requires WellFormed(stages, c) && Subscribed(stages, c) && OpenFrom(c, 0)
    ensures Run(stages, c, [SubscriberUnsubscribes] + events).log == c.log + [ProducerCleanUp]
  {
    CancelCascades(stages, |stages|, c);
    var r := Cancel(stages, |stages|, c);
    assert ([SubscriberUnsubscribes] + events)[1..] == events;
    assert Run(stages, c, [SubscriberUnsubscribes] + events) == Run(stages, r, events);
    ClosedChainSilent(stages, r, events);
  }

  /** error() or completed() from the source, while no level is unsubscribed:
      every operator passes it on, the subscriber receives it, then the
      source producer's cleanup runs once, and from then on nothing has any
      effect. */
  lemma SourceTerminalShortCircuits<T>(stages: seq<Stage<T>>, c: Chain<T>, s: Signal<T>, events: seq<Event<T>>)
    requires WellFormed(stages, c) && Subscribed(stages, c) && OpenFrom(c, 0)
    requires s.IsTerminal()
    ensures Run(stages, c, [SourceEmits(s)] + events).log == c.log + [Delivered(s), ProducerCleanUp]
  {
    TerminalShortCircuits(stages, 0, s, c);
    var r := Deliver(stages, 0, s, c);
    assert ([SourceEmits(s)] + events)[1..] == events;
    assert Run(stages, c, [SourceEmits(s)] + events) == Run(stages, r, events);
    ClosedChainSilent(stages, r, events);
  }

  /** take(limit) as the last stage, receiving the value that brings its
      counter to the limit: it forwards the value, then unsubscribes from
      its source, which runs the source producer's cleanup, and only then
      completes the subscriber; every level ends unsubscribed. */
  lemma TakeUnsubscribesThenCompletes<T>(stages: seq<Stage<T>>, c: Chain<T>, v: T)
    requires WellFormed(stages, c) && Subscribed(stages, c) && OpenFrom(c, 0)
    requires |stages| > 0 && stages[|stages| - 1].Take?
    requires c.memory[|stages| - 1].emissionCounter + 1 == stages[|stages| - 1].takeLimit
    ensures var r := Consume(stages, |stages| - 1, Next(v), c);
      && r.log == c.log + [Delivered(Next(v)), ProducerCleanUp, Delivered(Completed)]
      && ClosedUpTo(r, |stages|) && !r.thrown
      && r.memory[|stages| - 1].emissionCounter == stages[|stages| - 1].takeLimit
  {
    var i := |stages| - 1;
    var m := c.memory[i];
    var o := TakeOperator.Step(stages[i].takeLimit, m.emissionCounter, Next(v));
    assert o.actions == [Forward(Next(v)), UnsubscribeSource, Forward(Completed)];
    var c0 := c.(memory := c.memory[i := m.(emissionCounter := o.counter)]);
    assert Consume(stages, i, Next(v), c) == Perform(stages, i, o.actions, c0);
    assert Subscribed(stages, c0) && OpenFrom(c0, 0);
    var r := LastStageEnds(stages, c0, v);
  }

  /** The actions of take's consumer at its limit, performed by the last stage. */
  lemma LastStageEnds<T>(stages: seq<Stage<T>>, c: Chain<T>, v: T) returns (r: Chain<T>)
    requires WellFormed(stages, c) && Subscribed(stages, c) && OpenFrom(c, 0) && |stages| > 0
    ensures r == Perform(stages, |stages| - 1, [Forward(Next(v)), UnsubscribeSource, Forward(Completed)], c)
    ensures && r.log == c.log + [Delivered(Next(v)), ProducerCleanUp, Delivered(Completed)]
      && ClosedUpTo(r, |stages|) && !r.thrown && r.memory == c.memory
  {
    var i := |stages| - 1;
    var c1 := LastForwards(stages, c, v);
    var c2 := LastUnsubscribes(stages, c1);
    r := LastCompletes(stages, c2);
    PerformThree(stages, i, Forward(Next(v)), UnsubscribeSource, Forward(Completed), c);
  }

  lemma LastForwards<T>(stages: seq<Stage<T>>, c: Chain<T>, v: T) returns (r: Chain<T>)
    requires WellFormed(stages, c) && Subscribed(stages, c) && OpenFrom(c, 0) && |stages| > 0
    ensures r == Act(stages, |stages| - 1, Forward(Next(v)), c)
    ensures r == c.(log := c.log + [Delivered(Next(v))])
    ensures WellFormed(stages, r) && Subscribed(stages, r) && OpenFrom(r, 0)
  {
    NextPasses(stages, |stages|, v, c);
    r := Record(c, Delivered(Next(v)));
  }

  lemma LastUnsubscribes<T>(stages: seq<Stage<T>>, c: Chain<T>) returns (r: Chain<T>)
    requires WellFormed(stages, c) && Subscribed(stages, c) && OpenFrom(c, 0) && |stages| > 0
    ensures r == Act(stages, |stages| - 1, UnsubscribeSource, c)
    ensures r.log == c.log + [ProducerCleanUp] && r.memory == c.memory
    ensures WellFormed(stages, r) && Subscribed(stages, r)
    ensures ClosedUpTo(r, |stages| - 1) && OpenFrom(r, |stages|)
  {
    CancelCascades(stages, |stages| - 1, c);
    r := Cancel(stages, |stages| - 1, c);
  }

  lemma LastCompletes<T>(stages: seq<Stage<T>>, c: Chain<T>) returns (r: Chain<T>)
    requires WellFormed(stages, c) && Subscribed(stages, c) && |stages| > 0
    requires ClosedUpTo(c, |stages| - 1) && OpenFrom(c, |stages|)
    ensures r == Act(stages, |stages| - 1, Forward(Completed), c)
    ensures r.log == c.log + [Delivered(Completed)] && r.memory == c.memory
    ensures ClosedUpTo(r, |stages|) && !r.thrown
  {
    TerminalShortCircuits(stages, |stages|, Completed, c);
    r := Deliver(stages, |stages|, Completed, c);
  }

  /** Three actions in a row, none of which throws. */
  lemma PerformThree<T>(stages: seq<Stage<T>>, i: nat, a0: Action<T>, a1: Action<T>, a2: Action<T>, c: Chain<T>)
    requires i < |stages| && WellFormed(stages, c) && !c.thrown
    requires !Act(stages, i, a0, c).thrown
    requires !Act(stages, i, a1, Act(stages, i, a0, c)).thrown
    ensures Perform(stages, i, [a0, a1, a2], c)
      == Act(stages, i, a2, Act(stages, i, a1, Act(stages, i, a0, c)))
  {
    var acts := [a0, a1, a2];
    var c1 := Act(stages, i, a0, c);
    var c2 := Act(stages, i, a1, c1);
    var c3 := Act(stages, i, a2, c2);
    assert acts[1..][1..] == [a2] && [a2][1..] == [];
    assert Perform(stages, i, [a2], c2) == Perform(stages, i, [], c3);
    assert Perform(stages, i, acts[1..], c1) == Perform(stages, i, [a2], c2);
  }

  /** The library's own failure: with startWith(x) and then take(1), a fresh
      subscription throws (a ReferenceError under an ES2015 or later
      target). The starting value is emitted while take's producer is
      still subscribing, so take reaches its limit and calls unsubscribe()
      on a subscriptionToSource$ that is not yet initialised; the
      subscriber has received x and never completes. */
  lemma StartWithThenTakeOneThrows<T>(x: T, emitted: seq<Signal<T>>)
    ensures var r := Start([StartWith(x), Take(1)], [Memory(0, false), Memory(0, false)], emitted);
      r.thrown && r.log == [Delivered(Next(x))]
  {
    var stages: seq<Stage<T>> := [StartWith(x), Take(1)];
    var c := Fresh(stages, [Memory(0, false), Memory(0, false)]);
    var c0 := c.(memory := c.memory[0 := Memory(0, true)]);
    var c0' := c0.(memory := c0.memory[1 := Memory(1, false)]);
    var c1 := Record(c0', Delivered(Next(x)));
    assert Pass(stages, 2, Next(x), c0') == c1;
    assert Deliver(stages, 2, Next(x), c0') == c1;
    var acts: seq<Action<T>> := [Forward(Next(x)), UnsubscribeSource, Forward(Completed)];
    assert TakeOperator.Step(1, 0, Next(x)).actions == acts;
    assert Perform(stages, 1, acts, c0') == Perform(stages, 1, acts[1..], c1);
    assert !c1.linked[1];
    assert Perform(stages, 1, acts[1..], c1) == c1.(thrown := true);
    assert Consume(stages, 1, Next(x), c0) == c1.(thrown := true);
    assert Deliver(stages, 1, Next(x), c0) == c1.(thrown := true);
    var prologue := StartWithOperator.Prologue(x, false).actions;
    assert prologue == [Forward(Next(x)), SubscribeSource];
    assert Perform(stages, 0, prologue, c0) == Perform(stages, 0, prologue[1..], c1.(thrown := true));
    assert SubscribeAt(stages, 1, emitted, c) == c1.(thrown := true);
    assert SubscribeAt(stages, 2, emitted, c) == c1.(thrown := true);
  }

  /** startWith(x) as the last stage, with its flag clear: on subscribe() the
      subscriber receives x first, before the source producer has run and
      before anything it emits. */
  lemma StartWithSeedsFirst<T>(stages: seq<Stage<T>>, memory: seq<Memory>, emitted: seq<Signal<T>>)
    requires |memory| == |stages| && |stages| > 0
    requires stages[|stages| - 1].StartWith? && !memory[|stages| - 1].hasEmittedStartingValue
    ensures var r := Start(stages, memory, emitted);
      |r.log| > 0 && r.log[0] == Delivered(Next(stages[|stages| - 1].startingValue))
  {
    var n := |stages|;
    var x := stages[n - 1].startingValue;
    var c := Fresh(stages, memory);
    var o := StartWithOperator.Prologue(x, false);
    var c0 := c.(memory := c.memory[n - 1 := c.memory[n - 1].(hasEmittedStartingValue := true)]);
    NextPasses(stages, n, x, c0);
    var c1 := Record(c0, Delivered(Next(x)));
    assert o.actions[1..] == [SubscribeSource] && o.actions[1..][1..] == [];
    assert Perform(stages, n - 1, o.actions, c0) == Perform(stages, n - 1, o.actions[1..], c1);
    assert Perform(stages, n - 1, o.actions[1..], c1) == Perform(stages, n - 1, o.actions[1..][1..], c1);
    var c2 := SubscribeAt(stages, n - 1, emitted, c1);
    assert c1.log <= c2.log;
  }

  /** A value arriving at a level that is not unsubscribed goes straight on. */
  lemma NextPasses<T>(stages: seq<Stage<T>>, j: nat, v: T, c: Chain<T>)
    requires j <= |stages| && WellFormed(stages, c) && !c.thrown && !c.guards[j].unsubscribed
    ensures Deliver(stages, j, Next(v), c) == Pass(stages, j, Next(v), c)
    ensures j == |stages| ==> Pass(stages, j, Next(v), c) == Record(c, Delivered(Next(v)))
    ensures j < |stages| ==> Pass(stages, j, Next(v), c) == Consume(stages, j, Next(v), c)
  {
  }

  /** skip in a chain: below its limit a value only counts; at or above it,
      the value goes on to the next level unchanged. */
  lemma SkipInChain<T>(stages: seq<Stage<T>>, i: nat, v: T, c: Chain<T>)
    requires i < |stages| && WellFormed(stages, c) && !c.thrown && stages[i].Skip?
    ensures var m := c.memory[i];
      if m.emissionCounter < stages[i].skipLimit
      then Consume(stages, i, Next(v), c) == c.(memory := c.memory[i := m.(emissionCounter := m.emissionCounter + 1)])
      else Consume(stages, i, Next(v), c) == Deliver(stages, i + 1, Next(v), c)
  {
    var m := c.memory[i];
    var o := SkipOperator.Step(stages[i].skipLimit, m.emissionCounter, Next(v));
    var c' := c.(memory := c.memory[i := m.(emissionCounter := o.counter)]);
    assert Consume(stages, i, Next(v), c) == Perform(stages, i, o.actions, c');
    if m.emissionCounter >= stages[i].skipLimit {
      assert c' == c by {
        assert c.memory[i := m] == c.memory;
      }
      assert o.actions == [Forward(Next(v))];
      PerformSingle(stages, i, Forward(Next(v)), c);
    } else {
      assert o.actions == [];
    }
  }

  /** A single action, performed. */
  lemma PerformSingle<T>(stages: seq<Stage<T>>, i: nat, a: Action<T>, c: Chain<T>)
    requires i < |stages| && WellFormed(stages, c) && !c.thrown
    ensures Perform(stages, i, [a], c) == Act(stages, i, a, c)
  {
    assert [a][1..] == [];
  }

  /** take in a chain, away from its limit: below it a value is counted and
      goes on unchanged; past it a value is only counted. */
  lemma TakeInChain<T>(stages: seq<Stage<T>>, i: nat, v: T, c: Chain<T>)
    requires i < |stages| && WellFormed(stages, c) && !c.thrown && stages[i].Take?
    requires c.memory[i].emissionCounter + 1 != stages[i].takeLimit
    ensures var m := c.memory[i];
      var c' := c.(memory := c.memory[i := m.(emissionCounter := m.emissionCounter + 1)]);
      if m.emissionCounter + 1 < stages[i].takeLimit
      then Consume(stages, i, Next(v), c) == Deliver(stages, i + 1, Next(v), c')
      else Consume(stages, i, Next(v), c) == c'
  {
    var m := c.memory[i];
    var o := TakeOperator.Step(stages[i].takeLimit, m.emissionCounter, Next(v));
    var c' := c.(memory := c.memory[i := m.(emissionCounter := o.counter)]);
    assert Consume(stages, i, Next(v), c) == Perform(stages, i, o.actions, c');
    if m.emissionCounter + 1 < stages[i].takeLimit {
      assert o.actions == [Forward(Next(v))];
      PerformSingle(stages, i, Forward(Next(v)), c');
    } else {
      assert o.actions == [];
    }
  }

  /** The source emits the given values, in order, after subscribe() has
      returned. */
  function Emits<T>(values: seq<T>): (events: seq<Event<T>>)
    ensures |events| == |values| && forall k :: 0 <= k < |values| ==> events[k] == SourceEmits(Next(values[k]))
  {
    if values == [] then [] else [SourceEmits(Next(values[0]))] + Emits(values[1..])
  }

  /** The chain of pipe(skip(2), take(3)) once subscribe() has returned, with
      both counters and the log given. */
  function SkipTake<T>(skipped: int, taken: int, log: seq<Effect<T>>): Chain<T> {
    var open := Observable.Guard(false, Observable.Returned(1));
    Chain([open, open, open], [Memory(skipped, false), Memory(taken, false)], [true, true], log, false)
  }

  lemma SkipTakeStarts<T>()
    ensures Start([Skip(2), Take(3)], [Memory(0, false), Memory(0, false)], []) == SkipTake<T>(0, 0, [])
  {
    var stages: seq<Stage<T>> := [Skip(2), Take(3)];
    var initial := Fresh(stages, [Memory(0, false), Memory(0, false)]);
    assert SubscribeAt(stages, 0, [], initial) == Store(initial, 0);
  }

  /** One value from the source through pipe(skip(2), take(3)), away from
      take's limit. */
  lemma SkipTakeStep<T>(skipped: int, taken: int, log: seq<Effect<T>>, v: T)
    requires 0 <= skipped && 0 <= taken && taken + 1 != 3
    ensures Deliver([Skip(2), Take(3)], 0, Next(v), SkipTake(skipped, taken, log))
        == if skipped < 2 then SkipTake(skipped + 1, taken, log)
           else if taken + 1 < 3 then SkipTake(skipped, taken + 1, log + [Delivered(Next(v))])
           else SkipTake(skipped, taken + 1, log)
  {
    var stages: seq<Stage<T>> := [Skip(2), Take(3)];
    var c := SkipTake(skipped, taken, log);
    NextPasses(stages, 0, v, c);
    SkipInChain(stages, 0, v, c);
    if skipped < 2 {
      assert c.memory[0 := Memory(skipped + 1, false)] == [Memory(skipped + 1, false), Memory(taken, false)];
    } else {
      SkipTakeTakeStep(stages, skipped, taken, log, v);
    }
  }

  /** The take stage of pipe(skip(2), take(3)), once skip forwards. */
  lemma SkipTakeTakeStep<T>(stages: seq<Stage<T>>, skipped: int, taken: int, log: seq<Effect<T>>, v: T)
    requires stages == [Skip(2), Take(3)] && 0 <= taken && taken + 1 != 3
    ensures Deliver(stages, 1, Next(v), SkipTake(skipped, taken, log))
        == if taken + 1 < 3 then SkipTake(skipped, taken + 1, log + [Delivered(Next(v))])
           else SkipTake(skipped, taken + 1, log)
  {
    var c := SkipTake(skipped, taken, log);
    var c' := SkipTake(skipped, taken + 1, log);
    NextPasses(stages, 1, v, c);
    TakeInChain(stages, 1, v, c);
    assert c.memory[1 := Memory(taken + 1, false)] == c'.memory;
    assert c.(memory := c.memory[1 := Memory(taken + 1, false)]) == c';
    if taken + 1 < 3 {
      NextPasses(stages, 2, v, c');
    }
  }

  /** The value that brings take's counter to its limit. */
  lemma SkipTakeLimit<T>(log: seq<Effect<T>>, v: T)
    ensures var r := Deliver([Skip(2), Take(3)], 0, Next(v), SkipTake(2, 2, log));
      r.log == log + [Delivered(Next(v)), ProducerCleanUp, Delivered(Completed)] && ClosedUpTo(r, 2)
  {
    var stages: seq<Stage<T>> := [Skip(2), Take(3)];
    var c := SkipTake(2, 2, log);
    assert Deliver(stages, 0, Next(v), c) == Consume(stages, 1, Next(v), c) by {
      NextPasses(stages, 0, v, c);
      SkipInChain(stages, 0, v, c);
      NextPasses(stages, 1, v, c);
    }
    assert Subscribed(stages, c) && OpenFrom(c, 0) by {
      assert forall k :: 0 <= k < 3 ==> c.guards[k] == Observable.Guard(false, Observable.Returned(1));
    }
    TakeUnsubscribesThenCompletes(stages, c, v);
  }

  lemma RunFirst<T>(stages: seq<Stage<T>>, c: Chain<T>, events: seq<Event<T>>, k: nat)
    requires WellFormed(stages, c) && k < |events|
    ensures Run(stages, c, events[k..]) == Run(stages, AfterEvent(stages, c, events[k]), events[k + 1..])
  {
    assert events[k..][0] == events[k] && events[k..][1..] == events[k + 1..];
  }

  lemma SkipTakeRunStep<T>(stages: seq<Stage<T>>, events: seq<Event<T>>, k: nat, skipped: int, taken: int, log: seq<Effect<T>>, v: T, next: Chain<T>)
    requires stages == [Skip(2), Take(3)]
    requires k < |events| && events[k] == SourceEmits(Next(v))
    requires 0 <= skipped && 0 <= taken && taken + 1 != 3
    requires next == if skipped < 2 then SkipTake(skipped + 1, taken, log)
               else if taken + 1 < 3 then SkipTake(skipped, taken + 1, log + [Delivered(Next(v))])
               else SkipTake(skipped, taken + 1, log)
    ensures Run(stages, SkipTake(skipped, taken, log), events[k..]) == Run(stages, next, events[k + 1..])
  {
    RunFirst(stages, SkipTake(skipped, taken, log), events, k);
    SkipTakeStep(skipped, taken, log, v);
  }

  /** pipe(skip(2), take(3)), freshly made, on a source that emits at least
      five values after subscribe() has returned (1, ..., 7, say): the
      subscriber receives the third, fourth and fifth; take then unsubscribes
      the whole chain, which runs the source producer's cleanup, and
      completes the subscriber; later values reach nobody. */
  lemma SkipTwoTakeThree<T>(stages: seq<Stage<T>>, values: seq<T>)
    requires stages == [Skip(2), Take(3)] && |values| >= 5
    ensures Run(stages, Start(stages, [Memory(0, false), Memory(0, false)], []), Emits(values)).log
        == [Delivered(Next(values[2])), Delivered(Next(values[3])), Delivered(Next(values[4])), ProducerCleanUp, Delivered(Completed)]
  {
    SkipTakeStarts<T>();
    SkipTakeRuns(stages, values, []);
  }

  lemma SkipTakeRuns<T>(stages: seq<Stage<T>>, values: seq<T>, log: seq<Effect<T>>)
    requires stages == [Skip(2), Take(3)] && |values| >= 5
    ensures Run(stages, SkipTake(0, 0, log), Emits(values)).log
        == log + [Delivered(Next(values[2])), Delivered(Next(values[3])), Delivered(Next(values[4])), ProducerCleanUp, Delivered(Completed)]
  {
    var events := Emits(values);
    assert events[0..] == events;
    SkipTakeRunStep(stages, events, 0, 0, 0, log, values[0], SkipTake(1, 0, log));
    SkipTakeRunStep(stages, events, 1, 1, 0, log, values[1], SkipTake(2, 0, log));
    SkipTakeRunsTaking(stages, values, events, log);
  }

  /** The third, fourth and fifth values, once skip has dropped two. */
  lemma SkipTakeRunsTaking<T>(stages: seq<Stage<T>>, values: seq<T>, events: seq<Event<T>>, log: seq<Effect<T>>)
    requires stages == [Skip(2), Take(3)] && |values| >= 5 && events == Emits(values)
    ensures Run(stages, SkipTake(2, 0, log), events[2..]).log
        == log + [Delivered(Next(values[2])), Delivered(Next(values[3])), Delivered(Next(values[4])), ProducerCleanUp, Delivered(Completed)]
  {
    var log4 := SkipTakeRunsTwo(stages, values, events, log);
    SkipTakeRunLast(stages, events, log4, values[4]);
  }

  lemma SkipTakeRunsTwo<T>(stages: seq<Stage<T>>, values: seq<T>, events: seq<Event<T>>, log: seq<Effect<T>>)
      returns (log4: seq<Effect<T>>)
    requires stages == [Skip(2), Take(3)] && |values| >= 5 && events == Emits(values)
    ensures log4 == log + [Delivered(Next(values[2])), Delivered(Next(values[3]))]
    ensures Run(stages, SkipTake(2, 0, log), events[2..]) == Run(stages, SkipTake(2, 2, log4), events[4..])
  {
    var log3 := log + [Delivered(Next(values[2]))];
    log4 := log3 + [Delivered(Next(values[3]))];
    SkipTakeRunStep(stages, events, 2, 2, 0, log, values[2], SkipTake(2, 1, log3));
    SkipTakeRunStep(stages, events, 3, 2, 1, log3, values[3], SkipTake(2, 2, log4));
  }

  lemma SkipTakeRunLast<T>(stages: seq<Stage<T>>, events: seq<Event<T>>, log: seq<Effect<T>>, v: T)
    requires stages == [Skip(2), Take(3)]
    requires 4 < |events| && events[4] == SourceEmits(Next(v))
    ensures Run(stages, SkipTake(2, 2, log), events[4..]).log
        == log + [Delivered(Next(v)), ProducerCleanUp, Delivered(Completed)]
  {
    var c4 := SkipTake(2, 2, log);
    var c5 := AfterEvent(stages, c4, events[4]);
    SkipTakeLimit(log, v);
    RunFirst(stages, c4, events, 4);
    ClosedChainSilent(stages, c5, events[5..]);
  }
}
