# observables-library in Dafny

A model of the push-based stream engine of observables-library. Its core
parts:

- **The `Observable` class.** It stores a producer. On `subscribe()` it
  hands the producer a stoppable observer and keeps the cleanup the
  producer returns. It returns a stoppable cleanup as `unsubscribe`. Both
  guards share one `_unsubscribed` flag, and the flag is never cleared.
  `pipe()` composes operators from left to right.
- **Six operators, each a factory.** `map`, `filter`, `tap`, `skip`,
  `take` and `startWith`. Each returns a function from a source Observable
  to a derived Observable. The derived Observable's producer subscribes to
  the source with a consumer of its own. Its cleanup unsubscribes from the
  source.

`skip(limit)`, `take(limit)` and `startWith(x)` keep their counter or flag
in the factory's scope. Every Observable and every subscription built from
one operator value therefore share that state.

Files:

- **`signals.dfy`** (`Signals`).
  - The three observer calls: `next(v)`, `error(e)`, `completed()`.
  - The actions an operator consumer takes:
    - pass a call on;
    - subscribe to or unsubscribe from its source;
    - call the diverter.
  - Sequence helpers.
- **`observable.dfy`** (`Observable`).
  - The guard machine as pure functions over the instance state, with the
    invariant it keeps.
  - `class Observable`, whose methods are proved equal to those functions.
  - `Pipe`, the left fold of `pipe()`, with `PipeLast` and `PipeConcat`
    about its order.
- **One module per operator.** Each has:
  - the consumer as a function from one source call to a list of actions;
  - sequence-level lemmas.
  - For skip, take and startWith, also a class holding the factory-scoped
    state, whose method is proved against the consumer function.
- **`pipeline.dfy`** (`Pipeline`): one subscription to an Observable built
  by `pipe(op1, …, opn)`.
  - Levels 0..n: level 0 is the source, and stage i derives level i+1.
  - Each level has its own `_unsubscribed` / `_cleanUpFn` guard.
  - `subscribe()` runs the producers top-down. A startWith stage emits its
    starting value before subscribing to the level below.
  - Later source calls, and `unsubscribe()` by the subscriber, are events.
  - A log records, in order:
    - what reaches the subscriber;
    - each run of the source producer's cleanup;
    - each call of a tap diverter.

The producer is outside code. It is modelled by what it does:

- the calls it makes on the stoppable observer while `subscribe()` runs it;
- calls made later, as separate events;
- the cleanup it returns, as a token `Returned(k)` for its k-th invocation.

The transformation, predicate and `structuredClone` are parameters.

take's consumer calls `subscriptionToSource$.unsubscribe()` when its
counter reaches the limit. If that happens while take's producer is still
inside `sourceObservable.subscribe(...)`, the `const` is not yet
initialised and the call throws (a ReferenceError when the `const` is
emitted as such, under an ES2015 or later target; compiled to an ES5 `var`,
a TypeError on `undefined`). This happens when a value
is emitted synchronously during subscription, for example the starting
value of a startWith below the take. `Pipeline` models this as it is
written: the chain records `thrown` and then stays as it is, so the
exception ends everything the model follows (see "Left out"). `Pipeline.StartWithThenTakeOneThrows` shows it for
`pipe(startWith(x), take(1))`. The lemmas about a subscription that has
returned assume every `subscriptionToSource$` is initialised (`Subscribed`).

## Model

| member | source | states |
|---|---|---|
| Observable.ConstructedConsistent | observables/observable.ts:13-24 | a new Observable has a clear flag and the no-op cleanup, its producer has not run, nothing was delivered, and the guard invariant holds |
| Observable.SignalConsistent | observables/observable.ts:27-50 | one call on the stoppable observer keeps the invariant: no call reaches the observer after a terminal one, a terminal call sets the flag, and exactly one cleanup has run once the flag is set |
| Observable.EventsConsistent | observables/observable.ts:27-73 | any sequence of subscribe(), later observer calls and unsubscribe() calls keeps that invariant |
| Observable.ClosedStaysSilent | observables/observable.ts:29-59 | once the flag is set, no later event delivers anything or runs any cleanup, and the flag stays set |
| Observable.EndedIsClosed | observables/observable.ts:34-46 | after a terminal call has reached the observer, the flag is set |
| Observable.OpenDeliversCut | observables/observable.ts:27-50 | while the flag is clear, a script of calls delivers exactly its prefix up to and including the first terminal call |
| Observable.ClosedRunsOnlyGuardCleanUp | observables/observable.ts:34-46 | during a script, the only cleanup that can run is the one _cleanUpFn held when the script began, at most once |
| Observable.SynchronousTerminalStrandsCleanUp | observables/observable.ts:34-68 | a terminal call made by the producer while subscribe() runs it runs the previous _cleanUpFn (the no-op at first); the cleanup this invocation returns never runs, whatever follows |
| Observable.RepeatedUnsubscribe | observables/observable.ts:53-59 | calling unsubscribe() n+1 times has the effect of one call |
| Observable.RepeatedClosed | observables/observable.ts:53-59 | unsubscribe() after the flag is set changes nothing |
| Observable.ResubscribeAfterClose | observables/observable.ts:62-73 | subscribing again after termination invokes the producer and stores its cleanup but delivers nothing, and the new handle's unsubscribe() does nothing |
| Observable.Observable.constructor | observables/observable.ts:13-24 | only the fields are initialised; the producer is not invoked |
| Observable.Observable.Next | observables/observable.ts:29-33 | next(v) is passed on while the flag is clear and otherwise changes nothing |
| Observable.Observable.Error | observables/observable.ts:34-40 | error(e), while the flag is clear, sets the flag, passes the error on and then runs the stored _cleanUpFn; otherwise changes nothing |
| Observable.Observable.Completed | observables/observable.ts:41-46 | completed(), while the flag is clear, sets the flag, passes it on and then runs the stored _cleanUpFn; otherwise changes nothing |
| Observable.Observable.Subscribe | observables/observable.ts:62-73 | invokes the producer exactly once, passes its synchronous calls through the guard, stores the cleanup it returns and returns a handle for that cleanup |
| Observable.Observable.Unsubscribe | observables/observable.ts:53-59 | while the flag is clear, sets it and runs the handle's cleanup once; otherwise changes nothing; never delivers anything |
| Observable.PipeLast | observables/observable.ts:76-85 | pipe(f1, ..., fn) is fn applied to pipe(f1, ..., fn-1): the operator functions apply left to right, the last one last |
| Observable.Pipe | observables/observable.ts:76-85 | pipe() as Array.reduce: each operator function applied to what the previous ones made, starting from the source Observable; its order is stated by PipeLast and PipeConcat |
| Observable.PipeConcat | observables/observable.ts:76-85 | piping two stage lists in a row equals piping their concatenation (left-to-right application) |
| MapOperator.OnSignal | operators/map-operator.ts:20-25 | map's consumer passes next(v) on as next(f(v)), and error(e) and completed() on unchanged, as exactly one forwarded call |
| MapOperator.ForwardsOnePerSignal | operators/map-operator.ts:20-25 | exactly one forwarded call per source call at the same position: next(v) becomes next(f(v)), error and completed are unchanged; the consumer does nothing but forward |
| MapOperator.ForwardsMappedValues | operators/map-operator.ts:22 | the forwarded values are the source values mapped by f, position by position, and there are as many of them |
| MapOperator.MapThenMap | operators/map-operator.ts:22 | map(f) then map(g) forwards the same stream as map(g ∘ f) |
| FilterOperator.OnSignal | operators/filter-operator.ts:18-25 | next(v) is forwarded unchanged if and only if the predicate holds of v, and dropped otherwise; error and completed pass unchanged |
| FilterOperator.SelectCounts | operators/filter-operator.ts:20-22 | the selected values satisfy the predicate and occur in the source, and each value the predicate accepts keeps its multiplicity |
| FilterOperator.ForwardsSelected | operators/filter-operator.ts:18-25 | the forwarded values are exactly the source values that satisfy the predicate, in order, and the consumer only forwards |
| FilterOperator.NoMoreValuesThanSource | operators/filter-operator.ts:18-23 | no more values are forwarded than were received |
| TapOperator.OnSignal | operators/tap-operator.ts:17-37 | a value that can be copied gives a diverter call on the copy followed by the original value; one that cannot gives only an error carrying the copy failure; error and completed pass unchanged |
| TapOperator.ForwardsOriginals | operators/tap-operator.ts:17-37 | one forwarded call per source call at the same position: the original call, except that an uncopyable value becomes the clone-failure error |
| TapOperator.ClonedStreamUnchanged | operators/tap-operator.ts:20-34 | when every value can be copied, the forwarded stream equals the source stream, and the diverter is called once per value, in order, with that value's copy |
| SkipOperator.Step | operators/skip-operator.ts:15-26 | a value is either dropped while the counter is below the limit (and the counter grows by one) or forwarded unchanged (and the counter stays); terminal calls pass unchanged |
| SkipOperator.DropsRemaining | operators/skip-operator.ts:15-26 | from any counter, the consumer drops the first limit-minus-counter values (at least 0), forwards the rest unchanged and in order, grows the counter by the number dropped and only forwards |
| SkipOperator.FreshSkipDrops | operators/skip-operator.ts:7-23 | a fresh skip(limit) forwards the source values with the first max(limit, 0) of them removed |
| SkipOperator.CounterBounded | operators/skip-operator.ts:16-19 | starting within 0..max(limit, 0), the counter stays within it |
| SkipOperator.ExhaustedSkipsNothing | operators/skip-operator.ts:9-23 | once the shared counter has reached the limit, later consumers from the same skip(limit) forward every call unchanged |
| SkipOperator.Skip.Consume | operators/skip-operator.ts:15-26 | one call on a consumer updates the shared counter and acts exactly as SkipOperator.Step says |
| TakeOperator.Step | operators/take-operator.ts:15-30 | each value increments the counter; it is forwarded if and only if the new counter is at most the limit; the source is unsubscribed if and only if the counter equals the limit, and then completed() follows; terminal calls pass unchanged |
| TakeOperator.TakesRemaining | operators/take-operator.ts:15-28 | from any counter, values are forwarded unchanged and in order up to the remaining allowance; when the limit is reached, the unsubscribe and then completed() come right after the last of them |
| TakeOperator.ForwardedPrefix | operators/take-operator.ts:15-28 | the forwarded values are the source values cut to the remaining allowance, and completed() and the unsubscribe happen exactly when the limit is reached |
| TakeOperator.FreshTake | operators/take-operator.ts:7-28 | a fresh take(limit) forwards exactly the first min(k, max(limit, 0)) of k values and completes exactly when 1 <= limit <= k |
| TakeOperator.NonPositiveLimitForwardsNoValue | operators/take-operator.ts:16-27 | with limit <= 0, no value is forwarded, the source is never unsubscribed, and only terminal calls pass |
| TakeOperator.CountsEveryValue | operators/take-operator.ts:9-16 | the shared counter grows by exactly one per value received, whatever else arrives |
| TakeOperator.Take.Consume | operators/take-operator.ts:15-30 | one call on a consumer updates the shared counter and acts exactly as TakeOperator.Step says |
| StartWithOperator.OnSignal | operators/start-with-operator.ts:20-27 | every source call is passed on unchanged |
| StartWithOperator.Prologue | operators/start-with-operator.ts:14-20 | the producer sets the flag; it emits the starting value before subscribing to the source if and only if the flag was clear |
| StartWithOperator.SeedBeforeFirstSubscription | operators/start-with-operator.ts:9-27 | with the flag clear, the starting value is emitted exactly once, right before the first subscription's source subscription; everything else passes as without startWith |
| StartWithOperator.SetFlagAddsNothing | operators/start-with-operator.ts:9-20 | once the shared flag is set, later subscriptions only subscribe to the source and pass its calls on |
| StartWithOperator.NoSubscriptionNoSeed | operators/start-with-operator.ts:14-18 | without a subscription, the starting value is never emitted |
| StartWithOperator.FirstSubscriptionStream | operators/start-with-operator.ts:14-27 | the first subscription receives the starting value and then the source's calls, unchanged and in order |
| StartWithOperator.StartWith.Produce | operators/start-with-operator.ts:13-20 | one run of a producer sets the shared flag and acts exactly as StartWithOperator.Prologue says |
| Pipeline.Deliver | observables/observable.ts:27-50 | a call at any level keeps the chain invariant: the subscriber receives nothing after a terminal call, a terminal call at the last level closes it, and the source producer's cleanup runs at most once and only after level 0 is closed |
| Pipeline.Consume | operators/take-operator.ts:14-31 | stage i's consumer (the operator module's consumer function; skip and take also update their factory counter) acting on level i+1: the chain invariant is kept, the log only grows, no stored cleanup or link changes, and after a throw nothing changes |
| Pipeline.Act | operators/take-operator.ts:24-26 | one consumer action: forwarding is a call on level i+1's stoppable observer, unsubscribing cancels level i or throws while subscriptionToSource$ is uninitialised; every action keeps the invariant and only appends to the log |
| Pipeline.Cancel | observables/observable.ts:53-59 | the stoppable cleanup of level j: the invariant is kept, flags are only set, and once the source level is closed it adds no further source cleanup |
| Pipeline.RunStored | observables/observable.ts:37-39 | a level's stored _cleanUpFn after a terminal call: the no-op until its producer has returned; the invariant is kept, and above the source it never runs the source cleanup again once level 0 is closed |
| Pipeline.RunReturned | operators/take-operator.ts:33-36 | the cleanup a producer returned: the source producer's cleanup at level 0, unsubscribe from the level below above it (throwing while uninitialised); the invariant is kept |
| Pipeline.SubscribeAt | operators/start-with-operator.ts:13-27 | subscribing a level runs the producers down to the source (a startWith performing StartWithOperator.Prologue first); the log only grows and the invariant is kept; if nothing throws, every source subscription below is initialised and every cleanup stored |
| Pipeline.StartWithSeedsFirst | operators/start-with-operator.ts:15-20 | startWith(x) as the last stage with its flag clear: the first thing the subscriber receives on subscribe() is next(x), before the source producer runs or emits |
| Pipeline.Start | observables/observable.ts:62-73 | subscribe() on the piped Observable leaves a well-formed chain satisfying the invariant |
| Pipeline.Run | observables/observable.ts:27-59 | later source calls and unsubscribe() calls keep the invariant and only extend the log |
| Pipeline.ObserverContract | observables/observable.ts:27-59 | for any stages, factory state and source script, the subscriber receives nothing after a terminal call and the source cleanup runs at most once |
| Pipeline.CancelCascades | operators/take-operator.ts:33-36 | unsubscribe() at level j closes every level down to the source, each derived cleanup unsubscribing the level below, and runs the source producer's cleanup exactly once |
| Pipeline.UnsubscribeReachesSource | operators/map-operator.ts:27-30 | the subscriber's unsubscribe() runs the source cleanup once, delivers nothing, and afterwards nothing has any effect |
| Pipeline.TerminalPassesThrough | operators/filter-operator.ts:24-25 | every operator passes error() and completed() on unchanged, leaving its factory state as it was |
| Pipeline.TerminalShortCircuits | observables/observable.ts:34-46 | a terminal call entering at level j once every level below j is unsubscribed: it reaches the subscriber once and closes every level; the source cleanup runs once if j is the source, and not at all otherwise |
| Pipeline.TerminalCascades | observables/observable.ts:34-46 | a terminal call entering at any level j while no level is unsubscribed: it reaches the subscriber once, level j's cleanup then unsubscribes down to the source, the source cleanup runs exactly once, and every level ends closed |
| Pipeline.TapCloneFailureCascades | operators/tap-operator.ts:20-43 | tap at any stage, given a value it cannot copy, in an open chain: the diverter is not called, the subscriber receives the formatted error, then the source cleanup runs once, and every level ends closed |
| Pipeline.SourceTerminalShortCircuits | observables/observable.ts:34-46 | error() or completed() from the source reaches the subscriber, then the source cleanup runs once, and afterwards nothing has any effect |
| Pipeline.ClosedChainSilent | observables/observable.ts:29-59 | once every level is closed, no event changes anything |
| Pipeline.SkipInChain | operators/skip-operator.ts:15-24 | in a chain, skip below its limit only counts the value; at or past it, it passes the value to the next level |
| Pipeline.TakeInChain | operators/take-operator.ts:15-21 | in a chain, take away from its limit counts the value and passes it on below the limit, and only counts it past the limit |
| Pipeline.TakeUnsubscribesThenCompletes | operators/take-operator.ts:15-28 | take as the last stage, at its limit: the subscriber gets the value, then the source cleanup runs, then the subscriber gets completed(); every level ends closed and the counter equals the limit |
| Pipeline.StartWithThenTakeOneThrows | operators/take-operator.ts:14-27 | pipe(startWith(x), take(1)) on a fresh subscription delivers x and then throws, because take unsubscribes before subscriptionToSource$ is initialised |
| Pipeline.SkipTwoTakeThree | observables/observable.ts:76-85 | pipe(skip(2), take(3)) on a source emitting at least five values delivers the third to fifth, runs the source cleanup, then completes |

## Left out

- `Math.round` on the limit of skip and take is floating point. The limit is an `int`.
- `structuredClone` is a runtime call. It is a parameter `clone: T -> CloneOutcome<T>`. The text of its exception stands in for `${err}` in the error message.
- The producer body, transformation, predicate and diverter are user callbacks. They are parameters or scripts, and their side effects are not modelled. An exception thrown by one of them (other than a failed copy in tap) is not modelled.
- Pipeline: the subscriber's observer makes no calls back into the chain. An `unsubscribe()` made from inside its `next()`, `error()` or `completed()` is not modelled; the subscriber's `unsubscribe()` is only an event between source emissions. At take's limit such a call would close the last level before take's own `completed()`, which the subscriber would then not receive, so `TakeUnsubscribesThenCompletes` and `SkipTwoTakeThree` hold for a subscriber that does not call back.
- Timers and asynchrony (`setInterval` in examples.ts) are absent. Later emissions are events that happen after `subscribe()` has returned.
- examples.ts is demo wiring. types/observables-library-types.d.ts holds only type declarations. Their types appear as the datatypes `Signal`, `Subscription` and `Stage`.
- Pipeline: a chain carries one value type. So map is `T -> T` there, while `MapOperator` is generic over `T -> R`.
- Pipeline: it models one subscription to the piped Observable. Several subscriptions through the same operator values are covered per operator, through the factory-state lemmas and classes.
- The `error` payload (`any`) is carried as a `string` in every module, through `Signals.Signal`.
- Pipeline: once `thrown` is set, every later event leaves the chain unchanged, so the exception is treated as the end of the program. In the library a caller that catches it still sees later effects: a source that keeps emitting still raises take's counter, and a later `error()` or `completed()` passes take's open guard to the subscriber. The model does not cover anything after the throw.
- Pipeline: factory state is kept per stage position (`memory[i]`). One operator value passed twice to the same `pipe()` shares one counter in the library. With `const t = take(2); src.pipe(t, t)`, for example, a single value completes the stream. The model gives each position its own counter. The sharing between subscriptions is covered per operator, by the operator classes.
- Pipeline: each level's guard is a value in a sequence, not a separate `Observable` object. Aliasing between levels is therefore not modelled.
- Observable: the several observers handed to one instance on repeated subscriptions are not told apart. `delivered` is the trace of every call that passed the guard.
