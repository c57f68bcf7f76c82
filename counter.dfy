/** The counter built on the protocol: state is a number starting at 1, a click
    adds `incrementBy` (default 1) and reports the new value both as the next
    state and through the `onCounterChange` output. */
module Counter {
  import opened Optional
  import opened Oxymora
  import Stateify

  /** The counter's input props: `incrementBy?: number`. */
  datatype CounterInputs = CounterInputs(incrementBy: Option<int>)

  /** The counter's only output name. */
  datatype CounterOutput = OnCounterChange

  type CounterContext = ContextValue<int, CounterInputs, CounterOutput>
  type CounterResult = HandlerResult<int, CounterOutput, int>

  /** The initial state configured for the pure counter. */
  const InitialCount: int := 1

  /** JavaScript truthiness of a number (NaN does not arise over integers). */
  function NumberTruthy(n: int): (b: bool)
    ensures !b <==> n == 0
  {
    n != 0
  }

  /** `onIncrementCounter`'s handler body: the new value goes under both `state`
      and `onCounterChange`, in that key order. */
  function OnIncrementCounter(ctx: CounterContext): (r: CounterResult)
    ensures r.state.Some?
    ensures ctx.inputs.incrementBy.None? ==> r.state.value - ctx.state == 1
    ensures ctx.inputs.incrementBy.Some? ==> r.state.value - ctx.state == ctx.inputs.incrementBy.value
    ensures r.outputs == [(OnCounterChange, r.state.value)]
  {
    var newState := ctx.state + ctx.inputs.incrementBy.GetOr(1);
    HandlerResult(Some(newState), [(OnCounterChange, newState)])
  }

  /** The handler as bound to the button's click. */
  function ClickHandler(click: (), ctx: CounterContext): CounterResult
  {
    OnIncrementCounter(ctx)
  }

  /** A click forwards the new value to `onStateChange` first and then to
      `onCounterChange` when the owner supplied it; a new value of 0 is falsy,
      so it still reaches `onCounterChange` but is not forwarded as state. */
  lemma IncrementDispatch(ctx: CounterContext)
    ensures var n := ctx.state + ctx.inputs.incrementBy.GetOr(1);
      Forwarded(ctx, OnIncrementCounter(ctx), NumberTruthy) ==
        (if n != 0 then [StateChange(ctx.onStateChange, n)] else []) +
        (if OnCounterChange in ctx.callbacks then [Output(OnCounterChange, ctx.callbacks[OnCounterChange], n)] else [])
  {
    var n := ctx.state + ctx.inputs.incrementBy.GetOr(1);
    var r := OnIncrementCounter(ctx);
    assert r == HandlerResult(Some(n), [(OnCounterChange, n)]);
    assert StateCalls(ctx, r, NumberTruthy) == if n != 0 then [StateChange(ctx.onStateChange, n)] else [];
    assert r.outputs[..0] == [];
    assert OutputCalls<int, CounterOutput, int>(ctx.callbacks, r.outputs) == OutputCall(ctx.callbacks, (OnCounterChange, n));
  }

  /** State 1 and `incrementBy` 2: `onStateChange(3)`, then `onCounterChange(3)`. */
  lemma IncrementFromOneByTwo(owner: nat, listener: nat)
    ensures var ctx := ContextValue(1, Callback(owner), CounterInputs(Some(2)), map[OnCounterChange := Callback(listener)]);
      Forwarded(ctx, OnIncrementCounter(ctx), NumberTruthy) ==
        [StateChange(Callback(owner), 3), Output(OnCounterChange, Callback(listener), 3)]
  {
    var ctx := ContextValue(1, Callback(owner), CounterInputs(Some(2)), map[OnCounterChange := Callback(listener)]);
    IncrementDispatch(ctx);
  }

  /** A stateful counter just mounted shows the initial 1; a click with the
      default increment leaves its cell holding 2. */
  lemma StatefulCounterFirstClick(owner: nat, callbacks: map<CounterOutput, Listener>)
    requires Callback(owner) !in callbacks.Values
    ensures var ctx := Provide(InitialCount, Props(None, Callback(owner), CounterInputs(None), callbacks));
      && ctx.state == 1
      && Stateify.Absorb(None, Callback(owner), Forwarded(ctx, OnIncrementCounter(ctx), NumberTruthy)) == Some(2)
  {
    var ctx := Provide(InitialCount, Props(None, Callback(owner), CounterInputs(None), callbacks));
    Stateify.AbsorbForwarded(None, ctx, OnIncrementCounter(ctx), NumberTruthy);
  }

  /** From state 1 with `incrementBy` -1 the new value 0 is falsy: the owner's
      `onCounterChange` hears 0, but the owner's state setter is not called,
      so a stateful owner keeps showing 1. The setter is private to the
      adapter, so it is not the `onCounterChange` listener. */
  lemma CounterReachingZeroKeepsState(owner: nat, listener: nat)
    requires listener != owner
    ensures var ctx := ContextValue(1, Callback(owner), CounterInputs(Some(-1)), map[OnCounterChange := Callback(listener)]);
      var calls := Forwarded(ctx, OnIncrementCounter(ctx), NumberTruthy);
      && calls == [Output(OnCounterChange, Callback(listener), 0)]
      && Stateify.Absorb(Some(1), Callback(owner), calls) == Some(1)
  {
    var ctx := ContextValue(1, Callback(owner), CounterInputs(Some(-1)), map[OnCounterChange := Callback(listener)]);
    IncrementDispatch(ctx);
    Stateify.AbsorbForwarded(Some(1), ctx, OnIncrementCounter(ctx), NumberTruthy);
  }

  /** Clicking the counter owned by a stateful adapter, end to end. */
  method ClickStatefulCounter(counter: Stateify.Stateful<int, CounterInputs, CounterOutput>, caller: Props<int, CounterInputs, CounterOutput>)
    requires counter.setState !in caller.callbacks.Values
    modifies counter
    ensures var n := ResolveState(InitialCount, old(counter.cell)) + caller.inputs.incrementBy.GetOr(1);
            counter.cell == if n != 0 then Some(n) else old(counter.cell)
  {
    counter.Interact(InitialCount, caller, ClickHandler, NumberTruthy, ());
  }
}
