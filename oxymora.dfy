/** The state-binding protocol: a pure component resolves its state, provides a
    context value to its subtree, and a bound handler's partial result is
    forwarded to the owner's `onStateChange` and output callbacks.

    React's context is modelled as an explicit scope threaded down the tree;
    callbacks are identities, and calling one is recorded in a trace. */
module Oxymora {
  import opened Optional
  import opened Seqs

  /** A function value an owner hands to a component. The protocol only ever
      calls it, so its identity is all the model keeps. `NoOp` is the
      `onStateChange` of the context's default value. */
  datatype Listener = NoOp | Callback(id: nat)

  /** `Props<SS>`: the props a pure component is instantiated with. `state` is
      `None` when the owner passes `undefined`; `callbacks` holds the output
      callbacks the owner supplied, one optional slot per output name. */
  datatype Props<S, I, K> = Props(
    state: Option<S>,
    onStateChange: Listener,
    inputs: I,
    callbacks: map<K, Listener>)

  /** The context value `{ ...props, state }`: the props with the state resolved. */
  datatype ContextValue<S, I, K> = ContextValue(
    state: S,
    onStateChange: Listener,
    inputs: I,
    callbacks: map<K, Listener>)

  /** What a handler returns: an optional next state and the output entries,
      in the order of the result object's keys. Output names never include
      `state`, which is why the `state` entry is a field of its own. */
  datatype HandlerResult<S, K, P> = HandlerResult(state: Option<S>, outputs: seq<(K, P)>)

  /** One call the dispatcher makes. */
  datatype Call<S, K, P> =
    | StateChange(target: Listener, next: S)
    | Output(key: K, target: Listener, payload: P)

  /** The ambient context where a descendant is rendered: outside every pure
      component, or inside the one that provided `value` (nested in `outer`). */
  datatype Scope<S, I, K> = Root | Within(value: ContextValue<S, I, K>, outer: Scope<S, I, K>)

  /** What a pure component renders: the props its inner component receives and
      the scope its subtree sees. */
  datatype Rendering<S, I, K> = Rendering(componentProps: ContextValue<S, I, K>, scope: Scope<S, I, K>)

  /** The result `{ state }` of a handler that emits no output. */
  function StateOnly<S, K, P>(next: S): HandlerResult<S, K, P>
  {
    HandlerResult(Some(next), [])
  }

  /** Truthiness of a state that is an object: always truthy. */
  function ObjectTruthy<S>(s: S): bool
  {
    true
  }

  // ---------------------------------------------------------------------------
  // pureStatefulComponent

  /** An `undefined` state falls back to the configured initial state; any
      other state is kept as supplied. */
  function ResolveState<S>(initial: S, supplied: Option<S>): (s: S)
    ensures supplied.None? ==> s == initial
    ensures supplied.Some? ==> s == supplied.value
  {
    supplied.GetOr(initial)
  }

  /** The context value the pure component provides: the caller's props with
      only `state` replaced by the resolved state. */
  function Provide<S, I, K>(initial: S, props: Props<S, I, K>): (ctx: ContextValue<S, I, K>)
    ensures ctx.state == ResolveState(initial, props.state)
    ensures ctx.onStateChange == props.onStateChange
    ensures ctx.inputs == props.inputs && ctx.callbacks == props.callbacks
  {
    ContextValue(ResolveState(initial, props.state), props.onStateChange, props.inputs, props.callbacks)
  }

  /** Rendering a pure component inside `outer`: the inner component gets the
      same props as the context value, and the subtree sees that value first. */
  function Render<S, I, K>(initial: S, props: Props<S, I, K>, outer: Scope<S, I, K>): (r: Rendering<S, I, K>)
    ensures r.componentProps == Provide(initial, props)
    ensures Ambient(r.scope) == Some(r.componentProps)
    ensures r.scope.outer == outer
  {
    var ctx := Provide(initial, props);
    Rendering(ctx, Within(ctx, outer))
  }

  // ---------------------------------------------------------------------------
  // The ambient context

  /** The value `useContext` reads: the nearest provider's, or `None` for the
      default value `{ state: undefined, onStateChange: () => {} }`. */
  function Ambient<S, I, K>(scope: Scope<S, I, K>): (v: Option<ContextValue<S, I, K>>)
    ensures scope.Root? <==> v.None?
    ensures scope.Within? ==> v == Some(scope.value)
  {
    match scope
    case Root => None
    case Within(v, _) => Some(v)
  }

  /** The ambient `state`: `None` (undefined) outside every provider. */
  function AmbientState<S, I, K>(scope: Scope<S, I, K>): (s: Option<S>)
    ensures scope.Root? ==> s.None?
    ensures scope.Within? ==> s == Some(scope.value.state)
  {
    match Ambient(scope)
    case None => None
    case Some(v) => Some(v.state)
  }

  /** The ambient `onStateChange`: the no-op outside every provider. */
  function AmbientOnStateChange<S, I, K>(scope: Scope<S, I, K>): (l: Listener)
    ensures scope.Root? ==> l == NoOp
    ensures scope.Within? ==> l == scope.value.onStateChange
  {
    match Ambient(scope)
    case None => NoOp
    case Some(v) => v.onStateChange
  }

  /** One level of the component tree between the root and a descendant: a pure
      component instance, or any other element, which passes the scope on. */
  datatype Layer<S, I, K> = PureLayer(initial: S, props: Props<S, I, K>) | HostLayer

  /** The scope a child sees, given the scope its parent sees. */
  function Enter<S, I, K>(scope: Scope<S, I, K>, layer: Layer<S, I, K>): Scope<S, I, K>
  {
    match layer
    case PureLayer(initial, props) => Render(initial, props, scope).scope
    case HostLayer => scope
  }

  /** The scope threaded from `scope` down through `layers`, parent first. */
  function Descend<S, I, K>(scope: Scope<S, I, K>, layers: seq<Layer<S, I, K>>): Scope<S, I, K>
    decreases |layers|
  {
    if layers == [] then scope else Descend(Enter(scope, layers[0]), layers[1..])
  }

  /** Reference definition: the innermost pure component on a path, found by
      searching from the descendant upwards. */
  function InnermostPure<S, I, K>(layers: seq<Layer<S, I, K>>): Option<Layer<S, I, K>>
    decreases |layers|
  {
    if layers == [] then None
    else if layers[|layers| - 1].PureLayer? then Some(layers[|layers| - 1])
    else InnermostPure(layers[..|layers| - 1])
  }

  lemma {:induction false} DescendSnoc<S, I, K>(scope: Scope<S, I, K>, layers: seq<Layer<S, I, K>>, last: Layer<S, I, K>)
    ensures Descend(scope, layers + [last]) == Enter(Descend(scope, layers), last)
    decreases |layers|
  {
    if layers == [] {
      assert [] + [last] == [last];
      assert [last][1..] == [];
    } else {
      assert (layers + [last])[0] == layers[0];
      assert (layers + [last])[1..] == layers[1..] + [last];
      DescendSnoc(Enter(scope, layers[0]), layers[1..], last);
    }
  }

  /** The nearest provider wins: a descendant below `layers` reads the context
      value of the innermost pure component on its path, and reads the outer
      scope's value only when there is none. */
  lemma {:induction false} NearestProviderWins<S, I, K>(scope: Scope<S, I, K>, layers: seq<Layer<S, I, K>>)
    ensures Ambient(Descend(scope, layers)) ==
      match InnermostPure(layers)
      case Some(PureLayer(initial, props)) => Some(Provide(initial, props))
      case _ => Ambient(scope)
    decreases |layers|
  {
    if layers != [] {
      var n := |layers| - 1;
      assert layers == layers[..n] + [layers[n]];
      DescendSnoc(scope, layers[..n], layers[n]);
      NearestProviderWins(scope, layers[..n]);
    }
  }

  /** Two nested pure components: a descendant of the inner one, however many
      plain elements lie in between, sees the inner component's value. */
  lemma InnerShadowsOuter<S, I, K>(
    outerInitial: S, outerProps: Props<S, I, K>,
    innerInitial: S, innerProps: Props<S, I, K>,
    between: seq<Layer<S, I, K>>, below: seq<Layer<S, I, K>>)
    requires forall i :: 0 <= i < |between| ==> between[i].HostLayer?
    requires forall i :: 0 <= i < |below| ==> below[i].HostLayer?
    ensures var path := [PureLayer(outerInitial, outerProps)] + between + [PureLayer(innerInitial, innerProps)] + below;
            Ambient(Descend(Root, path)) == Some(Provide(innerInitial, innerProps))
  {
    var path := [PureLayer(outerInitial, outerProps)] + between + [PureLayer(innerInitial, innerProps)] + below;
    var upToInner := [PureLayer(outerInitial, outerProps)] + between + [PureLayer(innerInitial, innerProps)];
    assert InnermostPure(upToInner) == Some(PureLayer(innerInitial, innerProps));
    InnermostPureSkipsHosts(upToInner, below);
    NearestProviderWins(Root, path);
  }

  lemma {:induction false} InnermostPureSkipsHosts<S, I, K>(layers: seq<Layer<S, I, K>>, hosts: seq<Layer<S, I, K>>)
    requires forall i :: 0 <= i < |hosts| ==> hosts[i].HostLayer?
    ensures InnermostPure(layers + hosts) == InnermostPure(layers)
    decreases |hosts|
  {
    if hosts == [] {
      assert layers + hosts == layers;
    } else {
      var n := |hosts| - 1;
      var all := layers + hosts;
      assert all[|all| - 1] == hosts[n] && hosts[n].HostLayer?;
      assert all[..|all| - 1] == layers + hosts[..n];
      InnermostPureSkipsHosts(layers, hosts[..n]);
      assert InnermostPure(all) == InnermostPure(all[..|all| - 1]);
    }
  }

  // ---------------------------------------------------------------------------
  // usePureStatefulCallback: dispatching a handler's result

  /** Step 1: `if (result.state) onStateChange(result.state)`. A state that is
      absent or falsy is not forwarded. */
  function StateCalls<S, I, K, P>(ctx: ContextValue<S, I, K>, result: HandlerResult<S, K, P>, truthy: S -> bool)
    : (calls: seq<Call<S, K, P>>)
    ensures |calls| <= 1
    ensures calls != [] <==> result.state.Some? && truthy(result.state.value)
    ensures forall i :: 0 <= i < |calls| ==> calls[i] == StateChange(ctx.onStateChange, result.state.value)
  {
    if result.state.Some? && truthy(result.state.value) then [StateChange(ctx.onStateChange, result.state.value)]
    else []
  }

  /** The call one output entry causes: one call of the same-named callback if
      the owner supplied it, none otherwise. */
  function OutputCall<S, K, P>(callbacks: map<K, Listener>, entry: (K, P)): (calls: seq<Call<S, K, P>>)
    ensures |calls| <= 1
    ensures calls != [] <==> entry.0 in callbacks
    ensures forall i :: 0 <= i < |calls| ==> calls[i] == Output(entry.0, callbacks[entry.0], entry.1)
  {
    if entry.0 in callbacks then [Output(entry.0, callbacks[entry.0], entry.1)] else []
  }

  /** Step 2: the `forEach` over the result's other keys, in key order. */
  function OutputCalls<S, K, P>(callbacks: map<K, Listener>, entries: seq<(K, P)>): (calls: seq<Call<S, K, P>>)
    ensures |calls| <= |entries|
    ensures forall i :: 0 <= i < |calls| ==> calls[i].Output? && calls[i].key in callbacks
    decreases |entries|
  {
    if entries == [] then []
    else OutputCalls(callbacks, entries[..|entries| - 1]) + OutputCall(callbacks, entries[|entries| - 1])
  }

  /** Every output call goes to a callback the owner supplied. */
  lemma {:induction false} OutputCallTargets<S, K, P>(callbacks: map<K, Listener>, entries: seq<(K, P)>)
    ensures forall i :: 0 <= i < |OutputCalls<S, K, P>(callbacks, entries)| ==>
      OutputCalls<S, K, P>(callbacks, entries)[i].target in callbacks.Values
    decreases |entries|
  {
    if entries != [] {
      OutputCallTargets<S, K, P>(callbacks, entries[..|entries| - 1]);
    }
  }

  /** Every call one dispatch of `result` makes, in order. */
  function Forwarded<S, I, K, P>(ctx: ContextValue<S, I, K>, result: HandlerResult<S, K, P>, truthy: S -> bool)
    : (calls: seq<Call<S, K, P>>)
    ensures |calls| <= 1 + |result.outputs|
    ensures forall i :: 0 <= i < |calls| && calls[i].StateChange? ==>
      i == 0 && result.state.Some? && calls[i] == StateChange(ctx.onStateChange, result.state.value)
    ensures forall i :: 0 <= i < |calls| && calls[i].Output? ==> calls[i].target in ctx.callbacks.Values
  {
    OutputCallTargets<S, K, P>(ctx.callbacks, result.outputs);
    StateCalls(ctx, result, truthy) + OutputCalls(ctx.callbacks, result.outputs)
  }

  /** Every call a bound handler makes when `event` fires below `scope`: the
      handler runs once on the event and the nearest context value. */
  function DispatchCalls<E, S, I, K, P>(
    scope: Scope<S, I, K>, handler: (E, ContextValue<S, I, K>) -> HandlerResult<S, K, P>,
    truthy: S -> bool, event: E): (calls: seq<Call<S, K, P>>)
    ensures scope.Root? ==> calls == []
    ensures forall i :: 0 <= i < |calls| && calls[i].StateChange? ==> calls[i].target == AmbientOnStateChange(scope)
    ensures forall i :: 0 <= i < |calls| && calls[i].Output? ==> calls[i].target in scope.value.callbacks.Values
  {
    match Ambient(scope)
    case None => []
    case Some(ctx) => Forwarded(ctx, handler(event, ctx), truthy)
  }

  /** The key loop one entry further on. */
  lemma OutputCallsStep<S, K, P>(callbacks: map<K, Listener>, entries: seq<(K, P)>, i: nat)
    requires i < |entries|
    ensures OutputCalls<S, K, P>(callbacks, entries[..i + 1]) ==
      OutputCalls<S, K, P>(callbacks, entries[..i]) + OutputCall(callbacks, entries[i])
  {
    assert entries[..i + 1][..i] == entries[..i];
  }

  /** The bound event handler: read the ambient context value, run the handler
      on the event and that value, forward the state, then call the output
      callbacks the owner supplied. */
  method Dispatch<E, S, I, K, P>(
    scope: Scope<S, I, K>, handler: (E, ContextValue<S, I, K>) -> HandlerResult<S, K, P>,
    truthy: S -> bool, event: E) returns (calls: seq<Call<S, K, P>>)
    ensures calls == DispatchCalls(scope, handler, truthy, event)
  {
    calls := [];
    var ambient := Ambient(scope);
    if ambient.Some? {
      var ctx := ambient.value;
      var result := handler(event, ctx);
      if result.state.Some? && truthy(result.state.value) {
        calls := [StateChange(ctx.onStateChange, result.state.value)];
      }
      var outputCalls: seq<Call<S, K, P>> := [];
      var i := 0;
      while i < |result.outputs|
        invariant 0 <= i <= |result.outputs|
        invariant outputCalls == OutputCalls(ctx.callbacks, result.outputs[..i])
      {
        var (key, payload) := result.outputs[i];
        OutputCallsStep<S, K, P>(ctx.callbacks, result.outputs, i);
        if key in ctx.callbacks {
          outputCalls := outputCalls + [Output(key, ctx.callbacks[key], payload)];
        }
        i := i + 1;
      }
      assert result.outputs[..i] == result.outputs;
      calls := calls + outputCalls;
    }
  }

  // ---------------------------------------------------------------------------
  // What one dispatch guarantees

  ghost function IsStateChange<S, K, P>(c: Call<S, K, P>): bool
  {
    c.StateChange?
  }

  ghost function IsOutputFor<S, K, P>(key: K): Call<S, K, P> -> bool
  {
    (c: Call<S, K, P>) => c.Output? && c.key == key
  }

  /** The output keys of a result are distinct, as the keys of an object are. */
  ghost predicate DistinctKeys<K, P>(entries: seq<(K, P)>)
  {
    forall i, j :: 0 <= i < j < |entries| ==> entries[i].0 != entries[j].0
  }

  /** `onStateChange` is called exactly once, with the result's state, when
      that state is truthy, and never otherwise; it is the first call made, and
      every later call goes to an output callback. */
  lemma StateForwardedFirstIffTruthy<S, I, K, P>(ctx: ContextValue<S, I, K>, result: HandlerResult<S, K, P>, truthy: S -> bool)
    ensures var calls := Forwarded(ctx, result, truthy);
      && Filter(IsStateChange, calls) ==
           (if result.state.Some? && truthy(result.state.value)
            then [StateChange(ctx.onStateChange, result.state.value)] else [])
      && forall i :: 0 <= i < |calls| ==>
           (calls[i].StateChange? <==> i == 0 && result.state.Some? && truthy(result.state.value))
  {
    var outs := OutputCalls(ctx.callbacks, result.outputs);
    FilterAppend(IsStateChange, StateCalls(ctx, result, truthy), outs);
    FilterDropsAll(IsStateChange, outs);
    var s := StateCalls(ctx, result, truthy);
    assert Filter(IsStateChange, s) == s by {
      if s != [] {
        assert s[1..] == [];
      }
    }
  }

  /** With distinct keys, each output entry whose callback the owner supplied
      causes exactly one call of that callback with the entry's payload; an
      entry without a supplied callback causes none. */
  lemma {:induction false} OutputCalledOncePerEntry<S, K, P>(callbacks: map<K, Listener>, entries: seq<(K, P)>, j: nat)
    requires DistinctKeys(entries)
    requires j < |entries|
    ensures Filter(IsOutputFor(entries[j].0), OutputCalls<S, K, P>(callbacks, entries)) ==
      OutputCall(callbacks, entries[j])
    decreases |entries|
  {
    var n := |entries| - 1;
    var init := entries[..n];
    var key := entries[j].0;
    var p: Call<S, K, P> -> bool := IsOutputFor(key);
    FilterAppend(p, OutputCalls<S, K, P>(callbacks, init), OutputCall(callbacks, entries[n]));
    if j == n {
      OutputKeyAbsent<S, K, P>(callbacks, init, key);
    } else {
      assert init[j] == entries[j];
      OutputCalledOncePerEntry<S, K, P>(callbacks, init, j);
      assert entries[n].0 != key;
    }
  }

  /** A key that no entry carries causes no call. */
  lemma {:induction false} OutputKeyAbsent<S, K, P>(callbacks: map<K, Listener>, entries: seq<(K, P)>, key: K)
    requires forall i :: 0 <= i < |entries| ==> entries[i].0 != key
    ensures Filter(IsOutputFor(key), OutputCalls<S, K, P>(callbacks, entries)) == []
    decreases |entries|
  {
    if entries != [] {
      var n := |entries| - 1;
      FilterAppend(IsOutputFor(key), OutputCalls<S, K, P>(callbacks, entries[..n]), OutputCall(callbacks, entries[n]));
      OutputKeyAbsent<S, K, P>(callbacks, entries[..n], key);
    }
  }

  /** The whole dispatch, for one output name: the calls made to the callback of
      that name are the calls its entry causes (one with the entry's payload
      when the owner supplied the callback, none otherwise), and none when no
      entry has that name; the `state` entry never triggers an output call. */
  lemma OutputCallsPerKey<S, I, K, P>(ctx: ContextValue<S, I, K>, result: HandlerResult<S, K, P>, truthy: S -> bool, key: K)
    requires DistinctKeys(result.outputs)
    ensures (forall j :: 0 <= j < |result.outputs| ==> result.outputs[j].0 != key) ==>
      Filter(IsOutputFor(key), Forwarded(ctx, result, truthy)) == []
    ensures forall j :: 0 <= j < |result.outputs| && result.outputs[j].0 == key ==>
      Filter(IsOutputFor(key), Forwarded(ctx, result, truthy)) == OutputCall(ctx.callbacks, result.outputs[j])
  {
    var s := StateCalls(ctx, result, truthy);
    var o := OutputCalls(ctx.callbacks, result.outputs);
    FilterAppend(IsOutputFor(key), s, o);
    FilterDropsAll(IsOutputFor(key), s);
    assert Filter(IsOutputFor(key), Forwarded(ctx, result, truthy)) == Filter(IsOutputFor(key), o);
    if forall j :: 0 <= j < |result.outputs| ==> result.outputs[j].0 != key {
      OutputKeyAbsent<S, K, P>(ctx.callbacks, result.outputs, key);
    }
    forall j | 0 <= j < |result.outputs| && result.outputs[j].0 == key
      ensures Filter(IsOutputFor(key), o) == OutputCall(ctx.callbacks, result.outputs[j])
    {
      OutputCalledOncePerEntry<S, K, P>(ctx.callbacks, result.outputs, j);
    }
  }

  /** A result holding only a state hands that state to `onStateChange` (when
      truthy) and calls no output callback. */
  lemma StateOnlyForwarding<S, I, K, P>(ctx: ContextValue<S, I, K>, next: S, truthy: S -> bool)
    ensures Forwarded(ctx, StateOnly<S, K, P>(next), truthy) ==
      if truthy(next) then [StateChange(ctx.onStateChange, next)] else []
  {
  }

  /** Forwarding does not look at the current state: a next state equal to the
      current one is forwarded all the same. */
  lemma ForwardingIgnoresCurrentState<S, I, K, P>(ctx: ContextValue<S, I, K>, result: HandlerResult<S, K, P>, truthy: S -> bool, other: S)
    ensures Forwarded(ctx.(state := other), result, truthy) == Forwarded(ctx, result, truthy)
  {
  }
}
