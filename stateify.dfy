/** The ownership adapter (`makeStateful`): it owns one state cell, feeds the
    cell and its setter to the wrapped pure component, and forwards every other
    caller prop unchanged. */
module Stateify {
  import opened Optional
  import opened Oxymora

  /** The cell after the calls of `calls` reach the setter `target`, starting
      from `cell`: the last state call addressed to `target` decides, and
      calls addressed elsewhere leave the cell alone. Output calls are never
      addressed to a setter (see `NoOutputTo`). */
  function Absorb<S, K, P>(cell: Option<S>, target: Listener, calls: seq<Call<S, K, P>>): (r: Option<S>)
    ensures r == cell || (r.Some? && exists i :: 0 <= i < |calls| && calls[i] == StateChange(target, r.value))
    decreases |calls|
  {
    if calls == [] then cell
    else
      var n := |calls| - 1;
      var last := calls[n];
      if last.StateChange? && last.target == target then Some(last.next)
      else
        var r := Absorb(cell, target, calls[..n]);
        assert r != cell ==> r.Some? && exists i :: 0 <= i < n && calls[..n][i] == StateChange(target, r.value);
        assert forall i :: 0 <= i < n ==> calls[..n][i] == calls[i];
        r
  }

  /** No output call of `calls` is addressed to `target`. The setter that
      `makeStateful` creates is never handed to the caller, so no owner can
      pass it on as an output callback. */
  predicate NoOutputTo<S, K, P>(target: Listener, calls: seq<Call<S, K, P>>)
  {
    forall i :: 0 <= i < |calls| ==> !(calls[i].Output? && calls[i].target == target)
  }

  /** A component instance created by `makeStateful(Component)`. */
  class Stateful<S, I, K(==)> {
    /** The `useState` cell; `None` is `undefined`. */
    var cell: Option<S>
    /** The identity of the cell's `setState`, stable for the instance. */
    const setState: Listener

    /** Mounting: the cell starts unset, not at the wrapped component's default. */
    constructor (id: nat)
      ensures cell == None
      ensures setState == Callback(id)
    {
      cell := None;
      setState := Callback(id);
    }

    /** The props the wrapped component receives: the caller's props, then the
        adapter's `state` and `onStateChange`, which override any the caller
        passed because they are spread after them. */
    function WrappedProps(caller: Props<S, I, K>): (p: Props<S, I, K>)
      reads this
      ensures p.state == cell && p.onStateChange == setState
      ensures p.inputs == caller.inputs && p.callbacks == caller.callbacks
    {
      caller.(state := cell, onStateChange := setState)
    }

    /** `setState(next)`: the cell is replaced wholesale. */
    method OnStateChange(next: S)
      modifies this
      ensures cell == Some(next)
    {
      cell := Some(next);
    }

    /** The host delivering a dispatch's calls: each call addressed to this
        instance's setter replaces the cell, in order. */
    method Deliver<P>(calls: seq<Call<S, K, P>>)
      requires NoOutputTo(setState, calls)
      modifies this
      ensures cell == Absorb(old(cell), setState, calls)
    {
      var i := 0;
      while i < |calls|
        invariant 0 <= i <= |calls|
        invariant cell == Absorb(old(cell), setState, calls[..i])
      {
        assert calls[..i + 1][..i] == calls[..i];
        var c := calls[i];
        if c.StateChange? && c.target == setState {
          OnStateChange(c.next);
        }
        i := i + 1;
      }
      assert calls[..i] == calls;
    }

    /** One event end to end: render the wrapped component, let a descendant's
        bound handler dispatch, deliver the calls. The cell then holds the
        handler's next state when that state is truthy, and is unchanged
        otherwise. The setter is private to the adapter, so it is not among
        the caller's output callbacks. */
    method Interact<E, P>(
      initial: S, caller: Props<S, I, K>,
      handler: (E, ContextValue<S, I, K>) -> HandlerResult<S, K, P>,
      truthy: S -> bool, event: E)
      requires setState !in caller.callbacks.Values
      modifies this
      ensures var ctx := Provide(initial, old(WrappedProps(caller)));
              var result := handler(event, ctx);
              cell == if result.state.Some? && truthy(result.state.value) then result.state else old(cell)
    {
      var rendering := Render(initial, WrappedProps(caller), Root);
      var calls := Dispatch(rendering.scope, handler, truthy, event);
      AbsorbForwarded(cell, rendering.componentProps, handler(event, rendering.componentProps), truthy);
      Deliver(calls);
    }
  }

  lemma {:induction false} AbsorbSkipsOutputs<S, K, P>(cell: Option<S>, target: Listener, calls: seq<Call<S, K, P>>, outputs: seq<Call<S, K, P>>)
    requires forall i :: 0 <= i < |outputs| ==> outputs[i].Output?
    ensures Absorb(cell, target, calls + outputs) == Absorb(cell, target, calls)
    decreases |outputs|
  {
    if outputs == [] {
      assert calls + outputs == calls;
    } else {
      var n := |outputs| - 1;
      var all := calls + outputs;
      assert all[|all| - 1] == outputs[n];
      assert all[..|all| - 1] == calls + outputs[..n];
      AbsorbSkipsOutputs(cell, target, calls, outputs[..n]);
    }
  }

  /** A dispatch delivered to the owner of its context: the cell takes the
      result's state when it is truthy; output calls, which go to other
      listeners, never touch the cell. */
  lemma AbsorbForwarded<S, I, K, P>(cell: Option<S>, ctx: ContextValue<S, I, K>, result: HandlerResult<S, K, P>, truthy: S -> bool)
    ensures Absorb(cell, ctx.onStateChange, Forwarded(ctx, result, truthy)) ==
      if result.state.Some? && truthy(result.state.value) then result.state else cell
  {
    var s := StateCalls(ctx, result, truthy);
    AbsorbSkipsOutputs(cell, ctx.onStateChange, s, OutputCalls(ctx.callbacks, result.outputs));
    if s != [] {
      assert s[..0] == [];
    }
  }

  /** The cell stays unset exactly as long as no call reaches its setter: the
      adapter itself never stores the wrapped component's default. */
  lemma {:induction false} UnsetUntilFirstChange<S, K, P>(target: Listener, calls: seq<Call<S, K, P>>)
    ensures Absorb(None, target, calls) == None <==>
      forall i :: 0 <= i < |calls| ==> !(calls[i].StateChange? && calls[i].target == target)
    decreases |calls|
  {
    if calls != [] {
      var n := |calls| - 1;
      UnsetUntilFirstChange(target, calls[..n]);
      assert forall i :: 0 <= i < n ==> calls[..n][i] == calls[i];
    }
  }

  /** Calls addressed to another owner, such as those of a nested pure
      component with its own owner, leave this cell unchanged. */
  lemma {:induction false} OtherOwnersLeaveCell<S, K, P>(cell: Option<S>, target: Listener, calls: seq<Call<S, K, P>>)
    requires forall i :: 0 <= i < |calls| ==> !(calls[i].StateChange? && calls[i].target == target)
    ensures Absorb(cell, target, calls) == cell
    decreases |calls|
  {
    if calls != [] {
      OtherOwnersLeaveCell(cell, target, calls[..|calls| - 1]);
    }
  }
}
