/** Event handlers and their combinators (handler.go).

    A handler's only observable effect is modelled as the calls it makes:
    calling a handler function appends one `Call` to a `Trace`. */
module Handlers {
  import opened Events

  /** One call of a handler function `f` with an event. */
  datatype Call = Call(f: nat, event: Event)

  /** The handlers of handler.go: a `HandlerFunc` wrapping function `f`, a
      `MultiHandler` over a list of handlers, and `Discard`, the function
      that does nothing. */
  datatype Handler =
    | Func(f: nat)
    | Multi(hs: seq<Handler>)
    | Discard

  /** The calls that handling `e` with `h` makes, in order. */
  function Effect(h: Handler, e: Event): seq<Call>
    decreases h, 1
  {
    match h
    case Func(f) => [Call(f, e)]
    case Multi(hs) => EffectAll(hs, e)
    case Discard => []
  }

  function EffectAll(hs: seq<Handler>, e: Event): seq<Call>
    decreases hs, 0
  {
    if hs == [] then [] else Effect(hs[0], e) + EffectAll(hs[1..], e)
  }

  /** The record of handler calls made so far. */
  class Trace {
    var calls: seq<Call>

    constructor ()
      ensures calls == []
    {
      calls := [];
    }

    /** `h.HandleEvent(e)`. */
    method HandleEvent(h: Handler, e: Event)
      modifies this
      ensures calls == old(calls) + Effect(h, e)
      decreases h
    {
      match h
      case Func(f) =>
        calls := calls + [Call(f, e)];
      case Multi(hs) =>
        // for _, h := range m { h.HandleEvent(e) }
        for k := 0 to |hs|
          invariant calls == old(calls) + EffectAll(hs[..k], e)
        {
          HandleEvent(hs[k], e);
          EffectAllSnoc(hs[..k], hs[k], e);
          assert hs[..k + 1] == hs[..k] + [hs[k]];
        }
        assert hs[..|hs|] == hs;
      case Discard =>
    }
  }

  lemma {:induction false} EffectAllConcat(a: seq<Handler>, b: seq<Handler>, e: Event)
    ensures EffectAll(a + b, e) == EffectAll(a, e) + EffectAll(b, e)
    decreases |a|
  {
    if a == [] {
      assert a + b == b;
    } else {
      assert (a + b)[0] == a[0] && (a + b)[1..] == a[1..] + b;
      EffectAllConcat(a[1..], b, e);
    }
  }

  lemma EffectAllSnoc(a: seq<Handler>, h: Handler, e: Event)
    ensures EffectAll(a + [h], e) == EffectAll(a, e) + Effect(h, e)
  {
    EffectAllConcat(a, [h], e);
    assert [h][1..] == [];
  }

  /** A MultiHandler of handler functions calls each function exactly once,
      in list order, with the same event. */
  lemma {:induction false} MultiCallsEachOnce(hs: seq<Handler>, e: Event)
    requires forall k :: 0 <= k < |hs| ==> hs[k].Func?
    ensures |Effect(Multi(hs), e)| == |hs|
    ensures forall k :: 0 <= k < |hs| ==> Effect(Multi(hs), e)[k] == Call(hs[k].f, e)
    decreases |hs|
  {
    if hs != [] {
      MultiCallsEachOnce(hs[1..], e);
      var calls := Effect(Multi(hs), e);
      var rest := Effect(Multi(hs[1..]), e);
      assert hs[0].Func? && Effect(hs[0], e) == [Call(hs[0].f, e)];
      assert calls == EffectAll(hs, e) && rest == EffectAll(hs[1..], e);
      assert calls == [Call(hs[0].f, e)] + rest;
      forall k | 1 <= k < |hs|
        ensures calls[k] == Call(hs[k].f, e)
      {
        assert hs[1..][k - 1] == hs[k];
        assert calls[k] == rest[k - 1];
      }
    }
  }

  /** Fanning out to `a + b` is fanning out to `a`, then to `b`. */
  lemma MultiConcat(a: seq<Handler>, b: seq<Handler>, e: Event)
    ensures Effect(Multi(a + b), e) == Effect(Multi(a), e) + Effect(Multi(b), e)
  {
    EffectAllConcat(a, b, e);
  }

  /** A MultiHandler of handlers that make no calls makes none. */
  lemma {:induction false} MultiOfDiscards(hs: seq<Handler>, e: Event)
    requires forall k :: 0 <= k < |hs| ==> hs[k] == Discard
    ensures Effect(Multi(hs), e) == []
    decreases |hs|
  {
    if hs != [] {
      MultiOfDiscards(hs[1..], e);
      assert Effect(Multi(hs), e) == Effect(hs[0], e) + Effect(Multi(hs[1..]), e);
    }
  }
}
