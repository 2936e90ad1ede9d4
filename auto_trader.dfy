/** The one-position signal follower of the TradingView-fed bot: each pass of
    its loop reads the latest indicators, asks the signal rule, and either
    opens the signalled side, closes what it holds, or does nothing. */
module AutoTrading {
  import opened Market
  import opened SignalRule

  /** A call made on the trader: `place_order(signal)` or `close_position()`. */
  datatype TraderCall = PlaceOrder(side: Side) | ClosePosition

  /** The call one pass makes when it holds `held` and the rule says `signal`. */
  function Decision(held: Option<Side>, signal: Option<Side>): (c: Option<TraderCall>)
    ensures c.Some? <==> signal != held
    ensures signal.Some? && signal != held ==> c == Some(PlaceOrder(signal.value))
    ensures signal.None? && held.Some? ==> c == Some(ClosePosition)
  {
    if signal.Some? && signal != held then Some(PlaceOrder(signal.value))
    else if held.Some? && signal != held then Some(ClosePosition)
    else None
  }

  /** The position a log of calls leaves behind, starting with none. */
  function Held(calls: seq<TraderCall>): Option<Side>
    decreases |calls|
  {
    if calls == [] then None
    else
      match calls[|calls| - 1]
      case PlaceOrder(side) => Some(side)
      case ClosePosition => None
  }

  /** No call in the log is redundant: an order never repeats the side already
      held and a close is only sent while something is held. */
  predicate NoRedundantCalls(calls: seq<TraderCall>) {
    forall i :: 0 <= i < |calls| ==>
      match calls[i]
      case PlaceOrder(side) => Held(calls[..i]) != Some(side)
      case ClosePosition => Held(calls[..i]).Some?
  }

  /** Following a decision always leaves the trader holding what the signal
      says, and the log it extends keeps free of redundant calls. */
  lemma {:induction false} DecisionFollowsSignal(calls: seq<TraderCall>, signal: Option<Side>)
    requires NoRedundantCalls(calls)
    ensures var c := Decision(Held(calls), signal);
      var after := if c.Some? then calls + [c.value] else calls;
      Held(after) == signal && NoRedundantCalls(after)
  {
    var c := Decision(Held(calls), signal);
    if c.Some? {
      var after := calls + [c.value];
      assert after[..|calls|] == calls;
      forall i | 0 <= i < |after|
        ensures match after[i]
                case PlaceOrder(side) => Held(after[..i]) != Some(side)
                case ClosePosition => Held(after[..i]).Some?
      {
        if i < |calls| {
          assert after[..i] == calls[..i];
          assert after[i] == calls[i];
        }
      }
    }
  }

  /** A reversal sends the new order alone: no close comes first. */
  lemma ReversalPlacesWithoutClosing(from: Side, to: Side)
    requires from != to
    ensures Decision(Some(from), Some(to)) == Some(PlaceOrder(to))
  {
  }

  class AutoTrader {
    /** `current_position`. */
    var currentPosition: Option<Side>
    /** The calls made on the trader so far. */
    var calls: seq<TraderCall>

    ghost predicate Valid()
      reads this
    {
      currentPosition == Held(calls) && NoRedundantCalls(calls)
    }

    constructor ()
      ensures Valid()
      ensures currentPosition.None? && calls == []
    {
      currentPosition := None;
      calls := [];
    }

    /** One pass of `start_trading`; `data` is None when the feed has nothing yet. */
    method Step(data: Option<Indicators>)
      requires Valid()
      modifies this
      ensures Valid()
      ensures data.None? ==> currentPosition == old(currentPosition) && calls == old(calls)
      ensures data.Some? ==> currentPosition == CheckSignal(data.value)
      ensures data.Some? ==>
        var c := Decision(old(currentPosition), CheckSignal(data.value));
        calls == old(calls) + (if c.Some? then [c.value] else [])
    {
      if data.None? {
        return;
      }
      var signal := CheckSignal(data.value);
      DecisionFollowsSignal(calls, signal);
      if signal.Some? && signal != currentPosition {
        calls := calls + [PlaceOrder(signal.value)];
        currentPosition := signal;
      } else if currentPosition.Some? && signal != currentPosition {
        calls := calls + [ClosePosition];
        currentPosition := None;
      }
    }
  }
}
