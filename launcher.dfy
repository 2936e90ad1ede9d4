/** The launcher of the price-fed bot: the UID-to-symbol lookup, the seed
    prompt's acceptance rule, the price callback and the 15:00 ledger reset of
    the supervising loop. */
module Launcher {
  import opened Market
  import opened PositionTracking
  import opened Risk
  import opened PriceEngine

  /** One entry of the UID whitelist: a symbol and the UIDs that trade it. */
  datatype SymbolUids = SymbolUids(symbol: string, uids: seq<string>)

  /** Entry i holds the UID and no earlier entry does. */
  predicate FirstHolder(table: seq<SymbolUids>, uid: string, i: int) {
    0 <= i < |table| && uid in table[i].uids && forall j :: 0 <= j < i ==> uid !in table[j].uids
  }

  /** `get_symbol_by_uid`: the symbol of the first entry, in table order, whose
      list holds the UID; the default symbol when none does. */
  function SymbolByUid(table: seq<SymbolUids>, uid: string): (s: string)
    ensures (forall i :: 0 <= i < |table| ==> uid !in table[i].uids) ==> s == DefaultSymbol
    ensures forall i :: FirstHolder(table, uid, i) ==> s == table[i].symbol
    decreases |table|
  {
    if table == [] then DefaultSymbol
    else if uid in table[0].uids then table[0].symbol
    else SymbolByUid(table[1..], uid)
  }

  /** An entered seed is kept when it is a number and not at most 0. */
  predicate AcceptedSeed(entry: Option<real>) {
    entry.Some? && !(entry.value <= 0.0)
  }

  /** `prompt_user_seed` over the successive lines typed in (None for a line
      that is not a number): the first acceptable entry, and how many lines it
      took; None when the lines run out first. */
  method PromptUserSeed(entries: seq<Option<real>>) returns (seed: Option<real>, used: nat)
    ensures seed.Some? ==> seed.value > 0.0
    ensures seed.Some? ==> 0 < used <= |entries| && entries[used - 1] == seed
    ensures seed.None? ==> used == |entries|
    ensures forall j :: 0 <= j < used - 1 ==> !AcceptedSeed(entries[j])
    ensures seed.None? ==> forall j :: 0 <= j < |entries| ==> !AcceptedSeed(entries[j])
  {
    var i := 0;
    while i < |entries|
      invariant 0 <= i <= |entries|
      invariant forall j :: 0 <= j < i ==> !AcceptedSeed(entries[j])
    {
      var entry := entries[i];
      if entry.Some? {
        if entry.value <= 0.0 {
          i := i + 1;
          continue;
        }
        return entry, i + 1;
      }
      i := i + 1;
    }
    return None, |entries|;
  }

  /** What the strategy's tick leaves behind, before the volume goal is
      checked: its book, and the risk controller's pause and last rest. */
  datatype AfterTick = AfterTick(book: Book, pauseEnd: Option<int>, lastRest: int)

  /** `on_data_received`: a tick without a last price is dropped before anything
      happens; otherwise the strategy takes the price and the risk controller
      then checks the daily volume goal. Popup handling is page automation. */
  method OnDataReceived(lastPrice: Option<real>, strategy: PriceStrategy, risk: RiskManager, now: int, draw: Draw)
    returns (called: Option<Action>, ghost tick: AfterTick)
    requires strategy.Valid() && strategy.risk == risk && ValidDraw(draw)
    modifies strategy, strategy.tracker`accumulatedVolume, strategy.tracker`realizedPnl, risk,
             risk.tracker.exchange`readCount, risk.tracker.exchange`requests
    ensures strategy.Valid()
    ensures lastPrice.None? ==>
      && called.None?
      && unchanged(strategy) && unchanged(risk)
      && unchanged(strategy.tracker`accumulatedVolume, strategy.tracker`realizedPnl)
      && unchanged(risk.tracker.exchange`readCount, risk.tracker.exchange`requests)
    // The strategy's tick: the action the decision table names has run.
    ensures lastPrice.Some? ==>
      var p := lastPrice.value;
      var paused := old(risk.pauseEnd).Some? && now < old(risk.pauseEnd).value;
      && strategy.currentPrice == p
      && strategy.fed == old(strategy.fed) + [p]
      && (paused ==> called == Some(Idle) && tick.book == old(strategy.Current()))
      && (!paused ==>
            && called == Some(Decide(Snapshot(old(strategy.longSize), old(strategy.shortSize), p,
                                              strategy.ema2.value, strategy.ema3.value,
                                              GoldenCross(old(strategy.ema1), old(strategy.ema2), p, strategy.ema2.value),
                                              DeadCross(old(strategy.ema1), old(strategy.ema2), p, strategy.ema2.value),
                                              old(strategy.longEntryPrice), old(strategy.shortEntryPrice))))
            && strategy.ActionDone(called.value, old(strategy.Current()), tick.book))
    // Then the volume goal: a rest until 15:mm:ss exactly when it is before
    // 15:00, the target is reached and the page reads flat; only the log, the
    // reading count and the pause can have moved since the tick.
    ensures lastPrice.Some? ==>
      var ex := risk.tracker.exchange;
      var fires := Hour(now) < 15 && strategy.tracker.accumulatedVolume >= risk.dailyVolumeTarget
                   && FlatAt(ex, tick.book.readCount);
      && strategy.Current().(requests := tick.book.requests, readCount := tick.book.readCount) == tick.book
      && OnlyClosesAdded(tick.book.requests, ex.requests)
      && (fires ==> risk.pauseEnd == Some(AtFifteen(now, draw)) && risk.lastRest == now)
      && (!fires ==> risk.pauseEnd == tick.pauseEnd && risk.lastRest == tick.lastRest)
      && (Hour(now) >= 15 || strategy.tracker.accumulatedVolume < risk.dailyVolumeTarget ==>
            ex.readCount == tick.book.readCount)
    // The rest's leftover check is the only thing sent after the tick.
    ensures lastPrice.Some? ==>
      var ex := risk.tracker.exchange;
      var looks := Hour(now) < 15 && strategy.tracker.accumulatedVolume >= risk.dailyVolumeTarget;
      var r0 := tick.book.readCount;
      if looks && FlatAt(ex, r0) then
        && ex.readCount == LeftoverReads(ex, risk.tracker.hasExecutor, r0 + 1)
        && ex.requests == tick.book.requests + LeftoverCloses(ex, risk.tracker.hasExecutor, r0 + 1)
      else
        ex.readCount == r0 + (if looks then 1 else 0) && ex.requests == tick.book.requests
  {
    tick := AfterTick(strategy.Current(), risk.pauseEnd, risk.lastRest);
    if lastPrice.None? {
      return None, tick;
    }
    var a := strategy.OnNewPrice(lastPrice.value, now, draw);
    tick := AfterTick(strategy.Current(), risk.pauseEnd, risk.lastRest);
    risk.CheckVolumeGoalAndSleep(now, draw);
    called := Some(a);
  }

  /** The supervising loop's ledger reset: at 15:00 the traded notional and the
      realized PnL go back to 0, once per calendar date. */
  class MainLoop {
    const tracker: PositionTracker
    /** `last_reset_date`. */
    var lastResetDate: Option<int>
    /** The times at which a reset happened, oldest first. */
    ghost var resets: seq<int>

    /** Every reset happened in the 15:00 hour, on a later date than the one
        before it, and the last one is the date remembered. */
    ghost predicate Valid()
      reads this
    {
      && (forall k :: 0 <= k < |resets| ==> Hour(resets[k]) == 15)
      && (forall k, l :: 0 <= k < l < |resets| ==> Date(resets[k]) < Date(resets[l]))
      && lastResetDate == (if resets == [] then None else Some(Date(resets[|resets| - 1])))
    }

    constructor (tracker: PositionTracker)
      ensures Valid()
      ensures this.tracker == tracker && lastResetDate.None? && resets == []
    {
      this.tracker := tracker;
      lastResetDate := None;
      resets := [];
    }

    /** One pass of the loop's reset check, at local time `now`; the clock
        never goes back to an earlier date than the last reset's. */
    method ResetIfDue(now: int)
      requires Valid()
      requires lastResetDate.Some? ==> lastResetDate.value <= Date(now)
      modifies this`lastResetDate, this`resets, tracker`accumulatedVolume, tracker`realizedPnl
      ensures Valid()
      ensures var due := Hour(now) == 15 && old(lastResetDate) != Some(Date(now));
        && (due ==> tracker.accumulatedVolume == 0.0 && tracker.realizedPnl == 0.0
                    && lastResetDate == Some(Date(now)) && resets == old(resets) + [now])
        && (!due ==> tracker.accumulatedVolume == old(tracker.accumulatedVolume)
                     && tracker.realizedPnl == old(tracker.realizedPnl)
                     && lastResetDate == old(lastResetDate) && resets == old(resets))
    {
      if Hour(now) == 15 && lastResetDate != Some(Date(now)) {
        tracker.accumulatedVolume := 0.0;
        tracker.realizedPnl := 0.0;
        lastResetDate := Some(Date(now));
        resets := resets + [now];
      }
    }
  }
}
