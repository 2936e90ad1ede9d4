/** The risk and pacing controller: after every trade event it decides whether
    trading rests for a while (10 to 15 minutes, or until a random time between
    15:00 and 16:00), closing leftover positions before a rest. */
module Risk {
  import opened Market
  import opened ExchangeView
  import opened AmountParsing
  import opened PositionTracking

  /** Ninety minutes without a rest, in seconds. */
  const RestInterval: int := 90 * 60

  /** The volume target of a seed before the 120% margin. */
  function BaseTargetBySeed(seed: real): (v: real)
    ensures seed >= 0.0 ==> v >= seed
    ensures v / 1000.0 == seed
  {
    seed * 1000.0
  }

  /** The reading taken at index i shows no open position. */
  predicate FlatAt(ex: Exchange, i: nat)
    requires ex.Valid()
  {
    ex.PositionsAt(i) == []
  }

  /** The leftover check that starts with reading r closes out: that reading
      shows a position and an order executor is attached. */
  predicate ClosesLeftovers(ex: Exchange, exec: bool, r: nat)
    requires ex.Valid()
  {
    !FlatAt(ex, r) && exec
  }

  /** The reading count after a leftover check that starts with reading r:
      the look, and the close-all's own reading when it closes. */
  function LeftoverReads(ex: Exchange, exec: bool, r: nat): (n: nat)
    requires ex.Valid()
    ensures n == r + 1 <==> !ClosesLeftovers(ex, exec, r)
    ensures n == r + 2 <==> ClosesLeftovers(ex, exec, r)
  {
    r + if ClosesLeftovers(ex, exec, r) then 2 else 1
  }

  /** The requests a leftover check that starts with reading r sends: one
      close per entry of the close-all's reading, or none. */
  function LeftoverCloses(ex: Exchange, exec: bool, r: nat): (rs: seq<Request>)
    requires ex.Valid()
    ensures forall i :: 0 <= i < |rs| ==> rs[i].Close?
    ensures rs != [] ==> ClosesLeftovers(ex, exec, r)
  {
    if ClosesLeftovers(ex, exec, r) then
      CloseRequestsAreCloses(ex.PositionsAt(r + 1));
      CloseRequests(ex.PositionsAt(r + 1))
    else []
  }

  /** Requests appended to a log keep the old log as a prefix and are all closes. */
  predicate OnlyClosesAdded(before: seq<Request>, after: seq<Request>) {
    before <= after && forall i :: |before| <= i < |after| ==> after[i].Close?
  }

  lemma OnlyClosesAddedTrans(a: seq<Request>, b: seq<Request>, c: seq<Request>)
    requires OnlyClosesAdded(a, b) && OnlyClosesAdded(b, c)
    ensures OnlyClosesAdded(a, c)
  {
    forall i | |a| <= i < |c|
      ensures c[i].Close?
    {
      if i < |b| {
        assert c[i] == b[i];
      }
    }
  }

  /** 15:mm:ss of the day of `now`, with the drawn minute and second. */
  function AtFifteen(now: int, draw: Draw): int {
    DayStart(now) + 15 * 3600 + draw.minute * 60 + draw.second
  }

  lemma {:induction false} OffsetInDay(start: int, off: int)
    requires start == DayStart(start)
    requires 0 <= off < SecondsPerDay
    ensures Date(start + off) == Date(start)
    ensures DayStart(start + off) == start
    ensures Hour(start + off) == off / 3600
  {
    var q := start / SecondsPerDay;
    assert start == q * SecondsPerDay;
    assert (start + off) / SecondsPerDay == q;
    assert (start + off) % SecondsPerDay == off;
  }

  /** `pause_until_random_15to16`'s resume time: today at 15:mm:ss if that is
      not yet past, else today at 16:mm:ss if that is not yet past, else None
      (a plain 10-15 minute rest is taken instead). */
  function ResumeTime(now: int, draw: Draw): (r: Option<int>)
    requires ValidDraw(draw)
    ensures r.Some? ==> now <= r.value && Date(r.value) == Date(now)
    ensures r.Some? ==> Hour(r.value) == 15 || Hour(r.value) == 16
    ensures r.None? <==> AtFifteen(now, draw) + 3600 < now
  {
    var t15 := AtFifteen(now, draw);
    OffsetInDay(DayStart(now), 15 * 3600 + draw.minute * 60 + draw.second);
    OffsetInDay(DayStart(now), 16 * 3600 + draw.minute * 60 + draw.second);
    if now <= t15 then Some(t15)
    else if now <= t15 + 3600 then Some(t15 + 3600)
    else None
  }

  /** Before 15:00 the resume time is always today's 15:mm:ss, so the clamp
      of a resume time past 16 o'clock can never apply. */
  lemma ResumeBeforeFifteen(now: int, draw: Draw)
    requires ValidDraw(draw)
    requires Hour(now) < 15
    ensures ResumeTime(now, draw) == Some(AtFifteen(now, draw))
    ensures Hour(AtFifteen(now, draw)) == 15
  {
    OffsetInDay(DayStart(now), 15 * 3600 + draw.minute * 60 + draw.second);
  }

  class RiskManager {
    const tracker: PositionTracker
    /** When the current rest ends; None when no rest is pending. */
    var pauseEnd: Option<int>
    var lastRest: int
    var tradeHistory: seq<TradeType>
    const userSeed: real
    const dailyVolumeTarget: real
    var hedgeDetected: bool
    var shortClosedAfterHedge: bool
    var longClosedAfterHedge: bool
    var entryCloseCount: nat

    constructor (tracker: PositionTracker, userSeed: real, now: int)
      ensures this.tracker == tracker && this.userSeed == userSeed
      ensures dailyVolumeTarget == userSeed * 1000.0 * 1.2
      ensures pauseEnd.None? && lastRest == now && tradeHistory == []
      ensures !hedgeDetected && !shortClosedAfterHedge && !longClosedAfterHedge
      ensures entryCloseCount == 0
    {
      this.tracker := tracker;
      pauseEnd := None;
      lastRest := now;
      tradeHistory := [];
      this.userSeed := userSeed;
      dailyVolumeTarget := BaseTargetBySeed(userSeed) * 1.2;
      hedgeDetected := false;
      shortClosedAfterHedge := false;
      longClosedAfterHedge := false;
      entryCloseCount := 0;
    }

    /** `update_trading_volume`: forwards the notional to the ledger. */
    method UpdateTradingVolume(amount: real)
      modifies tracker`accumulatedVolume
      ensures tracker.accumulatedVolume == old(tracker.accumulatedVolume) + amount
    {
      tracker.AddTradeVolume(amount);
    }

    /** `_get_stable_positions`: reads the page `tries` times and keeps the last list. */
    method GetStablePositions(tries: nat) returns (ps: seq<Position>)
      requires tracker.exchange.Valid()
      modifies tracker.exchange`readCount
      ensures tracker.exchange.readCount == old(tracker.exchange.readCount) + tries
      ensures tries == 0 ==> ps == []
      ensures tries > 0 ==>
        ps == tracker.exchange.PositionsAt(old(tracker.exchange.readCount) + tries - 1)
    {
      ps := [];
      for i := 0 to tries
        invariant tracker.exchange.readCount == old(tracker.exchange.readCount) + i
        invariant i == 0 ==> ps == []
        invariant i > 0 ==> ps == tracker.exchange.PositionsAt(old(tracker.exchange.readCount) + i - 1)
      {
        ps := tracker.GetOpenPositions();
      }
    }

    /** `_force_close_leftovers`. */
    method ForceCloseLeftovers()
      requires tracker.exchange.Valid()
      modifies tracker.exchange`readCount, tracker.exchange`requests
      ensures var ex := tracker.exchange;
        if tracker.hasExecutor then
          ex.readCount == old(ex.readCount) + 1
          && ex.requests == old(ex.requests) + CloseRequests(ex.PositionsAt(old(ex.readCount)))
        else
          ex.readCount == old(ex.readCount) && ex.requests == old(ex.requests)
      ensures OnlyClosesAdded(old(tracker.exchange.requests), tracker.exchange.requests)
    {
      CloseRequestsAreCloses(tracker.exchange.PositionsAt(tracker.exchange.readCount));
      tracker.CloseAllPositions();
    }

    /** The leftover check both rest methods begin with: one reading, and a
        close-all when it shows any amount on either side. */
    method CloseLeftovers()
      requires tracker.exchange.Valid()
      modifies tracker.exchange`readCount, tracker.exchange`requests
      ensures var ex := tracker.exchange;
        && ex.readCount == LeftoverReads(ex, tracker.hasExecutor, old(ex.readCount))
        && ex.requests == old(ex.requests) + LeftoverCloses(ex, tracker.hasExecutor, old(ex.readCount))
      ensures OnlyClosesAdded(old(tracker.exchange.requests), tracker.exchange.requests)
    {
      CloseRequestsAreCloses(tracker.exchange.PositionsAt(tracker.exchange.readCount + 1));
      var ps := tracker.GetOpenPositions();
      var long, short := SideTotals(ps);
      EmptyIffNoAmounts(ps);
      if long > 0.0 || short > 0.0 {
        tracker.CloseAllPositions();
      }
    }

    /** `is_paused`: true while a rest is pending; an expired rest is cleared. */
    method IsPaused(now: int) returns (paused: bool)
      modifies this`pauseEnd
      ensures paused <==> old(pauseEnd).Some? && now < old(pauseEnd).value
      ensures paused ==> pauseEnd == old(pauseEnd)
      ensures !paused ==> pauseEnd.None?
    {
      if pauseEnd.None? {
        return false;
      }
      if now >= pauseEnd.value {
        pauseEnd := None;
        return false;
      }
      return true;
    }

    /** `random_sleep`: close leftovers, then rest for the drawn 600 to 900
        seconds from now. */
    method RandomSleep(now: int, restSeconds: int)
      requires tracker.exchange.Valid()
      requires 600 <= restSeconds <= 900
      modifies this`pauseEnd, this`lastRest, tracker.exchange`readCount, tracker.exchange`requests
      ensures pauseEnd.Some? && now + 600 <= pauseEnd.value <= now + 900
      ensures pauseEnd == Some(now + restSeconds) && lastRest == now
      ensures var ex := tracker.exchange;
        && ex.readCount == LeftoverReads(ex, tracker.hasExecutor, old(ex.readCount))
        && ex.requests == old(ex.requests) + LeftoverCloses(ex, tracker.hasExecutor, old(ex.readCount))
      ensures OnlyClosesAdded(old(tracker.exchange.requests), tracker.exchange.requests)
    {
      CloseLeftovers();
      pauseEnd := Some(now + restSeconds);
      lastRest := now;
    }

    /** `pause_until_random_15to16`: close leftovers, then rest until the
        resume time, or take a plain rest when both candidate times are past. */
    method PauseUntilRandom15to16(now: int, draw: Draw)
      requires tracker.exchange.Valid()
      requires ValidDraw(draw)
      modifies this`pauseEnd, this`lastRest, tracker.exchange`readCount, tracker.exchange`requests
      ensures lastRest == now
      ensures ResumeTime(now, draw).Some? ==> pauseEnd == ResumeTime(now, draw)
      ensures ResumeTime(now, draw).None? ==> pauseEnd == Some(now + draw.restSeconds)
      // The leftover check runs first; the fallback rest runs a second one.
      ensures var ex := tracker.exchange;
        var exec := tracker.hasExecutor;
        var r1 := LeftoverReads(ex, exec, old(ex.readCount));
        var log1 := old(ex.requests) + LeftoverCloses(ex, exec, old(ex.readCount));
        if ResumeTime(now, draw).Some? then
          ex.readCount == r1 && ex.requests == log1
        else
          ex.readCount == LeftoverReads(ex, exec, r1) && ex.requests == log1 + LeftoverCloses(ex, exec, r1)
      ensures OnlyClosesAdded(old(tracker.exchange.requests), tracker.exchange.requests)
    {
      CloseLeftovers();
      var target := AtFifteen(now, draw);
      if target < now {
        target := target + 3600;
        if target < now {
          var requests1 := tracker.exchange.requests;
          RandomSleep(now, draw.restSeconds);
          OnlyClosesAddedTrans(old(tracker.exchange.requests), requests1, tracker.exchange.requests);
          return;
        }
      }
      // The `target_time.hour > 16` clamp cannot apply: see ResumeTime.
      pauseEnd := Some(target);
      lastRest := now;
    }

    /** `check_volume_goal_and_sleep`: before 15:00, with the day's volume at
        or above the target and no open position, rest until 15:mm:ss. */
    method CheckVolumeGoalAndSleep(now: int, draw: Draw)
      requires tracker.exchange.Valid()
      requires ValidDraw(draw)
      modifies this`pauseEnd, this`lastRest, tracker.exchange`readCount, tracker.exchange`requests
      ensures var ex := tracker.exchange;
        var fires := Hour(now) < 15 && tracker.accumulatedVolume >= dailyVolumeTarget
                     && FlatAt(ex, old(ex.readCount));
        && (fires ==> pauseEnd == Some(AtFifteen(now, draw)) && lastRest == now)
        && (!fires ==> pauseEnd == old(pauseEnd) && lastRest == old(lastRest))
      // The flat reading, then the rest's own leftover check.
      ensures var ex := tracker.exchange;
        var looks := Hour(now) < 15 && tracker.accumulatedVolume >= dailyVolumeTarget;
        var r0 := old(ex.readCount);
        if looks && FlatAt(ex, r0) then
          && ex.readCount == LeftoverReads(ex, tracker.hasExecutor, r0 + 1)
          && ex.requests == old(ex.requests) + LeftoverCloses(ex, tracker.hasExecutor, r0 + 1)
        else
          ex.readCount == r0 + (if looks then 1 else 0) && ex.requests == old(ex.requests)
      ensures OnlyClosesAdded(old(tracker.exchange.requests), tracker.exchange.requests)
    {
      if Hour(now) >= 15 {
        return;
      }
      if tracker.AccumulatedVolume() < dailyVolumeTarget {
        return;
      }
      var ps := tracker.GetOpenPositions();
      if |ps| == 0 {
        ResumeBeforeFifteen(now, draw);
        PauseUntilRandom15to16(now, draw);
      }
      assert old(tracker.exchange.requests) <= tracker.exchange.requests;
    }

    /** The hedge-release step of `record_trade`: both sides closed after a
        hedge and the page flat, so leftovers are force-closed and, if the
        recheck is flat too, a rest starts and the hedge state is cleared. */
    method ReleaseAfterHedge(now: int, restSeconds: int)
      requires tracker.exchange.Valid()
      requires 600 <= restSeconds <= 900
      modifies this`pauseEnd, this`lastRest, this`hedgeDetected, this`shortClosedAfterHedge,
               this`longClosedAfterHedge, tracker.exchange`readCount, tracker.exchange`requests
      ensures var ex := tracker.exchange;
        var recheck := old(ex.readCount) + (if tracker.hasExecutor then 2 else 1);
        if FlatAt(ex, recheck) then
          && pauseEnd == Some(now + restSeconds) && lastRest == now
          && !hedgeDetected && !shortClosedAfterHedge && !longClosedAfterHedge
        else
          && pauseEnd == old(pauseEnd) && lastRest == old(lastRest)
          && hedgeDetected == old(hedgeDetected)
          && shortClosedAfterHedge == old(shortClosedAfterHedge)
          && longClosedAfterHedge == old(longClosedAfterHedge)
      ensures OnlyClosesAdded(old(tracker.exchange.requests), tracker.exchange.requests)
    {
      var requests0 := tracker.exchange.requests;
      ForceCloseLeftovers();
      var recheck := tracker.exchange.readCount + 1;
      var ps := GetStablePositions(2);
      var finalLong, finalShort := LastSizes(ps);
      EmptyIffNoAmounts(ps);
      var requests1 := tracker.exchange.requests;
      if finalLong == 0.0 && finalShort == 0.0 {
        RandomSleep(now, restSeconds);
        hedgeDetected := false;
        shortClosedAfterHedge := false;
        longClosedAfterHedge := false;
      }
      OnlyClosesAddedTrans(requests0, requests1, tracker.exchange.requests);
    }

    /** Lines 178-212 of `record_trade`: while a hedge is on, note which side
        was closed out; once both were and the page is flat, release the hedge
        and report that `record_trade` returns here. */
    method HedgeStep(t: TradeType, flat: bool, now: int, restSeconds: int) returns (released: bool)
      requires tracker.exchange.Valid()
      requires 600 <= restSeconds <= 900
      modifies this`pauseEnd, this`lastRest, this`hedgeDetected, this`shortClosedAfterHedge,
               this`longClosedAfterHedge, tracker.exchange`readCount, tracker.exchange`requests
      ensures released == (old(hedgeDetected) && flat
                           && (old(shortClosedAfterHedge) || t == ShortAllClosed)
                           && (old(longClosedAfterHedge) || t == LongAllClosed))
      ensures !released ==>
        && shortClosedAfterHedge == (old(shortClosedAfterHedge) || (old(hedgeDetected) && t == ShortAllClosed))
        && longClosedAfterHedge == (old(longClosedAfterHedge) || (old(hedgeDetected) && t == LongAllClosed))
        && hedgeDetected == old(hedgeDetected)
        && pauseEnd == old(pauseEnd) && lastRest == old(lastRest)
        && tracker.exchange.readCount == old(tracker.exchange.readCount)
        && tracker.exchange.requests == old(tracker.exchange.requests)
      ensures released ==>
        var recheck := old(tracker.exchange.readCount) + (if tracker.hasExecutor then 2 else 1);
        && (FlatAt(tracker.exchange, recheck) ==>
              && pauseEnd == Some(now + restSeconds) && lastRest == now
              && !hedgeDetected && !shortClosedAfterHedge && !longClosedAfterHedge)
        && (!FlatAt(tracker.exchange, recheck) ==>
              && pauseEnd == old(pauseEnd) && lastRest == old(lastRest)
              && hedgeDetected && shortClosedAfterHedge && longClosedAfterHedge)
      ensures OnlyClosesAdded(old(tracker.exchange.requests), tracker.exchange.requests)
    {
      released := false;
      if hedgeDetected {
        if t == ShortAllClosed {
          shortClosedAfterHedge := true;
        }
        if t == LongAllClosed {
          longClosedAfterHedge := true;
        }
        if shortClosedAfterHedge && longClosedAfterHedge && flat {
          ReleaseAfterHedge(now, restSeconds);
          released := true;
        }
      }
    }

    /** Lines 215-242 of `record_trade`, after the hedge-release check: the
        flat 50-lot round-trip count, the hedge flag, the 90-minute rest and
        the daily-volume rest; `flat` is what the stable reading showed. */
    method ApplyPacingRules(t: TradeType, flat: bool, now: int, draw: Draw)
      requires tracker.exchange.Valid()
      requires ValidDraw(draw)
      modifies this`entryCloseCount, this`hedgeDetected, this`pauseEnd, this`lastRest,
               tracker.exchange`readCount, tracker.exchange`requests
      ensures entryCloseCount == old(entryCloseCount) + (if flat && (t == Long50Closed || t == Short50Closed) then 1 else 0)
      ensures hedgeDetected == (old(hedgeDetected) || t == HedgeLong || t == HedgeShort)
      ensures var rest := now - old(lastRest) >= RestInterval && flat;
        var volumeRest := Hour(now) < 15 && tracker.accumulatedVolume >= dailyVolumeTarget
                          && FlatAt(tracker.exchange, old(tracker.exchange.readCount));
        && (rest ==> pauseEnd == Some(now + draw.restSeconds) && lastRest == now)
        && (!rest && volumeRest ==> pauseEnd == Some(AtFifteen(now, draw)) && lastRest == now)
        && (!rest && !volumeRest ==> pauseEnd == old(pauseEnd) && lastRest == old(lastRest))
      ensures OnlyClosesAdded(old(tracker.exchange.requests), tracker.exchange.requests)
    {
      if flat && (t == Long50Closed || t == Short50Closed) {
        entryCloseCount := entryCloseCount + 1;
      }
      // The rest after three flat round trips (lines 223-229) needs
      // `last_closed_entry_price`, which nothing ever sets, so it never fires.
      if t == HedgeLong || t == HedgeShort {
        hedgeDetected := true;
      }
      if now - lastRest >= RestInterval && flat {
        RandomSleep(now, draw.restSeconds);
        return;
      }
      CheckVolumeGoalAndSleep(now, draw);
    }

    /** `record_trade`: logs the event, reads the page twice, then applies the
        post-hedge release or else the remaining pacing rules. */
    method RecordTrade(t: TradeType, now: int, draw: Draw)
      requires tracker.exchange.Valid()
      requires ValidDraw(draw)
      modifies this`tradeHistory, this`entryCloseCount, this`hedgeDetected, this`shortClosedAfterHedge,
               this`longClosedAfterHedge, this`pauseEnd, this`lastRest,
               tracker.exchange`readCount, tracker.exchange`requests
      ensures tradeHistory == old(tradeHistory) + [t]
      ensures OnlyClosesAdded(old(tracker.exchange.requests), tracker.exchange.requests)
      // The hedge-release path.
      ensures var r0 := old(tracker.exchange.readCount);
        var release := old(hedgeDetected) && FlatAt(tracker.exchange, r0 + 1)
                       && (old(shortClosedAfterHedge) || t == ShortAllClosed)
                       && (old(longClosedAfterHedge) || t == LongAllClosed);
        var recheck := r0 + (if tracker.hasExecutor then 4 else 3);
        release ==>
          && entryCloseCount == old(entryCloseCount)
          && (FlatAt(tracker.exchange, recheck) ==>
                && pauseEnd == Some(now + draw.restSeconds) && lastRest == now
                && !hedgeDetected && !shortClosedAfterHedge && !longClosedAfterHedge)
          && (!FlatAt(tracker.exchange, recheck) ==>
                && pauseEnd == old(pauseEnd) && lastRest == old(lastRest)
                && hedgeDetected && shortClosedAfterHedge && longClosedAfterHedge)
      // Every other path.
      ensures var r0 := old(tracker.exchange.readCount);
        var flat := FlatAt(tracker.exchange, r0 + 1);
        var release := old(hedgeDetected) && flat
                       && (old(shortClosedAfterHedge) || t == ShortAllClosed)
                       && (old(longClosedAfterHedge) || t == LongAllClosed);
        var rest := now - old(lastRest) >= RestInterval && flat;
        var volumeRest := Hour(now) < 15 && tracker.accumulatedVolume >= dailyVolumeTarget
                          && FlatAt(tracker.exchange, r0 + 2);
        !release ==>
          && shortClosedAfterHedge == (old(shortClosedAfterHedge) || (old(hedgeDetected) && t == ShortAllClosed))
          && longClosedAfterHedge == (old(longClosedAfterHedge) || (old(hedgeDetected) && t == LongAllClosed))
          && entryCloseCount == old(entryCloseCount) + (if flat && (t == Long50Closed || t == Short50Closed) then 1 else 0)
          && hedgeDetected == (old(hedgeDetected) || t == HedgeLong || t == HedgeShort)
          && (rest ==> pauseEnd == Some(now + draw.restSeconds) && lastRest == now)
          && (!rest && volumeRest ==> pauseEnd == Some(AtFifteen(now, draw)) && lastRest == now)
          && (!rest && !volumeRest ==> pauseEnd == old(pauseEnd) && lastRest == old(lastRest))
    {
      ghost var r0 := tracker.exchange.readCount;
      tradeHistory := tradeHistory + [t];
      var ps := GetStablePositions(2);
      var longSize, shortSize := LastSizes(ps);
      EmptyIffNoAmounts(ps);
      var flat := longSize == 0.0 && shortSize == 0.0;
      assert flat == FlatAt(tracker.exchange, r0 + 1);
      assert tracker.exchange.readCount == r0 + 2;
      var released := HedgeStep(t, flat, now, draw.restSeconds);
      if !released {
        ApplyPacingRules(t, flat, now, draw);
      }
    }

    /** `record_trade` as the strategy engines rely on it: the event is
        appended to the history, and whatever is sent in reaction is a close. */
    method Notify(t: TradeType, now: int, draw: Draw)
      requires tracker.exchange.Valid()
      requires ValidDraw(draw)
      modifies this, tracker.exchange`readCount, tracker.exchange`requests
      ensures tradeHistory == old(tradeHistory) + [t]
      ensures OnlyClosesAdded(old(tracker.exchange.requests), tracker.exchange.requests)
    {
      RecordTrade(t, now, draw);
    }
  }
}
