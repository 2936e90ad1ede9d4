/** The price-fed strategy engine: every tick hands it the latest price, from
    which it keeps EMA(1), EMA(3) and EMA(7) itself. It opens 50-lot positions
    on strict EMA crossovers, hedges with the opposite side, and while hedged
    closes 2 lots at a time (or the rest, when fewer than 2 are left). Its
    sizes are set from the amounts it asked for; the position list is never
    read back. */
module PriceEngine {
  import opened Market
  import opened ExchangeView
  import opened PositionTracking
  import opened Risk

  // ---------------------------------------------------------------------------
  // Exponential moving averages over the prices fed so far.

  /** The EMA with weight `alpha` of a non-empty price series: the first
      price itself, then `price*alpha + ema*(1-alpha)` for every later price. */
  function Ema(alpha: real, prices: seq<real>): real
    requires prices != []
    decreases |prices|
  {
    var p := prices[|prices| - 1];
    if |prices| == 1 then p
    else Blend(alpha, p, Ema(alpha, prices[..|prices| - 1]))
  }

  /** The weighted step of an EMA: the new price weighs `alpha`. */
  function Blend(alpha: real, price: real, ema: real): real {
    price * alpha + ema * (1.0 - alpha)
  }

  /** One more price moves the EMA as `_update_ema` does. */
  lemma EmaStep(alpha: real, prices: seq<real>, price: real)
    requires prices != []
    ensures Ema(alpha, prices + [price]) == Blend(alpha, price, Ema(alpha, prices))
  {
    var s := prices + [price];
    assert s[..|s| - 1] == prices;
  }

  /** The smallest price of a non-empty series. */
  function Low(prices: seq<real>): real
    requires prices != []
    decreases |prices|
  {
    var p := prices[|prices| - 1];
    if |prices| == 1 then p
    else
      var m := Low(prices[..|prices| - 1]);
      if p < m then p else m
  }

  /** The largest price of a non-empty series. */
  function High(prices: seq<real>): real
    requires prices != []
    decreases |prices|
  {
    var p := prices[|prices| - 1];
    if |prices| == 1 then p
    else
      var m := High(prices[..|prices| - 1]);
      if p > m then p else m
  }

  /** `Low` and `High` are the least and the greatest price of the series. */
  lemma {:induction false} LowHighBound(prices: seq<real>)
    requires prices != []
    ensures Low(prices) in prices && High(prices) in prices
    ensures forall i :: 0 <= i < |prices| ==> Low(prices) <= prices[i] <= High(prices)
    decreases |prices|
  {
    var n := |prices|;
    if n > 1 {
      var front := prices[..n - 1];
      LowHighBound(front);
      assert prices == front + [prices[n - 1]];
      forall i | 0 <= i < n
        ensures Low(prices) <= prices[i] <= High(prices)
      {
        if i < n - 1 {
          assert prices[i] == front[i];
        }
      }
    }
  }

  lemma MulNonNegative(x: real, y: real)
    requires x >= 0.0 && y >= 0.0
    ensures x * y >= 0.0
  {
  }

  /** A convex combination of two values in [lo, hi] stays in [lo, hi]. */
  lemma ConvexBetween(alpha: real, p: real, e: real, lo: real, hi: real)
    requires 0.0 <= alpha <= 1.0
    requires lo <= p <= hi && lo <= e <= hi
    ensures lo <= Blend(alpha, p, e) <= hi
  {
    MulNonNegative(p - lo, alpha);
    MulNonNegative(e - lo, 1.0 - alpha);
    MulNonNegative(hi - p, alpha);
    MulNonNegative(hi - e, 1.0 - alpha);
    assert p * alpha + e * (1.0 - alpha) - lo == (p - lo) * alpha + (e - lo) * (1.0 - alpha);
    assert hi - (p * alpha + e * (1.0 - alpha)) == (hi - p) * alpha + (hi - e) * (1.0 - alpha);
  }

  /** Every EMA lies between the lowest and the highest price fed so far. */
  lemma {:induction false} EmaWithinPrices(alpha: real, prices: seq<real>)
    requires 0.0 <= alpha <= 1.0
    requires prices != []
    ensures Low(prices) <= Ema(alpha, prices) <= High(prices)
    decreases |prices|
  {
    var n := |prices|;
    if n > 1 {
      var p := prices[n - 1];
      var front := prices[..n - 1];
      EmaWithinPrices(alpha, front);
      var e := Ema(alpha, front);
      var lo, hi := Low(prices), High(prices);
      assert lo == (if p < Low(front) then p else Low(front));
      assert hi == (if p > High(front) then p else High(front));
      ConvexBetween(alpha, p, e, lo, hi);
      assert Ema(alpha, prices) == Blend(alpha, p, e);
    }
  }

  /** With the weight of EMA(1), the average is always the latest price. */
  lemma EmaShortIsLatest(prices: seq<real>)
    requires prices != []
    ensures Ema(Alpha(EmaShort), prices) == prices[|prices| - 1]
  {
  }

  /** One average taking a price in, as `_update_ema` does: the price itself
      when there is no average yet, the weighted step otherwise. */
  function StepEma(alpha: real, price: real, ema: Option<real>): Option<real> {
    if ema.None? then Some(price) else Some(Blend(alpha, price, ema.value))
  }

  /** An average that is the EMA of the prices fed so far (none before the
      first) becomes the EMA of the series with the new price, which lies
      within that series' range. */
  lemma StepEmaFollows(alpha: real, fed: seq<real>, price: real, ema: Option<real>)
    requires 0.0 <= alpha <= 1.0
    requires ema.Some? <==> fed != []
    requires fed != [] ==> ema.value == Ema(alpha, fed)
    ensures StepEma(alpha, price, ema) == Some(Ema(alpha, fed + [price]))
    ensures Low(fed + [price]) <= Ema(alpha, fed + [price]) <= High(fed + [price])
  {
    if fed != [] {
      EmaStep(alpha, fed, price);
    } else {
      assert fed + [price] == [price];
    }
    EmaWithinPrices(alpha, fed + [price]);
  }

  /** `_price_in_range` / `price_in_range`: the two prices are less than
      `threshold` apart. */
  function PriceInRange(current: real, previous: real, threshold: real): (r: bool)
    ensures r <==> previous - threshold < current < previous + threshold
  {
    (if current >= previous then current - previous else previous - current) < threshold
  }

  // ---------------------------------------------------------------------------
  // Crossovers and the decision table.

  /** Golden cross: EMA1 was strictly below EMA2 and now is strictly above it;
      never before a previous tick exists. */
  predicate GoldenCross(prev1: Option<real>, prev2: Option<real>, e1: real, e2: real) {
    prev1.Some? && prev2.Some? && prev1.value < prev2.value && e1 > e2
  }

  /** Dead cross: EMA1 was strictly above EMA2 and now is strictly below it. */
  predicate DeadCross(prev1: Option<real>, prev2: Option<real>, e1: real, e2: real) {
    prev1.Some? && prev2.Some? && prev1.value > prev2.value && e1 < e2
  }

  /** The crossovers are strict, so they never fire together, and neither
      fires on the first tick. */
  lemma CrossoversExclusive(prev1: Option<real>, prev2: Option<real>, e1: real, e2: real)
    ensures !(GoldenCross(prev1, prev2, e1, e2) && DeadCross(prev1, prev2, e1, e2))
    ensures prev1.None? ==> !GoldenCross(prev1, prev2, e1, e2) && !DeadCross(prev1, prev2, e1, e2)
  {
  }

  /** The helper a tick calls; `CloseSome(side, n)` is `_close_long(n)` or
      `_close_short(n)`. */
  datatype Action = Idle | OpenFifty(side: Side) | CloseFifty(side: Side) | CloseAll(side: Side)
                  | CloseSome(side: Side, amount: real)

  /** What `_check_strategy` looks at. */
  datatype Snapshot = Snapshot(
    longSize: real, shortSize: real,
    price: real, e2: real, e3: real,
    golden: bool, dead: bool,
    longEntry: real, shortEntry: real)

  /** Relative move of the price from the long entry, 0 without an entry. */
  function UpDiff(v: Snapshot): real {
    if v.longEntry > 0.0 then (v.price - v.longEntry) / v.longEntry else 0.0
  }

  /** Relative move of the price from the short entry, 0 without an entry. */
  function DownDiff(v: Snapshot): real {
    if v.shortEntry > 0.0 then (v.price - v.shortEntry) / v.shortEntry else 0.0
  }

  /** The decision table of `_check_strategy`. */
  function Decide(v: Snapshot): Action {
    if v.longSize == 0.0 && v.shortSize == 0.0 then
      if v.e2 > v.e3 && v.golden then OpenFifty(Long)
      else if v.e2 < v.e3 && v.dead then OpenFifty(Short)
      else Idle
    else if v.longSize == 50.0 && v.shortSize == 0.0 then
      if UpDiff(v) >= PriceThreshold && v.dead then CloseFifty(Long)
      else if UpDiff(v) < PriceThreshold && v.dead then OpenFifty(Short)
      else Idle
    else if v.longSize == 0.0 && v.shortSize == 50.0 then
      if DownDiff(v) <= -PriceThreshold && v.golden then CloseFifty(Short)
      else if DownDiff(v) > -PriceThreshold && v.golden then OpenFifty(Long)
      else Idle
    else if v.longSize > 0.0 || v.shortSize > 0.0 then
      if v.golden then
        if v.shortSize < 2.0 then CloseAll(Short) else CloseSome(Short, 2.0)
      else if v.dead then
        if v.longSize < 2.0 then CloseAll(Long) else CloseSome(Long, 2.0)
      else Idle
    else Idle
  }

  /** Flat: a long is opened exactly on a golden cross with EMA2 above EMA3, a
      short exactly on a dead cross with EMA2 below EMA3; nothing else. */
  lemma DecideFlat(v: Snapshot)
    requires v.longSize == 0.0 && v.shortSize == 0.0
    ensures Decide(v) == OpenFifty(Long) <==> v.e2 > v.e3 && v.golden
    ensures Decide(v) == OpenFifty(Short) <==> v.e2 < v.e3 && v.dead
    ensures Decide(v) in {Idle, OpenFifty(Long), OpenFifty(Short)}
  {
  }

  /** Exactly 50 long and no short: on a dead cross the long is closed once
      the price is at least 0.05% above the entry and hedged with a short
      otherwise; nothing happens without a dead cross. */
  lemma DecideLongFifty(v: Snapshot)
    requires v.longSize == 50.0 && v.shortSize == 0.0
    ensures Decide(v) == CloseFifty(Long) <==> v.dead && UpDiff(v) >= PriceThreshold
    ensures Decide(v) == OpenFifty(Short) <==> v.dead && UpDiff(v) < PriceThreshold
    ensures !v.dead <==> Decide(v) == Idle
  {
  }

  /** Exactly 50 short and no long: the mirror image on a golden cross. */
  lemma DecideShortFifty(v: Snapshot)
    requires v.longSize == 0.0 && v.shortSize == 50.0
    ensures Decide(v) == CloseFifty(Short) <==> v.golden && DownDiff(v) <= -PriceThreshold
    ensures Decide(v) == OpenFifty(Long) <==> v.golden && DownDiff(v) > -PriceThreshold
    ensures !v.golden <==> Decide(v) == Idle
  {
  }

  /** Every other state with sizes that are not negative: a golden cross
      closes min(2, short) of the short, otherwise a dead cross closes
      min(2, long) of the long. */
  lemma DecideHedged(v: Snapshot)
    requires v.longSize >= 0.0 && v.shortSize >= 0.0
    requires !(v.longSize == 0.0 && v.shortSize == 0.0)
    requires !(v.longSize == 50.0 && v.shortSize == 0.0) && !(v.longSize == 0.0 && v.shortSize == 50.0)
    ensures v.golden ==> Decide(v) == (if v.shortSize < 2.0 then CloseAll(Short) else CloseSome(Short, 2.0))
    ensures !v.golden && v.dead ==> Decide(v) == (if v.longSize < 2.0 then CloseAll(Long) else CloseSome(Long, 2.0))
    ensures !v.golden && !v.dead ==> Decide(v) == Idle
  {
  }

  /** Lots a helper takes off a side when its order succeeds; the hedge branch
      never takes more than 2, nor more than the side holds. */
  function LotsClosed(a: Action, size: real): (n: real)
    requires a.CloseAll? || a.CloseSome?
    ensures n <= size
  {
    if a.CloseAll? || size <= a.amount then size else a.amount
  }

  lemma HedgedClosesAtMostTwo(v: Snapshot)
    requires v.longSize >= 0.0 && v.shortSize >= 0.0
    requires !(v.longSize == 0.0 && v.shortSize == 0.0)
    requires !(v.longSize == 50.0 && v.shortSize == 0.0) && !(v.longSize == 0.0 && v.shortSize == 50.0)
    requires Decide(v).CloseAll? || Decide(v).CloseSome?
    ensures var a := Decide(v);
      var size := if a.side == Long then v.longSize else v.shortSize;
      LotsClosed(a, size) == (if size < 2.0 then size else 2.0)
  {
  }

  /** The quantity sent for `lots` lots of `unit` each; kept behind a name so
      that the product of two unknowns stays out of the solver's arithmetic. */
  function OrderQty(unit: real, lots: real): real
  {
    unit * lots
  }

  /** Everything an order helper can change: both sides' sizes and entry
      prices, the ledger, the risk controller's history of trades, and the
      page's request log and reading count. */
  datatype Book = Book(
    longSize: real, shortSize: real,
    longEntry: real, shortEntry: real,
    volume: real, pnl: real,
    history: seq<TradeType>,
    requests: seq<Request>, readCount: nat)
  {
    function Size(side: Side): real {
      if side == Long then longSize else shortSize
    }

    function Entry(side: Side): real {
      if side == Long then longEntry else shortEntry
    }
  }

  // ---------------------------------------------------------------------------
  // The engine.

  class PriceStrategy {
    const symbol: string
    const tracker: PositionTracker
    const risk: RiskManager
    var ema1: Option<real>
    var ema2: Option<real>
    var ema3: Option<real>
    var prevEma1: Option<real>
    var prevEma2: Option<real>
    var prevEma3: Option<real>
    var prevPrice: Option<real>
    /** Every price fed so far, oldest first. */
    ghost var fed: seq<real>
    var longSize: real
    var shortSize: real
    var longEntryPrice: real
    var shortEntryPrice: real
    /** Whether an order executor is attached. */
    var hasExecutor: bool
    var userSeed: real
    var baseUnit: real
    var currentPrice: real

    /** The tracker and the controller share one page. */
    predicate Wired() {
      risk.tracker == tracker && tracker.exchange.Valid()
    }

    /** Each average is the EMA of the prices fed so far, and there is none
        before the first price. */
    ghost predicate Follows()
      reads this`ema1, this`ema2, this`ema3, this`fed
    {
      && (ema1.Some? <==> fed != []) && (ema2.Some? <==> fed != []) && (ema3.Some? <==> fed != [])
      && (fed != [] ==>
            && ema1.value == Ema(Alpha(EmaShort), fed)
            && ema2.value == Ema(Alpha(EmaMid), fed)
            && ema3.value == Ema(Alpha(EmaLong), fed))
    }

    /** Sizes are never negative. */
    predicate SizesNonNegative()
      reads this`longSize, this`shortSize
    {
      longSize >= 0.0 && shortSize >= 0.0
    }

    ghost predicate Valid()
      reads this`ema1, this`ema2, this`ema3, this`fed, this`longSize, this`shortSize
    {
      Wired() && Follows() && SizesNonNegative()
    }

    /** The book as it stands. */
    function Current(): Book
      reads this, tracker, risk, tracker.exchange
    {
      Book(longSize, shortSize, longEntryPrice, shortEntryPrice,
           tracker.accumulatedVolume, tracker.realizedPnl, risk.tradeHistory,
           tracker.exchange.requests, tracker.exchange.readCount)
    }

    /** `_open_long_50` / `_open_short_50` has taken book `b` to book `c`: nothing
        happens without an executor; otherwise one order for 50 base units
        goes out, and when the gateway accepts it the side holds exactly 50 at
        the current price, the notional is booked and the open (a hedge when
        the other side is held) goes to the risk controller. A refused order
        changes nothing but the request log. */
    predicate OpenFiftyDone(side: Side, b: Book, c: Book)
      reads this`hasExecutor, this`baseUnit, this`currentPrice
    {
      var order := Open(side, baseUnit * 50.0);
      if !hasExecutor then c == b
      else
        && OnlyClosesAdded(b.requests + [order], c.requests)
        && if AnswerAt(tracker.exchange.answers, |b.requests|) then
             && c.Size(side) == 50.0 && c.Size(Other(side)) == b.Size(Other(side))
             && c.Entry(side) == currentPrice && c.Entry(Other(side)) == b.Entry(Other(side))
             && c.volume == b.volume + currentPrice * (baseUnit * 50.0)
             && c.pnl == b.pnl
             && c.history ==
                  b.history + [if b.Size(Other(side)) > 0.0 then Hedged(side) else Opened(side)]
           else c == b.(requests := b.requests + [order])
    }

    /** One close order for `qty` units of `side` has taken book `b` to book `c`:
        when the gateway accepts it the close is booked (notional and profit
        against the entry price at the current price), the side is emptied and
        `event` goes to the risk controller; a refused order changes nothing
        but the request log. The other side is untouched either way. */
    predicate CloseWholeDone(side: Side, qty: real, event: TradeType, b: Book, c: Book)
      reads this`hasExecutor, this`baseUnit, this`currentPrice
    {
      var order := Close(side, qty);
      && OnlyClosesAdded(b.requests + [order], c.requests)
      && if AnswerAt(tracker.exchange.answers, |b.requests|) then
           && c.Size(side) == 0.0 && c.Entry(side) == 0.0
           && c.Size(Other(side)) == b.Size(Other(side)) && c.Entry(Other(side)) == b.Entry(Other(side))
           && c.volume == b.volume + currentPrice * qty
           && c.pnl == b.pnl + ClosePnl(side, b.Entry(side), currentPrice, qty)
           && c.history == b.history + [event]
         else c == b.(requests := b.requests + [order])
    }

    /** `_close_long_all` / `_close_short_all` has taken book `b` to book `c`: with an
        executor and a non-empty side, the whole side is closed; otherwise
        nothing happens. */
    predicate CloseAllDone(side: Side, b: Book, c: Book)
      reads this`hasExecutor, this`baseUnit, this`currentPrice
    {
      if b.Size(side) > 0.0 && hasExecutor
      then CloseWholeDone(side, OrderQty(baseUnit, b.Size(side)), AllClosed(side), b, c)
      else c == b
    }

    /** `_close_long_50` / `_close_short_50` has taken book `b` to book `c`: with an
        executor and exactly 50 on the side, those 50 are closed; otherwise
        nothing happens. */
    predicate CloseFiftyDone(side: Side, b: Book, c: Book)
      reads this`hasExecutor, this`baseUnit, this`currentPrice
    {
      if b.Size(side) == 50.0 && hasExecutor
      then CloseWholeDone(side, baseUnit * 50.0, ClosedFifty(side), b, c)
      else c == b
    }

    /** `_close_long(amt)` / `_close_short(amt)` has taken book `b` to book `c`: with an
        executor and a non-empty side, one close order for `amt` base units
        goes out; when the gateway accepts it the close is booked and `amt`
        comes off the side, and a side left at or below 0 is emptied, loses
        its entry price and is reported to the risk controller. A refused
        order changes nothing but the request log. */
    predicate CloseSomeDone(side: Side, amt: real, b: Book, c: Book)
      reads this`hasExecutor, this`baseUnit, this`currentPrice
    {
      var qty := OrderQty(baseUnit, amt);
      var order := Close(side, qty);
      var emptied := b.Size(side) <= amt;
      if !(b.Size(side) > 0.0 && hasExecutor) then c == b
      else
        && OnlyClosesAdded(b.requests + [order], c.requests)
        && if AnswerAt(tracker.exchange.answers, |b.requests|) then
             && c.Size(side) == (if emptied then 0.0 else b.Size(side) - amt)
             && c.Entry(side) == (if emptied then 0.0 else b.Entry(side))
             && c.Size(Other(side)) == b.Size(Other(side)) && c.Entry(Other(side)) == b.Entry(Other(side))
             && c.volume == b.volume + currentPrice * qty
             && c.pnl == b.pnl + ClosePnl(side, b.Entry(side), currentPrice, qty)
             && c.history == b.history + (if emptied then [AllClosed(side)] else [])
             && (!emptied ==>
                   c.requests == b.requests + [order]
                   && c.readCount == b.readCount)
           else c == b.(requests := b.requests + [order])
    }

    /** The helper `a` names has taken book `b` to book `c`; `Idle` changes nothing. */
    predicate ActionDone(a: Action, b: Book, c: Book)
      reads this`hasExecutor, this`baseUnit, this`currentPrice
    {
      match a
      case Idle => c == b
      case OpenFifty(side) => OpenFiftyDone(side, b, c)
      case CloseFifty(side) => CloseFiftyDone(side, b, c)
      case CloseAll(side) => CloseAllDone(side, b, c)
      case CloseSome(side, amount) => CloseSomeDone(side, amount, b, c)
    }

    constructor (symbol: string, tracker: PositionTracker, risk: RiskManager)
      requires risk.tracker == tracker && tracker.exchange.Valid()
      ensures Valid() && fed == []
      ensures this.symbol == symbol && this.tracker == tracker && this.risk == risk
      ensures prevEma1.None? && prevEma2.None? && prevEma3.None? && prevPrice.None?
      ensures longSize == 0.0 && shortSize == 0.0 && longEntryPrice == 0.0 && shortEntryPrice == 0.0
      ensures !hasExecutor && userSeed == 0.0 && baseUnit == 1.0 && currentPrice == 0.0
    {
      this.symbol := symbol;
      this.tracker := tracker;
      this.risk := risk;
      ema1, ema2, ema3 := None, None, None;
      prevEma1, prevEma2, prevEma3 := None, None, None;
      prevPrice := None;
      fed := [];
      longSize, shortSize := 0.0, 0.0;
      longEntryPrice, shortEntryPrice := 0.0, 0.0;
      hasExecutor := false;
      userSeed := 0.0;
      baseUnit := 1.0;
      currentPrice := 0.0;
    }

    method SetOrderExecutor()
      modifies this`hasExecutor
      ensures hasExecutor
    {
      hasExecutor := true;
    }

    method SetUserSeed(seed: real)
      modifies this`userSeed
      ensures userSeed == seed
    {
      userSeed := seed;
    }

    function Size(side: Side): real
      reads this`longSize, this`shortSize
    {
      if side == Long then longSize else shortSize
    }

    function EntryPrice(side: Side): real
      reads this`longEntryPrice, this`shortEntryPrice
    {
      if side == Long then longEntryPrice else shortEntryPrice
    }

    /** What `_check_strategy` sees once the averages are up to date. */
    function View(): Snapshot
      reads this
      requires ema1.Some? && ema2.Some? && ema3.Some?
    {
      Snapshot(longSize, shortSize, currentPrice, ema2.value, ema3.value,
               GoldenCross(prevEma1, prevEma2, ema1.value, ema2.value),
               DeadCross(prevEma1, prevEma2, ema1.value, ema2.value),
               longEntryPrice, shortEntryPrice)
    }

    /** `_update_ema`: the averages move to the previous slots and take the new
        price in; `prev_price` follows the price only on a move of at least
        0.0001, so it always stays within 0.0001 of the latest price. */
    method UpdateEma(price: real)
      requires Follows()
      modifies this`ema1, this`ema2, this`ema3, this`prevEma1, this`prevEma2, this`prevEma3,
               this`prevPrice, this`fed
      ensures fed == old(fed) + [price] && Follows()
      ensures prevEma1 == old(ema1) && prevEma2 == old(ema2) && prevEma3 == old(ema3)
      ensures ema1 == Some(price)
      ensures old(fed) == [] ==> ema2 == Some(price) && ema3 == Some(price)
      ensures ema2.Some? && Low(fed) <= ema2.value <= High(fed)
      ensures ema3.Some? && Low(fed) <= ema3.value <= High(fed)
      ensures prevPrice ==
        if old(prevPrice).Some? && PriceInRange(price, old(prevPrice).value, 0.0001) then old(prevPrice)
        else Some(price)
      ensures prevPrice.Some? && PriceInRange(price, prevPrice.value, 0.0001)
    {
      StepEmaFollows(Alpha(EmaShort), fed, price, ema1);
      StepEmaFollows(Alpha(EmaMid), fed, price, ema2);
      StepEmaFollows(Alpha(EmaLong), fed, price, ema3);
      EmaShortIsLatest(fed + [price]);
      prevEma1, prevEma2, prevEma3 := ema1, ema2, ema3;
      ema1 := StepEma(Alpha(EmaShort), price, ema1);
      ema2 := StepEma(Alpha(EmaMid), price, ema2);
      ema3 := StepEma(Alpha(EmaLong), price, ema3);
      fed := fed + [price];
      if prevPrice.None? {
        prevPrice := Some(price);
        return;
      }
      if PriceInRange(price, prevPrice.value, 0.0001) {
        return;
      }
      prevPrice := Some(price);
    }

    /** `update_base_unit(current_price)`. */
    method UpdateBaseUnit(price: real)
      modifies this`baseUnit
      ensures baseUnit == NextBaseUnit(old(baseUnit), userSeed, Some(price), symbol)
    {
      if userSeed <= 0.0 || price <= 0.0 {
        return;
      }
      var flooredValue := FlooredBaseUnit(userSeed, price, symbol);
      if flooredValue > 0.0 {
        baseUnit := flooredValue;
      }
    }

    /** Books a confirmed open of `qty` units: the notional at the current
        price, the entry price, and the open (a hedge when the other side is
        held) for the risk controller. */
    method BookOpen(side: Side, qty: real, now: int, draw: Draw)
      requires Wired() && ValidDraw(draw)
      modifies this`longEntryPrice, this`shortEntryPrice, tracker`accumulatedVolume, risk,
               tracker.exchange`readCount, tracker.exchange`requests
      ensures EntryPrice(side) == currentPrice && EntryPrice(Other(side)) == old(EntryPrice(Other(side)))
      ensures tracker.accumulatedVolume == old(tracker.accumulatedVolume) + currentPrice * qty
      ensures risk.tradeHistory == old(risk.tradeHistory) + [if Size(Other(side)) > 0.0 then Hedged(side) else Opened(side)]
      ensures OnlyClosesAdded(old(tracker.exchange.requests), tracker.exchange.requests)
    {
      var realPrice := currentPrice;
      tracker.AddTradeVolume(realPrice * qty);
      if side == Long {
        longEntryPrice := realPrice;
      } else {
        shortEntryPrice := realPrice;
      }
      var event := if Size(Other(side)) > 0.0 then Hedged(side) else Opened(side);
      risk.Notify(event, now, draw);
    }

    /** Empties a side after a confirmed close: size and entry price go to 0
        and `event` goes to the risk controller. */
    method Settle(side: Side, event: TradeType, now: int, draw: Draw)
      requires Wired() && ValidDraw(draw)
      modifies this`longSize, this`shortSize, this`longEntryPrice, this`shortEntryPrice, risk,
               tracker.exchange`readCount, tracker.exchange`requests
      ensures Size(side) == 0.0 && EntryPrice(side) == 0.0
      ensures Size(Other(side)) == old(Size(Other(side))) && EntryPrice(Other(side)) == old(EntryPrice(Other(side)))
      ensures risk.tradeHistory == old(risk.tradeHistory) + [event]
      ensures OnlyClosesAdded(old(tracker.exchange.requests), tracker.exchange.requests)
    {
      if side == Long {
        longSize, longEntryPrice := 0.0, 0.0;
      } else {
        shortSize, shortEntryPrice := 0.0, 0.0;
      }
      risk.Notify(event, now, draw);
    }

    /** `_open_long_50` / `_open_short_50`: one order for 50 base units; on
        success the side holds exactly 50, the notional at the current price
        is booked, the entry is the current price, and the open (a hedge when
        the other side is held) goes to the risk controller. A failed order
        changes nothing but the request log. */
    method OpenFiftyOrder(side: Side, now: int, draw: Draw)
      requires Wired() && ValidDraw(draw)
      modifies this`longSize, this`shortSize, this`longEntryPrice, this`shortEntryPrice,
               tracker`accumulatedVolume, risk, tracker.exchange`readCount, tracker.exchange`requests
      ensures OpenFiftyDone(side, old(Current()), Current())
    {
      if !hasExecutor {
        return;
      }
      var qty := baseUnit * 50.0;
      var success := tracker.exchange.Send(Open(side, qty));
      if success {
        if side == Long {
          longSize := 50.0;
        } else {
          shortSize := 50.0;
        }
        BookOpen(side, qty, now, draw);
      }
    }

    /** Books a confirmed close of `qty` units of `side`: the notional at the
        current price and the profit against the entry price. */
    method BookClose(side: Side, qty: real)
      modifies tracker`accumulatedVolume, tracker`realizedPnl
      ensures tracker.accumulatedVolume == old(tracker.accumulatedVolume) + currentPrice * qty
      ensures tracker.realizedPnl == old(tracker.realizedPnl) + ClosePnl(side, EntryPrice(side), currentPrice, qty)
    {
      tracker.AddTradeVolume(currentPrice * qty);
      tracker.AddRealizedPnl(ClosePnl(side, EntryPrice(side), currentPrice, qty));
    }

    /** The part `_close_*_all` and `_close_*_50` share once their guard
        holds: one close order for `qty` units, the side's whole holding; on success the
        close is booked, the side is emptied, its entry price reset to 0 and
        `event` goes to the risk controller. A failed order changes nothing
        but the request log. */
    method CloseWhole(side: Side, qty: real, event: TradeType, now: int, draw: Draw)
      requires Wired() && ValidDraw(draw)
      modifies this`longSize, this`shortSize, this`longEntryPrice, this`shortEntryPrice,
               tracker`accumulatedVolume, tracker`realizedPnl, risk,
               tracker.exchange`readCount, tracker.exchange`requests
      ensures CloseWholeDone(side, qty, event, old(Current()), Current())
    {
      var success := tracker.exchange.Send(Close(side, qty));
      if success {
        BookClose(side, qty);
        Settle(side, event, now, draw);
      }
    }

    /** `_close_long_all` / `_close_short_all`: acts only with an executor and
        a non-empty side, and then closes all of it. */
    method CloseAllOrder(side: Side, now: int, draw: Draw)
      requires Wired() && ValidDraw(draw)
      modifies this`longSize, this`shortSize, this`longEntryPrice, this`shortEntryPrice,
               tracker`accumulatedVolume, tracker`realizedPnl, risk,
               tracker.exchange`readCount, tracker.exchange`requests
      ensures CloseAllDone(side, old(Current()), Current())
    {
      if Size(side) > 0.0 && hasExecutor {
        CloseWhole(side, OrderQty(baseUnit, Size(side)), AllClosed(side), now, draw);
      }
    }

    /** `_close_long_50` / `_close_short_50`: acts only with an executor and
        exactly 50 on the side, and then closes those 50. */
    method CloseFiftyOrder(side: Side, now: int, draw: Draw)
      requires Wired() && ValidDraw(draw)
      modifies this`longSize, this`shortSize, this`longEntryPrice, this`shortEntryPrice,
               tracker`accumulatedVolume, tracker`realizedPnl, risk,
               tracker.exchange`readCount, tracker.exchange`requests
      ensures CloseFiftyDone(side, old(Current()), Current())
    {
      if Size(side) == 50.0 && hasExecutor {
        CloseWhole(side, baseUnit * 50.0, ClosedFifty(side), now, draw);
      }
    }

    /** Books a confirmed close of `amt` base units of `side`: the notional and
        the profit are booked and `amt` comes off the side; a result at or
        below 0 is clamped to 0, resets the entry price and is the only case
        reported to the risk controller. */
    method Reduce(side: Side, amt: real, now: int, draw: Draw)
      requires Wired() && ValidDraw(draw)
      modifies this`longSize, this`shortSize, this`longEntryPrice, this`shortEntryPrice,
               tracker`accumulatedVolume, tracker`realizedPnl, risk,
               tracker.exchange`readCount, tracker.exchange`requests
      ensures var qty := OrderQty(baseUnit, amt);
        var emptied := old(Size(side)) <= amt;
        && Size(side) == (if emptied then 0.0 else old(Size(side)) - amt)
        && EntryPrice(side) == (if emptied then 0.0 else old(EntryPrice(side)))
        && Size(Other(side)) == old(Size(Other(side))) && EntryPrice(Other(side)) == old(EntryPrice(Other(side)))
        && tracker.accumulatedVolume == old(tracker.accumulatedVolume) + currentPrice * qty
        && tracker.realizedPnl == old(tracker.realizedPnl) + ClosePnl(side, old(EntryPrice(side)), currentPrice, qty)
        && risk.tradeHistory == old(risk.tradeHistory) + (if emptied then [AllClosed(side)] else [])
        && OnlyClosesAdded(old(tracker.exchange.requests), tracker.exchange.requests)
        && (!emptied ==>
              && tracker.exchange.requests == old(tracker.exchange.requests)
              && tracker.exchange.readCount == old(tracker.exchange.readCount))
    {
      BookClose(side, OrderQty(baseUnit, amt));
      var rest := Size(side) - amt;
      if rest <= 0.0 {
        Settle(side, AllClosed(side), now, draw);
      } else if side == Long {
        longSize := rest;
      } else {
        shortSize := rest;
      }
    }

    /** `_close_long(amt)` / `_close_short(amt)`: acts only with an executor and
        a non-empty side; one close order for `amt` base units, booked by
        `Reduce` when it succeeds. A failed order changes nothing but the
        request log. */
    method CloseSomeOrder(side: Side, amt: real, now: int, draw: Draw)
      requires Wired() && ValidDraw(draw)
      modifies this`longSize, this`shortSize, this`longEntryPrice, this`shortEntryPrice,
               tracker`accumulatedVolume, tracker`realizedPnl, risk,
               tracker.exchange`readCount, tracker.exchange`requests
      ensures CloseSomeDone(side, amt, old(Current()), Current())
    {
      if !(Size(side) > 0.0 && hasExecutor) {
        return;
      }
      var qty := OrderQty(baseUnit, amt);
      var success := tracker.exchange.Send(Close(side, qty));
      if success {
        Reduce(side, amt, now, draw);
      }
    }

    /** Calls the helper an action names. Whatever happens, a side either keeps
        its size or ends at the size the helper aims for. */
    method RunAction(a: Action, now: int, draw: Draw)
      requires Wired() && ValidDraw(draw) && SizesNonNegative()
      modifies this`longSize, this`shortSize, this`longEntryPrice, this`shortEntryPrice,
               tracker`accumulatedVolume, tracker`realizedPnl, risk,
               tracker.exchange`readCount, tracker.exchange`requests
      ensures ActionDone(a, old(Current()), Current())
      ensures SizesNonNegative()
      ensures a != Idle ==> Size(Other(a.side)) == old(Size(Other(a.side)))
      ensures a.OpenFifty? ==> Size(a.side) in {old(Size(a.side)), 50.0}
      ensures a.CloseFifty? || a.CloseAll? ==> Size(a.side) in {old(Size(a.side)), 0.0}
      ensures a.CloseSome? ==>
        Size(a.side) in {old(Size(a.side)), if old(Size(a.side)) <= a.amount then 0.0 else old(Size(a.side)) - a.amount}
    {
      match a
      case Idle =>
      case OpenFifty(side) => OpenFiftyOrder(side, now, draw);
      case CloseFifty(side) => CloseFiftyOrder(side, now, draw);
      case CloseAll(side) => CloseAllOrder(side, now, draw);
      case CloseSome(side, amount) => CloseSomeOrder(side, amount, now, draw);
    }

    /** `_check_strategy`: the helper the decision table names for the current
        view is called, and nothing else happens. */
    method CheckStrategy(now: int, draw: Draw) returns (called: Action)
      requires Wired() && ValidDraw(draw) && SizesNonNegative()
      requires ema1.Some? && ema2.Some? && ema3.Some?
      modifies this`longSize, this`shortSize, this`longEntryPrice, this`shortEntryPrice,
               tracker`accumulatedVolume, tracker`realizedPnl, risk,
               tracker.exchange`readCount, tracker.exchange`requests
      ensures called == Decide(old(View())) && ActionDone(called, old(Current()), Current())
      ensures SizesNonNegative()
      ensures called.CloseSome? ==> called.amount == 2.0 && old(Size(called.side)) >= 2.0
      ensures called.CloseSome? ==> Size(called.side) in {old(Size(called.side)), old(Size(called.side)) - 2.0}
    {
      called := Decide(View());
      RunAction(called, now, draw);
    }

    /** The part of `on_new_price` before the decision: the price and the
        averages take the tick in, the pause is consulted, and out of a pause
        a flat engine recomputes its base unit. */
    method PrepareTick(price: real, now: int) returns (proceed: bool)
      requires Valid()
      modifies this`currentPrice, this`ema1, this`ema2, this`ema3, this`prevEma1, this`prevEma2,
               this`prevEma3, this`prevPrice, this`fed, this`baseUnit, risk`pauseEnd
      ensures Valid()
      ensures currentPrice == price && fed == old(fed) + [price]
      ensures prevEma1 == old(ema1) && prevEma2 == old(ema2) && prevEma3 == old(ema3)
      ensures ema1 == Some(price) && ema2.Some? && ema3.Some?
      ensures proceed <==> !(old(risk.pauseEnd).Some? && now < old(risk.pauseEnd).value)
      ensures baseUnit == (if proceed && longSize == 0.0 && shortSize == 0.0
                           then NextBaseUnit(old(baseUnit), userSeed, Some(price), symbol)
                           else old(baseUnit))
    {
      currentPrice := price;
      UpdateEma(price);
      var paused := risk.IsPaused(now);
      if paused {
        return false;
      }
      if longSize == 0.0 && shortSize == 0.0 {
        UpdateBaseUnit(price);
      }
      return true;
    }

    /** `on_new_price`: the averages always take the price in, even when the
        tick goes on to be skipped; during a pause nothing else happens. Out of
        a pause the base unit is recomputed from the price when both sides are
        flat, and the decision is taken on the sizes held before the tick. */
    method OnNewPrice(price: real, now: int, draw: Draw) returns (called: Action)
      requires Valid() && ValidDraw(draw)
      modifies this, tracker`accumulatedVolume, tracker`realizedPnl, risk,
               tracker.exchange`readCount, tracker.exchange`requests
      ensures Valid()
      ensures currentPrice == price && fed == old(fed) + [price]
      ensures prevEma1 == old(ema1) && prevEma2 == old(ema2) && prevEma3 == old(ema3)
      ensures ema1 == Some(price) && ema2.Some? && ema3.Some?
      ensures var paused := old(risk.pauseEnd).Some? && now < old(risk.pauseEnd).value;
        paused ==>
          && called == Idle
          && longSize == old(longSize) && shortSize == old(shortSize)
          && longEntryPrice == old(longEntryPrice) && shortEntryPrice == old(shortEntryPrice)
          && baseUnit == old(baseUnit)
          && tracker.accumulatedVolume == old(tracker.accumulatedVolume)
          && tracker.realizedPnl == old(tracker.realizedPnl)
          && risk.tradeHistory == old(risk.tradeHistory)
          && tracker.exchange.requests == old(tracker.exchange.requests)
          && tracker.exchange.readCount == old(tracker.exchange.readCount)
      ensures var paused := old(risk.pauseEnd).Some? && now < old(risk.pauseEnd).value;
        !paused ==>
          && baseUnit == (if old(longSize) == 0.0 && old(shortSize) == 0.0
                          then NextBaseUnit(old(baseUnit), old(userSeed), Some(price), symbol)
                          else old(baseUnit))
          && called == Decide(Snapshot(old(longSize), old(shortSize), price, ema2.value, ema3.value,
                                       GoldenCross(old(ema1), old(ema2), price, ema2.value),
                                       DeadCross(old(ema1), old(ema2), price, ema2.value),
                                       old(longEntryPrice), old(shortEntryPrice)))
          && ActionDone(called, old(Current()), Current())
    {
      var proceed := PrepareTick(price, now);
      if !proceed {
        return Idle;
      }
      assert Current() == old(Current());
      called := CheckStrategy(now, draw);
    }
  }
}
