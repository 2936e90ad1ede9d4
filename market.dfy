/** Shared vocabulary of the trading bot: sides, position entries, order requests,
    trade events, the configuration constants, the wall clock and the two pieces
    of arithmetic both strategy engines share (base-unit sizing and Python's
    half-to-even `round`). */
module Market {

  datatype Option<T> = None | Some(value: T)

  datatype Side = Long | Short

  /** One entry of the position list the position view reports
      ({"positionSide": ..., "size": ...}). */
  datatype Position = Position(side: Side, size: real)

  /** What is sent to the order gateway: `place_market_order(side, qty)` or
      `close_position(side, qty)`. */
  datatype Request = Open(side: Side, qty: real) | Close(side: Side, qty: real)

  /** The trade events the strategy engines hand to the risk controller. */
  datatype TradeType =
    | Long50 | Short50
    | HedgeLong | HedgeShort
    | Long50Closed | Short50Closed
    | LongAllClosed | ShortAllClosed
    | LongPartialClosed | ShortPartialClosed

  // ---------------------------------------------------------------------------
  // Events and profit by side

  function Opened(side: Side): TradeType {
    if side == Long then Long50 else Short50
  }

  function Hedged(side: Side): TradeType {
    if side == Long then HedgeLong else HedgeShort
  }

  function ClosedFifty(side: Side): TradeType {
    if side == Long then Long50Closed else Short50Closed
  }

  function AllClosed(side: Side): TradeType {
    if side == Long then LongAllClosed else ShortAllClosed
  }

  function PartiallyClosed(side: Side): TradeType {
    if side == Long then LongPartialClosed else ShortPartialClosed
  }

  function Other(side: Side): Side {
    if side == Long then Short else Long
  }

  /** Profit of closing qty units at `price` against `entry`: price minus
      entry for a long, entry minus price for a short. */
  function ClosePnl(side: Side, entry: real, price: real, qty: real): real
  {
    if side == Long then (price - entry) * qty else (entry - price) * qty
  }

  /** Closing a positive quantity gains exactly when the price moved the
      side's way, and nothing exactly at the entry price. */
  lemma ClosePnlSign(side: Side, entry: real, price: real, qty: real)
    requires qty > 0.0
    ensures ClosePnl(side, entry, price, qty) > 0.0 <==> (if side == Long then price > entry else price < entry)
    ensures ClosePnl(side, entry, price, qty) == 0.0 <==> price == entry
  {
  }

  // ---------------------------------------------------------------------------
  // Configuration constants

  /** The +-0.05% volatility threshold. */
  const PriceThreshold: real := 0.0005

  /** EMA periods of the fast, mid and slow averages. */
  const EmaShort: nat := 1
  const EmaMid: nat := 3
  const EmaLong: nat := 7

  /** Order attempts per full open or close in the DOM-fed engine, and the
      gateway's own retry bound. */
  const MaxOrderRetry: nat := 3

  const DefaultSymbol: string := "ETH_USDT"

  /** `MIN_TRADE_AMOUNT.get(symbol, 0.0001)`: the per-symbol minimum step. */
  function MinTradeAmount(symbol: string): (step: real)
    ensures step > 0.0
    ensures symbol !in {"BTC_USDT", "ETH_USDT", "SOL_USDT", "XRP_USDT"} ==> step == 0.0001
  {
    if symbol == "BTC_USDT" then 0.0001
    else if symbol == "ETH_USDT" then 0.01
    else if symbol == "SOL_USDT" then 0.1
    else if symbol == "XRP_USDT" then 1.0
    else 0.0001
  }

  /** EMA weight 2/(N+1). */
  function Alpha(period: nat): (a: real)
    requires period >= 1
    ensures 0.0 < a <= 1.0
    ensures period == 1 ==> a == 1.0
  {
    2.0 / (period as real + 1.0)
  }

  // ---------------------------------------------------------------------------
  // Wall clock: seconds on the local time line, so a calendar date and an hour
  // are derived from one number.

  const SecondsPerDay: int := 86400

  function Date(now: int): int { now / SecondsPerDay }

  function DayStart(now: int): (t: int)
    ensures t <= now < t + SecondsPerDay
    ensures Date(t) == Date(now)
  {
    now - now % SecondsPerDay
  }

  function Hour(now: int): (h: int)
    ensures 0 <= h < 24
    ensures DayStart(now) + h * 3600 <= now < DayStart(now) + (h + 1) * 3600
  {
    (now % SecondsPerDay) / 3600
  }

  /** The random draws one pause decision may consume: `random.randint(600, 900)`
      seconds of rest, and the minute and second `randint(0, 59)` of a
      15:mm:ss resume time. */
  datatype Draw = Draw(restSeconds: int, minute: int, second: int)

  predicate ValidDraw(d: Draw) {
    600 <= d.restSeconds <= 900 && 0 <= d.minute <= 59 && 0 <= d.second <= 59
  }

  // ---------------------------------------------------------------------------
  // Python's round() on a real: nearest integer, ties to the even neighbour.

  function RoundHalfEven(x: real): (r: int)
    ensures x - 0.5 <= r as real <= x + 0.5
    ensures (r as real == x - 0.5 || r as real == x + 0.5) ==> r % 2 == 0
  {
    var f := x.Floor;
    var d := x - f as real;
    if d < 0.5 then f
    else if d > 0.5 then f + 1
    else if f % 2 == 0 then f
    else f + 1
  }

  /** The two ensures of RoundHalfEven pin the integer down: any integer
      within one half of x that is even on a tie is RoundHalfEven(x). */
  lemma RoundHalfEvenUnique(x: real, k: int)
    requires x - 0.5 <= k as real <= x + 0.5
    requires (k as real == x - 0.5 || k as real == x + 0.5) ==> k % 2 == 0
    ensures k == RoundHalfEven(x)
  {
  }

  lemma RoundHalfEvenNonNegative(x: real)
    requires x >= 0.0
    ensures RoundHalfEven(x) >= 0
  {
  }

  // ---------------------------------------------------------------------------
  // Base-unit sizing: floor((seed * 0.2 / price) / step) * step.

  function FlooredBaseUnit(seed: real, price: real, symbol: string): (b: real)
    requires price > 0.0
  {
    var step := MinTradeAmount(symbol);
    ((seed * 0.2 / price) / step).Floor as real * step
  }

  /** The floored value is the largest multiple of the symbol's step that does
      not exceed seed * 0.2 / price. */
  lemma FlooredBaseUnitIsLargestMultiple(seed: real, price: real, symbol: string)
    requires price > 0.0
    ensures var b := FlooredBaseUnit(seed, price, symbol);
            var step := MinTradeAmount(symbol);
            && b <= seed * 0.2 / price < b + step
            && (b / step).Floor as real == b / step
            && (b > 0.0 <==> seed * 0.2 / price >= step)
  {
    var step := MinTradeAmount(symbol);
    var q := (seed * 0.2 / price) / step;
    var k := q.Floor;
    assert q * step == seed * 0.2 / price;
    assert k as real <= q < k as real + 1.0;
    assert k as real * step <= q * step;
    assert q * step < (k as real + 1.0) * step;
    assert (k as real * step) / step == k as real;
    if k >= 1 {
      assert k as real * step >= 1.0 * step;
    } else {
      assert k as real * step <= 0.0 * step;
    }
  }

  /** `update_base_unit`: the base unit after one recomputation attempt. It is
      left as it was when the seed is not positive, the reference price is
      missing or not positive, or the floored value is not positive. */
  function NextBaseUnit(current: real, seed: real, price: Option<real>, symbol: string): (b: real)
    ensures b == current || b > 0.0
    ensures (seed <= 0.0 || price.None? || price.value <= 0.0) ==> b == current
    ensures seed > 0.0 && price.Some? && price.value > 0.0 ==>
      var x := seed * 0.2 / price.value;
      var step := MinTradeAmount(symbol);
      && (x >= step ==> b > 0.0 && b <= x < b + step && (b / step).Floor as real == b / step)
      && (x < step ==> b == current)
  {
    if seed <= 0.0 || price.None? || price.value <= 0.0 then current
    else
      var f := FlooredBaseUnit(seed, price.value, symbol);
      FlooredBaseUnitIsLargestMultiple(seed, price.value, symbol);
      if f <= 0.0 then current else f
  }

  /** Once positive, the base unit stays positive: the `base_unit <= 0` branch of
      the readback is never taken after a recomputation. */
  lemma NextBaseUnitStaysPositive(current: real, seed: real, price: Option<real>, symbol: string)
    requires current > 0.0
    ensures NextBaseUnit(current, seed, price, symbol) > 0.0
  {
  }

  /** Seed 1000 at price 100 on ETH_USDT (step 0.01) gives a base unit of 2. */
  lemma BaseUnitExample()
    ensures NextBaseUnit(1.0, 1000.0, Some(100.0), "ETH_USDT") == 2.0
  {
    assert MinTradeAmount("ETH_USDT") == 0.01;
    assert (1000.0 * 0.2 / 100.0) / 0.01 == 200.0;
    assert FlooredBaseUnit(1000.0, 100.0, "ETH_USDT") == 2.0;
  }

  // ---------------------------------------------------------------------------
  // Totals over a position list.

  /** Sum of the sizes listed for one side (the accumulation loops). */
  function SideTotal(ps: seq<Position>, side: Side): real
  {
    if ps == [] then 0.0
    else SideTotal(ps[..|ps| - 1], side) + (if ps[|ps| - 1].side == side then ps[|ps| - 1].size else 0.0)
  }

  /** Size of the last entry listed for one side, 0 if none (the assignment
      loops of the risk controller, where a later entry overwrites an earlier one). */
  function LastSize(ps: seq<Position>, side: Side): real
  {
    if ps == [] then 0.0
    else if ps[|ps| - 1].side == side then ps[|ps| - 1].size
    else LastSize(ps[..|ps| - 1], side)
  }

  predicate AllPositive(ps: seq<Position>) {
    forall i :: 0 <= i < |ps| ==> ps[i].size > 0.0
  }

  lemma {:induction false} SideTotalNonNegative(ps: seq<Position>, side: Side)
    requires AllPositive(ps)
    ensures SideTotal(ps, side) >= 0.0
    ensures SideTotal(ps, side) == 0.0 <==> forall i :: 0 <= i < |ps| ==> ps[i].side != side
  {
    if ps != [] {
      SideTotalNonNegative(ps[..|ps| - 1], side);
      var init := ps[..|ps| - 1];
      assert forall i :: 0 <= i < |init| ==> init[i] == ps[i];
    }
  }

  lemma {:induction false} LastSizeNonNegative(ps: seq<Position>, side: Side)
    requires AllPositive(ps)
    ensures LastSize(ps, side) >= 0.0
    ensures LastSize(ps, side) == 0.0 <==> forall i :: 0 <= i < |ps| ==> ps[i].side != side
  {
    if ps != [] && ps[|ps| - 1].side != side {
      LastSizeNonNegative(ps[..|ps| - 1], side);
      var init := ps[..|ps| - 1];
      assert forall i :: 0 <= i < |init| ==> init[i] == ps[i];
    }
  }

  /** On a list of positive entries, "no position" reads the same whether the
      sizes are summed per side or the last entry per side is taken. */
  lemma EmptyIffNoAmounts(ps: seq<Position>)
    requires AllPositive(ps)
    ensures ps == [] <==> LastSize(ps, Long) == 0.0 && LastSize(ps, Short) == 0.0
    ensures ps == [] <==> !(SideTotal(ps, Long) > 0.0 || SideTotal(ps, Short) > 0.0)
  {
    LastSizeNonNegative(ps, Long);
    LastSizeNonNegative(ps, Short);
    SideTotalNonNegative(ps, Long);
    SideTotalNonNegative(ps, Short);
    if ps != [] {
      assert ps[0].side == Long || ps[0].side == Short;
    }
  }

  /** `for pos in positions: if side == LONG: real_long += size ...` */
  method SideTotals(ps: seq<Position>) returns (long: real, short: real)
    ensures long == SideTotal(ps, Long) && short == SideTotal(ps, Short)
  {
    long, short := 0.0, 0.0;
    for i := 0 to |ps|
      invariant long == SideTotal(ps[..i], Long)
      invariant short == SideTotal(ps[..i], Short)
    {
      assert ps[..i + 1][..i] == ps[..i];
      var p := ps[i];
      if p.side == Long {
        long := long + p.size;
      } else if p.side == Short {
        short := short + p.size;
      }
    }
    assert ps[..|ps|] == ps;
  }

  /** `for pos in positions: if side == LONG: long_size = size ...` */
  method LastSizes(ps: seq<Position>) returns (long: real, short: real)
    ensures long == LastSize(ps, Long) && short == LastSize(ps, Short)
  {
    long, short := 0.0, 0.0;
    for i := 0 to |ps|
      invariant long == LastSize(ps[..i], Long)
      invariant short == LastSize(ps[..i], Short)
    {
      assert ps[..i + 1][..i] == ps[..i];
      var p := ps[i];
      if p.side == Long {
        long := p.size;
      } else if p.side == Short {
        short := p.size;
      }
    }
    assert ps[..|ps|] == ps;
  }
}
