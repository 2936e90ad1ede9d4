/** The DOM-fed strategy engine: every tick hands it the three EMA values shown
    on the chart, and it opens or closes 50-lot positions on EMA crossovers,
    hedges with the opposite side, and while hedged trims 2 lots at a time.
    After every order it reads the position list back and overwrites its own
    sizes with the read amounts, in base units, rounded half to even. */
module DomEngine {
  import opened Market
  import opened AmountParsing
  import opened ExchangeView
  import opened PositionTracking
  import opened Risk

  // ---------------------------------------------------------------------------
  // Crossovers and the decision table.

  /** Golden cross: EMA1 was at or below EMA2 and now is at or above it. */
  predicate GoldenCross(prev1: Option<real>, prev2: Option<real>, e1: Option<real>, e2: Option<real>) {
    prev1.Some? && prev2.Some? && e1.Some? && e2.Some?
    && prev1.value <= prev2.value && e1.value >= e2.value
  }

  /** Dead cross: EMA1 was at or above EMA2 and now is at or below it. */
  predicate DeadCross(prev1: Option<real>, prev2: Option<real>, e1: Option<real>, e2: Option<real>) {
    prev1.Some? && prev2.Some? && e1.Some? && e2.Some?
    && prev1.value >= prev2.value && e1.value <= e2.value
  }

  /** The crossovers are not strict: both fire on the same tick exactly when
      EMA1 equalled EMA2 on the previous tick and equals it again now. */
  lemma CrossoversTie(prev1: Option<real>, prev2: Option<real>, e1: Option<real>, e2: Option<real>)
    ensures GoldenCross(prev1, prev2, e1, e2) && DeadCross(prev1, prev2, e1, e2) <==>
              prev1.Some? && prev2.Some? && e1.Some? && e2.Some?
              && prev1.value == prev2.value && e1.value == e2.value
  {
  }

  /** The helper a tick calls. */
  datatype Helper = NoAction | OpenFifty(side: Side) | CloseFifty(side: Side) | CloseTwo(side: Side)

  /** The helper, and the guard updates made before calling it: record the
      price of a golden or dead cross, and lift the 2-lot block of one side. */
  datatype Decision = Decision(helper: Helper, markGolden: bool, markDead: bool, unblock: Option<Side>)

  const Skip := Decision(NoAction, false, false, None)

  /** What `_check_strategy` looks at. */
  datatype View = View(
    longSize: nat, shortSize: nat,
    e1: real, e2: real, e3: real,
    golden: bool, dead: bool,
    longEntry: real, shortEntry: real,
    lastGolden: Option<real>, lastDead: Option<real>)

  /** Relative move above the long entry, 0 without an entry. */
  function UpDiff(v: View): real {
    if v.longEntry > 0.0 then (v.e1 - v.longEntry) / v.longEntry else 0.0
  }

  /** Relative move from the short entry, 0 without an entry. */
  function DownDiff(v: View): real {
    if v.shortEntry > 0.0 then (v.e1 - v.shortEntry) / v.shortEntry else 0.0
  }

  /** The decision table of `_check_strategy`. */
  function Decide(v: View): Decision {
    if v.longSize == 0 && v.shortSize == 0 then
      if v.e2 > v.e3 && v.golden then
        if v.lastGolden == Some(v.e1) then Skip
        else Decision(OpenFifty(Long), true, false, None)
      else if v.e2 < v.e3 && v.dead then
        if v.lastDead == Some(v.e1) then Skip
        else Decision(OpenFifty(Short), false, true, None)
      else Skip
    else if v.longSize == 50 && v.shortSize == 0 then
      if UpDiff(v) >= PriceThreshold && v.dead then Decision(CloseFifty(Long), false, false, None)
      else if UpDiff(v) < PriceThreshold && v.dead then Decision(OpenFifty(Short), false, false, None)
      else Skip
    else if v.longSize == 0 && v.shortSize == 50 then
      if DownDiff(v) <= -PriceThreshold && v.golden then Decision(CloseFifty(Short), false, false, None)
      else if DownDiff(v) > -PriceThreshold && v.golden then Decision(OpenFifty(Long), false, false, None)
      else Skip
    else
      if v.golden then
        if v.lastGolden == Some(v.e1) then Skip
        else Decision(CloseTwo(Short), true, false, Some(Long))
      else if v.dead then
        if v.lastDead == Some(v.e1) then Skip
        else Decision(CloseTwo(Long), false, true, Some(Short))
      else Skip
  }

  /** Flat: a long is opened exactly on a golden cross with EMA2 above EMA3 at
      a price other than the last golden-cross price; a short exactly on a dead
      cross with EMA2 below EMA3 at a price other than the last dead-cross
      price, when the long rule's condition does not hold. */
  lemma DecideFlat(v: View)
    requires v.longSize == 0 && v.shortSize == 0
    ensures Decide(v).helper == OpenFifty(Long) <==> v.e2 > v.e3 && v.golden && v.lastGolden != Some(v.e1)
    ensures Decide(v).helper == OpenFifty(Short) <==>
              !(v.e2 > v.e3 && v.golden) && v.e2 < v.e3 && v.dead && v.lastDead != Some(v.e1)
    ensures Decide(v).helper in {NoAction, OpenFifty(Long), OpenFifty(Short)}
    ensures Decide(v).markGolden <==> Decide(v).helper == OpenFifty(Long)
    ensures Decide(v).markDead <==> Decide(v).helper == OpenFifty(Short)
  {
  }

  /** The repeat guard: a golden cross at the recorded golden price orders
      nothing and records nothing, so the skip repeats while the price stays. */
  lemma DecideRepeatGuard(v: View)
    requires v.longSize == 0 && v.shortSize == 0
    requires v.e2 > v.e3 && v.golden && v.lastGolden == Some(v.e1)
    ensures Decide(v) == Skip
  {
  }

  /** Exactly 50 long and no short: on a dead cross the long is closed once
      the price is at least 0.05% above the entry, and hedged with a short
      otherwise; nothing happens without a dead cross. */
  lemma DecideLongFifty(v: View)
    requires v.longSize == 50 && v.shortSize == 0
    ensures Decide(v).helper == CloseFifty(Long) <==> v.dead && UpDiff(v) >= PriceThreshold
    ensures Decide(v).helper == OpenFifty(Short) <==> v.dead && UpDiff(v) < PriceThreshold
    ensures !v.dead <==> Decide(v) == Skip
    ensures !Decide(v).markGolden && !Decide(v).markDead && Decide(v).unblock.None?
  {
  }

  /** Exactly 50 short and no long: the mirror image on a golden cross. */
  lemma DecideShortFifty(v: View)
    requires v.longSize == 0 && v.shortSize == 50
    ensures Decide(v).helper == CloseFifty(Short) <==> v.golden && DownDiff(v) <= -PriceThreshold
    ensures Decide(v).helper == OpenFifty(Long) <==> v.golden && DownDiff(v) > -PriceThreshold
    ensures !v.golden <==> Decide(v) == Skip
    ensures !Decide(v).markGolden && !Decide(v).markDead && Decide(v).unblock.None?
  {
  }

  /** Every other state, hedged or not: a golden cross trims the short, a
      dead cross (without a golden one) trims the long, each unless the price
      repeats the last cross of its kind. */
  lemma DecideOther(v: View)
    requires !(v.longSize == 0 && v.shortSize == 0)
    requires !(v.longSize == 50 && v.shortSize == 0) && !(v.longSize == 0 && v.shortSize == 50)
    ensures Decide(v).helper == CloseTwo(Short) <==> v.golden && v.lastGolden != Some(v.e1)
    ensures Decide(v).helper == CloseTwo(Long) <==> !v.golden && v.dead && v.lastDead != Some(v.e1)
    ensures Decide(v).helper in {NoAction, CloseTwo(Long), CloseTwo(Short)}
  {
  }

  /** The 2-lot block of one side is lifted only by a tick that trims the
      other side, so two trims of the same side need a trim of the other
      side in between. */
  lemma DecideUnblock(v: View)
    ensures Decide(v).unblock == Some(Long) <==> Decide(v).helper == CloseTwo(Short)
    ensures Decide(v).unblock == Some(Short) <==> Decide(v).helper == CloseTwo(Long)
  {
  }

  // ---------------------------------------------------------------------------
  // What the page reads back, and the retry loops.

  /** `_sync_with_dom` for one side: the amount read, in base units, rounded
      half to even; 0 when the base unit is not positive. */
  function SyncedSize(ex: Exchange, i: nat, side: Side, base: real): nat
    requires ex.Valid()
  {
    if base > 0.0 then
      var total := SideTotal(ex.PositionsAt(i), side);
      SideTotalNonNegative(ex.PositionsAt(i), side);
      RoundHalfEvenNonNegative(total / base);
      RoundHalfEven(total / base)
    else 0
  }

  lemma MulMonotone(x: real, y: real, c: real)
    requires x <= y && c > 0.0
    ensures x * c <= y * c
  {
    assert y * c - x * c == (y - x) * c;
  }

  /** Rounding total / base to an integer n leaves total within half a
      base unit of n base units. */
  lemma ScaledRoundNearest(total: real, base: real)
    requires base > 0.0
    ensures (RoundHalfEven(total / base) as real - 0.5) * base <= total
    ensures total <= (RoundHalfEven(total / base) as real + 0.5) * base
  {
    var q := total / base;
    assert q * base == total;
    var n := RoundHalfEven(q) as real;
    ScaledBracket(total, base, q, n - 0.5, n + 0.5);
  }

  /** Scaling a bracket lo <= q <= hi by a positive factor. */
  lemma ScaledBracket(total: real, base: real, q: real, lo: real, hi: real)
    requires base > 0.0 && q * base == total && lo <= q <= hi
    ensures lo * base <= total <= hi * base
  {
    MulMonotone(lo, q, base);
    MulMonotone(q, hi, base);
  }

  /** The synced size is the number of base units nearest to the amount read:
      it is off by at most half a base unit. */
  lemma SyncedSizeNearest(ex: Exchange, i: nat, side: Side, base: real)
    requires ex.Valid() && base > 0.0
    ensures (SyncedSize(ex, i, side, base) as real - 0.5) * base <= SideTotal(ex.PositionsAt(i), side)
    ensures SideTotal(ex.PositionsAt(i), side) <= (SyncedSize(ex, i, side, base) as real + 0.5) * base
  {
    ScaledRoundNearest(SideTotal(ex.PositionsAt(i), side), base);
  }

  /** The sizes one reading syncs to. */
  datatype Readback = Readback(long: nat, short: nat) {
    function Of(side: Side): nat {
      if side == Long then long else short
    }
  }

  function ReadbackAt(table: seq<Readback>, i: nat): Readback {
    if i < |table| then table[i] else Readback(0, 0)
  }

  /** `table` holds, for every scripted reading, the sizes it syncs to under
      the base unit `base`. */
  predicate ReadbacksFor(ex: Exchange, base: real, table: seq<Readback>)
    requires ex.Valid()
  {
    && |table| == |ex.shown|
    && forall i {:trigger SyncedSize(ex, i, Long, base)} :: 0 <= i < |table| ==>
         table[i] == Readback(SyncedSize(ex, i, Long, base), SyncedSize(ex, i, Short, base))
  }

  /** The table for a base unit. */
  function ReadbackTable(ex: Exchange, base: real): (table: seq<Readback>)
    requires ex.Valid()
    ensures ReadbacksFor(ex, base, table)
  {
    seq(|ex.shown|, i requires 0 <= i < |ex.shown| => Readback(SyncedSize(ex, i, Long, base), SyncedSize(ex, i, Short, base)))
  }

  /** Every reading, scripted or past the script, syncs to its table entry. */
  lemma ReadbackIsSynced(ex: Exchange, base: real, table: seq<Readback>, i: nat)
    requires ex.Valid() && ReadbacksFor(ex, base, table)
    ensures ReadbackAt(table, i) == Readback(SyncedSize(ex, i, Long, base), SyncedSize(ex, i, Short, base))
  {
    if i >= |table| {
      assert ex.PositionsAt(i) == [];
      assert SideTotal(ex.PositionsAt(i), Long) == 0.0 && SideTotal(ex.PositionsAt(i), Short) == 0.0;
      if base > 0.0 {
        assert 0.0 / base == 0.0;
        assert RoundHalfEven(0.0) == 0;
      }
    } else {
      assert table[i] == Readback(SyncedSize(ex, i, Long, base), SyncedSize(ex, i, Short, base));
    }
  }

  /** Attempt j of a full open (`opening`) or close succeeds: the gateway
      accepted request a0 + j and reading r0 + j shows at least 50 units
      (open) or nothing (close) on that side. */
  predicate FillSeen(answers: seq<bool>, table: seq<Readback>, a0: nat, r0: nat, j: nat, side: Side, opening: bool) {
    AnswerAt(answers, a0 + j)
    && (if opening then ReadbackAt(table, r0 + j).Of(side) >= 50 else ReadbackAt(table, r0 + j).Of(side) == 0)
  }

  /** The first successful attempt from attempt k on, if any of the three succeeds. */
  function FirstFill(answers: seq<bool>, table: seq<Readback>, a0: nat, r0: nat, side: Side, opening: bool, k: nat)
    : (r: Option<nat>)
    requires k <= MaxOrderRetry
    decreases MaxOrderRetry - k
    ensures r.Some? ==> k <= r.value < MaxOrderRetry && FillSeen(answers, table, a0, r0, r.value, side, opening)
    ensures r.Some? ==> forall j :: k <= j < r.value ==> !FillSeen(answers, table, a0, r0, j, side, opening)
    ensures r.None? ==> forall j :: k <= j < MaxOrderRetry ==> !FillSeen(answers, table, a0, r0, j, side, opening)
  {
    if k == MaxOrderRetry then None
    else if FillSeen(answers, table, a0, r0, k, side, opening) then Some(k)
    else FirstFill(answers, table, a0, r0, side, opening, k + 1)
  }

  /** Attempts the retry loop makes: up to the first filled one, or all three. */
  function Tries(k: Option<nat>): nat {
    if k.Some? then k.value + 1 else MaxOrderRetry
  }

  /** Where the retry loop stops, `FirstFill` finds the same attempt: the
      last one made when it filled, none when three attempts all failed. */
  lemma FirstFillAtLoopExit(answers: seq<bool>, table: seq<Readback>, a0: nat, r0: nat, side: Side, opening: bool,
                            attempt: nat, filled: bool)
    requires attempt <= MaxOrderRetry && (attempt < MaxOrderRetry ==> filled)
    requires filled ==> attempt > 0 && FillSeen(answers, table, a0, r0, attempt - 1, side, opening)
    requires forall j :: 0 <= j < attempt && !(filled && j == attempt - 1) ==>
               !FillSeen(answers, table, a0, r0, j, side, opening)
    ensures FirstFill(answers, table, a0, r0, side, opening, 0) == (if filled then Some(attempt - 1) else None)
    ensures attempt == Tries(FirstFill(answers, table, a0, r0, side, opening, 0))
  {
    var k := FirstFill(answers, table, a0, r0, side, opening, 0);
    if filled {
      assert k.Some? && k.value == attempt - 1;
    } else {
      assert k.None?;
    }
  }

  /** The request of one full attempt: 50 base units, opened or closed. */
  function FullOrder(side: Side, opening: bool, base: real): Request {
    if opening then Open(side, base * 50.0) else Close(side, base * 50.0)
  }

  /** How many requests the 2-lot close sends: up to the first accepted one,
      at most three. */
  function SendsUntilAccepted(answers: seq<bool>, a0: nat, k: nat): (n: nat)
    requires k < MaxOrderRetry
    decreases MaxOrderRetry - k
    ensures 1 <= n <= MaxOrderRetry - k
    ensures forall j :: a0 + k <= j < a0 + k + n - 1 ==> !AnswerAt(answers, j)
    ensures k + n < MaxOrderRetry ==> AnswerAt(answers, a0 + k + n - 1)
  {
    if AnswerAt(answers, a0 + k) || k == MaxOrderRetry - 1 then 1
    else 1 + SendsUntilAccepted(answers, a0, k + 1)
  }

  function TrimQty(closed: int, unit: real): real {
    closed as real * unit
  }

  function Notional(price: real, qty: real): real {
    price * qty
  }

  /** The last-action marks; only the 2-lot mark is ever compared. */
  datatype LastAction = OpenedFifty(side: Side) | ClosedTwo(side: Side)

  /** Everything an order helper can change: both sides' sizes and entry
      prices, the last-action mark, the 2-lot blocks, the ledger, the risk
      controller's history of trades, and the page's request log and reading
      count. */
  datatype Book = Book(
    longSize: nat, shortSize: nat,
    longEntry: real, shortEntry: real,
    lastAction: Option<LastAction>,
    blockLong: bool, blockShort: bool,
    volume: real, pnl: real,
    history: seq<TradeType>,
    requests: seq<Request>, readCount: nat)
  {
    function Size(side: Side): nat {
      if side == Long then longSize else shortSize
    }

    function Entry(side: Side): real {
      if side == Long then longEntry else shortEntry
    }

    function Blocked(side: Side): bool {
      if side == Long then blockLong else blockShort
    }

    /** The book once the decision table has lifted the block on `side`. */
    function Unblock(side: Option<Side>): Book {
      if side == Some(Long) then this.(blockLong := false)
      else if side == Some(Short) then this.(blockShort := false)
      else this
    }
  }

  class DomStrategy {
    const symbol: string
    const tracker: PositionTracker
    const risk: RiskManager
    var prevEma1: Option<real>
    var prevEma2: Option<real>
    var prevEma3: Option<real>
    var ema1: Option<real>
    var ema2: Option<real>
    var ema3: Option<real>
    var longSize: nat
    var shortSize: nat
    var longEntryPrice: real
    var shortEntryPrice: real
    /** Whether an order executor is attached. */
    var hasExecutor: bool
    var userSeed: real
    var baseUnit: real
    var lastTradeAction: Option<LastAction>
    var blockLong2Clear: bool
    var blockShort2Clear: bool
    var lastGoldenCrossPrice: Option<real>
    var lastDeadCrossPrice: Option<real>
    /** The sizes each scripted reading syncs to under the current base unit. */
    ghost var readbacks: seq<Readback>

    /** The tracker and the controller share one page. */
    predicate Wired() {
      risk.tracker == tracker && tracker.exchange.Valid()
    }

    ghost predicate Valid()
      reads this`readbacks, this`baseUnit
    {
      Wired() && ReadbacksFor(tracker.exchange, baseUnit, readbacks)
    }

    constructor (symbol: string, tracker: PositionTracker, risk: RiskManager)
      requires risk.tracker == tracker && tracker.exchange.Valid()
      ensures Valid()
      ensures this.symbol == symbol && this.tracker == tracker && this.risk == risk
      ensures prevEma1.None? && prevEma2.None? && prevEma3.None?
      ensures ema1.None? && ema2.None? && ema3.None?
      ensures longSize == 0 && shortSize == 0 && longEntryPrice == 0.0 && shortEntryPrice == 0.0
      ensures !hasExecutor && userSeed == 0.0 && baseUnit == 1.0
      ensures lastTradeAction.None? && !blockLong2Clear && !blockShort2Clear
      ensures lastGoldenCrossPrice.None? && lastDeadCrossPrice.None?
    {
      this.symbol := symbol;
      this.tracker := tracker;
      this.risk := risk;
      prevEma1, prevEma2, prevEma3 := None, None, None;
      ema1, ema2, ema3 := None, None, None;
      longSize, shortSize := 0, 0;
      longEntryPrice, shortEntryPrice := 0.0, 0.0;
      hasExecutor := false;
      userSeed := 0.0;
      baseUnit := 1.0;
      lastTradeAction := None;
      blockLong2Clear, blockShort2Clear := false, false;
      lastGoldenCrossPrice, lastDeadCrossPrice := None, None;
      readbacks := ReadbackTable(tracker.exchange, 1.0);
    }

    method SetOrderExecutor()
      modifies this`hasExecutor
      ensures hasExecutor
    {
      hasExecutor := true;
    }

    method SetUserSeed(seed: real)
      modifies this`userSeed
      ensures userSeed == seed
    {
      userSeed := seed;
    }

    function Size(side: Side): nat
      reads this`longSize, this`shortSize
    {
      if side == Long then longSize else shortSize
    }

    function EntryPrice(side: Side): real
      reads this`longEntryPrice, this`shortEntryPrice
    {
      if side == Long then longEntryPrice else shortEntryPrice
    }

    function Blocked(side: Side): bool
      reads this`blockLong2Clear, this`blockShort2Clear
    {
      if side == Long then blockLong2Clear else blockShort2Clear
    }

    function CurrentView(): View
      reads this
      requires ema1.Some? && ema2.Some? && ema3.Some?
    {
      View(longSize, shortSize, ema1.value, ema2.value, ema3.value,
           GoldenCross(prevEma1, prevEma2, ema1, ema2), DeadCross(prevEma1, prevEma2, ema1, ema2),
           longEntryPrice, shortEntryPrice, lastGoldenCrossPrice, lastDeadCrossPrice)
    }

    /** The book as it stands. */
    function Current(): Book
      reads this`longSize, this`shortSize, this`longEntryPrice, this`shortEntryPrice, this`lastTradeAction,
            this`blockLong2Clear, this`blockShort2Clear, tracker`accumulatedVolume, tracker`realizedPnl,
            risk`tradeHistory, tracker.exchange`requests, tracker.exchange`readCount
    {
      Book(longSize, shortSize, longEntryPrice, shortEntryPrice, lastTradeAction,
           blockLong2Clear, blockShort2Clear,
           tracker.accumulatedVolume, tracker.realizedPnl, risk.tradeHistory,
           tracker.exchange.requests, tracker.exchange.readCount)
    }

    /** The first filled attempt of the full-order retry loop started from
        book `b`, if any. */
    ghost function FirstFillFrom(side: Side, opening: bool, b: Book): Option<nat>
      reads this`readbacks
    {
      FirstFill(tracker.exchange.answers, readbacks, |b.requests|, b.readCount, side, opening, 0)
    }

    /** The book after the full-order retry loop started from `b`: the orders
        of the attempts made are logged, one reading is taken per attempt, and
        the sizes are the last reading's. */
    ghost function AfterFullAttempts(side: Side, opening: bool, b: Book): Book
      reads this`readbacks, this`baseUnit
    {
      var tries := Tries(FirstFillFrom(side, opening, b));
      var rb := ReadbackAt(readbacks, b.readCount + tries - 1);
      b.(longSize := rb.long, shortSize := rb.short,
         requests := b.requests + Repeat(FullOrder(side, opening, baseUnit), tries),
         readCount := b.readCount + tries)
    }

    /** The book after the send loop of the 2-lot close started from `b` and
        its one readback. */
    ghost function AfterTrimSent(side: Side, b: Book): Book
      reads this`readbacks, this`baseUnit
    {
      var n := SendsUntilAccepted(tracker.exchange.answers, |b.requests|, 0);
      var rb := ReadbackAt(readbacks, b.readCount);
      b.(longSize := rb.long, shortSize := rb.short,
         requests := b.requests + Repeat(Close(side, baseUnit * 2.0), n),
         readCount := b.readCount + 1)
    }

    /** A confirmed open of `qty` units of `side` has been booked on top of
        book `m`: the notional at the EMA1 price, the entry price, the
        last-action mark and the open (a hedge when the other side is held)
        for the risk controller; the risk controller may only have added
        closes to the request log. Sizes, blocks and realized profit stay. */
    predicate OpenBooked(side: Side, qty: real, m: Book)
      requires ema1.Some?
      reads this`ema1, this`longSize, this`shortSize, this`longEntryPrice, this`shortEntryPrice,
            this`lastTradeAction, this`blockLong2Clear, this`blockShort2Clear,
            tracker`accumulatedVolume, tracker`realizedPnl, risk`tradeHistory, tracker.exchange`requests
    {
      && OnlyClosesAdded(m.requests, tracker.exchange.requests)
      && longSize == m.longSize && shortSize == m.shortSize
      && EntryPrice(side) == ema1.value && EntryPrice(Other(side)) == m.Entry(Other(side))
      && tracker.accumulatedVolume == m.volume + Notional(ema1.value, qty)
      && tracker.realizedPnl == m.pnl
      && lastTradeAction == Some(OpenedFifty(side))
      && blockLong2Clear == m.blockLong && blockShort2Clear == m.blockShort
      && risk.tradeHistory == m.history + [if m.Size(Other(side)) > 0 then Hedged(side) else Opened(side)]
    }

    /** A confirmed close of `qty` units of `side` from a 50-lot close has
        been booked on top of book `m`: the notional and the profit at the
        EMA1 price, the entry price reset and the close for the risk
        controller. Sizes, the mark and the blocks stay. */
    predicate CloseFiftyBooked(side: Side, qty: real, m: Book)
      requires ema1.Some?
      reads this`ema1, this`longSize, this`shortSize, this`longEntryPrice, this`shortEntryPrice,
            this`lastTradeAction, this`blockLong2Clear, this`blockShort2Clear,
            tracker`accumulatedVolume, tracker`realizedPnl, risk`tradeHistory, tracker.exchange`requests
    {
      && OnlyClosesAdded(m.requests, tracker.exchange.requests)
      && longSize == m.longSize && shortSize == m.shortSize
      && EntryPrice(side) == 0.0 && EntryPrice(Other(side)) == m.Entry(Other(side))
      && tracker.accumulatedVolume == m.volume + Notional(ema1.value, qty)
      && tracker.realizedPnl == m.pnl + ClosePnl(side, m.Entry(side), ema1.value, qty)
      && lastTradeAction == m.lastAction
      && blockLong2Clear == m.blockLong && blockShort2Clear == m.blockShort
      && risk.tradeHistory == m.history + [ClosedFifty(side)]
    }

    /** A trim that took `closed` base units off `side` has been booked on
        top of book `m`: the notional and the profit on those units at the
        EMA1 price; a side read back empty loses its entry price and is
        reported all closed, otherwise it is reported partially closed; the
        mark and the block are set on the side. Sizes and the other side's
        entry price and block stay. */
    predicate TrimBooked(side: Side, closed: int, m: Book)
      requires ema1.Some?
      reads this`ema1, this`baseUnit, this`longSize, this`shortSize, this`longEntryPrice, this`shortEntryPrice,
            this`lastTradeAction, this`blockLong2Clear, this`blockShort2Clear,
            tracker`accumulatedVolume, tracker`realizedPnl, risk`tradeHistory, tracker.exchange`requests
    {
      var qty := TrimQty(closed, baseUnit);
      && OnlyClosesAdded(m.requests, tracker.exchange.requests)
      && longSize == m.longSize && shortSize == m.shortSize
      && EntryPrice(side) == (if m.Size(side) == 0 then 0.0 else m.Entry(side))
      && EntryPrice(Other(side)) == m.Entry(Other(side))
      && tracker.accumulatedVolume == m.volume + Notional(ema1.value, qty)
      && tracker.realizedPnl == m.pnl + ClosePnl(side, m.Entry(side), ema1.value, qty)
      && lastTradeAction == Some(ClosedTwo(side))
      && Blocked(side) && Blocked(Other(side)) == m.Blocked(Other(side))
      && risk.tradeHistory == m.history + [if m.Size(side) == 0 then AllClosed(side) else PartiallyClosed(side)]
    }

    /** `_open_long_50` / `_open_short_50` has run from book `b`: nothing
        happens without an executor; otherwise the full-order retry loop
        runs, and only a filled attempt is booked. */
    ghost predicate OpenFiftyDone(side: Side, b: Book)
      requires ema1.Some?
      reads this`hasExecutor, this`baseUnit, this`ema1, this`readbacks,
            this`longSize, this`shortSize, this`longEntryPrice, this`shortEntryPrice, this`lastTradeAction,
            this`blockLong2Clear, this`blockShort2Clear, tracker`accumulatedVolume, tracker`realizedPnl,
            risk`tradeHistory, tracker.exchange`requests, tracker.exchange`readCount
    {
      if !hasExecutor then Current() == b
      else
        var mid := AfterFullAttempts(side, true, b);
        if FirstFillFrom(side, true, b).Some? then OpenBooked(side, baseUnit * 50.0, mid)
        else Current() == mid
    }

    /** `_close_long_50` / `_close_short_50` has run from book `b`: nothing
        happens below 50 units or without an executor; otherwise the
        full-order retry loop runs, and only a filled attempt is booked. */
    ghost predicate CloseFiftyDone(side: Side, b: Book)
      requires ema1.Some?
      reads this`hasExecutor, this`baseUnit, this`ema1, this`readbacks,
            this`longSize, this`shortSize, this`longEntryPrice, this`shortEntryPrice, this`lastTradeAction,
            this`blockLong2Clear, this`blockShort2Clear, tracker`accumulatedVolume, tracker`realizedPnl,
            risk`tradeHistory, tracker.exchange`requests, tracker.exchange`readCount
    {
      if b.Size(side) < 50 || !hasExecutor then Current() == b
      else
        var mid := AfterFullAttempts(side, false, b);
        if FirstFillFrom(side, false, b).Some? then CloseFiftyBooked(side, baseUnit * 50.0, mid)
        else Current() == mid
    }

    /** `_close_long_2` / `_close_short_2` has run from book `b`: nothing
        happens when the side is blocked, was just trimmed, holds fewer than 2
        units or no executor is attached; otherwise the send loop and one
        readback run, and the units the readback shows gone, if any, are
        booked. */
    ghost predicate CloseTwoDone(side: Side, b: Book)
      requires ema1.Some?
      reads this`hasExecutor, this`baseUnit, this`ema1, this`readbacks,
            this`longSize, this`shortSize, this`longEntryPrice, this`shortEntryPrice, this`lastTradeAction,
            this`blockLong2Clear, this`blockShort2Clear, tracker`accumulatedVolume, tracker`realizedPnl,
            risk`tradeHistory, tracker.exchange`requests, tracker.exchange`readCount
    {
      if b.Blocked(side) || b.lastAction == Some(ClosedTwo(side)) || b.Size(side) < 2 || !hasExecutor
      then Current() == b
      else
        var mid := AfterTrimSent(side, b);
        var closed := b.Size(side) - mid.Size(side);
        if closed > 0 then TrimBooked(side, closed, mid) else Current() == mid
    }

    /** The helper `h` names has run from book `b`; `NoAction` changes nothing. */
    ghost predicate HelperDone(h: Helper, b: Book)
      requires ema1.Some?
      reads this`hasExecutor, this`baseUnit, this`ema1, this`readbacks,
            this`longSize, this`shortSize, this`longEntryPrice, this`shortEntryPrice, this`lastTradeAction,
            this`blockLong2Clear, this`blockShort2Clear, tracker`accumulatedVolume, tracker`realizedPnl,
            risk`tradeHistory, tracker.exchange`requests, tracker.exchange`readCount
    {
      match h
      case NoAction => Current() == b
      case OpenFifty(side) => OpenFiftyDone(side, b)
      case CloseFifty(side) => CloseFiftyDone(side, b)
      case CloseTwo(side) => CloseTwoDone(side, b)
    }

    /** `update_base_unit`; the readback table follows the new base unit. */
    method UpdateBaseUnit()
      requires Wired()
      modifies this`baseUnit, this`readbacks
      ensures Valid()
      ensures baseUnit == NextBaseUnit(old(baseUnit), userSeed, ema1, symbol)
    {
      if userSeed <= 0.0 || ema1.None? || ema1.value <= 0.0 {
      } else {
        var flooredValue := FlooredBaseUnit(userSeed, ema1.value, symbol);
        if flooredValue > 0.0 {
          baseUnit := flooredValue;
        }
      }
      readbacks := ReadbackTable(tracker.exchange, baseUnit);
    }

    /** `_sync_with_dom`: one reading; each size becomes the amount read for
        its side in base units, rounded half to even. */
    method SyncWithDom()
      requires Valid()
      modifies this`longSize, this`shortSize, tracker.exchange`readCount
      ensures tracker.exchange.readCount == old(tracker.exchange.readCount) + 1
      ensures Readback(longSize, shortSize) == ReadbackAt(readbacks, old(tracker.exchange.readCount))
    {
      ReadbackIsSynced(tracker.exchange, baseUnit, readbacks, tracker.exchange.readCount);
      var ps := tracker.GetOpenPositions();
      var realLong, realShort := SideTotals(ps);
      if baseUnit > 0.0 {
        SideTotalNonNegative(ps, Long);
        SideTotalNonNegative(ps, Short);
        RoundHalfEvenNonNegative(realLong / baseUnit);
        RoundHalfEvenNonNegative(realShort / baseUnit);
        longSize := RoundHalfEven(realLong / baseUnit);
        shortSize := RoundHalfEven(realShort / baseUnit);
      } else {
        longSize := 0;
        shortSize := 0;
      }
    }

    /** The retry loop shared by the full open and the full close: up to three
        orders of 50 base units, each followed by a readback, stopping at the
        first attempt whose order is accepted and whose readback shows at
        least 50 units (open) or none (close) on that side. */
    method FullOrderAttempts(side: Side, opening: bool) returns (filled: bool)
      requires Valid()
      modifies this`longSize, this`shortSize, tracker.exchange`readCount, tracker.exchange`requests
      ensures filled == FirstFillFrom(side, opening, old(Current())).Some?
      ensures Current() == AfterFullAttempts(side, opening, old(Current()))
    {
      var ex := tracker.exchange;
      ghost var a0 := |ex.requests|;
      ghost var r0 := ex.readCount;
      var order := FullOrder(side, opening, baseUnit);
      var attempt := 0;
      filled := false;
      while attempt < MaxOrderRetry && !filled
        invariant attempt <= MaxOrderRetry
        invariant ex.readCount == r0 + attempt
        invariant ex.requests == old(ex.requests) + Repeat(order, attempt)
        invariant filled ==> attempt > 0 && FillSeen(ex.answers, readbacks, a0, r0, attempt - 1, side, opening)
        invariant forall j :: 0 <= j < attempt && !(filled && j == attempt - 1) ==>
                    !FillSeen(ex.answers, readbacks, a0, r0, j, side, opening)
        invariant attempt > 0 ==> Readback(longSize, shortSize) == ReadbackAt(readbacks, r0 + attempt - 1)
        decreases MaxOrderRetry - attempt
      {
        var ok := ex.Send(order);
        SyncWithDom();
        filled := ok && (if opening then Size(side) >= 50 else Size(side) == 0);
        attempt := attempt + 1;
      }
      FirstFillAtLoopExit(ex.answers, readbacks, a0, r0, side, opening, attempt, filled);
    }

    /** Books a confirmed 50-unit open: the notional at the EMA1 price, the
        entry price, the open (a hedge when the other side is held) for the
        risk controller, and the last-action mark. */
    method BookOpen(side: Side, qty: real, now: int, draw: Draw)
      requires Wired() && ValidDraw(draw) && ema1.Some?
      modifies this`longEntryPrice, this`shortEntryPrice, this`lastTradeAction,
               tracker`accumulatedVolume, risk, tracker.exchange`readCount, tracker.exchange`requests
      ensures OpenBooked(side, qty, old(Current()))
    {
      var price := ema1.value;
      tracker.AddTradeVolume(Notional(price, qty));
      if side == Long {
        longEntryPrice := price;
      } else {
        shortEntryPrice := price;
      }
      var event := if Size(Other(side)) > 0 then Hedged(side) else Opened(side);
      risk.Notify(event, now, draw);
      lastTradeAction := Some(OpenedFifty(side));
    }

    /** `_open_long_50` / `_open_short_50`: without an executor nothing
        happens; otherwise the retry loop, and the filled attempt, if any, is
        booked. Three unfilled attempts book nothing. */
    method OpenFiftyOrders(side: Side, now: int, draw: Draw)
      requires Valid() && ValidDraw(draw) && ema1.Some?
      modifies this`longSize, this`shortSize, this`longEntryPrice, this`shortEntryPrice, this`lastTradeAction,
               tracker`accumulatedVolume, risk, tracker.exchange`readCount, tracker.exchange`requests
      ensures OpenFiftyDone(side, old(Current()))
    {
      if !hasExecutor {
        return;
      }
      var filled := FullOrderAttempts(side, true);
      if filled {
        BookOpen(side, baseUnit * 50.0, now, draw);
      }
    }

    /** Books a confirmed 50-unit close: the notional and the realized profit
        at the EMA1 price, the close for the risk controller, and the entry
        price reset. The last-action mark is left as it was. */
    method BookCloseFifty(side: Side, qty: real, now: int, draw: Draw)
      requires Wired() && ValidDraw(draw) && ema1.Some?
      modifies this`longEntryPrice, this`shortEntryPrice, tracker`accumulatedVolume, tracker`realizedPnl,
               risk, tracker.exchange`readCount, tracker.exchange`requests
      ensures CloseFiftyBooked(side, qty, old(Current()))
    {
      var price := ema1.value;
      tracker.AddTradeVolume(Notional(price, qty));
      tracker.AddRealizedPnl(ClosePnl(side, EntryPrice(side), price, qty));
      risk.Notify(ClosedFifty(side), now, draw);
      if side == Long {
        longEntryPrice := 0.0;
      } else {
        shortEntryPrice := 0.0;
      }
    }

    /** `_close_long_50` / `_close_short_50`: nothing happens below 50 units
        or without an executor; otherwise the retry loop, and the attempt that
        reads the side back empty, if any, is booked. */
    method CloseFiftyOrders(side: Side, now: int, draw: Draw)
      requires Valid() && ValidDraw(draw) && ema1.Some?
      modifies this`longSize, this`shortSize, this`longEntryPrice, this`shortEntryPrice,
               tracker`accumulatedVolume, tracker`realizedPnl, risk, tracker.exchange`readCount, tracker.exchange`requests
      ensures CloseFiftyDone(side, old(Current()))
    {
      if Size(side) < 50 || !hasExecutor {
        return;
      }
      var filled := FullOrderAttempts(side, false);
      if filled {
        BookCloseFifty(side, baseUnit * 50.0, now, draw);
      }
    }

    /** The send loop of the 2-lot close: up to three close requests of 2
        base units, stopping at the first the gateway accepts. */
    method SendCloseTwo(side: Side)
      requires Wired()
      modifies tracker.exchange`requests
      ensures tracker.exchange.requests == old(tracker.exchange.requests)
                + Repeat(Close(side, baseUnit * 2.0), SendsUntilAccepted(tracker.exchange.answers, |old(tracker.exchange.requests)|, 0))
    {
      var ex := tracker.exchange;
      ghost var a0 := |ex.requests|;
      var order := Close(side, baseUnit * 2.0);
      var attempt := 0;
      var ok := false;
      while attempt < MaxOrderRetry && !ok
        invariant attempt <= MaxOrderRetry
        invariant ex.requests == old(ex.requests) + Repeat(order, attempt)
        invariant ok ==> attempt > 0 && AnswerAt(ex.answers, a0 + attempt - 1)
        invariant forall j :: a0 <= j < a0 + attempt && !(ok && j == a0 + attempt - 1) ==> !AnswerAt(ex.answers, j)
        decreases MaxOrderRetry - attempt
      {
        ok := ex.Send(order);
        attempt := attempt + 1;
      }
      ghost var n := SendsUntilAccepted(ex.answers, a0, 0);
      assert attempt == n;
    }

    /** Whether `_close_long_2` / `_close_short_2` returns at once: the side
        is blocked, its previous action was this very trim, it holds fewer
        than 2 units, or no executor is attached. */
    predicate CloseTwoSkipped(side: Side)
      reads this`blockLong2Clear, this`blockShort2Clear, this`lastTradeAction, this`longSize, this`shortSize,
            this`hasExecutor
    {
      Blocked(side) || lastTradeAction == Some(ClosedTwo(side)) || Size(side) < 2 || !hasExecutor
    }

    /** Books a trim that the readback shows took `closed` units off: the
        notional and realized profit on the units actually closed, the entry
        price reset and an all-closed event when the side reads empty, a
        partial-close event otherwise, and the block on this side. */
    method BookCloseTwo(side: Side, closed: int, now: int, draw: Draw)
      requires Wired() && ValidDraw(draw) && ema1.Some? && closed > 0
      modifies this`longSize, this`shortSize, this`longEntryPrice, this`shortEntryPrice, this`lastTradeAction,
               this`blockLong2Clear, this`blockShort2Clear, tracker`accumulatedVolume, tracker`realizedPnl,
               risk, tracker.exchange`readCount, tracker.exchange`requests
      ensures TrimBooked(side, closed, old(Current()))
    {
      var price := ema1.value;
      var qty := TrimQty(closed, baseUnit);
      tracker.AddTradeVolume(Notional(price, qty));
      tracker.AddRealizedPnl(ClosePnl(side, EntryPrice(side), price, qty));
      var emptied := Size(side) <= 0;
      if emptied {
        if side == Long {
          longSize := 0;
          longEntryPrice := 0.0;
        } else {
          shortSize := 0;
          shortEntryPrice := 0.0;
        }
      }
      risk.Notify(if emptied then AllClosed(side) else PartiallyClosed(side), now, draw);
      lastTradeAction := Some(ClosedTwo(side));
      if side == Long {
        blockLong2Clear := true;
      } else {
        blockShort2Clear := true;
      }
    }

    /** The body of the 2-lot trim once its guard has passed. */
    method TrimTwo(side: Side, now: int, draw: Draw)
      requires Valid() && ValidDraw(draw) && ema1.Some? && !CloseTwoSkipped(side)
      modifies this`longSize, this`shortSize, this`longEntryPrice, this`shortEntryPrice, this`lastTradeAction,
               this`blockLong2Clear, this`blockShort2Clear, tracker`accumulatedVolume, tracker`realizedPnl,
               risk, tracker.exchange`readCount, tracker.exchange`requests
      ensures CloseTwoDone(side, old(Current()))
    {
      ghost var b := Current();
      var original := Size(side);
      SendCloseTwo(side);
      SyncWithDom();
      assert Current() == AfterTrimSent(side, b);
      var closed := original - Size(side);
      if closed > 0 {
        BookCloseTwo(side, closed, now, draw);
      }
    }

    /** `_close_long_2` / `_close_short_2`: unless skipped, up to three close
        requests of 2 base units until one is accepted, then a single
        readback; the units the readback shows gone are booked. Nothing is
        booked, and neither the mark nor the block is set, when the readback
        shows no fewer units than before. */
    method CloseTwoOrders(side: Side, now: int, draw: Draw)
      requires Valid() && ValidDraw(draw) && ema1.Some?
      modifies this`longSize, this`shortSize, this`longEntryPrice, this`shortEntryPrice, this`lastTradeAction,
               this`blockLong2Clear, this`blockShort2Clear, tracker`accumulatedVolume, tracker`realizedPnl,
               risk, tracker.exchange`readCount, tracker.exchange`requests
      ensures CloseTwoDone(side, old(Current()))
    {
      if Blocked(side) || lastTradeAction == Some(ClosedTwo(side)) || Size(side) < 2 || !hasExecutor {
        return;
      }
      TrimTwo(side, now, draw);
    }

    /** Calls the helper `h` names. */
    method RunHelper(h: Helper, now: int, draw: Draw)
      requires Valid() && ValidDraw(draw) && ema1.Some?
      modifies this`longSize, this`shortSize, this`longEntryPrice, this`shortEntryPrice, this`lastTradeAction,
               this`blockLong2Clear, this`blockShort2Clear,
               tracker`accumulatedVolume, tracker`realizedPnl, risk, tracker.exchange`readCount, tracker.exchange`requests
      ensures HelperDone(h, old(Current()))
    {
      match h {
        case NoAction =>
        case OpenFifty(side) => OpenFiftyOrders(side, now, draw);
        case CloseFifty(side) => CloseFiftyOrders(side, now, draw);
        case CloseTwo(side) => CloseTwoOrders(side, now, draw);
      }
    }

    /** `_check_strategy`: the guard updates of the decision table, then the
        one helper it picks. */
    method CheckStrategy(now: int, draw: Draw) returns (called: Helper)
      requires Valid() && ValidDraw(draw) && ema1.Some? && ema2.Some? && ema3.Some?
      modifies this`longSize, this`shortSize, this`longEntryPrice, this`shortEntryPrice, this`lastTradeAction,
               this`blockLong2Clear, this`blockShort2Clear, this`lastGoldenCrossPrice, this`lastDeadCrossPrice,
               tracker`accumulatedVolume, tracker`realizedPnl, risk, tracker.exchange`readCount, tracker.exchange`requests
      ensures var d := Decide(old(CurrentView()));
        && called == d.helper
        && HelperDone(called, old(Current()).Unblock(d.unblock))
        && lastGoldenCrossPrice == (if d.markGolden then ema1 else old(lastGoldenCrossPrice))
        && lastDeadCrossPrice == (if d.markDead then ema1 else old(lastDeadCrossPrice))
    {
      var d := Decide(CurrentView());
      DecideUnblock(CurrentView());
      if d.markGolden {
        lastGoldenCrossPrice := ema1;
      }
      if d.markDead {
        lastDeadCrossPrice := ema1;
      }
      if d.unblock == Some(Long) {
        blockLong2Clear := false;
      } else if d.unblock == Some(Short) {
        blockShort2Clear := false;
      }
      called := d.helper;
      assert Current() == old(Current()).Unblock(d.unblock);
      RunHelper(called, now, draw);
    }

    /** The first half of `on_new_price`: the EMAs shift in; the tick goes on
        only when all three are present and the controller is not resting,
        and then a flat engine recomputes its base unit. */
    method PrepareTick(e1: Option<real>, e2: Option<real>, e3: Option<real>, now: int) returns (proceed: bool)
      requires Valid()
      modifies this`prevEma1, this`prevEma2, this`prevEma3, this`ema1, this`ema2, this`ema3,
               this`baseUnit, this`readbacks, risk`pauseEnd
      ensures Valid()
      ensures prevEma1 == old(ema1) && prevEma2 == old(ema2) && prevEma3 == old(ema3)
      ensures ema1 == e1 && ema2 == e2 && ema3 == e3
      ensures var ready := e1.Some? && e2.Some? && e3.Some?;
        var paused := old(risk.pauseEnd).Some? && now < old(risk.pauseEnd).value;
        && proceed == (ready && !paused)
        && baseUnit == (if proceed && longSize == 0 && shortSize == 0
                        then NextBaseUnit(old(baseUnit), userSeed, e1, symbol) else old(baseUnit))
        && (!ready ==> risk.pauseEnd == old(risk.pauseEnd))
    {
      prevEma1, prevEma2, prevEma3 := ema1, ema2, ema3;
      ema1, ema2, ema3 := e1, e2, e3;
      if e1.None? || e2.None? || e3.None? {
        return false;
      }
      var paused := risk.IsPaused(now);
      if paused {
        return false;
      }
      if longSize == 0 && shortSize == 0 {
        UpdateBaseUnit();
      }
      return true;
    }

    /** `on_new_price`: the EMAs shift in; nothing more happens unless all
        three are present and the controller is not resting; a flat engine
        recomputes its base unit; then the strategy is checked. */
    method OnNewPrice(e1: Option<real>, e2: Option<real>, e3: Option<real>, now: int, draw: Draw)
      returns (called: Helper)
      requires Valid() && ValidDraw(draw)
      modifies this`prevEma1, this`prevEma2, this`prevEma3, this`ema1, this`ema2, this`ema3,
               this`baseUnit, this`readbacks,
               this`longSize, this`shortSize, this`longEntryPrice, this`shortEntryPrice, this`lastTradeAction,
               this`blockLong2Clear, this`blockShort2Clear, this`lastGoldenCrossPrice, this`lastDeadCrossPrice,
               tracker`accumulatedVolume, tracker`realizedPnl, risk, tracker.exchange`readCount, tracker.exchange`requests
      ensures Valid()
      ensures prevEma1 == old(ema1) && prevEma2 == old(ema2) && prevEma3 == old(ema3)
      ensures ema1 == e1 && ema2 == e2 && ema3 == e3
      ensures var ready := e1.Some? && e2.Some? && e3.Some?;
        var paused := old(risk.pauseEnd).Some? && now < old(risk.pauseEnd).value;
        var flat := old(longSize) == 0 && old(shortSize) == 0;
        && baseUnit == (if ready && !paused && flat then NextBaseUnit(old(baseUnit), userSeed, e1, symbol) else old(baseUnit))
        && (!ready ==> risk.pauseEnd == old(risk.pauseEnd))
        && (ready && !paused ==>
              var d := Decide(View(old(longSize), old(shortSize), e1.value, e2.value, e3.value,
                                   GoldenCross(old(ema1), old(ema2), e1, e2), DeadCross(old(ema1), old(ema2), e1, e2),
                                   old(longEntryPrice), old(shortEntryPrice),
                                   old(lastGoldenCrossPrice), old(lastDeadCrossPrice)));
              && called == d.helper
              && HelperDone(called, old(Current()).Unblock(d.unblock)))
        && (!(ready && !paused) ==>
              && called == NoAction
              && longSize == old(longSize) && shortSize == old(shortSize)
              && longEntryPrice == old(longEntryPrice) && shortEntryPrice == old(shortEntryPrice)
              && lastTradeAction == old(lastTradeAction)
              && blockLong2Clear == old(blockLong2Clear) && blockShort2Clear == old(blockShort2Clear)
              && lastGoldenCrossPrice == old(lastGoldenCrossPrice) && lastDeadCrossPrice == old(lastDeadCrossPrice)
              && tracker.exchange.requests == old(tracker.exchange.requests)
              && tracker.exchange.readCount == old(tracker.exchange.readCount)
              && tracker.accumulatedVolume == old(tracker.accumulatedVolume)
              && tracker.realizedPnl == old(tracker.realizedPnl)
              && risk.tradeHistory == old(risk.tradeHistory))
    {
      var proceed := PrepareTick(e1, e2, e3, now);
      if !proceed {
        return NoAction;
      }
      assert Current() == old(Current());
      called := CheckStrategy(now, draw);
    }
  }
}
