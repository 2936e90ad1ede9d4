/** The position tracker: the traded-notional and realized-PnL ledger, the
    reading of the position list from the page and the close-everything loop. */
module PositionTracking {
  import opened Market
  import opened AmountParsing
  import opened ExchangeView

  class PositionTracker {
    const symbol: string
    /** The page the tracker reads and, through the executor, sends closes to. */
    const exchange: Exchange
    var accumulatedVolume: real
    var realizedPnl: real
    var initialBalance: real
    /** Whether `temp_order_executor` has been attached. */
    var hasExecutor: bool

    constructor (symbol: string, exchange: Exchange)
      ensures this.symbol == symbol && this.exchange == exchange
      ensures accumulatedVolume == 0.0 && realizedPnl == 0.0 && initialBalance == 0.0
      ensures !hasExecutor
    {
      this.symbol := symbol;
      this.exchange := exchange;
      accumulatedVolume := 0.0;
      realizedPnl := 0.0;
      initialBalance := 0.0;
      hasExecutor := false;
    }

    /** `position_tracker.temp_order_executor = order_executor`. */
    method AttachExecutor()
      modifies this`hasExecutor
      ensures hasExecutor
    {
      hasExecutor := true;
    }

    method AddTradeVolume(volume: real)
      modifies this`accumulatedVolume
      ensures accumulatedVolume == old(accumulatedVolume) + volume
    {
      accumulatedVolume := accumulatedVolume + volume;
    }

    method AddRealizedPnl(pnl: real)
      modifies this`realizedPnl
      ensures realizedPnl == old(realizedPnl) + pnl
    {
      realizedPnl := realizedPnl + pnl;
    }

    function AccumulatedVolume(): real
      reads this
    {
      accumulatedVolume
    }

    function RealizedPnl(): real
      reads this
    {
      realizedPnl
    }

    /** One reading of the page, shaped into the position list. */
    method GetOpenPositions() returns (ps: seq<Position>)
      requires exchange.Valid()
      modifies exchange`readCount
      ensures exchange.readCount == old(exchange.readCount) + 1
      ensures ps == exchange.PositionsAt(old(exchange.readCount))
    {
      ShownIsParsed(exchange, exchange.readCount);
      var rd := exchange.Read();
      ps := OpenPositions(rd);
    }

    /** Without an executor nothing happens; otherwise one reading, then one close
        request per listed entry of positive size. */
    method CloseAllPositions()
      requires exchange.Valid()
      modifies exchange`readCount, exchange`requests
      ensures !hasExecutor ==> exchange.readCount == old(exchange.readCount) && exchange.requests == old(exchange.requests)
      ensures hasExecutor ==>
        && exchange.readCount == old(exchange.readCount) + 1
        && exchange.requests == old(exchange.requests)
                                + CloseRequests(exchange.PositionsAt(old(exchange.readCount)))
    {
      if !hasExecutor {
        return;
      }
      var ps := GetOpenPositions();
      for i := 0 to |ps|
        invariant exchange.readCount == old(exchange.readCount) + 1
        invariant exchange.requests == old(exchange.requests) + CloseRequests(ps[..i])
      {
        assert ps[..i + 1][..i] == ps[..i];
        var p := ps[i];
        if p.size > 0.0 {
          if p.side == Long {
            var _ := exchange.Send(Close(Long, p.size));
          } else {
            var _ := exchange.Send(Close(Short, p.size));
          }
        }
      }
      assert ps[..|ps|] == ps;
    }

    /** `set_initial_balance`, with the parsed total balance as input. */
    method SetInitialBalance(totalBalance: real)
      modifies this`initialBalance
      ensures initialBalance == totalBalance
    {
      initialBalance := totalBalance;
    }

    /** `get_current_profit`, with the parsed total balance as input. */
    function CurrentProfit(totalBalance: real): (p: real)
      reads this
      ensures p + initialBalance == totalBalance
    {
      totalBalance - initialBalance
    }

    /** `get_realized_pnl_by_balance`: what is left of the profit once the
        unrealized part is taken out. */
    function RealizedPnlByBalance(totalBalance: real, unrealized: real): (p: real)
      reads this
      ensures p + unrealized == CurrentProfit(totalBalance)
    {
      (totalBalance - initialBalance) - unrealized
    }
  }
}
