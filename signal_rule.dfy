/** The RSI/MACD signal rule of the TradingView-fed bot: a buy signal when the
    market is oversold with MACD above its signal line, a sell signal when it is
    overbought with MACD below it. */
module SignalRule {
  import opened Market

  /** The "RSI" entry of the indicator dictionary: its "rsi" value may be missing. */
  datatype RsiBlock = RsiBlock(rsi: Option<real>)

  /** The "MACD" entry: its "macd" and "signal" values may each be missing. */
  datatype MacdBlock = MacdBlock(macd: Option<real>, signal: Option<real>)

  /** The indicator dictionary, reduced to the two keys the rule looks at. */
  datatype Indicators = Indicators(rsiBlock: Option<RsiBlock>, macdBlock: Option<MacdBlock>)

  /** `dict.get(key, default)`. */
  function GetOr(o: Option<real>, default: real): (v: real)
    ensures o.Some? ==> v == o.value
    ensures o.None? ==> v == default
  {
    if o.Some? then o.value else default
  }

  const OversoldBelow: real := 30.0
  const OverboughtAbove: real := 70.0

  function Rsi(b: RsiBlock): real { GetOr(b.rsi, 50.0) }
  function Macd(b: MacdBlock): real { GetOr(b.macd, 0.0) }
  function SignalLine(b: MacdBlock): real { GetOr(b.signal, 0.0) }

  /** `check_signal`: LONG, SHORT, or nothing. */
  function CheckSignal(data: Indicators): (s: Option<Side>)
    ensures s == Some(Long) <==>
      && data.rsiBlock.Some? && data.macdBlock.Some?
      && Rsi(data.rsiBlock.value) < OversoldBelow
      && Macd(data.macdBlock.value) > SignalLine(data.macdBlock.value)
    ensures s == Some(Short) <==>
      && data.rsiBlock.Some? && data.macdBlock.Some?
      && Rsi(data.rsiBlock.value) > OverboughtAbove
      && Macd(data.macdBlock.value) < SignalLine(data.macdBlock.value)
    ensures data.rsiBlock.None? || data.macdBlock.None? ==> s.None?
  {
    if data.rsiBlock.Some? && data.macdBlock.Some? then
      var rsi := Rsi(data.rsiBlock.value);
      var macd := Macd(data.macdBlock.value);
      var signal := SignalLine(data.macdBlock.value);
      if rsi < OversoldBelow && macd > signal then Some(Long)
      else if rsi > OverboughtAbove && macd < signal then Some(Short)
      else None
    else
      None
  }

  /** Both blocks present but every value missing: RSI 50 is neither oversold
      nor overbought and MACD 0 equals signal 0, so there is no signal. */
  lemma DefaultsGiveNoSignal(data: Indicators)
    requires data.rsiBlock == Some(RsiBlock(None))
    requires data.macdBlock == Some(MacdBlock(None, None))
    ensures CheckSignal(data).None?
  {
  }

  /** An RSI value between the two bands never signals, whatever MACD says. */
  lemma NeutralRsiGivesNoSignal(data: Indicators)
    requires data.rsiBlock.Some?
    requires OversoldBelow <= Rsi(data.rsiBlock.value) <= OverboughtAbove
    ensures CheckSignal(data).None?
  {
  }

  /** MACD on its signal line never signals, whatever RSI says. */
  lemma MacdOnSignalGivesNoSignal(data: Indicators)
    requires data.macdBlock.Some?
    requires Macd(data.macdBlock.value) == SignalLine(data.macdBlock.value)
    ensures CheckSignal(data).None?
  {
  }
}
