/** The candle frame that `check_buy_alert` receives and extends in place
    with its indicator columns before deciding. */
module Frames {
  import opened Wrappers
  import opened IndicatorEngine
  import SignalEvaluator

  /** One OHLCV candle as the exchange returns it; the timestamp is in milliseconds. */
  datatype Candle = Candle(timestamp: int, open: real, high: real, low: real, close: real, volume: real)

  /** Labels of the indicator columns added to the frame. */
  datatype Column = Ma7 | Ma25 | Ma99 | Dif | Dea

  class Frame {
    var timestamp: seq<int>
    var open: seq<real>
    var high: seq<real>
    var low: seq<real>
    var close: seq<real>
    var volume: seq<real>
    /** Columns added after construction; every one has one entry per candle. */
    var columns: map<Column, seq<Option<real>>>

    ghost predicate Valid()
      reads this
    {
      && |timestamp| == |close| && |open| == |close| && |high| == |close|
      && |low| == |close| && |volume| == |close|
      && forall c :: c in columns ==> |columns[c]| == |close|
    }

    predicate HasIndicators()
      reads this
    {
      Ma7 in columns && Ma25 in columns && Ma99 in columns && Dif in columns && Dea in columns
    }

    /** A frame with one row per candle, in the order given, and no indicator columns. */
    constructor (candles: seq<Candle>)
      ensures Valid() && columns == map[]
      ensures |close| == |candles|
      ensures forall i :: 0 <= i < |candles| ==>
                && timestamp[i] == candles[i].timestamp
                && open[i] == candles[i].open && high[i] == candles[i].high
                && low[i] == candles[i].low && close[i] == candles[i].close
                && volume[i] == candles[i].volume
    {
      timestamp := seq(|candles|, i requires 0 <= i < |candles| => candles[i].timestamp);
      open := seq(|candles|, i requires 0 <= i < |candles| => candles[i].open);
      high := seq(|candles|, i requires 0 <= i < |candles| => candles[i].high);
      low := seq(|candles|, i requires 0 <= i < |candles| => candles[i].low);
      close := seq(|candles|, i requires 0 <= i < |candles| => candles[i].close);
      volume := seq(|candles|, i requires 0 <= i < |candles| => candles[i].volume);
      columns := map[];
    }

    /** The indicator fields of every row, in row order. */
    function Table(): (t: seq<Row>)
      reads this
      requires Valid() && HasIndicators()
      ensures |t| == |close|
    {
      Zip(columns[Ma7], columns[Ma25], columns[Ma99], columns[Dif], columns[Dea])
    }

    /** Appends the three moving averages of the closes and the given MACD line
        and signal line as columns. The candles themselves and the row count do
        not change; a column already present is replaced. */
    method AddIndicators(dif: seq<Option<real>>, dea: seq<Option<real>>)
      requires Valid() && |dif| == |close| && |dea| == |close|
      modifies this
      ensures Valid() && HasIndicators()
      ensures timestamp == old(timestamp) && open == old(open) && high == old(high)
      ensures low == old(low) && close == old(close) && volume == old(volume)
      ensures columns == old(columns)[Ma7 := SmaColumn(close, FastWindow)][Ma25 := SmaColumn(close, MidWindow)]
                                     [Ma99 := SmaColumn(close, SlowWindow)][Dif := dif][Dea := dea]
      ensures Table() == BuildTable(close, dif, dea)
    {
      columns := columns[Ma7 := SmaColumn(close, FastWindow)];
      columns := columns[Ma25 := SmaColumn(close, MidWindow)];
      columns := columns[Ma99 := SmaColumn(close, SlowWindow)];
      columns := columns[Dif := dif];
      columns := columns[Dea := dea];
    }

    /** Adds the indicator columns, then decides on the last two rows with the
        configured threshold. The outcome depends only on the closes and the
        MACD columns, not on anything the frame held before, so a second call
        with the same columns gives the same outcome. */
    method CheckBuyAlert(dif: seq<Option<real>>, dea: seq<Option<real>>) returns (r: SignalEvaluator.Outcome)
      requires Valid() && |dif| == |close| && |dea| == |close|
      modifies this
      ensures Valid() && HasIndicators()
      ensures timestamp == old(timestamp) && open == old(open) && high == old(high)
      ensures low == old(low) && close == old(close) && volume == old(volume)
      ensures columns[Dif] == dif && columns[Dea] == dea
      ensures Table() == BuildTable(close, dif, dea)
      ensures r == SignalEvaluator.Decide(BuildTable(old(close), dif, dea), SignalEvaluator.ZeroThreshold)
    {
      AddIndicators(dif, dea);
      r := SignalEvaluator.Decide(Table(), SignalEvaluator.ZeroThreshold);
    }
  }

  /** Evaluating the same frame twice with the same MACD columns gives the
      same outcome, and leaves DIF and DEA as given. */
  method CheckTwice(f: Frame, dif: seq<Option<real>>, dea: seq<Option<real>>)
    returns (first: SignalEvaluator.Outcome, second: SignalEvaluator.Outcome)
    requires f.Valid() && |dif| == |f.close| && |dea| == |f.close|
    modifies f
    ensures first == second
    ensures f.Valid() && f.HasIndicators() && f.columns[Dif] == dif && f.columns[Dea] == dea
  {
    first := f.CheckBuyAlert(dif, dea);
    second := f.CheckBuyAlert(dif, dea);
  }
}
