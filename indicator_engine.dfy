/** The indicator columns that `check_buy_alert` appends to the candle frame:
    three simple moving averages of the close price, and the MACD line (DIF)
    and signal line (DEA), which come from a library outside this model and
    are therefore taken as given columns. */
module IndicatorEngine {
  import opened Wrappers

  /** Window lengths of the three simple moving averages (ma7, ma25, ma99). */
  const FastWindow: nat := 7
  const MidWindow: nat := 25
  const SlowWindow: nat := 99

  /** The indicator fields of one row of the frame, aligned with one candle. */
  datatype Row = Row(ma7: Option<real>, ma25: Option<real>, ma99: Option<real>,
                     dif: Option<real>, dea: Option<real>)

  function Sum(s: seq<real>): (total: real)
  {
    if |s| == 0 then 0.0 else Sum(s[..|s| - 1]) + s[|s| - 1]
  }

  /** The closes that the moving average of row `i` averages: rows i-window+1 .. i. */
  function Window(closes: seq<real>, window: nat, i: nat): (w: seq<real>)
    requires 0 < window <= i + 1 <= |closes|
  {
    closes[i + 1 - window .. i + 1]
  }

  /** Simple moving average of row `i`; undefined while fewer than `window`
      closes are available. */
  function SmaAt(closes: seq<real>, window: nat, i: nat): (avg: Option<real>)
    requires 0 < window && i < |closes|
  {
    if i + 1 < window then None else Some(Sum(Window(closes, window, i)) / window as real)
  }

  /** The moving-average column: one entry per candle, undefined exactly on
      the first `window - 1` rows. */
  function SmaColumn(closes: seq<real>, window: nat): (col: seq<Option<real>>)
    requires 0 < window
    ensures |col| == |closes|
    ensures forall i :: 0 <= i < |col| ==> (col[i].Some? <==> window - 1 <= i)
  {
    seq(|closes|, i requires 0 <= i < |closes| => SmaAt(closes, window, i))
  }

  function Zip(ma7: seq<Option<real>>, ma25: seq<Option<real>>, ma99: seq<Option<real>>,
               dif: seq<Option<real>>, dea: seq<Option<real>>): (rows: seq<Row>)
    requires |ma25| == |ma7| && |ma99| == |ma7| && |dif| == |ma7| && |dea| == |ma7|
  {
    seq(|ma7|, i requires 0 <= i < |ma7| => Row(ma7[i], ma25[i], ma99[i], dif[i], dea[i]))
  }

  /** The indicator table: the three averages of `closes` beside the given
      MACD columns, one row per candle. */
  function BuildTable(closes: seq<real>, dif: seq<Option<real>>, dea: seq<Option<real>>): (t: seq<Row>)
    requires |dif| == |closes| && |dea| == |closes|
    ensures |t| == |closes|
    ensures forall i :: 0 <= i < |t| ==> t[i].dif == dif[i] && t[i].dea == dea[i]
    ensures forall i :: 0 <= i < |t| ==>
              && (t[i].ma7.Some? <==> FastWindow - 1 <= i)
              && (t[i].ma25.Some? <==> MidWindow - 1 <= i)
              && (t[i].ma99.Some? <==> SlowWindow - 1 <= i)
    ensures forall i :: 0 <= i < |t| ==>
              && t[i].ma7 == SmaAt(closes, FastWindow, i)
              && t[i].ma25 == SmaAt(closes, MidWindow, i)
              && t[i].ma99 == SmaAt(closes, SlowWindow, i)
  {
    Zip(SmaColumn(closes, FastWindow), SmaColumn(closes, MidWindow), SmaColumn(closes, SlowWindow), dif, dea)
  }

  lemma {:induction false} SumFront(s: seq<real>)
    requires |s| > 0
    ensures Sum(s) == s[0] + Sum(s[1..])
  {
    if |s| == 1 {
      assert s[..0] == [] && s[1..] == [];
    } else {
      var init := s[..|s| - 1];
      SumFront(init);
      assert init[1..] == s[1..][..|s| - 2];
    }
  }

  lemma {:induction false} SumBounds(s: seq<real>, lo: real, hi: real)
    requires forall k :: 0 <= k < |s| ==> lo <= s[k] <= hi
    ensures |s| as real * lo <= Sum(s) <= |s| as real * hi
  {
    if |s| > 0 {
      SumBounds(s[..|s| - 1], lo, hi);
      assert |s| as real * lo == (|s| - 1) as real * lo + lo;
      assert |s| as real * hi == (|s| - 1) as real * hi + hi;
    }
  }

  /** A moving average lies between any lower and any upper bound of the
      closes in its window. */
  lemma SmaWithinWindowBounds(closes: seq<real>, window: nat, i: nat, lo: real, hi: real)
    requires 0 < window <= i + 1 <= |closes|
    requires forall k :: i + 1 - window <= k <= i ==> lo <= closes[k] <= hi
    ensures SmaAt(closes, window, i).Some?
    ensures lo <= SmaAt(closes, window, i).value <= hi
  {
    var w := Window(closes, window, i);
    var p := window as real;
    SumBounds(w, lo, hi);
    var avg := Sum(w) / p;
    assert Sum(w) == avg * p;
    assert lo * p <= avg * p <= hi * p;
  }

  /** Over a window of flat prices the moving average is that price. */
  lemma SmaOfFlatPrices(closes: seq<real>, window: nat, i: nat, price: real)
    requires 0 < window <= i + 1 <= |closes|
    requires forall k :: i + 1 - window <= k <= i ==> closes[k] == price
    ensures SmaAt(closes, window, i) == Some(price)
  {
    SmaWithinWindowBounds(closes, window, i, price, price);
  }

  /** Moving the window one row on adds the entering close and drops the
      leaving one, each weighted 1/window. */
  lemma SmaSlides(closes: seq<real>, window: nat, i: nat)
    requires 0 < window <= i + 1 && i + 1 < |closes|
    ensures SmaAt(closes, window, i + 1).value
            == SmaAt(closes, window, i).value + (closes[i + 1] - closes[i + 1 - window]) / window as real
  {
    var w, w' := Window(closes, window, i), Window(closes, window, i + 1);
    SumFront(w);
    assert w'[..|w'| - 1] == w[1..];
    assert Sum(w') == Sum(w) - closes[i + 1 - window] + closes[i + 1];
    var p := window as real;
    assert Sum(w') / p == Sum(w) / p + (closes[i + 1] - closes[i + 1 - window]) / p;
  }

  /** A moving average reads nothing outside its window. */
  lemma SmaIsLocal(a: seq<real>, b: seq<real>, window: nat, i: nat)
    requires 0 < window && i < |a| && i < |b|
    requires forall k :: 0 <= k && i + 1 - window <= k <= i ==> a[k] == b[k]
    ensures SmaAt(a, window, i) == SmaAt(b, window, i)
  {
    if window <= i + 1 {
      assert Window(a, window, i) == Window(b, window, i);
    }
  }
}
