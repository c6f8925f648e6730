/** The alert decision of `check_buy_alert`: a guard against undefined
    indicators in the last two rows, then a strict DIF-over-DEA crossover
    between the previous and the current row combined with a one-sided
    near-zero test on the current row. */
module SignalEvaluator {
  import opened Wrappers
  import opened IndicatorEngine

  /** The configured "near zero" bound on DIF and DEA. */
  const ZeroThreshold: real := 0.002

  /** What the decision returns: a boolean, or the positional-index error that
      selecting the previous row raises on a frame with fewer than two rows. */
  datatype Outcome = Answer(alert: bool) | IndexError

  /** All five indicator fields of the row are defined (none is NaN). */
  predicate Defined(r: Row)
  {
    r.ma7.Some? && r.ma25.Some? && r.ma99.Some? && r.dif.Some? && r.dea.Some?
  }

  /** First index of the last two rows (of all rows when there are fewer). */
  function TailStart(n: nat): (start: nat)
  {
    if n < 2 then 0 else n - 2
  }

  /** The NaN guard: an indicator is missing somewhere in the last two rows. */
  predicate UndefinedInTail(rows: seq<Row>)
  {
    exists k :: TailStart(|rows|) <= k < |rows| && !Defined(rows[k])
  }

  /** DIF crosses above DEA: strictly below on the previous row, strictly above on the current one. */
  predicate Crossover(prevDif: real, prevDea: real, currDif: real, currDea: real)
  {
    prevDif < prevDea && currDif > currDea
  }

  /** Both current values lie strictly below the threshold; there is no lower bound. */
  predicate NearZero(currDif: real, currDea: real, threshold: real)
  {
    currDif < threshold && currDea < threshold
  }

  /** The decision on an indicator table. It fires exactly when the last two
      rows are fully defined, DIF was strictly below DEA and is now strictly
      above it, and both current values are strictly below the threshold. */
  function Decide(rows: seq<Row>, threshold: real): (r: Outcome)
    ensures |rows| >= 2 ==> r.Answer?
    ensures r == IndexError <==> |rows| < 2 && forall k :: 0 <= k < |rows| ==> Defined(rows[k])
    ensures r == Answer(true) <==>
              && |rows| >= 2
              && Defined(rows[|rows| - 2]) && Defined(rows[|rows| - 1])
              && rows[|rows| - 2].dif.value < rows[|rows| - 2].dea.value
              && rows[|rows| - 1].dea.value < rows[|rows| - 1].dif.value < threshold
              && rows[|rows| - 1].dea.value < threshold
  {
    if UndefinedInTail(rows) then Answer(false)
    else if |rows| < 2 then IndexError
    else
      var prev, curr := rows[|rows| - 2], rows[|rows| - 1];
      assert Defined(prev) && Defined(curr);
      Answer(Crossover(prev.dif.value, prev.dea.value, curr.dif.value, curr.dea.value)
             && NearZero(curr.dif.value, curr.dea.value, threshold))
  }

  /** An undefined indicator in either of the last two rows means no alert. */
  lemma UndefinedMeansNoAlert(rows: seq<Row>, threshold: real, k: nat)
    requires |rows| - 2 <= k < |rows|
    requires !Defined(rows[k])
    ensures Decide(rows, threshold) == Answer(false)
  {
  }

  /** A tie between DIF and DEA on either row is never a crossover, whatever
      the other row does. */
  lemma TieIsNoCrossover(rows: seq<Row>, threshold: real)
    requires |rows| >= 2
    requires rows[|rows| - 2].dif == rows[|rows| - 2].dea || rows[|rows| - 1].dif == rows[|rows| - 1].dea
    ensures Decide(rows, threshold) == Answer(false)
  {
  }

  /** The near-zero test is strict: a current DIF or DEA equal to the threshold fails it. */
  lemma ThresholdIsExclusive(rows: seq<Row>, threshold: real)
    requires |rows| >= 2
    requires rows[|rows| - 1].dif == Some(threshold) || rows[|rows| - 1].dea == Some(threshold)
    ensures Decide(rows, threshold) == Answer(false)
  {
  }

  /** The table with the current row's DIF and DEA both lowered by `drop`. */
  function LowerCurrent(rows: seq<Row>, drop: real): (r: seq<Row>)
    requires |rows| >= 1 && Defined(rows[|rows| - 1])
  {
    var curr := rows[|rows| - 1];
    rows[..|rows| - 1] + [curr.(dif := Some(curr.dif.value - drop), dea := Some(curr.dea.value - drop))]
  }

  /** The near-zero test has no lower bound: lowering the current DIF and DEA
      together, by any amount, keeps an alert an alert. */
  lemma AlertSurvivesLowering(rows: seq<Row>, threshold: real, drop: real)
    requires Decide(rows, threshold) == Answer(true)
    requires 0.0 <= drop
    ensures Decide(LowerCurrent(rows, drop), threshold) == Answer(true)
  {
  }

  /** Only the last two rows decide: tables of one length that agree there
      give the same outcome, whatever their earlier rows hold. */
  lemma OnlyLastTwoRowsMatter(a: seq<Row>, b: seq<Row>, threshold: real)
    requires |a| == |b|
    requires forall k :: TailStart(|a|) <= k < |a| ==> a[k] == b[k]
    ensures Decide(a, threshold) == Decide(b, threshold)
  {
  }

  /** On the table the frame builds, an empty frame raises the index error and
      a frame with at most 99 candles never alerts: ma99 is still undefined on
      the first of its last two rows (on its only row when it has one). So the
      configured 100 candles is the fewest that can alert. */
  lemma ShortHistoryNoAlert(closes: seq<real>, dif: seq<Option<real>>, dea: seq<Option<real>>, threshold: real)
    requires |dif| == |closes| && |dea| == |closes|
    requires |closes| <= SlowWindow
    ensures Decide(BuildTable(closes, dif, dea), threshold)
            == if |closes| == 0 then IndexError else Answer(false)
  {
    if |closes| > 0 {
      UndefinedMeansNoAlert(BuildTable(closes, dif, dea), threshold, TailStart(|closes|));
    }
  }

  /** With the configured 100 candles only the last two rows have ma99, so the
      guard passes only when every other indicator is defined there too. */
  lemma ConfiguredWindowWarmup(closes: seq<real>, dif: seq<Option<real>>, dea: seq<Option<real>>)
    requires |dif| == |closes| && |dea| == |closes|
    requires |closes| == 100
    ensures forall i :: 0 <= i < |closes| ==>
              (BuildTable(closes, dif, dea)[i].ma99.Some? <==> TailStart(|closes|) <= i)
  {
  }

  /** With DIF and DEA held fixed on the last two rows, the decision reads the
      closes of the last 100 candles only (the ma99 window of the previous row).
      The MACD columns themselves depend on the whole close history, which this
      lemma does not claim to be irrelevant. */
  lemma DecisionReadsLastHundredCloses(a: seq<real>, b: seq<real>,
                              difA: seq<Option<real>>, deaA: seq<Option<real>>,
                              difB: seq<Option<real>>, deaB: seq<Option<real>>, threshold: real)
    requires |a| == |b| && |difA| == |a| && |deaA| == |a| && |difB| == |a| && |deaB| == |a|
    requires forall k :: 0 <= k && |a| - SlowWindow - 1 <= k < |a| ==> a[k] == b[k]
    requires forall k :: TailStart(|a|) <= k < |a| ==> difA[k] == difB[k] && deaA[k] == deaB[k]
    ensures Decide(BuildTable(a, difA, deaA), threshold) == Decide(BuildTable(b, difB, deaB), threshold)
  {
    var ta, tb := BuildTable(a, difA, deaA), BuildTable(b, difB, deaB);
    forall k | TailStart(|a|) <= k < |a|
      ensures ta[k] == tb[k]
    {
      SmaIsLocal(a, b, FastWindow, k);
      SmaIsLocal(a, b, MidWindow, k);
      SmaIsLocal(a, b, SlowWindow, k);
    }
    OnlyLastTwoRowsMatter(ta, tb, threshold);
  }

  /** A worked example that fires: DIF moves from below DEA to above it, both under 0.002. */
  lemma ExampleCrossoverFires()
    ensures Decide([Row(Some(100.0), Some(100.0), Some(100.0), Some(-0.001), Some(0.001)),
                    Row(Some(100.0), Some(100.0), Some(100.0), Some(0.0018), Some(0.0015))],
                   ZeroThreshold) == Answer(true)
  {
  }

  /** A current DIF of 0.0015 under a DEA of 0.0018 is no crossover, so nothing fires. */
  lemma ExampleDifStillBelowDea()
    ensures Decide([Row(Some(100.0), Some(100.0), Some(100.0), Some(-0.001), Some(0.001)),
                    Row(Some(100.0), Some(100.0), Some(100.0), Some(0.0015), Some(0.0018))],
                   ZeroThreshold) == Answer(false)
  {
  }

  /** The crossover of the first example fails the near-zero test under a threshold of 0.001. */
  lemma ExampleThresholdTooLow()
    ensures Decide([Row(Some(100.0), Some(100.0), Some(100.0), Some(-0.001), Some(0.001)),
                    Row(Some(100.0), Some(100.0), Some(100.0), Some(0.0018), Some(0.0015))],
                   0.001) == Answer(false)
  {
  }
}
