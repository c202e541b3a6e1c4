/** The technical engine: an additive moving-average score per row, and the
    14-period RSI computed from a ticker's recent closing prices. */
module Technical {
  import opened Wrappers
  import opened Numerics
  import opened Text
  import opened Market

  datatype Trend = Uptrend | Downtrend

  datatype TechSignal = TechSignal(trend: Trend, techScore: int)

  /** The 200-day average a row is judged against: its own column, or its own
      price when the table has no 200-day column at all. */
  function LongAverage(s: Snapshot, has200Column: bool): Option<real> {
    if has200Column then s.dma200 else s.price
  }

  /** Trend label and score of one row: +50 above the 200-day average, +30 above
      the 50-day average, +20 for a golden cross (50-day above 200-day). The two
      50-day rules apply only when the table has a 50-day column. */
  function Indicators(s: Snapshot, has200Column: bool, has50Column: bool): (t: TechSignal)
    ensures t.trend == Uptrend <==> Exceeds(s.price, LongAverage(s, has200Column))
    ensures 0 <= t.techScore <= 100 && t.techScore % 10 == 0
    ensures t.trend == Uptrend ==> t.techScore >= 50
    ensures t.trend == Downtrend ==> t.techScore <= 50
    ensures t.techScore == 100 <==>
      && Exceeds(s.price, LongAverage(s, has200Column))
      && has50Column
      && Exceeds(s.price, s.dma50)
      && Exceeds(s.dma50, LongAverage(s, has200Column))
    ensures (!Exceeds(s.price, LongAverage(s, has200Column))
          && !Exceeds(s.price, s.dma50)
          && !Exceeds(s.dma50, LongAverage(s, has200Column))) ==> t.techScore == 0
    ensures !has200Column ==> t.trend == Downtrend
    ensures !has50Column ==> t.techScore == 0 || t.techScore == 50
  {
    var long := LongAverage(s, has200Column);
    var trend := if Exceeds(s.price, long) then Uptrend else Downtrend;
    var score :=
      (if trend == Uptrend then 50 else 0)
      + (if has50Column && Exceeds(s.price, s.dma50) then 30 else 0)
      + (if has50Column && Exceeds(s.dma50, long) then 20 else 0);
    TechSignal(trend, score)
  }

  /** `add_technical_indicators` over a whole table, row by row. */
  function AddTechnicalIndicators(rows: seq<Snapshot>, has200Column: bool, has50Column: bool): (r: seq<TechSignal>)
    ensures |r| == |rows|
    ensures forall i :: 0 <= i < |rows| ==> r[i] == Indicators(rows[i], has200Column, has50Column)
  {
    seq(|rows|, i requires 0 <= i < |rows| => Indicators(rows[i], has200Column, has50Column))
  }

  // ---------------------------------------------------------------------
  // Ticker suffix for the price fetch

  /** Appends ".NS" unless the symbol already names an exchange (".NS" or ".BO"). */
  function YahooSymbol(ticker: string): (r: string)
    ensures EndsWith(r, ".NS") || EndsWith(r, ".BO")
    ensures EndsWith(ticker, ".NS") || EndsWith(ticker, ".BO") ==> r == ticker
    ensures !(EndsWith(ticker, ".NS") || EndsWith(ticker, ".BO")) ==> r == ticker + ".NS"
  {
    if EndsWith(ticker, ".NS") || EndsWith(ticker, ".BO") then ticker else ticker + ".NS"
  }

  lemma YahooSymbolIdempotent(ticker: string)
    ensures YahooSymbol(YahooSymbol(ticker)) == YahooSymbol(ticker)
  {
  }

  // ---------------------------------------------------------------------
  // RSI

  const NeutralRsi: real := 50.0
  const DefaultPeriod: nat := 14

  function Gain(d: real): real { if d > 0.0 then d else 0.0 }
  function Loss(d: real): real { if d < 0.0 then -d else 0.0 }

  /** Day-over-day changes of the closes. */
  function Deltas(closes: seq<real>): (d: seq<real>)
    requires |closes| >= 1
    ensures |d| == |closes| - 1
    ensures forall i :: 0 <= i < |d| ==> closes[i] + d[i] == closes[i + 1]
  {
    seq(|closes| - 1, i requires 0 <= i < |closes| - 1 => closes[i + 1] - closes[i])
  }

  function Gains(ds: seq<real>): (g: seq<real>)
    ensures |g| == |ds| && forall i :: 0 <= i < |ds| ==> g[i] >= 0.0
  {
    seq(|ds|, i requires 0 <= i < |ds| => Gain(ds[i]))
  }

  function Losses(ds: seq<real>): (l: seq<real>)
    ensures |l| == |ds| && forall i :: 0 <= i < |ds| ==> l[i] >= 0.0
  {
    seq(|ds|, i requires 0 <= i < |ds| => Loss(ds[i]))
  }

  /** The `period` most recent day-over-day changes. */
  function Window(closes: seq<real>, period: nat): (w: seq<real>)
    requires |closes| >= period + 1
    ensures |w| == period
  {
    var d := Deltas(closes);
    d[|d| - period..]
  }

  /** The mean gain over the window (rolling mean at the last close). */
  function AverageGain(closes: seq<real>, period: nat): (g: real)
    requires period >= 1 && |closes| >= period + 1
    ensures g >= 0.0
  {
    var gs := Gains(Window(closes, period));
    SumNonNegative(gs);
    Sum(gs) / period as real
  }

  function AverageLoss(closes: seq<real>, period: nat): (l: real)
    requires period >= 1 && |closes| >= period + 1
    ensures l >= 0.0
  {
    var ls := Losses(Window(closes, period));
    SumNonNegative(ls);
    Sum(ls) / period as real
  }

  /** The relative strength index at the last close. `None` is the float NaN
      that 0/0 produces when the window is completely flat; a window without
      losses but with gains has infinite RS and an RSI of exactly 100. */
  function Rsi(closes: seq<real>, period: nat): (r: Option<real>)
    requires period >= 1
    ensures |closes| < period + 1 ==> r == Some(NeutralRsi)
    ensures r.Some? ==> 0.0 <= r.value <= 100.0
    ensures |closes| >= period + 1 && AverageLoss(closes, period) > 0.0
        ==> r.Some? && r.value < 100.0
    ensures |closes| >= period + 1 && AverageLoss(closes, period) == 0.0 && AverageGain(closes, period) > 0.0
        ==> r == Some(100.0)
    ensures r.None? <==>
      |closes| >= period + 1 && AverageGain(closes, period) == 0.0 && AverageLoss(closes, period) == 0.0
  {
    if |closes| < period + 1 then Some(NeutralRsi)
    else
      var gain := AverageGain(closes, period);
      var loss := AverageLoss(closes, period);
      if loss == 0.0 then
        (if gain == 0.0 then None else Some(100.0))
      else
        var rs := gain / loss;
        assert 1.0 + rs >= 1.0;
        Some(100.0 - 100.0 / (1.0 + rs))
  }

  /** Every change splits into its gain part minus its loss part. */
  lemma {:induction false} GainsMinusLosses(ds: seq<real>)
    ensures Sum(Gains(ds)) - Sum(Losses(ds)) == Sum(ds)
  {
    if |ds| > 0 {
      var init := ds[..|ds| - 1];
      assert Gains(ds)[..|ds| - 1] == Gains(init);
      assert Losses(ds)[..|ds| - 1] == Losses(init);
      GainsMinusLosses(init);
    }
  }

  /** Successive changes add up to the overall change. */
  lemma {:induction false} Telescope(c: seq<real>, w: seq<real>)
    requires |c| >= 1 && |w| == |c| - 1
    requires forall i :: 0 <= i < |w| ==> c[i] + w[i] == c[i + 1]
    ensures Sum(w) == c[|c| - 1] - c[0]
  {
    if |w| > 0 {
      Telescope(c[..|c| - 1], w[..|w| - 1]);
    }
  }

  /** The window's changes step through the last `period + 1` closes. */
  lemma WindowSteps(closes: seq<real>, period: nat)
    requires |closes| >= period + 1
    ensures var c := closes[|closes| - 1 - period..];
            var w := Window(closes, period);
            |w| == |c| - 1 && forall i :: 0 <= i < |w| ==> c[i] + w[i] == c[i + 1]
  {
    var c := closes[|closes| - 1 - period..];
    var d := Deltas(closes);
    var w := Window(closes, period);
    forall i | 0 <= i < |w|
      ensures c[i] + w[i] == c[i + 1]
    {
      var j := |closes| - 1 - period + i;
      assert w[i] == d[j];
      assert c[i] == closes[j] && c[i + 1] == closes[j + 1];
    }
  }

  lemma DivideDifference(a: real, b: real, p: real)
    requires p > 0.0
    ensures a / p - b / p == (a - b) / p
  {
  }

  /** The average gain minus the average loss is the price drift over the
      window: the last close minus the close `period` days before, per day. */
  lemma AverageDifferenceIsDrift(closes: seq<real>, period: nat)
    requires period >= 1 && |closes| >= period + 1
    ensures AverageGain(closes, period) - AverageLoss(closes, period)
         == (closes[|closes| - 1] - closes[|closes| - 1 - period]) / period as real
  {
    var w := Window(closes, period);
    var c := closes[|closes| - 1 - period..];
    WindowSteps(closes, period);
    Telescope(c, w);
    assert Sum(w) == closes[|closes| - 1] - closes[|closes| - 1 - period];
    GainsMinusLosses(w);
    DivideDifference(Sum(Gains(w)), Sum(Losses(w)), period as real);
  }

  /** Above the neutral 50 exactly when the price rose over the window. */
  lemma RsiAboveNeutralIffRose(closes: seq<real>, period: nat)
    requires period >= 1 && |closes| >= period + 1
    requires Rsi(closes, period).Some?
    ensures Rsi(closes, period).value > NeutralRsi <==> closes[|closes| - 1] > closes[|closes| - 1 - period]
  {
    var g := AverageGain(closes, period);
    var l := AverageLoss(closes, period);
    var rise := closes[|closes| - 1] - closes[|closes| - 1 - period];
    AverageDifferenceIsDrift(closes, period);
    DriftSign(rise, period as real);
    if l > 0.0 {
      RsiIsGainShare(closes, period);
      GainShareAboveHalf(g, l);
    }
  }

  lemma DriftSign(rise: real, p: real)
    requires p > 0.0
    ensures rise / p > 0.0 <==> rise > 0.0
  {
    assert (rise / p) * p == rise;
  }

  lemma GainShareAboveHalf(g: real, l: real)
    requires g >= 0.0 && l > 0.0
    ensures 100.0 * g / (g + l) > 50.0 <==> g > l
  {
    var y := 100.0 * g / (g + l);
    assert y * (g + l) == 100.0 * g;
    assert (y - 50.0) * (g + l) == 50.0 * (g - l);
    ProductSign(y - 50.0, g + l);
    assert y > 50.0 <==> 50.0 * (g - l) > 0.0;
  }

  lemma ProductSign(z: real, p: real)
    requires p > 0.0
    ensures z * p > 0.0 <==> z > 0.0
  {
    if z > 0.0 {
      assert z * p > 0.0;
    } else {
      assert z * p <= 0.0;
    }
  }

  /** Independent closed form: RSI is the gain share of all movement,
      100 * gain / (gain + loss). */
  lemma RsiIsGainShare(closes: seq<real>, period: nat)
    requires period >= 1 && |closes| >= period + 1
    requires AverageLoss(closes, period) > 0.0
    ensures var g := AverageGain(closes, period);
            var l := AverageLoss(closes, period);
            Rsi(closes, period) == Some(100.0 * g / (g + l))
  {
    var g := AverageGain(closes, period);
    var l := AverageLoss(closes, period);
    GainShareAlgebra(g, l);
  }

  lemma GainShareAlgebra(g: real, l: real)
    requires g >= 0.0 && l > 0.0
    ensures 100.0 - 100.0 / (1.0 + g / l) == 100.0 * g / (g + l)
  {
    var rs := g / l;
    assert rs * l == g;
    assert (1.0 + rs) * l == l + g;
    var x := 100.0 / (1.0 + rs);
    assert x * (1.0 + rs) == 100.0;
    assert x * (l + g) == 100.0 * l by {
      calc {
        x * (l + g);
        x * ((1.0 + rs) * l);
        (x * (1.0 + rs)) * l;
        100.0 * l;
      }
    }
    var y := 100.0 * g / (g + l);
    assert y * (l + g) == 100.0 * g;
    assert (100.0 - x) * (l + g) == 100.0 * g;
    assert (100.0 - x - y) * (l + g) == 0.0;
    ZeroFactor(100.0 - x - y, l + g);
  }

  lemma ZeroFactor(z: real, p: real)
    requires p > 0.0 && z * p == 0.0
    ensures z == 0.0
  {
  }

  /** `get_rsi`: a failed or short price fetch is neutral. */
  function GetRsi(fetched: Option<seq<real>>, period: nat): (r: Option<real>)
    requires period >= 1
    ensures fetched.None? ==> r == Some(NeutralRsi)
    ensures fetched.Some? ==> r == Rsi(fetched.value, period)
  {
    match fetched
    case None => Some(NeutralRsi)
    case Some(closes) => Rsi(closes, period)
  }
}
