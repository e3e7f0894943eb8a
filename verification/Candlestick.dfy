/** The candlestick aggregator of a metric: open, close, high, low and volume of the samples
    between two observations. Sums wrap around like 64-bit integers; the close divides like Go,
    towards zero. */
module Candlestick {
  import opened Wrappers

  const HALF := 0x8000_0000_0000_0000
  const FULL := 0x1_0000_0000_0000_0000

  predicate Fits(x: int) {
    -HALF <= x < HALF
  }

  function Wrap(x: int): int {
    (x + HALF) % FULL - HALF
  }

  function TruncDiv(a: int, n: nat): int
    requires n > 0
  {
    if a >= 0 then a / n else -((-a) / n)
  }

  datatype Candle = Candle(open: int, close: int, high: int, low: int, volume: nat)

  function Sum(w: seq<int>): int {
    if |w| == 0 then 0 else Sum(w[..|w| - 1]) + w[|w| - 1]
  }

  ghost predicate IsMax(m: int, w: seq<int>) {
    m in w && forall x :: x in w ==> x <= m
  }

  ghost predicate IsMin(m: int, w: seq<int>) {
    m in w && forall x :: x in w ==> m <= x
  }

  /** A candle that describes a window of samples. */
  ghost predicate Describes(c: Candle, open: int, w: seq<int>) {
    && |w| > 0
    && c.open == open
    && c.close == TruncDiv(Wrap(Sum(w)), |w|)
    && IsMax(c.high, w) && IsMin(c.low, w)
    && c.volume == |w|
  }

  /** What has happened so far: the candles given out, the window of each, and the samples that
      wait for the next observation. */
  datatype Chart = Chart(candles: seq<Candle>, windows: seq<seq<int>>, pending: seq<int>) {
    function LastClose(): int {
      if |candles| == 0 then 0 else candles[|candles| - 1].close
    }
  }

  class Int64Candlestick {
    var open: int
    var close: int
    var high: int
    var low: int
    var volume: nat
    ghost var chart: Chart

    ghost predicate Valid()
      reads this
    {
      && open == chart.LastClose()
      && volume == |chart.pending|
      && close == Wrap(Sum(chart.pending))
      && (volume > 0 ==> IsMax(high, chart.pending) && IsMin(low, chart.pending))
    }

    constructor ()
      ensures Valid() && chart == Chart([], [], [])
    {
      open, close, high, low, volume := 0, 0, 0, 0, 0;
      chart := Chart([], [], []);
    }

    method Record(value: int)
      requires Valid()
      modifies this
      ensures Valid() && chart == old(chart).(pending := old(chart.pending) + [value])
    {
      ghost var w := chart.pending;
      ghost var w' := w + [value];
      assert w'[..|w|] == w;
      WrapAdds(Sum(w), value);
      close := Wrap(close + value);
      if volume == 0 || value > high {
        high := value;
      }
      if volume == 0 || value < low {
        low := value;
      }
      volume := volume + 1;
      assert forall x :: x in w' <==> x in w || x == value;
      chart := chart.(pending := w');
    }

    method Observe() returns (c: Option<Candle>)
      requires Valid()
      modifies this
      ensures Valid()
      ensures old(chart.pending) == [] ==> c == None && chart == old(chart)
      ensures old(chart.pending) != [] ==>
                && c.Some? && Describes(c.value, old(chart).LastClose(), old(chart.pending))
                && chart == Chart(old(chart.candles) + [c.value], old(chart.windows) + [old(chart.pending)], [])
    {
      if volume == 0 {
        return None;
      }
      close := TruncDiv(close, volume);
      c := Some(Candle(open, close, high, low, volume));
      chart := Chart(chart.candles + [c.value], chart.windows + [chart.pending], []);
      open := close;
      close, high, low, volume := 0, 0, 0, 0;
    }
  }

  lemma {:induction false} WrapAdds(a: int, b: int)
    ensures Wrap(Wrap(a) + b) == Wrap(a + b)
  {
    var q := (a + HALF) / FULL;
    assert Wrap(a) == a - q * FULL;
    assert (a + b + HALF) % FULL == (a + b + HALF - q * FULL) % FULL;
  }

  lemma {:induction false} WrapIsNear(x: int)
    ensures Fits(Wrap(x))
    ensures Wrap(x) == x <==> Fits(x)
    ensures !Fits(x) ==> Wrap(x) - x >= FULL || x - Wrap(x) >= FULL
  {
  }

  lemma {:induction false} SumIsBounded(w: seq<int>, low: int, high: int)
    requires forall x :: x in w ==> low <= x <= high
    ensures low * |w| <= Sum(w) <= high * |w|
  {
    if |w| > 0 {
      var n := |w| - 1;
      assert forall x :: x in w[..n] ==> x in w;
      SumIsBounded(w[..n], low, high);
      assert w[n] in w;
      assert low * |w| == low * n + low && high * |w| == high * n + high;
    }
  }

  lemma {:induction false} TruncDivIsNear(a: int, n: nat)
    requires n > 0
    ensures n * TruncDiv(a, n) - n < a < n * TruncDiv(a, n) + n
    ensures a >= 0 ==> n * TruncDiv(a, n) <= a
    ensures a <= 0 ==> a <= n * TruncDiv(a, n)
  {
  }

  /** A quotient towards zero stays between integer bounds of the exact one. */
  lemma {:induction false} TruncDivIsBounded(a: int, n: nat, low: int, high: int)
    requires n > 0 && low * n <= a <= high * n
    ensures low <= TruncDiv(a, n) <= high
  {
    var q := TruncDiv(a, n);
    TruncDivIsNear(a, n);
    TimesIsMonotone(n, q + 1, low);
    TimesIsMonotone(n, high, q - 1);
  }

  lemma {:induction false} TimesIsMonotone(n: nat, x: int, y: int)
    ensures x <= y ==> n * x <= n * y
  {
  }

  /** As long as the sum of the window fits into 64 bits, whatever its partial sums do, the
      close lies between low and high, for negative samples too. */
  lemma {:induction false} CloseIsBetweenLowAndHigh(c: Candle, open: int, w: seq<int>)
    requires Describes(c, open, w) && Fits(Sum(w))
    ensures c.low <= c.close <= c.high
  {
    WrapIsNear(Sum(w));
    SumIsBounded(w, c.low, c.high);
    TruncDivIsBounded(Sum(w), |w|, c.low, c.high);
  }

  /** The close is the mean, rounded towards zero, exactly when the sum fits into 64 bits. */
  lemma {:induction false} CloseIsTheMeanIffTheSumFits(c: Candle, open: int, w: seq<int>)
    requires Describes(c, open, w) && |w| < HALF
    ensures c.close == TruncDiv(Sum(w), |w|) <==> -0x8000_0000_0000_0000 <= Sum(w) <= 0x7fff_ffff_ffff_ffff
  {
    WrapIsNear(Sum(w));
    TruncDivIsNear(Wrap(Sum(w)), |w|);
    TruncDivIsNear(Sum(w), |w|);
  }

  ghost predicate Within(w: seq<int>, a: int, b: int) {
    forall x :: x in w ==> a <= x <= b
  }

  /** The candles of all windows of `n` samples in `[a, b]` have their close between low and high. */
  ghost predicate AllClosesInside(n: nat, a: int, b: int) {
    forall c: Candle, open: int, w: seq<int> ::
      |w| == n && Within(w, a, b) && Describes(c, open, w) ==> c.low <= c.close <= c.high
  }

  lemma {:induction false} ConstantSum(n: nat, x: int) returns (w: seq<int>)
    ensures |w| == n && Sum(w) == n * x && forall y :: y in w ==> y == x
  {
    if n == 0 {
      w := [];
    } else {
      var init := ConstantSum(n - 1, x);
      w := init + [x];
      assert w[..n - 1] == init && w[n - 1] == x;
      assert n * x == (n - 1) * x + x;
    }
  }

  /** If a constant window does not fit, its close misses its only value. */
  lemma {:induction false} ConstantEscapes(n: nat, x: int) returns (c: Candle, w: seq<int>)
    requires 0 < n < HALF && !Fits(n * x)
    ensures |w| == n && Within(w, x, x) && Describes(c, 0, w) && !(c.low <= c.close <= c.high)
  {
    w := ConstantSum(n, x);
    assert w[0] in w && w[0] == x;
    c := Candle(0, TruncDiv(Wrap(Sum(w)), n), x, x, n);
    CloseIsTheMeanIffTheSumFits(c, 0, w);
    TruncDivIsBounded(n * x, n, x, x);
  }

  /** Exactly how many samples of a range are safe: the close lies between low and high in every
      window of `n` samples between `a` and `b` if and only if `n` times either bound fits. */
  lemma {:induction false} ClosesInsideIffTheRangeFits(n: nat, a: int, b: int)
    requires 0 < n < HALF && a <= b
    ensures AllClosesInside(n, a, b) <==> Fits(n * a) && Fits(n * b)
  {
    if Fits(n * a) && Fits(n * b) {
      forall c: Candle, open: int, w: seq<int> | |w| == n && Within(w, a, b) && Describes(c, open, w)
        ensures c.low <= c.close <= c.high
      {
        SumIsBounded(w, a, b);
        CloseIsBetweenLowAndHigh(c, open, w);
      }
    } else {
      var x := if Fits(n * a) then b else a;
      var c, w := ConstantEscapes(n, x);
      assert Within(w, a, b);
    }
  }

  /** Two samples of half the range and more already overflow: the close falls below the low. */
  lemma {:induction false} OverflowEscapes(c: Candle, open: int)
    requires Describes(c, open, [0x7fff_ffff_ffff_ffff, 0x7fff_ffff_ffff_ffff])
    ensures c.close == -1 && c.low == 0x7fff_ffff_ffff_ffff
  {
    var w := [HALF - 1, HALF - 1];
    assert w[..1] == [HALF - 1] && w[..1][..0] == [];
    assert Sum(w[..1]) == HALF - 1;
    assert c.low in w;
  }

  /** But a sum that overflows need not take the close outside. */
  lemma {:induction false} OverflowCanStayInside(c: Candle, open: int)
    requires Describes(c, open, [HALF - 1, HALF - 1, -1])
    ensures !Fits(Sum([HALF - 1, HALF - 1, -1])) && c.low == c.close == -1 <= c.high
  {
    var w := [HALF - 1, HALF - 1, -1];
    assert w[..2] == [HALF - 1, HALF - 1] && w[..2][..1] == [HALF - 1] && w[..2][..1][..0] == [];
    assert Sum(w[..2][..1]) == HALF - 1;
    assert Sum(w[..2]) == 2 * HALF - 2;
    assert w[..3] == w && Sum(w) == 2 * HALF - 3;
    assert w[2] in w && c.low in w && c.high in w;
  }

  // ---------- runs ----------

  /** What candle number `i` has to open at: zero, or the close before. */
  function Opening(cs: seq<Candle>, i: nat): int
    requires i < |cs|
  {
    if i == 0 then 0 else cs[i - 1].close
  }

  /** A chart in which every candle describes its window and opens at the close before. */
  ghost predicate Chained(h: Chart) {
    && |h.candles| == |h.windows|
    && forall i: nat :: i < |h.candles| ==> Describes(h.candles[i], Opening(h.candles, i), h.windows[i])
  }

  /** A record or an observation; an observation says which candle it gave out. */
  datatype Event = Recorded(value: int) | Observed(c: Option<Candle>)

  /** What the two methods promise about one event. */
  ghost predicate Next(h: Chart, e: Event, h': Chart) {
    match e
    case Recorded(v) => h' == h.(pending := h.pending + [v])
    case Observed(None) => h.pending == [] && h' == h
    case Observed(Some(c)) =>
      && Describes(c, h.LastClose(), h.pending)
      && h' == Chart(h.candles + [c], h.windows + [h.pending], [])
  }

  /** `hs` are the charts before, between and after the events. */
  ghost predicate IsRun(es: seq<Event>, hs: seq<Chart>) {
    && |hs| == |es| + 1
    && hs[0] == Chart([], [], [])
    && forall i :: 0 <= i < |es| ==> Next(hs[i], es[i], hs[i + 1])
  }

  function Records(es: seq<Event>): seq<int> {
    if |es| == 0 then []
    else Records(es[..|es| - 1]) + (if es[|es| - 1].Recorded? then [es[|es| - 1].value] else [])
  }

  function Flatten(ws: seq<seq<int>>): seq<int> {
    if |ws| == 0 then [] else Flatten(ws[..|ws| - 1]) + ws[|ws| - 1]
  }

  function Volumes(cs: seq<Candle>): nat {
    if |cs| == 0 then 0 else Volumes(cs[..|cs| - 1]) + cs[|cs| - 1].volume
  }

  lemma {:induction false} NextKeepsChained(h: Chart, e: Event, h': Chart)
    requires Chained(h) && Next(h, e, h')
    ensures Chained(h')
  {
    forall i: nat | i < |h'.candles| ensures Describes(h'.candles[i], Opening(h'.candles, i), h'.windows[i]) {
      if i < |h.candles| {
        assert Describes(h.candles[i], Opening(h.candles, i), h.windows[i]);
      }
    }
  }

  lemma {:induction false} NextKeepsSamples(h: Chart, e: Event, h': Chart, recorded: seq<int>)
    requires Flatten(h.windows) + h.pending == recorded && Next(h, e, h')
    ensures Flatten(h'.windows) + h'.pending == recorded + (if e.Recorded? then [e.value] else [])
  {
    match e
    case Recorded(v) =>
    case Observed(None) =>
    case Observed(Some(c)) => assert h'.windows[..|h.windows|] == h.windows;
  }

  lemma {:induction false} NextKeepsVolume(h: Chart, e: Event, h': Chart)
    requires Next(h, e, h')
    ensures Volumes(h'.candles) + |h'.pending| == Volumes(h.candles) + |h.pending| + (if e.Recorded? then 1 else 0)
  {
    match e
    case Recorded(v) =>
    case Observed(None) =>
    case Observed(Some(c)) => assert h'.candles[..|h.candles|] == h.candles;
  }

  /** Over any interleaving of records and observations: every sample is in exactly one window
      or still pending, in the order recorded; so the volumes given out and the pending volume
      add up to the number of records; and candles are chained from close to open. */
  lemma {:induction false} NoSampleIsLost(es: seq<Event>, hs: seq<Chart>)
    requires IsRun(es, hs)
    ensures var h := hs[|es|];
            && Chained(h)
            && Flatten(h.windows) + h.pending == Records(es)
            && Volumes(h.candles) + |h.pending| == |Records(es)|
    decreases |es|
  {
    if |es| > 0 {
      var n := |es| - 1;
      NoSampleIsLost(es[..n], hs[..|es|]);
      NextKeepsChained(hs[n], es[n], hs[n + 1]);
      NextKeepsSamples(hs[n], es[n], hs[n + 1], Records(es[..n]));
      NextKeepsVolume(hs[n], es[n], hs[n + 1]);
    }
  }
}
