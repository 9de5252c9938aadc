/** Probe statistics over a window of samples. Voltages are reals; a sample that is not a
    finite number is a case of its own. The root of the mean square is not taken, so the
    model's `meanSquare` is the square of the reported rms. */
module Telemetry {

  datatype Sample = NonFinite | Finite(v: real)

  const PROBE_CLIP_VOLTS := 10.0
  const PROBE_GATE_LOW_VOLTS := 0.1
  const PROBE_GATE_HIGH_VOLTS := 1.0

  function Abs(x: real): real {
    if x < 0.0 then -x else x
  }

  function Square(x: real): real {
    x * x
  }

  datatype Range = Range(minV: real, maxV: real, peakAbs: real)

  datatype Totals = Totals(sum: real, sumSquares: real, clipped: nat, frames: nat)

  datatype Gate = Gate(high: bool, risingEdges: nat)

  datatype Acc = Acc(range: Range, totals: Totals, nonFinite: nat, gate: Gate)

  function Emptied(gateHigh: bool): Acc {
    Acc(Range(0.0, 0.0, 0.0), Totals(0.0, 0.0, 0, 0), 0, Gate(gateHigh, 0))
  }

  function Widened(r: Range, v: real, first: bool): Range {
    Range(if first || v < r.minV then v else r.minV, if first || v > r.maxV then v
      else r.maxV, if Abs(v) > r.peakAbs then Abs(v) else r.peakAbs)
  }

  function Added(t: Totals, v: real): Totals {
    Totals(t.sum + v, t.sumSquares + Square(v), if Abs(v) >= PROBE_CLIP_VOLTS then t.clipped + 1
      else t.clipped, t.frames + 1)
  }

  function GateAfter(high: bool, v: real): bool {
    if high then v > PROBE_GATE_LOW_VOLTS else v >= PROBE_GATE_HIGH_VOLTS
  }

  function Followed(g: Gate, v: real): Gate {
    Gate(GateAfter(g.high, v), if !g.high && GateAfter(g.high, v) then g.risingEdges + 1 else g.risingEdges)
  }

  function Accumulated(a: Acc, s: Sample, first: bool): Acc {
    match s
    case NonFinite => a.(nonFinite := a.nonFinite + 1)
    case Finite(v) => Acc(Widened(a.range, v, first), Added(a.totals, v), a.nonFinite, Followed(a.gate, v))
  }

  class ChannelAccumulator {
    var minV: real
    var maxV: real
    var peakAbs: real
    var sum: real
    var sumSquares: real
    var clipped: nat
    var nonFinite: nat
    var risingEdges: nat
    var frames: nat
    var gateHigh: bool

    function View(): Acc
      reads this
    {
      Acc(Range(minV, maxV, peakAbs), Totals(sum, sumSquares, clipped, frames), nonFinite, Gate(gateHigh, risingEdges))
    }

    /** Starts a window; the gate carries over, so that an edge is not counted twice. */
    method Reset()
      modifies this
      ensures View() == Emptied(old(gateHigh))
    {
      minV, maxV, peakAbs, sum, sumSquares := 0.0, 0.0, 0.0, 0.0, 0.0;
      clipped, nonFinite, risingEdges, frames := 0, 0, 0, 0;
    }

    method ResetAll()
      modifies this
      ensures View() == Emptied(false)
    {
      Reset();
      gateHigh := false;
    }

    method Accumulate(s: Sample, first: bool)
      modifies this
      ensures View() == Accumulated(old(View()), s, first)
    {
      if s.NonFinite? {
        nonFinite := nonFinite + 1;
        return;
      }
      Widen(s.v, first);
      Add(s.v);
      Follow(s.v);
    }

    method Widen(v: real, first: bool)
      modifies this`minV, this`maxV, this`peakAbs
      ensures View().range == Widened(old(View()).range, v, first)
    {
      if first || v < minV {
        minV := v;
      }
      if first || v > maxV {
        maxV := v;
      }
      var a := Abs(v);
      if a > peakAbs {
        peakAbs := a;
      }
    }

    method Add(v: real)
      modifies this`sum, this`sumSquares, this`clipped, this`frames
      ensures View().totals == Added(old(View()).totals, v)
    {
      if Abs(v) >= PROBE_CLIP_VOLTS {
        clipped := clipped + 1;
      }
      sum := sum + v;
      sumSquares := sumSquares + Square(v);
      frames := frames + 1;
    }

    method Follow(v: real)
      modifies this`gateHigh, this`risingEdges
      ensures View().gate == Followed(old(View()).gate, v)
    {
      if gateHigh {
        if v <= PROBE_GATE_LOW_VOLTS {
          gateHigh := false;
        }
      } else {
        if v >= PROBE_GATE_HIGH_VOLTS {
          gateHigh := true;
          risingEdges := risingEdges + 1;
        }
      }
    }
  }

  // ----- what the statistics should be -----

  function Finites(samples: seq<Sample>): seq<real> {
    if samples == [] then []
    else
      var last := samples[|samples| - 1];
      Finites(samples[..|samples| - 1]) + if last.Finite? then [last.v] else []
  }

  function Sum(xs: seq<real>): real {
    if xs == [] then 0.0 else Sum(xs[..|xs| - 1]) + xs[|xs| - 1]
  }

  function SumSquares(xs: seq<real>): real {
    if xs == [] then 0.0 else SumSquares(xs[..|xs| - 1]) + Square(xs[|xs| - 1])
  }

  function Clips(xs: seq<real>): nat {
    if xs == [] then 0 else Clips(xs[..|xs| - 1]) + if Abs(xs[|xs| - 1]) >= PROBE_CLIP_VOLTS then 1 else 0
  }

  /** The gate after the samples: it goes up at 1 V, down at 0.1 V, and otherwise stays. */
  function GateOver(start: bool, xs: seq<real>): bool {
    if xs == [] then start else GateAfter(GateOver(start, xs[..|xs| - 1]), xs[|xs| - 1])
  }

  function Edges(start: bool, xs: seq<real>): nat {
    if xs == [] then 0
    else
      var before := xs[..|xs| - 1];
      Edges(start, before) + if !GateOver(start, before) && GateOver(start, xs) then 1 else 0
  }

  ghost predicate IsMin(m: real, xs: seq<real>) {
    m in xs && forall i :: 0 <= i < |xs| ==> m <= xs[i]
  }

  ghost predicate IsMax(m: real, xs: seq<real>) {
    m in xs && forall i :: 0 <= i < |xs| ==> xs[i] <= m
  }

  /** The largest magnitude, or zero when there is no sample. */
  ghost predicate IsPeak(p: real, xs: seq<real>) {
    (forall i :: 0 <= i < |xs| ==> Abs(xs[i]) <= p) && if xs == [] then p == 0.0
      else exists i :: 0 <= i < |xs| && Abs(xs[i]) == p
  }

  ghost predicate RangeHolds(r: Range, xs: seq<real>) {
    (if xs == [] then r.minV == r.maxV == 0.0 else IsMin(r.minV, xs) && IsMax(r.maxV, xs)) && IsPeak(r.peakAbs, xs)
  }

  ghost predicate TotalsHold(t: Totals, xs: seq<real>) {
    t == Totals(Sum(xs), SumSquares(xs), Clips(xs), |xs|)
  }

  /** The accumulator holds the statistics of these samples, started with this gate. */
  ghost predicate Holds(a: Acc, start: bool, samples: seq<Sample>) {
    var xs := Finites(samples);
    && RangeHolds(a.range, xs) && TotalsHold(a.totals, xs)
    && a.totals.frames + a.nonFinite == |samples| && GateHolds(a.gate, start, xs)
  }

  lemma RangePush(xs: seq<real>, v: real, r: Range)
    requires RangeHolds(r, xs)
    ensures RangeHolds(Widened(r, v, xs == []), xs + [v])
  {
    var ys := xs + [v];
    assert ys[|xs|] == v;
    if xs != [] {
      var i :| 0 <= i < |xs| && Abs(xs[i]) == r.peakAbs;
      assert ys[i] == xs[i];
    }
  }

  lemma CountsPush(start: bool, xs: seq<real>, v: real)
    ensures Sum(xs + [v]) == Sum(xs) + v && SumSquares(xs + [v]) == SumSquares(xs) + Square(v)
    ensures Clips(xs + [v]) == Clips(xs) + if Abs(v) >= PROBE_CLIP_VOLTS then 1 else 0
    ensures GateOver(start, xs + [v]) == GateAfter(GateOver(start, xs), v)
    ensures Edges(start, xs + [v]) == Edges(start, xs) + if !GateOver(start, xs) && GateAfter(GateOver(start, xs), v)
      then 1 else 0
  {
    hide Square, Abs, GateAfter;
    assert (xs + [v])[..|xs|] == xs;
  }

  lemma EmptiedHolds(start: bool)
    ensures Holds(Emptied(start), start, [])
  {}

  lemma FinitesPush(samples: seq<Sample>, s: Sample)
    ensures Finites(samples + [s]) == if s.Finite? then Finites(samples) + [s.v] else Finites(samples)
  {
    assert (samples + [s])[..|samples|] == samples;
  }

  lemma TotalsPush(xs: seq<real>, v: real, t: Totals)
    requires TotalsHold(t, xs)
    ensures TotalsHold(Added(t, v), xs + [v])
  {
    hide Square, Abs;
    CountsPush(false, xs, v);
  }

  ghost predicate GateHolds(g: Gate, start: bool, xs: seq<real>) {
    g == Gate(GateOver(start, xs), Edges(start, xs))
  }

  lemma GatePush(xs: seq<real>, v: real, start: bool, g: Gate)
    requires GateHolds(g, start, xs)
    ensures GateHolds(Followed(g, v), start, xs + [v])
  {
    hide GateAfter;
    CountsPush(start, xs, v);
  }

  lemma FiniteHolds(a: Acc, start: bool, samples: seq<Sample>, v: real)
    requires Holds(a, start, samples)
    ensures Holds(Accumulated(a, Finite(v), Finites(samples) == []), start, samples + [Finite(v)])
  {
    hide RangeHolds, TotalsHold, GateHolds, Widened, Added, Followed, Finites;
    var xs := Finites(samples);
    TotalsCount(a.totals, xs);
    RangePush(xs, v, a.range);
    TotalsPush(xs, v, a.totals);
    TotalsCount(Added(a.totals, v), xs + [v]);
    GatePush(xs, v, start, a.gate);
    FinitesPush(samples, Finite(v));
  }

  lemma TotalsCount(t: Totals, xs: seq<real>)
    requires TotalsHold(t, xs)
    ensures t.frames == |xs|
  {}

  lemma NonFiniteHolds(a: Acc, start: bool, samples: seq<Sample>)
    requires Holds(a, start, samples)
    ensures Holds(Accumulated(a, NonFinite, Finites(samples) == []), start, samples + [NonFinite])
  {
    hide RangeHolds, TotalsHold, GateHolds, Finites;
    FinitesPush(samples, NonFinite);
  }

  /** One more sample, flagged as first exactly when no finite one came before, keeps the
      statistics exact. */
  lemma AccumulateHolds(a: Acc, start: bool, samples: seq<Sample>, s: Sample)
    requires Holds(a, start, samples)
    ensures Holds(Accumulated(a, s, Finites(samples) == []), start, samples + [s])
  {
    hide Holds, Accumulated, Finites;
    match s
    case NonFinite => NonFiniteHolds(a, start, samples);
    case Finite(v) => FiniteHolds(a, start, samples, v);
  }

  /** Whether the gate is high after the samples, without stepping through them: some sample
      was at 1 V or above, or it was high to begin with, and none since is at 0.1 V or below. */
  lemma {:induction false} GateIs(start: bool, xs: seq<real>)
    ensures GateOver(start, xs) <==>
      || (start && forall j :: 0 <= j < |xs| ==> xs[j] > 0.1)
      || exists k :: 0 <= k < |xs| && xs[k] >= 1.0 && forall j :: k < j < |xs| ==> xs[j] > 0.1
  {
    if xs != [] {
      var before, last := xs[..|xs| - 1], xs[|xs| - 1];
      GateIs(start, before);
      assert forall j :: 0 <= j < |before| ==> xs[j] == before[j];
    }
  }

  /** Cutting the stream into windows loses no edge and counts none twice. */
  lemma {:induction false} EdgesAdd(start: bool, xs: seq<real>, ys: seq<real>)
    ensures GateOver(start, xs + ys) == GateOver(GateOver(start, xs), ys)
    ensures Edges(start, xs + ys) == Edges(start, xs) + Edges(GateOver(start, xs), ys)
  {
    if ys == [] {
      assert xs + ys == xs;
    } else {
      var before, last := ys[..|ys| - 1], ys[|ys| - 1];
      EdgesAdd(start, xs, before);
      assert xs + ys == (xs + before) + [last] && ys == before + [last];
      CountsPush(start, xs + before, last);
      CountsPush(GateOver(start, xs), before, last);
    }
  }

  // ----- finalizing -----

  datatype Stats = Stats(minV: real, maxV: real, peakAbs: real, meanSquare: real, mean: real, clipped: nat,
    nonFinite: nat, risingEdges: nat)

  function FinalizeChannel(a: Acc): Stats {
    Stats(a.range.minV, a.range.maxV, a.range.peakAbs,
      if a.totals.frames > 0 then a.totals.sumSquares / a.totals.frames as real else 0.0,
      if a.totals.frames > 0 then a.totals.sum / a.totals.frames as real else 0.0,
      a.totals.clipped, a.nonFinite, a.gate.risingEdges)
  }

  /** What a window's statistics must say about its samples, with no reference to how
      they were gathered. */
  ghost predicate Reports(s: Stats, start: bool, samples: seq<Sample>) {
    var xs := Finites(samples);
    && RangeHolds(Range(s.minV, s.maxV, s.peakAbs), xs)
    && s.mean == (if xs == [] then 0.0 else Sum(xs) / |xs| as real)
    && s.meanSquare == (if xs == [] then 0.0 else SumSquares(xs) / |xs| as real)
    && s.clipped == Clips(xs) && s.nonFinite + |xs| == |samples| && s.risingEdges == Edges(start, xs)
  }

  lemma FinalizeReports(a: Acc, start: bool, samples: seq<Sample>)
    requires Holds(a, start, samples)
    ensures Reports(FinalizeChannel(a), start, samples)
  {}

  lemma AtMostQuotient(x: real, n: real, s: real)
    requires n > 0.0 && x * n <= s
    ensures x <= s / n
  {
    assert s / n * n == s;
    if x > s / n {
      Scale(s / n, x, n);
    }
  }

  lemma AtLeastQuotient(x: real, n: real, s: real)
    requires n > 0.0 && s <= x * n
    ensures s / n <= x
  {
    assert s / n * n == s;
    if s / n > x {
      Scale(x, s / n, n);
    }
  }

  lemma Scale(x: real, y: real, n: real)
    requires n > 0.0 && x < y
    ensures x * n < y * n
  {}

  lemma {:induction false} SumBetween(xs: seq<real>, lo: real, hi: real)
    requires forall i :: 0 <= i < |xs| ==> lo <= xs[i] <= hi
    ensures lo * |xs| as real <= Sum(xs) <= hi * |xs| as real
  {
    if xs != [] {
      SumBetween(xs[..|xs| - 1], lo, hi);
      Distribute(lo, (|xs| - 1) as real);
      Distribute(hi, (|xs| - 1) as real);
    }
  }

  lemma Distribute(x: real, n: real)
    ensures x * (n + 1.0) == x * n + x
  {}

  /** The sum of the squared distances from `m`. */
  function Spread(xs: seq<real>, m: real): (d: real)
    ensures d >= 0.0
  {
    if xs == [] then 0.0 else Spread(xs[..|xs| - 1], m) + Square(xs[|xs| - 1] - m)
  }

  function Times(x: real, y: real): real {
    x * y
  }

  lemma Expand(x: real, m: real)
    ensures Square(x - m) == Square(x) - 2.0 * Times(m, x) + Square(m)
  {}

  lemma TimesAdd(m: real, a: real, b: real)
    ensures Times(m, a + b) == Times(m, a) + Times(m, b)
  {}

  lemma {:induction false} SpreadIs(xs: seq<real>, m: real)
    ensures Spread(xs, m) == SumSquares(xs) - 2.0 * Times(m, Sum(xs)) + Times(Square(m), |xs| as real)
  {
    if xs != [] {
      hide Square, Times;
      var before, x := xs[..|xs| - 1], xs[|xs| - 1];
      SpreadIs(before, m);
      Expand(x, m);
      TimesAdd(Square(m), |before| as real, 1.0);
      TimesOne(Square(m));
      TimesAdd(m, Sum(before), x);
      assert |xs| as real == |before| as real + 1.0;
    }
  }

  lemma TimesOne(m: real)
    ensures Times(m, 1.0) == m
  {}

  /** The squared mean is at most the mean square, as the spread about the mean shows. */
  lemma MeanSquareBound(xs: seq<real>)
    requires xs != []
    ensures Square(Sum(xs) / |xs| as real) <= SumSquares(xs) / |xs| as real
  {
    hide Square;
    var n := |xs| as real;
    var mean := Sum(xs) / n;
    SpreadIs(xs, mean);
    MeanTimes(mean, n, Sum(xs));
    AtMostQuotient(Square(mean), n, SumSquares(xs));
  }

  lemma MeanTimes(mean: real, n: real, sum: real)
    requires n > 0.0 && mean == sum / n
    ensures Times(Square(mean), n) == Times(mean, sum)
  {
    assert mean * n == sum;
    assert mean * mean * n == mean * (mean * n);
  }

  lemma MeanBetween(xs: seq<real>, lo: real, hi: real)
    requires xs != [] && forall i :: 0 <= i < |xs| ==> lo <= xs[i] <= hi
    ensures lo <= Sum(xs) / |xs| as real <= hi
  {
    SumBetween(xs, lo, hi);
    AtMostQuotient(lo, |xs| as real, Sum(xs));
    AtLeastQuotient(hi, |xs| as real, Sum(xs));
  }

  /** The mean lies between the extremes, and its square is at most the mean square. */
  lemma MeanIsSound(s: Stats, start: bool, samples: seq<Sample>)
    requires Reports(s, start, samples) && Finites(samples) != []
    ensures s.minV <= s.mean <= s.maxV && Square(s.mean) <= s.meanSquare
  {
    hide Square;
    var xs := Finites(samples);
    MeanBetween(xs, s.minV, s.maxV);
    MeanSquareBound(xs);
  }
}
