/** The probe module: per input and channel it gathers statistics over windows of a fixed
    number of ticks and publishes them at the end of each window. Every input goes through
    the same steps, so the results are about one input, for all of its channels. */
module Probe {
  import opened Telemetry

  const PROBE_MAX_CHANNELS := 16
  const NUM_PROBE_INPUTS := 8
  const LIMIT_PROBE_WINDOW_MS := 50
  const SEQUENCES := 0x1_0000_0000

  /** The voltages on an input's channels at one tick; a disconnected input has none. */
  type Tick = seq<Sample>

  /** One input's window: the most channels it had, the channels that have shown a finite
      sample, and their accumulators. */
  datatype Row = Row(channels: nat, seen: set<int>, accs: seq<Acc>)

  datatype Snapshot = Snapshot(sequence: nat, windowFrames: nat, sampleRate: real, channelCount: nat,
    channels: seq<Stats>)

  /** One input's part of the module. */
  datatype Lane = Lane(row: Row, windowFrame: nat, windowTarget: nat, sequence: nat, published: seq<Snapshot>)

  /** What can happen to an input: a tick at some sample rate, or a change of sample rate,
      which sets the length of the windows. */
  datatype Event = Sampled(tick: Tick, rate: real) | RateChanged(target: nat)

  const INITIAL_WINDOW_TARGET := 2205
  const MIN_WINDOW_TARGET := 64

  const NO_STATS := Stats(0.0, 0.0, 0.0, 0.0, 0.0, 0, 0, 0)

  function Count(tick: Tick): nat {
    if |tick| > PROBE_MAX_CHANNELS then PROBE_MAX_CHANNELS else |tick|
  }

  predicate Shaped(row: Row) {
    |row.accs| == PROBE_MAX_CHANNELS
  }

  function RowAfter(row: Row, tick: Tick): (r: Row)
    requires Shaped(row)
    ensures Shaped(r)
  {
    Row(if Count(tick) > row.channels then Count(tick) else row.channels,
      row.seen + set c | 0 <= c < Count(tick) && tick[c].Finite?,
      seq(PROBE_MAX_CHANNELS, c requires 0 <= c < PROBE_MAX_CHANNELS =>
        if c < Count(tick) then Accumulated(row.accs[c], tick[c], c !in row.seen) else row.accs[c]))
  }

  function Begun(row: Row): (r: Row)
    requires Shaped(row)
    ensures Shaped(r)
  {
    Row(0, {}, seq(PROBE_MAX_CHANNELS, c requires 0 <= c < PROBE_MAX_CHANNELS => Emptied(row.accs[c].gate.high)))
  }

  function SnapshotOf(row: Row, sequence: nat, windowFrames: nat, rate: real): Snapshot
    requires Shaped(row)
  {
    Snapshot(sequence, windowFrames, rate, row.channels,
      seq(PROBE_MAX_CHANNELS, c requires 0 <= c < PROBE_MAX_CHANNELS =>
        if c < row.channels then FinalizeChannel(row.accs[c]) else NO_STATS))
  }

  function NextSequence(sequence: nat): nat {
    (sequence + 1) % SEQUENCES
  }

  /** One tick; the last of a window publishes it and begins the next. */
  function Ticked(lane: Lane, tick: Tick, rate: real): (l: Lane)
    requires Shaped(lane.row)
    ensures Shaped(l.row)
  {
    var row := RowAfter(lane.row, tick);
    if lane.windowFrame + 1 >= lane.windowTarget then
      Lane(Begun(row), 0, lane.windowTarget, NextSequence(lane.sequence),
        lane.published + [SnapshotOf(row, NextSequence(lane.sequence), lane.windowFrame + 1, rate)])
    else lane.(row := row, windowFrame := lane.windowFrame + 1)
  }

  /** A change of sample rate drops the window under way, unpublished. */
  function Restarted(lane: Lane, target: nat): (l: Lane)
    requires Shaped(lane.row)
    ensures Shaped(l.row)
  {
    lane.(row := Begun(lane.row), windowFrame := 0, windowTarget := target)
  }

  /** At the start of a window. */
  ghost predicate AtStart(lane: Lane)
    requires Shaped(lane.row)
  {
    lane.row == Begun(lane.row) && lane.windowFrame == 0
  }

  const EMPTY_ROW := Row(0, {}, seq(PROBE_MAX_CHANNELS, c => Emptied(false)))

  class ProbeModule {
    const rows: array<Row>
    const published: array<seq<Snapshot>>
    var windowFrame: nat
    var windowTarget: nat
    var sequence: nat

    ghost predicate Valid()
      reads this, rows
    {
      && rows.Length == published.Length == NUM_PROBE_INPUTS && windowTarget > 0
      && forall i :: 0 <= i < rows.Length ==> Shaped(rows[i])
    }

    /** One input's view of the module. */
    function LaneOf(i: nat): Lane
      requires i < rows.Length && i < published.Length
      reads this, rows, published
    {
      Lane(rows[i], windowFrame, windowTarget, sequence, published[i])
    }

    /** Every input begins its first window, with all gates low and nothing published. */
    constructor ()
      ensures Valid() && fresh(rows) && fresh(published) && windowTarget == INITIAL_WINDOW_TARGET
      ensures forall i :: 0 <= i < NUM_PROBE_INPUTS ==>
        LaneOf(i) == Lane(EMPTY_ROW, 0, INITIAL_WINDOW_TARGET, 0, []) && AtStart(LaneOf(i))
    {
      rows := new Row[NUM_PROBE_INPUTS](_ => EMPTY_ROW);
      published := new seq<Snapshot>[NUM_PROBE_INPUTS](_ => []);
      windowFrame, windowTarget, sequence := 0, INITIAL_WINDOW_TARGET, 0;
      new;
      BeginWindow();
    }

    /** Feeds every input one tick; after the window's last tick, publishes and starts over. */
    method Process(ticks: seq<Tick>, sampleRate: real)
      requires Valid() && |ticks| == NUM_PROBE_INPUTS
      modifies this`windowFrame, this`sequence, rows, published
      ensures Valid()
      ensures forall i :: 0 <= i < NUM_PROBE_INPUTS ==> LaneOf(i) == Ticked(old(LaneOf(i)), ticks[i], sampleRate)
    {
      for i := 0 to rows.Length
        invariant Valid() && published[..] == old(published[..])
        invariant windowFrame == old(windowFrame) && sequence == old(sequence)
        invariant forall k :: 0 <= k < rows.Length ==>
          rows[k] == if k < i then RowAfter(old(rows[k]), ticks[k]) else old(rows[k])
      {
        rows[i] := FeedRow(rows[i], ticks[i]);
      }
      windowFrame := windowFrame + 1;
      if windowFrame >= windowTarget {
        sequence := NextSequence(sequence);
        Publish(sampleRate);
        BeginWindow();
      }
    }

    method Publish(sampleRate: real)
      requires Valid()
      modifies published
      ensures Valid()
      ensures forall k :: 0 <= k < NUM_PROBE_INPUTS ==>
        published[k] == old(published[k]) + [SnapshotOf(rows[k], sequence, windowFrame, sampleRate)]
    {
      for i := 0 to published.Length
        invariant Valid()
        invariant forall k :: 0 <= k < published.Length ==>
          published[k] == old(published[k]) + if k < i then [SnapshotOf(rows[k], sequence, windowFrame, sampleRate)]
            else []
      {
        published[i] := published[i] + [SnapshotOf(rows[i], sequence, windowFrame, sampleRate)];
      }
    }

    method BeginWindow()
      requires Valid()
      modifies this`windowFrame, rows
      ensures Valid() && windowFrame == 0 && forall k :: 0 <= k < NUM_PROBE_INPUTS ==> rows[k] == Begun(old(rows[k]))
    {
      windowFrame := 0;
      for i := 0 to rows.Length
        invariant Valid() && windowFrame == 0
        invariant forall k :: 0 <= k < rows.Length ==> rows[k] == if k < i then Begun(old(rows[k])) else old(rows[k])
      {
        rows[i] := Begun(rows[i]);
      }
    }

    /** A new sample rate sets the window's length, never below 64 ticks, and starts over. */
    method OnSampleRateChange(rate: real)
      requires Valid() && rate >= 0.0
      modifies this`windowTarget, this`windowFrame, rows
      ensures Valid() && windowTarget >= MIN_WINDOW_TARGET
      ensures var ticks := rate * LIMIT_PROBE_WINDOW_MS as real / 1000.0;
        if ticks < 64.0 then windowTarget == 64 else windowTarget as real <= ticks < windowTarget as real + 1.0
      ensures forall i :: 0 <= i < NUM_PROBE_INPUTS ==> LaneOf(i) == Restarted(old(LaneOf(i)), windowTarget)
    {
      var ticks := rate * LIMIT_PROBE_WINDOW_MS as real / 1000.0;
      windowTarget := if ticks < MIN_WINDOW_TARGET as real then MIN_WINDOW_TARGET else ticks.Floor;
      BeginWindow();
    }
  }

  /** The channel loop of one input: `first` is decided per channel, from its own samples. */
  method FeedRow(row: Row, tick: Tick) returns (r: Row)
    requires Shaped(row)
    ensures r == RowAfter(row, tick)
  {
    hide Accumulated;
    var channels := |tick|;
    if channels > PROBE_MAX_CHANNELS {
      channels := PROBE_MAX_CHANNELS;
    }
    var most := if channels > row.channels then channels else row.channels;
    var seen, accs := row.seen, row.accs;
    for c := 0 to channels
      invariant |accs| == PROBE_MAX_CHANNELS
      invariant forall k :: k in seen <==> k in row.seen || (0 <= k < c && tick[k].Finite?)
      invariant forall k :: 0 <= k < PROBE_MAX_CHANNELS ==>
        accs[k] == if k < c then Accumulated(row.accs[k], tick[k], k !in row.seen) else row.accs[k]
    {
      var first := c !in seen;
      accs := accs[c := Accumulated(accs[c], tick[c], first)];
      if first && tick[c].Finite? {
        seen := seen + {c};
      }
    }
    r := Row(most, seen, accs);
    assert r.seen == RowAfter(row, tick).seen && r.accs == RowAfter(row, tick).accs;
  }

  // ----- one window -----

  /** The samples channel `c` has shown over the ticks. */
  function ChannelSamples(ticks: seq<Tick>, c: nat): seq<Sample> {
    if ticks == [] then []
    else
      var last := ticks[|ticks| - 1];
      ChannelSamples(ticks[..|ticks| - 1], c) + if c < Count(last) then [last[c]] else []
  }

  function MostChannels(ticks: seq<Tick>): nat {
    if ticks == [] then 0
    else
      var before, last := MostChannels(ticks[..|ticks| - 1]), Count(ticks[|ticks| - 1]);
      if last > before then last else before
  }

  ghost predicate ChannelHolds(row: Row, start: bool, ticks: seq<Tick>, c: nat)
    requires Shaped(row) && c < PROBE_MAX_CHANNELS
  {
    var samples := ChannelSamples(ticks, c);
    Holds(row.accs[c], start, samples) && (c in row.seen <==> Finites(samples) != [])
  }

  /** The gate of a channel after the ticks. */
  function GateAt(start: bool, ticks: seq<Tick>, c: nat): bool {
    GateOver(start, Finites(ChannelSamples(ticks, c)))
  }

  lemma ChannelStep(row: Row, start: bool, ticks: seq<Tick>, tick: Tick, c: nat)
    requires Shaped(row) && c < PROBE_MAX_CHANNELS && ChannelHolds(row, start, ticks, c)
    ensures ChannelHolds(RowAfter(row, tick), start, ticks + [tick], c)
  {
    hide Holds, Accumulated;
    assert (ticks + [tick])[..|ticks|] == ticks;
    var samples := ChannelSamples(ticks, c);
    if c < Count(tick) {
      AccumulateHolds(row.accs[c], start, samples, tick[c]);
      FinitesPush(samples, tick[c]);
    } else {
      assert ChannelSamples(ticks + [tick], c) == samples;
    }
  }

  /** A channel with a sample is below the channel count. */
  lemma {:induction false} SamplesBelowMost(ticks: seq<Tick>, c: nat)
    ensures ChannelSamples(ticks, c) != [] <==> c < MostChannels(ticks)
    ensures MostChannels(ticks) <= PROBE_MAX_CHANNELS
  {
    if ticks != [] {
      SamplesBelowMost(ticks[..|ticks| - 1], c);
    }
  }

  lemma NoStatsReports(start: bool)
    ensures Reports(NO_STATS, start, [])
  {}

  lemma SnapshotReports(row: Row, start: bool, ticks: seq<Tick>, c: nat, sequence: nat, windowFrames: nat, rate: real)
    requires Shaped(row) && c < PROBE_MAX_CHANNELS && ChannelHolds(row, start, ticks, c)
    requires row.channels == MostChannels(ticks)
    ensures Reports(SnapshotOf(row, sequence, windowFrames, rate).channels[c], start, ChannelSamples(ticks, c))
  {
    hide Reports, Holds;
    if c < row.channels {
      FinalizeReports(row.accs[c], start, ChannelSamples(ticks, c));
    } else {
      SamplesBelowMost(ticks, c);
      NoStatsReports(start);
    }
  }
}
