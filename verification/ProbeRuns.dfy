/** Whole runs of one probe input: ticks and changes of sample rate, in any order. Full windows
    are published as they should be; a change of rate drops the window under way, and with
    it, exactly, the edges that window had counted. */
module ProbeRuns {
  import opened Telemetry
  import opened Probe

  function LaneAfter(lane: Lane, e: Event): (l: Lane)
    requires Shaped(lane.row)
    ensures Shaped(l.row)
  {
    match e
    case Sampled(tick, rate) => Ticked(lane, tick, rate)
    case RateChanged(target) => Restarted(lane, target)
  }

  function LaneRun(lane: Lane, events: seq<Event>): (l: Lane)
    requires Shaped(lane.row)
    ensures Shaped(l.row)
  {
    if events == [] then lane else LaneAfter(LaneRun(lane, events[..|events| - 1]), events[|events| - 1])
  }

  /** The uncut stream: every tick of the run. */
  function Stream(events: seq<Event>): seq<Tick> {
    if events == [] then []
    else
      var before, last := Stream(events[..|events| - 1]), events[|events| - 1];
      if last.Sampled? then before + [last.tick] else before
  }

  /** A stretch of ticks: a full window, with the length then in force and the rate at its
      last tick, or a window dropped by a change of rate. */
  datatype Piece = Full(ticks: seq<Tick>, target: nat, rate: real) | Dropped(ticks: seq<Tick>)

  /** A run cut into pieces and the window under way. */
  datatype Cutting = Cutting(pieces: seq<Piece>, current: seq<Tick>, target: nat)

  function Extended(w: Cutting, e: Event): Cutting {
    match e
    case Sampled(tick, rate) =>
      if |w.current| + 1 >= w.target then Cutting(w.pieces + [Full(w.current + [tick], w.target, rate)], [], w.target)
      else w.(current := w.current + [tick])
    case RateChanged(target) => Cutting(w.pieces + [Dropped(w.current)], [], target)
  }

  function Cut(events: seq<Event>, target: nat): Cutting {
    if events == [] then Cutting([], [], target)
      else Extended(Cut(events[..|events| - 1], target), events[|events| - 1])
  }

  function Flat(pieces: seq<Piece>): seq<Tick> {
    if pieces == [] then [] else Flat(pieces[..|pieces| - 1]) + pieces[|pieces| - 1].ticks
  }

  lemma FlatPush(pieces: seq<Piece>, x: Piece)
    ensures Flat(pieces + [x]) == Flat(pieces) + x.ticks
  {
    assert (pieces + [x])[..|pieces|] == pieces;
  }

  ghost predicate TargetsPositive(events: seq<Event>) {
    forall k :: 0 <= k < |events| && events[k].RateChanged? ==> events[k].target > 0
  }

  /** The pieces and the current window are the ticks, in order, and each full window has
      exactly the length that was in force. */
  ghost predicate CutOf(w: Cutting, ticks: seq<Tick>) {
    && Flat(w.pieces) + w.current == ticks
    && (w.target > 0 ==> |w.current| < w.target)
    && forall k :: 0 <= k < |w.pieces| && w.pieces[k].Full? && w.pieces[k].target > 0 ==>
       |w.pieces[k].ticks| == w.pieces[k].target
  }

  lemma ExtendedIsCut(w: Cutting, ticks: seq<Tick>, e: Event)
    requires CutOf(w, ticks) && w.target > 0 && (e.RateChanged? ==> e.target > 0)
    ensures CutOf(Extended(w, e), if e.Sampled? then ticks + [e.tick] else ticks) && Extended(w, e).target > 0
  {
    hide Flat;
    if e.Sampled? {
      FlatPush(w.pieces, Full(w.current + [e.tick], w.target, e.rate));
      assert Flat(w.pieces) + (w.current + [e.tick]) == ticks + [e.tick];
    } else {
      FlatPush(w.pieces, Dropped(w.current));
    }
  }

  /** The cut loses no tick. */
  lemma {:induction false} CutIs(events: seq<Event>, target: nat)
    requires target > 0 && TargetsPositive(events)
    ensures CutOf(Cut(events, target), Stream(events)) && Cut(events, target).target > 0
  {
    if events != [] {
      hide CutOf, Extended;
      var before, last := events[..|events| - 1], events[|events| - 1];
      CutIs(before, target);
      ExtendedIsCut(Cut(before, target), Stream(before), last);
    }
  }

  lemma {:induction false} SamplesAppend(a: seq<Tick>, b: seq<Tick>, c: nat)
    ensures ChannelSamples(a + b, c) == ChannelSamples(a, c) + ChannelSamples(b, c)
  {
    if b == [] {
      assert a + b == a;
    } else {
      var before := b[..|b| - 1];
      SamplesAppend(a, before, c);
      assert (a + b)[..|a + b| - 1] == a + before && (a + b)[|a + b| - 1] == b[|b| - 1];
    }
  }

  lemma {:induction false} FinitesAppend(a: seq<Sample>, b: seq<Sample>)
    ensures Finites(a + b) == Finites(a) + Finites(b)
  {
    if b == [] {
      assert a + b == a;
    } else {
      var before := b[..|b| - 1];
      FinitesAppend(a, before);
      assert (a + b)[..|a + b| - 1] == a + before;
    }
  }

  /** Gates and edges carry over from one stretch of ticks to the next. */
  lemma EdgesOverTicks(start: bool, a: seq<Tick>, b: seq<Tick>, c: nat)
    ensures GateAt(start, a + b, c) == GateAt(GateAt(start, a, c), b, c)
    ensures Edges(start, Finites(ChannelSamples(a + b, c)))
      == Edges(start, Finites(ChannelSamples(a, c))) + Edges(GateAt(start, a, c), Finites(ChannelSamples(b, c)))
  {
    SamplesAppend(a, b, c);
    FinitesAppend(ChannelSamples(a, c), ChannelSamples(b, c));
    EdgesAdd(start, Finites(ChannelSamples(a, c)), Finites(ChannelSamples(b, c)));
  }

  /** The snapshot reports on channel `c` over exactly the ticks of the window. */
  ghost predicate Describes(snap: Snapshot, gate: bool, window: seq<Tick>, rate: real, c: nat) {
    && snap.windowFrames == |window| && snap.sampleRate == rate && snap.channelCount == MostChannels(window)
    && |snap.channels| == PROBE_MAX_CHANNELS && c < PROBE_MAX_CHANNELS
    && Reports(snap.channels[c], gate, ChannelSamples(window, c))
  }

  /** After `prior`, one snapshot per full window, in order, each describing its window. */
  ghost predicate AllDescribed(published: seq<Snapshot>, prior: seq<Snapshot>, start: bool, pieces: seq<Piece>,
          c: nat) {
    if pieces == [] then published == prior
    else
      var before, last := pieces[..|pieces| - 1], pieces[|pieces| - 1];
      match last
      case Full(ticks, _, rate) =>
        && published != [] && Describes(published[|published| - 1], GateAt(start, Flat(before), c), ticks, rate, c)
        && AllDescribed(published[..|published| - 1], prior, start, before, c)
      case Dropped(_) => AllDescribed(published, prior, start, before, c)
  }

  /** The row holds exactly the window under way. */
  ghost predicate RowHolds(row: Row, gate: bool, window: seq<Tick>, c: nat) {
    Shaped(row) && c < PROBE_MAX_CHANNELS && ChannelHolds(row, gate, window, c) && row.channels == MostChannels(window)
  }

  ghost predicate LaneInv(lane: Lane, prior: seq<Snapshot>, start: bool, w: Cutting, c: nat) {
    && lane.windowFrame == |w.current| && lane.windowTarget == w.target
    && RowHolds(lane.row, GateAt(start, Flat(w.pieces), c), w.current, c)
    && AllDescribed(lane.published, prior, start, w.pieces, c)
  }

  lemma RowStep(row: Row, gate: bool, window: seq<Tick>, tick: Tick, c: nat)
    requires RowHolds(row, gate, window, c)
    ensures RowHolds(RowAfter(row, tick), gate, window + [tick], c)
  {
    hide ChannelHolds;
    ChannelStep(row, gate, window, tick, c);
    assert (window + [tick])[..|window|] == window;
  }

  lemma BegunHolds(row: Row, start: bool, done: seq<Tick>, window: seq<Tick>, c: nat)
    requires RowHolds(row, GateAt(start, done, c), window, c)
    ensures RowHolds(Begun(row), GateAt(start, done + window, c), [], c)
  {
    EdgesOverTicks(start, done, window, c);
    EmptiedHolds(row.accs[c].gate.high);
    hide RangeHolds, TotalsHold;
  }

  lemma PublishDescribes(published: seq<Snapshot>, prior: seq<Snapshot>, start: bool, pieces: seq<Piece>, c: nat,
          snap: Snapshot, x: Piece)
    requires AllDescribed(published, prior, start, pieces, c)
    requires x.Full? && Describes(snap, GateAt(start, Flat(pieces), c), x.ticks, x.rate, c)
    ensures AllDescribed(published + [snap], prior, start, pieces + [x], c)
  {
    hide Describes;
    assert (pieces + [x])[..|pieces|] == pieces && (published + [snap])[..|published|] == published;
  }

  lemma DropDescribes(published: seq<Snapshot>, prior: seq<Snapshot>, start: bool, pieces: seq<Piece>, c: nat, x: Piece)
    requires AllDescribed(published, prior, start, pieces, c) && x.Dropped?
    ensures AllDescribed(published, prior, start, pieces + [x], c)
  {
    hide Describes;
    assert (pieces + [x])[..|pieces|] == pieces;
  }

  lemma SnapshotDescribes(row: Row, gate: bool, window: seq<Tick>, c: nat, sequence: nat, rate: real)
    requires RowHolds(row, gate, window, c)
    ensures Describes(SnapshotOf(row, sequence, |window|, rate), gate, window, rate, c)
  {
    hide Reports, ChannelHolds;
    SnapshotReports(row, gate, window, c, sequence, |window|, rate);
  }

  /** A tick that fills the window: the row as it then stands is published. */
  lemma FillKeepsInv(lane: Lane, prior: seq<Snapshot>, start: bool, w: Cutting, c: nat, tick: Tick, rate: real)
    requires Shaped(lane.row) && LaneInv(lane, prior, start, w, c) && |w.current| + 1 >= w.target
    ensures LaneInv(Ticked(lane, tick, rate), prior, start, Extended(w, Sampled(tick, rate)), c)
  {
    hide RowHolds, AllDescribed, Describes, RowAfter, Begun, SnapshotOf;
    var gate, window := GateAt(start, Flat(w.pieces), c), w.current + [tick];
    var row := RowAfter(lane.row, tick);
    RowStep(lane.row, gate, w.current, tick, c);
    var snap, x := SnapshotOf(row, NextSequence(lane.sequence), |window|, rate), Full(window, w.target, rate);
    SnapshotDescribes(row, gate, window, c, NextSequence(lane.sequence), rate);
    PublishDescribes(lane.published, prior, start, w.pieces, c, snap, x);
    BegunHolds(row, start, Flat(w.pieces), window, c);
    FlatPush(w.pieces, x);
  }

  lemma RestartKeepsInv(lane: Lane, prior: seq<Snapshot>, start: bool, w: Cutting, c: nat, target: nat)
    requires Shaped(lane.row) && LaneInv(lane, prior, start, w, c)
    ensures LaneInv(Restarted(lane, target), prior, start, Extended(w, RateChanged(target)), c)
  {
    hide RowHolds, AllDescribed, Begun;
    DropDescribes(lane.published, prior, start, w.pieces, c, Dropped(w.current));
    BegunHolds(lane.row, start, Flat(w.pieces), w.current, c);
    FlatPush(w.pieces, Dropped(w.current));
  }

  lemma StepKeepsInv(lane: Lane, prior: seq<Snapshot>, start: bool, w: Cutting, c: nat, e: Event)
    requires Shaped(lane.row) && LaneInv(lane, prior, start, w, c)
    ensures LaneInv(LaneAfter(lane, e), prior, start, Extended(w, e), c)
  {
    if e.RateChanged? {
      hide LaneInv, Extended, Restarted;
      RestartKeepsInv(lane, prior, start, w, c, e.target);
    } else if |w.current| + 1 >= w.target {
      hide LaneInv, Extended, Ticked;
      FillKeepsInv(lane, prior, start, w, c, e.tick, e.rate);
    } else {
      hide RowHolds, AllDescribed, RowAfter, Begun, SnapshotOf;
      RowStep(lane.row, GateAt(start, Flat(w.pieces), c), w.current, e.tick, c);
    }
  }

  lemma StartInv(lane: Lane, c: nat)
    requires Shaped(lane.row) && AtStart(lane) && c < PROBE_MAX_CHANNELS
    ensures LaneInv(lane, lane.published, lane.row.accs[c].gate.high, Cutting([], [], lane.windowTarget), c)
  {
    EmptiedHolds(lane.row.accs[c].gate.high);
    hide RangeHolds, TotalsHold;
  }

  /** Over every run from the start of a window, rate changes included: each full window of
      ticks was published, in order, and its snapshot reports for every channel exactly the
      samples of that window; the window under way holds exactly the samples since. */
  lemma {:induction false} RunHolds(lane: Lane, events: seq<Event>, c: nat)
    requires Shaped(lane.row) && AtStart(lane) && c < PROBE_MAX_CHANNELS
    ensures LaneInv(LaneRun(lane, events), lane.published, lane.row.accs[c].gate.high, Cut(events, lane.windowTarget),
      c)
  {
    hide AtStart, LaneInv, LaneAfter, Extended;
    if events == [] {
      StartInv(lane, c);
    } else {
      var before, last := events[..|events| - 1], events[|events| - 1];
      RunHolds(lane, before, c);
      StepKeepsInv(LaneRun(lane, before), lane.published, lane.row.accs[c].gate.high, Cut(before, lane.windowTarget),
        c, last);
    }
  }

  /** Over every run the snapshots after the first `n` are numbered one after the other, from
      the number after the lane's, in a 32-bit counter. */
  ghost predicate Numbered(published: seq<Snapshot>, n: nat, from: nat) {
    forall i :: n <= i < |published| ==> published[i].sequence == Number(from, 1 + i - n)
  }

  /** The number `k` after `from`, in 32 bits. */
  function Number(from: nat, k: nat): nat {
    (from + k) % 0x1_0000_0000
  }

  lemma {:induction false} RunNumbers(lane: Lane, events: seq<Event>)
    requires Shaped(lane.row) && lane.sequence < 0x1_0000_0000
    ensures var l := LaneRun(lane, events);
      && |lane.published| <= |l.published| && l.published[..|lane.published|] == lane.published
      && Numbered(l.published, |lane.published|, lane.sequence)
      && l.sequence == Number(lane.sequence, |l.published| - |lane.published|)
  {
    hide LaneAfter, LaneRun, Number, Numbered;
    if events == [] {
      NothingNumbered(lane);
    } else {
      RunLast(lane, events);
      var before, e := events[..|events| - 1], events[|events| - 1];
      var l := LaneRun(lane, before);
      RunNumbers(lane, before);
      StepNumbers(l, e);
      OneMore(lane.sequence, |l.published| - |lane.published|);
      if LaneAfter(l, e).published != l.published {
        NumberedNext(l.published, LaneAfter(l, e).published, |lane.published|, lane.sequence);
      }
    }
  }

  lemma NothingNumbered(lane: Lane)
    requires Shaped(lane.row) && lane.sequence < 0x1_0000_0000
    ensures LaneRun(lane, []) == lane && Numbered(lane.published, |lane.published|, lane.sequence)
    ensures Number(lane.sequence, 0) == lane.sequence && lane.published[..|lane.published|] == lane.published
  {}

  lemma RunLast(lane: Lane, events: seq<Event>)
    requires Shaped(lane.row) && events != []
    ensures LaneRun(lane, events) == LaneAfter(LaneRun(lane, events[..|events| - 1]), events[|events| - 1])
  {
    hide LaneAfter;
  }

  lemma NumberedNext(published: seq<Snapshot>, more: seq<Snapshot>, n: nat, from: nat)
    requires Numbered(published, n, from) && n <= |published|
    requires |more| == |published| + 1 && more[..|published|] == published
    requires more[|published|].sequence == Number(from, 1 + |published| - n)
    ensures Numbered(more, n, from)
  {
    hide Number;
    assert forall i :: 0 <= i < |published| ==> more[i] == more[..|published|][i];
  }

  /** One event publishes nothing, or one snapshot under the next number. */
  lemma StepNumbers(lane: Lane, e: Event)
    requires Shaped(lane.row)
    ensures var l := LaneAfter(lane, e);
      || (l.published == lane.published && l.sequence == lane.sequence)
      || (&& |l.published| == |lane.published| + 1 && l.published[..|lane.published|] == lane.published
          && l.published[|lane.published|].sequence == l.sequence == Number(lane.sequence, 1))
  {
    hide RowAfter, Begun, FinalizeChannel;
  }

  lemma OneMore(from: nat, k: nat)
    ensures Number(Number(from, k), 1) == Number(from, k + 1)
  {}

  // ----- edges -----

  /** The edges the snapshots report on a channel, added up. */
  function ReportedEdges(published: seq<Snapshot>, c: nat): nat {
    if published == [] then 0
    else
      var last := published[|published| - 1];
      ReportedEdges(published[..|published| - 1], c) + if c < |last.channels| then last.channels[c].risingEdges else 0
  }

  /** The edges counted in the window under way. */
  function PendingEdges(lane: Lane, c: nat): nat
    requires Shaped(lane.row) && c < PROBE_MAX_CHANNELS
  {
    lane.row.accs[c].gate.risingEdges
  }

  /** The edges counted in the windows that rate changes dropped. */
  function LostEdges(lane: Lane, events: seq<Event>, c: nat): nat
    requires Shaped(lane.row) && c < PROBE_MAX_CHANNELS
  {
    if events == [] then 0
    else
      var before := events[..|events| - 1];
      LostEdges(lane, before, c) + if events[|events| - 1].RateChanged? then PendingEdges(LaneRun(lane, before), c)
        else 0
  }

  /** The edges of a stretch of ticks, from a gate. */
  function EdgesOf(start: bool, ticks: seq<Tick>, c: nat): nat {
    Edges(start, Finites(ChannelSamples(ticks, c)))
  }

  lemma RowCounts(row: Row, gate: bool, window: seq<Tick>, c: nat)
    requires RowHolds(row, gate, window, c)
    ensures row.accs[c].gate.risingEdges == EdgesOf(gate, window, c)
  {
    hide RangeHolds, TotalsHold;
  }

  lemma DescribedCounts(snap: Snapshot, gate: bool, window: seq<Tick>, rate: real, c: nat)
    requires Describes(snap, gate, window, rate, c)
    ensures c < |snap.channels| && snap.channels[c].risingEdges == EdgesOf(gate, window, c)
  {
    hide RangeHolds;
  }

  lemma ReportedPush(published: seq<Snapshot>, snap: Snapshot, c: nat)
    requires c < |snap.channels|
    ensures ReportedEdges(published + [snap], c) == ReportedEdges(published, c) + snap.channels[c].risingEdges
  {
    assert (published + [snap])[..|published|] == published;
  }

  lemma BegunCounts(row: Row, c: nat)
    requires Shaped(row) && c < PROBE_MAX_CHANNELS
    ensures Begun(row).accs[c].gate.risingEdges == 0
  {}

  /** A tick adds its edges to what is published or pending, wherever it falls. */
  lemma TickAddsEdges(lane: Lane, prior: seq<Snapshot>, start: bool, w: Cutting, c: nat, tick: Tick, rate: real)
    requires Shaped(lane.row) && c < PROBE_MAX_CHANNELS && LaneInv(lane, prior, start, w, c)
    ensures var l, stream := Ticked(lane, tick, rate), Flat(w.pieces) + w.current;
      ReportedEdges(l.published, c) + PendingEdges(l, c) + EdgesOf(start, stream, c)
        == ReportedEdges(lane.published, c) + PendingEdges(lane, c) + EdgesOf(start, stream + [tick], c)
  {
    hide RowHolds, AllDescribed, Describes, RowAfter, Begun, SnapshotOf, Edges, Finites, ChannelSamples, GateAt,
      ReportedEdges;
    var done, gate, window := Flat(w.pieces), GateAt(start, Flat(w.pieces), c), w.current + [tick];
    var row := RowAfter(lane.row, tick);
    RowCounts(lane.row, gate, w.current, c);
    RowStep(lane.row, gate, w.current, tick, c);
    RowCounts(row, gate, window, c);
    EdgesOverTicks(start, done, w.current, c);
    EdgesOverTicks(start, done, window, c);
    assert done + window == done + w.current + [tick];
    if |window| >= w.target {
      var snap := SnapshotOf(row, NextSequence(lane.sequence), |window|, rate);
      SnapshotDescribes(row, gate, window, c, NextSequence(lane.sequence), rate);
      DescribedCounts(snap, gate, window, rate, c);
      ReportedPush(lane.published, snap, c);
      BegunCounts(row, c);
    }
  }

  /** Over every run, rate changes included, the edges published, dropped and pending add up
      to those of the uncut stream. */
  lemma {:induction false} EdgesConserved(lane: Lane, events: seq<Event>, c: nat)
    requires Shaped(lane.row) && AtStart(lane) && c < PROBE_MAX_CHANNELS
    ensures var l := LaneRun(lane, events);
      ReportedEdges(l.published, c) + LostEdges(lane, events, c) + PendingEdges(l, c)
        == ReportedEdges(lane.published, c) + EdgesOf(lane.row.accs[c].gate.high, Stream(events), c)
  {
    if events == [] {
      BegunCounts(lane.row, c);
      hide ReportedEdges, Begun;
    } else {
      hide AtStart, LaneInv, Ticked, Begun, Edges, Finites, ChannelSamples, ReportedEdges, PendingEdges;
      var before, last := events[..|events| - 1], events[|events| - 1];
      var start, w := lane.row.accs[c].gate.high, Cut(before, lane.windowTarget);
      EdgesConserved(lane, before, c);
      if last.Sampled? {
        RunHolds(lane, before, c);
        CutIsStream(before, lane.windowTarget);
        TickAddsEdges(LaneRun(lane, before), lane.published, start, w, c, last.tick, last.rate);
      } else {
        RestartCounts(LaneRun(lane, before), last.target, c);
      }
    }
  }

  lemma RestartCounts(lane: Lane, target: nat, c: nat)
    requires Shaped(lane.row) && c < PROBE_MAX_CHANNELS
    ensures PendingEdges(Restarted(lane, target), c) == 0 && Restarted(lane, target).published == lane.published
  {
    BegunCounts(lane.row, c);
  }

  lemma {:induction false} CutIsStream(events: seq<Event>, target: nat)
    ensures var w := Cut(events, target); Flat(w.pieces) + w.current == Stream(events)
  {
    if events != [] {
      hide Flat;
      var before, last := events[..|events| - 1], events[|events| - 1];
      var w := Cut(before, target);
      CutIsStream(before, target);
      if last.Sampled? {
        FlatPush(w.pieces, Full(w.current + [last.tick], w.target, last.rate));
        assert Flat(w.pieces) + (w.current + [last.tick]) == Stream(before) + [last.tick];
        assert Stream(before) + [last.tick] + [] == Stream(before) + [last.tick];
      } else {
        FlatPush(w.pieces, Dropped(w.current));
        assert Stream(before) + [] == Stream(before);
      }
    } else {
      assert Flat([]) + [] == [];
    }
  }

  /** If the event is a change of rate, the window it drops has counted no edge. */
  ghost predicate QuietAt(lane: Lane, events: seq<Event>, k: nat, c: nat)
    requires Shaped(lane.row) && c < PROBE_MAX_CHANNELS && k < |events|
  {
    events[k].RateChanged? ==> PendingEdges(LaneRun(lane, events[..k]), c) == 0
  }

  ghost predicate QuietChanges(lane: Lane, events: seq<Event>, c: nat)
    requires Shaped(lane.row) && c < PROBE_MAX_CHANNELS
  {
    forall k :: 0 <= k < |events| ==> QuietAt(lane, events, k, c)
  }

  lemma QuietPrefix(lane: Lane, events: seq<Event>, k: nat, c: nat)
    requires Shaped(lane.row) && c < PROBE_MAX_CHANNELS && k < |events| - 1
    ensures QuietAt(lane, events[..|events| - 1], k, c) == QuietAt(lane, events, k, c)
  {
    hide LaneRun, PendingEdges;
    assert events[..|events| - 1][..k] == events[..k];
  }

  lemma QuietSplit(lane: Lane, events: seq<Event>, c: nat)
    requires Shaped(lane.row) && c < PROBE_MAX_CHANNELS && events != []
    ensures QuietChanges(lane, events, c)
      <==> QuietChanges(lane, events[..|events| - 1], c) && QuietAt(lane, events, |events| - 1, c)
  {
    hide QuietAt;
    var before, m := events[..|events| - 1], |events| - 1;
    if QuietChanges(lane, events, c) {
      forall k | 0 <= k < m
        ensures QuietAt(lane, before, k, c)
      {
        QuietPrefix(lane, events, k, c);
        assert QuietAt(lane, events, k, c);
      }
    }
    if QuietChanges(lane, before, c) && QuietAt(lane, events, m, c) {
      forall k | 0 <= k <= m
        ensures QuietAt(lane, events, k, c)
      {
        if k < m {
          QuietPrefix(lane, events, k, c);
          assert QuietAt(lane, before, k, c);
        }
      }
    }
  }

  lemma {:induction false} LostNothingIffQuiet(lane: Lane, events: seq<Event>, c: nat)
    requires Shaped(lane.row) && c < PROBE_MAX_CHANNELS
    ensures LostEdges(lane, events, c) == 0 <==> QuietChanges(lane, events, c)
  {
    if events != [] {
      hide LostEdges, QuietChanges, QuietAt;
      LostNothingIffQuiet(lane, events[..|events| - 1], c);
      QuietSplit(lane, events, c);
    }
  }

  /** Over every run, the published and pending edges are those of the uncut stream exactly
      if at each change of rate the window under way had counted none. */
  lemma NoEdgeLostIff(lane: Lane, events: seq<Event>, c: nat)
    requires Shaped(lane.row) && AtStart(lane) && c < PROBE_MAX_CHANNELS
    ensures var l := LaneRun(lane, events);
      ReportedEdges(l.published, c) + PendingEdges(l, c)
        == ReportedEdges(lane.published, c) + EdgesOf(lane.row.accs[c].gate.high, Stream(events), c)
      <==> QuietChanges(lane, events, c)
  {
    hide AtStart, LaneRun, ReportedEdges, PendingEdges, EdgesOf, LostEdges, QuietChanges;
    EdgesConserved(lane, events, c);
    LostNothingIffQuiet(lane, events, c);
  }

  /** A gate goes up, and a change of rate right after loses the edge: it is published
      nowhere and pending nowhere. */
  lemma RateChangeLosesAnEdge() returns (lane: Lane, events: seq<Event>)
    ensures lane == Lane(EMPTY_ROW, 0, INITIAL_WINDOW_TARGET, 0, []) && AtStart(lane)
    ensures events == [Sampled([Finite(5.0)], 44100.0), RateChanged(2400)]
    ensures var l := LaneRun(lane, events);
      && ReportedEdges(l.published, 0) + PendingEdges(l, 0) == 0
      && EdgesOf(lane.row.accs[0].gate.high, Stream(events), 0) == 1
  {
    lane := Lane(EMPTY_ROW, 0, INITIAL_WINDOW_TARGET, 0, []);
    events := [Sampled([Finite(5.0)], 44100.0), RateChanged(2400)];
    OneEdge();
    var l1 := Ticked(lane, events[0].tick, 44100.0);
    RestartCounts(l1, 2400, 0);
    TwoEvents(lane, events);
    hide Restarted, RowAfter, PendingEdges, EdgesOf, EMPTY_ROW;
    assert Stream(events) == [events[0].tick];
  }

  lemma OneEdge()
    ensures EdgesOf(false, [[Finite(5.0)]], 0) == 1
  {
    var samples := ChannelSamples([[Finite(5.0)]], 0);
    assert [[Finite(5.0)]][..0] == [] && samples == [Finite(5.0)];
    assert samples[..0] == [] && Finites(samples) == [5.0];
    assert [5.0][..0] == [];
  }

  lemma TwoEvents(lane: Lane, events: seq<Event>)
    requires Shaped(lane.row) && |events| == 2
    ensures LaneRun(lane, events) == LaneAfter(LaneAfter(lane, events[0]), events[1])
  {
    hide LaneAfter;
    var one := events[..|events| - 1];
    assert |one| == 1 && one[..|one| - 1] == [] && one[0] == events[0];
    assert LaneRun(lane, []) == lane;
    assert LaneRun(lane, one) == LaneAfter(lane, one[0]);
  }
}
