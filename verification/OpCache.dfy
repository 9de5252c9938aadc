/** The idempotency cache: a mutating command carries an operation id, and a command that
    reuses a recent id is answered from the cache instead of being carried out again.
    Requests are compared by fingerprint, taken to tell any two different requests apart.
    Times are milliseconds on a clock that never goes back. */
module OpCache {
  import opened Basics

  const LIMIT_IDEMPOTENCY_CACHE_MS := 600000
  const MAX_ENTRIES := 512

  datatype Entry<Op, Req, Frame> = Entry(operationId: Op, request: Req, frame: Frame, storedAt: int)

  datatype Found<Frame> = Miss | Mismatch | Replay(frame: Frame)

  /** A popped command: its id, if it has one, its request, the times at which the cache
      would be consulted and written, and what the handler would return if it ran. */
  datatype Command<Op, Req, Frame> = Command(
    operationId: Option<Op>, request: Req, lookupAt: int, recordAt: int, result: Frame, cacheable: bool)

  datatype Answer<Frame> = RefusedReuse | Replayed(frame: Frame) | Executed(frame: Frame)

  predicate Fresh<Op, Req, Frame>(e: Entry<Op, Req, Frame>, now: int) {
    now - e.storedAt < LIMIT_IDEMPOTENCY_CACHE_MS
  }

  function Lookup<Op(==), Req(==), Frame>(cache: seq<Entry<Op, Req, Frame>>, id: Op, request: Req,
          now: int): Found<Frame> {
    if cache == [] then Miss
    else if cache[0].operationId == id && Fresh(cache[0], now) then
      if cache[0].request == request then Replay(cache[0].frame) else Mismatch
    else Lookup(cache[1..], id, request, now)
  }

  function Kept<Op, Req, Frame>(cache: seq<Entry<Op, Req, Frame>>, now: int): (r: seq<Entry<Op, Req, Frame>>)
    ensures |r| <= |cache|
  {
    if cache == [] then []
      else Kept(cache[..|cache| - 1], now) + if Fresh(cache[|cache| - 1], now) then [cache[|cache| - 1]] else []
  }

  function Record<Op, Req, Frame>(cache: seq<Entry<Op, Req, Frame>>,
          e: Entry<Op, Req, Frame>): seq<Entry<Op, Req, Frame>> {
    var kept := Kept(cache, e.storedAt);
    (if |kept| >= MAX_ENTRIES then kept[1..] else kept) + [e]
  }

  function EntryOf<Op, Req, Frame>(cmd: Command<Op, Req, Frame>): Entry<Op, Req, Frame>
    requires cmd.operationId.Some?
  {
    Entry(cmd.operationId.value, cmd.request, cmd.result, cmd.recordAt)
  }

  function AnswerTo<Op(==), Req(==), Frame>(cache: seq<Entry<Op, Req, Frame>>,
          cmd: Command<Op, Req, Frame>): Answer<Frame> {
    if cmd.operationId.None? then Executed(cmd.result) else
    match Lookup(cache, cmd.operationId.value, cmd.request, cmd.lookupAt)
    case Mismatch => RefusedReuse
    case Replay(frame) => Replayed(frame)
    case Miss => Executed(cmd.result)
  }

  /** The command runs its handler and its result is remembered. */
  predicate Records<Op(==), Req(==), Frame>(cache: seq<Entry<Op, Req, Frame>>, cmd: Command<Op, Req, Frame>) {
    cmd.operationId.Some? && AnswerTo(cache, cmd).Executed? && cmd.cacheable
  }

  function After<Op(==), Req(==), Frame>(cache: seq<Entry<Op, Req, Frame>>,
          cmd: Command<Op, Req, Frame>): seq<Entry<Op, Req, Frame>> {
    if Records(cache, cmd) then Record(cache, EntryOf(cmd)) else cache
  }

  class OperationCache<Op(==), Req(==), Frame> {
    var entries: seq<Entry<Op, Req, Frame>>

    constructor ()
      ensures entries == []
    {
      entries := [];
    }

    method LookupOperation(id: Op, request: Req, now: int) returns (found: Found<Frame>)
      ensures found == Lookup(entries, id, request, now)
    {
      var i := 0;
      while i < |entries|
        invariant i <= |entries| && Lookup(entries, id, request, now) == Lookup(entries[i..], id, request, now)
      {
        var e := entries[i];
        i := i + 1;
        if e.operationId != id || now - e.storedAt >= LIMIT_IDEMPOTENCY_CACHE_MS {
          continue;
        }
        if e.request != request {
          return Mismatch;
        }
        return Replay(e.frame);
      }
      return Miss;
    }

    /** Drops what has expired, and the oldest result if the cache is still full. */
    method RecordOperation(id: Op, request: Req, frame: Frame, now: int)
      modifies this
      ensures entries == Record(old(entries), Entry(id, request, frame, now))
    {
      var kept := [];
      for i := 0 to |entries|
        invariant entries == old(entries) && kept == Kept(entries[..i], now)
      {
        assert entries[..i + 1][..i] == entries[..i] && entries[..i + 1][i] == entries[i];
        if now - entries[i].storedAt < LIMIT_IDEMPOTENCY_CACHE_MS {
          kept := kept + [entries[i]];
        }
      }
      assert entries[..|entries|] == entries;
      entries := kept;
      if |entries| >= MAX_ENTRIES {
        entries := entries[1..];
      }
      entries := entries + [Entry(id, request, frame, now)];
    }

    method ExecuteCommand(cmd: Command<Op, Req, Frame>) returns (answer: Answer<Frame>)
      modifies this
      ensures answer == AnswerTo(old(entries), cmd) && entries == After(old(entries), cmd)
    {
      if cmd.operationId.Some? {
        var found := LookupOperation(cmd.operationId.value, cmd.request, cmd.lookupAt);
        if found.Mismatch? {
          return RefusedReuse;
        }
        if found.Replay? {
          return Replayed(found.frame);
        }
      }
      answer := Executed(cmd.result);
      if cmd.operationId.Some? && cmd.cacheable {
        RecordOperation(cmd.operationId.value, cmd.request, cmd.result, cmd.recordAt);
      }
    }
  }

  // ----- what the cache keeps -----

  ghost predicate NoTwo<Op, Req, Frame>(cache: seq<Entry<Op, Req, Frame>>) {
    forall i, j :: 0 <= i < j < |cache| ==> cache[i].operationId != cache[j].operationId
  }

  ghost predicate InOrder<Op, Req, Frame>(cache: seq<Entry<Op, Req, Frame>>, clock: int) {
    && (forall i, j :: 0 <= i < j < |cache| ==> cache[i].storedAt <= cache[j].storedAt)
    && (forall i :: 0 <= i < |cache| ==> cache[i].storedAt <= clock)
  }

  ghost predicate Bounded<Op, Req, Frame>(cache: seq<Entry<Op, Req, Frame>>, clock: int) {
    |cache| <= MAX_ENTRIES && NoTwo(cache) && InOrder(cache, clock)
  }

  lemma {:induction false} KeptIs<Op, Req, Frame>(cache: seq<Entry<Op, Req, Frame>>, now: int, e: Entry<Op, Req, Frame>)
    ensures e in Kept(cache, now) <==> e in cache && Fresh(e, now)
  {
    if cache != [] {
      KeptIs(cache[..|cache| - 1], now, e);
      assert cache == cache[..|cache| - 1] + [cache[|cache| - 1]];
    }
  }

  lemma {:induction false} KeptKeepsBounded<Op, Req, Frame>(cache: seq<Entry<Op, Req, Frame>>, now: int, clock: int)
    requires Bounded(cache, clock)
    ensures Bounded(Kept(cache, now), clock)
  {
    if cache != [] {
      var before, last := cache[..|cache| - 1], cache[|cache| - 1];
      KeptKeepsBounded(before, now, clock);
      var kept := Kept(before, now);
      forall i | 0 <= i < |kept|
        ensures kept[i].operationId != last.operationId && kept[i].storedAt <= last.storedAt
      {
        KeptIs(before, now, kept[i]);
      }
    }
  }

  lemma {:induction false} MissMeansNoFresh<Op, Req, Frame>(cache: seq<Entry<Op, Req, Frame>>, id: Op, request: Req,
          now: int)
    ensures Lookup(cache, id, request, now).Miss?
      <==> forall i :: 0 <= i < |cache| && Fresh(cache[i], now) ==> cache[i].operationId != id
  {
    if cache != [] {
      MissMeansNoFresh(cache[1..], id, request, now);
      assert cache == [cache[0]] + cache[1..];
    }
  }

  /** An id that no fresh entry holds can be recorded without holding it twice. */
  lemma RecordKeepsBounded<Op, Req, Frame>(cache: seq<Entry<Op, Req, Frame>>, e: Entry<Op, Req, Frame>, clock: int)
    requires Bounded(cache, clock) && clock <= e.storedAt
    requires forall i :: 0 <= i < |cache| && Fresh(cache[i], e.storedAt) ==> cache[i].operationId != e.operationId
    ensures Bounded(Record(cache, e), e.storedAt)
  {
    var kept := Kept(cache, e.storedAt);
    KeptKeepsBounded(cache, e.storedAt, clock);
    forall i | 0 <= i < |kept|
      ensures kept[i].operationId != e.operationId
    {
      KeptIs(cache, e.storedAt, kept[i]);
    }
  }

  lemma AfterKeepsBounded<Op, Req, Frame>(cache: seq<Entry<Op, Req, Frame>>, cmd: Command<Op, Req, Frame>, clock: int)
    requires Bounded(cache, clock) && clock <= cmd.lookupAt <= cmd.recordAt
    ensures Bounded(After(cache, cmd), cmd.recordAt)
  {
    if Records(cache, cmd) {
      MissMeansNoFresh(cache, cmd.operationId.value, cmd.request, cmd.lookupAt);
      RecordKeepsBounded(cache, EntryOf(cmd), clock);
    }
  }

  // ----- whole runs -----

  function Run<Op(==), Req(==), Frame>(cmds: seq<Command<Op, Req, Frame>>): seq<Entry<Op, Req, Frame>> {
    if cmds == [] then [] else After(Run(cmds[..|cmds| - 1]), cmds[|cmds| - 1])
  }

  /** The answer the command at `k` gets in the run. */
  function AnswerAt<Op(==), Req(==), Frame>(cmds: seq<Command<Op, Req, Frame>>, k: nat): Answer<Frame>
    requires k < |cmds|
  {
    AnswerTo(Run(cmds[..k]), cmds[k])
  }

  predicate RecordsAt<Op(==), Req(==), Frame>(cmds: seq<Command<Op, Req, Frame>>, k: nat)
    requires k < |cmds|
  {
    Records(Run(cmds[..k]), cmds[k])
  }

  /** How many commands from `first` up to, not including, `end` are remembered. */
  function RecordCount<Op(==), Req(==), Frame>(cmds: seq<Command<Op, Req, Frame>>, first: nat, end: nat): nat
    requires first <= end <= |cmds|
    decreases end
  {
    if first == end then 0 else RecordCount(cmds, first, end - 1) + if RecordsAt(cmds, end - 1) then 1 else 0
  }

  ghost predicate Monotone<Op, Req, Frame>(cmds: seq<Command<Op, Req, Frame>>) {
    && (forall i :: 0 <= i < |cmds| ==> cmds[i].lookupAt <= cmds[i].recordAt)
    && (forall i, j :: 0 <= i < j < |cmds| ==> cmds[i].recordAt <= cmds[j].lookupAt)
  }

  /** In every run the cache holds at most 512 results, no two under one id, oldest first. */
  lemma {:induction false} RunBounded<Op, Req, Frame>(cmds: seq<Command<Op, Req, Frame>>, clock: int)
    requires Monotone(cmds) && (cmds != [] ==> cmds[|cmds| - 1].recordAt <= clock)
    ensures Bounded(Run(cmds), clock)
  {
    if cmds != [] {
      var before, cmd := cmds[..|cmds| - 1], cmds[|cmds| - 1];
      RunBounded(before, cmd.lookupAt);
      AfterKeepsBounded(Run(before), cmd, cmd.lookupAt);
    }
  }

  /** The cache holds `e`, with at most `newer` entries behind it. */
  ghost predicate Holds<Op, Req, Frame>(cache: seq<Entry<Op, Req, Frame>>, e: Entry<Op, Req, Frame>, newer: nat) {
    exists p :: 0 <= p < |cache| && cache[p] == e && |cache| - 1 - p <= newer
  }

  lemma {:induction false} KeptHolds<Op, Req, Frame>(cache: seq<Entry<Op, Req, Frame>>, now: int,
          e: Entry<Op, Req, Frame>, newer: nat)
    requires Holds(cache, e, newer) && Fresh(e, now)
    ensures Holds(Kept(cache, now), e, newer)
  {
    var p :| 0 <= p < |cache| && cache[p] == e && |cache| - 1 - p <= newer;
    var before, kept := cache[..|cache| - 1], Kept(cache, now);
    if p == |cache| - 1 {
      assert kept[|kept| - 1] == e;
    } else {
      assert before[p] == e && newer > 0;
      KeptHolds(before, now, e, newer - 1);
      var q :| 0 <= q < |Kept(before, now)| && Kept(before, now)[q] == e && |Kept(before, now)| - 1 - q <= newer - 1;
      assert kept[q] == e;
    }
  }

  /** Recording one more result loses `e` only if 511 newer ones stand behind it. */
  lemma RecordHolds<Op, Req, Frame>(cache: seq<Entry<Op, Req, Frame>>, e: Entry<Op, Req, Frame>, newer: nat,
          other: Entry<Op, Req, Frame>)
    requires Holds(cache, e, newer) && Fresh(e, other.storedAt) && newer + 1 < MAX_ENTRIES
    ensures Holds(Record(cache, other), e, newer + 1)
  {
    KeptHolds(cache, other.storedAt, e, newer);
    var kept, cache' := Kept(cache, other.storedAt), Record(cache, other);
    var q :| 0 <= q < |kept| && kept[q] == e && |kept| - 1 - q <= newer;
    assert cache'[if |kept| >= MAX_ENTRIES then q - 1 else q] == e;
  }

  /** A recorded result stays while it is within its lifetime and fewer than 512 later
      results were recorded. */
  lemma {:induction false} StaysCached<Op, Req, Frame>(cmds: seq<Command<Op, Req, Frame>>, i: nat, j: nat)
    requires i < j <= |cmds| && Monotone(cmds) && RecordsAt(cmds, i)
    requires RecordCount(cmds, i + 1, j) < MAX_ENTRIES
    requires j > i + 1 ==> Fresh(EntryOf(cmds[i]), cmds[j - 1].recordAt)
    ensures Holds(Run(cmds[..j]), EntryOf(cmds[i]), RecordCount(cmds, i + 1, j))
    decreases j - i
  {
    assert cmds[..j][..j - 1] == cmds[..j - 1] && cmds[..j][j - 1] == cmds[j - 1];
    var cache, e := Run(cmds[..j - 1]), EntryOf(cmds[i]);
    if j == i + 1 {
      var cache' := Run(cmds[..j]);
      assert cache'[|cache'| - 1] == e;
    } else {
      StaysCached(cmds, i, j - 1);
      if RecordsAt(cmds, j - 1) {
        RecordHolds(cache, e, RecordCount(cmds, i + 1, j - 1), EntryOf(cmds[j - 1]));
      }
    }
  }

  lemma {:induction false} LookupFinds<Op, Req, Frame>(cache: seq<Entry<Op, Req, Frame>>, e: Entry<Op, Req, Frame>,
          request: Req, now: int)
    requires NoTwo(cache) && e in cache && Fresh(e, now)
    ensures Lookup(cache, e.operationId, request, now) == if e.request == request then Replay(e.frame) else Mismatch
  {
    if cache[0] != e {
      var p :| 0 <= p < |cache| && cache[p] == e;
      assert cache[1..][p - 1] == e;
      LookupFinds(cache[1..], e, request, now);
    }
  }

  /** In every run: once an operation's result was recorded, a later command with its id
      runs no handler while the result is within its lifetime and fewer than 512 results
      were recorded since. It is answered with that result if it is the same request, and
      refused if it is not. */
  lemma ReuseIsAnsweredFromCache<Op, Req, Frame>(cmds: seq<Command<Op, Req, Frame>>, i: nat, j: nat)
    requires i < j < |cmds| && Monotone(cmds) && RecordsAt(cmds, i)
    requires cmds[j].operationId == cmds[i].operationId
    requires cmds[j].lookupAt - cmds[i].recordAt < LIMIT_IDEMPOTENCY_CACHE_MS
    requires RecordCount(cmds, i + 1, j) < MAX_ENTRIES
    ensures AnswerAt(cmds, j) == if cmds[j].request == cmds[i].request then Replayed(cmds[i].result) else RefusedReuse
    ensures Run(cmds[..j + 1]) == Run(cmds[..j])
  {
    var cache, e := Run(cmds[..j]), EntryOf(cmds[i]);
    StaysCached(cmds, i, j);
    RunBounded(cmds[..j], cmds[j].lookupAt);
    assert e in cache;
    LookupFinds(cache, e, cmds[j].request, cmds[j].lookupAt);
    assert cmds[..j + 1][..j] == cmds[..j] && cmds[..j + 1][j] == cmds[j];
  }

  // ----- exactly what is remembered -----

  /** In an ordered cache, what is not too old is the newer end of it. */
  lemma {:induction false} KeptIsSuffix<Op, Req, Frame>(cache: seq<Entry<Op, Req, Frame>>, now: int, clock: int)
    requires InOrder(cache, clock)
    ensures Kept(cache, now) == cache[|cache| - |Kept(cache, now)|..]
  {
    if cache != [] {
      var before, last := cache[..|cache| - 1], cache[|cache| - 1];
      KeptIsSuffix(before, now, clock);
      var kept := Kept(before, now);
      if !Fresh(last, now) && kept != [] {
        assert kept[0] in kept;
        KeptIs(before, now, kept[0]);
      }
    }
  }

  lemma RecordIsSuffix<Op, Req, Frame>(cache: seq<Entry<Op, Req, Frame>>, e: Entry<Op, Req, Frame>, clock: int)
    requires InOrder(cache, clock)
    ensures var cache' := Record(cache, e);
      |cache'| <= |cache| + 1 && cache' == cache[|cache| + 1 - |cache'|..] + [e]
  {
    KeptIsSuffix(cache, e.storedAt, clock);
  }

  /** Entry `e` is what command `i` recorded, with `newer` results recorded since. */
  ghost predicate RecordedBy<Op, Req, Frame>(cmds: seq<Command<Op, Req, Frame>>, i: nat, j: nat,
          e: Entry<Op, Req, Frame>, newer: int) {
    i < j <= |cmds| && RecordsAt(cmds, i) && e == EntryOf(cmds[i]) && RecordCount(cmds, i + 1, j) == newer
  }

  /** One command more: an entry behind which there are `newer` results now has as many, or
      one more if the command's result is recorded. */
  lemma RecordedByNext<Op, Req, Frame>(cmds: seq<Command<Op, Req, Frame>>, i: nat, j: nat, e: Entry<Op, Req, Frame>,
          newer: int)
    requires j < |cmds| && RecordedBy(cmds, i, j, e, newer)
    ensures RecordedBy(cmds, i, j + 1, e, newer + if RecordsAt(cmds, j) then 1 else 0)
  {
    hide RecordsAt;
  }

  /** Every entry of the cache was recorded by some command of the run, and has behind it
      exactly the results recorded since. */
  lemma {:induction false} EntryIsRecorded<Op, Req, Frame>(cmds: seq<Command<Op, Req, Frame>>, j: nat, p: nat)
    returns (i: nat)
    requires j <= |cmds| && Monotone(cmds) && p < |Run(cmds[..j])|
    ensures RecordedBy(cmds, i, j, Run(cmds[..j])[p], |Run(cmds[..j])| - 1 - p)
    decreases j
  {
    hide Run, RecordsAt, Monotone, RecordedBy;
    RunNothing(cmds);
    RunStep(cmds, j);
    var cache, cache' := Run(cmds[..j - 1]), Run(cmds[..j]);
    if !RecordsAt(cmds, j - 1) {
      i := EntryIsRecorded(cmds, j - 1, p);
      RecordedByNext(cmds, i, j - 1, cache[p], |cache| - 1 - p);
    } else {
      RecordsExecuted(cmds, j - 1);
      if p == |cache'| - 1 {
        i := j - 1;
        NewlyRecorded(cmds, i);
      } else {
        var q := p + |cache| + 1 - |cache'|;
        assert cache'[p] == cache[q];
        i := EntryIsRecorded(cmds, j - 1, q);
        RecordedByNext(cmds, i, j - 1, cache[q], |cache| - 1 - q);
      }
    }
  }

  /** One command leaves the cache, or drops some of its older end and appends a result. */
  lemma RunStep<Op, Req, Frame>(cmds: seq<Command<Op, Req, Frame>>, j: nat)
    requires 0 < j <= |cmds| && Monotone(cmds)
    ensures var cache, cache' := Run(cmds[..j - 1]), Run(cmds[..j]);
      if RecordsAt(cmds, j - 1) then
        && cmds[j - 1].operationId.Some? && 0 < |cache'| <= |cache| + 1
        && cache' == cache[|cache| + 1 - |cache'|..] + [EntryOf(cmds[j - 1])]
      else cache' == cache
  {
    hide Record, Records, Monotone;
    assert cmds[..j][..j - 1] == cmds[..j - 1] && cmds[..j][j - 1] == cmds[j - 1];
    RecordsExecuted(cmds, j - 1);
    CacheInOrder(cmds, j - 1);
    if RecordsAt(cmds, j - 1) {
      RecordIsSuffix(Run(cmds[..j - 1]), EntryOf(cmds[j - 1]), cmds[j - 1].lookupAt);
    }
  }

  lemma RunNothing<Op, Req, Frame>(cmds: seq<Command<Op, Req, Frame>>)
    ensures Run(cmds[..0]) == []
  {}

  lemma NewlyRecorded<Op, Req, Frame>(cmds: seq<Command<Op, Req, Frame>>, i: nat)
    requires i < |cmds| && RecordsAt(cmds, i)
    ensures RecordedBy(cmds, i, i + 1, EntryOf(cmds[i]), 0)
  {}

  lemma CacheInOrder<Op, Req, Frame>(cmds: seq<Command<Op, Req, Frame>>, j: nat)
    requires j < |cmds| && Monotone(cmds)
    ensures InOrder(Run(cmds[..j]), cmds[j].lookupAt) && |Run(cmds[..j])| <= MAX_ENTRIES
  {
    RunBounded(cmds[..j], cmds[j].lookupAt);
  }

  /** Command `i` ran its handler, its result could be remembered, and when command `j` comes
      the result is neither too old nor pushed out by 512 later ones. */
  ghost predicate Remembered<Op, Req, Frame>(cmds: seq<Command<Op, Req, Frame>>, i: nat, j: nat, id: Op) {
    && i < j < |cmds| && cmds[i].operationId == Some(id) && AnswerAt(cmds, i).Executed? && cmds[i].cacheable
    && cmds[j].lookupAt - cmds[i].recordAt < 600000 && RecordCount(cmds, i + 1, j) < 512
  }

  lemma RememberedAnswers<Op, Req, Frame>(cmds: seq<Command<Op, Req, Frame>>, i: nat, j: nat, id: Op)
    requires Monotone(cmds) && Remembered(cmds, i, j, id) && cmds[j].operationId == Some(id)
    ensures AnswerAt(cmds, j) == if cmds[j].request == cmds[i].request then Replayed(cmds[i].result) else RefusedReuse
  {
    ReuseIsAnsweredFromCache(cmds, i, j);
  }

  lemma {:induction false} LookupHits<Op, Req, Frame>(cache: seq<Entry<Op, Req, Frame>>, id: Op, request: Req, now: int)
    returns (p: nat)
    requires !Lookup(cache, id, request, now).Miss?
    ensures p < |cache| && cache[p].operationId == id && Fresh(cache[p], now)
  {
    if cache[0].operationId == id && Fresh(cache[0], now) {
      p := 0;
    } else {
      p := LookupHits(cache[1..], id, request, now);
      p := p + 1;
    }
  }

  lemma AnswerIsRemembered<Op, Req, Frame>(cmds: seq<Command<Op, Req, Frame>>, j: nat, id: Op) returns (i: nat)
    requires j < |cmds| && Monotone(cmds) && cmds[j].operationId == Some(id) && !AnswerAt(cmds, j).Executed?
    ensures Remembered(cmds, i, j, id)
  {
    hide RecordsAt, Monotone;
    var cache := Run(cmds[..j]);
    var p := LookupHits(cache, id, cmds[j].request, cmds[j].lookupAt);
    i := EntryIsRecorded(cmds, j, p);
    CacheInOrder(cmds, j);
    RecordsExecuted(cmds, i);
  }

  lemma RecordsExecuted<Op, Req, Frame>(cmds: seq<Command<Op, Req, Frame>>, i: nat)
    requires i < |cmds|
    ensures RecordsAt(cmds, i) <==> cmds[i].operationId.Some? && AnswerAt(cmds, i).Executed? && cmds[i].cacheable
  {}

  /** In every run, for every command with an id: it runs its handler exactly if no result of
      an earlier command with that id is remembered, and else it is answered with that result
      or refused, as the request is the same or not. So an id runs again once its result is
      too old or pushed out, and a result that may not be cached is never replayed. */
  lemma AnswersExactly<Op, Req, Frame>(cmds: seq<Command<Op, Req, Frame>>, j: nat, id: Op)
    requires j < |cmds| && Monotone(cmds) && cmds[j].operationId == Some(id)
    ensures AnswerAt(cmds, j) == Executed(cmds[j].result) <==> forall i: nat :: !Remembered(cmds, i, j, id)
    ensures forall i: nat :: Remembered(cmds, i, j, id) ==>
      AnswerAt(cmds, j) == if cmds[j].request == cmds[i].request then Replayed(cmds[i].result) else RefusedReuse
  {
    if !AnswerAt(cmds, j).Executed? {
      var i := AnswerIsRemembered(cmds, j, id);
    }
    forall i: nat | Remembered(cmds, i, j, id) {
      RememberedAnswers(cmds, i, j, id);
    }
  }

  /** A command without an id always runs its handler. */
  lemma NoIdAlwaysRuns<Op, Req, Frame>(cmds: seq<Command<Op, Req, Frame>>, j: nat)
    requires j < |cmds| && cmds[j].operationId.None?
    ensures AnswerAt(cmds, j) == Executed(cmds[j].result) && !RecordsAt(cmds, j)
  {}
}
