/** The sliding-window limit on parameter changes. The limiter forgets a change once it
    leaves the window; the results say that it nevertheless decides as if it remembered
    every change it ever admitted. Times are milliseconds on a clock that never goes back. */
module RateLimit {

  datatype Verdict = Admitted | RateLimited(retryInMs: int)

  /** One call: how many changes it asks for, and the clock at its first and last reading. */
  datatype Call = Call(count: int, first: int, last: int)

  function Repeat(x: int, n: nat): (r: seq<int>)
    ensures |r| == n && forall i :: 0 <= i < n ==> r[i] == x
  {
    if n == 0 then [] else Repeat(x, n - 1) + [x]
  }

  /** The hits that are still inside the window. */
  function Pruned(hits: seq<int>, cutoff: int): seq<int> {
    if hits != [] && hits[0] <= cutoff then Pruned(hits[1..], cutoff) else hits
  }

  predicate Ignored(call: Call, limit: int) {
    call.count <= 0 || limit <= 0
  }

  function Decide(hits: seq<int>, call: Call, limit: int, window: int): Verdict {
    if |hits| + call.count <= limit then Admitted
    else if hits == [] then RateLimited(1)
    else RateLimited(if hits[0] + window - call.last > 1 then hits[0] + window - call.last else 1)
  }

  /** What one call leaves in the limiter, and its answer. */
  function Step(hits: seq<int>, call: Call, limit: int, window: int): (seq<int>, Verdict) {
    if Ignored(call, limit) then (hits, Admitted)
    else
      var live := Pruned(hits, call.first - window);
      var v := Decide(live, call, limit, window);
      (if v.Admitted? then live + Repeat(call.last, call.count) else live, v)
  }

  class RateLimiter {
    const limit: int
    const windowMs: int
    var hits: seq<int>

    constructor (limit: int, windowMs: int)
      ensures this.limit == limit && this.windowMs == windowMs && hits == []
    {
      this.limit, this.windowMs := limit, windowMs;
      hits := [];
    }

    /** Records all of the changes or none of them. */
    method Admit(call: Call) returns (v: Verdict)
      modifies this
      ensures (hits, v) == Step(old(hits), call, limit, windowMs)
    {
      if call.count <= 0 || limit <= 0 {
        return Admitted;
      }
      var cutoff := call.first - windowMs;
      while |hits| > 0 && hits[0] <= cutoff
        invariant Pruned(hits, cutoff) == Pruned(old(hits), cutoff)
        decreases |hits|
      {
        hits := hits[1..];
      }
      if |hits| + call.count > limit {
        var retry := 1;
        if |hits| > 0 && hits[0] + windowMs - call.last > 1 {
          retry := hits[0] + windowMs - call.last;
        }
        return RateLimited(retry);
      }
      ghost var live := hits;
      for i := 0 to call.count
        invariant hits == live + Repeat(call.last, i)
      {
        hits := hits + [call.last];
      }
      return Admitted;
    }
  }

  // ----- whole runs -----

  /** The limiter's hits, and every change it ever admitted. */
  datatype Memory = Memory(hits: seq<int>, log: seq<int>)

  function Advance(m: Memory, call: Call, limit: int, window: int): Memory {
    var (hits, v) := Step(m.hits, call, limit, window);
    Memory(hits, if v.Admitted? && !Ignored(call, limit) then m.log + Repeat(call.last, call.count) else m.log)
  }

  function Run(calls: seq<Call>, limit: int, window: int): Memory {
    if calls == [] then Memory([], [])
    else Advance(Run(calls[..|calls| - 1], limit, window), calls[|calls| - 1], limit, window)
  }

  ghost predicate Monotone(calls: seq<Call>) {
    && (forall i :: 0 <= i < |calls| ==> calls[i].first <= calls[i].last)
    && (forall i, j :: 0 <= i < j < |calls| ==> calls[i].last <= calls[j].first)
  }

  /** How many of the logged changes lie in the interval (lo, hi]. */
  function CountIn(log: seq<int>, lo: int, hi: int): nat {
    if log == [] then 0
    else CountIn(log[..|log| - 1], lo, hi) + if lo < log[|log| - 1] <= hi then 1 else 0
  }

  ghost predicate Sorted(log: seq<int>) {
    forall i, j :: 0 <= i < j < |log| ==> log[i] <= log[j]
  }

  /** Changes `limit` apart or more in the log are at least a window apart in time. */
  ghost predicate Spaced(log: seq<int>, limit: nat, window: int) {
    forall k, j :: 0 <= k && k + limit <= j < |log| ==> log[k] + window <= log[j]
  }

  /** `hits` are the newest logged changes; the forgotten ones are at or before `cutoff`. */
  ghost predicate Remembers(hits: seq<int>, log: seq<int>, cutoff: int) {
    |hits| <= |log| && log[|log| - |hits|..] == hits && forall i :: 0 <= i < |log| - |hits| ==> log[i] <= cutoff
  }

  ghost predicate UpTo(log: seq<int>, t: int) {
    forall i :: 0 <= i < |log| ==> log[i] <= t
  }

  lemma {:induction false} PrunedRemembers(hits: seq<int>, log: seq<int>, cutoff: int)
    requires Remembers(hits, log, cutoff)
    ensures Remembers(Pruned(hits, cutoff), log, cutoff)
    ensures Pruned(hits, cutoff) != [] ==> Pruned(hits, cutoff)[0] > cutoff
  {
    if hits != [] && hits[0] <= cutoff {
      PrunedRemembers(hits[1..], log, cutoff);
    }
  }

  lemma {:induction false} NoneIn(log: seq<int>, lo: int, hi: int)
    requires UpTo(log, lo)
    ensures CountIn(log, lo, hi) == 0
  {
    if log != [] {
      NoneIn(log[..|log| - 1], lo, hi);
    }
  }

  /** When the first `m` changes lie before the interval, at most the rest are inside. */
  lemma {:induction false} AtMostTheRest(log: seq<int>, m: nat, lo: int, hi: int)
    requires m <= |log| && UpTo(log[..m], lo)
    ensures CountIn(log, lo, hi) <= |log| - m
  {
    if m == |log| {
      assert log[..m] == log;
      NoneIn(log, lo, hi);
    } else {
      assert log[..|log| - 1][..m] == log[..m];
      AtMostTheRest(log[..|log| - 1], m, lo, hi);
    }
  }

  lemma {:induction false} AllTheRest(log: seq<int>, m: nat, lo: int, hi: int)
    requires m <= |log| && UpTo(log[..m], lo) && forall i :: m <= i < |log| ==> lo < log[i] <= hi
    ensures CountIn(log, lo, hi) == |log| - m
  {
    if m == |log| {
      assert log[..m] == log;
      NoneIn(log, lo, hi);
    } else {
      assert log[..|log| - 1][..m] == log[..m];
      AllTheRest(log[..|log| - 1], m, lo, hi);
    }
  }

  /** Spacing bounds every window of the log. */
  lemma {:induction false} SpacedBounds(log: seq<int>, limit: nat, window: int, t: int)
    requires Sorted(log) && Spaced(log, limit, window)
    ensures CountIn(log, t - window, t) <= limit
  {
    if log != [] {
      var last := log[|log| - 1];
      if last > t {
        SpacedBounds(log[..|log| - 1], limit, window, t);
      } else if |log| > limit {
        var m := |log| - limit;
        assert log[m - 1] + window <= last;
        AtMostTheRest(log, m, t - window, t);
      } else {
        AtMostTheRest(log, 0, t - window, t);
      }
    }
  }

  /** What is remembered after pruning is exactly what the window holds. */
  lemma PrunedIsWindow(hits: seq<int>, log: seq<int>, cutoff: int, now: int)
    requires Sorted(log) && UpTo(log, now) && Remembers(hits, log, cutoff)
    ensures |Pruned(hits, cutoff)| == CountIn(log, cutoff, now)
  {
    PrunedRemembers(hits, log, cutoff);
    var live := Pruned(hits, cutoff);
    var m := |log| - |live|;
    assert live != [] ==> log[m] == live[0];
    AllTheRest(log, m, cutoff, now);
  }

  ghost predicate Sound(m: Memory, limit: nat, window: int, clock: int) {
    && Sorted(m.log) && UpTo(m.log, clock) && Spaced(m.log, limit, window)
    && Remembers(m.hits, m.log, clock - window) && |m.hits| <= limit
  }

  /** Admitting the batch keeps the log spaced: whatever the new changes could crowd
      has been forgotten, and so lies at least a window back. */
  lemma AdmitKeepsSound(m: Memory, call: Call, limit: nat, window: int)
    requires Sound(m, limit, window, call.first) && call.first <= call.last
    requires call.count > 0 && |m.hits| + call.count <= limit
    ensures var batch := Repeat(call.last, call.count);
      Sound(Memory(m.hits + batch, m.log + batch), limit, window, call.last)
  {
    var batch := Repeat(call.last, call.count);
    var log' := m.log + batch;
    forall k, j | 0 <= k && k + limit <= j < |log'|
      ensures log'[k] + window <= log'[j]
    {
      if j >= |m.log| && k < |m.log| - |m.hits| {
        assert log'[k] == m.log[k] && log'[j] == call.last;
      }
    }
    assert log'[|log'| - |m.hits + batch|..] == m.hits + batch;
  }

  lemma LaterIsSound(m: Memory, limit: nat, window: int, clock: int, later: int)
    requires clock <= later && Sound(m, limit, window, clock)
    ensures Sound(m, limit, window, later)
  {}

  lemma PruneKeepsSound(m: Memory, limit: nat, window: int, now: int)
    requires Sound(m, limit, window, now)
    ensures Sound(Memory(Pruned(m.hits, now - window), m.log), limit, window, now)
    ensures |Pruned(m.hits, now - window)| == CountIn(m.log, now - window, now)
  {
    PrunedRemembers(m.hits, m.log, now - window);
    PrunedIsWindow(m.hits, m.log, now - window, now);
    PrunedShrinks(m.hits, now - window);
  }

  lemma AdvanceKeepsSound(m: Memory, call: Call, limit: int, window: int)
    requires limit > 0 && call.first <= call.last && Sound(m, limit, window, call.first)
    ensures Sound(Advance(m, call, limit, window), limit, window, call.last)
  {
    hide Sound;
    if Ignored(call, limit) {
      LaterIsSound(m, limit, window, call.first, call.last);
    } else {
      PruneKeepsSound(m, limit, window, call.first);
      var live := Memory(Pruned(m.hits, call.first - window), m.log);
      if |live.hits| + call.count <= limit {
        AdmitKeepsSound(live, call, limit, window);
      } else {
        LaterIsSound(live, limit, window, call.first, call.last);
        assert Advance(m, call, limit, window) == live;
      }
    }
  }

  lemma {:induction false} RunSound(calls: seq<Call>, limit: int, window: int, clock: int)
    requires limit > 0 && Monotone(calls) && (calls != [] ==> calls[|calls| - 1].last <= clock)
    ensures Sound(Run(calls, limit, window), limit, window, clock)
  {
    if calls != [] {
      var before, call := calls[..|calls| - 1], calls[|calls| - 1];
      RunSound(before, limit, window, call.first);
      AdvanceKeepsSound(Run(before, limit, window), call, limit, window);
      LaterIsSound(Run(calls, limit, window), limit, window, call.last, clock);
    }
  }

  /** Over every run, no interval of one window's length holds more than `limit` changes. */
  lemma WindowBound(calls: seq<Call>, limit: int, window: int, t: int)
    requires limit > 0 && Monotone(calls)
    ensures CountIn(Run(calls, limit, window).log, t - window, t) <= limit
  {
    RunSound(calls, limit, window, if calls == [] then 0 else calls[|calls| - 1].last);
    SpacedBounds(Run(calls, limit, window).log, limit, window, t);
  }

  /** After every run, a batch is admitted exactly when all the changes ever admitted in
      the window that ends now leave room for it. */
  lemma AdmitsExactly(calls: seq<Call>, call: Call, limit: int, window: int)
    requires limit > 0 && call.count > 0 && Monotone(calls) && (calls != [] ==> calls[|calls| - 1].last <= call.first)
    ensures var m := Run(calls, limit, window);
      Step(m.hits, call, limit, window).1.Admitted? <==>
        CountIn(m.log, call.first - window, call.first) + call.count <= limit
  {
    hide Sound, Run, CountIn, Pruned, Monotone;
    RunSound(calls, limit, window, call.first);
    PruneKeepsSound(Run(calls, limit, window), limit, window, call.first);
  }

  /** The hint of a refusal is honest: once it has passed, the oldest hit that stood in
      the way has left the window, before then none has, unless the hint is the least there
      is, and a refused batch is never recorded. */
  lemma RetryHint(hits: seq<int>, call: Call, limit: int, window: int, sooner: int, later: int)
    requires limit > 0 && Step(hits, call, limit, window).1.RateLimited?
    requires later >= call.last + Step(hits, call, limit, window).1.retryInMs
    ensures var live := Step(hits, call, limit, window).0;
      live == Pruned(hits, call.first - window) && (live != [] ==> |Pruned(live, later - window)| < |live|)
    ensures var (live, v) := Step(hits, call, limit, window);
      && v.retryInMs >= 1
      && (v.retryInMs > 1 && sooner < call.last + v.retryInMs ==> Pruned(live, sooner - window) == live)
  {
    var live := Pruned(hits, call.first - window);
    if live != [] {
      PrunedShrinks(live[1..], later - window);
    }
  }

  lemma {:induction false} PrunedShrinks(hits: seq<int>, cutoff: int)
    ensures |Pruned(hits, cutoff)| <= |hits|
  {
    if hits != [] && hits[0] <= cutoff {
      PrunedShrinks(hits[1..], cutoff);
    }
  }
}
