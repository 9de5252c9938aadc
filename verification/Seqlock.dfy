/** The lock-free telemetry buffer: one writer, any number of readers, two slots and a
    32-bit counter that is odd while a publish is in progress. Values are copied word
    by word, and every load, store and word copy is a step of its own that other
    threads may interleave with; the steps are sequentially consistent. */
module Seqlock {

  const WRAP: nat := 0x1_0000_0000
  const MAX_ATTEMPTS: nat := 1000

  type Value = seq<int>

  datatype Writer = Idle | Writing(s: nat, value: Value, i: nat)

  /** Where a reader is inside its retry loop. `at` is a history variable: the number
      of publishes completed when this attempt loaded the counter. */
  datatype Reader =
    | Resting
    | Loading(attempt: nat)
    | Copying(attempt: nat, before: nat, at: nat, out: Value)
    | Returned(ok: bool, out: Value)

  /** `published` is the history of completed publishes; the program keeps only the counter. */
  datatype State = State(counter: nat, slots: seq<Value>, writer: Writer, readers: map<nat, Reader>,
    published: seq<Value>)

  datatype Step =
    | BeginPublish(value: Value)
    | WriteWord
    | EndPublish
    | BeginRead(r: nat)
    | LoadBefore(r: nat)
    | ReadWord(r: nat)
    | LoadAfter(r: nat)

  /** The slot that the counter value `s` designates as stable. */
  function StableSlot(s: nat): nat {
    (s / 2) % 2
  }

  /** The slot that a publish starting at counter value `s` writes to. */
  function TargetSlot(s: nat): nat {
    (s / 2 + 1) % 2
  }

  predicate Enabled(width: nat, s: State, step: Step) {
    match step
    case BeginPublish(value) => s.writer.Idle? && |value| == width
    case WriteWord => s.writer.Writing? && s.writer.i < |s.writer.value|
    case EndPublish => s.writer.Writing? && s.writer.i == |s.writer.value|
    case BeginRead(r) => r in s.readers && (s.readers[r].Resting? || s.readers[r].Returned?)
    case LoadBefore(r) => r in s.readers && s.readers[r].Loading?
    case ReadWord(r) => r in s.readers && s.readers[r].Copying? && |s.readers[r].out| < width
    case LoadAfter(r) => r in s.readers && s.readers[r].Copying? && |s.readers[r].out| == width
  }

  function NextReader(s: State, r: nat, step: Step): Reader
    requires r in s.readers && |s.slots| == 2
    requires step.ReadWord? ==> s.readers[r].Copying? && |s.readers[r].out| < |s.slots[StableSlot(s.readers[r].before)]|
    requires step.LoadAfter? ==> s.readers[r].Copying?
    requires step.LoadBefore? ==> s.readers[r].Loading?
  {
    var me := s.readers[r];
    match step
    case BeginRead(_) => Loading(0)
    case LoadBefore(_) =>
      if me.attempt >= MAX_ATTEMPTS then Returned(false, [])
      else if s.counter == 0 then Returned(false, [])
      else if s.counter % 2 != 0 then Loading(me.attempt + 1)
      else Copying(me.attempt, s.counter, |s.published|, [])
    case ReadWord(_) => Copying(me.attempt, me.before, me.at, me.out + [s.slots[StableSlot(me.before)][|me.out|]])
    case LoadAfter(_) => if s.counter == me.before then Returned(true, me.out) else Loading(me.attempt + 1)
    case _ => me
  }

  predicate SlotsSized(width: nat, s: State) {
    |s.slots| == 2 && |s.slots[0]| == width && |s.slots[1]| == width
      && (s.writer.Writing? ==> |s.writer.value| == width)
  }

  function Apply(width: nat, s: State, step: Step): State
    requires Enabled(width, s, step) && SlotsSized(width, s)
  {
    match step
    case BeginPublish(value) =>
      s.(counter := (s.counter + 1) % WRAP, writer := Writing(s.counter, value, 0))
    case WriteWord =>
      var w := s.writer;
      var t := TargetSlot(w.s);
      s.(slots := s.slots[t := s.slots[t][w.i := w.value[w.i]]], writer := w.(i := w.i + 1))
    case EndPublish =>
      s.(counter := (s.writer.s + 2) % WRAP, writer := Idle, published := s.published + [s.writer.value])
    case BeginRead(r) => s.(readers := s.readers[r := NextReader(s, r, step)])
    case LoadBefore(r) => s.(readers := s.readers[r := NextReader(s, r, step)])
    case ReadWord(r) => s.(readers := s.readers[r := NextReader(s, r, step)])
    case LoadAfter(r) => s.(readers := s.readers[r := NextReader(s, r, step)])
  }

  // ----- the invariant -----

  /** The counter without wrap-around: two per completed publish, one for a publish under way. */
  function Unwrapped(s: State): nat {
    2 * |s.published| + if s.writer.Writing? then 1 else 0
  }

  ghost predicate CounterInv(s: State) {
    && s.counter == Unwrapped(s) % WRAP
    && (s.writer.Writing? ==> s.writer.s == (2 * |s.published|) % WRAP && s.writer.i <= |s.writer.value|)
  }

  /** The last completed publish stands in its slot; the one before it survives in the
      other slot until the next publish begins there. */
  ghost predicate SlotInv(s: State)
    requires |s.slots| == 2
  {
    var n := |s.published|;
    && (n >= 1 ==> s.slots[n % 2] == s.published[n - 1])
    && (s.writer.Idle? && n >= 2 ==> s.slots[(n - 1) % 2] == s.published[n - 2])
    && (s.writer.Writing? ==>
          var t := s.slots[(n + 1) % 2];
          s.writer.i <= |t| && s.writer.i <= |s.writer.value| && t[..s.writer.i] == s.writer.value[..s.writer.i])
  }

  /** What a copying reader holds is a prefix of the value that was latest when it
      loaded the counter, unless a second publish has begun since. */
  ghost predicate ReaderInv(width: nat, s: State, me: Reader) {
    me.Copying? ==>
      && 1 <= me.at <= |s.published|
      && me.before == (2 * me.at) % WRAP
      && |me.out| <= width && |s.published[me.at - 1]| == width
      && (Unwrapped(s) <= 2 * me.at + 2 ==> me.out == s.published[me.at - 1][..|me.out|])
  }

  ghost predicate Inv(width: nat, s: State) {
    && SlotsSized(width, s) && CounterInv(s) && SlotInv(s)
    && (forall v :: v in s.published ==> |v| == width)
    && forall r :: r in s.readers ==> ReaderInv(width, s, s.readers[r])
  }

  ghost predicate Init(width: nat, s: State) {
    && SlotsSized(width, s) && s.counter == 0 && s.writer.Idle? && s.published == []
    && forall r :: r in s.readers ==> s.readers[r] == Resting
  }

  /** The wrapped counter picks the same slots as the true publish count, because the
      wrap is a multiple of four. */
  lemma SlotOfWrapped(n: nat)
    ensures StableSlot((2 * n) % WRAP) == n % 2
    ensures TargetSlot((2 * n) % WRAP) == (n + 1) % 2
  {
    var q := (2 * n) / WRAP;
    var k := n - 0x8000_0000 * q;
    assert (2 * n) % WRAP == 2 * k;
    EvenShift(k, 0x4000_0000 * q);
    EvenShift(k + 1, 0x4000_0000 * q);
  }

  lemma EvenShift(k: int, j: int)
    ensures (k + 2 * j) % 2 == k % 2
  {}

  lemma WrapAdd(a: nat, b: nat)
    ensures (a % WRAP + b) % WRAP == (a + b) % WRAP
  {
    var q := a / WRAP;
    var m := a % WRAP;
    assert a == WRAP * q + m;
    var q' := (m + b) / WRAP;
    assert a + b == WRAP * (q + q') + (m + b) % WRAP;
  }

  lemma BeginPublishKeeps(width: nat, s: State, value: Value)
    requires SlotsSized(width, s) && CounterInv(s) && SlotInv(s) && s.writer.Idle? && |value| == width
    ensures var t := Apply(width, s, BeginPublish(value)); SlotsSized(width, t) && CounterInv(t) && SlotInv(t)
  {
    WrapAdd(2 * |s.published|, 1);
  }

  lemma WriteWordKeeps(width: nat, s: State)
    requires SlotsSized(width, s) && CounterInv(s) && SlotInv(s) && Enabled(width, s, WriteWord)
    ensures var t := Apply(width, s, WriteWord); SlotsSized(width, t) && CounterInv(t) && SlotInv(t)
  {
    SlotOfWrapped(|s.published|);
    var w, n := s.writer, |s.published|;
    var t := Apply(width, s, WriteWord);
    var old', new' := s.slots[(n + 1) % 2], t.slots[(n + 1) % 2];
    assert new' == old'[w.i := w.value[w.i]];
    assert new'[..w.i + 1] == old'[..w.i] + [w.value[w.i]] == w.value[..w.i + 1];
  }

  lemma EndPublishKeeps(width: nat, s: State)
    requires SlotsSized(width, s) && CounterInv(s) && SlotInv(s) && Enabled(width, s, EndPublish)
    ensures var t := Apply(width, s, EndPublish); SlotsSized(width, t) && CounterInv(t) && SlotInv(t)
  {
    WrapAdd(2 * |s.published|, 2);
    var n := |s.published|;
    assert s.slots[(n + 1) % 2] == s.slots[(n + 1) % 2][..|s.writer.value|] == s.writer.value;
  }

  lemma WriterStepKeepsReaders(width: nat, s: State, step: Step, me: Reader)
    requires Inv(width, s) && Enabled(width, s, step) && ReaderInv(width, s, me)
    requires step.BeginPublish? || step.WriteWord? || step.EndPublish?
    ensures ReaderInv(width, Apply(width, s, step), me)
  {}

  lemma ReaderStepKeeps(width: nat, s: State, step: Step, r: nat)
    requires Inv(width, s) && Enabled(width, s, step)
    requires step == BeginRead(r) || step == LoadBefore(r) || step == ReadWord(r) || step == LoadAfter(r)
    ensures var t := Apply(width, s, step);
      && SlotsSized(width, t) && CounterInv(t) && SlotInv(t) && t.published == s.published
      && ReaderInv(width, t, t.readers[r])
  {
    if step.ReadWord? {
      ReadWordKeeps(width, s, r);
    }
  }

  lemma ReadWordKeeps(width: nat, s: State, r: nat)
    requires Inv(width, s) && Enabled(width, s, ReadWord(r))
    ensures ReaderInv(width, s, Apply(width, s, ReadWord(r)).readers[r])
  {
    var me := s.readers[r];
    SlotOfWrapped(me.at);
    if Unwrapped(s) <= 2 * me.at + 2 {
      assert s.slots[me.at % 2] == s.published[me.at - 1];
    }
  }

  lemma StepKeeps(width: nat, s: State, step: Step)
    requires Inv(width, s) && Enabled(width, s, step)
    ensures Inv(width, Apply(width, s, step))
  {
    hide SlotInv, CounterInv;
    var t := Apply(width, s, step);
    if step.BeginPublish? || step.WriteWord? || step.EndPublish? {
      match step
      case BeginPublish(value) => BeginPublishKeeps(width, s, value);
      case WriteWord => WriteWordKeeps(width, s);
      case EndPublish => EndPublishKeeps(width, s);
      forall r | r in t.readers ensures ReaderInv(width, t, t.readers[r]) {
        WriterStepKeepsReaders(width, s, step, s.readers[r]);
      }
    } else {
      ReaderStepKeeps(width, s, step, step.r);
      forall r | r in t.readers ensures ReaderInv(width, t, t.readers[r]) {
        if r != step.r { assert ReaderInv(width, s, s.readers[r]); }
      }
    }
  }

  // ----- runs -----

  /** `steps`, taken in order from `s`, are all enabled and end in `t`. */
  ghost predicate Leads(width: nat, s: State, steps: seq<Step>, t: State)
    decreases |steps|
  {
    if steps == [] then s == t
    else SlotsSized(width, s) && Enabled(width, s, steps[0]) && Leads(width, Apply(width, s, steps[0]), steps[1..], t)
  }

  /** `s` occurs in some run: any interleaving of the writer and the readers. */
  ghost predicate Reachable(width: nat, s: State) {
    exists start, steps :: Init(width, start) && Leads(width, start, steps, s)
  }

  lemma {:induction false} LeadsKeeps(width: nat, s: State, steps: seq<Step>, t: State)
    requires Inv(width, s) && Leads(width, s, steps, t)
    ensures Inv(width, t)
    decreases |steps|
  {
    if steps != [] {
      StepKeeps(width, s, steps[0]);
      LeadsKeeps(width, Apply(width, s, steps[0]), steps[1..], t);
    }
  }

  lemma ReachableInv(width: nat, s: State)
    requires Reachable(width, s)
    ensures Inv(width, s)
  {
    var start, steps :| Init(width, start) && Leads(width, start, steps, s);
    LeadsKeeps(width, start, steps, s);
  }

  /** Fewer than 2^31 publishes completed since the attempt loaded the counter. */
  predicate NotLapped(s: State, me: Reader)
    requires me.Copying?
  {
    |s.published| - me.at < 0x8000_0000
  }

  lemma SameWrapped(a: nat, b: nat)
    requires a <= b < a + WRAP && a % WRAP == b % WRAP
    ensures a == b
  {
    var qa, qb := a / WRAP, b / WRAP;
    assert a == WRAP * qa + a % WRAP && b == WRAP * qb + b % WRAP;
  }

  lemma CopiedWhole(width: nat, s: State, r: nat)
    requires Inv(width, s) && r in s.readers && s.readers[r].Copying? && |s.readers[r].out| == width
    requires Unwrapped(s) == 2 * s.readers[r].at
    ensures |s.published| == s.readers[r].at > 0 && s.readers[r].out == s.published[|s.published| - 1]
  {
    var me := s.readers[r];
    assert ReaderInv(width, s, me);
    assert me.out == s.published[me.at - 1][..width] == s.published[me.at - 1];
  }

  /** Linearizability. In every reachable state, a reader whose second counter load
      agrees with its first, not having been lapped, returns the value of the latest
      completed publish at that moment, whole. */
  lemma ReadIsLatestPublish(width: nat, s: State, r: nat)
    requires Reachable(width, s) && Enabled(width, s, LoadAfter(r)) && SlotsSized(width, s)
    requires NotLapped(s, s.readers[r])
    requires Apply(width, s, LoadAfter(r)).readers[r].Returned?
    ensures s.published != []
    ensures Apply(width, s, LoadAfter(r)).readers[r] == Returned(true, s.published[|s.published| - 1])
  {
    ReachableInv(width, s);
    var me := s.readers[r];
    assert ReaderInv(width, s, me);
    SameWrapped(2 * me.at, Unwrapped(s));
    CopiedWhole(width, s, r);
  }

  lemma WrapEqual(n: nat, a: nat)
    requires a <= n
    ensures (2 * n) % WRAP == (2 * a) % WRAP <==> (n - a) % 0x8000_0000 == 0
  {
    var qn, qa, q := (2 * n) / WRAP, (2 * a) / WRAP, (n - a) / 0x8000_0000;
    assert 2 * n == WRAP * qn + (2 * n) % WRAP && 2 * a == WRAP * qa + (2 * a) % WRAP;
    assert n - a == 0x8000_0000 * q + (n - a) % 0x8000_0000;
    if (2 * n) % WRAP == (2 * a) % WRAP {
      assert n - a == 0x8000_0000 * (qn - qa);
    }
  }

  /** The second load lets a reader go exactly when no publish is under way and the number
      completed since its first load is a multiple of 2^31: short of the counter coming full
      circle, exactly when none has begun since. */
  lemma RecheckFailsIffOverlapped(width: nat, s: State, r: nat)
    requires Reachable(width, s) && Enabled(width, s, LoadAfter(r)) && SlotsSized(width, s)
    ensures var me, t := s.readers[r], Apply(width, s, LoadAfter(r)).readers[r];
      && me.at <= |s.published| && (t.Loading? <==> !t.Returned?)
      && (t.Returned? <==> s.writer.Idle? && (|s.published| - me.at) % 0x8000_0000 == 0)
      && (t.Loading? ==> Unwrapped(s) > 2 * me.at)
      && (NotLapped(s, me) ==> (t.Loading? <==> Unwrapped(s) > 2 * me.at))
  {
    ReachableInv(width, s);
    var me := s.readers[r];
    assert ReaderInv(width, s, me);
    WrapParity(|s.published|);
    WrapParity(me.at);
    WrapEqual(|s.published|, me.at);
  }

  /** The first load retries exactly while a publish is under way, and reports that
      nothing was published exactly when the number of publishes is a multiple of 2^31:
      at the start, as intended, and again each time the counter wraps to zero. */
  lemma FirstLoadOutcome(width: nat, s: State, r: nat)
    requires Reachable(width, s) && Enabled(width, s, LoadBefore(r)) && SlotsSized(width, s)
    requires s.readers[r].attempt < MAX_ATTEMPTS
    ensures var t := Apply(width, s, LoadBefore(r)).readers[r];
      && (t.Loading? <==> s.writer.Writing?)
      && (t == Returned(false, []) <==> s.writer.Idle? && |s.published| % 0x8000_0000 == 0)
      && (t.Copying? ==> t.at == |s.published|)
  {
    ReachableInv(width, s);
    WrapParity(|s.published|);
  }

  lemma WrapParity(n: nat)
    ensures (2 * n) % WRAP % 2 == 0 && (2 * n + 1) % WRAP % 2 == 1
    ensures (2 * n) % WRAP == 0 <==> n % 0x8000_0000 == 0
  {
    var q := n / 0x8000_0000;
    var m := n % 0x8000_0000;
    assert 2 * n == WRAP * q + 2 * m;
    assert (2 * n) % WRAP == 2 * m;
    assert (2 * n + 1) % WRAP == 2 * m + 1;
  }

  // ----- whole reads -----

  /** An attempt that ends at this step with nothing: a publish was under way at one of its
      two looks, or a number completed in between that the counter could tell from none. */
  predicate SpoiledAttempt(s: State, step: Step, r: nat)
    requires r in s.readers
  {
    var me := s.readers[r];
    || (step == LoadBefore(r) && me.Loading? && me.attempt < MAX_ATTEMPTS && s.writer.Writing?)
    || (step == LoadAfter(r) && me.Copying? && !(s.writer.Idle? && (|s.published| - me.at) % 0x8000_0000 == 0))
  }

  /** An attempt's first look that finds the buffer, by its count, empty. */
  predicate EmptyLook(s: State, step: Step, r: nat)
    requires r in s.readers
  {
    var me := s.readers[r];
    && step == LoadBefore(r) && me.Loading? && me.attempt < MAX_ATTEMPTS
    && s.writer.Idle? && |s.published| % 0x8000_0000 == 0
  }

  /** How many of a reader's attempts along the steps were spoiled by publishes. */
  ghost function SpoiledAttempts(width: nat, s: State, steps: seq<Step>, r: nat): nat
    requires r in s.readers
    decreases |steps|
  {
    if steps == [] || !SlotsSized(width, s) || !Enabled(width, s, steps[0]) then 0
    else
      (if SpoiledAttempt(s, steps[0], r) then 1 else 0)
        + SpoiledAttempts(width, Apply(width, s, steps[0]), steps[1..], r)
  }

  ghost predicate SeesEmpty(width: nat, s: State, steps: seq<Step>, r: nat)
    requires r in s.readers
    decreases |steps|
  {
    && steps != [] && SlotsSized(width, s) && Enabled(width, s, steps[0])
    && (EmptyLook(s, steps[0], r) || SeesEmpty(width, Apply(width, s, steps[0]), steps[1..], r))
  }

  predicate Attempting(me: Reader) {
    || (me.Loading? && me.attempt <= MAX_ATTEMPTS)
    || (me.Copying? && me.attempt < MAX_ATTEMPTS)
  }

  /** The failed attempts so far. */
  function Failures(me: Reader): nat
    requires Attempting(me)
  {
    me.attempt
  }

  /** One step of a run: a reader that is still trying has failed once more exactly if the
      step spoiled its attempt, and gives up exactly on an empty look or after 1000 failures. */
  lemma AttemptStep(width: nat, s: State, step: Step, r: nat)
    requires Inv(width, s) && Enabled(width, s, step) && r in s.readers && Attempting(s.readers[r])
    ensures var me, t := s.readers[r], Apply(width, s, step);
      r in t.readers &&
      var you := t.readers[r];
      && (Attempting(you) || you.Returned?)
      && (Attempting(you) ==>
            && !EmptyLook(s, step, r)
            && Failures(you) == Failures(me) + if SpoiledAttempt(s, step, r) then 1 else 0)
      && (you.Returned? ==>
            && !SpoiledAttempt(s, step, r)
            && (you == Returned(false, []) <==> EmptyLook(s, step, r) || Failures(me) >= MAX_ATTEMPTS))
  {
    var me := s.readers[r];
    assert ReaderInv(width, s, me);
    if step == LoadBefore(r) {
      WrapParity(|s.published|);
    }
    if step == LoadAfter(r) {
      WrapParity(|s.published|);
      WrapParity(me.at);
      WrapEqual(|s.published|, me.at);
    }
  }

  /** A reader that has returned stays so until it reads again. */
  lemma {:induction false} StaysReturned(width: nat, s: State, steps: seq<Step>, t: State, r: nat)
    requires Inv(width, s) && Leads(width, s, steps, t) && BeginRead(r) !in steps
    requires r in s.readers && s.readers[r].Returned?
    ensures r in t.readers && t.readers[r] == s.readers[r]
    ensures !SeesEmpty(width, s, steps, r) && SpoiledAttempts(width, s, steps, r) == 0
    decreases |steps|
  {
    if steps != [] {
      assert steps[0] in steps;
      StepKeeps(width, s, steps[0]);
      StaysReturned(width, Apply(width, s, steps[0]), steps[1..], t, r);
    }
  }

  lemma {:induction false} GivesUp(width: nat, s: State, steps: seq<Step>, t: State, r: nat)
    requires Inv(width, s) && Leads(width, s, steps, t) && BeginRead(r) !in steps
    requires r in s.readers && Attempting(s.readers[r]) && r in t.readers && t.readers[r].Returned?
    ensures t.readers[r] == Returned(false, []) <==>
      || SeesEmpty(width, s, steps, r)
      || Failures(s.readers[r]) + SpoiledAttempts(width, s, steps, r) >= MAX_ATTEMPTS
    decreases |steps|
  {
    hide Inv, Enabled, Apply, SpoiledAttempt, EmptyLook;
    if steps != [] {
      var u := Apply(width, s, steps[0]);
      StepKeeps(width, s, steps[0]);
      AttemptStep(width, s, steps[0], r);
      if Attempting(u.readers[r]) {
        GivesUp(width, u, steps[1..], t, r);
      } else {
        StaysReturned(width, u, steps[1..], t, r);
      }
    }
  }

  /** A whole read, over every interleaving in which it returns: it returns nothing exactly if
      an attempt's first look found the publish count at a multiple of 2^31, or publishes
      spoiled all 1000 attempts. */
  lemma ReadFailsExactly(width: nat, s: State, steps: seq<Step>, t: State, r: nat)
    requires Reachable(width, s) && Leads(width, s, steps, t) && BeginRead(r) !in steps
    requires r in s.readers && s.readers[r] == Loading(0) && r in t.readers && t.readers[r].Returned?
    ensures t.readers[r] == Returned(false, []) <==>
      SeesEmpty(width, s, steps, r) || SpoiledAttempts(width, s, steps, r) >= MAX_ATTEMPTS
  {
    ReachableInv(width, s);
    GivesUp(width, s, steps, t, r);
  }

  // ----- where the promises stop -----

  lemma {:induction false} LeadsJoin(width: nat, s: State, a: seq<Step>, t: State, b: seq<Step>, u: State)
    requires Leads(width, s, a, t) && Leads(width, t, b, u)
    ensures Leads(width, s, a + b, u)
    decreases |a|
  {
    if a == [] {
      assert a + b == b;
    } else {
      LeadsJoin(width, Apply(width, s, a[0]), a[1..], t, b, u);
      assert (a + b)[1..] == a[1..] + b && (a + b)[0] == a[0];
    }
  }

  /** `t` can follow `s`. */
  ghost predicate Via(width: nat, s: State, t: State) {
    exists steps :: Leads(width, s, steps, t)
  }

  lemma ViaJoin(width: nat, s: State, t: State, u: State)
    requires Via(width, s, t) && Via(width, t, u)
    ensures Via(width, s, u)
  {
    var a :| Leads(width, s, a, t);
    var b :| Leads(width, t, b, u);
    LeadsJoin(width, s, a, t, b, u);
  }

  /** One more step after a state already on the way. */
  lemma ViaStep(width: nat, s: State, t: State, step: Step) returns (u: State)
    requires Via(width, s, t) && Inv(width, t) && Enabled(width, t, step)
    ensures Via(width, s, u) && Inv(width, u) && SlotsSized(width, t) && u == Apply(width, t, step)
  {
    u := Apply(width, t, step);
    StepKeeps(width, t, step);
    assert [step][1..] == [];
    assert Leads(width, t, [step], u);
    ViaJoin(width, s, t, u);
  }

  /** `k` uninterrupted publishes of the one-word value `x`. */
  lemma {:induction false} PublishMany(s: State, x: int, k: nat) returns (t: State)
    requires Inv(1, s) && s.writer.Idle?
    ensures Via(1, s, t) && Inv(1, t) && t.writer.Idle? && t.readers == s.readers
    ensures |t.published| == |s.published| + k && (k > 0 ==> t.published[|t.published| - 1] == [x])
  {
    if k == 0 {
      t := s;
      assert Leads(1, s, [], t);
    } else {
      t := PublishMany(s, x, k - 1);
      t := ViaStep(1, s, t, BeginPublish([x]));
      t := ViaStep(1, s, t, WriteWord);
      t := ViaStep(1, s, t, EndPublish);
    }
  }

  /** A fresh buffer with one reader and nothing published. */
  const FRESH := State(0, [[0], [0]], Idle, map[0 := Resting], [])

  /** After 2^31 publishes the buffer again reports that nothing has been published. */
  lemma WrapHidesPublishes() returns (s: State)
    ensures Reachable(1, s) && |s.published| == 0x8000_0000 && Enabled(1, s, LoadBefore(0)) && SlotsSized(1, s)
    ensures Apply(1, s, LoadBefore(0)).readers[0] == Returned(false, [])
  {
    var p := PublishMany(FRESH, 7, 0x8000_0000);
    s := ViaStep(1, FRESH, p, BeginRead(0));
    WrapParity(|s.published|);
  }

  lemma AfterFirstPublish() returns (s: State)
    ensures Via(1, FRESH, s) && Inv(1, s) && s.writer.Idle? && s.published == [[1]]
    ensures s.counter == 2 && s.slots[1] == [1] && s.readers == FRESH.readers
  {
    s := PublishMany(FRESH, 1, 1);
    assert s.published == [s.published[0]];
    assert s.slots[1 % 2] == s.published[0];
  }

  /** A reader that has copied the only value published so far and not yet rechecked. */
  lemma ReaderHalfway() returns (s: State)
    ensures Via(1, FRESH, s) && Inv(1, s) && s.writer.Idle? && |s.published| == 1
    ensures 0 in s.readers && s.readers[0] == Copying(0, 2, 1, [1])
  {
    var p := AfterFirstPublish();
    var a := ViaStep(1, FRESH, p, BeginRead(0));
    var b := ViaStep(1, FRESH, a, LoadBefore(0));
    assert b.readers[0] == Copying(0, 2, 1, []) && b.slots == p.slots;
    s := ViaStep(1, FRESH, b, ReadWord(0));
    assert StableSlot(2) == 1;
  }

  /** The bound on overlapping publishes is tight: a reader lapped by exactly 2^31 of
      them passes its recheck with a value that is no longer the latest. */
  lemma LappedReadIsStale() returns (s: State)
    ensures Reachable(1, s) && Enabled(1, s, LoadAfter(0)) && SlotsSized(1, s)
    ensures |s.published| - s.readers[0].at == 0x8000_0000
    ensures Apply(1, s, LoadAfter(0)).readers[0] == Returned(true, [1])
    ensures s.published[|s.published| - 1] == [2]
  {
    var half := ReaderHalfway();
    s := PublishMany(half, 2, 0x8000_0000);
    ViaJoin(1, FRESH, half, s);
  }
}
