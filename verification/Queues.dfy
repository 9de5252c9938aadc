/** The bridge's two containers in the form the program gives them: a bounded FIFO
    command queue, and the telemetry buffer whose publish and read are loops over the
    steps of the seqlock. */
module Queues {
  import Seqlock

  /** What a bounded queue holds; `maxDepth` is the deepest it has ever been. */
  datatype QueueState<T> = QueueState(capacity: nat, items: seq<T>, maxDepth: nat, closed: bool)

  /** Refuses when closed or full, and otherwise appends. */
  function Push<T>(q: QueueState<T>, x: T): (QueueState<T>, bool) {
    if q.closed || |q.items| >= q.capacity then (q, false)
    else (q.(items := q.items + [x], maxDepth := if |q.items| + 1 > q.maxDepth then |q.items| + 1 else q.maxDepth),
      true)
  }

  class BoundedQueue<T> {
    const capacity: nat
    var items: seq<T>
    var maxDepth: nat
    var closed: bool

    ghost predicate Valid()
      reads this
    {
      |items| <= maxDepth <= capacity
    }

    ghost function View(): QueueState<T>
      reads this
    {
      QueueState(capacity, items, maxDepth, closed)
    }

    constructor (capacity: nat)
      ensures Valid() && View() == QueueState(capacity, [], 0, false)
    {
      this.capacity := capacity;
      items, maxDepth, closed := [], 0, false;
    }

    method TryPush(value: T) returns (ok: bool)
      requires Valid()
      modifies this
      ensures Valid() && (View(), ok) == Push(old(View()), value)
      ensures ok <==> !old(closed) && |old(items)| < capacity
      ensures items == if ok then old(items) + [value] else old(items)
    {
      if closed || |items| >= capacity {
        return false;
      }
      items := items + [value];
      if |items| > maxDepth {
        maxDepth := |items|;
      }
      return true;
    }

    method TryPop() returns (ok: bool, out: seq<T>)
      requires Valid()
      modifies this
      ensures Valid() && ok == (old(items) != []) && out + items == old(items) && |out| == if ok then 1 else 0
      ensures View() == old(View()).(items := items)
    {
      if items == [] {
        return false, [];
      }
      out := items[..1];
      items := items[1..];
      return true, out;
    }

    /** Later pushes fail; what is queued stays poppable. */
    method Close()
      requires Valid()
      modifies this
      ensures Valid() && View() == old(View()).(closed := true)
    {
      closed := true;
    }
  }

  /** The telemetry buffer with its words in place. The ghost `state` follows the
      seqlock's steps; every load, store and word copy below is one of them. */
  class TelemetrySnapshotBuffer {
    const width: nat
    var counter: nat
    var slots: seq<Seqlock.Value>
    ghost var state: Seqlock.State

    ghost predicate Valid()
      reads this
    {
      && Seqlock.Inv(width, state) && state.counter == counter && state.slots == slots
      && state.readers.Keys == {0}
    }

    /** No thread is between two steps. */
    ghost predicate Quiet()
      reads this
    {
      Valid() && state.writer.Idle? && (state.readers[0].Resting? || state.readers[0].Returned?)
    }

    constructor (width: nat)
      ensures Quiet() && this.width == width && state.published == []
    {
      this.width := width;
      counter := 0;
      var blank := seq(width, _ => 0);
      slots := [blank, blank];
      state := Seqlock.State(0, [blank, blank], Seqlock.Idle, map[0 := Seqlock.Resting], []);
    }

    ghost method Take(step: Seqlock.Step)
      requires Seqlock.Inv(width, state) && Seqlock.Enabled(width, state, step)
      modifies this`state
      ensures Seqlock.Inv(width, state) && Seqlock.SlotsSized(width, old(state))
      ensures state == Seqlock.Apply(width, old(state), step)
    {
      Seqlock.StepKeeps(width, state, step);
      state := Seqlock.Apply(width, state, step);
    }

    method Publish(value: Seqlock.Value)
      requires Quiet() && |value| == width
      modifies this
      ensures Quiet() && state.published == old(state.published) + [value]
    {
      var s := counter;
      counter := (s + 1) % Seqlock.WRAP;
      Take(Seqlock.BeginPublish(value));
      var t := Seqlock.TargetSlot(s);
      for i := 0 to |value|
        invariant Valid() && state.published == old(state.published) && state.readers == old(state.readers)
        invariant state.writer == Seqlock.Writing(s, value, i)
      {
        slots := slots[t := slots[t][i := value[i]]];
        Take(Seqlock.WriteWord);
      }
      counter := (s + 2) % Seqlock.WRAP;
      Take(Seqlock.EndPublish);
    }

    /** Copies the stable slot word by word into `out`. */
    method CopyOut(before: nat) returns (out: Seqlock.Value)
      requires Valid() && state.writer.Idle? && counter == before
      requires state.readers[0] == Seqlock.Copying(0, before, |state.published|, [])
      modifies this`state
      ensures Valid() && state.writer.Idle? && state.published == old(state.published)
      ensures state.readers[0] == Seqlock.Copying(0, before, |state.published|, out) && |out| == width
    {
      out := [];
      var stable := slots[Seqlock.StableSlot(before)];
      for i := 0 to |stable|
        invariant Valid() && state.writer.Idle? && state.published == old(state.published)
        invariant state.readers[0] == Seqlock.Copying(0, before, |state.published|, out) && |out| == i
      {
        out := out + [stable[i]];
        Take(Seqlock.ReadWord(0));
      }
    }

    /** The first counter load of an attempt; without a publish under way it only fails
        to go on when the publish count is a multiple of 2^31. */
    method LoadBefore() returns (before: nat)
      requires Quiet()
      modifies this`state
      ensures Valid() && state.writer.Idle? && state.published == old(state.published) && before == counter
      ensures before == 0 <==> |state.published| % 0x8000_0000 == 0
      ensures state.readers[0] == if before == 0 then Seqlock.Returned(false, [])
        else Seqlock.Copying(0, before, |state.published|, [])
    {
      Take(Seqlock.BeginRead(0));
      before := counter;
      Seqlock.WrapParity(|state.published|);
      Take(Seqlock.LoadBefore(0));
    }

    /** One attempt of a read. Undisturbed, it answers: with the latest value, or with
        nothing when the publish count is a multiple of 2^31. */
    method ReadAttempt() returns (ok: bool, out: Seqlock.Value)
      requires Quiet()
      modifies this`state
      ensures Quiet() && state.published == old(state.published)
      ensures ok == (|state.published| % 0x8000_0000 != 0)
      ensures ok ==> out == state.published[|state.published| - 1]
    {
      var before := LoadBefore();
      if before == 0 {
        return false, [];
      }
      out := CopyOut(before);
      var after := counter;
      Seqlock.CopiedWhole(width, state, 0);
      Take(Seqlock.LoadAfter(0));
      return before == after, out;
    }
  }
}
