/** The length-prefixed frame codec of the bridge: four bytes of big-endian length, then
    the payload. The plugin decodes from one buffer with a moving offset, the server from
    a list of chunks; both are proved against one specification, on bytes. */
module Framing {
  import opened Basics

  type Byte = b: int | 0 <= b < 256 witness 0

  /** The decoder as its callers see it: the bytes not yet taken out, and the permanent error. */
  datatype Buffered = Buffered(live: seq<Byte>, failed: bool)

  const WORD := 0x1_0000_0000

  function Header(n: int): (h: seq<Byte>)
    requires 0 <= n < WORD
    ensures |h| == 4
  {
    [n / 0x100_0000, n / 0x1_0000 % 0x100, n / 0x100 % 0x100, n % 0x100]
  }

  function Word(a: int, b: int, c: int, d: int): int {
    a * 0x100_0000 + b * 0x1_0000 + c * 0x100 + d
  }

  function DeclaredLength(s: seq<Byte>): (n: nat)
    requires |s| >= 4
    ensures n < WORD
  {
    Word(s[0], s[1], s[2], s[3])
  }

  /** The length is cut to 32 bits before it is written. */
  function Encode(payload: seq<Byte>, cap: nat): Option<seq<Byte>> {
    if |payload| > cap then None else Some(Header(|payload| % WORD) + payload)
  }

  method EncodeFrame(payload: seq<Byte>, maxFrameBytes: nat) returns (ok: bool, out: seq<Byte>)
    ensures Encode(payload, maxFrameBytes) == if ok then Some(out) else None
  {
    if |payload| > maxFrameBytes {
      return false, [];
    }
    var n := |payload| % WORD;
    out := [];
    out := out + Header(n);
    out := out + payload;
    assert out == Header(n) + payload;
    return true, out;
  }

  function Push(b: Buffered, chunk: seq<Byte>, cap: nat): (Buffered, bool) {
    if b.failed then (b, false)
    else if |b.live| + |chunk| > 2 * (cap + 4) then (b.(failed := true), false)
    else (b.(live := b.live + chunk), true)
  }

  function Next(b: Buffered, cap: nat): (Buffered, Option<seq<Byte>>) {
    if b.failed || |b.live| < 4 then (b, None)
    else
      var n := DeclaredLength(b.live);
      if n > cap then (b.(failed := true), None)
      else if |b.live| < 4 + n then (b, None)
      else (b.(live := b.live[4 + n..]), Some(b.live[4..4 + n]))
  }

  lemma SliceOfRest<T>(s: seq<T>, from: nat, a: nat, b: nat)
    requires from + a <= from + b <= |s|
    ensures s[from..][a..b] == s[from + a..from + b] && s[from..][b..] == s[from + b..]
  {}

  // ----- the plugin's decoder: one buffer and an offset -----

  class OffsetDecoder {
    const maxFrameBytes: nat
    var buffer: seq<Byte>
    var consumed: nat
    var error: bool

    /** The dead bytes at the front are always less than half the buffer, so the buffer
        stays below twice the live bytes. */
    ghost predicate Valid()
      reads this
    {
      consumed == 0 || consumed < |buffer| / 2
    }

    ghost function View(): Buffered
      requires Valid()
      reads this
    {
      Buffered(buffer[consumed..], error)
    }

    constructor (maxFrameBytes: nat)
      ensures Valid() && this.maxFrameBytes == maxFrameBytes && View() == Buffered([], false)
    {
      this.maxFrameBytes := maxFrameBytes;
      buffer, consumed, error := [], 0, false;
    }

    method PushBytes(data: seq<Byte>) returns (ok: bool)
      requires Valid()
      modifies this
      ensures Valid() && (View(), ok) == Push(old(View()), data, maxFrameBytes)
      ensures buffer == [] || |buffer| < 2 * |View().live|
    {
      if error {
        return false;
      }
      if |buffer| - consumed + |data| > 2 * (maxFrameBytes + 4) {
        error := true;
        return false;
      }
      assert (buffer + data)[consumed..] == buffer[consumed..] + data;
      buffer := buffer + data;
      return true;
    }

    method NextFrame() returns (frame: Option<seq<Byte>>)
      requires Valid()
      modifies this
      ensures Valid() && (View(), frame) == Next(old(View()), maxFrameBytes)
      ensures buffer == [] || |buffer| < 2 * |View().live|
    {
      if error {
        return None;
      }
      var avail := |buffer| - consumed;
      if avail < 4 {
        return None;
      }
      var n := Word(buffer[consumed], buffer[consumed + 1], buffer[consumed + 2], buffer[consumed + 3]);
      ghost var live := View().live;
      assert n == DeclaredLength(live);
      if n > maxFrameBytes {
        error := true;
        return None;
      }
      if avail < 4 + n {
        return None;
      }
      frame := Some(buffer[consumed + 4..consumed + 4 + n]);
      SliceOfRest(buffer, consumed, 4, 4 + n);
      consumed := consumed + 4 + n;
      Compact();
    }

    /** Drops the dead bytes once they are half the buffer or all of it. */
    method Compact()
      requires consumed <= |buffer|
      modifies this`buffer, this`consumed
      ensures Valid() && buffer[consumed..] == old(buffer[consumed..])
    {
      if consumed == 0 {
        return;
      }
      if consumed == |buffer| {
        buffer, consumed := [], 0;
        return;
      }
      if consumed >= |buffer| / 2 {
        buffer, consumed := buffer[consumed..], 0;
      }
    }
  }

  // ----- the server's decoder: a list of chunks -----

  function Concat<T>(chunks: seq<seq<T>>): seq<T> {
    if chunks == [] then [] else Concat(chunks[..|chunks| - 1]) + chunks[|chunks| - 1]
  }

  lemma OneChunk<T>(c: seq<T>)
    ensures Concat([c]) == c
  {
    assert [c][..0] == [];
  }

  lemma NoChunks<T>()
    ensures Concat<T>([]) == []
  {}

  function Joined<T>(chunks: seq<seq<T>>): (all: seq<T>)
    ensures all == Concat(chunks)
  {
    if |chunks| == 1 then
      OneChunk(chunks[0]);
      assert chunks == [chunks[0]];
      chunks[0]
    else Concat(chunks)
  }

  class ChunkDecoder {
    const maxFrameBytes: nat
    var chunks: seq<seq<Byte>>
    var buffered: nat
    var failed: bool

    ghost predicate Valid()
      reads this
    {
      buffered == |Concat(chunks)|
    }

    ghost function View(): Buffered
      reads this
    {
      Buffered(Concat(chunks), failed)
    }

    constructor (maxFrameBytes: nat)
      ensures Valid() && this.maxFrameBytes == maxFrameBytes && View() == Buffered([], false)
    {
      this.maxFrameBytes := maxFrameBytes;
      chunks, buffered, failed := [], 0, false;
    }

    method PushChunk(chunk: seq<Byte>) returns (ok: bool)
      requires Valid()
      modifies this
      ensures Valid() && (View(), ok) == Push(old(View()), chunk, maxFrameBytes)
    {
      if failed {
        return false;
      }
      if buffered + |chunk| > 2 * (maxFrameBytes + 4) {
        failed := true;
        return false;
      }
      chunks := chunks + [chunk];
      buffered := buffered + |chunk|;
      return true;
    }

    method NextFrame() returns (frame: Option<seq<Byte>>)
      requires Valid()
      modifies this
      ensures Valid() && (View(), frame) == Next(old(View()), maxFrameBytes)
    {
      hide Word, Concat;
      if failed || buffered < 4 {
        return None;
      }
      var all := Joined(chunks);
      chunks := [all];
      OneChunk(all);
      var n := DeclaredLength(all);
      if n > maxFrameBytes {
        failed := true;
        return None;
      }
      if |all| < 4 + n {
        return None;
      }
      var rest := all[4 + n..];
      chunks := if |rest| > 0 then [rest] else [];
      OneChunk(rest);
      NoChunks<Byte>();
      buffered := |rest|;
      return Some(all[4..4 + n]);
    }
  }

  // ----- agreement -----

  datatype Call = PushCall(bytes: seq<Byte>) | NextCall

  datatype Reply = Pushed(ok: bool) | Pulled(frame: Option<seq<Byte>>)

  /** What one call leaves and replies. */
  function Called(b: Buffered, call: Call, cap: nat): (Buffered, Reply) {
    match call
    case PushCall(bytes) => (var (b', ok) := Push(b, bytes, cap); (b', Pushed(ok)))
    case NextCall => (var (b', frame) := Next(b, cap); (b', Pulled(frame)))
  }

  function Driven(calls: seq<Call>, cap: nat): (r: (Buffered, seq<Reply>))
    ensures |r.1| == |calls|
  {
    if calls == [] then (Buffered([], false), [])
    else
      var (b, replies) := Driven(calls[..|calls| - 1], cap);
      var (b', reply) := Called(b, calls[|calls| - 1], cap);
      (b', replies + [reply])
  }

  /** Whatever is pushed and pulled, the live bytes never exceed two longest frames. */
  lemma {:induction false} LiveBounded(calls: seq<Call>, cap: nat)
    ensures |Driven(calls, cap).0.live| <= 2 * (cap + 4)
  {
    if calls != [] {
      LiveBounded(calls[..|calls| - 1], cap);
    }
  }

  /** The call asks for more than the decoder takes: too many bytes, or a frame too long. */
  predicate Overruns(b: Buffered, call: Call, cap: nat) {
    match call
    case PushCall(bytes) => |b.live| + |bytes| > 2 * (cap + 4)
    case NextCall => |b.live| >= 4 && Word(b.live[0], b.live[1], b.live[2], b.live[3]) > cap
  }

  ghost predicate OverrunAt(calls: seq<Call>, k: nat, cap: nat) {
    k < |calls| && Overruns(Driven(calls[..k], cap).0, calls[k], cap)
  }

  lemma OverrunPrefix(calls: seq<Call>, k: nat, cap: nat)
    requires k + 1 < |calls|
    ensures OverrunAt(calls[..|calls| - 1], k, cap) <==> OverrunAt(calls, k, cap)
  {
    hide Driven, Overruns;
    assert calls[..|calls| - 1][..k] == calls[..k];
  }

  lemma DrivenLast(calls: seq<Call>, cap: nat)
    requires calls != []
    ensures var n := |calls| - 1;
      var (b', reply) := Called(Driven(calls[..n], cap).0, calls[n], cap);
      && Driven(calls, cap).0 == b' && Driven(calls, cap).1[n] == reply
      && (OverrunAt(calls, n, cap) <==> Overruns(Driven(calls[..n], cap).0, calls[n], cap))
  {
    hide Called, Overruns;
  }

  /** A decoder has failed exactly if some call so far overran it, and from then on it takes
      nothing and gives nothing; until then it refuses no bytes. */
  lemma {:induction false} FailsExactly(calls: seq<Call>, cap: nat)
    ensures Driven(calls, cap).0.failed <==> exists k: nat :: OverrunAt(calls, k, cap)
    ensures calls != [] && Driven(calls, cap).0.failed ==>
      Driven(calls, cap).1[|calls| - 1] == if calls[|calls| - 1].PushCall? then Pushed(false) else Pulled(None)
    ensures calls != [] && !Driven(calls, cap).0.failed && calls[|calls| - 1].PushCall? ==>
      Driven(calls, cap).1[|calls| - 1] == Pushed(true)
  {
    hide Overruns, Called, Driven, OverrunAt;
    OverrunWithin(calls, cap);
    if calls == [] {
      NothingDriven(cap);
    } else {
      var n := |calls| - 1;
      FailsExactly(calls[..n], cap);
      DrivenLast(calls, cap);
      CallFails(Driven(calls[..n], cap).0, calls[n], cap);
      OverrunWithin(calls[..n], cap);
      if k: nat :| OverrunAt(calls[..n], k, cap) {
        OverrunPrefix(calls, k, cap);
      }
      if k: nat :| OverrunAt(calls, k, cap) && k < n {
        OverrunPrefix(calls, k, cap);
      }
    }
  }

  lemma NothingDriven(cap: nat)
    ensures Driven([], cap) == (Buffered([], false), [])
  {}

  lemma OverrunWithin(calls: seq<Call>, cap: nat)
    ensures forall k: nat :: OverrunAt(calls, k, cap) ==> k < |calls|
  {}

  lemma CallFails(b: Buffered, call: Call, cap: nat)
    ensures var (b', reply) := Called(b, call, cap);
      && (b'.failed <==> b.failed || Overruns(b, call, cap))
      && (b'.failed ==> reply == if call.PushCall? then Pushed(false) else Pulled(None))
      && (!b'.failed && call.PushCall? ==> reply == Pushed(true))
  {
    hide Word;
  }

  /** Whatever is pushed and pulled, in whatever order, the two decoders reply alike. */
  method DriveBoth(calls: seq<Call>, cap: nat) returns (offset: seq<Reply>, chunked: seq<Reply>)
    ensures |offset| == |calls| && offset == chunked == Driven(calls, cap).1
  {
    var a := new OffsetDecoder(cap);
    var b := new ChunkDecoder(cap);
    offset, chunked := [], [];
    for i := 0 to |calls|
      invariant fresh(a) && fresh(b) && a.Valid() && b.Valid() && a.View() == b.View()
        && a.maxFrameBytes == b.maxFrameBytes
      invariant |offset| == i && offset == chunked && Driven(calls[..i], cap) == (a.View(), offset)
    {
      assert calls[..i + 1][..i] == calls[..i];
      match calls[i]
      case PushCall(bytes) =>
        var x := a.PushBytes(bytes);
        var y := b.PushChunk(bytes);
        offset, chunked := offset + [Pushed(x)], chunked + [Pushed(y)];
      case NextCall =>
        var x := a.NextFrame();
        var y := b.NextFrame();
        offset, chunked := offset + [Pulled(x)], chunked + [Pulled(y)];
    }
    assert calls[..|calls|] == calls;
  }

  // ----- draining and chunking -----

  /** Pulls frames until none is ready. */
  function Drain(b: Buffered, cap: nat): (Buffered, seq<seq<Byte>>)
    decreases |b.live|
  {
    var (b', frame) := Next(b, cap);
    if frame.None? then (b', [])
    else
      var (b'', frames) := Drain(b', cap);
      (b'', [frame.value] + frames)
  }

  /** Pushes the chunks one by one, draining after each. */
  function Feed(chunks: seq<seq<Byte>>, cap: nat): (Buffered, seq<seq<Byte>>) {
    if chunks == [] then (Buffered([], false), [])
    else
      var (b, frames) := Feed(chunks[..|chunks| - 1], cap);
      var (b', more) := Drain(Push(b, chunks[|chunks| - 1], cap).0, cap);
      (b', frames + more)
  }

  function DrainBytes(s: seq<Byte>, cap: nat): (Buffered, seq<seq<Byte>>) {
    Drain(Buffered(s, false), cap)
  }

  /** What is left after draining is shorter than one frame. */
  lemma {:induction false} Residue(s: seq<Byte>, cap: nat)
    ensures !DrainBytes(s, cap).0.failed ==> |DrainBytes(s, cap).0.live| < cap + 4
    decreases |s|
  {
    var (b, frame) := Next(Buffered(s, false), cap);
    if frame.Some? {
      Residue(b.live, cap);
    }
  }

  /** Between a push and the drain after it, the live bytes stay within one frame exactly if
      the residue and the chunk do together. */
  lemma PushedBound(s: seq<Byte>, chunk: seq<Byte>, cap: nat)
    requires !DrainBytes(s, cap).0.failed
    ensures var b := DrainBytes(s, cap).0;
      var (b', ok) := Push(b, chunk, cap);
      && (|chunk| <= cap + 4 ==> ok)
      && (ok ==> (|b'.live| <= cap + 4 <==> |b.live| + |chunk| <= cap + 4))
  {
    hide Next, DrainBytes;
    Residue(s, cap);
  }

  function ZeroBytes(n: nat): (r: seq<Byte>)
    ensures |r| == n
  {
    if n == 0 then [] else ZeroBytes(n - 1) + [0]
  }

  /** All but the last byte of a longest frame, and then two bytes more: the push is accepted
      and the live bytes are more than one frame. */
  lemma PushPastOneFrame(cap: nat) returns (residue: seq<Byte>, chunk: seq<Byte>)
    requires 0 < cap < WORD
    ensures DrainBytes(residue, cap) == (Buffered(residue, false), []) && |residue| == cap + 3 && |chunk| <= cap + 4
    ensures var (b, ok) := Push(Buffered(residue, false), chunk, cap); ok && |b.live| > cap + 4
  {
    hide Word, Header;
    residue, chunk := Header(cap) + ZeroBytes(cap - 1), [0, 0];
    HeaderLength(cap);
    assert DeclaredLength(residue) == DeclaredLength(Header(cap));
  }

  /** A frame, or an error, is there whatever bytes follow it. */
  lemma NextMore(s: seq<Byte>, t: seq<Byte>, cap: nat)
    ensures var (b, frame), (b', frame') := Next(Buffered(s, false), cap), Next(Buffered(s + t, false), cap);
      && (frame.Some? ==> b' == Buffered(b.live + t, false) && frame' == frame && !b.failed && |b.live| < |s|)
      && (b.failed ==> b'.failed && frame' == None)
  {
    hide Word;
    if |s| >= 4 {
      var n := DeclaredLength(s);
      assert DeclaredLength(s + t) == n;
      if |s| >= 4 + n {
        assert (s + t)[4..4 + n] == s[4..4 + n] && (s + t)[4 + n..] == s[4 + n..] + t;
      }
    }
  }

  /** Draining can be interrupted: bytes that come later are as good as bytes that were there. */
  lemma {:induction false} DrainMore(s: seq<Byte>, t: seq<Byte>, cap: nat)
    ensures var (b, frames) := DrainBytes(s, cap);
      if b.failed then
        DrainBytes(s + t, cap).0.failed && DrainBytes(s + t, cap).1 == frames
      else (
        && DrainBytes(s + t, cap).0 == DrainBytes(b.live + t, cap).0
        && DrainBytes(s + t, cap).1 == frames + DrainBytes(b.live + t, cap).1)
    decreases |s|
  {
    hide Next, DrainBytes;
    NextMore(s, t, cap);
    var (b, frame) := Next(Buffered(s, false), cap);
    if frame.Some? {
      DrainMore(b.live, t, cap);
      DrainFirst(s, cap);
      DrainFirst(s + t, cap);
    } else {
      DrainStops(s, cap);
      if b.failed {
        DrainStops(s + t, cap);
      }
    }
  }

  lemma DrainFirst(s: seq<Byte>, cap: nat)
    requires Next(Buffered(s, false), cap).1.Some?
    ensures var (b, frame) := Next(Buffered(s, false), cap);
      DrainBytes(s, cap) == (DrainBytes(b.live, cap).0, [frame.value] + DrainBytes(b.live, cap).1)
  {}

  lemma DrainStops(s: seq<Byte>, cap: nat)
    requires Next(Buffered(s, false), cap).1.None?
    ensures DrainBytes(s, cap) == (Next(Buffered(s, false), cap).0, [])
    ensures !Next(Buffered(s, false), cap).0.failed ==> Next(Buffered(s, false), cap).0.live == s
  {}

  /** Chunking does not matter: for any bytes, well formed or not, cut into chunks no
      longer than a frame, the decoder gives the frames and the error that the bytes give
      when drained all at once. */
  lemma {:induction false} FeedIsDrain(chunks: seq<seq<Byte>>, cap: nat)
    requires forall c :: c in chunks ==> |c| <= cap + 4
    ensures Feed(chunks, cap).1 == DrainBytes(Concat(chunks), cap).1
    ensures Feed(chunks, cap).0.failed == DrainBytes(Concat(chunks), cap).0.failed
    ensures !Feed(chunks, cap).0.failed ==> Feed(chunks, cap).0 == DrainBytes(Concat(chunks), cap).0
  {
    if chunks != [] {
      var before, last := chunks[..|chunks| - 1], chunks[|chunks| - 1];
      FeedIsDrain(before, cap);
      Residue(Concat(before), cap);
      DrainMore(Concat(before), last, cap);
    }
  }

  // ----- round trip -----

  /** The frames of the payloads, one after the other. */
  function EncodeAll(payloads: seq<seq<Byte>>, cap: nat): seq<Byte>
    requires forall p :: p in payloads ==> |p| <= cap
  {
    if payloads == [] then [] else Encode(payloads[0], cap).value + EncodeAll(payloads[1..], cap)
  }

  lemma Shifts(n: nat)
    ensures n / 0x1_0000 == n / 0x100 / 0x100 && n / 0x100_0000 == n / 0x1_0000 / 0x100
  {}

  lemma DigitsOf(n: nat)
    ensures Word(n / 0x100_0000, n / 0x1_0000 % 0x100, n / 0x100 % 0x100, n % 0x100) == n
  {
    Shifts(n);
    var a, b, c := n / 0x100, n / 0x1_0000, n / 0x100_0000;
    assert n == 0x100 * a + n % 0x100 && a == 0x100 * b + a % 0x100 && b == 0x100 * c + b % 0x100;
  }

  lemma HeaderLength(n: nat)
    requires n < WORD
    ensures DeclaredLength(Header(n)) == n
  {
    DigitsOf(n);
    hide Word;
  }

  /** The declared length survives exactly when it fits in 32 bits. */
  lemma HeaderRoundTrip(n: nat)
    ensures DeclaredLength(Header(n % WORD)) == n <==> n < WORD
  {
    hide Header, Word;
    HeaderLength(n % WORD);
  }

  lemma FirstFrame(p: seq<Byte>, rest: seq<Byte>, cap: nat)
    requires cap < WORD && |p| <= cap
    ensures Next(Buffered(Header(|p|) + p + rest, false), cap) == (Buffered(rest, false), Some(p))
  {
    hide Word, Header;
    var s := Header(|p|) + p + rest;
    HeaderLength(|p|);
    assert DeclaredLength(s) == DeclaredLength(Header(|p|));
    assert s[4..4 + |p|] == p && s[4 + |p|..] == rest;
  }

  lemma {:induction false} DrainEncoded(payloads: seq<seq<Byte>>, cap: nat)
    requires cap < WORD && forall p :: p in payloads ==> |p| <= cap
    ensures DrainBytes(EncodeAll(payloads, cap), cap) == (Buffered([], false), payloads)
  {
    hide Word, Header, Next;
    if payloads == [] {
      DrainNothing(cap);
    } else {
      var p, rest := payloads[0], EncodeAll(payloads[1..], cap);
      assert EncodeAll(payloads, cap) == Header(|p|) + p + rest;
      FirstFrame(p, rest, cap);
      DrainFirst(Header(|p|) + p + rest, cap);
      DrainEncoded(payloads[1..], cap);
      assert payloads == [p] + payloads[1..];
    }
  }

  lemma DrainNothing(cap: nat)
    ensures DrainBytes([], cap) == (Buffered([], false), [])
  {}

  /** Any payloads within the cap, encoded, cut into any chunks no longer than a frame and
      drained after each, come out whole, in order, with no error and nothing left over. */
  lemma RoundTrip(payloads: seq<seq<Byte>>, chunks: seq<seq<Byte>>, cap: nat)
    requires cap < WORD && forall p :: p in payloads ==> |p| <= cap
    requires Concat(chunks) == EncodeAll(payloads, cap) && forall c :: c in chunks ==> |c| <= cap + 4
    ensures Feed(chunks, cap) == (Buffered([], false), payloads)
  {
    FeedIsDrain(chunks, cap);
    DrainEncoded(payloads, cap);
  }
}
