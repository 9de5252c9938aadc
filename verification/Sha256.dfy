/** The streaming SHA-256 and the HMAC built on it, proved to be the hash of sections
    5.1.1 and 6.2.2 of FIPS 180-4 and the construction of section 2 of RFC 2104, however
    the message is cut into updates. */
module Sha256 {

  type Bytes = seq<bv8>

  /** Eight 32-bit words: the hash value, or the working variables a to h. */
  datatype Words = Words(a: bv32, b: bv32, c: bv32, d: bv32, e: bv32, f: bv32, g: bv32, h: bv32)

  const INITIAL := Words(0x6a09e667, 0xbb67ae85, 0x3c6ef372, 0xa54ff53a, 0x510e527f, 0x9b05688c, 0x1f83d9ab, 0x5be0cd19)

  /** The round constants, in rows of eight. */
  const K_0: seq<bv32> :=
    [0x428a2f98, 0x71374491, 0xb5c0fbcf, 0xe9b5dba5, 0x3956c25b, 0x59f111f1, 0x923f82a4, 0xab1c5ed5]
  const K_1: seq<bv32> :=
    [0xd807aa98, 0x12835b01, 0x243185be, 0x550c7dc3, 0x72be5d74, 0x80deb1fe, 0x9bdc06a7, 0xc19bf174]
  const K_2: seq<bv32> :=
    [0xe49b69c1, 0xefbe4786, 0x0fc19dc6, 0x240ca1cc, 0x2de92c6f, 0x4a7484aa, 0x5cb0a9dc, 0x76f988da]
  const K_3: seq<bv32> :=
    [0x983e5152, 0xa831c66d, 0xb00327c8, 0xbf597fc7, 0xc6e00bf3, 0xd5a79147, 0x06ca6351, 0x14292967]
  const K_4: seq<bv32> :=
    [0x27b70a85, 0x2e1b2138, 0x4d2c6dfc, 0x53380d13, 0x650a7354, 0x766a0abb, 0x81c2c92e, 0x92722c85]
  const K_5: seq<bv32> :=
    [0xa2bfe8a1, 0xa81a664b, 0xc24b8b70, 0xc76c51a3, 0xd192e819, 0xd6990624, 0xf40e3585, 0x106aa070]
  const K_6: seq<bv32> :=
    [0x19a4c116, 0x1e376c08, 0x2748774c, 0x34b0bcb5, 0x391c0cb3, 0x4ed8aa4a, 0x5b9cca4f, 0x682e6ff3]
  const K_7: seq<bv32> :=
    [0x748f82ee, 0x78a5636f, 0x84c87814, 0x8cc70208, 0x90befffa, 0xa4506ceb, 0xbef9a3f7, 0xc67178f2]

  const K: seq<bv32> := K_0 + K_1 + K_2 + K_3 + K_4 + K_5 + K_6 + K_7

  function RoundConstant(t: nat): bv32
    requires t < 64
  {
    K[t]
  }

  // ----- the functions of section 4.1.2 -----

  function Rotr(x: bv32, n: nat): bv32
    requires 0 < n < 32
  {
    (x >> n) | (x << (32 - n))
  }

  function BigSigma0(x: bv32): bv32 {
    Rotr(x, 2) ^ Rotr(x, 13) ^ Rotr(x, 22)
  }

  function BigSigma1(x: bv32): bv32 {
    Rotr(x, 6) ^ Rotr(x, 11) ^ Rotr(x, 25)
  }

  function SmallSigma0(x: bv32): bv32 {
    Rotr(x, 7) ^ Rotr(x, 18) ^ (x >> 3)
  }

  function SmallSigma1(x: bv32): bv32 {
    Rotr(x, 17) ^ Rotr(x, 19) ^ (x >> 10)
  }

  function Ch(x: bv32, y: bv32, z: bv32): bv32 {
    (x & y) ^ (!x & z)
  }

  function Maj(x: bv32, y: bv32, z: bv32): bv32 {
    (x & y) ^ (x & z) ^ (y & z)
  }

  /** Addition modulo 2^32. */
  function Plus(x: bv32, y: bv32): bv32 {
    x + y
  }

  function Sum4(x: bv32, y: bv32, z: bv32, u: bv32): bv32 {
    x + y + z + u
  }

  lemma SumReversed(x: bv32, y: bv32, z: bv32, u: bv32)
    ensures Sum4(x, y, z, u) == Sum4(u, z, y, x)
  {}

  // ----- one block, section 6.2.2 -----

  function WordAt(block: Bytes, t: nat): bv32
    requires |block| == 64 && t < 16
  {
    ((block[4 * t] as bv32) << 24) | ((block[4 * t + 1] as bv32) << 16)
      | ((block[4 * t + 2] as bv32) << 8) | (block[4 * t + 3] as bv32)
  }

  function Schedule(block: Bytes, t: nat): bv32
    requires |block| == 64 && t < 64
  {
    if t < 16 then WordAt(block, t)
    else Sum4(SmallSigma1(Schedule(block, t - 2)), Schedule(block, t - 7), SmallSigma0(Schedule(block, t - 15)),
      Schedule(block, t - 16))
  }

  function Round(v: Words, k: bv32, w: bv32): Words {
    var t1 := Plus(Sum4(v.h, BigSigma1(v.e), Ch(v.e, v.f, v.g), k), w);
    var t2 := Plus(BigSigma0(v.a), Maj(v.a, v.b, v.c));
    Words(Plus(t1, t2), v.a, v.b, v.c, Plus(v.d, t1), v.e, v.f, v.g)
  }

  function Rounds(v: Words, block: Bytes, t: nat): Words
    requires |block| == 64 && t <= 64
  {
    if t == 0 then v else Round(Rounds(v, block, t - 1), RoundConstant(t - 1), Schedule(block, t - 1))
  }

  function Added(x: Words, y: Words): Words {
    Words(Plus(x.a, y.a), Plus(x.b, y.b), Plus(x.c, y.c), Plus(x.d, y.d), Plus(x.e, y.e), Plus(x.f, y.f),
      Plus(x.g, y.g), Plus(x.h, y.h))
  }

  function Compressed(v: Words, block: Bytes): Words
    requires |block| == 64
  {
    Added(v, Rounds(v, block, 64))
  }

  lemma ScheduleIs(block: Bytes, t: nat)
    requires |block| == 64 && t < 64
    ensures t < 16 ==> Schedule(block, t) == WordAt(block, t)
    ensures t >= 16 ==>
      Schedule(block, t) == Sum4(Schedule(block, t - 16), SmallSigma0(Schedule(block, t - 15)),
                                 Schedule(block, t - 7), SmallSigma1(Schedule(block, t - 2)))
  {
    hide WordAt, SmallSigma0, SmallSigma1, Sum4;
    if t >= 16 {
      SumReversed(SmallSigma1(Schedule(block, t - 2)), Schedule(block, t - 7), SmallSigma0(Schedule(block, t - 15)),
        Schedule(block, t - 16));
    }
  }

  /** The message schedule, computed forwards. */
  method Expand(block: Bytes) returns (w: seq<bv32>)
    requires |block| == 64
    ensures |w| == 64 && forall t :: 0 <= t < 64 ==> w[t] == Schedule(block, t)
  {
    hide SmallSigma0, SmallSigma1, WordAt, Schedule, Sum4;
    w := [];
    for i := 0 to 16
      invariant |w| == i && forall t :: 0 <= t < i ==> w[t] == Schedule(block, t)
    {
      ScheduleIs(block, i);
      w := w + [WordAt(block, i)];
    }
    for i := 16 to 64
      invariant |w| == i && forall t :: 0 <= t < i ==> w[t] == Schedule(block, t)
    {
      ScheduleIs(block, i);
      var s0, s1 := SmallSigma0(w[i - 15]), SmallSigma1(w[i - 2]);
      w := w + [Sum4(w[i - 16], s0, w[i - 7], s1)];
    }
  }

  lemma RoundsStep(v: Words, block: Bytes, t: nat)
    requires |block| == 64 && t < 64
    ensures Rounds(v, block, t + 1) == Round(Rounds(v, block, t), RoundConstant(t), Schedule(block, t))
  {
    hide Round, RoundConstant, Schedule;
  }

  lemma RoundsStart(v: Words, block: Bytes)
    requires |block| == 64
    ensures Rounds(v, block, 0) == v
  {}

  method ProcessBlock(state: Words, block: Bytes) returns (r: Words)
    requires |block| == 64
    ensures r == Compressed(state, block)
  {
    hide BigSigma0, BigSigma1, Ch, Maj, Plus, Sum4, Schedule, RoundConstant, Rounds;
    var w := Expand(block);
    var a, b, c, d := state.a, state.b, state.c, state.d;
    var e, f, g, h := state.e, state.f, state.g, state.h;
    RoundsStart(state, block);
    for i := 0 to 64
      invariant Words(a, b, c, d, e, f, g, h) == Rounds(state, block, i)
    {
      RoundsStep(state, block, i);
      var t1 := Plus(Sum4(h, BigSigma1(e), Ch(e, f, g), RoundConstant(i)), w[i]);
      var t2 := Plus(BigSigma0(a), Maj(a, b, c));
      h := g;
      g := f;
      f := e;
      e := Plus(d, t1);
      d := c;
      c := b;
      b := a;
      a := Plus(t1, t2);
    }
    r := Added(state, Words(a, b, c, d, e, f, g, h));
  }

  // ----- a whole message, sections 5.1.1 and 6.2.2 -----

  function Zeros(n: nat): (r: Bytes)
    ensures |r| == n && forall i :: 0 <= i < n ==> r[i] == 0
  {
    if n == 0 then [] else Zeros(n - 1) + [0]
  }

  /** The zero bytes that bring the message and its end mark to 56 modulo 64. */
  function ZeroCount(length: nat): (k: nat)
    ensures k < 64 && (length + 1 + k) % 64 == 56
  {
    (119 - length % 64) % 64
  }

  const WORD64 := 0x1_0000_0000_0000_0000

  /** The bits in so many bytes, as a 64-bit counter has them. */
  function BitLength(bytes: nat): nat {
    8 * bytes % WORD64
  }

  const WEIGHTS := [0x100_0000_0000_0000, 0x1_0000_0000_0000, 0x100_0000_0000, 0x1_0000_0000, 0x100_0000, 0x1_0000,
    0x100, 1]

  /** Byte `i` of the 64-bit big-endian form, as a number. */
  function LengthDigit(n: nat, i: nat): (d: nat)
    requires i < 8
    ensures d < 0x100
  {
    n / WEIGHTS[i] % 0x100
  }

  function LengthByte(n: nat, i: nat): bv8
    requires i < 8
  {
    LengthDigit(n, i) as bv8
  }

  function Horner(n: nat, i: nat): nat
    requires i <= 8
  {
    if i == 0 then 0 else Horner(n, i - 1) * 0x100 + LengthDigit(n, i - 1)
  }

  /** The eight bytes, read from the most significant one, give the length back. */
  lemma LengthReadsBack(n: nat)
    requires n < WORD64
    ensures Horner(n, 8) == n
  {
    Leading(n, 8);
  }

  lemma {:induction false} Leading(n: nat, i: nat)
    requires n < WORD64 && 0 < i <= 8
    ensures Horner(n, i) == n / WEIGHTS[i - 1]
  {
    if i == 1 {
      assert Horner(n, 0) == 0;
    } else {
      Leading(n, i - 1);
      ShiftByte(n, i - 1);
    }
  }

  lemma ShiftByte(n: nat, i: nat)
    requires 0 < i < 8
    ensures n / WEIGHTS[i - 1] == n / WEIGHTS[i] / 0x100
  {}

  function LengthBytes(n: nat): (r: Bytes)
    ensures |r| == 8
  {
    seq(8, i requires 0 <= i < 8 => LengthByte(n, i))
  }

  lemma WholeBlocks(n: nat)
    ensures n % 64 == 56 ==> (n + 8) % 64 == 0
    ensures n % 64 == 0 && n != 0 ==> n >= 64 && (n - 64) % 64 == 0
  {}

  function Padded(m: Bytes): (p: Bytes)
    ensures |p| % 64 == 0
  {
    WholeBlocks(|m| + 1 + ZeroCount(|m|));
    m + [0x80] + Zeros(ZeroCount(|m|)) + LengthBytes(BitLength(|m|))
  }

  function Fold(v: Words, m: Bytes): Words
    requires |m| % 64 == 0
    decreases |m|
  {
    if m == [] then v
    else
      WholeBlocks(|m|);
      Fold(Compressed(v, m[..64]), m[64..])
  }

  function WordBytes(w: bv32): Bytes {
    [(w >> 24) as bv8, ((w >> 16) & 0xff) as bv8, ((w >> 8) & 0xff) as bv8, (w & 0xff) as bv8]
  }

  function Digest(v: Words): (r: Bytes)
    ensures |r| == 32
  {
    WordBytes(v.a) + WordBytes(v.b) + WordBytes(v.c) + WordBytes(v.d) + WordBytes(v.e) + WordBytes(v.f)
      + WordBytes(v.g) + WordBytes(v.h)
  }

  /** The hash of a message. */
  function Hash(m: Bytes): (r: Bytes)
    ensures |r| == 32
  {
    Digest(Fold(INITIAL, Padded(m)))
  }

  // ----- streaming -----

  /** The hash value so far and the bytes that do not make a block yet. */
  datatype Stream = Stream(state: Words, pending: Bytes)

  ghost predicate Partial(s: Stream) {
    |s.pending| < 64
  }

  /** Takes in one byte, and a whole block when it completes one. */
  function Fed(s: Stream, x: bv8): (r: Stream)
    requires Partial(s)
    ensures Partial(r)
  {
    if |s.pending| == 63 then Stream(Compressed(s.state, s.pending + [x]), []) else s.(pending := s.pending + [x])
  }

  function Absorbed(s: Stream, data: Bytes): (r: Stream)
    requires Partial(s)
    ensures Partial(r)
  {
    if data == [] then s else Fed(Absorbed(s, data[..|data| - 1]), data[|data| - 1])
  }

  /** Bytes can come in any pieces. */
  lemma {:induction false} AbsorbAppend(s: Stream, a: Bytes, b: Bytes)
    requires Partial(s)
    ensures Absorbed(s, a + b) == Absorbed(Absorbed(s, a), b)
  {
    hide Fed;
    if b == [] {
      assert a + b == a;
    } else {
      AbsorbAppend(s, a, b[..|b| - 1]);
      assert (a + b)[..|a + b| - 1] == a + b[..|b| - 1];
    }
  }

  /** Bytes that do not complete a block only wait. */
  lemma {:induction false} AbsorbShort(s: Stream, data: Bytes)
    requires |s.pending| + |data| < 64
    ensures Absorbed(s, data) == s.(pending := s.pending + data)
  {
    hide Compressed;
    if data == [] {
      assert s.pending + data == s.pending;
    } else {
      AbsorbShort(s, data[..|data| - 1]);
      assert s.pending + data == s.pending + data[..|data| - 1] + [data[|data| - 1]];
    }
  }

  lemma AbsorbLast(s: Stream, data: Bytes)
    requires Partial(s) && data != []
    ensures Absorbed(s, data) == Fed(Absorbed(s, data[..|data| - 1]), data[|data| - 1])
  {}

  /** Bytes that complete a block are taken in with it. */
  lemma AbsorbFill(s: Stream, data: Bytes)
    requires Partial(s) && |s.pending| + |data| == 64
    ensures Absorbed(s, data) == Stream(Compressed(s.state, s.pending + data), [])
  {
    hide Compressed, Absorbed;
    AbsorbLast(s, data);
    AbsorbShort(s, data[..|data| - 1]);
    assert s.pending + data == s.pending + data[..|data| - 1] + [data[|data| - 1]];
  }

  /** Whole blocks from a block's start are the block fold. */
  lemma {:induction false} AbsorbBlocks(v: Words, m: Bytes)
    requires |m| % 64 == 0
    ensures Absorbed(Stream(v, []), m) == Stream(Fold(v, m), [])
    decreases |m|
  {
    hide Compressed;
    if m != [] {
      AbsorbFill(Stream(v, []), m[..64]);
      AbsorbBlocks(Compressed(v, m[..64]), m[64..]);
      AbsorbAppend(Stream(v, []), m[..64], m[64..]);
      assert m[..64] + m[64..] == m && [] + m[..64] == m[..64];
    }
  }

  /** How many bytes are pending depends only on how many were taken in. */
  lemma {:induction false} PendingCount(s: Stream, data: Bytes)
    requires Partial(s)
    ensures |Absorbed(s, data).pending| == (|s.pending| + |data|) % 64
  {
    hide Compressed, Absorbed;
    if data == [] {
      AbsorbNothing(s);
    } else {
      PendingCount(s, data[..|data| - 1]);
      AbsorbLast(s, data);
      OneMore(|s.pending| + |data| - 1);
    }
  }

  lemma OneMore(n: nat)
    ensures (n + 1) % 64 == if n % 64 == 63 then 0 else n % 64 + 1
  {}

  const FRESH := Stream(INITIAL, [])

  class Hasher {
    var state: Words
    var bitLen: nat
    const buffer: array<bv8>
    var bufferLen: nat
    ghost var message: Bytes

    /** The hasher has taken in exactly `message`. */
    ghost predicate Valid()
      reads this, buffer
    {
      && buffer.Length == 64 && bufferLen < 64 && bitLen == BitLength(|message|)
      && Stream(state, buffer[..bufferLen]) == Absorbed(FRESH, message)
    }

    constructor ()
      ensures Valid() && message == [] && fresh(buffer)
    {
      state, bitLen, bufferLen, message := INITIAL, 0, 0, [];
      buffer := new bv8[64];
    }

    method Update(data: Bytes)
      requires Valid()
      modifies this, buffer
      ensures Valid() && message == old(message) + data
    {
      hide Compressed, Absorbed, BitLength;
      var p := data;
      ghost var before := Stream(state, buffer[..bufferLen]);
      Continued(message, data, before);
      bitLen := (bitLen + |data| * 8) % WORD64;
      ghost var total := bitLen;
      ghost var done: Bytes := [];
      AbsorbNothing(before);
      while |p| > 0
        invariant bufferLen < 64 && buffer.Length == 64 && message == old(message)
        invariant done + p == data && Stream(state, buffer[..bufferLen]) == Absorbed(before, done)
        invariant bitLen == total
        decreases |p|
      {
        var take := 64 - bufferLen;
        if take > |p| {
          take := |p|;
        }
        done := TakeIn(p[..take], before, done);
        assert p == p[..take] + p[take..];
        p := p[take..];
      }
      assert done == data;
      message := message + data;
    }

    /** Copies bytes into the block buffer and hashes the block if they fill it. */
    method TakeIn(piece: Bytes, ghost before: Stream, ghost done: Bytes) returns (ghost done': Bytes)
      requires Partial(before) && bufferLen < 64 && buffer.Length == 64 && 0 < |piece| <= 64 - bufferLen
      requires Stream(state, buffer[..bufferLen]) == Absorbed(before, done)
      modifies this`state, this`bufferLen, buffer
      ensures done' == done + piece && bufferLen < 64 && Stream(state, buffer[..bufferLen]) == Absorbed(before, done')
    {
      hide Compressed;
      ghost var s := Stream(state, buffer[..bufferLen]);
      forall k | 0 <= k < |piece| {
        buffer[bufferLen + k] := piece[k];
      }
      bufferLen := bufferLen + |piece|;
      assert buffer[..bufferLen] == s.pending + piece;
      AbsorbAppend(before, done, piece);
      if bufferLen == 64 {
        AbsorbFill(s, piece);
        state := ProcessBlock(state, buffer[..]);
        assert buffer[..] == s.pending + piece;
        bufferLen := 0;
      } else {
        AbsorbShort(s, piece);
      }
      done' := done + piece;
    }

    /** The padding loop ends, the buffer is empty after the length, and the result is the
        hash of everything taken in. */
    method Finish() returns (out: Bytes)
      requires Valid()
      modifies this, buffer
      ensures out == Hash(old(message)) && bufferLen == 0
    {
      hide Absorbed, Digest, Hash, Padded;
      var messageBits := bitLen;
      ghost var m := message;
      Update([0x80]);
      ghost var k := 0;
      while bufferLen != 56
        invariant Valid() && k <= ZeroCount(|m|) && message == m + [0x80] + Zeros(k)
        decreases ZeroCount(|m|) - k
      {
        BufferCount();
        Update([0]);
        k := k + 1;
        assert message == m + [0x80] + Zeros(k);
      }
      BufferCount();
      LastZero(|m|, k);
      var lenBytes := [];
      for i := 0 to 8
        invariant lenBytes == LengthBytes(messageBits)[..i]
      {
        lenBytes := lenBytes + [LengthByte(messageBits, i)];
      }
      Update(lenBytes);
      BufferCount();
      PaddedIs(m, message);
      AbsorbBlocks(INITIAL, Padded(m));
      out := Digest(state);
    }

    ghost predicate Counted()
      reads this, buffer
    {
      bufferLen == |message| % 64
    }

    lemma BufferCount()
      requires Valid()
      ensures Counted()
    {
      PendingCount(FRESH, message);
    }
  }

  lemma AbsorbNothing(s: Stream)
    requires Partial(s)
    ensures Absorbed(s, []) == s
  {}

  /** More bytes after a message: the stream and the count of its bits both go on. */
  lemma Continued(message: Bytes, data: Bytes, before: Stream)
    requires before == Absorbed(FRESH, message)
    ensures Absorbed(FRESH, message + data) == Absorbed(before, data)
    ensures (BitLength(|message|) + |data| * 8) % WORD64 == BitLength(|message + data|)
  {
    AbsorbAppend(FRESH, message, data);
    LengthAdds(|message|, |data|);
  }

  lemma LengthAdds(a: nat, b: nat)
    ensures (8 * a % WORD64 + b * 8) % WORD64 == 8 * (a + b) % WORD64
  {}

  lemma LastZero(length: nat, k: nat)
    requires k <= ZeroCount(length) && (length + 1 + k) % 64 == 56
    ensures k == ZeroCount(length)
  {}

  lemma PaddedIs(m: Bytes, p: Bytes)
    requires p == m + [0x80] + Zeros(ZeroCount(|m|)) + LengthBytes(BitLength(|m|))
    ensures p == Padded(m) && Hash(m) == Digest(Fold(INITIAL, Padded(m)))
  {}

  // ----- one-shot hash and HMAC -----

  method HashOf(data: Bytes) returns (out: Bytes)
    ensures out == Hash(data)
  {
    hide *;
    var h := new Hasher();
    h.Update(data);
    assert h.message == data;
    out := h.Finish();
  }

  method HashOfTwo(first: Bytes, second: Bytes) returns (out: Bytes)
    ensures out == Hash(first + second)
  {
    hide *;
    var h := new Hasher();
    h.Update(first);
    h.Update(second);
    assert h.message == first + second;
    out := h.Finish();
  }

  function Xored(block: Bytes, x: bv8): (r: Bytes)
    ensures |r| == |block|
  {
    seq(|block|, i requires 0 <= i < |block| => block[i] ^ x)
  }

  /** The key brought to one block: hashed if it is longer, then filled with zeros. */
  function KeyBlock(key: Bytes): (r: Bytes)
    ensures |r| == 64
  {
    var k := if |key| > 64 then Hash(key) else key;
    k + Zeros(64 - |k|)
  }

  /** H(K xor opad, H(K xor ipad, text)), section 2 of RFC 2104. */
  function Hmac(key: Bytes, message: Bytes): Bytes {
    Hash(Xored(KeyBlock(key), 0x5c) + Hash(Xored(KeyBlock(key), 0x36) + message))
  }

  method HmacSha256(key: Bytes, message: Bytes) returns (out: Bytes)
    ensures out == Hmac(key, message)
  {
    hide Hash, Zeros, Xored;
    var keyBlock := key;
    if |key| > 64 {
      keyBlock := HashOf(key);
    }
    keyBlock := keyBlock + Zeros(64 - |keyBlock|);
    var ipad, opad := Pads(keyBlock);
    var innerDigest := HashOfTwo(ipad, message);
    out := HashOfTwo(opad, innerDigest);
  }

  method Pads(keyBlock: Bytes) returns (ipad: Bytes, opad: Bytes)
    ensures ipad == Xored(keyBlock, 0x36) && opad == Xored(keyBlock, 0x5c)
  {
    ipad, opad := [], [];
    ghost var x36, x5c := Xored(keyBlock, 0x36), Xored(keyBlock, 0x5c);
    for i := 0 to |keyBlock|
      invariant ipad == x36[..i] && opad == x5c[..i]
    {
      ipad := ipad + [keyBlock[i] ^ 0x36];
      opad := opad + [keyBlock[i] ^ 0x5c];
    }
  }

  /** Any two ways of cutting the same message into updates hash to the same value. */
  method HashPieces(pieces: seq<Bytes>) returns (out: Bytes)
    ensures out == Hash(Joined(pieces))
  {
    hide Hash;
    var h := new Hasher();
    for i := 0 to |pieces|
      invariant fresh(h) && fresh(h.buffer) && h.Valid() && h.message == Joined(pieces[..i])
    {
      assert pieces[..i + 1][..i] == pieces[..i];
      h.Update(pieces[i]);
    }
    assert pieces[..|pieces|] == pieces;
    out := h.Finish();
  }

  function Joined(pieces: seq<Bytes>): Bytes {
    if pieces == [] then [] else Joined(pieces[..|pieces| - 1]) + pieces[|pieces| - 1]
  }

  /** Compares in full, whatever differs first. */
  method ConstantTimeEqual(a: Bytes, b: Bytes) returns (equal: bool)
    ensures equal <==> a == b
  {
    if |a| != |b| {
      return false;
    }
    var acc: bv8 := 0;
    for i := 0 to |a|
      invariant acc == 0 <==> a[..i] == b[..i]
    {
      assert a[..i + 1] == a[..i] + [a[i]] && b[..i + 1] == b[..i] + [b[i]];
      acc := acc | (a[i] ^ b[i]);
    }
    assert a[..|a|] == a && b[..|b|] == b;
    return acc == 0;
  }
}
