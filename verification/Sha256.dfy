/** SHA-256 as section 6.2 of FIPS 180-3 defines it, on one block. */
module Sha256Fips {
  import opened MemShared
  import opened HashStream
  import opened Words

  function Rot(x: bv32, s: nat): bv32
    requires 0 < s < 32
  {
    (x >> s) | (x << (32 - s))
  }

  function Ch(x: bv32, y: bv32, z: bv32): bv32 { (x & y) ^ (!x & z) }
  function Maj(x: bv32, y: bv32, z: bv32): bv32 { (x & y) ^ (x & z) ^ (y & z) }
  function BigSigma0(x: bv32): bv32 { Rot(x, 2) ^ Rot(x, 13) ^ Rot(x, 22) }
  function BigSigma1(x: bv32): bv32 { Rot(x, 6) ^ Rot(x, 11) ^ Rot(x, 25) }
  function SmallSigma0(x: bv32): bv32 { Rot(x, 7) ^ Rot(x, 18) ^ (x >> 3) }
  function SmallSigma1(x: bv32): bv32 { Rot(x, 17) ^ Rot(x, 19) ^ (x >> 10) }

  function Constants(): (k: seq<bv32>)
    ensures |k| == 64
  {
    [0x428a2f98, 0x71374491, 0xb5c0fbcf, 0xe9b5dba5,
     0x3956c25b, 0x59f111f1, 0x923f82a4, 0xab1c5ed5,
     0xd807aa98, 0x12835b01, 0x243185be, 0x550c7dc3,
     0x72be5d74, 0x80deb1fe, 0x9bdc06a7, 0xc19bf174,
     0xe49b69c1, 0xefbe4786, 0x0fc19dc6, 0x240ca1cc,
     0x2de92c6f, 0x4a7484aa, 0x5cb0a9dc, 0x76f988da,
     0x983e5152, 0xa831c66d, 0xb00327c8, 0xbf597fc7,
     0xc6e00bf3, 0xd5a79147, 0x06ca6351, 0x14292967,
     0x27b70a85, 0x2e1b2138, 0x4d2c6dfc, 0x53380d13,
     0x650a7354, 0x766a0abb, 0x81c2c92e, 0x92722c85,
     0xa2bfe8a1, 0xa81a664b, 0xc24b8b70, 0xc76c51a3,
     0xd192e819, 0xd6990624, 0xf40e3585, 0x106aa070,
     0x19a4c116, 0x1e376c08, 0x2748774c, 0x34b0bcb5,
     0x391c0cb3, 0x4ed8aa4a, 0x5b9cca4f, 0x682e6ff3,
     0x748f82ee, 0x78a5636f, 0x84c87814, 0x8cc70208,
     0x90befffa, 0xa4506ceb, 0xbef9a3f7, 0xc67178f2]
  }

  const Initial: State :=
    [0x6a09e667, 0xbb67ae85, 0x3c6ef372, 0xa54ff53a, 0x510e527f, 0x9b05688c, 0x1f83d9ab, 0x5be0cd19]

  /** The message schedule of section 6.2.2, step 1. */
  function Schedule(block: Bytes, t: nat): bv32
    requires |block| == BLOCK
  {
    if t < 16 then BeWord(block, 4 * t)
    else Plus(Plus(Plus(SmallSigma1(Schedule(block, t - 2)), Schedule(block, t - 7)),
                   SmallSigma0(Schedule(block, t - 15))), Schedule(block, t - 16))
  }

  datatype Regs = Regs(a: bv32, b: bv32, c: bv32, d: bv32, e: bv32, f: bv32, g: bv32, h: bv32)

  /** One turn of step 3. */
  function Round(r: Regs, k: bv32, w: bv32): Regs {
    var t1 := Plus(Plus(Plus(Plus(r.h, BigSigma1(r.e)), Ch(r.e, r.f, r.g)), k), w);
    var t2 := Plus(BigSigma0(r.a), Maj(r.a, r.b, r.c));
    Regs(Plus(t1, t2), r.a, r.b, r.c, Plus(r.d, t1), r.e, r.f, r.g)
  }

  function Rounds(r: Regs, block: Bytes, t: nat): Regs
    requires |block| == BLOCK && t <= 64
  {
    if t == 0 then r else Round(Rounds(r, block, t - 1), Constants()[t - 1], Schedule(block, t - 1))
  }

  function RegsOf(h: State): Regs
    requires |h| == 8
  {
    Regs(h[0], h[1], h[2], h[3], h[4], h[5], h[6], h[7])
  }

  function AddRegs(h: State, r: Regs): State
    requires |h| == 8
  {
    [Plus(h[0], r.a), Plus(h[1], r.b), Plus(h[2], r.c), Plus(h[3], r.d),
     Plus(h[4], r.e), Plus(h[5], r.f), Plus(h[6], r.g), Plus(h[7], r.h)]
  }

  /** Steps 1 to 4: the next intermediate hash value. */
  function Compress(h: State, block: Bytes): State {
    if |h| == 8 && |block| == BLOCK then AddRegs(h, Rounds(RegsOf(h), block, 64)) else h
  }

  /** The hash of a message: the padded message, block by block. */
  function Sha256Of(message: Bytes): seq<bv8> {
    Digest(Absorb(Compress, Initial, Pad(message)))
  }
}

/** sha2.c: the compression function with its macros, and the context that is fed piece by piece. */
module Sha256 {
  import opened Common
  import opened MemShared
  import opened HashStream
  import opened Words
  import opened Sha256Fips

  /** The macros Ch and Maj take one operation less. */
  function ChMacro(x: bv32, y: bv32, z: bv32): bv32 { z ^ (x & (y ^ z)) }
  function MajMacro(x: bv32, y: bv32, z: bv32): bv32 { (x & y) ^ (z & (x ^ y)) }

  lemma ChReduced(x: bv32, y: bv32, z: bv32)
    ensures ChMacro(x, y, z) == Ch(x, y, z)
  {
    ChooseBits(x, y, z);
    assert ChMacro(x, y, z) == z ^ (x & (y ^ z));
    assert Ch(x, y, z) == (x & y) ^ (!x & z);
  }

  lemma MajReduced(x: bv32, y: bv32, z: bv32)
    ensures MajMacro(x, y, z) == Maj(x, y, z)
  {
    MajorityBits(x, y, z);
    assert MajMacro(x, y, z) == (x & y) ^ (z & (x ^ y));
    assert Maj(x, y, z) == (x & y) ^ (x & z) ^ (y & z);
  }

  /** The first two loops of SHA256_Transform. */
  method Expand(cp: Bytes) returns (W: array<bv32>)
    requires |cp| == BLOCK
    ensures fresh(W) && W.Length == 64 && forall i | 0 <= i < 64 :: W[i] == Schedule(cp, i)
  {
    hide Plus, SmallSigma0, SmallSigma1, BeWord;
    W := new bv32[64];
    var t := 0;
    while t < 16
      invariant 0 <= t <= 16
      invariant forall i | 0 <= i < t :: W[i] == Schedule(cp, i)
    {
      W[t] := BeWord(cp, 4 * t);
      t := t + 1;
    }
    while t < 64
      invariant 16 <= t <= 64
      invariant forall i | 0 <= i < t :: W[i] == Schedule(cp, i)
    {
      W[t] := Plus(Plus(Plus(SmallSigma1(W[t - 2]), W[t - 7]), SmallSigma0(W[t - 15])), W[t - 16]);
      t := t + 1;
    }
  }

  /** One turn with the macros is one turn of the standard. */
  lemma MacroRound(r: Regs, k: bv32, w: bv32, t1: bv32, t2: bv32)
    requires t1 == Plus(Plus(Plus(Plus(r.h, BigSigma1(r.e)), ChMacro(r.e, r.f, r.g)), k), w)
    requires t2 == Plus(BigSigma0(r.a), MajMacro(r.a, r.b, r.c))
    ensures Round(r, k, w) == Regs(Plus(t1, t2), r.a, r.b, r.c, Plus(r.d, t1), r.e, r.f, r.g)
  {
    hide Plus, Ch, Maj, ChMacro, MajMacro, BigSigma0, BigSigma1;
    ChReduced(r.e, r.f, r.g);
    MajReduced(r.a, r.b, r.c);
  }

  lemma NextRound(start: Regs, cp: Bytes, t: nat)
    requires |cp| == BLOCK && t < 64
    ensures Rounds(start, cp, t + 1) == Round(Rounds(start, cp, t), Constants()[t], Schedule(cp, t))
  {
    hide Round, Constants, Schedule;
  }

  /** SHA256_Transform. */
  method Transform(H: array<bv32>, cp: Bytes)
    requires H.Length == 8 && |cp| == BLOCK
    modifies H
    ensures H[..] == Compress(old(H[..]), cp)
  {
    hide Plus, Constants, Round, Rounds, Schedule, ChMacro, MajMacro, BigSigma0, BigSigma1;
    var W := Expand(cp);
    var a, b, c, d := H[0], H[1], H[2], H[3];
    var e, f, g, h := H[4], H[5], H[6], H[7];
    ghost var start := RegsOf(H[..]);
    StartRounds(start, cp);
    var t := 0;
    while t < 64
      invariant 0 <= t <= 64
      invariant H[..] == old(H[..]) && forall i | 0 <= i < 64 :: W[i] == Schedule(cp, i)
      invariant Regs(a, b, c, d, e, f, g, h) == Rounds(start, cp, t)
    {
      NextRound(start, cp, t);
      var T1 := Plus(Plus(Plus(Plus(h, BigSigma1(e)), ChMacro(e, f, g)), Constants()[t]), W[t]);
      var T2 := Plus(BigSigma0(a), MajMacro(a, b, c));
      MacroRound(Regs(a, b, c, d, e, f, g, h), Constants()[t], W[t], T1, T2);
      h, g, f, e := g, f, e, Plus(d, T1);
      d, c, b, a := c, b, a, Plus(T1, T2);
      t := t + 1;
    }
    H[0], H[1], H[2], H[3] := Plus(H[0], a), Plus(H[1], b), Plus(H[2], c), Plus(H[3], d);
    H[4], H[5], H[6], H[7] := Plus(H[4], e), Plus(H[5], f), Plus(H[6], g), Plus(H[7], h);
  }

  lemma StartRounds(start: Regs, cp: Bytes)
    requires |cp| == BLOCK
    ensures Rounds(start, cp, 0) == start
  {
  }

  /** SHA256_Context, with the bytes fed so far. */
  class Context {
    const state: array<bv32>
    const buffer: array<byte>
    var count0: nat
    var count1: nat
    ghost var message: Bytes

    /** The state is the compression function over the whole blocks, the buffer starts with the
        bytes after them, and the count words hold the number of bits. */
    ghost predicate Valid()
      reads this, state, buffer
    {
      && state.Length == 8 && buffer.Length == BLOCK
      && Counts(count0, count1, |message|)
      && state[..] == Absorb(Compress, Initial, message)
      && buffer[..|message| % BLOCK] == Tail(message)
    }

    /** SHA256_begin. */
    constructor ()
      ensures Valid() && message == [] && fresh(state) && fresh(buffer)
    {
      state := new bv32[8];
      buffer := new byte[BLOCK];
      count0, count1, message := 0, 0, [];
      new;
      forall i | 0 <= i < 8 { state[i] := Initial[i]; }
      assert state[..] == Initial;
    }

    /** SHA256_update. */
    method Update(data: Bytes)
      requires Valid() && |data| < WORD_RANGE && |message| % BLOCK + |data| < WORD_RANGE
      modifies this, state, buffer
      ensures Valid() && message == old(message) + data
    {
      hide Counts, Absorb, Compress, AddLow, AddHigh, Tail, Initial;
      var len := |data|;
      var j := count0 / 8 % BLOCK;
      PositionFromCount(count0, count1, |message|);
      CountsAdd(count0, count1, |message|, len);
      AbsorbMore(Compress, Initial, message, data);
      TailMore(message, data);
      ghost var all := Tail(message) + data;
      assert buffer[..j] == Tail(message);
      var i := 0;
      if j + len > 63 {
        i := Blocks(data, j);
        j := 0;
      } else {
        AbsorbNone(Compress, state[..], all);
      }
      Store(j, data[i..]);
      count0, count1 := AddLow(count0, len), AddHigh(count0, count1, len);
      message := message + data;
    }

    /** z_memcpy into the buffer. */
    method Store(j: nat, data: Bytes)
      requires buffer.Length == BLOCK && j + |data| <= BLOCK
      modifies buffer
      ensures buffer[..j + |data|] == old(buffer[..j]) + data
    {
      forall k | 0 <= k < |data| { buffer[j + k] := data[k]; }
    }

    /** The branch of update that fills the buffer and goes on with whole blocks of the input. */
    method Blocks(data: Bytes, j: nat) returns (i: nat)
      requires state.Length == 8 && buffer.Length == BLOCK && j < BLOCK && j + |data| > 63
      modifies state, buffer
      ensures i <= |data| < i + BLOCK
      ensures var all := old(buffer[..j]) + data;
              state[..] == Absorb(Compress, old(state[..]), all) && Tail(all) == data[i..]
    {
      hide Absorb, Compress;
      ghost var all, h := buffer[..j] + data, state[..];
      i := 64 - j;
      Store(j, data[..i]);
      assert buffer[..] == all[..BLOCK];
      Transform(state, buffer[..]);
      AbsorbFirst(Compress, h, all);
      while i + 63 < |data|
        invariant i <= |data| && (j + i) % BLOCK == 0
        invariant state[..] == Absorb(Compress, h, all[..j + i])
      {
        assert all[j + i..j + i + BLOCK] == data[i..i + BLOCK];
        AbsorbNext(Compress, h, all, j + i);
        Transform(state, data[i..i + BLOCK]);
        i := i + BLOCK;
      }
      AbsorbRest(Compress, h, all, j + i);
    }

    /** SHA256_final. */
    method Final() returns (digest: seq<bv8>)
      requires Valid() && |message| < 0x2000_0000_0000_0000
      modifies this, state, buffer
      ensures digest == Sha256Of(old(message))
    {
      hide Counts, Absorb, Compress, FinalCount, ZeroCount, Bytes8, Zeros, Initial;
      ghost var m := message;
      FinalCountIsLength(count0, count1, |m|);
      var finalcount := FinalCount(count0, count1);
      Update([0x80]);
      ghost var k := 0;
      PositionFromCount(count0, count1, |message|);
      assert m + [0x80] == m + [0x80] + Zeros(0);
      while count0 / 8 % BLOCK != 56
        invariant Valid() && k <= ZeroCount(|m|) && message == m + [0x80] + Zeros(k)
        invariant count0 / 8 % BLOCK == (|m| + 1 + k) % BLOCK
        decreases ZeroCount(|m|) - k
      {
        ZeroCountLeast(|m|, k);
        Update([0]);
        ZerosGrow(m + [0x80], k);
        k := k + 1;
        PositionFromCount(count0, count1, |message|);
      }
      ZeroCountLeast(|m|, k);
      Update(finalcount);
      digest := Digest(state[..]);
    }
  }

  /** z_hash256_sha: the one-shot hash. */
  method Hash256Sha(data: Bytes) returns (hash: seq<bv8>)
    requires |data| < WORD_RANGE
    ensures hash == Sha256Of(data)
  {
    var context := new Context();
    context.Update(data);
    assert [] + data == data;
    hash := context.Final();
  }

  /** Any split of the message into updates gives the hash of the whole message. */
  method HashPieces(pieces: seq<Bytes>) returns (hash: seq<bv8>)
    requires PiecesFit(pieces)
    requires |Joined(pieces)| < 0x2000_0000_0000_0000
    ensures hash == Sha256Of(Joined(pieces))
  {
    hide Counts, Absorb, Compress, Context.Valid;
    var context := new Context();
    var i := 0;
    while i < |pieces|
      invariant 0 <= i <= |pieces|
      invariant context.Valid() && fresh(context) && fresh(context.state) && fresh(context.buffer)
      invariant context.message == Joined(pieces[..i])
    {
      context.Update(pieces[i]);
      assert pieces[..i + 1] == pieces[..i] + [pieces[i]];
      JoinedLast(pieces[..i], pieces[i]);
      i := i + 1;
    }
    assert pieces[..i] == pieces;
    hash := context.Final();
  }
}
