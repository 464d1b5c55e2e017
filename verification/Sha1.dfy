/** SHA-1 as section 6.1.2 of FIPS 180-3 defines it, on one block: an 80-word schedule and five
    working variables that are shifted every turn. */
module Sha1Fips {
  import opened MemShared
  import opened HashStream
  import opened Words

  function Rotl(x: bv32, s: nat): bv32
    requires 0 < s < 32
  {
    (x << s) | (x >> (32 - s))
  }

  const Initial: State := [0x67452301, 0xEFCDAB89, 0x98BADCFE, 0x10325476, 0xC3D2E1F0]

  /** The functions of section 4.1.1 and the constants of section 4.2.1. */
  function Ch(x: bv32, y: bv32, z: bv32): bv32 { (x & y) ^ (!x & z) }
  function Parity(x: bv32, y: bv32, z: bv32): bv32 { x ^ y ^ z }
  function Maj(x: bv32, y: bv32, z: bv32): bv32 { (x & y) ^ (x & z) ^ (y & z) }

  function F(t: nat, x: bv32, y: bv32, z: bv32): bv32 {
    if t < 20 then Ch(x, y, z) else if t < 40 then Parity(x, y, z) else if t < 60 then Maj(x, y, z) else Parity(x, y, z)
  }

  function K(t: nat): bv32 {
    if t < 20 then 0x5A827999 else if t < 40 then 0x6ED9EBA1 else if t < 60 then 0x8F1BBCDC else 0xCA62C1D6
  }

  function Mixed(a: bv32, b: bv32, c: bv32, d: bv32): bv32 { Rotl(a ^ b ^ c ^ d, 1) }

  function Schedule(block: Bytes, t: nat): bv32
    requires |block| == BLOCK
  {
    if t < 16 then BeWord(block, 4 * t)
    else Mixed(Schedule(block, t - 3), Schedule(block, t - 8), Schedule(block, t - 14), Schedule(block, t - 16))
  }

  datatype Regs = Regs(a: bv32, b: bv32, c: bv32, d: bv32, e: bv32)

  function Round(r: Regs, t: nat, w: bv32): Regs {
    var sum := Plus(Plus(Plus(Plus(Rotl(r.a, 5), F(t, r.b, r.c, r.d)), r.e), K(t)), w);
    Regs(sum, r.a, Rotl(r.b, 30), r.c, r.d)
  }

  function Rounds(r: Regs, block: Bytes, t: nat): Regs
    requires |block| == BLOCK
  {
    if t == 0 then r else Round(Rounds(r, block, t - 1), t - 1, Schedule(block, t - 1))
  }

  function RegsOf(h: State): Regs
    requires |h| == 5
  {
    Regs(h[0], h[1], h[2], h[3], h[4])
  }

  function AddRegs(h: State, r: Regs): State
    requires |h| == 5
  {
    [Plus(h[0], r.a), Plus(h[1], r.b), Plus(h[2], r.c), Plus(h[3], r.d), Plus(h[4], r.e)]
  }

  function Compress(h: State, block: Bytes): State {
    if |h| == 5 && |block| == BLOCK then AddRegs(h, Rounds(RegsOf(h), block, 80)) else h
  }

  /** The hash of a message: the padded message, block by block. */
  function Sha1Of(message: Bytes): seq<bv8> {
    Digest(Absorb(Compress, Initial, Pad(message)))
  }
}

/** sha1.c: the transform that expands the schedule in a ring of sixteen words (the method of
    section 6.1.3) and renames its registers instead of moving them, and the context that is
    fed piece by piece. */
module Sha1 {
  import opened Common
  import opened MemShared
  import opened HashStream
  import opened Words
  import opened Sha1Fips

  /** The logical functions of the macros R0 to R4. */
  function ChMacro(w: bv32, x: bv32, y: bv32): bv32 { (w & (x ^ y)) ^ y }
  function MajMacro(w: bv32, x: bv32, y: bv32): bv32 { ((w | x) & y) | (w & x) }

  function MacroF(t: nat, w: bv32, x: bv32, y: bv32): bv32 {
    if t < 20 then ChMacro(w, x, y) else if t < 40 then Parity(w, x, y)
    else if t < 60 then MajMacro(w, x, y) else Parity(w, x, y)
  }

  lemma ChReduced(w: bv32, x: bv32, y: bv32)
    ensures ChMacro(w, x, y) == Ch(w, x, y)
  {
    ChooseBits(w, x, y);
    assert ChMacro(w, x, y) == (w & (x ^ y)) ^ y;
    assert Ch(w, x, y) == (w & x) ^ (!w & y);
  }

  lemma MajReduced(w: bv32, x: bv32, y: bv32)
    ensures MajMacro(w, x, y) == Maj(w, x, y)
  {
    MajorityBits(w, x, y);
    assert MajMacro(w, x, y) == ((w | x) & y) | (w & x);
    assert Maj(w, x, y) == (w & x) ^ (w & y) ^ (x & y);
  }

  lemma MacroFIsF(t: nat, w: bv32, x: bv32, y: bv32)
    ensures MacroF(t, w, x, y) == F(t, w, x, y)
  {
    hide Ch, Maj, Parity, ChMacro, MajMacro;
    ChReduced(w, x, y);
    MajReduced(w, x, y);
  }

  /** blk(i): the ring holds the last sixteen words of the schedule. */
  predicate Ring(block: seq<bv32>, buffer: Bytes, t: nat)
    requires |buffer| == BLOCK
  {
    |block| == 16 && forall i | 0 <= i < t && t <= i + 16 :: block[i % 16] == Schedule(buffer, i)
  }

  /** The position of the register that has role `k` (0 for v, up to 4 for z) at turn `t`. */
  function Position(t: nat, k: nat): (i: nat)
    requires k < 5
    ensures i < 5
  {
    (k + 5 - t % 5) % 5
  }

  /** The registers in the roles they have at turn `t`. */
  function Roles(r: seq<bv32>, t: nat): Regs
    requires |r| == 5
  {
    Regs(r[Position(t, 0)], r[Position(t, 1)], r[Position(t, 2)], r[Position(t, 3)], r[Position(t, 4)])
  }

  lemma PositionNext(t: nat, k: nat)
    requires k < 5
    ensures Position(t + 1, k) == Position(t, (k + 4) % 5)
  {
    assert (t + 1) % 5 == if t % 5 == 4 then 0 else t % 5 + 1;
  }

  lemma PositionsDiffer(t: nat, k: nat, l: nat)
    requires k < l < 5
    ensures Position(t, k) != Position(t, l)
  {
  }

  /** Renaming the registers is shifting their contents. */
  lemma Shifted<T>(r: seq<T>, t: nat, sum: T, turned: T)
    requires |r| == 5
    ensures var after := r[Position(t, 4) := sum][Position(t, 1) := turned];
            && after[Position(t + 1, 0)] == sum && after[Position(t + 1, 1)] == r[Position(t, 0)]
            && after[Position(t + 1, 2)] == turned && after[Position(t + 1, 3)] == r[Position(t, 2)]
            && after[Position(t + 1, 4)] == r[Position(t, 3)]
  {
    hide Position;
    Turned(t);
    PositionsDiffer(t, 0, 1);
    PositionsDiffer(t, 0, 4);
    PositionsDiffer(t, 1, 2);
    PositionsDiffer(t, 1, 3);
    PositionsDiffer(t, 1, 4);
    PositionsDiffer(t, 2, 4);
    PositionsDiffer(t, 3, 4);
  }

  lemma Turned(t: nat)
    ensures Position(t + 1, 0) == Position(t, 4) && Position(t + 1, 1) == Position(t, 0)
    ensures Position(t + 1, 2) == Position(t, 1) && Position(t + 1, 3) == Position(t, 2)
    ensures Position(t + 1, 4) == Position(t, 3)
  {
    hide Position;
    PositionNext(t, 0);
    PositionNext(t, 1);
    PositionNext(t, 2);
    PositionNext(t, 3);
    PositionNext(t, 4);
  }

  lemma Renamed(r: seq<bv32>, t: nat, sum: bv32, turned: bv32)
    requires |r| == 5
    ensures Roles(r[Position(t, 4) := sum][Position(t, 1) := turned], t + 1)
            == Regs(sum, Roles(r, t).a, turned, Roles(r, t).c, Roles(r, t).d)
  {
    hide Position;
    Shifted(r, t, sum, turned);
  }

  /** Eighty turns bring every register back to its first role. */
  lemma FullCircle(r: seq<bv32>)
    requires |r| == 5
    ensures Roles(r, 0) == RegsOf(r) && Roles(r, 80) == RegsOf(r)
  {
  }

  /** blk0 and blk: the next word of the schedule, written over the one sixteen before. */
  method NextWord(block: array<bv32>, buffer: Bytes, t: nat) returns (word: bv32)
    requires block.Length == 16 && |buffer| == BLOCK && Ring(block[..], buffer, t)
    modifies block
    ensures Ring(block[..], buffer, t + 1) && word == Schedule(buffer, t)
  {
    hide Mixed, BeWord, Ring;
    if t < 16 {
      word := BeWord(buffer, 4 * t);
    } else {
      RingWords(block[..], buffer, t);
      word := Mixed(block[(t + 13) % 16], block[(t + 8) % 16], block[(t + 2) % 16], block[t % 16]);
    }
    ghost var was := block[..];
    RingNext(was, buffer, t);
    block[t % 16] := word;
    assert block[..] == was[t % 16 := word];
  }

  /** The four words the next one is mixed from. */
  lemma RingWords(block: seq<bv32>, buffer: Bytes, t: nat)
    requires |buffer| == BLOCK && Ring(block, buffer, t) && t >= 16
    ensures block[(t + 13) % 16] == Schedule(buffer, t - 3) && block[(t + 8) % 16] == Schedule(buffer, t - 8)
    ensures block[(t + 2) % 16] == Schedule(buffer, t - 14) && block[t % 16] == Schedule(buffer, t - 16)
  {
    hide Schedule;
    ModMultiple(16, 1, t - 3);
    ModMultiple(16, 1, t - 8);
    ModMultiple(16, 1, t - 14);
    ModMultiple(16, 1, t - 16);
  }

  lemma RingNext(block: seq<bv32>, buffer: Bytes, t: nat)
    requires |buffer| == BLOCK && Ring(block, buffer, t)
    ensures Ring(block[t % 16 := Schedule(buffer, t)], buffer, t + 1)
  {
    hide Schedule;
    forall i | 0 <= i < t && t + 1 <= i + 16 ensures i % 16 != t % 16 {
      var q := t / 16;
      if i >= 16 * q { Divided(i, 16, q, i - 16 * q); } else { Divided(i, 16, q - 1, i - 16 * (q - 1)); }
    }
  }

  /** One of the eighty macro calls: z += ... and w = rol(w, 30), on registers named by position. */
  method Turn(r: array<bv32>, t: nat, word: bv32)
    requires r.Length == 5 && t < 80
    modifies r
    ensures Roles(r[..], t + 1) == Round(Roles(old(r[..]), t), t, word)
  {
    hide Plus, Rotl, MacroF, F, K, Position;
    var v, w, x, y, z := Position(t, 0), Position(t, 1), Position(t, 2), Position(t, 3), Position(t, 4);
    forall k, l | 0 <= k < l < 5 ensures Position(t, k) != Position(t, l) { PositionsDiffer(t, k, l); }
    MacroFIsF(t, r[w], r[x], r[y]);
    SumOrder(r[z], MacroF(t, r[w], r[x], r[y]), word, K(t), Rotl(r[v], 5));
    r[z] := Plus(r[z], Plus(Plus(Plus(MacroF(t, r[w], r[x], r[y]), word), K(t)), Rotl(r[v], 5)));
    r[w] := Rotl(r[w], 30);
    Renamed(old(r[..]), t, r[z], r[w]);
    assert r[..] == old(r[..])[z := r[z]][w := r[w]];
  }

  lemma NextRound(start: Regs, buffer: Bytes, t: nat)
    requires |buffer| == BLOCK
    ensures Rounds(start, buffer, 0) == start
    ensures Rounds(start, buffer, t + 1) == Round(Rounds(start, buffer, t), t, Schedule(buffer, t))
  {
    hide Round, Schedule;
  }

  /** The eighty macro calls, on copies of the working variables. */
  method Turns(r: array<bv32>, buffer: Bytes)
    requires r.Length == 5 && |buffer| == BLOCK
    modifies r
    ensures Roles(r[..], 80) == Rounds(Roles(old(r[..]), 0), buffer, 80)
  {
    hide Round, Rounds, Schedule, Roles, Position;
    var block := new bv32[16];
    ghost var start := Roles(r[..], 0);
    var t := 0;
    NextRound(start, buffer, 0);
    while t < 80
      invariant 0 <= t <= 80 && fresh(block) && block.Length == 16
      invariant Ring(block[..], buffer, t)
      invariant Roles(r[..], t) == Rounds(start, buffer, t)
    {
      NextRound(start, buffer, t);
      var word := NextWord(block, buffer, t);
      Turn(r, t, word);
      t := t + 1;
    }
  }

  /** SHA1Transform. */
  method Transform(state: array<bv32>, buffer: Bytes)
    requires state.Length == 5 && |buffer| == BLOCK
    modifies state
    ensures state[..] == Compress(old(state[..]), buffer)
  {
    hide Plus, Rounds, Roles, RegsOf, AddRegs;
    var r := new bv32[5](i requires 0 <= i < 5 reads state => state[i]);
    assert r[..] == state[..];
    FullCircle(r[..]);
    Turns(r, buffer);
    FullCircle(r[..]);
    AddInto(state, r);
  }

  /** state[i] += the working variables. */
  method AddInto(state: array<bv32>, r: array<bv32>)
    requires state.Length == 5 && r.Length == 5 && state != r
    modifies state
    ensures state[..] == AddRegs(old(state[..]), RegsOf(r[..]))
  {
    hide Plus;
    state[0], state[1], state[2], state[3], state[4] :=
      Plus(state[0], r[0]), Plus(state[1], r[1]), Plus(state[2], r[2]), Plus(state[3], r[3]), Plus(state[4], r[4]);
  }

  /** SHA1_Context, with the bytes fed so far. */
  class Context {
    const state: array<bv32>
    const buffer: array<byte>
    var count0: nat
    var count1: nat
    ghost var message: Bytes

    /** The state is the compression function over the whole blocks, the buffer starts with the
        bytes after them, and the count words hold the number of bits. */
    ghost predicate Valid()
      reads this, state, buffer
    {
      && state.Length == 5 && buffer.Length == BLOCK
      && Counts(count0, count1, |message|)
      && state[..] == Absorb(Compress, Initial, message)
      && buffer[..|message| % BLOCK] == Tail(message)
    }

    /** SHA1_begin. */
    constructor ()
      ensures Valid() && message == [] && fresh(state) && fresh(buffer)
    {
      state := new bv32[5];
      buffer := new byte[BLOCK];
      count0, count1, message := 0, 0, [];
      new;
      forall i | 0 <= i < 5 { state[i] := Initial[i]; }
      assert state[..] == Initial;
    }

    /** SHA1_update. */
    method Update(data: Bytes)
      requires Valid() && |data| < WORD_RANGE && |message| % BLOCK + |data| < WORD_RANGE
      modifies this, state, buffer
      ensures Valid() && message == old(message) + data
    {
      hide Counts, Absorb, Compress, AddLow, AddHigh, Tail, Initial;
      var len := |data|;
      var j := count0 / 8 % BLOCK;
      PositionFromCount(count0, count1, |message|);
      CountsAdd(count0, count1, |message|, len);
      AbsorbMore(Compress, Initial, message, data);
      TailMore(message, data);
      ghost var all := Tail(message) + data;
      assert buffer[..j] == Tail(message);
      var i := 0;
      if j + len > 63 {
        i := Blocks(data, j);
        j := 0;
      } else {
        AbsorbNone(Compress, state[..], all);
      }
      Store(j, data[i..]);
      count0, count1 := AddLow(count0, len), AddHigh(count0, count1, len);
      message := message + data;
    }

    /** z_memcpy into the buffer. */
    method Store(j: nat, data: Bytes)
      requires buffer.Length == BLOCK && j + |data| <= BLOCK
      modifies buffer
      ensures buffer[..j + |data|] == old(buffer[..j]) + data
    {
      forall k | 0 <= k < |data| { buffer[j + k] := data[k]; }
    }

    /** The branch of update that fills the buffer and goes on with whole blocks of the input. */
    method Blocks(data: Bytes, j: nat) returns (i: nat)
      requires state.Length == 5 && buffer.Length == BLOCK && j < BLOCK && j + |data| > 63
      modifies state, buffer
      ensures i <= |data| < i + BLOCK
      ensures var all := old(buffer[..j]) + data;
              state[..] == Absorb(Compress, old(state[..]), all) && Tail(all) == data[i..]
    {
      hide Absorb, Compress;
      ghost var all, h := buffer[..j] + data, state[..];
      i := 64 - j;
      Store(j, data[..i]);
      assert buffer[..] == all[..BLOCK];
      Transform(state, buffer[..]);
      AbsorbFirst(Compress, h, all);
      while i + 63 < |data|
        invariant i <= |data| && (j + i) % BLOCK == 0
        invariant state[..] == Absorb(Compress, h, all[..j + i])
      {
        assert all[j + i..j + i + BLOCK] == data[i..i + BLOCK];
        AbsorbNext(Compress, h, all, j + i);
        Transform(state, data[i..i + BLOCK]);
        i := i + BLOCK;
      }
      AbsorbRest(Compress, h, all, j + i);
    }

    /** SHA1_final. */
    method Final() returns (digest: seq<bv8>)
      requires Valid() && |message| < 0x2000_0000_0000_0000
      modifies this, state, buffer
      ensures digest == Sha1Of(old(message))
    {
      hide Counts, Absorb, Compress, FinalCount, ZeroCount, Bytes8, Zeros, Initial;
      ghost var m := message;
      FinalCountIsLength(count0, count1, |m|);
      var finalcount := FinalCount(count0, count1);
      Update([0x80]);
      ghost var k := 0;
      PositionFromCount(count0, count1, |message|);
      assert m + [0x80] == m + [0x80] + Zeros(0);
      while count0 / 8 % BLOCK != 56
        invariant Valid() && k <= ZeroCount(|m|) && message == m + [0x80] + Zeros(k)
        invariant count0 / 8 % BLOCK == (|m| + 1 + k) % BLOCK
        decreases ZeroCount(|m|) - k
      {
        ZeroCountLeast(|m|, k);
        Update([0]);
        ZerosGrow(m + [0x80], k);
        k := k + 1;
        PositionFromCount(count0, count1, |message|);
      }
      ZeroCountLeast(|m|, k);
      Update(finalcount);
      digest := Digest(state[..]);
    }
  }

  /** z_hash160_sha: the one-shot hash. */
  method Hash160Sha(data: Bytes) returns (hash: seq<bv8>)
    requires |data| < WORD_RANGE
    ensures hash == Sha1Of(data)
  {
    var context := new Context();
    context.Update(data);
    assert [] + data == data;
    hash := context.Final();
  }

  /** Any split of the message into updates gives the hash of the whole message. */
  method HashPieces(pieces: seq<Bytes>) returns (hash: seq<bv8>)
    requires PiecesFit(pieces)
    requires |Joined(pieces)| < 0x2000_0000_0000_0000
    ensures hash == Sha1Of(Joined(pieces))
  {
    hide Counts, Absorb, Compress, Context.Valid;
    var context := new Context();
    var i := 0;
    while i < |pieces|
      invariant 0 <= i <= |pieces|
      invariant context.Valid() && fresh(context) && fresh(context.state) && fresh(context.buffer)
      invariant context.message == Joined(pieces[..i])
    {
      context.Update(pieces[i]);
      assert pieces[..i + 1] == pieces[..i] + [pieces[i]];
      JoinedLast(pieces[..i], pieces[i]);
      i := i + 1;
    }
    assert pieces[..i] == pieces;
    hash := context.Final();
  }
}
