/** The 32-bit murmur3 hash: in one go, and fed piece by piece. */
module Murmur3 {
  import opened MemShared

  const WORD_RANGE: nat := 0x1_0000_0000

  function Rotl(x: bv32, s: nat): bv32
    requires 0 < s < 32
  {
    (x << s) | (x >> (32 - s))
  }

  /** Four bytes as a word, least significant first. */
  function LeWord(b: Bytes): bv32
    requires |b| == 4
  {
    (b[0] as bv32) | ((b[1] as bv32) << 8) | ((b[2] as bv32) << 16) | ((b[3] as bv32) << 24)
  }

  function Xor(x: bv32, y: bv32): bv32 { x ^ y }

  function Scramble(k: bv32): bv32 { Rotl(k * 0xcc9e2d51, 15) * 0x1b873593 }

  /** One block. */
  function Mix(h: bv32, k: bv32): bv32 { Rotl(h ^ Scramble(k), 13) * 5 + 0xe6546b64 }

  /** All whole blocks of `data`, in order. */
  function Body(h: bv32, data: Bytes): bv32
    decreases |data|
  {
    if |data| < 4 then h else Body(Mix(h, LeWord(data[..4])), data[4..])
  }

  /** The bytes after the last whole block. */
  function Rest(data: Bytes): (tail: Bytes)
    ensures |tail| == |data| % 4
  {
    data[|data| - |data| % 4..]
  }

  /** A byte moved up by `i` byte positions. */
  function Placed(b: byte, i: nat): bv32
    requires i < 3
  {
    (b as bv32) << (8 * i)
  }

  /** One, two or three bytes as a word, least significant first. */
  function TailWord(tail: Bytes): bv32
    requires 0 < |tail| < 4
  {
    if |tail| == 1 then Placed(tail[0], 0)
    else if |tail| == 2 then Xor(Placed(tail[1], 1), Placed(tail[0], 0))
    else Xor(Xor(Placed(tail[2], 2), Placed(tail[1], 1)), Placed(tail[0], 0))
  }

  function Closing(h: bv32, tail: Bytes): bv32
    requires |tail| < 4
  {
    if tail == [] then h else Xor(h, Scramble(TailWord(tail)))
  }

  function Avalanche(h: bv32): bv32 {
    var h1 := (h ^ (h >> 16)) * 0x85ebca6b;
    var h2 := (h1 ^ (h1 >> 13)) * 0xc2b2ae35;
    h2 ^ (h2 >> 16)
  }

  function LengthWord(n: nat): bv32
    requires n < WORD_RANGE
  {
    n as bv32
  }

  function Finish(h: bv32, length: nat): bv32
    requires length < WORD_RANGE
  {
    Avalanche(h ^ LengthWord(length))
  }

  /** The hash of a byte string under a seed. */
  function HashOf(data: Bytes, seed: bv32): bv32
    requires |data| < WORD_RANGE
  {
    Finish(Closing(Body(seed, data), Rest(data)), |data|)
  }

  // ---------------------------------------------------------------- blocks and tails

  lemma {:induction false} BodyConcat(h: bv32, a: Bytes, b: Bytes)
    requires |a| % 4 == 0
    ensures Body(h, a + b) == Body(Body(h, a), b)
    decreases |a|
  {
    hide Mix, LeWord;
    if a == [] {
      assert a + b == b;
    } else {
      assert (a + b)[..4] == a[..4] && (a + b)[4..] == a[4..] + b;
      BodyConcat(Mix(h, LeWord(a[..4])), a[4..], b);
    }
  }

  lemma BodyNext(h: bv32, data: Bytes, n: nat)
    requires n % 4 == 0 && n + 4 <= |data|
    ensures Body(h, data[..n + 4]) == Mix(Body(h, data[..n]), LeWord(data[n..n + 4]))
  {
    hide Mix, LeWord;
    assert data[..n + 4] == data[..n] + data[n..n + 4];
    BodyConcat(h, data[..n], data[n..n + 4]);
    OneBlock(Body(h, data[..n]), data[n..n + 4]);
  }

  lemma OneBlock(h: bv32, block: Bytes)
    requires |block| == 4
    ensures Body(h, block) == Mix(h, LeWord(block))
  {
    hide Mix, LeWord;
    assert block[..4] == block && block[4..] == [];
  }

  lemma BodyRest(h: bv32, data: Bytes, n: nat)
    requires n % 4 == 0 && n <= |data| < n + 4
    ensures Body(h, data) == Body(h, data[..n]) && Rest(data) == data[n..]
  {
    hide Mix, LeWord;
    assert data == data[..n] + data[n..];
    BodyConcat(h, data[..n], data[n..]);
  }

  lemma BodyMore(h: bv32, a: Bytes, b: Bytes)
    ensures Body(h, a + b) == Body(Body(h, a), Rest(a) + b)
    ensures Rest(a + b) == Rest(Rest(a) + b)
  {
    hide Mix, LeWord;
    var whole := a[..|a| - |a| % 4];
    BodyRest(h, a, |whole|);
    assert a + b == whole + (Rest(a) + b);
    BodyConcat(h, whole, Rest(a) + b);
    var c := Rest(a) + b;
    assert |a + b| % 4 == |c| % 4;
  }

  // -------------------------------------------------------------------- in one go

  /** z_hash32_murmur3. */
  method Hash32Murmur3(blob: Bytes, seed: bv32) returns (h1: bv32)
    requires |blob| < WORD_RANGE
    ensures h1 == HashOf(blob, seed)
  {
    hide Mix, LeWord, Body, Scramble, TailWord, Avalanche;
    var n := |blob|;
    var nblocks := n / 4;
    h1 := seed;
    Begin(seed, blob);
    for i := 0 to nblocks
      invariant h1 == Body(seed, blob[..4 * i])
    {
      BodyNext(seed, blob, 4 * i);
      h1 := Mix(h1, LeWord(blob[4 * i..4 * i + 4]));
    }
    BodyRest(seed, blob, 4 * nblocks);
    var tail := blob[4 * nblocks..];
    h1 := AddTail(h1, tail);
    h1 := Finish(h1, n);
  }

  lemma Begin(h: bv32, data: Bytes)
    ensures Body(h, data[..0]) == h
  {
  }

  lemma ZeroXor(x: bv32)
    ensures Xor(0, x) == x
  {
  }

  /** The switch on the tail bytes. */
  method AddTail(h: bv32, tail: Bytes) returns (h1: bv32)
    requires |tail| < 4
    ensures h1 == Closing(h, tail)
  {
    hide Scramble, Placed, Xor;
    var k1: bv32 := 0;
    h1 := h;
    if |tail| == 3 {
      ZeroXor(Placed(tail[2], 2));
      k1 := Xor(k1, Placed(tail[2], 2));
    }
    if |tail| >= 2 {
      ZeroXor(Placed(tail[1], 1));
      k1 := Xor(k1, Placed(tail[1], 1));
    }
    if |tail| >= 1 {
      ZeroXor(Placed(tail[0], 0));
      k1 := Xor(k1, Placed(tail[0], 0));
      h1 := Xor(h1, Scramble(k1));
    }
  }

  // ----------------------------------------------------------------- piece by piece

  /** z_hash32 with the murmur3 plug, and the bytes fed since the start. */
  class Hash32 {
    const buffer: array<byte>
    var bufsize: nat
    var length: nat
    var hash: bv32
    ghost const seed: bv32
    ghost var fed: Bytes

    /** z_hash32_init. */
    constructor (seed: bv32)
      ensures Valid() && fed == [] && this.seed == seed && fresh(buffer)
    {
      buffer := new byte[32];
      hash, bufsize, length := seed, 0, 0;
      this.seed, fed := seed, [];
    }

    ghost predicate Valid()
      reads this, buffer
    {
      && buffer.Length == 32
      && length == |fed| % WORD_RANGE && bufsize == |fed| % 4
      && hash == Body(seed, fed) && buffer[..bufsize] == Rest(fed)
    }

    /** z_hash32_update: the total length, then the plug. */
    method Update(blob: Bytes)
      requires Valid() && |blob| < WORD_RANGE
      modifies this, buffer
      ensures Valid() && fed == old(fed) + blob
    {
      hide Body, Rest;
      BodyMore(seed, fed, blob);
      length := (length + |blob|) % WORD_RANGE;
      PlugUpdate(blob);
      fed := fed + blob;
    }

    /** __murmur3_update: complete the buffered block, take whole blocks, keep the tail. */
    method PlugUpdate(blob: Bytes)
      requires buffer.Length == 32 && bufsize < 4
      modifies this`hash, this`bufsize, buffer
      ensures var all := old(buffer[..bufsize]) + blob;
              hash == Body(old(hash), all) && bufsize == |all| % 4 && buffer[..bufsize] == Rest(all)
    {
      hide Body, Mix, LeWord;
      ghost var all, h := buffer[..bufsize] + blob, hash;
      var at := 0;
      if bufsize != 0 {
        var need := 4 - bufsize;
        if |blob| < need {
          Append(blob);
          BodyRest(h, all, 0);
          Begin(h, all);
          return;
        }
        Append(blob[..need]);
        assert buffer[..4] == all[..4];
        OneBlock(h, all[..4]);
        hash := Mix(hash, LeWord(buffer[..4]));
        at := need;
      } else {
        Begin(h, all);
      }
      WholeBlocks(blob, at, h, all);
    }

    /** The whole blocks from position `at` on, and the tail into the buffer. */
    method WholeBlocks(blob: Bytes, at: nat, ghost h: bv32, ghost all: Bytes)
      requires buffer.Length == 32 && at <= |blob| <= |all| && (|all| - (|blob| - at)) % 4 == 0
      requires blob[at..] == all[|all| - (|blob| - at)..] && hash == Body(h, all[..|all| - (|blob| - at)])
      modifies this`hash, this`bufsize, buffer
      ensures hash == Body(h, all) && bufsize == |all| % 4 && buffer[..bufsize] == Rest(all)
    {
      hide Body, Mix, LeWord;
      ghost var done := |all| - (|blob| - at);
      var rest := blob[at..];
      var nblocks := |rest| / 4;
      for i := 0 to nblocks
        invariant hash == Body(h, all[..done + 4 * i])
      {
        BodyNext(h, all, done + 4 * i);
        assert all[done + 4 * i..done + 4 * i + 4] == rest[4 * i..4 * i + 4];
        hash := Mix(hash, LeWord(rest[4 * i..4 * i + 4]));
      }
      BodyRest(h, all, done + 4 * nblocks);
      bufsize := 0;
      Append(rest[4 * nblocks..]);
    }

    /** The loops that copy single bytes to the end of the buffer. */
    method Append(bytes: Bytes)
      requires buffer.Length == 32 && bufsize + |bytes| <= 4
      modifies this`bufsize, buffer
      ensures bufsize == old(bufsize) + |bytes| && buffer[..bufsize] == old(buffer[..bufsize]) + bytes
    {
      var i := 0;
      while i < |bytes|
        invariant 0 <= i <= |bytes| && bufsize == old(bufsize) + i
        invariant buffer[..bufsize] == old(buffer[..bufsize]) + bytes[..i]
      {
        buffer[bufsize] := bytes[i];
        bufsize := bufsize + 1;
        i := i + 1;
      }
    }

    /** z_hash32_digest: the same hash as in one go. */
    method Digest() returns (digest: bv32)
      requires Valid() && |fed| < WORD_RANGE
      modifies this`hash
      ensures digest == HashOf(fed, seed) && hash == digest
    {
      hide Body, Rest, Closing, Finish;
      var h1 := AddTail(hash, buffer[..bufsize]);
      hash := Finish(h1, length);
      digest := hash;
    }
  }
}
