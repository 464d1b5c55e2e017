/** What the two SHA contexts share: a compression function folded over 64-byte blocks, the
    bit count in two words, and the padding of section 5.1.1 of FIPS 180-3. */
module HashStream {
  import opened Common
  import opened MemShared

  type State = seq<bv32>
  type Compression = (State, Bytes) -> State

  const BLOCK: nat := 64
  const WORD_RANGE: nat := 0x1_0000_0000

  /** The compression function over all whole blocks of `data`, in order. */
  function Absorb(f: Compression, h: State, data: Bytes): State
    decreases |data|
  {
    if |data| < BLOCK then h else Absorb(f, f(h, data[..BLOCK]), data[BLOCK..])
  }

  /** The bytes after the last whole block. */
  function Tail(data: Bytes): (tail: Bytes)
    ensures |tail| == |data| % BLOCK
  {
    data[|data| - |data| % BLOCK..]
  }

  lemma {:induction false} AbsorbBlocks(f: Compression, h: State, a: Bytes, b: Bytes)
    requires |a| % BLOCK == 0
    ensures Absorb(f, h, a + b) == Absorb(f, Absorb(f, h, a), b)
    decreases |a|
  {
    if a == [] {
      assert a + b == b;
    } else {
      assert (a + b)[..BLOCK] == a[..BLOCK] && (a + b)[BLOCK..] == a[BLOCK..] + b;
      AbsorbBlocks(f, f(h, a[..BLOCK]), a[BLOCK..], b);
    }
  }

  /** Only the tail of what was absorbed matters for what follows. */
  lemma AbsorbMore(f: Compression, h: State, a: Bytes, b: Bytes)
    ensures Absorb(f, h, a + b) == Absorb(f, Absorb(f, h, a), Tail(a) + b)
  {
    var whole := a[..|a| - |a| % BLOCK];
    AbsorbBlocks(f, h, whole, Tail(a));
    assert a == whole + Tail(a);
    AbsorbBlocks(f, h, whole, Tail(a) + b);
    assert a + b == whole + (Tail(a) + b);
  }

  lemma TailMore(a: Bytes, b: Bytes)
    ensures Tail(a + b) == Tail(Tail(a) + b)
  {
    var whole, c := a[..|a| - |a| % BLOCK], Tail(a) + b;
    assert a + b == whole + c;
    ModMultiple(BLOCK, |a| / BLOCK, |c|);
    SameTail(whole, c, |c| - |c| % BLOCK);
  }

  lemma SameTail(a: Bytes, b: Bytes, n: nat)
    requires n <= |b|
    ensures (a + b)[|a| + n..] == b[n..]
  {
  }

  lemma AbsorbNone(f: Compression, h: State, data: Bytes)
    requires |data| < BLOCK
    ensures Absorb(f, h, data) == h && Tail(data) == data
  {
  }

  lemma AbsorbFirst(f: Compression, h: State, data: Bytes)
    requires |data| >= BLOCK
    ensures Absorb(f, h, data[..BLOCK]) == f(h, data[..BLOCK])
  {
    assert data[..BLOCK][..BLOCK] == data[..BLOCK];
  }

  /** One more block after `n` bytes of whole blocks. */
  lemma AbsorbNext(f: Compression, h: State, data: Bytes, n: nat)
    requires n % BLOCK == 0 && n + BLOCK <= |data|
    ensures Absorb(f, h, data[..n + BLOCK]) == f(Absorb(f, h, data[..n]), data[n..n + BLOCK])
  {
    AbsorbBlocks(f, h, data[..n], data[n..n + BLOCK]);
    assert data[..n + BLOCK] == data[..n] + data[n..n + BLOCK];
    AbsorbFirst(f, Absorb(f, h, data[..n]), data[n..n + BLOCK]);
    assert data[n..n + BLOCK][..BLOCK] == data[n..n + BLOCK];
  }

  /** Less than a block is left after `n` bytes of whole blocks. */
  lemma AbsorbRest(f: Compression, h: State, data: Bytes, n: nat)
    requires n % BLOCK == 0 && n <= |data| < n + BLOCK
    ensures Absorb(f, h, data) == Absorb(f, h, data[..n]) && Tail(data) == data[n..]
  {
    AbsorbBlocks(f, h, data[..n], data[n..]);
    assert data == data[..n] + data[n..];
  }

  // ----------------------------------------------------------------- the bit count

  /** The two count words hold eight times the number of bytes, modulo 2^64. */
  predicate Counts(count0: nat, count1: nat, bytes: nat) {
    && count0 < WORD_RANGE && count1 < WORD_RANGE
    && count1 * WORD_RANGE + count0 == (8 * bytes) % (WORD_RANGE * WORD_RANGE)
  }

  /** How update adds `len` to the count: with the carry out of the low word, and the bits
      that the shift by three pushes out of it. */
  function AddLow(count0: nat, len: nat): nat { (count0 + (8 * len) % WORD_RANGE) % WORD_RANGE }

  function AddHigh(count0: nat, count1: nat, len: nat): nat {
    var carry := if AddLow(count0, len) < (8 * len) % WORD_RANGE then 1 else 0;
    ((count1 + carry) % WORD_RANGE + len / 0x2000_0000) % WORD_RANGE
  }

  lemma CountsAdd(count0: nat, count1: nat, bytes: nat, len: nat)
    requires Counts(count0, count1, bytes) && len < WORD_RANGE
    ensures Counts(AddLow(count0, len), AddHigh(count0, count1, len), bytes + len)
  {
    var low, high := (8 * len) % WORD_RANGE, len / 0x2000_0000;
    Divided(8 * len, WORD_RANGE, high, 8 * (len % 0x2000_0000));
    var c0, c1 := AddLow(count0, len), AddHigh(count0, count1, len);
    var carry := if c0 < low then 1 else 0;
    Divided(count0 + low, WORD_RANGE, if count0 + low < WORD_RANGE then 0 else 1,
            if count0 + low < WORD_RANGE then count0 + low else count0 + low - WORD_RANGE);
    assert count0 + low == carry * WORD_RANGE + c0;
    var total := count1 * WORD_RANGE + count0 + 8 * len;
    assert total == (count1 + carry + high) * WORD_RANGE + c0;
    SumMod(8 * bytes, 8 * len);
    HighWord(count1 + carry + high, c0);
    ModTwice(count1 + carry, high);
  }

  lemma ModTwice(a: nat, b: nat)
    ensures (a % WORD_RANGE + b) % WORD_RANGE == (a + b) % WORD_RANGE
  {
    ModMultiple(WORD_RANGE, a / WORD_RANGE, a % WORD_RANGE + b);
  }

  lemma SumMod(a: nat, b: nat)
    ensures (a + b) % (WORD_RANGE * WORD_RANGE) == (a % (WORD_RANGE * WORD_RANGE) + b) % (WORD_RANGE * WORD_RANGE)
  {
    var d := WORD_RANGE * WORD_RANGE;
    ModMultiple(d, a / d, a % d + b);
  }

  lemma HighWord(high: nat, low: nat)
    requires low < WORD_RANGE
    ensures (high * WORD_RANGE + low) % (WORD_RANGE * WORD_RANGE) == (high % WORD_RANGE) * WORD_RANGE + low
  {
    var q, r := high / WORD_RANGE, high % WORD_RANGE;
    Divided(high * WORD_RANGE + low, WORD_RANGE * WORD_RANGE, q, r * WORD_RANGE + low);
  }

  /** The position in the block, read off the low count word. */
  lemma PositionFromCount(count0: nat, count1: nat, bytes: nat)
    requires Counts(count0, count1, bytes)
    ensures count0 / 8 % BLOCK == bytes % BLOCK
  {
    var q := (8 * bytes) / (WORD_RANGE * WORD_RANGE);
    assert 8 * bytes == q * (WORD_RANGE * WORD_RANGE) + count1 * WORD_RANGE + count0;
    var blocks := q * 0x80_0000_0000_0000 + count1 * 0x80_0000;
    assert 8 * bytes == 8 * (BLOCK * blocks) + count0;
    assert bytes == BLOCK * blocks + count0 / 8;
    ModMultiple(BLOCK, blocks, count0 / 8);
  }

  // -------------------------------------------------------------------- the padding

  /** A number as eight bytes, most significant first. */
  function Bytes8(v: nat): (r: Bytes)
    ensures |r| == 8
  {
    [ByteAt(v, 7), ByteAt(v, 6), ByteAt(v, 5), ByteAt(v, 4), ByteAt(v, 3), ByteAt(v, 2), ByteAt(v, 1), ByteAt(v, 0)]
  }

  function Power256(k: nat): (p: nat)
    ensures p > 0
  {
    if k == 0 then 1 else 256 * Power256(k - 1)
  }

  function ByteAt(v: nat, k: nat): byte { (v / Power256(k) % 256) as byte }

  function Zeros(n: nat): (r: Bytes)
    ensures |r| == n
  {
    seq(n, _ => 0 as byte)
  }

  /** The number of zero bytes of section 5.1.1: the least that brings one byte 0x80, the zeros
      and eight bytes of length to a block boundary. */
  function ZeroCount(bytes: nat): (k: nat)
    ensures (bytes + 1 + k) % BLOCK == 56
    ensures k < BLOCK
  {
    (BLOCK + 55 - bytes % BLOCK) % BLOCK
  }

  /** The padded message. */
  function Pad(message: Bytes): Bytes {
    message + [0x80] + Zeros(ZeroCount(|message|)) + Bytes8(8 * |message|)
  }

  lemma RoundUp(n: nat)
    requires n % BLOCK == 56
    ensures (n + 8) % BLOCK == 0
  {
  }

  lemma PadLength(message: Bytes)
    ensures |Pad(message)| % BLOCK == 0
  {
    hide Bytes8, Zeros, ZeroCount;
    var k := ZeroCount(|message|);
    RoundUp(|message| + 1 + k);
    assert |Pad(message)| == |message| + 1 + k + 8;
  }

  /** The zeros of the padding are the fewest that will do. */
  lemma ZeroCountLeast(bytes: nat, k: nat)
    requires k <= ZeroCount(bytes)
    ensures (bytes + 1 + k) % BLOCK == 56 <==> k == ZeroCount(bytes)
  {
    var r := bytes % BLOCK;
    assert ZeroCount(bytes) == if r <= 55 then 55 - r else 119 - r;
    assert (bytes + 1 + k) % BLOCK == (r + 1 + k) % BLOCK;
  }

  /** The count words as bytes, as final writes them. */
  function FinalCount(count0: nat, count1: nat): (r: Bytes)
    ensures |r| == 8
  {
    [(count1 / 0x100_0000 % 256) as byte, (count1 / 0x1_0000 % 256) as byte,
     (count1 / 0x100 % 256) as byte, (count1 % 256) as byte,
     (count0 / 0x100_0000 % 256) as byte, (count0 / 0x1_0000 % 256) as byte,
     (count0 / 0x100 % 256) as byte, (count0 % 256) as byte]
  }

  lemma Powers()
    ensures Power256(0) == 1 && Power256(1) == 0x100 && Power256(2) == 0x1_0000 && Power256(3) == 0x100_0000
    ensures Power256(4) == 0x1_0000_0000 && Power256(5) == 0x100_0000_0000
    ensures Power256(6) == 0x1_0000_0000_0000 && Power256(7) == 0x100_0000_0000_0000
  {
  }

  /** The upper four bytes of a double word are those of the high word. */
  lemma HighBytes(count0: nat, count1: nat)
    requires count0 < WORD_RANGE
    ensures var n := count1 * WORD_RANGE + count0;
            && n / 0x100_0000_0000_0000 == count1 / 0x100_0000 && n / 0x1_0000_0000_0000 == count1 / 0x1_0000
            && n / 0x100_0000_0000 == count1 / 0x100 && n / 0x1_0000_0000 == count1
  {
    var n := count1 * WORD_RANGE + count0;
    Divided(n, 0x100_0000_0000_0000, count1 / 0x100_0000, (count1 % 0x100_0000) * WORD_RANGE + count0);
    Divided(n, 0x1_0000_0000_0000, count1 / 0x1_0000, (count1 % 0x1_0000) * WORD_RANGE + count0);
    Divided(n, 0x100_0000_0000, count1 / 0x100, (count1 % 0x100) * WORD_RANGE + count0);
    Divided(n, 0x1_0000_0000, count1, count0);
  }

  /** The lower four bytes are those of the low word. */
  lemma LowBytes(count0: nat, count1: nat)
    requires count0 < WORD_RANGE
    ensures var n := count1 * WORD_RANGE + count0;
            && n / 0x100_0000 % 256 == count0 / 0x100_0000 % 256 && n / 0x1_0000 % 256 == count0 / 0x1_0000 % 256
            && n / 0x100 % 256 == count0 / 0x100 % 256 && n % 256 == count0 % 256
  {
    var n := count1 * WORD_RANGE + count0;
    Divided(n, 0x100_0000, 0x100 * count1 + count0 / 0x100_0000, count0 % 0x100_0000);
    Divided(n, 0x1_0000, 0x1_0000 * count1 + count0 / 0x1_0000, count0 % 0x1_0000);
    Divided(n, 0x100, 0x100_0000 * count1 + count0 / 0x100, count0 % 0x100);
    ModMultiple(256, count1, count0 / 0x100_0000);
    ModMultiple(256, 0x100 * count1, count0 / 0x1_0000);
    ModMultiple(256, 0x1_0000 * count1, count0 / 0x100);
    ModMultiple(256, 0x100_0000 * count1, count0);
  }

  /** The bytes final appends are the message length in bits. */
  lemma FinalCountIsLength(count0: nat, count1: nat, bytes: nat)
    requires Counts(count0, count1, bytes) && bytes < 0x2000_0000_0000_0000
    ensures FinalCount(count0, count1) == Bytes8(8 * bytes)
  {
    var n := 8 * bytes;
    assert n == count1 * WORD_RANGE + count0;
    Powers();
    HighBytes(count0, count1);
    LowBytes(count0, count1);
  }

  lemma ZerosGrow(before: Bytes, k: nat)
    ensures before + Zeros(k) + [0] == before + Zeros(k + 1)
  {
    assert Zeros(k) + [0] == Zeros(k + 1);
  }

  /** Four bytes, most significant first. */
  function BeWord(b: Bytes, i: nat): bv32
    requires i + 4 <= |b|
  {
    ((b[i] as bv32) << 24) | ((b[i + 1] as bv32) << 16) | ((b[i + 2] as bv32) << 8) | (b[i + 3] as bv32)
  }

  /** Byte `i` of a word, most significant first. */
  function Octet(w: bv32, i: nat): bv8 {
    if i == 0 then (w >> 24) as bv8
    else if i == 1 then ((w >> 16) & 0xff) as bv8
    else if i == 2 then ((w >> 8) & 0xff) as bv8
    else (w & 0xff) as bv8
  }

  function Digest(h: State): (d: seq<bv8>) {
    seq(4 * |h|, i requires 0 <= i < 4 * |h| => Octet(h[i / 4], i % 4))
  }

  /** Every piece leaves the test of update right: what is buffered and the piece stay below 2^32. */
  predicate PiecesFit(pieces: seq<Bytes>) {
    forall i | 0 <= i < |pieces| :: |Joined(pieces[..i])| % BLOCK + |pieces[i]| < WORD_RANGE
  }

  /** The exact limit of one update: the test `j + len > 63`, computed in 32 bits, takes the
      right branch if and only if the sum does not wrap. */
  lemma UpdateLimit(j: nat, len: nat)
    requires j < BLOCK && len < WORD_RANGE
    ensures ((j + len) % WORD_RANGE > 63 <==> j + len > 63) <==> j + len < WORD_RANGE
  {
  }
}
