/** coding-int-group.c: groups of numbers behind one byte that holds their lengths. */
module IntGroup {
  import opened MemShared
  import opened UInts

  const UINT32_LIMIT: nat := 0x1_0000_0000
  const UINT64_LIMIT: nat := 0x1_0000_0000_0000_0000

  function Encode4(a: nat, b: nat, c: nat, d: nat): Bytes
    requires a < UINT32_LIMIT && b < UINT32_LIMIT && c < UINT32_LIMIT && d < UINT32_LIMIT
  {
    [((UintBytes(a) - 1) * 64 + (UintBytes(b) - 1) * 16 + (UintBytes(c) - 1) * 4 + (UintBytes(d) - 1)) as byte]
    + EncodeUint(UintBytes(a), a) + EncodeUint(UintBytes(b), b) + EncodeUint(UintBytes(c), c)
    + EncodeUint(UintBytes(d), d)
  }

  function Encode3(a: nat, b: nat, c: nat): Bytes
    requires a < UINT64_LIMIT && b < UINT64_LIMIT && c < UINT32_LIMIT
  {
    [((UintBytes(a) - 1) * 32 + (UintBytes(b) - 1) * 4 + (UintBytes(c) - 1)) as byte]
    + EncodeUint(UintBytes(a), a) + EncodeUint(UintBytes(b), b) + EncodeUint(UintBytes(c), c)
  }

  /** z_encode_uint, the switch that enters at the length and falls through, and the advance of
      the buffer pointer. */
  method PutUint(buf: array<byte>, at: nat, length: nat, value: nat, ghost before: Bytes) returns (next: nat)
    requires length <= 8 && at + length <= buf.Length && buf[..at] == before
    modifies buf
    ensures next == at + length && buf[..next] == before + EncodeUint(length, value)
    ensures forall i | next <= i < buf.Length :: buf[i] == old(buf[i])
  {
    var bytes := WriteUint(length, value);
    forall i | 0 <= i < length { buf[at + i] := bytes[i]; }
    next := at + length;
    assert buf[at..next] == bytes[..];
    assert buf[..next] == buf[..at] + buf[at..next];
  }

  lemma SmallBytes(v: nat)
    ensures 1 <= UintBytes(v) <= 8 && (v < UINT32_LIMIT ==> UintBytes(v) <= 4)
  {
  }

  /** z_encode_4int. */
  method Encode4Int(buf: array<byte>, a: nat, b: nat, c: nat, d: nat) returns (n: nat)
    requires a < UINT32_LIMIT && b < UINT32_LIMIT && c < UINT32_LIMIT && d < UINT32_LIMIT
    requires buf.Length >= 17
    modifies buf
    ensures n <= 17 && buf[..n] == Encode4(a, b, c, d)
    ensures forall i | n <= i < buf.Length :: buf[i] == old(buf[i])
  {
    hide EncodeUint, UintBytes;
    SmallBytes(a); SmallBytes(b); SmallBytes(c); SmallBytes(d);
    var la, lb, lc, ld := UintBytes(a), UintBytes(b), UintBytes(c), UintBytes(d);
    var head := ((la - 1) * 64 + (lb - 1) * 16 + (lc - 1) * 4 + (ld - 1)) as byte;
    buf[0] := head;
    ghost var ea, eb, ec := EncodeUint(la, a), EncodeUint(lb, b), EncodeUint(lc, c);
    n := PutUint(buf, 1, la, a, [head]);
    n := PutUint(buf, n, lb, b, [head] + ea);
    n := PutUint(buf, n, lc, c, [head] + ea + eb);
    n := PutUint(buf, n, ld, d, [head] + ea + eb + ec);
  }

  /** z_encode_3int. */
  method Encode3Int(buf: array<byte>, a: nat, b: nat, c: nat) returns (n: nat)
    requires a < UINT64_LIMIT && b < UINT64_LIMIT && c < UINT32_LIMIT && buf.Length >= 21
    modifies buf
    ensures n <= 21 && buf[..n] == Encode3(a, b, c)
    ensures forall i | n <= i < buf.Length :: buf[i] == old(buf[i])
  {
    hide EncodeUint, UintBytes;
    SmallBytes(a); SmallBytes(b); SmallBytes(c);
    var la, lb, lc := UintBytes(a), UintBytes(b), UintBytes(c);
    var head := ((la - 1) * 32 + (lb - 1) * 4 + (lc - 1)) as byte;
    buf[0] := head;
    n := PutUint(buf, 1, la, a, [head]);
    n := PutUint(buf, n, lb, b, [head] + EncodeUint(la, a));
    n := PutUint(buf, n, lc, c, [head] + EncodeUint(la, a) + EncodeUint(lb, b));
  }

  /** The four lengths of the first byte. */
  function Lengths4(head: byte): (nat, nat, nat, nat) {
    (1 + head as nat / 64, 1 + head as nat / 16 % 4, 1 + head as nat / 4 % 4, 1 + head as nat % 4)
  }

  function Lengths3(head: byte): (nat, nat, nat) {
    (1 + head as nat / 32, 1 + head as nat / 4 % 8, 1 + head as nat % 4)
  }

  /** z_decode_4int: the numbers and the bytes they took. */
  method Decode4Int(buf: Bytes) returns (n: nat, a: nat, b: nat, c: nat, d: nat)
    requires buf != [] && var l := Lengths4(buf[0]); |buf| >= 1 + l.0 + l.1 + l.2 + l.3
    ensures var l := Lengths4(buf[0]);
            && n == 1 + l.0 + l.1 + l.2 + l.3
            && a == DecodeUint(buf[1..], l.0) && b == DecodeUint(buf[1 + l.0..], l.1)
            && c == DecodeUint(buf[1 + l.0 + l.1..], l.2) && d == DecodeUint(buf[1 + l.0 + l.1 + l.2..], l.3)
  {
    hide DecodeUint;
    var l := Lengths4(buf[0]);
    var p := 1;
    a := ReadUint(buf[p..], l.0);
    p := p + l.0;
    b := ReadUint(buf[p..], l.1);
    p := p + l.1;
    c := ReadUint(buf[p..], l.2);
    p := p + l.2;
    d := ReadUint(buf[p..], l.3);
    n := 1 + (l.0 + l.1 + l.2 + l.3);
  }

  /** z_decode_3int. */
  method Decode3Int(buf: Bytes) returns (n: nat, a: nat, b: nat, c: nat)
    requires buf != [] && var l := Lengths3(buf[0]); |buf| >= 1 + l.0 + l.1 + l.2
    ensures var l := Lengths3(buf[0]);
            && n == 1 + l.0 + l.1 + l.2
            && a == DecodeUint(buf[1..], l.0) && b == DecodeUint(buf[1 + l.0..], l.1)
            && c == DecodeUint(buf[1 + l.0 + l.1..], l.2)
  {
    hide DecodeUint;
    var l := Lengths3(buf[0]);
    var p := 1;
    a := ReadUint(buf[p..], l.0);
    p := p + l.0;
    b := ReadUint(buf[p..], l.1);
    p := p + l.1;
    c := ReadUint(buf[p..], l.2);
    n := 1 + (l.0 + l.1 + l.2);
  }

  lemma Parts4(a: nat, b: nat, c: nat, d: nat)
    requires a < 4 && b < 4 && c < 4 && d < 4
    ensures var v := a * 64 + b * 16 + c * 4 + d;
            v < 256 && v / 64 == a && v / 16 % 4 == b && v / 4 % 4 == c && v % 4 == d
  {
    var v := a * 64 + b * 16 + c * 4 + d;
    assert v / 16 == 4 * a + b && v / 4 == 16 * a + 4 * b + c;
  }

  lemma Parts3(a: nat, b: nat, c: nat)
    requires a < 8 && b < 8 && c < 4
    ensures var v := a * 32 + b * 4 + c; v < 256 && v / 32 == a && v / 4 % 8 == b && v % 4 == c
  {
  }

  /** One number at a position of a buffer. */
  lemma NumberAt(before: Bytes, v: nat, after: Bytes)
    requires v < UINT64_LIMIT
    ensures DecodeUint((before + EncodeUint(UintBytes(v), v) + after)[|before|..], UintBytes(v)) == v
  {
    hide DecodeUint, EncodeUint, UintBytes;
    var bytes := EncodeUint(UintBytes(v), v);
    BytesFit(v);
    UintRoundTrip(UintBytes(v), v, after);
    assert (before + bytes + after)[|before|..] == bytes + after;
  }

  lemma BytesFit(v: nat)
    requires v < UINT64_LIMIT
    ensures v < Limit(UintBytes(v))
  {
    UintBytesLeast(v, UintBytes(v));
  }

  lemma Lengths4Are(a: nat, b: nat, c: nat, d: nat, suffix: Bytes)
    requires a < UINT32_LIMIT && b < UINT32_LIMIT && c < UINT32_LIMIT && d < UINT32_LIMIT
    ensures Lengths4((Encode4(a, b, c, d) + suffix)[0]) == (UintBytes(a), UintBytes(b), UintBytes(c), UintBytes(d))
    ensures |Encode4(a, b, c, d)| == 1 + UintBytes(a) + UintBytes(b) + UintBytes(c) + UintBytes(d)
  {
    hide EncodeUint, UintBytes;
    SmallBytes(a); SmallBytes(b); SmallBytes(c); SmallBytes(d);
    Parts4(UintBytes(a) - 1, UintBytes(b) - 1, UintBytes(c) - 1, UintBytes(d) - 1);
  }

  /** Reading a group gives the four numbers and its length, whatever follows. */
  lemma RoundTrip4(a: nat, b: nat, c: nat, d: nat, suffix: Bytes)
    requires a < UINT32_LIMIT && b < UINT32_LIMIT && c < UINT32_LIMIT && d < UINT32_LIMIT
    ensures var enc := Encode4(a, b, c, d);
            var buf := enc + suffix;
            var l := Lengths4(buf[0]);
            && |enc| == 1 + l.0 + l.1 + l.2 + l.3
            && a == DecodeUint(buf[1..], l.0) && b == DecodeUint(buf[1 + l.0..], l.1)
            && c == DecodeUint(buf[1 + l.0 + l.1..], l.2) && d == DecodeUint(buf[1 + l.0 + l.1 + l.2..], l.3)
  {
    hide DecodeUint, EncodeUint, UintBytes, Lengths4;
    Lengths4Are(a, b, c, d, suffix);
    var buf := Encode4(a, b, c, d) + suffix;
    var head := [buf[0]];
    var ea, eb := EncodeUint(UintBytes(a), a), EncodeUint(UintBytes(b), b);
    var ec, ed := EncodeUint(UintBytes(c), c), EncodeUint(UintBytes(d), d);
    assert buf == head + ea + (eb + ec + ed + suffix);
    NumberAt(head, a, eb + ec + ed + suffix);
    assert buf == (head + ea) + eb + (ec + ed + suffix);
    NumberAt(head + ea, b, ec + ed + suffix);
    assert buf == (head + ea + eb) + ec + (ed + suffix);
    NumberAt(head + ea + eb, c, ed + suffix);
    assert buf == (head + ea + eb + ec) + ed + suffix;
    NumberAt(head + ea + eb + ec, d, suffix);
  }

  lemma RoundTrip3(a: nat, b: nat, c: nat, suffix: Bytes)
    requires a < UINT64_LIMIT && b < UINT64_LIMIT && c < UINT32_LIMIT
    ensures var enc := Encode3(a, b, c);
            var buf := enc + suffix;
            var l := Lengths3(buf[0]);
            && |enc| == 1 + l.0 + l.1 + l.2
            && a == DecodeUint(buf[1..], l.0) && b == DecodeUint(buf[1 + l.0..], l.1)
            && c == DecodeUint(buf[1 + l.0 + l.1..], l.2)
  {
    hide DecodeUint, EncodeUint;
    var buf := Encode3(a, b, c) + suffix;
    var head := [buf[0]];
    var ea, eb, ec := EncodeUint(UintBytes(a), a), EncodeUint(UintBytes(b), b), EncodeUint(UintBytes(c), c);
    Parts3(UintBytes(a) - 1, UintBytes(b) - 1, UintBytes(c) - 1);
    assert buf == head + ea + (eb + ec + suffix);
    NumberAt(head, a, eb + ec + suffix);
    assert buf == (head + ea) + eb + (ec + suffix);
    NumberAt(head + ea, b, ec + suffix);
    assert buf == (head + ea + eb) + ec + suffix;
    NumberAt(head + ea + eb, c, suffix);
  }
}
