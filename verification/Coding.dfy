/** coding.py: zigzag numbers, field heads, and variable-length numbers. */
module Coding {
  import opened Common
  import opened MemShared
  import opened UInts

  // ---------------------------------------------------------------------- zigzag

  const INT64_LIMIT: int := 0x8000_0000_0000_0000
  const UINT64_LIMIT: nat := 0x1_0000_0000_0000_0000

  predicate InInt64(n: int) { -INT64_LIMIT <= n < INT64_LIMIT }

  /** Exclusive or with a mask of no bits or of all bits. */
  function XorMask(x: int, mask: int): int
    requires mask == 0 || mask == -1
  {
    if mask == 0 then x else -x - 1
  }

  function EncodeZigzag(n: int): int
    requires InInt64(n)
  {
    XorMask(2 * n, n / INT64_LIMIT)
  }

  function DecodeZigzag(n: nat): int { XorMask(n / 2, -(n % 2)) }

  /** Zigzag pairs the 64-bit integers with the unsigned 64-bit numbers, one to one. */
  lemma ZigzagRoundTrip(n: int)
    requires InInt64(n)
    ensures 0 <= EncodeZigzag(n) < UINT64_LIMIT && DecodeZigzag(EncodeZigzag(n)) == n
  {
  }

  lemma ZigzagOnto(m: nat)
    requires m < UINT64_LIMIT
    ensures InInt64(DecodeZigzag(m)) && EncodeZigzag(DecodeZigzag(m)) == m
  {
  }

  // ------------------------------------------------------------------- field heads

  /** z_fetch_bits. */
  function FetchBits(b: byte, nbits: nat, pos: nat): nat
    requires nbits <= 4 && pos <= 6
  {
    b as nat / Pow2(pos) % Pow2(nbits)
  }

  function Pow2(n: nat): (r: nat)
    ensures r > 0
  {
    if n == 0 then 1 else 2 * Pow2(n - 1)
  }

  /** The first byte of a field head: whether the length follows, how many bytes it takes (or the
      length itself), and the id shifted by two (or how many bytes that takes). */
  function HeadByte(field_id: nat, length: nat): nat {
    (if length <= 8 then 16 * ((length - 1) % 8) else 128 + 16 * ((UintBytes(length) - 1) % 8))
    + (if field_id <= 13 then field_id + 2 else UintBytes(field_id) - 1)
  }

  function EncodeField(field_id: nat, length: nat): Bytes
    requires 0 < length < UINT64_LIMIT
  {
    [HeadByte(field_id, length) as byte]
    + (if length <= 8 then [] else EncodeUint(UintBytes(length), length))
    + (if field_id <= 13 then [] else EncodeUint(UintBytes(field_id), field_id))
  }

  /** The length of the head, the id and the length of the field; None when the head is cut off. */
  datatype Head = Head(elength: nat, field_id: nat, length: nat)

  function DecodeField(buf: Bytes): (r: Option<Head>)
    requires buf != []
    ensures r.Some? ==> 1 <= r.value.elength <= |buf|
  {
    var flen := 1 + FetchBits(buf[0], 3, 4);
    var external := buf[0] >= 128;
    if external && |buf| < 1 + flen then None
    else
      var elength := if external then 1 + flen else 1;
      var length := if external then DecodeUint(buf[1..], flen) else flen;
      var ilen := FetchBits(buf[0], 4, 0);
      if ilen >= 2 then Some(Head(elength, ilen - 2, length))
      else if |buf| < elength + ilen + 1 then None
      else Some(Head(elength + ilen + 1, DecodeUint(buf[elength..], ilen + 1), length))
  }

  /** z_encode_field fills a buffer: the length, then the id. */
  method WriteField(field_id: nat, length: nat) returns (buf: Bytes)
    requires 0 < length < UINT64_LIMIT
    ensures buf == EncodeField(field_id, length)
  {
    HeadFits(field_id, length);
    var head;
    var tail: Bytes := [];
    if length <= 8 {
      head := 16 * ((length - 1) % 8);
    } else {
      var flen := UintBytes(length);
      head := 128 + 16 * ((flen - 1) % 8);
      var bytes := WriteUint(flen, length);
      tail := tail + bytes[..];
    }
    if field_id <= 13 {
      head := head + (field_id + 2);
    } else {
      var flen := UintBytes(field_id);
      head := head + (flen - 1);
      var bytes := WriteUint(flen, field_id);
      tail := tail + bytes[..];
    }
    buf := [head as byte] + tail;
  }

  lemma HeadFits(field_id: nat, length: nat)
    requires 0 < length
    ensures HeadByte(field_id, length) < 256
  {
  }

  lemma HeadBits(b: byte)
    ensures FetchBits(b, 3, 4) == b as nat / 16 % 8 && FetchBits(b, 4, 0) == b as nat % 16
  {
    assert Pow2(4) == 16 && Pow2(3) == 8 && Pow2(0) == 1;
  }

  lemma Parts(a: nat, b: nat, c: nat)
    requires a < 2 && b < 8 && c < 16
    ensures var v := 128 * a + 16 * b + c; v < 256 && v / 128 == a && v / 16 % 8 == b && v % 16 == c
  {
  }

  /** The parts of the head byte. */
  lemma HeadParts(field_id: nat, length: nat)
    requires 0 < length < UINT64_LIMIT
    ensures var b := HeadByte(field_id, length);
            && b < 256
            && (b >= 128 <==> length > 8)
            && 1 + b / 16 % 8 == (if length <= 8 then length else UintBytes(length))
            && b % 16 == (if field_id <= 13 then field_id + 2 else UintBytes(field_id) - 1)
  {
    Parts(if length <= 8 then 0 else 1, if length <= 8 then length - 1 else UintBytes(length) - 1,
          if field_id <= 13 then field_id + 2 else UintBytes(field_id) - 1);
  }

  /** What the decoder reads off an encoded head. */
  lemma DecodeEncoded(field_id: nat, length: nat, suffix: Bytes)
    requires 0 < length < UINT64_LIMIT && field_id < UINT64_LIMIT
    ensures var enc := EncodeField(field_id, length);
            var idlen := UintBytes(field_id);
            DecodeField(enc + suffix)
            == if field_id <= 13 || idlen <= 2 then Some(Head(|enc|, field_id, length))
               else Some(Head(|enc| - idlen, idlen - 3, length))
  {
    hide EncodeUint, DecodeUint, HeadByte, FetchBits, Limit;
    var enc := EncodeField(field_id, length);
    var buf := enc + suffix;
    HeadParts(field_id, length);
    HeadBits(buf[0]);
    var llen := if length <= 8 then 0 else UintBytes(length);
    var ilen := if field_id <= 13 then 0 else UintBytes(field_id);
    var lbytes, ibytes := EncodeUint(llen, length), EncodeUint(ilen, field_id);
    assert enc == [buf[0]] + lbytes + ibytes;
    assert buf[1..] == lbytes + (ibytes + suffix);
    assert buf[1 + llen..] == ibytes + suffix;
    UintBytesLeast(length, UintBytes(length));
    UintRoundTrip(llen, length, ibytes + suffix);
    UintRoundTrip(ilen, field_id, suffix);
    UintBytesLeast(field_id, UintBytes(field_id));
  }

  /** A field head with an id below 65536 decodes to what was encoded, whatever follows; with a
      longer id it does not, for the byte count of the id then reads as an id. */
  lemma FieldRoundTrip(field_id: nat, length: nat, suffix: Bytes)
    requires 0 < length < UINT64_LIMIT && field_id < UINT64_LIMIT
    ensures DecodeField(EncodeField(field_id, length) + suffix)
            == Some(Head(|EncodeField(field_id, length)|, field_id, length))
            <==> field_id < 0x1_0000
  {
    hide DecodeField, EncodeField;
    DecodeEncoded(field_id, length, suffix);
  }

  /** A head that is cut off is recognized, wherever it is cut. */
  lemma FieldCut(field_id: nat, length: nat, n: nat)
    requires 0 < length < UINT64_LIMIT && field_id < 0x1_0000
    requires 0 < n < |EncodeField(field_id, length)|
    ensures DecodeField(EncodeField(field_id, length)[..n]) == None
  {
    var enc := EncodeField(field_id, length);
    HeadParts(field_id, length);
    HeadBits(enc[0]);
    assert enc[..n][0] == enc[0];
  }

  // -------------------------------------------------------- variable-length numbers

  function EncodeVint(value: nat): (r: Bytes)
    ensures r != []
  {
    if value < 128 then [value as byte] else [(128 + value % 128) as byte] + EncodeVint(value / 128)
  }

  /** z_encode_vint. */
  method WriteVint(value0: nat) returns (data: Bytes)
    ensures data == EncodeVint(value0)
  {
    data := [];
    var bits: nat, value: nat := value0 % 128, value0 / 128;
    while value != 0
      invariant bits < 128 && data + EncodeVint(bits + 128 * value) == EncodeVint(value0)
      decreases value
    {
      var rest := bits + 128 * value;
      assert rest % 128 == bits && rest / 128 == value;
      data := data + [(128 + bits) as byte];
      bits, value := value % 128, value / 128;
    }
    data := data + [bits as byte];
  }

  datatype Vint = Value(index: nat, result: nat) | TooLong | CutOff

  /** The groups from `buf[index]` on, of which `left` may be read. */
  function DecodeGroups(buf: Bytes, index: nat, left: nat): Vint
    decreases left
  {
    if left == 0 then TooLong
    else if index >= |buf| then CutOff
    else if buf[index] >= 128 then
      match DecodeGroups(buf, index + 1, left - 1)
      case Value(n, rest) => Value(n, (buf[index] - 128) as nat + 128 * rest)
      case other => other
    else Value(index + 1, buf[index] as nat)
  }

  /** A number read from later groups, put on top of `result`. */
  function OnTop(result: nat, scale: nat, later: Vint): Vint {
    match later
    case Value(n, rest) => Value(n, result + scale * rest)
    case other => other
  }

  lemma OneGroup(result: nat, scale: nat, buf: Bytes, index: nat, left: nat)
    requires left > 0 && index < |buf|
    ensures OnTop(result, scale, DecodeGroups(buf, index, left))
            == if buf[index] >= 128
               then OnTop(result + (buf[index] - 128) as nat * scale, scale * 128,
                          DecodeGroups(buf, index + 1, left - 1))
               else Value(index + 1, result + buf[index] as nat * scale)
  {
    var later := DecodeGroups(buf, index + 1, left - 1);
    if buf[index] >= 128 && later.Value? {
      var low := (buf[index] - 128) as nat;
      assert scale * (low + 128 * later.result) == low * scale + scale * 128 * later.result;
    }
  }

  /** z_decode_vint: at most ten groups, of seven bits each. */
  method ReadVint(buf: Bytes) returns (r: Vint)
    ensures r == DecodeGroups(buf, 0, 10)
  {
    hide OnTop, DecodeGroups;
    var result: nat, index: nat, shift, scale: nat := 0, 0, 0, 1;
    AtStart(DecodeGroups(buf, 0, 10));
    while shift < 64
      invariant index <= 10 && shift == 7 * index
      invariant DecodeGroups(buf, 0, 10) == OnTop(result, scale, DecodeGroups(buf, index, 10 - index))
      decreases 64 - shift
    {
      if index >= |buf| {
        Ended(result, scale, buf, index, 10 - index);
        return CutOff;
      }
      OneGroup(result, scale, buf, index, 10 - index);
      var b := buf[index];
      index := index + 1;
      if b >= 128 {
        result := result + (b - 128) as nat * scale;
      } else {
        result := result + b as nat * scale;
        return Value(index, result);
      }
      shift, scale := shift + 7, scale * 128;
    }
    NoneLeft(result, scale, buf, index);
    return TooLong;
  }

  lemma AtStart(v: Vint)
    ensures OnTop(0, 1, v) == v
  {
  }

  lemma NoneLeft(result: nat, scale: nat, buf: Bytes, index: nat)
    ensures OnTop(result, scale, DecodeGroups(buf, index, 0)) == TooLong
  {
  }

  lemma Ended(result: nat, scale: nat, buf: Bytes, index: nat, left: nat)
    requires left > 0 && index >= |buf|
    ensures OnTop(result, scale, DecodeGroups(buf, index, left)) == CutOff
  {
  }

  function Pow128(n: nat): (r: nat)
    ensures r > 0
  {
    if n == 0 then 1 else 128 * Pow128(n - 1)
  }

  /** With `left` groups to read, exactly the values below 128^left come back, whatever follows. */
  lemma {:induction false} GroupsRoundTrip(value: nat, prefix: Bytes, suffix: Bytes, left: nat)
    ensures DecodeGroups(prefix + EncodeVint(value) + suffix, |prefix|, left)
            == if left > 0 && value < Pow128(left) then Value(|prefix| + |EncodeVint(value)|, value) else TooLong
  {
    var buf := prefix + EncodeVint(value) + suffix;
    assert left > 0 ==> Pow128(left) == 128 * Pow128(left - 1);
    if left > 0 && value >= 128 {
      var first := (128 + value % 128) as byte;
      assert buf == (prefix + [first]) + EncodeVint(value / 128) + suffix;
      GroupsRoundTrip(value / 128, prefix + [first], suffix, left - 1);
    }
  }

  /** The round trip holds for the values below 2^70, and only for those. */
  lemma VintRoundTrip(value: nat, suffix: Bytes)
    ensures DecodeGroups(EncodeVint(value) + suffix, 0, 10)
            == if value < 0x40_0000_0000_0000_0000 then Value(|EncodeVint(value)|, value) else TooLong
  {
    GroupsRoundTrip(value, [], suffix, 10);
    assert [] + EncodeVint(value) + suffix == EncodeVint(value) + suffix;
    assert Pow128(10) == 0x40_0000_0000_0000_0000 by {
      assert Pow128(5) == 0x8_0000_0000;
      assert Pow128(10) == 0x8_0000_0000 * 128 * 128 * 128 * 128 * 128;
    }
  }
}
