/** Unsigned numbers as bytes, least significant first: what the Python client and the C library
    both write and read. */
module UInts {
  import opened MemShared

  /** 256 to the power of `n`: the numbers below it fit into `n` bytes. */
  function Limit(n: nat): (r: nat)
    ensures r > 0
  {
    if n == 0 then 1 else 256 * Limit(n - 1)
  }

  function EncodeUint(length: nat, value: nat): (r: Bytes)
    ensures |r| == length
  {
    if length == 0 then [] else [(value % 256) as byte] + EncodeUint(length - 1, value / 256)
  }

  function DecodeUint(buf: Bytes, length: nat): nat
    requires length <= |buf|
  {
    if length == 0 then 0 else buf[0] as nat + 256 * DecodeUint(buf[1..], length - 1)
  }

  /** Decoding inverts encoding, whatever follows, for the values that fit, and only for those. */
  lemma {:induction false} UintRoundTrip(length: nat, value: nat, suffix: Bytes)
    ensures DecodeUint(EncodeUint(length, value) + suffix, length) == value <==> value < Limit(length)
  {
    if length > 0 {
      UintRoundTrip(length - 1, value / 256, suffix);
      assert (EncodeUint(length, value) + suffix)[1..] == EncodeUint(length - 1, value / 256) + suffix;
    }
  }

  lemma {:induction false} DecodeUintBound(buf: Bytes, length: nat)
    requires length <= |buf|
    ensures DecodeUint(buf, length) < Limit(length)
  {
    if length > 0 { DecodeUintBound(buf[1..], length - 1); }
  }

  /** z_uint_bytes, z_uint64_size: the bytes a number below 2^64 takes. */
  function UintBytes(value: nat): nat {
    if value < 0x1_0000_0000 then
      if value < 0x100 then 1 else if value < 0x1_0000 then 2 else if value < 0x100_0000 then 3 else 4
    else
      if value < 0x100_0000_0000 then 5 else if value < 0x1_0000_0000_0000 then 6
      else if value < 0x100_0000_0000_0000 then 7 else 8
  }

  lemma Limits()
    ensures Limit(0) == 1 && Limit(1) == 0x100 && Limit(2) == 0x1_0000 && Limit(3) == 0x100_0000
    ensures Limit(4) == 0x1_0000_0000 && Limit(5) == 0x100_0000_0000 && Limit(6) == 0x1_0000_0000_0000
    ensures Limit(7) == 0x100_0000_0000_0000 && Limit(8) == 0x1_0000_0000_0000_0000
  {
    assert Limit(4) == 256 * Limit(3);
    assert Limit(8) == 256 * Limit(7);
  }

  /** It is the fewest bytes, of at least one, that hold the number. */
  lemma UintBytesLeast(value: nat, n: nat)
    requires value < 0x1_0000_0000_0000_0000 && 1 <= n <= 8
    ensures value < Limit(n) <==> UintBytes(value) <= n
  {
    Limits();
  }

  /** z_encode_uint of the Python client: byte after byte, from the last. */
  method WriteUint(length: nat, value: nat) returns (buf: array<byte>)
    requires length <= 8
    ensures fresh(buf) && buf[..] == EncodeUint(length, value)
  {
    buf := new byte[length];
    if length >= 8 { buf[7] := (value / 0x100_0000_0000_0000 % 256) as byte; }
    if length >= 7 { buf[6] := (value / 0x1_0000_0000_0000 % 256) as byte; }
    if length >= 6 { buf[5] := (value / 0x100_0000_0000 % 256) as byte; }
    if length >= 5 { buf[4] := (value / 0x1_0000_0000 % 256) as byte; }
    if length >= 4 { buf[3] := (value / 0x100_0000 % 256) as byte; }
    if length >= 3 { buf[2] := (value / 0x1_0000 % 256) as byte; }
    if length >= 2 { buf[1] := (value / 0x100 % 256) as byte; }
    if length >= 1 { buf[0] := (value % 256) as byte; }
    forall i | 0 <= i < length ensures buf[i] == EncodeUint(length, value)[i] {
      EncodeUintAt(length, value, i);
      Shifts(value);
    }
  }

  /** The value shifted down by `i` bytes, one after the other. */
  function Shifted(value: nat, i: nat): nat { if i == 0 then value else Shifted(value / 256, i - 1) }

  lemma {:induction false} EncodeUintAt(length: nat, value: nat, i: nat)
    requires i < length
    ensures EncodeUint(length, value)[i] as nat == Shifted(value, i) % 256
  {
    if i > 0 { EncodeUintAt(length - 1, value / 256, i - 1); }
  }

  lemma LowShifts(value: nat)
    ensures Shifted(value, 0) == value && Shifted(value, 1) == value / 0x100
    ensures Shifted(value, 2) == value / 0x1_0000 && Shifted(value, 3) == value / 0x100_0000
    ensures Shifted(value, 4) == value / 0x1_0000_0000
  {
    assert Shifted(value, 0) == value;
    ShiftMore(value, 0);
    ShiftMore(value, 1);
    ShiftMore(value, 2);
    ShiftMore(value, 3);
    assert value / 256 / 256 == value / 0x1_0000;
    assert value / 0x1_0000 / 256 == value / 0x100_0000;
    assert value / 0x100_0000 / 256 == value / 0x1_0000_0000;
  }

  lemma Shifts(value: nat)
    ensures Shifted(value, 0) == value && Shifted(value, 1) == value / 0x100
    ensures Shifted(value, 2) == value / 0x1_0000 && Shifted(value, 3) == value / 0x100_0000
    ensures Shifted(value, 4) == value / 0x1_0000_0000 && Shifted(value, 5) == value / 0x100_0000_0000
    ensures Shifted(value, 6) == value / 0x1_0000_0000_0000 && Shifted(value, 7) == value / 0x100_0000_0000_0000
  {
    LowShifts(value);
    ShiftMore(value, 4);
    ShiftMore(value, 5);
    ShiftMore(value, 6);
    assert value / 0x1_0000_0000 / 256 == value / 0x100_0000_0000;
    assert value / 0x100_0000_0000 / 256 == value / 0x1_0000_0000_0000;
    assert value / 0x1_0000_0000_0000 / 256 == value / 0x100_0000_0000_0000;
  }

  lemma {:induction false} ShiftMore(value: nat, i: nat)
    ensures Shifted(value, i + 1) == Shifted(value, i) / 256
  {
    if i > 0 { ShiftMore(value / 256, i - 1); }
  }

  /** z_decode_uint of the Python client, and z_decode_uint64 of the C library. */
  method ReadUint(buf: Bytes, length: nat) returns (result: nat)
    requires length <= 8 && length <= |buf|
    ensures result == DecodeUint(buf, length)
  {
    result := 0;
    if length >= 8 { result := buf[7] as nat * 0x100_0000_0000_0000; }
    if length >= 7 { result := result + buf[6] as nat * 0x1_0000_0000_0000; }
    if length >= 6 { result := result + buf[5] as nat * 0x100_0000_0000; }
    if length >= 5 { result := result + buf[4] as nat * 0x1_0000_0000; }
    if length >= 4 { result := result + buf[3] as nat * 0x100_0000; }
    if length >= 3 { result := result + buf[2] as nat * 0x1_0000; }
    if length >= 2 { result := result + buf[1] as nat * 0x100; }
    if length >= 1 { result := result + buf[0] as nat; }
    Limits();
    DecodeZero(buf);
    forall k | 1 <= k <= length
      ensures DecodeUint(buf, k) == DecodeUint(buf, k - 1) + buf[k - 1] as nat * Limit(k - 1)
    {
      DecodeLast(buf, k);
    }
  }

  lemma DecodeZero(buf: Bytes)
    ensures DecodeUint(buf, 0) == 0
  {
  }

  lemma {:induction false} DecodeLast(buf: Bytes, length: nat)
    requires 1 <= length <= |buf|
    ensures DecodeUint(buf, length) == DecodeUint(buf, length - 1) + buf[length - 1] as nat * Limit(length - 1)
  {
    if length > 1 { DecodeLast(buf[1..], length - 1); }
  }
}
