/** The bytes of a block: keys with their heads grow up from the block head, values grow down
    from the end. */
module Bucket {
  import opened Common
  import opened MemShared
  import opened UInts
  import opened Compaction

  const HEAD: nat := 32

  predicate Fits32(p: Packed) { p.kprefix < 0x1_0000_0000 && |p.key| < 0x1_0000_0000 && |p.value| < 0x1_0000_0000 }

  /** The first byte of an entry: three bits for the bytes of the shared length (none if it is
      zero), two each for those of key and value size, less one, and the delete bit. */
  function HeadByte(p: Packed): nat {
    PrefixBytes(p) * 32 + (UIntSize(|p.key|) - 1) * 8 + (UIntSize(|p.value|) - 1) * 2
  }

  function PrefixBytes(p: Packed): nat { if p.kprefix > 0 then UIntSize(p.kprefix) else 0 }

  /** The key side of an entry. */
  function KeyBytes(p: Packed): (r: Bytes)
    ensures |r| + |p.value| == PackedSize(p)
  {
    HeadSmall(p);
    [HeadByte(p) as byte] + EncodeUint(PrefixBytes(p), p.kprefix) + EncodeUint(UIntSize(|p.key|), |p.key|)
    + EncodeUint(UIntSize(|p.value|), |p.value|) + p.key
  }

  lemma HeadSmall(p: Packed)
    ensures HeadByte(p) < 256
    ensures HeadByte(p) / 32 == PrefixBytes(p)
    ensures HeadByte(p) / 8 % 4 == UIntSize(|p.key|) - 1
    ensures HeadByte(p) / 2 % 4 == UIntSize(|p.value|) - 1 && HeadByte(p) % 2 == 0
  {
    HeadParts(PrefixBytes(p), UIntSize(|p.key|) - 1, UIntSize(|p.value|) - 1);
  }

  lemma HeadParts(a: nat, b: nat, c: nat)
    requires a < 5 && b < 4 && c < 4
    ensures var v := a * 32 + b * 8 + c * 2; v < 256 && v / 32 == a && v / 8 % 4 == b && v / 2 % 4 == c && v % 2 == 0
  {
    var v := a * 32 + b * 8 + c * 2;
    assert v / 8 == 4 * a + b && v / 2 == 16 * a + 4 * b + c;
  }

  function KeyArea(entries: seq<Packed>): Bytes {
    if entries == [] then [] else KeyArea(entries[..|entries| - 1]) + KeyBytes(entries[|entries| - 1])
  }

  function ValueArea(entries: seq<Packed>): Bytes {
    if entries == [] then [] else entries[|entries| - 1].value + ValueArea(entries[..|entries| - 1])
  }

  lemma {:induction false} AreasUsed(entries: seq<Packed>)
    ensures |KeyArea(entries)| + |ValueArea(entries)| == Used(entries)
  {
    if entries != [] { AreasUsed(entries[..|entries| - 1]); }
  }

  lemma AreasGrow(entries: seq<Packed>, p: Packed)
    ensures KeyArea(entries + [p]) == KeyArea(entries) + KeyBytes(p)
    ensures ValueArea(entries + [p]) == p.value + ValueArea(entries)
  {
    assert (entries + [p])[..|entries|] == entries;
  }

  // ----------------------------------------------------------------------- reading

  /** What the bytes at a key position say. */
  datatype Item = Item(kprefix: nat, ksize: nat, vsize: nat, kstart: nat, deleted: bool)

  function ItemAt(keys: Bytes): (r: Option<Item>)
  {
    if keys == [] then None
    else
      var l0, l1, l2 := keys[0] as nat / 32, 1 + keys[0] as nat / 8 % 4, 1 + keys[0] as nat / 2 % 4;
      if 1 + l0 + l1 + l2 > |keys| then None
      else Some(Item(DecodeUint(keys[1..], l0), DecodeUint(keys[1 + l0..], l1), DecodeUint(keys[1 + l0 + l1..], l2),
                     1 + l0 + l1 + l2, keys[0] % 2 == 1))
  }

  lemma UIntSizeIs(v: nat)
    requires v < 0x1_0000_0000
    ensures UIntSize(v) == UintBytes(v) && v < Limit(UIntSize(v))
  {
    UintBytesLeast(v, UintBytes(v));
  }

  /** The head of an entry reads back, whatever follows. */
  lemma ItemRoundTrip(p: Packed, rest: Bytes)
    requires Fits32(p)
    ensures ItemAt(KeyBytes(p) + rest)
            == Some(Item(p.kprefix, |p.key|, |p.value|, |KeyBytes(p)| - |p.key|, false))
  {
    hide EncodeUint, DecodeUint, UIntSize, HeadByte, Limit, PrefixBytes;
    HeadSmall(p);
    var keys := KeyBytes(p) + rest;
    var e0, e1 := EncodeUint(PrefixBytes(p), p.kprefix), EncodeUint(UIntSize(|p.key|), |p.key|);
    var e2 := EncodeUint(UIntSize(|p.value|), |p.value|);
    var tail := p.key + rest;
    assert keys[1..] == e0 + (e1 + e2 + tail);
    assert keys[1 + |e0|..] == e1 + (e2 + tail);
    assert keys[1 + |e0| + |e1|..] == e2 + tail;
    PrefixReads(p, e1 + e2 + tail);
    UIntSizeIs(|p.key|);
    UIntSizeIs(|p.value|);
    UintRoundTrip(UIntSize(|p.key|), |p.key|, e2 + tail);
    UintRoundTrip(UIntSize(|p.value|), |p.value|, tail);
  }

  lemma PrefixReads(p: Packed, rest: Bytes)
    requires Fits32(p)
    ensures DecodeUint(EncodeUint(PrefixBytes(p), p.kprefix) + rest, PrefixBytes(p)) == p.kprefix
  {
    hide EncodeUint, UIntSize;
    if p.kprefix > 0 {
      UIntSizeIs(p.kprefix);
      UintRoundTrip(UIntSize(p.kprefix), p.kprefix, rest);
    }
  }

  // ---------------------------------------------------------------------- the block

  const SIZE: nat := 8192

  /** The key side around entry `i`. */
  lemma {:induction false} KeysAt(entries: seq<Packed>, i: nat)
    requires i < |entries|
    ensures exists rest :: KeyArea(entries) == KeyArea(entries[..i]) + (KeyBytes(entries[i]) + rest)
    ensures KeyArea(entries[..i + 1]) == KeyArea(entries[..i]) + KeyBytes(entries[i])
  {
    hide KeyBytes;
    var init, last := entries[..|entries| - 1], entries[|entries| - 1];
    assert entries[..i + 1][..i] == entries[..i];
    if i == |init| {
      assert entries[..i + 1] == entries;
      assert KeyArea(entries) == KeyArea(init) + (KeyBytes(last) + []);
    } else {
      assert init[..i] == entries[..i];
      KeysAt(init, i);
      var rest :| KeyArea(init) == KeyArea(init[..i]) + (KeyBytes(init[i]) + rest);
      assert KeyArea(entries) == KeyArea(entries[..i]) + (KeyBytes(entries[i]) + (rest + KeyBytes(last)));
    }
  }

  /** The value side, which grows downwards. */
  lemma {:induction false} ValuesAt(entries: seq<Packed>, i: nat)
    requires i < |entries|
    ensures exists front :: ValueArea(entries) == front + (entries[i].value + ValueArea(entries[..i]))
    ensures ValueArea(entries[..i + 1]) == entries[i].value + ValueArea(entries[..i])
  {
    var init, last := entries[..|entries| - 1], entries[|entries| - 1];
    assert entries[..i + 1][..i] == entries[..i];
    if i == |init| {
      assert entries[..i + 1] == entries;
      assert ValueArea(entries) == [] + (last.value + ValueArea(init));
    } else {
      assert init[..i] == entries[..i];
      ValuesAt(init, i);
      var front :| ValueArea(init) == front + (init[i].value + ValueArea(init[..i]));
      assert ValueArea(entries) == (last.value + front) + (entries[i].value + ValueArea(entries[..i]));
    }
  }

  /** Some entry shares a prefix with the one before. */
  predicate Prefixed(block: seq<Packed>) { exists i :: 0 <= i < |block| && block[i].kprefix > 0 }

  lemma PrefixedGrows(block: seq<Packed>, p: Packed)
    ensures Prefixed(block + [p]) <==> Prefixed(block) || p.kprefix > 0
  {
    var after := block + [p];
    if i :| 0 <= i < |block| && block[i].kprefix > 0 { assert after[i].kprefix > 0; }
    if p.kprefix > 0 { assert after[|block|].kprefix > 0; }
  }

  class Block {
    const node: array<byte>
    var last_key: nat
    var last_value: nat
    var prefix: bool          // nh_prefix
    ghost var entries: seq<Packed>

    /** __node_create. */
    constructor ()
      ensures Valid() && entries == [] && fresh(node)
    {
      node := new byte[SIZE](_ => 0);
      last_key, last_value, prefix, entries := HEAD, SIZE, false, [];
    }

    ghost predicate Valid()
      reads this, node
    {
      && node.Length == SIZE && HEAD <= last_key <= last_value <= SIZE
      && node[HEAD..last_key] == KeyArea(entries) && node[last_value..] == ValueArea(entries)
      && prefix == Prefixed(entries)
      && forall p | p in entries :: Fits32(p)
    }

    /** What is left is the capacity less what the entries take. */
    lemma SpaceLeft()
      requires Valid()
      ensures last_value - last_key == CAPACITY - Used(entries)
    {
      AreasUsed(entries);
    }

    /** __node_append: refused exactly when the entry does not fit, and then without effect. */
    method Append(p: Packed) returns (full: bool)
      requires Valid() && Fits32(p)
      modifies this, node
      ensures Valid()
      ensures full <==> Used(old(entries)) + PackedSize(p) > CAPACITY
      ensures entries == if full then old(entries) else old(entries) + [p]
    {
      hide KeyBytes, KeyArea, ValueArea, PackedSize, Fits32, Prefixed;
      SpaceLeft();
      var bytes := KeyBytes(p);
      if |bytes| + |p.value| > last_value - last_key {
        return true;
      }
      AreasGrow(entries, p);
      PrefixedGrows(entries, p);
      WriteEntry(bytes, p.value);
      prefix := prefix || p.kprefix > 0;
      entries := entries + [p];
      return false;
    }

    /** The value below the last one, the key above the last one. */
    method WriteEntry(key: Bytes, value: Bytes)
      requires node.Length == SIZE && HEAD <= last_key && last_key + |key| + |value| <= last_value <= SIZE
      modifies this`last_key, this`last_value, node
      ensures last_key == old(last_key) + |key| && last_value == old(last_value) - |value|
      ensures node[HEAD..last_key] == old(node[HEAD..last_key]) + key
      ensures node[last_value..] == value + old(node[last_value..])
    {
      var at := last_key;
      last_key := last_key + |key|;
      last_value := last_value - |value|;
      forall i | last_value <= i < last_value + |value| { node[i] := value[i - last_value]; }
      forall i | at <= i < last_key { node[i] := key[i - at]; }
      Appended(node[..], old(node[..]), HEAD, at, last_key, key);
      Prepended(node[..], old(node[..]), last_value, old(last_value), value);
    }

    /** __node_item_fetch at entry `i`: the entry, and the positions of the next. */
    method Fetch(pkey: nat, pvalue: nat, ghost i: nat) returns (item: Option<Packed>, pkey': nat, pvalue': nat)
      requires Valid() && i <= |entries|
      requires pkey == HEAD + |KeyArea(entries[..i])| && pvalue == SIZE - |ValueArea(entries[..i])|
      ensures item == if i < |entries| then Some(entries[i]) else None
      ensures i < |entries| ==>
                pkey' == HEAD + |KeyArea(entries[..i + 1])| && pvalue' == SIZE - |ValueArea(entries[..i + 1])|
    {
      hide KeyBytes, KeyArea, ValueArea, ItemAt, Fits32;
      AreaEnds(i);
      if pkey >= last_key {
        return None, pkey, pvalue;
      }
      var head := ItemAt(node[pkey..last_key]);
      EntryAt(i, pkey, pvalue);
      var h := head.value;
      var key := node[pkey + h.kstart..pkey + h.kstart + h.ksize];
      pvalue' := pvalue - h.vsize;
      var value := node[pvalue'..pvalue];
      return Some(Packed(h.kprefix, key, value)), pkey + h.kstart + h.ksize, pvalue';
    }

    lemma AreaEnds(i: nat)
      requires Valid() && i <= |entries|
      ensures HEAD + |KeyArea(entries[..i])| <= last_key
      ensures HEAD + |KeyArea(entries[..i])| == last_key <==> i == |entries|
    {
      hide KeyBytes;
      if i < |entries| {
        KeysAt(entries, i);
        KeyNotEmpty(entries[i]);
      } else {
        assert entries[..i] == entries;
      }
    }

    /** The bytes of entry `i` are where the cursor is. */
    lemma EntryAt(i: nat, pkey: nat, pvalue: nat)
      requires Valid() && i < |entries|
      requires pkey == HEAD + |KeyArea(entries[..i])| && pvalue == SIZE - |ValueArea(entries[..i])|
      ensures pkey <= last_key && last_value <= pvalue <= SIZE
      ensures var p, k := entries[i], |KeyBytes(entries[i])| - |entries[i].key|;
              && k >= 0 && pkey + k + |p.key| <= last_key && last_value + |p.value| <= pvalue
              && ItemAt(node[pkey..last_key]) == Some(Item(p.kprefix, |p.key|, |p.value|, k, false))
              && node[pkey + k..pkey + k + |p.key|] == p.key
              && node[pvalue - |p.value|..pvalue] == p.value
              && |KeyArea(entries[..i + 1])| == |KeyArea(entries[..i])| + |KeyBytes(p)|
              && |ValueArea(entries[..i + 1])| == |ValueArea(entries[..i])| + |p.value|
    {
      hide KeyArea, ValueArea, ItemAt, KeyBytes;
      KeysAt(entries, i);
      ValuesAt(entries, i);
      var p := entries[i];
      var rest :| KeyArea(entries) == KeyArea(entries[..i]) + (KeyBytes(p) + rest);
      KeyPart(p, KeyArea(entries[..i]), rest);
      assert node[pkey..last_key] == KeyArea(entries)[pkey - HEAD..];
      var k := |KeyBytes(p)| - |p.key|;
      Slices(node[..], pkey, last_key, k, k + |p.key|);
      ValueAt(i, pvalue);
    }

    lemma ValueAt(i: nat, pvalue: nat)
      requires Valid() && i < |entries| && pvalue == SIZE - |ValueArea(entries[..i])|
      ensures last_value + |entries[i].value| <= pvalue <= SIZE
      ensures node[pvalue - |entries[i].value|..pvalue] == entries[i].value
    {
      hide KeyArea, ValueArea, ItemAt, KeyBytes;
      ValuesAt(entries, i);
      var p := entries[i];
      var front :| ValueArea(entries) == front + (p.value + ValueArea(entries[..i]));
      Middle(node[..], last_value, front, p.value, ValueArea(entries[..i]));
    }
  }

  /** An entry behind others on the key side. */
  lemma KeyPart(p: Packed, before: Bytes, rest: Bytes)
    requires Fits32(p)
    ensures var area, k := before + (KeyBytes(p) + rest), |KeyBytes(p)| - |p.key|;
            && k >= 0
            && ItemAt(area[|before|..]) == Some(Item(p.kprefix, |p.key|, |p.value|, k, false))
            && area[|before|..][k..k + |p.key|] == p.key
  {
    KeyEnds(p);
    ItemRoundTrip(p, rest);
    hide KeyBytes, ItemAt;
    assert (before + (KeyBytes(p) + rest))[|before|..] == KeyBytes(p) + rest;
  }

  lemma Slices(s: Bytes, lo: nat, hi: nat, i: nat, j: nat)
    requires lo <= hi <= |s| && i <= j <= hi - lo
    ensures s[lo..hi][i..j] == s[lo + i..lo + j]
  {
    var whole, a, b := s[lo..hi], s[lo..hi][i..j], s[lo + i..lo + j];
    forall n | 0 <= n < j - i ensures a[n] == b[n] {
      assert a[n] == whole[i + n] && whole[i + n] == s[lo + i + n] && b[n] == s[lo + i + n];
    }
    assert |a| == |b|;
  }

  lemma Appended(now: Bytes, was: Bytes, lo: nat, mid: nat, hi: nat, part: Bytes)
    requires lo <= mid <= hi <= |now| == |was| && |part| == hi - mid
    requires forall i | lo <= i < mid :: now[i] == was[i]
    requires forall i | mid <= i < hi :: now[i] == part[i - mid]
    ensures now[lo..hi] == was[lo..mid] + part
  {
    var a, b := now[lo..hi], was[lo..mid] + part;
    forall i | 0 <= i < hi - lo ensures a[i] == b[i] {
      assert a[i] == now[lo + i];
      assert i < mid - lo ==> b[i] == was[lo + i];
      assert i >= mid - lo ==> b[i] == part[lo + i - mid];
    }
  }

  lemma Prepended(now: Bytes, was: Bytes, lo: nat, mid: nat, part: Bytes)
    requires lo <= mid <= |now| == |was| && |part| == mid - lo
    requires forall i | lo <= i < mid :: now[i] == part[i - lo]
    requires forall i | mid <= i < |now| :: now[i] == was[i]
    ensures now[lo..] == part + was[mid..]
  {
    var a, b := now[lo..], part + was[mid..];
    forall i | 0 <= i < |now| - lo ensures a[i] == b[i] {
      assert a[i] == now[lo + i];
      assert i < mid - lo ==> b[i] == part[i];
      assert i >= mid - lo ==> b[i] == was[lo + i];
    }
  }

  /** A part of a tail. */
  lemma Middle(s: Bytes, lo: nat, front: Bytes, part: Bytes, back: Bytes)
    requires lo <= |s| && s[lo..] == front + (part + back)
    ensures |s| - lo == |front| + |part| + |back|
    ensures s[|s| - |back| - |part|..|s| - |back|] == part
  {
    var tail, n := s[lo..], |front|;
    assert |tail| == |front| + |part| + |back|;
    var cut := s[|s| - |back| - |part|..|s| - |back|];
    forall i | 0 <= i < |part| ensures cut[i] == part[i] {
      assert cut[i] == s[lo + n + i] && s[lo + n + i] == tail[n + i];
      assert tail[n + i] == (part + back)[i];
    }
  }

  lemma KeyNotEmpty(p: Packed)
    ensures |KeyBytes(p)| > |p.key|
  {
  }

  /** The key itself comes last. */
  lemma KeyEnds(p: Packed)
    ensures |KeyBytes(p)| >= |p.key| && KeyBytes(p)[|KeyBytes(p)| - |p.key|..] == p.key
  {
  }
}
