/** The iterator over a block (bucket.c): it builds every key in a buffer of 128 bytes, from the key
    before and the bytes of the entry. */
module BlockIterator {
  import opened Common
  import opened MemShared
  import opened Compaction
  import opened Bucket
  import opened BlockSearch

  const KBUFFER: nat := 128

  /** The copy of the shared bytes starts behind the shared bytes of the entry before, and copies as
      many as the entry shares: it leaves the buffer. */
  predicate Overruns(block: seq<Packed>, i: nat) {
    i + 1 < |block| && block[i + 1].kprefix > 0 && block[i].kprefix + block[i + 1].kprefix > KBUFFER
  }

  /** The full key of entry `i` from the one before. */
  lemma KeyFromBefore(list: seq<MapEntry>, i: nat)
    requires i + 1 < |list|
    ensures var p, before := PackList(list)[i + 1], list[i].key;
            && p.kprefix <= |before| && list[i + 1].key == before[..p.kprefix] + p.key && p.value == list[i + 1].value
  {
    hide Shared, PackList, LastKey;
    PackedAt(list, i + 1);
    LastKeyAt(list, i + 1);
    var key := list[i + 1].key;
    var n := Shared(list[i].key, key);
    assert key == key[..n] + key[n..];
  }

  /** The bytes the entry itself has are the end of its key. */
  lemma KeyOfEntry(list: seq<MapEntry>, i: nat)
    requires i < |list|
    ensures var p := PackList(list)[i];
            && p.value == list[i].value && p.kprefix + |p.key| == |list[i].key| && list[i].key[p.kprefix..] == p.key
    ensures i == 0 ==> PackList(list)[i].kprefix == 0
  {
    hide Shared, PackList, LastKey;
    PackedAt(list, i);
    LastKeyAt(list, i);
    if i == 0 { SharedNone(list[0].key); }
  }

  /** Where entry `i` lies in the block: its own key bytes, and the end of its value. */
  ghost predicate LiesAt(block: Block, i: nat, key_at: nat, pvalue: nat)
    reads block, block.node
  {
    && i < |block.entries|
    && key_at + |block.entries[i].key| == HEAD + |KeyArea(block.entries[..i + 1])|
    && pvalue == SIZE - |ValueArea(block.entries[..i + 1])|
    && key_at + |block.entries[i].key| <= block.node.Length
    && block.node[key_at..key_at + |block.entries[i].key|] == block.entries[i].key
  }

  lemma Lies(block: Block, i: nat, pkey: nat, pvalue: nat, key_at: nat, pvalue': nat)
    requires block.Valid() && i < |block.entries|
    requires pkey == HEAD + |KeyArea(block.entries[..i])| && pvalue == SIZE - |ValueArea(block.entries[..i])|
    requires key_at + |block.entries[i].key| == HEAD + |KeyArea(block.entries[..i + 1])|
    requires pvalue' == SIZE - |ValueArea(block.entries[..i + 1])|
    ensures LiesAt(block, i, key_at, pvalue')
  {
    hide KeyArea, ValueArea;
    block.EntryAt(i, pkey, pvalue);
  }

  class Iterator {
    const block: Block
    const kbuffer: array<byte>
    var entry: Packed
    var key_at: nat          // entry.key.data
    var pvalue: nat          // entry.value.data
    var map_key: Bytes
    var map_value: Bytes
    var has_data: bool
    ghost const list: seq<MapEntry>
    ghost var i: nat

    /** z_bucket_iterator_open, on a block as balancing writes it. */
    constructor (block: Block, ghost list: seq<MapEntry>)
      requires block.Valid() && block.entries == PackList(list)
      requires forall e | e in list :: |e.key| <= KBUFFER && !e.deleted
      ensures Opened() && this.block == block && this.list == list && fresh(kbuffer)
    {
      this.block, this.list := block, list;
      kbuffer := new byte[KBUFFER];
      entry, key_at, pvalue, map_key, map_value, has_data, i := Packed(0, [], []), 0, 0, [], [], false, 0;
    }

    /** The block is as it was when it was opened. */
    ghost predicate Opened()
      reads this, block, block.node, kbuffer
    {
      && block.Valid() && block.entries == PackList(list) && kbuffer != block.node && kbuffer.Length == KBUFFER
      && forall e | e in list :: |e.key| <= KBUFFER && !e.deleted
    }

    /** Entry `i` is fetched. */
    ghost predicate Fetched()
      reads this, block, block.node, kbuffer
    {
      && Opened() && has_data && i < |list|
      && entry == block.entries[i] && map_value == list[i].value
      && LiesAt(block, i, key_at, pvalue)
    }

    /** The iterator is at entry `i`. */
    ghost predicate AtEntry()
      reads this, block, block.node, kbuffer
    {
      && Fetched() && MapEntry(map_key, map_value, false) == list[i]
      && (entry.kprefix > 0 ==> kbuffer[..|map_key|] == map_key)
    }

    lemma Current()
      requires AtEntry()
      ensures has_data && i < |list| && MapEntry(map_key, map_value, false) == list[i]
    {
    }

    /** __bucket_iter_begin. */
    method Begin()
      requires Opened()
      modifies this
      ensures if list == [] then !has_data else AtEntry() && i == 0
    {
      hide KeyArea, ValueArea, PackList, Block.Valid, LiesAt;
      NoAreas(block.entries);
      i := 0;
      var item, pkey, pval := block.Fetch(HEAD, SIZE, 0);
      has_data := item.Some?;
      if has_data {
        KeyGrows(block, 0);
        Lies(block, 0, HEAD, SIZE, pkey - |item.value.key|, pval);
        KeyOfEntry(list, 0);
        entry, key_at, pvalue := item.value, pkey - |item.value.key|, pval;
        map_key, map_value := entry.key, entry.value;
        assert list[0] in list;
      }
    }

    /** The two copies of __bucket_iter_next: the bytes shared with the entry before, as they follow
        its own in the block, and over them the bytes of the entry. `past` is what lies behind the
        block. */
    method BuildKey(kprev_prefix: nat, kprev_at: nat, past: byte)
      requires kbuffer.Length == KBUFFER && kprev_prefix + entry.kprefix <= KBUFFER
      requires entry.kprefix + |entry.key| <= KBUFFER && kbuffer != block.node
      modifies this`map_key, kbuffer
      ensures |map_key| == entry.kprefix + |entry.key| && kbuffer[..|map_key|] == map_key
      ensures forall x | 0 <= x < entry.kprefix ::
                map_key[x] == if x < kprev_prefix then old(kbuffer[x])
                              else ByteOr(block.node[..], kprev_at + x - kprev_prefix, past)
      ensures map_key[entry.kprefix..] == entry.key
    {
      var n := entry.kprefix;
      forall x | kprev_prefix <= x < kprev_prefix + n {
        kbuffer[x] := ByteOr(block.node[..], kprev_at + x - kprev_prefix, past);
      }
      ghost var copied := kbuffer[..];
      forall x | n <= x < n + |entry.key| {
        kbuffer[x] := entry.key[x - n];
      }
      map_key := kbuffer[..n + |entry.key|];
      assert forall x | 0 <= x < n :: map_key[x] == copied[x];
      assert forall x | n <= x < |map_key| :: map_key[x] == entry.key[x - n];
      SameEnd(map_key, n, entry.key);
    }

    /** fetch_next. */
    method Advance()
      requires Fetched()
      modifies this`entry, this`key_at, this`pvalue, this`map_value, this`has_data, this`i
      ensures i == old(i) + 1
      ensures if i < |list| then Fetched() else !has_data && Opened()
    {
      hide KeyArea, ValueArea, PackList, Block.Valid, LiesAt;
      LiesWhere(block, i, key_at, pvalue);
      var item, pkey, pval := block.Fetch(key_at + |entry.key|, pvalue, i + 1);
      has_data := item.Some?;
      if has_data {
        KeyGrows(block, i + 1);
        Lies(block, i + 1, key_at + |entry.key|, pvalue, pkey - |item.value.key|, pval);
        KeyOfEntry(list, i + 1);
        entry, key_at, pvalue := item.value, pkey - |item.value.key|, pval;
        map_value := entry.value;
      }
      i := i + 1;
    }

    /** __bucket_iter_next. The next entry, with its full key, or none behind the last; `ok` is false
        where the copy would leave the buffer, which is exactly the condition stated. */
    method Next(past: byte) returns (ok: bool)
      requires AtEntry()
      modifies this, kbuffer
      ensures ok <==> !Overruns(block.entries, old(i))
      ensures i == old(i) + 1
      ensures ok ==> if i < |list| then AtEntry() else !has_data && Opened()
    {
      hide KeyArea, ValueArea, PackList, Block.Valid, ByteOr, LiesAt;
      var kprev_prefix, kprev_at := entry.kprefix, key_at;
      LiesWhere(block, i, key_at, pvalue);
      ghost var kprev, before := entry.key, i;
      KeyOfEntry(list, before);
      Advance();
      if !has_data {
        return true;
      }
      KeyFromBefore(list, before);
      assert list[i] in list;
      if entry.kprefix == 0 {
        map_key := entry.key;
        assert list[before].key[..0] + entry.key == entry.key;
      } else {
        if kprev_prefix + entry.kprefix > KBUFFER {
          return false;
        }
        BuildKey(kprev_prefix, kprev_at, past);
        SharedPart(list[before].key, kprev, kprev_prefix, block.node[..], kprev_at, past, map_key, entry.kprefix);
        assert map_key == map_key[..entry.kprefix] + map_key[entry.kprefix..];
      }
      return true;
    }
  }

  lemma SameEnd(s: Bytes, n: nat, t: Bytes)
    requires |s| == n + |t| && forall x | n <= x < |s| :: s[x] == t[x - n]
    ensures s[n..] == t
  {
    forall x | 0 <= x < |t| ensures s[n..][x] == t[x] { assert s[n..][x] == s[n + x]; }
  }

  lemma LiesWhere(block: Block, i: nat, key_at: nat, pvalue: nat)
    requires LiesAt(block, i, key_at, pvalue)
    ensures i < |block.entries| && key_at + |block.entries[i].key| == HEAD + |KeyArea(block.entries[..i + 1])|
    ensures pvalue == SIZE - |ValueArea(block.entries[..i + 1])|
    ensures var key := block.entries[i].key;
            key_at + |key| <= block.node.Length && block.node[..][key_at..key_at + |key|] == key
  {
    assert block.node[..][key_at..key_at + |block.entries[i].key|]
           == block.node[key_at..key_at + |block.entries[i].key|];
  }

  /** The key bytes of an entry are part of what it adds. */
  lemma KeyGrows(block: Block, i: nat)
    requires i < |block.entries|
    ensures |KeyArea(block.entries[..i + 1])| >= |block.entries[i].key|
  {
    hide KeyBytes;
    KeysAt(block.entries, i);
    KeyNotEmpty(block.entries[i]);
  }

  /** The whole block, read through the iterator: the decoded entries in order, exactly when no copy
      leaves the buffer. */
  method ReadAll(block: Block, past: byte) returns (read: seq<MapEntry>, ok: bool)
    requires block.Valid() && block.entries == PackList(Decode(block.entries))
    requires forall e | e in Decode(block.entries) :: |e.key| <= KBUFFER
    ensures ok <==> forall i | 0 <= i < |block.entries| :: !Overruns(block.entries, i)
    ensures ok ==> read == Decode(block.entries)
  {
    hide Block.Valid, PackList, Decode, Overruns, Iterator.AtEntry, Iterator.Opened;
    ghost var list := Decode(block.entries);
    LiveEntries(block.entries);
    var iter := new Iterator(block, list);
    read, ok := [], true;
    iter.Begin();
    if list != [] { iter.Current(); }
    while iter.has_data
      invariant fresh(iter) && fresh(iter.kbuffer) && iter.block == block && iter.list == list && ok
      invariant if iter.has_data then iter.AtEntry() && iter.i < |list| && read == list[..iter.i] else read == list
      invariant forall i | 0 <= i < (if iter.has_data then iter.i else |list|) :: !Overruns(block.entries, i)
      decreases |list| - |read|
    {
      iter.Current();
      read := read + [MapEntry(iter.map_key, iter.map_value, false)];
      ok := iter.Next(past);
      if !ok {
        return;
      }
      if iter.i < |list| { iter.Current(); }
    }
  }

  lemma LiveEntries(block: seq<Packed>)
    ensures forall e | e in Decode(block) :: !e.deleted
  {
    forall i | 0 <= i < |block| ensures !Decode(block)[i].deleted { DecodeIsLive(block, i); }
  }

  /** What the copies leave in front is the shared part of the key before. */
  lemma SharedPart(before: Bytes, kprev: Bytes, kprev_prefix: nat, node: Bytes, kprev_at: nat, past: byte,
                   key: Bytes, n: nat)
    requires kprev_prefix + |kprev| == |before| && before[kprev_prefix..] == kprev && n <= |before| && n <= |key|
    requires kprev_at + |kprev| <= |node| && node[kprev_at..kprev_at + |kprev|] == kprev
    requires forall x | 0 <= x < n ::
               key[x] == if x < kprev_prefix then before[x] else ByteOr(node, kprev_at + x - kprev_prefix, past)
    ensures key[..n] == before[..n]
  {
    forall x | 0 <= x < n ensures key[x] == before[x] {
      if x >= kprev_prefix {
        var y := x - kprev_prefix;
        assert before[x] == before[kprev_prefix..][y];
        assert node[kprev_at..kprev_at + |kprev|][y] == node[kprev_at + y];
      }
    }
  }

  /** Three keys of at most 66 bytes for which it does: 65 bytes shared twice in a row. */
  lemma SharedTwiceOverruns()
    ensures var a := seq(65, _ => 97 as byte);
            var list := [MapEntry(a, [], false), MapEntry(a + [0], [], false), MapEntry(a + [1], [], false)];
            Sorted(list) && Overruns(PackList(list), 1)
  {
    var a := seq(65, _ => 97 as byte);
    var b, c := a + [0], a + [1];
    var list := [MapEntry(a, [], false), MapEntry(b, [], false), MapEntry(c, [], false)];
    assert b[..65] == a[..65] && c[..65] == a[..65];
    SharedUnique(a, b, 65);
    SharedUnique(b, c, 65);
    SharedUnique(a, c, 65);
    PackedAt(list, 1);
    PackedAt(list, 2);
    LastKeyAt(list, 1);
    LastKeyAt(list, 2);
    assert PackList(list)[1].kprefix == 65 && PackList(list)[2].kprefix == 65;
  }
}
