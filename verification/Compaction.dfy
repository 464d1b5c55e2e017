/** The compaction of a sorted set node: entries in memory are merged over those of the block,
    delete markers fall out, and the rest is written to new prefix-compressed blocks. */
module Compaction {
  import opened Common
  import opened MemShared

  datatype MapEntry = MapEntry(key: Bytes, value: Bytes, deleted: bool)

  predicate Sorted(list: seq<MapEntry>) {
    forall i, j | 0 <= i < j < |list| :: Less(list[i].key, list[j].key)
  }

  /** The entry of a key in one list. */
  function Find(list: seq<MapEntry>, k: Bytes): (r: Option<MapEntry>)
    ensures r.Some? ==> r.value in list && r.value.key == k
    ensures r.None? ==> forall e | e in list :: e.key != k
  {
    if list == [] then None
    else if list[0].key == k then Some(list[0])
    else Find(list[1..], k)
  }

  /** The entry of a key in a stack of lists: the first list that has it wins. */
  function First(lists: seq<seq<MapEntry>>, k: Bytes): Option<MapEntry> {
    if lists == [] then None
    else if Find(lists[0], k).Some? then Find(lists[0], k)
    else First(lists[1..], k)
  }

  /** The live entry of a key: a delete marker hides what lies below it. */
  function Live(lists: seq<seq<MapEntry>>, k: Bytes): Option<MapEntry> {
    var e := First(lists, k);
    if e.Some? && e.value.deleted then None else e
  }

  lemma {:induction false} FirstConcat(a: seq<seq<MapEntry>>, b: seq<seq<MapEntry>>, k: Bytes)
    ensures First(a + b, k) == if First(a, k).Some? then First(a, k) else First(b, k)
  {
    if a == [] {
      assert a + b == b;
    } else {
      assert (a + b)[1..] == a[1..] + b;
      FirstConcat(a[1..], b, k);
    }
  }

  /** First, with the list at position `j` taken out. */
  lemma FirstAround(lists: seq<seq<MapEntry>>, j: nat, k: Bytes)
    requires j < |lists|
    ensures First(lists, k)
            == if First(lists[..j], k).Some? then First(lists[..j], k)
               else if Find(lists[j], k).Some? then Find(lists[j], k)
               else First(lists[j + 1..], k)
  {
    assert lists == lists[..j] + ([lists[j]] + lists[j + 1..]);
    FirstConcat(lists[..j], [lists[j]] + lists[j + 1..], k);
    FirstConcat([lists[j]], lists[j + 1..], k);
    assert First([lists[j]], k) == Find(lists[j], k);
  }

  /** The list at `j` moves on by one entry; an exhausted list is dropped. */
  function Advance(lists: seq<seq<MapEntry>>, j: nat): seq<seq<MapEntry>>
    requires j < |lists| && lists[j] != []
  {
    if |lists[j]| == 1 then lists[..j] + lists[j + 1..] else lists[j := lists[j][1..]]
  }

  function Total(lists: seq<seq<MapEntry>>): nat {
    if lists == [] then 0 else |lists[0]| + Total(lists[1..])
  }

  predicate WellFormed(lists: seq<seq<MapEntry>>) {
    forall i | 0 <= i < |lists| :: lists[i] != [] && Sorted(lists[i])
  }

  lemma SortedFind(list: seq<MapEntry>, k: Bytes)
    requires list != [] && Sorted(list)
    ensures Find(list, k) == if k == list[0].key then Some(list[0]) else Find(list[1..], k)
    ensures Find(list[1..], list[0].key) == None
    ensures Find(list, k).Some? ==> AtMost(list[0].key, k)
    ensures Sorted(list[1..])
  {
    var rest := list[1..];
    forall i | 0 <= i < |rest| ensures Less(list[0].key, rest[i].key) { assert rest[i] == list[i + 1]; }
    if Find(rest, list[0].key).Some? {
      var e := Find(rest, list[0].key).value;
      LessTotal(e.key, list[0].key);
    }
  }

  lemma AdvanceAround(lists: seq<seq<MapEntry>>, j: nat, k: Bytes)
    requires j < |lists| && WellFormed(lists)
    ensures First(Advance(lists, j), k)
            == if First(lists[..j], k).Some? then First(lists[..j], k)
               else if Find(lists[j][1..], k).Some? then Find(lists[j][1..], k)
               else First(lists[j + 1..], k)
  {
    var after := Advance(lists, j);
    if |lists[j]| == 1 {
      FirstConcat(lists[..j], lists[j + 1..], k);
    } else {
      FirstAround(after, j, k);
      assert after[..j] == lists[..j] && after[j + 1..] == lists[j + 1..];
    }
  }

  lemma AdvanceKeeps(lists: seq<seq<MapEntry>>, j: nat)
    requires j < |lists| && WellFormed(lists)
    ensures WellFormed(Advance(lists, j))
  {
    SortedFind(lists[j], []);
  }

  lemma {:induction false} AdvanceShrinks(lists: seq<seq<MapEntry>>, j: nat)
    requires j < |lists| && lists[j] != []
    ensures Total(Advance(lists, j)) == Total(lists) - 1
  {
    if j == 0 {
      assert Advance(lists, 0) == if |lists[0]| == 1 then lists[1..] else [lists[0][1..]] + lists[1..];
    } else {
      AdvanceShrinks(lists[1..], j - 1);
      assert Advance(lists, j) == [lists[0]] + Advance(lists[1..], j - 1);
    }
  }

  /** An entry whose key an earlier list has, may be skipped. */
  lemma SkipHidden(lists: seq<seq<MapEntry>>, s: nat, j: nat, k: Bytes)
    requires s < j < |lists| && WellFormed(lists) && lists[s][0].key == lists[j][0].key
    ensures First(Advance(lists, j), k) == First(lists, k)
  {
    FirstAround(lists, j, k);
    AdvanceAround(lists, j, k);
    SortedFind(lists[j], k);
    if k == lists[j][0].key {
      FirstAround(lists[..j], s, k);
      SortedFind(lists[s], k);
    }
  }

  /** Advancing a winning entry takes its key out, provided no other list has the key. */
  lemma TakeSmallest(lists: seq<seq<MapEntry>>, s: nat, k: Bytes)
    requires s < |lists| && WellFormed(lists)
    requires forall i | 0 <= i < |lists| && i != s :: Less(lists[s][0].key, lists[i][0].key)
    ensures First(lists, lists[s][0].key) == Some(lists[s][0])
    ensures First(Advance(lists, s), k) == if k == lists[s][0].key then None else First(lists, k)
    ensures First(lists, k).Some? ==> AtMost(lists[s][0].key, k)
  {
    var least := lists[s][0].key;
    FirstAround(lists, s, k);
    FirstAround(lists, s, least);
    AdvanceAround(lists, s, k);
    SortedFind(lists[s], k);
    SortedFind(lists[s], least);
    NotBelow(lists[..s], least, k);
    NotBelow(lists[s + 1..], least, k);
    NotBelow(lists[..s], least, least);
    NotBelow(lists[s + 1..], least, least);
    LessTotal(least, least);
  }

  /** Lists that start above a key have only greater keys. */
  lemma {:induction false} NotBelow(lists: seq<seq<MapEntry>>, least: Bytes, k: Bytes)
    requires WellFormed(lists) && forall i | 0 <= i < |lists| :: Less(least, lists[i][0].key)
    ensures First(lists, k).Some? ==> Less(least, k)
  {
    if lists != [] {
      SortedFind(lists[0], k);
      if Find(lists[0], k).Some? && k != lists[0][0].key { LessTransitive(least, lists[0][0].key, k); }
      NotBelow(lists[1..], least, k);
    }
  }

  // ---------------------------------------------------------------------- merger

  lemma NothingLeft()
    ensures forall k :: First([], k) == None
  {
  }

  /** `r` is the live entry with the least key of `before`, and `after` is what remains. */
  ghost predicate Delivers(before: seq<seq<MapEntry>>, r: Option<MapEntry>, after: seq<seq<MapEntry>>) {
    && (r.None? ==> forall k :: Live(before, k) == None)
    && (r.Some? ==>
          && Live(before, r.value.key) == r
          && (forall k :: Live(before, k).Some? ==> AtMost(r.value.key, k))
          && (forall k :: Live(after, k) == if k == r.value.key then None else Live(before, k)))
  }

  /** z_map_merger with skip_equals set. An iterator is what it still has to deliver, its
      current entry first; exhausted iterators leave the list. */
  class Merger {
    var lists: seq<seq<MapEntry>>
    var smallest: int

    constructor (lists: seq<seq<MapEntry>>)
      requires WellFormed(lists)
      ensures Valid() && Pending() == lists
    {
      this.lists, this.smallest := lists, -1;
    }

    predicate Valid()
      reads this
    {
      WellFormed(lists) && -1 <= smallest < |lists|
    }

    /** What is left to deliver: the iterator of the entry delivered last moves on lazily. */
    function Pending(): seq<seq<MapEntry>>
      reads this
      requires Valid()
    {
      if smallest >= 0 then Advance(lists, smallest) else lists
    }

    /** z_map_merger_next: the least pending key, with the entry of the first list that has it. */
    method Next() returns (r: Option<MapEntry>)
      requires Valid()
      modifies this
      ensures Valid() && Total(Pending()) <= Total(old(Pending()))
      ensures r.None? ==> forall k :: First(old(Pending()), k) == None
      ensures r.Some? ==>
                && First(old(Pending()), r.value.key) == r
                && (forall k :: First(old(Pending()), k).Some? ==> AtMost(r.value.key, k))
                && (forall k :: First(Pending(), k) == if k == r.value.key then None else First(old(Pending()), k))
                && Total(Pending()) < Total(old(Pending()))
    {
      hide First, Less, SliceCompare;
      if lists == [] {
        NothingLeft();
        return None;
      }
      if smallest >= 0 {
        AdvanceKeeps(lists, smallest);
        lists := Advance(lists, smallest);
        smallest := -1;
      }
      ghost var pending := lists;
      r := None;
      var i := 0;
      while i < |lists|
        invariant 0 <= i <= |lists| && WellFormed(lists) && -1 <= smallest < i
        invariant smallest == -1 <==> i == 0
        invariant smallest == -1 ==> r == None
        invariant smallest >= 0 ==> r == Some(lists[smallest][0])
        invariant forall j | 0 <= j < i && j != smallest :: Less(r.value.key, lists[j][0].key)
        invariant forall k :: First(lists, k) == First(pending, k)
        invariant Total(lists) <= Total(pending)
        decreases |lists| - i
      {
        if smallest < 0 {
          smallest, r, i := i, Some(lists[i][0]), i + 1;
        } else {
          var cmp := SliceCompare(lists[i][0].key, r.value.key);
          SliceCompareIsOrder(lists[i][0].key, r.value.key);
          if cmp < 0 {
            forall j | 0 <= j < i ensures Less(lists[i][0].key, lists[j][0].key) {
              if j != smallest { LessTransitive(lists[i][0].key, r.value.key, lists[j][0].key); }
            }
            smallest, r, i := i, Some(lists[i][0]), i + 1;
          } else if cmp == 0 {
            forall k ensures First(Advance(lists, i), k) == First(lists, k) { SkipHidden(lists, smallest, i, k); }
            AdvanceKeeps(lists, i);
            AdvanceShrinks(lists, i);
            lists, i := Advance(lists, i), if |lists[i]| == 1 then i else i + 1;
          } else {
            i := i + 1;
          }
        }
      }
      if smallest >= 0 {
        forall k
          ensures First(lists, r.value.key) == r
          ensures First(Advance(lists, smallest), k) == if k == r.value.key then None else First(lists, k)
          ensures First(lists, k).Some? ==> AtMost(r.value.key, k)
        {
          TakeSmallest(lists, smallest, k);
        }
        AdvanceShrinks(lists, smallest);
      } else {
        NothingLeft();
      }
    }

    /** __sset_node_iter_next: delete markers are passed over. */
    method NextLive() returns (r: Option<MapEntry>)
      requires Valid()
      modifies this
      ensures Valid() && Delivers(old(Pending()), r, Pending())
      ensures Total(Pending()) <= Total(old(Pending()))
      ensures r.Some? ==> Total(Pending()) < Total(old(Pending()))
    {
      r := Next();
      while r.Some? && r.value.deleted
        invariant Valid() && Total(Pending()) <= Total(old(Pending()))
        invariant r.None? ==> forall k :: Live(old(Pending()), k) == None
        invariant r.Some? ==>
                    && (forall k :: Live(old(Pending()), k).Some? ==> AtMost(r.value.key, k))
                    && (!r.value.deleted ==> Live(old(Pending()), r.value.key) == r)
                    && (r.value.deleted ==> Live(old(Pending()), r.value.key) == None)
                    && (forall k :: Live(Pending(), k) == if k == r.value.key then None else Live(old(Pending()), k))
                    && Total(Pending()) < Total(old(Pending()))
        decreases Total(Pending()), if r.Some? then 1 else 0
      {
        r := Next();
      }
    }
  }

  // --------------------------------------------------------------- prefix compression

  /** The last key written, kept in a buffer of fixed size. */
  class KPrefix {
    const buffer: array<byte>
    var size: nat

    constructor ()
      ensures Valid() && Content() == [] && fresh(buffer)
    {
      buffer := new byte[128];
      size := 0;
    }

    predicate Valid()
      reads this
    {
      buffer.Length == 128 && size <= 128
    }

    function Content(): Bytes
      reads this, buffer
      requires Valid()
    {
      buffer[..size]
    }

    method Reset()
      requires Valid()
      modifies this
      ensures Valid() && Content() == []
    {
      size := 0;
    }

    /** __kprefix_shared: how much of the key the previous one shares; the key is remembered. */
    method SharedWith(key: Bytes) returns (shared: nat, prefix_key: Bytes)
      requires Valid() && |key| <= 128
      modifies this, buffer
      ensures Valid() && Content() == key
      ensures shared == Shared(old(Content()), key) && prefix_key == key[shared..]
    {
      shared := MemSharedPrefix(buffer[..size], key);
      prefix_key := key[shared..];
      ghost var before := buffer[..size];
      forall i | shared <= i < |key| {
        buffer[i] := key[i];
      }
      size := |key|;
      SamePrefix(before, key, shared);
      assert forall i | 0 <= i < |key| :: buffer[i] == key[i];
    }
  }

  lemma SamePrefix(a: Bytes, b: Bytes, n: nat)
    requires n <= |a| && n <= |b| && a[..n] == b[..n]
    ensures forall i | 0 <= i < n :: a[i] == b[i]
  {
    forall i | 0 <= i < n ensures a[i] == b[i] { assert a[..n][i] == b[..n][i]; }
  }

  /** An entry of a block: the bytes shared with the previous key, the other bytes, the value. */
  datatype Packed = Packed(kprefix: nat, key: Bytes, value: Bytes)

  const CAPACITY: nat := 8192 - 32

  /** The bytes that encode an unsigned number. */
  function UIntSize(v: nat): nat {
    if v < 0x100 then 1 else if v < 0x1_0000 then 2 else if v < 0x100_0000 then 3 else 4
  }

  /** The room an entry takes in a block. */
  function PackedSize(p: Packed): nat {
    1 + (if p.kprefix > 0 then UIntSize(p.kprefix) else 0) + UIntSize(|p.key|) + UIntSize(|p.value|)
    + |p.key| + |p.value|
  }

  function Used(block: seq<Packed>): nat {
    if block == [] then 0 else Used(block[..|block| - 1]) + PackedSize(block[|block| - 1])
  }

  /** The key of an entry, given the key before it. */
  function FullKey(before: Bytes, p: Packed): Bytes {
    (if p.kprefix <= |before| then before[..p.kprefix] else before) + p.key
  }

  /** What a reader of a block sees. */
  function Decode(block: seq<Packed>): (list: seq<MapEntry>)
    ensures |list| == |block|
  {
    if block == [] then []
    else
      var list, p := Decode(block[..|block| - 1]), block[|block| - 1];
      list + [MapEntry(FullKey(LastKey(list), p), p.value, false)]
  }

  function LastKey(list: seq<MapEntry>): Bytes {
    if list == [] then [] else list[|list| - 1].key
  }

  function DecodeAll(blocks: seq<seq<Packed>>): seq<MapEntry> {
    if blocks == [] then [] else DecodeAll(blocks[..|blocks| - 1]) + Decode(blocks[|blocks| - 1])
  }

  function Pack(before: Bytes, e: MapEntry): Packed {
    Packed(Shared(before, e.key), e.key[Shared(before, e.key)..], e.value)
  }

  lemma UnpackKey(before: Bytes, e: MapEntry)
    ensures var p := Pack(before, e); FullKey(before, p) == e.key && p.value == e.value
  {
    hide Shared;
    var n := Shared(before, e.key);
    assert e.key == e.key[..n] + e.key[n..];
  }

  /** Decoding undoes packing. */
  lemma PackThenDecode(block: seq<Packed>, e: MapEntry, p: Packed)
    requires !e.deleted && p == Pack(LastKey(Decode(block)), e)
    ensures Decode(block + [p]) == Decode(block) + [e]
  {
    hide Shared, FullKey, Pack;
    var before := LastKey(Decode(block));
    assert (block + [p])[..|block|] == block;
    UnpackKey(before, e);
  }

  /** The entries of a block that holds `list`. */
  function PackList(list: seq<MapEntry>): (block: seq<Packed>)
    ensures |block| == |list|
  {
    if list == [] then []
    else PackList(list[..|list| - 1]) + [Pack(LastKey(list[..|list| - 1]), list[|list| - 1])]
  }

  lemma PackListGrows(list: seq<MapEntry>, e: MapEntry)
    ensures PackList(list + [e]) == PackList(list) + [Pack(LastKey(list), e)]
  {
    assert (list + [e])[..|list|] == list;
  }

  lemma UsedAppend(block: seq<Packed>, p: Packed)
    ensures Used(block + [p]) == Used(block) + PackedSize(p)
  {
    assert (block + [p])[..|block|] == block;
  }

  /** The entry fits into an empty block. */
  predicate FitsAlone(e: MapEntry) { PackedSize(Pack([], e)) <= CAPACITY }

  predicate BlockOk(block: seq<Packed>) {
    block != [] && Used(block) <= CAPACITY && block[0].kprefix == 0
  }

  // --------------------------------------------------------------------- balancing

  /** `done` is written, `entry` is next, `rest` is still to be delivered. */
  ghost predicate Progress(all: seq<seq<MapEntry>>, done: seq<MapEntry>, entry: Option<MapEntry>,
                           rest: seq<seq<MapEntry>>)
  {
    && Sorted(done)
    && (match entry
        case None => forall k :: Live(all, k) == Find(done, k)
        case Some(e) =>
          && !e.deleted && Live(all, e.key) == entry
          && (done != [] ==> Less(LastKey(done), e.key))
          && (forall k :: Live(all, k)
                          == if Find(done, k).Some? then Find(done, k) else if k == e.key then entry else Live(rest, k))
          && (forall k :: Live(rest, k).Some? ==> Less(e.key, k)))
  }

  lemma LiveIsLive(lists: seq<seq<MapEntry>>, k: Bytes)
    ensures Live(lists, k).Some? ==> !Live(lists, k).value.deleted && Live(lists, k).value.key == k
  {
    FirstHasKey(lists, k);
  }

  lemma {:induction false} FirstHasKey(lists: seq<seq<MapEntry>>, k: Bytes)
    ensures First(lists, k).Some? ==> First(lists, k).value.key == k
  {
    if lists != [] { FirstHasKey(lists[1..], k); }
  }

  lemma {:induction false} FindAppend(list: seq<MapEntry>, e: MapEntry, k: Bytes)
    ensures Find(list + [e], k) == if Find(list, k).Some? then Find(list, k) else if k == e.key then Some(e) else None
  {
    if list == [] {
      assert list + [e] == [e];
    } else {
      assert (list + [e])[1..] == list[1..] + [e];
      FindAppend(list[1..], e, k);
    }
  }

  lemma SortedAppend(list: seq<MapEntry>, e: MapEntry)
    requires Sorted(list) && (list != [] ==> Less(LastKey(list), e.key))
    ensures Sorted(list + [e])
  {
    forall i, j | 0 <= i < j < |list + [e]| ensures Less((list + [e])[i].key, (list + [e])[j].key) {
      if j == |list| && i < |list| - 1 { LessTransitive(list[i].key, LastKey(list), e.key); }
    }
  }

  lemma Begins(all: seq<seq<MapEntry>>, r: Option<MapEntry>, after: seq<seq<MapEntry>>)
    requires Delivers(all, r, after)
    ensures Progress(all, [], r, after)
  {
    if r.Some? {
      LiveIsLive(all, r.value.key);
      forall k | Live(after, k).Some? ensures Less(r.value.key, k) { assert Live(all, k).Some?; }
    }
  }

  lemma Continues(all: seq<seq<MapEntry>>, done: seq<MapEntry>, e: MapEntry, rest: seq<seq<MapEntry>>,
                  r: Option<MapEntry>, after: seq<seq<MapEntry>>)
    requires Progress(all, done, Some(e), rest) && Delivers(rest, r, after)
    ensures Progress(all, done + [e], r, after)
  {
    SortedAppend(done, e);
    forall k ensures Find(done + [e], k)
                     == if Find(done, k).Some? then Find(done, k) else if k == e.key then Some(e) else None
    {
      FindAppend(done, e, k);
    }
    if r.Some? {
      LiveIsLive(rest, r.value.key);
      forall k | Live(after, k).Some? ensures Less(r.value.key, k) { assert Live(rest, k).Some?; }
      NotWritten(done, e, r.value.key);
      LessTotal(e.key, r.value.key);
      forall k | k != r.value.key
        ensures Live(all, k) == if Find(done + [e], k).Some? then Find(done + [e], k) else Live(after, k) {}
    }
  }

  /** Keys above the last one written are not written yet. */
  lemma NotWritten(done: seq<MapEntry>, e: MapEntry, k: Bytes)
    requires Sorted(done) && (done != [] ==> Less(LastKey(done), e.key)) && Less(e.key, k)
    ensures Find(done, k) == None
  {
    if Find(done, k).Some? {
      var i :| 0 <= i < |done| && done[i] == Find(done, k).value;
      if i < |done| - 1 { LessTransitive(done[i].key, LastKey(done), e.key); }
      LessTotal(k, e.key);
    }
  }

  /** The entry fits after those of the block. */
  predicate Takes(block: seq<Packed>, e: MapEntry) {
    Used(block) + PackedSize(Pack(LastKey(Decode(block)), e)) <= CAPACITY
  }

  lemma TakesFirst(e: MapEntry)
    requires FitsAlone(e)
    ensures Takes([], e)
  {
  }

  lemma NothingPacked()
    ensures PackList([]) == []
  {
  }

  lemma NothingDecoded()
    ensures Decode([]) == [] && LastKey([]) == []
  {
  }

  lemma Grown(block: seq<Packed>, e: MapEntry, p: Packed)
    requires !e.deleted && p == Pack(LastKey(Decode(block)), e) && Takes(block, e)
    requires block != [] ==> BlockOk(block)
    ensures BlockOk(block + [p]) && Decode(block + [p]) == Decode(block) + [e]
    ensures LastKey(Decode(block + [p])) == e.key
  {
    PackThenDecode(block, e, p);
    UsedAppend(block, p);
  }

  lemma EntryIsLive(all: seq<seq<MapEntry>>, done: seq<MapEntry>, e: MapEntry, rest: seq<seq<MapEntry>>)
    requires Progress(all, done, Some(e), rest)
    requires AllFit(all)
    ensures |e.key| <= 128 && FitsAlone(e) && !e.deleted
  {
    assert Live(all, e.key) == Some(e);
  }

  /** The keys and entries that compaction supports. */
  ghost predicate AllFit(all: seq<seq<MapEntry>>) {
    forall k :: Live(all, k).Some? ==> |k| <= 128 && FitsAlone(Live(all, k).value)
  }

  predicate BlocksOk(blocks: seq<seq<Packed>>) {
    && (forall i | 0 <= i < |blocks| :: BlockOk(blocks[i]))
    && (forall i, j | 0 <= i < j == i + 1 < |blocks| :: !Takes(blocks[i], Decode(blocks[j])[0]))
  }

  /** Every block is the packing of what it holds. */
  predicate Canonical(blocks: seq<seq<Packed>>) { forall b | b in blocks :: b == PackList(Decode(b)) }

  lemma BlocksGrow(blocks: seq<seq<Packed>>, block: seq<Packed>)
    requires BlocksOk(blocks) && BlockOk(block)
    requires blocks != [] ==> !Takes(blocks[|blocks| - 1], Decode(block)[0])
    ensures BlocksOk(blocks + [block])
  {
    hide Takes, BlockOk, Decode;
    var after := blocks + [block];
    forall i | 0 <= i < |after| ensures BlockOk(after[i]) {
      if i < |blocks| { assert after[i] == blocks[i]; }
    }
    forall i, j | 0 <= i < j == i + 1 < |after| ensures |after[j]| > 0 && !Takes(after[i], Decode(after[j])[0]) {
      assert after[i] == blocks[i];
      NotEmpty(after[j]);
      if j < |blocks| { assert after[j] == blocks[j]; }
    }
  }

  lemma NotEmpty(block: seq<Packed>)
    requires BlockOk(block)
    ensures block != []
  {
  }

  lemma DecodeGrows(blocks: seq<seq<Packed>>, block: seq<Packed>)
    ensures DecodeAll(blocks + [block]) == DecodeAll(blocks) + Decode(block)
  {
    hide Decode;
    assert (blocks + [block])[..|blocks|] == blocks;
  }

  // ------------------------------------------------------------------------- lookup

  /** __sset_block_first_key: the key bytes of the first entry, as they are in the block. */
  function FirstKey(block: seq<Packed>): Bytes
    requires block != []
  {
    block[0].key
  }

  /** No block is empty, and none refers back to a key before its first. */
  predicate StartFresh(blocks: seq<seq<Packed>>) {
    forall i | 0 <= i < |blocks| :: blocks[i] != [] && blocks[i][0].kprefix == 0
  }

  lemma BlocksStartFresh(blocks: seq<seq<Packed>>)
    requires BlocksOk(blocks)
    ensures StartFresh(blocks)
  {
    forall i | 0 <= i < |blocks| ensures blocks[i] != [] && blocks[i][0].kprefix == 0 { assert BlockOk(blocks[i]); }
  }

  /** The last block whose first key is not above `k`; -1 when there is none. */
  function Floor(blocks: seq<seq<Packed>>, k: Bytes): (i: int)
    requires StartFresh(blocks)
    ensures -1 <= i < |blocks|
    ensures i >= 0 ==> AtMost(FirstKey(blocks[i]), k)
    ensures forall j | i < j < |blocks| :: !AtMost(FirstKey(blocks[j]), k)
  {
    if blocks == [] then -1
    else if AtMost(FirstKey(blocks[|blocks| - 1]), k) then |blocks| - 1
    else Floor(blocks[..|blocks| - 1], k)
  }

  lemma {:induction false} FirstKeyDecodes(block: seq<Packed>)
    requires block != [] && block[0].kprefix == 0
    ensures Decode(block)[0].key == FirstKey(block)
  {
    if |block| > 1 {
      FirstKeyDecodes(block[..|block| - 1]);
    } else {
      assert block[..0] == [];
      assert Decode(block) == [] + [MapEntry(FullKey([], block[0]), block[0].value, false)];
      assert FullKey([], block[0]) == [] + block[0].key == block[0].key;
    }
  }

  lemma {:induction false} FindConcat(a: seq<MapEntry>, b: seq<MapEntry>, k: Bytes)
    ensures Find(a + b, k) == if Find(a, k).Some? then Find(a, k) else Find(b, k)
  {
    if a == [] {
      assert a + b == b;
    } else {
      assert (a + b)[1..] == a[1..] + b;
      FindConcat(a[1..], b, k);
    }
  }

  lemma SortedParts(a: seq<MapEntry>, b: seq<MapEntry>)
    requires Sorted(a + b)
    ensures Sorted(a) && Sorted(b)
    ensures forall i, j | 0 <= i < |a| && 0 <= j < |b| :: Less(a[i].key, b[j].key)
  {
    forall i, j | 0 <= i < j < |a| ensures Less(a[i].key, a[j].key) {
      assert (a + b)[i] == a[i] && (a + b)[j] == a[j];
    }
    forall i, j | 0 <= i < j < |b| ensures Less(b[i].key, b[j].key) {
      assert (a + b)[|a| + i] == b[i] && (a + b)[|a| + j] == b[j];
    }
    forall i, j | 0 <= i < |a| && 0 <= j < |b| ensures Less(a[i].key, b[j].key) {
      assert (a + b)[i] == a[i] && (a + b)[|a| + j] == b[j];
    }
  }

  /** A key at or above the first key of `b` is not in the list before it. */
  lemma NotBefore(a: seq<MapEntry>, b: seq<MapEntry>, k: Bytes)
    requires Sorted(a + b) && b != [] && AtMost(b[0].key, k)
    ensures Find(a, k) == None
  {
    SortedParts(a, b);
    if Find(a, k).Some? {
      var i :| 0 <= i < |a| && a[i] == Find(a, k).value;
      LessTotal(a[i].key, b[0].key);
    }
  }

  lemma NotInside(b: seq<MapEntry>, k: Bytes)
    requires Sorted(b) && Find(b, k).Some?
    ensures AtMost(b[0].key, k)
  {
    var i :| 0 <= i < |b| && b[i] == Find(b, k).value;
    assert i > 0 ==> Less(b[0].key, b[i].key);
  }

  /** Looking a key up in the block the floor search finds is looking it up in all blocks. */
  lemma {:induction false} FloorFinds(blocks: seq<seq<Packed>>, k: Bytes)
    requires Sorted(DecodeAll(blocks)) && StartFresh(blocks)
    ensures Find(DecodeAll(blocks), k)
            == var i := Floor(blocks, k); if i < 0 then None else Find(Decode(blocks[i]), k)
  {
    if blocks != [] {
      var init, last := blocks[..|blocks| - 1], blocks[|blocks| - 1];
      SortedParts(DecodeAll(init), Decode(last));
      FindConcat(DecodeAll(init), Decode(last), k);
      FirstKeyDecodes(last);
      if AtMost(FirstKey(last), k) {
        NotBefore(DecodeAll(init), Decode(last), k);
      } else {
        if Find(Decode(last), k).Some? { NotInside(Decode(last), k); }
        FloorFinds(init, k);
      }
    }
  }

  /** After balancing, the block found by its first key answers for the whole node as it was. */
  lemma LookupAfterBalance(all: seq<seq<MapEntry>>, blocks: seq<seq<Packed>>, k: Bytes)
    requires Sorted(DecodeAll(blocks)) && BlocksOk(blocks)
    requires forall x :: Find(DecodeAll(blocks), x) == Live(all, x)
    ensures StartFresh(blocks)
    ensures Live(all, k) == var i := Floor(blocks, k); if i < 0 then None else Find(Decode(blocks[i]), k)
  {
    BlocksStartFresh(blocks);
    FloorFinds(blocks, k);
  }

  /** The blocks cover ascending, disjoint ranges of keys. */
  lemma {:induction false} RangesAscend(blocks: seq<seq<Packed>>, i: nat, j: nat)
    requires Sorted(DecodeAll(blocks)) && StartFresh(blocks) && i < j < |blocks|
    ensures Less(LastKey(Decode(blocks[i])), FirstKey(blocks[j]))
    decreases |blocks|
  {
    hide Decode, Less;
    var init, last := blocks[..|blocks| - 1], blocks[|blocks| - 1];
    SortedParts(DecodeAll(init), Decode(last));
    if j < |init| {
      RangesAscend(init, i, j);
    } else {
      FirstKeyDecodes(last);
      InAll(init, i, |blocks[i]| - 1);
    }
  }

  lemma {:induction false} InAll(blocks: seq<seq<Packed>>, i: nat, n: nat)
    requires i < |blocks| && n < |blocks[i]|
    ensures Decode(blocks[i])[n] in DecodeAll(blocks)
  {
    hide Decode;
    if i < |blocks| - 1 { InAll(blocks[..|blocks| - 1], i, n); }
  }

  // --------------------------------------------------------------------- termination

  /** How many entries of `rest` the inner loop puts into a block that holds `used` bytes and
      whose last key is `before`. */
  function BlockLength(before: Bytes, used: nat, rest: seq<MapEntry>): (n: nat)
    ensures n <= |rest|
    decreases |rest|
  {
    if rest == [] then 0
    else
      var size := PackedSize(Pack(before, rest[0]));
      if used + size > CAPACITY then 0 else 1 + BlockLength(rest[0].key, used + size, rest[1..])
  }

  /** What the outer loop has left after `n` rounds. */
  function Rounds(n: nat, rest: seq<MapEntry>): seq<MapEntry> {
    if n == 0 then rest
    else
      var left := Rounds(n - 1, rest);
      left[BlockLength([], 0, left)..]
  }

  /** A block takes the entries of a list from the front as long as they fit. */
  lemma {:induction false} BlockLengthFrom(list: seq<MapEntry>, n: nat, i: nat)
    requires i <= n <= |list| && Used(PackList(list[..n])) <= CAPACITY
    requires n < |list| ==> Used(PackList(list[..n])) + PackedSize(Pack(LastKey(list[..n]), list[n])) > CAPACITY
    ensures BlockLength(LastKey(list[..i]), Used(PackList(list[..i])), list[i..]) == n - i
    decreases n - i
  {
    hide PackedSize, Pack, PackList, LastKey;
    if i < n {
      var before, e := list[..i], list[i];
      assert list[..i + 1] == before + [e] && list[i..][1..] == list[i + 1..];
      PackListGrows(before, e);
      UsedAppend(PackList(before), Pack(LastKey(before), e));
      UsedMonotone(list, i + 1, n);
      LastKeyIs(list, i + 1);
      BlockLengthFrom(list, n, i + 1);
    }
  }

  lemma LastKeyIs(list: seq<MapEntry>, i: nat)
    requires 0 < i <= |list|
    ensures LastKey(list[..i]) == list[i - 1].key
  {
  }

  lemma {:induction false} UsedMonotone(list: seq<MapEntry>, i: nat, n: nat)
    requires i <= n <= |list|
    ensures Used(PackList(list[..i])) <= Used(PackList(list[..n]))
    decreases n
  {
    hide PackedSize, Pack, PackList, LastKey;
    if i < n {
      var before, e := list[..n - 1], list[n - 1];
      assert list[..n] == before + [e];
      PackListGrows(before, e);
      UsedAppend(PackList(before), Pack(LastKey(before), e));
      UsedMonotone(list, i, n - 1);
    }
  }

  /** What the inner loop puts into a block is what BlockLength counts on the list it reads. */
  lemma BlockIsBlockLength(block: seq<Packed>, entry: Option<MapEntry>, later: seq<MapEntry>)
    requires BlockOk(block) && block == PackList(Decode(block))
    requires if entry.Some? then !Takes(block, entry.value) else later == []
    ensures BlockLength([], 0, Decode(block) + (if entry.Some? then [entry.value] else []) + later) == |block|
  {
    hide PackedSize, PackList, Decode, LastKey, Pack, BlockLength;
    var n := |block|;
    var list := Decode(block) + (if entry.Some? then [entry.value] else []) + later;
    assert list[..n] == Decode(block);
    BlockLengthFrom(list, n, 0);
    NothingPacked();
    NothingDecoded();
    assert list[..0] == [] && list[0..] == list;
  }

  lemma {:induction false} DecodeFront(blocks: seq<seq<Packed>>)
    requires blocks != []
    ensures DecodeAll(blocks) == Decode(blocks[0]) + DecodeAll(blocks[1..])
  {
    hide Decode;
    var init, last := blocks[..|blocks| - 1], blocks[|blocks| - 1];
    if init == [] {
      assert DecodeAll(init) == [] && blocks[1..] == [];
    } else {
      DecodeFront(init);
      assert blocks[1..][..|blocks| - 2] == init[1..];
    }
  }

  lemma RoundIsBlock(block: seq<Packed>, rest: seq<seq<Packed>>)
    requires BlockOk(block) && block == PackList(Decode(block))
    requires rest != [] ==> BlockOk(rest[0]) && Decode(rest[0]) != [] && !Takes(block, Decode(rest[0])[0])
    ensures BlockLength([], 0, Decode(block) + DecodeAll(rest)) == |block|
  {
    hide Decode, BlockLength, PackList, BlockOk, Takes, DecodeAll;
    if rest == [] {
      BlockIsBlockLength(block, None, []);
      NoBlocks();
      assert Decode(block) + [] + [] == Decode(block) + [];
    } else {
      DecodeFront(rest);
      var next, later := Decode(rest[0]), DecodeAll(rest[1..]);
      BlockIsBlockLength(block, Some(next[0]), next[1..] + later);
      assert next == [next[0]] + next[1..];
      assert Decode(block) + [next[0]] + (next[1..] + later) == Decode(block) + (next + later);
    }
  }

  lemma NoBlocks()
    ensures DecodeAll([]) == []
  {
  }

  /** The rounds of the outer loop are the blocks that balancing writes. */
  lemma {:induction false} RoundsAreBlocks(blocks: seq<seq<Packed>>, n: nat)
    requires BlocksOk(blocks) && Canonical(blocks) && n <= |blocks|
    ensures Rounds(n, DecodeAll(blocks)) == DecodeAll(blocks[n..])
    decreases n
  {
    hide Decode, BlockLength, PackList, BlockOk, Takes, DecodeAll;
    if n == 0 {
      assert blocks[0..] == blocks;
    } else {
      RoundsAreBlocks(blocks, n - 1);
      var left, block, rest := blocks[n - 1..], blocks[n - 1], blocks[n..];
      DecodeFront(left);
      assert left[1..] == rest;
      if rest != [] { NotEmpty(blocks[n]); }
      RoundIsBlock(block, rest);
      assert (Decode(block) + DecodeAll(rest))[|block|..] == DecodeAll(rest);
    }
  }

  /** What prefix compression can save, at most. */
  lemma PackedSizes(before: Bytes, e: MapEntry)
    ensures PackedSize(Pack(before, e)) + |before| >= 3 + |e.key|
    ensures before != [] ==> PackedSize(Pack(before, e)) + |before| + 3 >= PackedSize(Pack([], e))
  {
    hide Shared;
    assert Shared([], e.key) == 0 && e.key[0..] == e.key;
  }

  /** An entry too large for an empty block is too large for the rest of any block. */
  lemma {:induction false} NeverPacked(before: Bytes, used: nat, rest: seq<MapEntry>, i: nat)
    requires i < |rest| && !FitsAlone(rest[i])
    requires used >= |before| && (before != [] ==> used >= |before| + 3)
    ensures BlockLength(before, used, rest) <= i
    decreases i
  {
    hide PackedSize, Pack;
    var size := PackedSize(Pack(before, rest[0]));
    PackedSizes(before, rest[0]);
    if i > 0 && used + size <= CAPACITY {
      NeverPacked(rest[0].key, used + size, rest[1..], i - 1);
    }
  }

  lemma {:induction false} StaysForever(n: nat, rest: seq<MapEntry>, i: nat)
    requires i < |rest| && !FitsAlone(rest[i])
    ensures rest[i] in Rounds(n, rest)
  {
    hide BlockLength, FitsAlone;
    if n > 0 {
      StaysForever(n - 1, rest, i);
      var left := Rounds(n - 1, rest);
      var j :| 0 <= j < |left| && left[j] == rest[i];
      NeverPacked([], 0, left, j);
      var m := BlockLength([], 0, left);
      assert left[m..][j - m] == rest[i];
    }
  }

  lemma {:induction false} Falls(n: nat, rest: seq<MapEntry>)
    requires forall e | e in rest :: FitsAlone(e)
    ensures forall e | e in Rounds(n, rest) :: e in rest
    ensures |Rounds(n, rest)| <= if n <= |rest| then |rest| - n else 0
  {
    if n > 0 {
      Falls(n - 1, rest);
      var left := Rounds(n - 1, rest);
      if left != [] { assert FitsAlone(left[0]); }
    }
  }

  /** Balancing comes to an end if and only if every live entry fits into an empty block. */
  lemma TerminatesExactly(rest: seq<MapEntry>)
    ensures (exists n: nat :: Rounds(n, rest) == []) <==> forall e | e in rest :: FitsAlone(e)
  {
    if forall e | e in rest :: FitsAlone(e) {
      Falls(|rest|, rest);
      assert Rounds(|rest|, rest) == [];
    } else {
      var e :| e in rest && !FitsAlone(e);
      var i :| 0 <= i < |rest| && rest[i] == e;
      forall n: nat ensures Rounds(n, rest) != [] { StaysForever(n, rest, i); }
    }
  }
}
