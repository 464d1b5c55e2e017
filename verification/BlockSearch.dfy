/** The search for a key in a prefix-compressed block (bucket.c), which compares one byte behind
    the shared part even where the key of the entry ends there. */
module BlockSearch {
  import opened Common
  import opened MemShared
  import opened Compaction
  import opened Bucket

  // --------------------------------------------------- how the shared lengths relate

  /** The next key shares more with its predecessor than the predecessor does with `key`. */
  lemma SkipsOver(prev: Bytes, cur: Bytes, key: Bytes)
    requires Shared(prev, cur) > Shared(prev, key)
    ensures Shared(cur, key) == Shared(prev, key) && (Less(cur, key) <==> Less(prev, key)) && cur != key
    ensures Shared(prev, key) < |cur|
  {
    var k, s := Shared(prev, cur), Shared(prev, key);
    assert prev[..k][s] == prev[s] && cur[..k][s] == cur[s];
    assert cur[..s] == cur[..k][..s] && prev[..s] == prev[..k][..s];
    SharedUnique(cur, key, s);
  }

  /** It shares less with its predecessor: it is above `key`. */
  lemma GoesBeyond(prev: Bytes, cur: Bytes, key: Bytes)
    requires Shared(prev, cur) < Shared(prev, key) && Less(prev, cur)
    ensures Less(key, cur)
  {
    var k, s := Shared(prev, cur), Shared(prev, key);
    assert prev[..s][k] == prev[k] && key[..s][k] == key[k];
    assert key[..k] == key[..s][..k] && prev[..k] == prev[..s][..k];
    SharedUnique(key, cur, k);
  }

  /** It shares as much: the rest decides. */
  lemma RestDecides(prev: Bytes, cur: Bytes, key: Bytes, s: nat)
    requires s <= Shared(prev, cur) && s <= Shared(prev, key)
    ensures s <= |cur| && s <= |key|
    ensures Shared(cur, key) == s + Shared(cur[s..], key[s..])
  {
    var k, m := Shared(prev, cur), Shared(prev, key);
    assert cur[..s] == cur[..k][..s] && prev[..s] == prev[..k][..s];
    assert key[..s] == key[..m][..s] && prev[..s] == prev[..m][..s];
    SharedBehind(cur, key, s);
  }

  lemma SharedBehind(a: Bytes, b: Bytes, s: nat)
    requires s <= |a| && s <= |b| && a[..s] == b[..s]
    ensures Shared(a, b) == s + Shared(a[s..], b[s..])
  {
    var n := Shared(a[s..], b[s..]);
    assert a[..s + n] == a[..s] + a[s..][..n] && b[..s + n] == b[..s] + b[s..][..n];
    SharedUnique(a, b, s + n);
  }

  lemma SharedAll(a: Bytes, b: Bytes)
    ensures Shared(a, b) == |a| && |a| == |b| ==> a == b
    ensures Shared(a, b) == |a| < |b| ==> Less(a, b)
    ensures Shared(a, b) == |b| < |a| ==> Less(b, a)
    ensures var n := Shared(a, b); n < |a| && n < |b| ==> (a[n] > b[n] <==> Less(b, a)) && (a[n] < b[n] <==> Less(a, b))
  {
    var n := Shared(a, b);
    SharedUnique(b, a, n);
    if n == |a| == |b| { assert a == a[..n] && b == b[..n]; }
  }

  // -------------------------------------------------------------- what search comes to

  /** `a` is shorter than `b` and begins it. */
  predicate StartsWith(a: Bytes, b: Bytes) { Shared(a, b) == |a| < |b| }

  /** The byte behind the key of an entry, which begins `key`, stops the search. */
  predicate Stops(entry: Bytes, tail: byte, key: Bytes) { StartsWith(entry, key) && tail > key[|entry|] }

  /** An entry before the place of `key` stops the search. */
  predicate Missed(list: seq<MapEntry>, tails: Bytes, key: Bytes)
    requires |tails| == |list|
  {
    exists i :: 0 <= i < |list| && Stops(list[i].key, tails[i], key)
  }

  predicate Holds(list: seq<MapEntry>, key: Bytes) { exists i :: 0 <= i < |list| && list[i].key == key }

  /** The first `i` entries are below `key` and do not stop the search. */
  predicate Below(list: seq<MapEntry>, tails: Bytes, key: Bytes, i: nat)
    requires |tails| == |list|
  {
    i <= |list| && forall j | 0 <= j < i :: Less(list[j].key, key) && !Stops(list[j].key, tails[j], key)
  }

  /** The search has gone past the place of `key`, which is not there. */
  predicate Beyond(list: seq<MapEntry>, key: Bytes, i: nat) {
    0 < i <= |list| && Less(key, list[i - 1].key) && !Holds(list, key)
  }

  /** An entry above `key`, behind entries that are all below it. */
  lemma NotThere(list: seq<MapEntry>, tails: Bytes, key: Bytes, i: nat)
    requires Sorted(list) && |tails| == |list| && Below(list, tails, key, i) && i < |list| && Less(key, list[i].key)
    ensures !Holds(list, key)
  {
    forall j | 0 <= j < |list| ensures list[j].key != key {
      LessTotal(list[j].key, key);
      if j > i { LessTransitive(key, list[i].key, list[j].key); }
    }
  }

  lemma StillBeyond(list: seq<MapEntry>, key: Bytes, i: nat)
    requires Sorted(list) && Beyond(list, key, i) && i < |list|
    ensures Beyond(list, key, i + 1)
  {
    LessTransitive(key, list[i - 1].key, list[i].key);
  }

  /** Nothing begins a key from above: what stops the search comes before the key. */
  lemma StopsBefore(list: seq<MapEntry>, tails: Bytes, key: Bytes, i: nat)
    requires Sorted(list) && |tails| == |list| && i < |list| && list[i].key == key && Below(list, tails, key, i)
    ensures !Missed(list, tails, key)
  {
    forall j | 0 <= j < |list| ensures !Stops(list[j].key, tails[j], key) {
      if StartsWith(list[j].key, key) {
        SharedAll(list[j].key, key);
        LessTotal(list[j].key, key);
      }
    }
  }

  lemma AllBelow(list: seq<MapEntry>, tails: Bytes, key: Bytes)
    requires |tails| == |list| && Below(list, tails, key, |list|)
    ensures !Holds(list, key)
  {
    forall j | 0 <= j < |list| ensures list[j].key != key { LessTotal(list[j].key, key); }
  }

  // ------------------------------------------------------------------- the block as a list

  lemma {:induction false} PackedAt(list: seq<MapEntry>, i: nat)
    requires i < |list|
    ensures PackList(list)[i] == Pack(LastKey(list[..i]), list[i])
    decreases |list|
  {
    hide Pack, LastKey;
    var init := list[..|list| - 1];
    if i < |init| {
      PackedAt(init, i);
      assert init[..i] == list[..i];
    }
  }

  /** How much of the key the entry before shares, or nothing in a block without prefixes. */
  function Offset(list: seq<MapEntry>, key: Bytes, i: nat, prefixed: bool): nat
    requires i <= |list|
  {
    if prefixed then Shared(LastKey(list[..i]), key) else 0
  }

  // ------------------------------------------------------------------- the turns of the loop

  /** The byte at `i`, or the one behind the end. */
  function ByteOr(s: Bytes, i: nat, behind: byte): byte { if i < |s| then s[i] else behind }

  /** The byte of the block behind the key of entry `i`. */
  ghost function TailAt(b: Block, i: nat, past: byte): byte
    requires b.Valid() && i < |b.entries|
    reads b, b.node
  {
    ByteOr(b.node[..], HEAD + |KeyArea(b.entries[..i + 1])|, past)
  }

  ghost function TailsOf(b: Block, past: byte): (tails: Bytes)
    requires b.Valid()
    reads b, b.node
    ensures |tails| == |b.entries|
  {
    seq(|b.entries|, i requires 0 <= i < |b.entries| && b.Valid() reads b, b.node => TailAt(b, i, past))
  }

  /** __bucket_search, on the bytes of a block. Behind the key of an entry comes the head byte of the
      next; `past_key` is the byte in memory behind the key that is looked for, and `past_block` the one
      behind the block. The key is found, with its value, if and only if it is there and no entry stops
      the search. */
  method BucketSearch(b: Block, key: Bytes, past_key: byte, past_block: byte) returns (cmp: int, value: Bytes)
    requires b.Valid() && Sorted(Decode(b.entries)) && b.entries == PackList(Decode(b.entries))
    ensures var list := Decode(b.entries);
            && (cmp == 0 <==> Holds(list, key) && !Missed(list, TailsOf(b, past_block), key))
            && (cmp == 0 ==> exists i :: 0 <= i < |list| && list[i].key == key && list[i].value == value)
  {
    hide Less, Shared, Sorted, Holds, Missed, Below, Beyond, Stops, PackList, LastKey, Offset, Pack, KeyArea, ValueArea,
         TailsOf, TailAt, Block.Valid, Decode, Prefixed;
    ghost var list, tails, i := Decode(b.entries), TailsOf(b, past_block), 0;
    var koffset: nat, pkey: nat, pvalue: nat := 0, HEAD, SIZE;
    var prefixed := b.prefix;
    PrefixIs(b);
    NoAreas(b.entries);
    Start(list, tails, key, prefixed);
    var item;
    item, pkey, pvalue := b.Fetch(pkey, pvalue, 0);
    while item.Some?
      invariant 0 <= i <= |list| && koffset == Offset(list, key, i, prefixed) && koffset <= |key|
      invariant Below(list, tails, key, i) || Beyond(list, key, i)
      invariant item == if i < |list| then Some(b.entries[i]) else None
      invariant i < |list| ==>
                  pkey == HEAD + |KeyArea(b.entries[..i + 1])| && pvalue == SIZE - |ValueArea(b.entries[..i + 1])|
      decreases |list| - i
    {
      var e := item.value;
      Turn(list, tails, key, past_key, i, prefixed);
      TailIs(b, i, past_block);
      if e.kprefix <= koffset {
        if koffset > e.kprefix {
          return 1, [];
        }
        var rest := key[koffset..];
        var kshared := MemSharedPrefix(e.key, rest);
        if kshared == |rest| && |e.key| == |rest| {
          PackedAt(list, i);
          ValueOfPack(list, i);
          return 0, e.value;
        }
        if ByteOr(e.key, kshared, ByteOr(b.node[..], pkey, past_block)) > ByteOr(rest, kshared, past_key) {
          return -1, e.value;
        }
        if prefixed {
          koffset := koffset + kshared;
        }
      }
      item, pkey, pvalue := b.Fetch(pkey, pvalue, i + 1);
      i := i + 1;
    }
    Finish(list, tails, key);
    return 1, [];
  }

  // ------------------------------------------------------------- what stops the search

  /** The bytes behind the keys are the head bytes of the next entries. */
  lemma TailIsHead(b: Block, i: nat, past: byte)
    requires b.Valid() && i + 1 < |b.entries|
    ensures TailsOf(b, past)[i] as nat == HeadByte(b.entries[i + 1])
  {
    hide KeyArea, ItemAt;
    TailIs(b, i, past);
    KeysAt(b.entries, i + 1);
    var before, next := KeyArea(b.entries[..i + 1]), b.entries[i + 1];
    var rest :| KeyArea(b.entries) == before + (KeyBytes(next) + rest);
    HeadSmall(next);
    assert b.node[HEAD..b.last_key][|before|] == b.node[HEAD + |before|];
    assert (KeyBytes(next) + rest)[0] == KeyBytes(next)[0];
  }

  /** Some key of the list begins `key`, and the next entry has a head byte greater than the byte
      that comes there in `key`. */
  predicate Hidden(list: seq<MapEntry>, key: Bytes) {
    exists i, j :: 0 <= i < j == i + 1 < |list| && StartsWith(list[i].key, key)
                   && HeadByte(PackList(list)[j]) > key[|list[i].key|] as nat
  }

  /** What the search comes to: a key that is not there is never found, one that is there is found
      if and only if it is not hidden. */
  lemma {:induction false} SearchExact(b: Block, key: Bytes, past: byte, list: seq<MapEntry>)
    requires b.Valid() && Sorted(list) && b.entries == PackList(list) && Holds(list, key)
    ensures Missed(list, TailsOf(b, past), key) <==> Hidden(list, key)
  {
    hide Less, Shared, Sorted, PackList, HeadByte, KeyArea, TailsOf, Block.Valid;
    var tails := TailsOf(b, past);
    var n :| 0 <= n < |list| && list[n].key == key;
    if Missed(list, tails, key) {
      var i :| 0 <= i < |list| && Stops(list[i].key, tails[i], key);
      BeginsBefore(list, i, n);
      TailIsHead(b, i, past);
      assert 0 <= i < i + 1 < |list|;
    }
    if i, j :| 0 <= i < j == i + 1 < |list| && StartsWith(list[i].key, key)
               && HeadByte(PackList(list)[j]) > key[|list[i].key|] as nat
    {
      TailIsHead(b, i, past);
      assert Stops(list[i].key, tails[i], key);
    }
  }

  /** z_bucket_search on a block as balancing writes it. A key that is not there is never found; one
      that is there is found, with its value, if and only if it is not hidden. */
  method Search(b: Block, key: Bytes, past_key: byte, past_block: byte) returns (cmp: int, value: Bytes)
    requires b.Valid() && Sorted(Decode(b.entries)) && b.entries == PackList(Decode(b.entries))
    ensures cmp == 0 <==> Find(Decode(b.entries), key).Some? && !Hidden(Decode(b.entries), key)
    ensures cmp == 0 ==> Find(Decode(b.entries), key) == Some(MapEntry(key, value, false))
  {
    hide Less, Shared, Sorted, PackList, Block.Valid, Hidden, Missed, Decode, Find;
    ghost var list := Decode(b.entries);
    cmp, value := BucketSearch(b, key, past_key, past_block);
    HoldsIsFind(list, key);
    if Holds(list, key) { SearchExact(b, key, past_block, list); }
    if cmp == 0 {
      ghost var i :| 0 <= i < |list| && list[i].key == key && list[i].value == value;
      FindIs(list, key, i);
      DecodeIsLive(b.entries, i);
    }
  }

  lemma HoldsIsFind(list: seq<MapEntry>, key: Bytes)
    ensures Holds(list, key) <==> Find(list, key).Some?
  {
    if Find(list, key).Some? {
      var i :| 0 <= i < |list| && list[i] == Find(list, key).value;
    }
  }

  lemma FindIs(list: seq<MapEntry>, key: Bytes, i: nat)
    requires Sorted(list) && i < |list| && list[i].key == key
    ensures Find(list, key) == Some(list[i])
  {
    hide Less;
    var j :| 0 <= j < |list| && list[j] == Find(list, key).value;
    LessTotal(key, key);
  }

  lemma {:induction false} DecodeIsLive(block: seq<Packed>, i: nat)
    requires i < |block|
    ensures !Decode(block)[i].deleted
    decreases |block|
  {
    if i < |block| - 1 { DecodeIsLive(block[..|block| - 1], i); }
  }

  /** Where no key begins another, nothing is hidden. */
  lemma NothingHidden(list: seq<MapEntry>, key: Bytes)
    requires Holds(list, key)
    requires forall i, j | 0 <= i < |list| && 0 <= j < |list| :: !StartsWith(list[i].key, list[j].key)
    ensures !Hidden(list, key)
  {
    hide StartsWith;
  }

  /** Two keys, the second the first and the byte 16: the head byte of its entry is 32, and the
      search for it stops at the first. */
  lemma SecondKeyIsHidden()
    ensures var list := [MapEntry([97], [], false), MapEntry([97, 16], [], false)];
            Sorted(list) && Find(list, [97, 16]).Some? && Hidden(list, [97, 16])
  {
    var a: Bytes, b: Bytes := [97], [97, 16];
    var list := [MapEntry(a, [], false), MapEntry(b, [], false)];
    SharedUnique(a, b, 1);
    SharedUnique(b, a, 1);
    PackedAt(list, 1);
    LastKeyAt(list, 1);
    assert PackList(list)[1].kprefix == 1;
    assert Find(list[1..], b).Some?;
    assert 0 <= 0 < 1 == 0 + 1 < |list| && StartsWith(list[0].key, b);
  }

  lemma BeginsBefore(list: seq<MapEntry>, i: nat, n: nat)
    requires Sorted(list) && i < |list| && n < |list| && StartsWith(list[i].key, list[n].key)
    ensures i < n
  {
    SharedAll(list[i].key, list[n].key);
    LessTotal(list[i].key, list[n].key);
  }

  lemma NoAreas(entries: seq<Packed>)
    ensures KeyArea(entries[..0]) == [] && ValueArea(entries[..0]) == []
  {
  }

  lemma PrefixIs(b: Block)
    requires b.Valid()
    ensures b.prefix == Prefixed(b.entries)
  {
  }

  lemma TailIs(b: Block, i: nat, past: byte)
    requires b.Valid() && i < |b.entries|
    ensures TailsOf(b, past)[i] == ByteOr(b.node[..], HEAD + |KeyArea(b.entries[..i + 1])|, past)
  {
    hide KeyArea, ByteOr;
  }

  lemma ValueOfPack(list: seq<MapEntry>, i: nat)
    requires i < |list|
    ensures Pack(LastKey(list[..i]), list[i]).value == list[i].value
  {
  }

  lemma Start(list: seq<MapEntry>, tails: Bytes, key: Bytes, prefixed: bool)
    requires |tails| == |list|
    ensures Below(list, tails, key, 0) && Offset(list, key, 0, prefixed) == 0
  {
  }

  lemma Finish(list: seq<MapEntry>, tails: Bytes, key: Bytes)
    requires |tails| == |list| && (Below(list, tails, key, |list|) || Beyond(list, key, |list|))
    ensures !Holds(list, key)
  {
    if Below(list, tails, key, |list|) { AllBelow(list, tails, key); }
  }

  /** One turn of the loop. */
  predicate TurnOk(list: seq<MapEntry>, tails: Bytes, key: Bytes, past: byte, at: nat, prefixed: bool, e: Packed)
    requires |tails| == |list| && at < |list| && Offset(list, key, at, prefixed) <= |key|
  {
    var koffset := Offset(list, key, at, prefixed);
    if e.kprefix > koffset then
      && Offset(list, key, at + 1, prefixed) == koffset
      && (Below(list, tails, key, at + 1) || Beyond(list, key, at + 1))
    else if koffset > e.kprefix then !Holds(list, key)
    else
      var rest := key[koffset..];
      var kshared := Shared(e.key, rest);
      if kshared == |rest| && |e.key| == |rest| then
        list[at].key == key && Holds(list, key) && !Missed(list, tails, key)
      else if ByteOr(e.key, kshared, tails[at]) > ByteOr(rest, kshared, past) then
        !Holds(list, key) || Missed(list, tails, key)
      else
        && Offset(list, key, at + 1, prefixed) == (if prefixed then koffset + kshared else koffset)
        && koffset + kshared <= |key|
        && (Below(list, tails, key, at + 1) || Beyond(list, key, at + 1))
  }

  /** What comparing the rest of the key with the rest of an entry tells. */
  lemma Compared(cur: Bytes, key: Bytes, s: nat, tail: byte, past: byte)
    requires s <= |cur| && s <= |key| && Shared(cur, key) == s + Shared(cur[s..], key[s..])
    ensures var ks, rest := Shared(cur[s..], key[s..]), key[s..];
            var found, above := ks == |rest| == |cur[s..]|, ByteOr(cur[s..], ks, tail) > ByteOr(rest, ks, past);
            && (found ==> cur == key)
            && (!found && above ==> Less(key, cur) || Stops(cur, tail, key))
            && (!found && !above ==> Less(key, cur) || (Less(cur, key) && !Stops(cur, tail, key)))
  {
    hide Shared, Less;
    SharedAll(cur, key);
  }

  lemma LastKeyAt(list: seq<MapEntry>, i: nat)
    requires i < |list|
    ensures LastKey(list[..i + 1]) == list[i].key
    ensures LastKey(list[..i]) == if i == 0 then [] else list[i - 1].key
  {
  }

  lemma SharedNone(b: Bytes)
    ensures Shared([], b) == 0
  {
  }

  lemma NextBelow(list: seq<MapEntry>, tails: Bytes, key: Bytes, i: nat)
    requires |tails| == |list| && Below(list, tails, key, i) && i < |list|
    requires Less(list[i].key, key) && !Stops(list[i].key, tails[i], key)
    ensures Below(list, tails, key, i + 1)
  {
  }

  lemma NextBeyond(list: seq<MapEntry>, tails: Bytes, key: Bytes, i: nat)
    requires Sorted(list) && |tails| == |list| && (Below(list, tails, key, i) || Beyond(list, key, i)) && i < |list|
    requires Less(key, list[i].key)
    ensures Beyond(list, key, i + 1) && !Holds(list, key)
  {
    hide Below, Holds;
    if Below(list, tails, key, i) { NotThere(list, tails, key, i); }
  }

  lemma PrevBelow(list: seq<MapEntry>, tails: Bytes, key: Bytes, i: nat)
    requires |tails| == |list| && Below(list, tails, key, i) && 0 < i
    ensures Less(list[i - 1].key, key)
  {
  }

  lemma SortedNext(list: seq<MapEntry>, i: nat)
    requires Sorted(list) && 0 < i < |list|
    ensures Less(list[i - 1].key, list[i].key)
  {
  }

  lemma ThereIfEqual(list: seq<MapEntry>, key: Bytes, i: nat)
    requires i < |list| && list[i].key == key
    ensures Holds(list, key)
  {
  }

  lemma StopsHere(list: seq<MapEntry>, tails: Bytes, key: Bytes, i: nat)
    requires |tails| == |list| && i < |list| && Stops(list[i].key, tails[i], key)
    ensures Missed(list, tails, key)
  {
  }

  lemma TurnSkips(list: seq<MapEntry>, tails: Bytes, key: Bytes, at: nat)
    requires Sorted(list) && |tails| == |list| && at < |list|
    requires Below(list, tails, key, at) || Beyond(list, key, at)
    requires var prev, cur := LastKey(list[..at]), list[at].key; Shared(prev, cur) > Shared(prev, key)
    ensures Shared(list[at].key, key) == Shared(LastKey(list[..at]), key)
    ensures Below(list, tails, key, at + 1) || Beyond(list, key, at + 1)
  {
    hide Less, Shared, Sorted, Holds, Below, Beyond, LastKey;
    var prev, cur := LastKey(list[..at]), list[at].key;
    SkipsOver(prev, cur, key);
    LastKeyAt(list, at);
    SharedNone(cur);
    if Below(list, tails, key, at) {
      PrevBelow(list, tails, key, at);
      NextBelow(list, tails, key, at);
    } else {
      StillBeyond(list, key, at);
    }
  }

  lemma TurnEnds(list: seq<MapEntry>, tails: Bytes, key: Bytes, at: nat)
    requires Sorted(list) && |tails| == |list| && at < |list|
    requires Below(list, tails, key, at) || Beyond(list, key, at)
    requires var prev, cur := LastKey(list[..at]), list[at].key; Shared(prev, cur) < Shared(prev, key)
    ensures !Holds(list, key)
  {
    hide Less, Shared, Sorted, Holds, Below, Beyond, LastKey;
    var prev, cur := LastKey(list[..at]), list[at].key;
    LastKeyAt(list, at);
    SharedNone(key);
    SortedNext(list, at);
    GoesBeyond(prev, cur, key);
    NextBeyond(list, tails, key, at);
  }

  lemma TurnCompares(list: seq<MapEntry>, tails: Bytes, key: Bytes, past: byte, at: nat, s: nat)
    requires Sorted(list) && |tails| == |list| && at < |list|
    requires Below(list, tails, key, at) || Beyond(list, key, at)
    requires var prev, cur := LastKey(list[..at]), list[at].key; s <= Shared(prev, cur) && s <= Shared(prev, key)
    ensures s <= |list[at].key| && s <= |key|
    ensures var e, rest := list[at].key[s..], key[s..];
            var ks := Shared(e, rest);
            && Shared(list[at].key, key) == s + ks
            && (if ks == |rest| == |e| then list[at].key == key && Holds(list, key) && !Missed(list, tails, key)
                else if ByteOr(e, ks, tails[at]) > ByteOr(rest, ks, past) then
                  !Holds(list, key) || Missed(list, tails, key)
                else Below(list, tails, key, at + 1) || Beyond(list, key, at + 1))
  {
    hide Less, Shared, Sorted, Holds, Missed, Below, Beyond, Stops, LastKey, ByteOr;
    var prev, cur := LastKey(list[..at]), list[at].key;
    RestDecides(prev, cur, key, s);
    Compared(cur, key, s, tails[at], past);
    if cur == key {
      ThereIfEqual(list, key, at);
      LessTotal(key, key);
      Placed(list, tails, key, at);
    }
    if Stops(cur, tails[at], key) { StopsHere(list, tails, key, at); }
    if Less(key, cur) {
      NextBeyond(list, tails, key, at);
    } else if Less(cur, key) && !Stops(cur, tails[at], key) {
      if Below(list, tails, key, at) { NextBelow(list, tails, key, at); } else { StillBeyond(list, key, at); }
    }
  }

  /** The key is found before anything stops the search. */
  lemma Placed(list: seq<MapEntry>, tails: Bytes, key: Bytes, i: nat)
    requires Sorted(list) && |tails| == |list| && i < |list| && list[i].key == key
    requires Below(list, tails, key, i) || Beyond(list, key, i)
    ensures !Missed(list, tails, key)
  {
    hide Less, Sorted, Missed, Below;
    assert Holds(list, key);
    StopsBefore(list, tails, key, i);
  }

  lemma {:induction false} Turn(list: seq<MapEntry>, tails: Bytes, key: Bytes, past: byte, at: nat, prefixed: bool)
    requires Sorted(list) && |tails| == |list| && at < |list|
    requires prefixed == Prefixed(PackList(list))
    requires Below(list, tails, key, at) || Beyond(list, key, at)
    requires Offset(list, key, at, prefixed) <= |key|
    ensures TurnOk(list, tails, key, past, at, prefixed, PackList(list)[at])
  {
    hide Less, Shared, Sorted, Holds, Missed, Below, Beyond, Stops, LastKey, PackList, ByteOr;
    var prev, cur := LastKey(list[..at]), list[at].key;
    var e := PackList(list)[at];
    PackedAt(list, at);
    LastKeyAt(list, at);
    assert !prefixed ==> e.kprefix == 0;
    var koffset := Offset(list, key, at, prefixed);
    if e.kprefix > koffset {
      TurnSkips(list, tails, key, at);
    } else if koffset > e.kprefix {
      TurnEnds(list, tails, key, at);
    } else {
      TurnCompares(list, tails, key, past, at, koffset);
    }
  }
}
