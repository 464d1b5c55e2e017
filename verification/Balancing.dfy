/** Balancing a node of the sorted set (sset.c): the live entries are written, prefix-compressed, to
    the bytes of new blocks, and looked up there again. */
module Balancing {
  import opened Common
  import opened MemShared
  import opened Compaction
  import opened Bucket
  import opened BlockSearch

  /** What the blocks hold, entry by entry. */
  ghost function EntriesOf(blocks: seq<Block>): (r: seq<seq<Packed>>)
    reads set b | b in blocks
    ensures |r| == |blocks| && forall i | 0 <= i < |r| :: r[i] == blocks[i].entries
  {
    seq(|blocks|, i requires 0 <= i < |blocks| reads set b | b in blocks => blocks[i].entries)
  }

  ghost predicate AllValid(blocks: seq<Block>)
    reads set b | b in blocks, set b | b in blocks :: b.node
  {
    forall b | b in blocks :: b.Valid()
  }

  lemma AddBlock(blocks: seq<Block>, block: Block)
    ensures EntriesOf(blocks + [block]) == EntriesOf(blocks) + [block.entries]
    ensures AllValid(blocks) && block.Valid() ==> AllValid(blocks + [block])
  {
    hide Block.Valid;
  }

  lemma NoBlocksYet()
    ensures EntriesOf([]) == [] && AllValid([])
  {
  }

  /** __sset_node_balance: what the node holds, written to new blocks. Reading them back gives
      exactly the live entries, in ascending order of their keys; no block is empty or too large,
      and none could have taken the first entry of the next. */
  method Balance(iter: Merger) returns (blocks: seq<Block>)
    requires iter.Valid() && AllFit(iter.Pending())
    modifies iter
    ensures AllValid(blocks) && forall b | b in blocks :: fresh(b) && fresh(b.node)
    ensures var written := EntriesOf(blocks);
            && Sorted(DecodeAll(written)) && BlocksOk(written) && Canonical(written)
            && forall k :: Find(DecodeAll(written), k) == Live(old(iter.Pending()), k)
  {
    hide Delivers, AllFit, Takes, BlockOk, Live, Find, Sorted, PackList, Decode, Block.Valid, EntriesOf, AllValid,
         BlocksOk, Canonical, Merger.Valid, Merger.Pending, KPrefix.Valid, Total, DecodeAll, Progress;
    ghost var all, written := iter.Pending(), [];
    blocks := [];
    NoBlocksYet();
    NothingWritten();
    var kprefix := new KPrefix();
    var entry := iter.NextLive();
    Begins(all, entry, iter.Pending());
    while entry.Some?
      invariant iter.Valid() && kprefix.Valid() && fresh(kprefix) && fresh(kprefix.buffer)
      invariant written == EntriesOf(blocks) && AllValid(blocks)
      invariant forall b | b in blocks :: fresh(b) && fresh(b.node) && b.node != kprefix.buffer
      invariant Progress(all, DecodeAll(written), entry, iter.Pending()) && BlocksOk(written)
      invariant entry.Some? && written != [] ==> !Takes(written[|written| - 1], entry.value)
      invariant Canonical(written)
      decreases Total(iter.Pending()), if entry.Some? then 1 else 0
    {
      var block;
      block, entry := FillBlock(iter, kprefix, all, DecodeAll(written), entry.value);
      BlocksGrow(written, block.entries);
      DecodeGrows(written, block.entries);
      CanonicalGrows(written, block.entries);
      AddBlock(blocks, block);
      written, blocks := written + [block.entries], blocks + [block];
    }
    AllDelivered(all, DecodeAll(written), iter.Pending());
  }

  lemma NothingWritten()
    ensures DecodeAll([]) == [] && BlocksOk([]) && Canonical([])
  {
  }

  lemma CanonicalGrows(written: seq<seq<Packed>>, block: seq<Packed>)
    requires Canonical(written) && block == PackList(Decode(block))
    ensures Canonical(written + [block])
  {
    hide PackList, Decode;
  }

  lemma AllDelivered(all: seq<seq<MapEntry>>, list: seq<MapEntry>, rest: seq<seq<MapEntry>>)
    requires Progress(all, list, None, rest)
    ensures Sorted(list) && forall k :: Find(list, k) == Live(all, k)
  {
    hide Sorted, Find, Live;
  }

  /** The inner loop: one block takes entries until one does not fit or none is left. */
  method FillBlock(iter: Merger, kprefix: KPrefix, ghost all: seq<seq<MapEntry>>, ghost done: seq<MapEntry>,
                   first: MapEntry)
    returns (block: Block, entry: Option<MapEntry>)
    requires iter.Valid() && kprefix.Valid() && AllFit(all)
    requires Progress(all, done, Some(first), iter.Pending())
    modifies iter, kprefix, kprefix.buffer
    ensures iter.Valid() && kprefix.Valid() && fresh(block) && fresh(block.node) && block.Valid()
    ensures BlockOk(block.entries) && Decode(block.entries) != [] && Decode(block.entries)[0] == first
    ensures Progress(all, done + Decode(block.entries), entry, iter.Pending())
    ensures entry.Some? ==> !Takes(block.entries, entry.value)
    ensures block.entries == PackList(Decode(block.entries))
    ensures Total(iter.Pending()) <= Total(old(iter.Pending()))
    ensures entry.Some? ==> Total(iter.Pending()) < Total(old(iter.Pending()))
  {
    hide Progress, Delivers, AllFit, BlockOk, PackedSize, FitsAlone, Used, Merger.Pending, Merger.Valid, Total, Shared,
         Decode, LastKey, FullKey, Live, Find, PackList, Block.Valid, Fits32;
    kprefix.Reset();
    block := new Block();
    entry := Some(first);
    ghost var held := [];
    EntryIsLive(all, done, first, iter.Pending());
    TakesFirst(first);
    NothingDecoded();
    NothingPacked();
    assert done + held == done;
    while entry.Some?
      invariant iter.Valid() && kprefix.Valid() && block.Valid() && fresh(block) && fresh(block.node)
      invariant block.node != kprefix.buffer && held == Decode(block.entries) && block.entries == PackList(held)
      invariant Progress(all, done + held, entry, iter.Pending())
      invariant kprefix.Content() == LastKey(held)
      invariant Total(iter.Pending()) <= Total(old(iter.Pending()))
      invariant block.entries == [] ==> entry == Some(first)
      invariant block.entries != [] ==>
                  BlockOk(block.entries) && held[0] == first
                  && (entry.Some? ==> Total(iter.Pending()) < Total(old(iter.Pending())))
      decreases Total(iter.Pending()), if entry.Some? then 1 else 0
    {
      var e := entry.value;
      EntryIsLive(all, done + held, e, iter.Pending());
      var shared, prefix_key := kprefix.SharedWith(e.key);
      var p := Packed(shared, prefix_key, e.value);
      SmallEntry(LastKey(held), e);
      ghost var was := block.entries;
      var full := block.Append(p);
      if full {
        break;
      }
      Grown(was, e, p);
      PackListGrows(held, e);
      assert done + (held + [e]) == (done + held) + [e];
      ghost var rest := iter.Pending();
      entry := iter.NextLive();
      Continues(all, done + held, e, rest, entry, iter.Pending());
      held := held + [e];
    }
  }

  /** An entry that fits into an empty block has lengths of 32 bits. */
  lemma SmallEntry(before: Bytes, e: MapEntry)
    requires FitsAlone(e) && |e.key| <= 128
    ensures Fits32(Pack(before, e))
  {
    hide Shared;
  }

  // ------------------------------------------------------------------- reading back

  /** All entries of a block, fetched from its bytes. */
  method FetchAll(b: Block) returns (items: seq<Packed>)
    requires b.Valid()
    ensures items == b.entries
  {
    hide Block.Valid, KeyArea, ValueArea;
    NoAreas(b.entries);
    items := [];
    var item, pkey, pvalue := b.Fetch(HEAD, SIZE, 0);
    while item.Some?
      invariant |items| <= |b.entries| && items == b.entries[..|items|]
      invariant item == if |items| < |b.entries| then Some(b.entries[|items|]) else None
      invariant |items| < |b.entries| ==>
                  && pkey == HEAD + |KeyArea(b.entries[..|items| + 1])|
                  && pvalue == SIZE - |ValueArea(b.entries[..|items| + 1])|
      decreases |b.entries| - |items|
    {
      items := items + [item.value];
      item, pkey, pvalue := b.Fetch(pkey, pvalue, |items|);
    }
  }

  /** The bytes that balancing has written, fetched block by block: decoded, they are exactly the live
      entries, in ascending order of their keys. */
  method BalanceAndFetch(iter: Merger) returns (read: seq<seq<Packed>>)
    requires iter.Valid() && AllFit(iter.Pending())
    modifies iter
    ensures Sorted(DecodeAll(read)) && forall k :: Find(DecodeAll(read), k) == Live(old(iter.Pending()), k)
  {
    hide AllValid, EntriesOf, AllFit, Merger.Valid, Merger.Pending, Sorted, Find, Live, DecodeAll, Canonical, BlocksOk;
    var blocks := Balance(iter);
    read := FetchBlocks(blocks);
  }

  method FetchBlocks(blocks: seq<Block>) returns (read: seq<seq<Packed>>)
    requires AllValid(blocks)
    ensures read == EntriesOf(blocks)
  {
    hide Block.Valid;
    read := [];
    for i := 0 to |blocks|
      invariant AllValid(blocks) && read == EntriesOf(blocks)[..i]
    {
      assert blocks[i] in blocks;
      var items := FetchAll(blocks[i]);
      read := read + [items];
    }
  }

  // ------------------------------------------------------------------------- lookup

  lemma {:induction false} SortedBlock(written: seq<seq<Packed>>, i: nat)
    requires Sorted(DecodeAll(written)) && i < |written|
    ensures Sorted(Decode(written[i]))
    decreases |written|
  {
    hide Decode, Sorted;
    var init, last := written[..|written| - 1], written[|written| - 1];
    SortedParts(DecodeAll(init), Decode(last));
    if i < |init| { SortedBlock(init, i); }
  }

  /** __sset_node_lookup and __sset_block_lookup after balancing: `at` is the node the tree finds for the
      key, by the first keys of the blocks. A key that is not live is never found; a live one is found,
      with its value, if and only if it is not hidden in its block. */
  method Lookup(blocks: seq<Block>, at: int, key: Bytes, past_key: byte, past_block: byte,
                ghost all: seq<seq<MapEntry>>)
    returns (value: Option<Bytes>)
    requires AllValid(blocks) && Sorted(DecodeAll(EntriesOf(blocks))) && BlocksOk(EntriesOf(blocks))
             && Canonical(EntriesOf(blocks))
    requires forall k :: Find(DecodeAll(EntriesOf(blocks)), k) == Live(all, k)
    requires StartFresh(EntriesOf(blocks)) && at == Floor(EntriesOf(blocks), key)
    ensures Live(all, key).Some? ==> 0 <= at < |blocks|
    ensures value == if Live(all, key).Some? && !Hidden(Decode(EntriesOf(blocks)[at]), key)
                     then Some(Live(all, key).value.value) else None
  {
    hide Block.Valid, Sorted, Find, Live, DecodeAll, Decode, BlocksOk, PackList, Hidden, Floor, StartFresh;
    LookupAfterBalance(all, EntriesOf(blocks), key);
    if at < 0 {
      return None;
    }
    SortedBlock(EntriesOf(blocks), at);
    assert EntriesOf(blocks)[at] in EntriesOf(blocks) && blocks[at] in blocks;
    var cmp, found := Search(blocks[at], key, past_key, past_block);
    return if cmp == 0 then Some(found) else None;
  }
}
