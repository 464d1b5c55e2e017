/** reader.c over iovec.c: tokens, skips and fetches from a byte string that lies in chunks. */
module Reader {
  import opened Common
  import opened MemShared

  // ------------------------------------------------------------------ the iovec reader

  /** The bytes of the chunks from a position on. */
  function From(chunks: seq<Bytes>, ivec: nat, offset: nat): Bytes {
    if ivec < |chunks| && offset <= |chunks[ivec]| then chunks[ivec][offset..] + Joined(chunks[ivec + 1..]) else []
  }

  lemma RestOfChunk(chunks: seq<Bytes>, ivec: nat, offset: nat)
    requires ivec < |chunks| && offset <= |chunks[ivec]|
    ensures From(chunks, ivec, offset) == chunks[ivec][offset..] + From(chunks, ivec, |chunks[ivec]|)
  {
    assert chunks[ivec][|chunks[ivec]|..] == [];
  }

  lemma NextChunk(chunks: seq<Bytes>, ivec: nat)
    requires ivec < |chunks| && From(chunks, ivec, |chunks[ivec]|) != []
    ensures ivec + 1 < |chunks|
    ensures From(chunks, ivec, |chunks[ivec]|) == chunks[ivec + 1] + From(chunks, ivec + 1, |chunks[ivec + 1]|)
  {
    assert chunks[ivec][|chunks[ivec]|..] == [];
    var rest := chunks[ivec + 1..];
    assert rest != [] && rest[1..] == chunks[ivec + 2..];
    RestOfChunk(chunks, ivec + 1, 0);
    assert chunks[ivec + 1][0..] == chunks[ivec + 1];
  }

  class IovecReader {
    const chunks: seq<Bytes>
    var ivec: nat
    var offset: nat
    var avail: nat

    /** z_iovec_reader_open. */
    constructor (chunks: seq<Bytes>)
      requires forall c | c in chunks :: c != []
      ensures Valid() && Remaining() == Joined(chunks) && this.chunks == chunks
    {
      this.chunks := chunks;
      ivec, offset, avail := 0, 0, |Joined(chunks)|;
      new;
      assert forall i | 0 <= i < |chunks| :: chunks[i] in chunks;
      assert chunks != [] ==> chunks[0][0..] == chunks[0];
    }

    ghost predicate Valid()
      reads this
    {
      && (forall i | 0 <= i < |chunks| :: chunks[i] != [])
      && (if chunks == [] then avail == 0
          else ivec < |chunks| && offset <= |chunks[ivec]| && avail == |Remaining()|)
    }

    /** The bytes from the position of the reader on. */
    ghost function Remaining(): Bytes
      reads this
    {
      From(chunks, ivec, offset)
    }

    /** The chunk handed out last, up to the position of the reader. */
    ghost predicate JustRead(data: Bytes)
      reads this
    {
      |data| <= offset && ivec < |chunks| && offset <= |chunks[ivec]| && chunks[ivec][offset - |data|..offset] == data
    }

    /** __iovec_reader_next: what is left of the current chunk, or the next chunk. */
    method Next() returns (data: Bytes)
      requires Valid()
      modifies this
      ensures Valid() && old(Remaining()) == data + Remaining()
      ensures data == [] <==> old(Remaining()) == []
      ensures data != [] ==> JustRead(data)
    {
      hide From, Joined;
      if avail == 0 {
        NoChunks();
        return [];
      }
      NoChunks();
      RestOfChunk(chunks, ivec, offset);
      var chunk := |chunks[ivec]| - offset;
      if chunk > 0 {
        data := chunks[ivec][offset..];
        offset := offset + chunk;
        avail := avail - chunk;
        return;
      }
      NextChunk(chunks, ivec);
      ivec := ivec + 1;
      data := chunks[ivec];
      offset := |chunks[ivec]|;
      avail := avail - |chunks[ivec]|;
    }

    lemma NoChunks()
      requires Valid()
      ensures chunks == [] ==> Remaining() == []
    {
    }

    /** __iovec_reader_backup: the last bytes handed out are read again. */
    method Backup(count: nat, ghost data: Bytes)
      requires Valid() && count <= |data| && (data != [] ==> JustRead(data))
      modifies this
      ensures Valid() && Remaining() == data[|data| - count..] + old(Remaining())
    {
      if data != [] { BackupPart(count, data); }
      offset := offset - count;
      avail := avail + count;
    }

    lemma BackupPart(count: nat, data: Bytes)
      requires Valid() && JustRead(data) && 0 < |data| && count <= |data|
      ensures count <= offset
      ensures From(chunks, ivec, offset - count) == data[|data| - count..] + From(chunks, ivec, offset)
    {
      hide Joined;
      var c := chunks[ivec];
      assert c[offset - count..offset] == c[offset - |data|..offset][|data| - count..];
      assert c[offset - count..] == c[offset - count..offset] + c[offset..];
    }

    /** __iovec_reader_available. */
    method Available() returns (n: nat)
      requires Valid()
      ensures n == |Remaining()|
    {
      n := avail;
    }
  }

  // ----------------------------------------------------------------------- tokenize

  function IsTok(c: byte, tokens: Bytes): bool { c in tokens }

  /** The token of a whole string, byte after byte: separators at the front are passed over, the
      bytes up to the next separator are taken, and that separator is read too. `begun` tells
      whether the token has begun already. The result is the token and the bytes read. */
  function Scan(s: Bytes, tokens: Bytes, begun: bool): (Bytes, nat) {
    if s == [] then ([], 0)
    else if IsTok(s[0], tokens) then
      if begun then ([], 1)
      else
        var more := Scan(s[1..], tokens, false);
        (more.0, 1 + more.1)
    else
      var more := Scan(s[1..], tokens, true);
      ([s[0]] + more.0, 1 + more.1)
  }

  /** The token is what stands in the string behind `h` separators. */
  predicate Shape(s: Bytes, tokens: Bytes, h: nat, token: Bytes, n: nat) {
    && h + |token| <= n <= |s|
    && (forall i | 0 <= i < |token| :: token[i] == s[h + i])
    && (forall i | 0 <= i < h :: IsTok(s[i], tokens))
    && (forall b | b in token :: !IsTok(b, tokens))
    && (if n == h + |token| then n == |s| else n == h + |token| + 1 && IsTok(s[n - 1], tokens))
  }

  lemma ShapeSkips(s: Bytes, tokens: Bytes, h: nat, token: Bytes, n: nat)
    requires s != [] && IsTok(s[0], tokens) && Shape(s[1..], tokens, h, token, n)
    ensures Shape(s, tokens, h + 1, token, n + 1)
  {
    hide IsTok;
    var t := s[1..];
    assert forall i | 0 < i < |s| :: s[i] == t[i - 1];
    forall i | 0 <= i < |token| ensures token[i] == s[h + 1 + i] { assert token[i] == t[h + i]; }
  }

  lemma ShapeTakes(s: Bytes, tokens: Bytes, token: Bytes, n: nat)
    requires s != [] && !IsTok(s[0], tokens) && Shape(s[1..], tokens, 0, token, n)
    ensures Shape(s, tokens, 0, [s[0]] + token, n + 1)
  {
    hide IsTok;
    var t, longer := s[1..], [s[0]] + token;
    assert forall i | 0 < i < |s| :: s[i] == t[i - 1];
    forall i | 0 <= i < |longer| ensures longer[i] == s[0 + i] {
      if i > 0 { assert token[i - 1] == t[0 + (i - 1)]; }
    }
  }

  /** What that comes to: a run without separators, behind nothing but separators, that ends with
      one or with the string; and an empty token only if the string has nothing else. */
  lemma {:induction false} ScanShape(s: Bytes, tokens: Bytes, begun: bool) returns (h: nat)
    ensures var (token, n) := Scan(s, tokens, begun);
            && Shape(s, tokens, h, token, n) && s[h..h + |token|] == token
            && (begun ==> h == 0) && (!begun && token == [] ==> h == n == |s|)
  {
    hide IsTok, Shape;
    var token, n := Scan(s, tokens, begun).0, Scan(s, tokens, begun).1;
    h := 0;
    if s == [] {
      ShapeEnds(s, tokens);
    } else if IsTok(s[0], tokens) {
      if begun {
        ShapeEnds(s, tokens);
      } else {
        var later := ScanShape(s[1..], tokens, false);
        ShapeSkips(s, tokens, later, token, n - 1);
        h := later + 1;
      }
    } else {
      var later := ScanShape(s[1..], tokens, true);
      ShapeTakes(s, tokens, token[1..], n - 1);
      assert token == [s[0]] + token[1..];
    }
    ShapeSlice(s, tokens, h, token, n);
  }

  lemma ShapeEnds(s: Bytes, tokens: Bytes)
    requires s != [] ==> IsTok(s[0], tokens)
    ensures Shape(s, tokens, 0, [], if s == [] then 0 else 1)
  {
  }

  lemma ShapeSlice(s: Bytes, tokens: Bytes, h: nat, token: Bytes, n: nat)
    requires Shape(s, tokens, h, token, n)
    ensures h + |token| <= |s| && s[h..h + |token|] == token
  {
    var cut := s[h..h + |token|];
    assert forall i | 0 <= i < |token| :: cut[i] == s[h + i];
  }

  /** `got` is the token so far, `taken` bytes are read, and `more` is how it goes on. */
  predicate Continues(whole: (Bytes, nat), got: Bytes, taken: nat, more: (Bytes, nat)) {
    whole == (got + more.0, taken + more.1)
  }

  lemma Further(whole: (Bytes, nat), got: Bytes, taken: nat, more: (Bytes, nat), piece: Bytes, n: nat,
                later: (Bytes, nat))
    requires Continues(whole, got, taken, more) && Continues(more, piece, n, later)
    ensures Continues(whole, got + piece, taken + n, later)
  {
    assert got + (piece + later.0) == (got + piece) + later.0;
  }

  lemma AtStart(whole: (Bytes, nat))
    ensures Continues(whole, [], 0, whole)
  {
    assert [] + whole.0 == whole.0;
  }

  lemma AtEnd(whole: (Bytes, nat), got: Bytes, taken: nat, more: (Bytes, nat))
    requires Continues(whole, got, taken, more) && more.0 == []
    ensures whole == (got, taken + more.1)
  {
    assert got + [] == got;
  }

  lemma ScanOne(chunk: Bytes, rest: Bytes, p: nat, tokens: Bytes, begun: bool)
    requires p < |chunk|
    ensures if IsTok(chunk[p], tokens) && begun then Scan(chunk[p..] + rest, tokens, begun) == ([], 1)
            else Continues(Scan(chunk[p..] + rest, tokens, begun),
                           if IsTok(chunk[p], tokens) then [] else [chunk[p]], 1,
                           Scan(chunk[p + 1..] + rest, tokens, !IsTok(chunk[p], tokens)))
  {
    var s := chunk[p..] + rest;
    assert s[0] == chunk[p] && s[1..] == chunk[p + 1..] + rest;
    assert [] + Scan(s[1..], tokens, false).0 == Scan(s[1..], tokens, false).0;
  }

  /** The scan of `src + rest` has come to position `p`, the token being what lies from `start`. */
  predicate Scanning(whole: (Bytes, nat), src: Bytes, start: nat, p: nat, rest: Bytes, tokens: Bytes, begun: bool)
    requires start <= p <= |src|
  {
    Continues(whole, src[start..p], p, Scan(src[p..] + rest, tokens, begun))
  }

  lemma ScanBegins(src: Bytes, rest: Bytes, tokens: Bytes, begun: bool)
    ensures Scanning(Scan(src + rest, tokens, begun), src, 0, 0, rest, tokens, begun)
  {
    hide Scan;
    assert src[0..] == src && src[0..0] == [];
    AtStart(Scan(src + rest, tokens, begun));
  }

  /** A separator before the token. */
  lemma ScanSkips(whole: (Bytes, nat), src: Bytes, p: nat, rest: Bytes, tokens: Bytes)
    requires p < |src| && Scanning(whole, src, p, p, rest, tokens, false) && IsTok(src[p], tokens)
    ensures Scanning(whole, src, p + 1, p + 1, rest, tokens, false)
  {
    hide Scan, IsTok, Continues;
    ScanOne(src, rest, p, tokens, false);
    assert src[p..p] == [] && src[p + 1..p + 1] == [];
    Further(whole, [], p, Scan(src[p..] + rest, tokens, false), [], 1, Scan(src[p + 1..] + rest, tokens, false));
    NoBytes();
  }

  lemma NoBytes()
    ensures var none: Bytes := []; none + none == none
  {
  }

  /** A byte of the token. */
  lemma ScanTakes(whole: (Bytes, nat), src: Bytes, start: nat, p: nat, rest: Bytes, tokens: Bytes, begun: bool)
    requires start <= p < |src| && Scanning(whole, src, start, p, rest, tokens, begun) && !IsTok(src[p], tokens)
    ensures Scanning(whole, src, start, p + 1, rest, tokens, true)
  {
    hide Scan, IsTok, Continues;
    ScanOne(src, rest, p, tokens, begun);
    Further(whole, src[start..p], p, Scan(src[p..] + rest, tokens, begun), [src[p]], 1,
            Scan(src[p + 1..] + rest, tokens, true));
    assert src[start..p + 1] == src[start..p] + [src[p]];
  }

  /** The separator after the token. */
  lemma ScanStops(whole: (Bytes, nat), src: Bytes, start: nat, p: nat, rest: Bytes, tokens: Bytes)
    requires start <= p < |src| && Scanning(whole, src, start, p, rest, tokens, true) && IsTok(src[p], tokens)
    ensures whole == (src[start..p], p + 1)
  {
    hide Scan, IsTok, Continues;
    ScanOne(src, rest, p, tokens, true);
    AtEnd(whole, src[start..p], p, Scan(src[p..] + rest, tokens, true));
  }

  /** The end of the chunk. */
  lemma ScanPauses(whole: (Bytes, nat), src: Bytes, start: nat, rest: Bytes, tokens: Bytes, begun: bool)
    requires start <= |src| && Scanning(whole, src, start, |src|, rest, tokens, begun)
    ensures Continues(whole, src[start..], |src|, Scan(rest, tokens, begun))
  {
    hide Scan, Continues;
    assert src[|src|..] + rest == rest;
    assert src[start..] == src[start..|src|];
  }

  datatype Extent = Extent(offset: nat, length: nat)

  /** __memtok_step on one chunk: the extent after it, and whether the end of the token is still
      to come. */
  method MemTokStep(src: Bytes, tokens: Bytes, extent: Extent, ghost rest: Bytes) returns (after: Extent, notok: bool)
    requires extent.length == 0 ==> extent.offset == 0
    ensures extent.offset <= after.offset && extent.length <= after.length
    ensures after.length == 0 ==> notok
    ensures var offset, length := after.offset - extent.offset, after.length - extent.length;
            var whole := Scan(src + rest, tokens, extent.length > 0);
            && offset + length <= |src|
            && (notok ==>
                  && offset + length == |src|
                  && Continues(whole, src[offset..], |src|, Scan(rest, tokens, after.length > 0)))
            && (!notok ==> offset + length < |src| && whole == (src[offset..offset + length], offset + length + 1))
  {
    hide Scan, IsTok, Continues, Scanning;
    var p := 0;
    after := extent;
    ghost var whole := Scan(src + rest, tokens, extent.length > 0);
    ScanBegins(src, rest, tokens, extent.length > 0);
    if extent.length == 0 {
      while p < |src| && IsTok(src[p], tokens)
        invariant 0 <= p <= |src| && Scanning(whole, src, p, p, rest, tokens, false)
      {
        ScanSkips(whole, src, p, rest, tokens);
        p := p + 1;
      }
      after := after.(offset := p);
    }
    var start := p;
    while p < |src|
      invariant start <= p <= |src|
      invariant extent.length == 0 && p == start < |src| ==> !IsTok(src[p], tokens)
      invariant Scanning(whole, src, start, p, rest, tokens, extent.length > 0 || p > start)
    {
      if IsTok(src[p], tokens) {
        ScanStops(whole, src, start, p, rest, tokens);
        after := after.(length := after.length + (p - start));
        return after, false;
      }
      ScanTakes(whole, src, start, p, rest, tokens, extent.length > 0 || p > start);
      p := p + 1;
    }
    ScanPauses(whole, src, start, rest, tokens, extent.length > 0 || p > start);
    after := after.(length := after.length + (p - start));
    return after, true;
  }

  /** z_v_reader_tokenize. The result is that of the joined chunks, however they are cut. */
  method Tokenize(reader: IovecReader, tokens: Bytes) returns (slice: Bytes, nread: nat)
    requires reader.Valid()
    modifies reader
    ensures reader.Valid()
    ensures (slice, nread) == Scan(old(reader.Remaining()), tokens, false)
    ensures nread <= |old(reader.Remaining())| && reader.Remaining() == old(reader.Remaining())[nread..]
  {
    hide Scan, Continues, IovecReader.Valid, IovecReader.Remaining, IovecReader.JustRead;
    slice, nread := [], 0;
    var extent := Extent(0, 0);
    ghost var all := reader.Remaining();
    var buffer := reader.Next();
    AtStart(Scan(all, tokens, false));
    assert all[0..] == all;
    while |buffer| > 0
      invariant reader.Valid() && (buffer != [] ==> reader.JustRead(buffer))
      invariant nread <= |all| && all[nread..] == buffer + reader.Remaining()
      invariant extent.length == 0 ==> extent.offset == 0
      invariant Continues(Scan(all, tokens, false), slice, nread,
                          Scan(buffer + reader.Remaining(), tokens, extent.length > 0))
      invariant buffer == [] ==> reader.Remaining() == []
      decreases |all| - nread
    {
      ghost var rest := reader.Remaining();
      var after, notok := MemTokStep(buffer, tokens, extent, rest);
      var offset, length := after.offset - extent.offset, after.length - extent.length;
      var piece := buffer[offset..offset + length];
      assert notok ==> piece == buffer[offset..];
      ghost var whole, now := Scan(all, tokens, false), Scan(buffer + rest, tokens, extent.length > 0);
      extent := after;
      if extent.length > 0 {
        if notok { Further(whole, slice, nread, now, piece, |buffer|, Scan(rest, tokens, true)); }
        else { Finish(whole, slice, nread, now); }
        slice := slice + piece;
        if !notok {
          var last_read := offset + length + 1;
          reader.Backup(|buffer| - last_read, buffer);
          assert all[nread..][last_read..] == all[nread + last_read..];
          nread := nread + last_read;
          return;
        }
      } else {
        assert piece == [] && slice + piece == slice;
        Further(whole, slice, nread, now, piece, |buffer|, Scan(rest, tokens, false));
        extent := Extent(0, 0);
      }
      assert all[nread..][|buffer|..] == rest;
      nread := nread + |buffer|;
      buffer := reader.Next();
    }
    NothingLeft(tokens, extent.length > 0);
    AtEnd(Scan(all, tokens, false), slice, nread, ([], 0));
  }

  lemma Finish(whole: (Bytes, nat), got: Bytes, taken: nat, last: (Bytes, nat))
    requires Continues(whole, got, taken, last)
    ensures whole == (got + last.0, taken + last.1)
  {
  }

  lemma NothingLeft(tokens: Bytes, begun: bool)
    ensures Scan([], tokens, begun) == ([], 0)
  {
  }

  // ----------------------------------------------------------------- skip and fetch

  /** z_v_reader_skip: past `length` bytes, or to the end if there are fewer. */
  method Skip(reader: IovecReader, length0: nat) returns (ok: bool)
    requires reader.Valid()
    modifies reader
    ensures reader.Valid()
    ensures ok <==> length0 <= |old(reader.Remaining())|
    ensures reader.Remaining() == if ok then old(reader.Remaining())[length0..] else []
  {
    hide IovecReader.Valid, IovecReader.Remaining, IovecReader.JustRead;
    ghost var all, done: nat := reader.Remaining(), 0;
    var length: nat := length0;
    var data := reader.Next();
    assert all[0..] == all;
    while |data| < length
      invariant reader.Valid() && (data != [] ==> reader.JustRead(data))
      invariant done + length == length0 && done <= |all| && all[done..] == data + reader.Remaining()
      invariant data == [] ==> reader.Remaining() == []
      decreases |all| - done
    {
      if data == [] {
        return false;
      }
      assert all[done..][|data|..] == all[done + |data|..];
      length, done := length - |data|, done + |data|;
      data := reader.Next();
    }
    reader.Backup(|data| - length, data);
    assert all[done..][length..] == data[length..] + all[done..][|data|..];
    assert all[done..][length..] == all[length0..];
    return true;
  }

  /** What z_v_reader_fetch_fallback hands out of the string `s` whose first chunk has `first`
      bytes, and what it leaves. */
  function FetchOf(s: Bytes, length: nat, first: nat): (Option<Bytes>, Bytes)
    requires first <= |s|
  {
    if length <= |s| then (Some(s[..length]), s[length..]) else (None, s[first..])
  }

  /** z_v_reader_fetch_fallback. `first` is the length of the first chunk it is given. */
  method FetchFallback(reader: IovecReader, length0: nat) returns (r: Option<Bytes>, ghost first: nat)
    requires reader.Valid()
    modifies reader
    ensures reader.Valid() && first <= |old(reader.Remaining())|
    ensures first == 0 <==> old(reader.Remaining()) == []
    ensures (r, reader.Remaining()) == FetchOf(old(reader.Remaining()), length0, first)
  {
    hide IovecReader.Valid, IovecReader.Remaining, IovecReader.JustRead;
    ghost var all := reader.Remaining();
    var data := reader.Next();
    first := |data|;
    if |data| >= length0 {
      reader.Backup(|data| - length0, data);
      assert all[length0..] == data[length0..] + all[|data|..];
      assert all[..length0] == data[..length0];
      return Some(data[..length0]), first;
    }
    var length: nat := length0 - |data|;
    var available := reader.Available();
    if available < length {
      assert all[|data|..] == reader.Remaining();
      return None, first;
    }
    var buffer := data;
    while length > 0
      invariant reader.Valid() && |buffer| + length == length0 <= |all| && all == buffer + reader.Remaining()
      decreases length
    {
      data := reader.Next();
      if |data| >= length {
        ghost var rest := reader.Remaining();
        reader.Backup(|data| - length, data);
        assert all[length0..] == data[length..] + rest;
        assert all[..length0] == buffer + data[..length];
        return Some(buffer + data[..length]), first;
      }
      buffer := buffer + data;
      length := length - |data|;
    }
    assert all[..length0] == buffer && all[length0..] == reader.Remaining();
    return Some(buffer), first;
  }

  /** A fetch does not depend on how the string is cut if and only if the bytes asked for are
      there, or fewer than two are left: the failing path keeps the first chunk consumed. */
  lemma FetchIndependent(s: Bytes, length: nat)
    ensures (forall a, b | 0 < a <= |s| && 0 < b <= |s| :: FetchOf(s, length, a) == FetchOf(s, length, b))
            <==> length <= |s| || |s| <= 1
  {
    if length > |s| >= 2 {
      assert |FetchOf(s, length, 1).1| == |s| - 1 && |FetchOf(s, length, 2).1| == |s| - 2;
    }
  }
}
