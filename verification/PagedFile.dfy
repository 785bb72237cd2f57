/** Flat page files, as every layer below presents them, and the byte-stream appender on top. */
module PagedFile {
  import opened Types
  import opened Codec

  // ---------------------------------------------------------------- flat files

  function Flatten(pages: seq<Page>): (r: Bytes)
    ensures |r| == PAGE_SIZE * |pages|
  {
    if pages == [] then [] else Flatten(pages[..|pages| - 1]) + pages[|pages| - 1]
  }

  lemma FlattenPush(pages: seq<Page>, page: Page)
    ensures Flatten(pages + [page]) == Flatten(pages) + page
  {
    assert (pages + [page])[..|pages|] == pages;
  }

  lemma {:induction false} FlattenPrefix(pages: seq<Page>, longer: seq<Page>)
    requires pages <= longer
    ensures Flatten(pages) <= Flatten(longer)
  {
    if pages != longer {
      FlattenPrefix(pages, longer[..|longer| - 1]);
    }
  }

  /** Page number `k` occupies the bytes from `k * PAGE_SIZE` on. */
  lemma FlattenAt(pages: seq<Page>, k: nat)
    requires k < |pages|
    ensures Flatten(pages)[PAGE_SIZE * k..PAGE_SIZE * (k + 1)] == pages[k]
  {
    var upto := pages[..k + 1];
    assert upto[..k] == pages[..k];
    assert Flatten(upto) == Flatten(pages[..k]) + pages[k];
    FlattenPrefix(upto, pages);
    assert Flatten(pages)[..|Flatten(upto)|] == Flatten(upto);
    assert Flatten(upto)[PAGE_SIZE * k..] == pages[k];
  }

  lemma FlattenPiece(pages: seq<Page>, at: nat, n: nat)
    requires at / PAGE_SIZE < |pages| && at % PAGE_SIZE + n <= PAGE_SIZE
    ensures at + n <= |Flatten(pages)|
    ensures pages[at / PAGE_SIZE][at % PAGE_SIZE..at % PAGE_SIZE + n] == Flatten(pages)[at..at + n]
  {
    var k := at / PAGE_SIZE;
    FlattenAt(pages, k);
    SliceOfSlice(Flatten(pages), PAGE_SIZE * k, PAGE_SIZE * (k + 1), at % PAGE_SIZE, at % PAGE_SIZE + n);
  }

  lemma SliceGrows(s: Bytes, buf: Bytes, a: nat, b: nat)
    requires a <= b <= |buf|
    ensures (s + buf[..a]) + buf[a..b] == s + buf[..b]
  {
    assert buf[..b] == buf[..a] + buf[a..b];
  }

  lemma Slices(s: Bytes, a: nat, b: nat, c: nat)
    requires a <= b <= c <= |s|
    ensures s[a..c] == s[a..b] + s[b..c]
  {
  }

  lemma SliceOfPrefix(s: Bytes, longer: Bytes, a: nat, b: nat)
    requires s <= longer && a <= b <= |s|
    ensures longer[a..b] == s[a..b]
  {
    assert longer[..|s|] == s;
    assert longer[..|s|][a..b] == longer[a..b];
  }

  function ReadFlat(pages: seq<Page>, pref: PRef): Option<Page>
  {
    if pref / PAGE_SIZE < |pages| then Some(pages[pref / PAGE_SIZE]) else None
  }

  /** An append-only file with a background writer. `durable` has been synced and survives a crash. Of the pages in
      `pending`, which need not, the last `waiting` are still in the queue; the others have been written. */
  datatype QFile = QFile(durable: seq<Page>, pending: seq<Page>, waiting: nat) {
    function All(): seq<Page> { durable + pending }
    predicate Idle() { pending == [] && waiting == 0 }
    function Append(page: Page): QFile { QFile(durable, pending + [page], waiting + 1) }
    /** Waits until the queue has been written. */
    function Flush(): QFile { QFile(durable, pending, 0) }
    /** Makes sure of what has been written, and of nothing that is still queued. */
    function Sync(): QFile
    {
      var n := if waiting <= |pending| then |pending| - waiting else 0;
      QFile(durable + pending[..n], pending[n..], |pending| - n)
    }
    /** Cuts a file with nothing pending. */
    function Truncate(pages: nat): QFile
      requires pages <= |durable| && pending == []
    {
      Settled(durable[..pages])
    }
    /** What a crash may leave behind: the synced pages and any number of the others. */
    ghost predicate Leaves(image: seq<Page>) { durable <= image <= All() }
  }

  function Settled(pages: seq<Page>): QFile { QFile(pages, [], 0) }

  /** Syncing keeps the contents; after a flush it settles all of them. */
  lemma SyncSettles(q: QFile)
    ensures q.Sync().All() == q.All() && q.durable <= q.Sync().durable
    ensures q.waiting == 0 ==> q.Sync() == Settled(q.All())
  {
  }

  // ---------------------------------------------------------------- the appender

  predicate ZeroFrom(page: Page, from: nat) { forall i :: from <= i < PAGE_SIZE ==> page[i] == 0 }

  function Tail(page: Option<Page>, pos: PRef): Bytes { if page.Some? then page.value[..InPagePos(pos)] else [] }

  /** Full pages and a partial page, zero behind `pos`, that together spell the stream. */
  ghost predicate Spells(pages: seq<Page>, pos: PRef, page: Option<Page>, stream: Bytes)
  {
    && PageNumber(pos) == |pages|
    && (page.Some? <==> InPagePos(pos) != 0)
    && (page.Some? ==> ZeroFrom(page.value, InPagePos(pos)))
    && stream == Flatten(pages) + Tail(page, pos)
  }

  function Current(page: Option<Page>): Page { if page.Some? then page.value else ZeroPage() }

  lemma PieceFits(pages: seq<Page>, pos: PRef, page: Option<Page>, stream: Bytes, piece: Bytes)
    requires Spells(pages, pos, page, stream) && 0 < |piece| && InPagePos(pos) + |piece| < PAGE_SIZE
    ensures Spells(pages, pos + |piece|, Some(WriteAt(Current(page), InPagePos(pos), piece)), stream + piece)
  {
    var at, filled := InPagePos(pos), WriteAt(Current(page), InPagePos(pos), piece);
    assert InPagePos(pos + |piece|) == at + |piece| && PageNumber(pos + |piece|) == PageNumber(pos);
    assert filled[..at + |piece|] == Tail(page, pos) + piece;
  }

  lemma PieceFills(pages: seq<Page>, pos: PRef, page: Option<Page>, stream: Bytes, piece: Bytes)
    requires Spells(pages, pos, page, stream) && InPagePos(pos) + |piece| == PAGE_SIZE
    ensures Spells(pages + [WriteAt(Current(page), InPagePos(pos), piece)], pos + |piece|, None, stream + piece)
  {
    var at, filled := InPagePos(pos), WriteAt(Current(page), InPagePos(pos), piece);
    assert InPagePos(pos + |piece|) == 0 && PageNumber(pos + |piece|) == PageNumber(pos) + 1;
    assert filled == Tail(page, pos) + piece;
    FlattenPush(pages, filled);
  }

  class PagedFileAppender {
    var file: QFile
    var pos: PRef
    var page: Option<Page>
    /** Everything appended so far. */
    ghost var stream: Bytes

    ghost predicate Valid()
      reads this
    {
      pos < INVALID && Spells(file.All(), pos, page, stream)
    }

    /** The pages a reader sees: the file and the page being filled. */
    function Pages(): seq<Page>
      reads this
    {
      file.All() + if page.Some? then [page.value] else []
    }

    constructor (file: QFile, pos: PRef)
      ensures this.file == file && this.pos == pos && page == None
      ensures stream == Flatten(file.All())
      ensures pos == PAGE_SIZE * |file.All()| && pos < INVALID ==> Valid()
    {
      this.file, this.pos, this.page := file, pos, None;
      stream := Flatten(file.All());
    }

    /** One turn of the append loop: fill the current page, hand it over when full. */
    method AppendPiece(piece: Bytes) returns (r: Result<()>)
      requires Valid() && 0 < |piece| <= PAGE_SIZE - InPagePos(pos)
      modifies this
      ensures file.durable == old(file.durable) && old(file.pending) <= file.pending
      ensures r.Ok? <==> old(pos) + |piece| < INVALID
      ensures r.Ok? ==> Valid() && pos == old(pos) + |piece| && stream == old(stream) + piece
      ensures r.Err? ==> r.error == Panic
    {
      hide Spells, Flatten, WriteAt, ZeroPage;
      if page.None? { page := Some(ZeroPage()); }
      var at := InPagePos(pos);
      page := Some(WriteAt(page.value, at, piece));
      ghost var before := old(file.All());
      if at + |piece| == PAGE_SIZE {
        PieceFills(before, pos, old(page), stream, piece);
        file := file.Append(page.value);
        assert file.All() == before + [page.value];
      } else {
        PieceFits(before, pos, old(page), stream, piece);
      }
      if pos + |piece| >= INVALID { return Err(Panic); }
      pos := pos + |piece|;
      stream := stream + piece;
      if InPagePos(pos) == 0 { page := None; }
      r := Ok(());
    }

    method Append(buf: Bytes) returns (r: Result<PRef>)
      requires Valid()
      modifies this
      ensures file.durable == old(file.durable) && old(file.pending) <= file.pending
      ensures r.Ok? <==> old(pos) + |buf| < INVALID
      ensures r.Ok? ==> Valid() && r.value == pos == old(pos) + |buf| && stream == old(stream) + buf
      ensures r.Err? ==> r.error == Panic
    {
      hide Spells, Flatten;
      var wrote := 0;
      while wrote < |buf|
        invariant 0 <= wrote <= |buf|
        invariant Valid() && pos == old(pos) + wrote && stream == old(stream) + buf[..wrote]
        invariant file.durable == old(file.durable) && old(file.pending) <= file.pending
      {
        var space := if PAGE_SIZE - InPagePos(pos) < |buf| - wrote then PAGE_SIZE - InPagePos(pos) else |buf| - wrote;
        var piece := AppendPiece(buf[wrote..wrote + space]);
        if piece.Err? { return Err(piece.error); }
        SliceGrows(old(stream), buf, wrote, wrote + space);
        wrote := wrote + space;
      }
      assert buf[..wrote] == buf;
      r := Ok(pos);
    }

    method ReadPage(pref: PRef) returns (r: Option<Page>)
      requires Valid() && InPagePos(pref) == 0
      ensures r == ReadFlat(Pages(), pref)
    {
      if page.Some? && ThisPage(pref) == ThisPage(pos) { return Some(page.value); }
      r := ReadFlat(file.All(), pref);
    }

    /** One turn of the read loop: the bytes wanted from the page at `at`. */
    method ReadPiece(at: PRef, want: nat) returns (r: Result<Bytes>)
      requires Valid() && want > 0
      ensures var have := if PAGE_SIZE - InPagePos(at) < want then PAGE_SIZE - InPagePos(at) else want;
              && (r.Ok? <==> at < |Flatten(Pages())| && at + have < INVALID)
              && (r.Ok? ==> at + have <= |Flatten(Pages())| && r.value == Flatten(Pages())[at..at + have])
    {
      hide Valid, Flatten, Pages;
      var page := ReadPage(ThisPage(at));
      if page.None? { return Err(UnexpectedEof); }
      var offset := InPagePos(at);
      var have := if PAGE_SIZE - offset < want then PAGE_SIZE - offset else want;
      FlattenPiece(Pages(), at, have);
      if at + have >= INVALID { return Err(Panic); }
      r := Ok(page.value[offset..offset + have]);
    }

    /** Reads across page boundaries. Bytes after `pos` in the page being filled read as zero. */
    method Read(start: PRef, len: nat) returns (r: Result<Bytes>)
      requires Valid()
      ensures start + len <= |Flatten(Pages())| && start + len < INVALID ==>
              r == Ok(Flatten(Pages())[start..start + len])
      ensures len > 0 && (start + len > |Flatten(Pages())| || start + len >= INVALID) ==> r.Err?
    {
      hide Valid, Flatten, Pages;
      ghost var all := Flatten(Pages());
      var at, buf := start, [];
      while |buf| < len
        invariant |buf| <= len && at == start + |buf|
        invariant |buf| > 0 ==> at <= |all| && at < INVALID
        invariant at <= |all| ==> buf == all[start..at]
      {
        var piece :- ReadPiece(at, len - |buf|);
        Slices(all, start, at, at + |piece|);
        buf, at := buf + piece, at + |piece|;
      }
      r := Ok(buf);
    }

    /** What was appended is what a reader sees, up to the zero tail of the last page. */
    lemma StreamIsPrefix()
      requires Valid()
      ensures stream <= Flatten(Pages()) && |stream| == pos
      ensures |Flatten(Pages())| < pos + PAGE_SIZE
      ensures forall i :: pos <= i < |Flatten(Pages())| ==> Flatten(Pages())[i] == 0
    {
      if page.Some? {
        FlattenPush(file.All(), page.value);
        assert page.value == page.value[..InPagePos(pos)] + page.value[InPagePos(pos)..];
      } else {
        assert Pages() == file.All();
      }
    }

    /** Reading below the position returns exactly the appended bytes, whatever pages they lie on. */
    lemma StreamSlice(start: PRef, len: nat)
      requires Valid() && start + len <= |stream|
      ensures start + len <= |Flatten(Pages())| && start + len < INVALID
      ensures Flatten(Pages())[start..start + len] == stream[start..start + len]
    {
      StreamIsPrefix();
      SliceOfPrefix(stream, Flatten(Pages()), start, start + len);
    }

    /** On a page boundary the file holds everything appended. */
    lemma Aligned()
      requires Valid() && InPagePos(pos) == 0
      ensures pos < INVALID && page == None && Pages() == file.All() && stream == Flatten(file.All())
    {
    }

    /** Hands a partial page over, padded with its zero tail, and waits for the background writer. */
    method Flush() returns (r: Result<()>)
      requires Valid()
      modifies this
      ensures file.durable == old(file.durable) && old(file.All()) <= file.All()
      ensures InPagePos(old(pos)) == 0 ==> r.Ok? && file == old(file).Flush() && pos == old(pos)
      ensures InPagePos(old(pos)) == 0 ==> stream == old(stream)
      ensures r.Ok? ==> page == None && file.waiting == 0
      ensures r.Ok? ==> Valid() && InPagePos(pos) == 0 && stream == old(Flatten(Pages()))
    {
      hide Flatten;
      if page.Some? && InPagePos(pos) > 0 {
        FlattenPush(file.All(), page.value);
        assert file.Append(page.value).All() == file.All() + [page.value];
        file := file.Append(page.value);
        if pos + (PAGE_SIZE - InPagePos(pos)) >= INVALID { return Err(Panic); }
        pos := pos + (PAGE_SIZE - InPagePos(pos));
        stream := Flatten(file.All());
      } else {
        assert Pages() == file.All();
      }
      page := None;
      assert file.Flush().All() == file.All();
      file := file.Flush();
      r := Ok(());
    }

    method Sync()
      requires Valid()
      modifies this`file
      ensures Valid() && file == old(file).Sync() && file.All() == old(file.All())
    {
      SyncSettles(file);
      file := file.Sync();
    }

    /** Moves the position before the file refuses a length off a page boundary, and forgets to drop
        a partial page. Only a truncation with no partial page leaves a well-formed appender. */
    method Truncate(newLen: nat) returns (r: Result<()>)
      requires PageNumber(newLen) <= |file.durable| && file.Idle()
      modifies this
      ensures pos == newLen && page == old(page)
      ensures r.Ok? <==> newLen % PAGE_SIZE == 0
      ensures r.Ok? ==> file == Settled(old(file.durable)[..PageNumber(newLen)])
      ensures r.Ok? && newLen < INVALID ==> (Valid() <==> old(page) == None)
    {
      pos := newLen;
      if newLen % PAGE_SIZE != 0 { return Err(Corrupted); }
      file := file.Truncate(PageNumber(newLen));
      assert file.All() == file.durable;
      stream := Flatten(file.All());
      r := Ok(());
    }
  }
}
