/** A file split into chunks of equal size, each in a file of its own. */
module RolledFiles {
  import opened Types
  import opened Codec
  import opened PagedFile
  import opened FlatFiles
  import Growth

  /** One file of the operating system, open for appending or for writing anywhere. */
  class SingleFile {
    /** The pages on disk. */
    var content: seq<Page>
    /** The page at which a file open for writing is written next. */
    var cursor: nat
    var len: nat
    const base: nat
    const chunkSize: nat
    /** Every write goes to the end of the file, wherever the cursor is. */
    const appendOnly: bool

    /** The length kept beside the file is its real length. */
    ghost predicate Valid()
      reads this
    {
      len == PAGE_SIZE * |content|
    }

    constructor (base: nat, chunkSize: nat, appendOnly: bool)
      ensures Valid() && content == [] && cursor == 0
      ensures this.base == base && this.chunkSize == chunkSize && this.appendOnly == appendOnly
    {
      content, cursor, len := [], 0, 0;
      this.base, this.chunkSize, this.appendOnly := base, chunkSize, appendOnly;
    }

    /** Where the next write goes if nobody seeks. */
    function NextWrite(): nat
      reads this
    {
      if appendOnly then |content| else cursor
    }

    predicate Holds(pref: PRef) { base <= pref < base + chunkSize }

    /** Reading moves the cursor behind the page. A length that promises more than there is ends in an error. */
    method ReadPage(pref: PRef) returns (r: Result<Option<Page>>)
      requires (pref - base) % PAGE_SIZE == 0
      modifies this`cursor
      ensures !Holds(pref) ==> r == Err(Corrupted)
      ensures Holds(pref) && pref - base >= len ==> r == Ok(None)
      ensures Holds(pref) && pref - base < len ==>
        r == var page := ReadFlat(content, pref - base); if page.Some? then Ok(page) else Err(UnexpectedEof)
      ensures cursor ==
        if r.Ok? && r.value.Some? then PageNumber(pref - base) + 1
        else if r == Err(UnexpectedEof) then PageNumber(pref - base)
        else old(cursor)
    {
      if pref < base || pref >= base + chunkSize { return Err(Corrupted); }
      var pos := pref - base;
      if pos < len {
        cursor := PageNumber(pos);
        if cursor >= |content| { return Err(UnexpectedEof); }
        cursor := cursor + 1;
        return Ok(Some(content[PageNumber(pos)]));
      }
      r := Ok(None);
    }

    /** Writes without seeking and without looking at its chunk. */
    method AppendPage(page: Page)
      modifies this
      ensures content == WriteFlat(old(content), old(NextWrite()), page) && cursor == old(NextWrite()) + 1
      ensures len == old(len) + PAGE_SIZE
    {
      var at := NextWrite();
      content := WriteFlat(content, at, page);
      cursor := at + 1;
      len := len + PAGE_SIZE;
    }

    /** Seeks to the position of the page and writes there, or at the end if that is all the file allows. */
    method UpdatePage(page: Page) returns (r: Result<nat>)
      requires (PageSelf(page) - base) % PAGE_SIZE == 0
      modifies this
      ensures r.Ok? <==> Holds(PageSelf(page))
      ensures r.Ok? ==>
        var k := PageNumber(PageSelf(page) - base);
        var at := if appendOnly then |old(content)| else k;
        && content == WriteFlat(old(content), at, page) && cursor == at + 1
        && r.value == len == Max(old(len), PAGE_SIZE * (k + 1))
      ensures r.Err? ==> r.error == Corrupted && content == old(content) && len == old(len) && cursor == old(cursor)
    {
      hide PageSelf;
      var o := PageSelf(page);
      if o < base || o >= base + chunkSize { return Err(Corrupted); }
      var pos := o - base;
      cursor := PageNumber(pos);
      var at := NextWrite();
      content := WriteFlat(content, at, page);
      cursor := at + 1;
      len := Max(len, pos + PAGE_SIZE);
      r := Ok(len);
    }

    /** Cuts the file, or lets it grow by zero pages. The cursor stays where it is. */
    method Truncate(newLen: nat)
      requires newLen % PAGE_SIZE == 0
      modifies this
      ensures Valid() && len == newLen && cursor == old(cursor)
      ensures content == Resized(old(content), PageNumber(newLen))
    {
      len := newLen;
      content := Resized(content, PageNumber(newLen));
    }
  }

  function Resized(content: seq<Page>, pages: nat): (r: seq<Page>)
    ensures |r| == pages
  {
    if pages <= |content| then content[..pages] else content + seq(pages - |content|, i => ZeroPage())
  }

  // ---------------------------------------------------------------- chunks of a flat file

  /** With `p` pages to a chunk: the chunk of page `k`, its place there, and where a chunk begins. */
  function ChunkOf(k: nat, p: nat): nat requires p > 0 { k / p }
  function PlaceOf(k: nat, p: nat): nat requires p > 0 { k % p }
  function StartOf(c: nat, p: nat): nat { c * p }

  /** The chunk of a position in bytes, cut to the 16 bits of a chunk number. */
  function ChunkNumber(pos: nat, chunkSize: nat): nat requires chunkSize > 0 { pos / chunkSize % 0x1_0000 }

  function RestOf(pos: nat, chunkSize: nat): nat requires chunkSize > 0 { pos % chunkSize }

  /** The pages of a flat file that belong to chunk `c`. */
  function Chunk(flat: seq<Page>, p: nat, c: nat): seq<Page>
  {
    flat[Least(StartOf(c, p), |flat|)..Least(StartOf(c, p) + p, |flat|)]
  }

  function Least(a: nat, b: nat): (r: nat)
    ensures r <= a && r <= b
  {
    if a < b then a else b
  }

  lemma NothingBehind(flat: seq<Page>, p: nat, c: nat)
    requires |flat| <= StartOf(c, p)
    ensures Chunk(flat, p, c) == []
  {
  }

  lemma WrittenAtEnd(content: seq<Page>, at: nat, page: Page)
    ensures WriteFlat(content, at, page) == content + [page] <==> at == |content|
  {
  }

  lemma WrittenInside(content: seq<Page>, at: nat, page: Page)
    requires at < |content|
    ensures WriteFlat(content, at, page) == content[at := page]
  {
  }

  /** Page `k` is page `k - c * p` of chunk `c = k / p`. */
  lemma PageInChunk(k: nat, p: nat)
    requires p > 0
    ensures var c := ChunkOf(k, p); StartOf(c, p) <= k < StartOf(c, p) + p && (PAGE_SIZE * k) / (PAGE_SIZE * p) == c
    ensures (PAGE_SIZE * k) % (PAGE_SIZE * p) == PAGE_SIZE * PlaceOf(k, p)
    ensures PlaceOf(k, p) == k - StartOf(ChunkOf(k, p), p) < p
  {
    Growth.DivMod(k, p);
    var c, r := k / p, k % p;
    assert k == p * c + r;
    Scaled(k, p, c, r);
  }

  lemma Scaled(k: nat, p: nat, c: nat, r: nat)
    requires p > 0 && k == p * c + r && r < p
    ensures (PAGE_SIZE * k) / (PAGE_SIZE * p) == c && (PAGE_SIZE * k) % (PAGE_SIZE * p) == PAGE_SIZE * r
  {
    var m := PAGE_SIZE * p;
    assert PAGE_SIZE * k == m * c + PAGE_SIZE * r by { assert PAGE_SIZE * (p * c) == m * c; }
    Growth.DivModUnique(PAGE_SIZE * k, m, c, PAGE_SIZE * r);
    Quotient(PAGE_SIZE * k, m, c, PAGE_SIZE * r);
  }

  /** Chunks do not overlap: a larger chunk number begins where a smaller one has ended. */
  lemma ChunksInOrder(c: nat, d: nat, p: nat)
    requires c < d
    ensures StartOf(c, p) + p <= StartOf(d, p)
  {
    Growth.MulDistributes(p, d, c);
    Growth.MulAtLeast(p, d - c);
    assert p * d == d * p && p * c == c * p;
  }

  /** Page `k` lies in the range of chunk `k / p` and of no other. */
  lemma OneChunk(k: nat, p: nat, c: nat)
    requires p > 0
    ensures StartOf(c, p) <= k < StartOf(c, p) + p <==> c == ChunkOf(k, p)
  {
    hide ChunkOf, StartOf;
    PageInChunk(k, p);
    if c < ChunkOf(k, p) { ChunksInOrder(c, ChunkOf(k, p), p); }
    if c > ChunkOf(k, p) { ChunksInOrder(ChunkOf(k, p), c, p); }
  }

  /** Where a page lies relative to the beginning of its chunk. */
  lemma Relative(pref: PRef, start: nat, p: nat)
    requires pref % PAGE_SIZE == 0 && start <= PageNumber(pref) < start + p
    ensures PAGE_SIZE * start <= pref < PAGE_SIZE * start + PAGE_SIZE * p
    ensures (pref - PAGE_SIZE * start) % PAGE_SIZE == 0
    ensures PageNumber(pref - PAGE_SIZE * start) == PageNumber(pref) - start
  {
  }

  lemma RangeAppend(flat: seq<Page>, page: Page, a: nat, b: nat)
    requires a <= b
    ensures (flat + [page])[Least(a, |flat| + 1)..Least(b, |flat| + 1)] ==
            if a <= |flat| < b then flat[Least(a, |flat|)..Least(b, |flat|)] + [page]
              else flat[Least(a, |flat|)..Least(b, |flat|)]
  {
    var longer, lo, hi := flat + [page], Least(a, |flat|), Least(b, |flat|);
    assert longer[lo..hi] == flat[lo..hi];
    if a <= |flat| < b {
      assert longer[lo..hi + 1] == longer[lo..hi] + [longer[hi]];
    } else if |flat| < a {
      assert longer[|flat| + 1..|flat| + 1] == [];
    }
  }

  lemma RangeUpdate(flat: seq<Page>, k: nat, page: Page, a: nat, b: nat)
    requires a <= b && k < |flat|
    ensures var r := flat[Least(a, |flat|)..Least(b, |flat|)];
            && (a <= k < b ==> k - a < |r| && r[k - a] == flat[k])
            && flat[k := page][Least(a, |flat|)..Least(b, |flat|)] == if a <= k < b then r[k - a := page] else r
  {
  }

  lemma ChunkAppend(flat: seq<Page>, page: Page, p: nat, c: nat)
    requires p > 0
    ensures Chunk(flat + [page], p, c) ==
            if c == ChunkOf(|flat|, p) then Chunk(flat, p, c) + [page] else Chunk(flat, p, c)
    ensures c == ChunkOf(|flat|, p) ==> |Chunk(flat, p, c)| == PlaceOf(|flat|, p) == |flat| - StartOf(c, p)
  {
    hide ChunkOf, StartOf, PlaceOf;
    OneChunk(|flat|, p, c);
    PageInChunk(|flat|, p);
    RangeAppend(flat, page, StartOf(c, p), StartOf(c, p) + p);
  }

  lemma ChunkUpdate(flat: seq<Page>, k: nat, page: Page, p: nat, c: nat)
    requires p > 0 && k < |flat|
    ensures c == ChunkOf(k, p) ==>
      var i := PlaceOf(k, p); i == k - StartOf(c, p) && i < |Chunk(flat, p, c)| && Chunk(flat, p, c)[i] == flat[k]
    ensures Chunk(flat[k := page], p, c) ==
            if c == ChunkOf(k, p) then Chunk(flat, p, c)[PlaceOf(k, p) := page] else Chunk(flat, p, c)
  {
    hide ChunkOf, StartOf, PlaceOf;
    OneChunk(k, p, c);
    PageInChunk(k, p);
    RangeUpdate(flat, k, page, StartOf(c, p), StartOf(c, p) + p);
  }

  lemma RangeCut(flat: seq<Page>, n: nat, a: nat, b: nat)
    requires a <= b && n <= |flat|
    ensures var r, cut := flat[Least(a, |flat|)..Least(b, |flat|)], flat[..n][Least(a, n)..Least(b, n)];
            && (n <= a ==> cut == [])
            && (b <= n ==> cut == r)
            && (a <= n < b ==> n - a <= |r| && cut == r[..n - a])
  {
    assert flat[..n] == flat[0..n];
    if a <= n {
      SliceOfSlice(flat, 0, n, a, Least(b, n));
      if n < b {
        SliceOfSlice(flat, a, Least(b, |flat|), 0, n - a);
        assert flat[a..Least(b, |flat|)][..n - a] == flat[a..Least(b, |flat|)][0..n - a];
      }
    }
  }

  lemma ChunkCut(flat: seq<Page>, n: nat, p: nat, c: nat)
    requires p > 0 && n <= |flat|
    ensures c > ChunkOf(n, p) ==> Chunk(flat[..n], p, c) == []
    ensures c < ChunkOf(n, p) ==> Chunk(flat[..n], p, c) == Chunk(flat, p, c)
    ensures c == ChunkOf(n, p) ==>
      PlaceOf(n, p) <= |Chunk(flat, p, c)| && Chunk(flat[..n], p, c) == Chunk(flat, p, c)[..PlaceOf(n, p)]
  {
    hide ChunkOf, StartOf, PlaceOf;
    var e := ChunkOf(n, p);
    PageInChunk(n, p);
    if c < e { ChunksInOrder(c, e, p); }
    if c > e { ChunksInOrder(e, c, p); }
    RangeCut(flat, n, StartOf(c, p), StartOf(c, p) + p);
  }

  // ---------------------------------------------------------------- cursors

  /** Each chunk file has a cursor of its own; one that is not open yet will start at its beginning. */
  function CursorAt(cursors: map<nat, nat>, c: nat): nat { if c in cursors then cursors[c] else 0 }

  function AfterRead(cursors: map<nat, nat>, pages: nat, k: nat, p: nat): map<nat, nat>
    requires p > 0
  {
    if k < pages then cursors[ChunkOf(k, p) := PlaceOf(k, p) + 1] else cursors
  }

  function AfterWrite(cursors: map<nat, nat>, k: nat, p: nat): map<nat, nat>
    requires p > 0
  {
    cursors[ChunkOf(k, p) := PlaceOf(k, p) + 1]
  }

  // ---------------------------------------------------------------- the rolled file

  class RolledFile {
    var files: map<nat, SingleFile>
    var len: nat
    /** Pages to a chunk; the chunk size in bytes is a multiple of the page size. */
    const chunkPages: nat
    const appendOnly: bool
    /** The one file the chunks are meant to be. */
    ghost var flat: seq<Page>
    /** The cursor of every chunk file. */
    ghost var cursors: map<nat, nat>

    /** The file of chunk `c` holds the pages of that chunk of a flat file. */
    ghost predicate Holds(c: nat, flat: seq<Page>)
      requires c in files
      reads this`files, this`cursors, files[c]
    {
      && c in cursors && files[c].cursor == cursors[c]
      && c < 0x1_0000 && files[c].base == PAGE_SIZE * StartOf(c, chunkPages)
        && files[c].chunkSize == PAGE_SIZE * chunkPages
      && files[c].appendOnly == appendOnly && files[c].Valid() && files[c].content == Chunk(flat, chunkPages, c)
    }

    ghost predicate Whole(c: nat)
      requires c in files
      reads this, files[c]
    {
      Holds(c, flat)
    }

    ghost predicate Valid()
      reads this, files.Values
    {
      && chunkPages > 0 && len == PAGE_SIZE * |flat| && cursors.Keys == files.Keys
      && (forall c :: c in files ==> Whole(c))
      && (forall c, d :: c in files && d in files && c != d ==> files[c] != files[d])
      && (forall c :: 0 <= c && c !in files ==> |flat| <= StartOf(c, chunkPages))
    }

    /** Some chunk file is not the chunk it is meant to be. */
    ghost predicate Spoilt()
      reads this, files.Values
    {
      exists c :: c in files && files[c].content != Chunk(flat, chunkPages, c)
    }

    /** What is in the chunk files. */
    function Stored(): (r: map<nat, seq<Page>>)
      reads this, files.Values
    {
      map c | c in files :: files[c].content
    }

    lemma StoredIsChunked()
      ensures Valid() ==> Chunked(Stored(), flat, chunkPages)
      ensures Spoilt() ==> !Valid() && !Chunked(Stored(), flat, chunkPages)
    {
      hide Chunk, StartOf, ChunkOf, PlaceOf;
      if Valid() {
        forall c: nat ensures StoredIn(Stored(), c) == Chunk(flat, chunkPages, c) {
          if c in files { assert Whole(c); } else { NothingBehind(flat, chunkPages, c); }
        }
      }
      if c :| c in files && files[c].content != Chunk(flat, chunkPages, c) {
        assert !Whole(c) && StoredIn(Stored(), c) != Chunk(flat, chunkPages, c);
      }
    }

    constructor (chunkPages: nat, appendOnly: bool)
      requires chunkPages > 0
      ensures Valid() && flat == [] && this.chunkPages == chunkPages && this.appendOnly == appendOnly
      ensures files == map[] && cursors == map[]
    {
      files, len, flat, cursors := map[], 0, [], map[];
      this.chunkPages, this.appendOnly := chunkPages, appendOnly;
    }

    method ReadPage(pref: PRef) returns (r: Result<Option<Page>>)
      requires Valid() && pref % PAGE_SIZE == 0 && |flat| <= 0x1_0000 * chunkPages
      modifies this`cursors, files.Values
      ensures Valid() && r == Ok(ReadFlat(flat, pref))
      ensures cursors == AfterRead(old(cursors), |flat|, PageNumber(pref), chunkPages)
    {
      hide RolledFile.Valid, RolledFile.Whole, SingleFile.Valid, StartOf, ChunkOf, PlaceOf, ChunkNumber, RestOf;
      Lengths();
      if pref < len {
        ChunkOfOffset(pref, PAGE_SIZE * chunkPages);
        PageAt(pref);
        var chunk := ChunkNumber(pref, PAGE_SIZE * chunkPages);
        if chunk in files {
          r := ReadInChunk(chunk, pref);
          return;
        }
      }
      r := Ok(None);
    }

    method ReadInChunk(c: nat, pref: PRef) returns (r: Result<Option<Page>>)
      requires Valid() && c in files && pref % PAGE_SIZE == 0 && pref < len
      requires c == ChunkOf(PageNumber(pref), chunkPages)
      modifies this`cursors, files[c]
      ensures Valid() && r == Ok(ReadFlat(flat, pref))
      ensures cursors == old(cursors)[c := PlaceOf(PageNumber(pref), chunkPages) + 1]
    {
      hide Chunk, StartOf, ChunkOf, PlaceOf;
      PageAt(pref);
      r := files[c].ReadPage(pref);
      cursors := cursors[c := PlaceOf(PageNumber(pref), chunkPages) + 1];
      forall d | d in files ensures Whole(d) { assert old(Whole(d)); }
    }

    lemma Lengths()
      requires Valid()
      ensures len == PAGE_SIZE * |flat| && chunkPages > 0
    {
    }

    /** Every page is in the file of its chunk, at its place. */
    lemma PageAt(pref: PRef)
      requires Valid() && pref % PAGE_SIZE == 0 && pref < len
      ensures var c := ChunkOf(PageNumber(pref), chunkPages);
              && c in files && files[c].Valid() && files[c].base <= pref < files[c].base + files[c].chunkSize
              && (pref - files[c].base) % PAGE_SIZE == 0
              && PageNumber(pref - files[c].base) == PlaceOf(PageNumber(pref), chunkPages)
              && pref - files[c].base < files[c].len
              && ReadFlat(files[c].content, pref - files[c].base) == Some(flat[PageNumber(pref)])
    {
      hide Chunk, StartOf, ChunkOf, PlaceOf;
      var k := PageNumber(pref);
      PageInChunk(k, chunkPages);
      var c := ChunkOf(k, chunkPages);
      Relative(pref, StartOf(c, chunkPages), chunkPages);
      ChunkUpdate(flat, k, flat[k], chunkPages, c);
      assert c in files ==> Whole(c);
    }

    /** Opens the file of a chunk that has no pages yet. */
    method OpenChunk(c: nat, base: nat)
      requires Valid() && c !in files && c < 0x1_0000 && base == PAGE_SIZE * StartOf(c, chunkPages)
      modifies this`files, this`cursors
      ensures Valid() && c in files && files == old(files)[c := files[c]] && fresh(files[c])
      ensures cursors == old(cursors)[c := 0]
    {
      hide Chunk, StartOf, ChunkOf, PlaceOf;
      var chunk := new SingleFile(base, PAGE_SIZE * chunkPages, appendOnly);
      NothingBehind(flat, chunkPages, c);
      files, cursors := files[c := chunk], cursors[c := 0];
      forall d | d in files ensures Whole(d) {
        if d != c { assert old(Whole(d)); }
      }
    }

    /** Appends a page to the file of the last chunk. */
    method AppendToChunk(c: nat, page: Page)
      requires Valid() && c in files && c == ChunkOf(|flat|, chunkPages)
      modifies this`len, this`flat, this`cursors, files[c]
      ensures flat == old(flat) + [page]
      ensures
        if appendOnly || CursorAt(old(cursors), c) == PlaceOf(|old(flat)|, chunkPages)
        then Valid() && cursors == AfterWrite(old(cursors), |old(flat)|, chunkPages) else Spoilt()
    {
      hide Chunk, WriteFlat, StartOf, ChunkOf, PlaceOf;
      PageInChunk(|flat|, chunkPages);
      ChunkAppend(flat, page, chunkPages, c);
      assert Whole(c);
      WrittenAtEnd(files[c].content, files[c].NextWrite(), page);
      files[c].AppendPage(page);
      len := len + PAGE_SIZE;
      flat := flat + [page];
      cursors := AfterWrite(cursors, |old(flat)|, chunkPages);
      if files[c].content == old(files[c].content) + [page] {
        forall d | d in files && d != c ensures Holds(d, old(flat)) { assert old(Whole(d)); }
        WholeAgain(old(flat), |old(flat)|, page, c);
      } else {
        assert files[c].content != Chunk(flat, chunkPages, c);
      }
    }

    /** When page `k` was written to its chunk file and to no other, all chunks are what they are meant to be again. */
    lemma WholeAgain(before: seq<Page>, k: nat, page: Page, c: nat)
      requires chunkPages > 0 && c in files && k <= |before| && c == ChunkOf(k, chunkPages) && len == PAGE_SIZE * |flat|
      requires cursors.Keys == files.Keys
      requires flat == if k < |before| then before[k := page] else before + [page]
      requires Holds(c, flat) && forall d :: d in files && d != c ==> Holds(d, before)
      requires forall c, d :: c in files && d in files && c != d ==> files[c] != files[d]
      requires forall d :: 0 <= d && d !in files ==> |before| <= StartOf(d, chunkPages)
      ensures Valid()
    {
      hide Chunk, StartOf, ChunkOf, PlaceOf;
      StillWhole(before, k, page, c);
      forall d | d in files ensures Whole(d) {
        if d != c { OthersKept(before, k, page, d); }
      }
    }

    /** No chunk without a file has pages after one more page was written. */
    lemma StillWhole(before: seq<Page>, k: nat, page: Page, c: nat)
      requires chunkPages > 0 && c in files && k <= |before| && c == ChunkOf(k, chunkPages)
      requires forall d :: 0 <= d && d !in files ==> |before| <= StartOf(d, chunkPages)
      ensures forall d :: 0 <= d && d !in files ==>
              (if k < |before| then |before| else |before| + 1) <= StartOf(d, chunkPages)
    {
      forall d | 0 <= d && d !in files
        ensures (if k < |before| then |before| else |before| + 1) <= StartOf(d, chunkPages) {
        OneChunk(|before|, chunkPages, d);
      }
    }

    /** Opens a new chunk file when the last chunk is full. The chunk number is cut to 16 bits, so there must be
        room in 65536 chunks; see `AppendWraps`. The page goes to the end of the file if and only if the file is open
        for appending or its cursor happens to be there. */
    method AppendPage(page: Page) returns (r: Result<()>)
      requires Valid() && |flat| < 0x1_0000 * chunkPages
      modifies this, files.Values
      ensures r.Ok? && flat == old(flat) + [page] && fresh(files.Values - old(files.Values))
      ensures
        if appendOnly || CursorAt(old(cursors), ChunkOf(|old(flat)|, chunkPages)) == PlaceOf(|old(flat)|, chunkPages)
        then Valid() && cursors == AfterWrite(old(cursors), |old(flat)|, chunkPages) else Spoilt()
    {
      hide RolledFile.Valid, StartOf, ChunkOf, PlaceOf, ChunkNumber, RestOf;
      LastChunk();
      var chunkSize := PAGE_SIZE * chunkPages;
      var chunk := ChunkNumber(len, chunkSize);
      if RestOf(len, chunkSize) == 0 && chunk !in files {
        OpenChunk(chunk, len);
        OneMoreFile(old(files), chunk, files[chunk]);
      }
      if chunk in files {
        AppendToChunk(chunk, page);
        r := Ok(());
      } else {
        r := Err(Corrupted);
      }
    }

    lemma LastChunk()
      requires Valid() && |flat| < 0x1_0000 * chunkPages
      ensures chunkPages > 0
      ensures var chunk := ChunkNumber(len, PAGE_SIZE * chunkPages);
              && chunk == ChunkOf(|flat|, chunkPages) < 0x1_0000
              && (RestOf(len, PAGE_SIZE * chunkPages) == 0 ==>
                len == PAGE_SIZE * StartOf(chunk, chunkPages) && PlaceOf(|flat|, chunkPages) == 0)
              && (RestOf(len, PAGE_SIZE * chunkPages) != 0 ==> chunk in files)
              && (chunk in files <==> chunk in cursors)
    {
      PageInChunk(|flat|, chunkPages);
      ChunkNumberFits(|flat|, chunkPages);
    }

    /** At 65536 full chunks the computed chunk number is that of the first one, which is full and has its file. */
    lemma AppendWraps()
      requires Valid() && |flat| == 0x1_0000 * chunkPages
      ensures chunkPages > 0 && ChunkNumber(len, PAGE_SIZE * chunkPages) == 0
      ensures 0 in files && |files[0].content| == chunkPages
      ensures !(files[0].base <= len < files[0].base + files[0].chunkSize)
    {
      PageInChunk(|flat|, chunkPages);
      assert |flat| == chunkPages * 0x1_0000 + 0;
      Growth.DivModUnique(|flat|, chunkPages, 0x1_0000, 0);
      Quotient(|flat|, chunkPages, 0x1_0000, 0);
      assert Whole(0);
    }

    /** Writes a page at its own position, at most one behind the last. A file open for appending writes it at the end,
        which is right if and only if that is its position. */
    method UpdatePage(page: Page) returns (r: Result<nat>)
      requires Valid() && PageSelf(page) % PAGE_SIZE == 0 && PageNumber(PageSelf(page)) <= |flat|
      requires PageNumber(PageSelf(page)) < 0x1_0000 * chunkPages
      modifies this, files.Values
      ensures fresh(files.Values - old(files.Values)) && r == Ok(len)
      ensures var k := PageNumber(PageSelf(page));
        && flat == (if k < |old(flat)| then old(flat)[k := page] else old(flat) + [page])
        && (if !appendOnly || k == |old(flat)|
            then Valid() && cursors == AfterWrite(old(cursors), k, chunkPages) else Spoilt())
    {
      hide RolledFile.Valid, PageSelf, StartOf, ChunkOf, PlaceOf, ChunkNumber, RestOf;
      var offset, chunkSize := PageSelf(page), PAGE_SIZE * chunkPages;
      ChunkOfOffset(offset, chunkSize);
      var chunk := ChunkNumber(offset, chunkSize);
      if chunk !in files {
        OpenChunk(chunk, offset / chunkSize * chunkSize);
        OneMoreFile(old(files), chunk, files[chunk]);
      }
      if chunk in files {
        r := UpdateInChunk(chunk, page);
      } else {
        r := Err(Corrupted);
      }
    }

    /** The chunk number of a position and where that chunk begins. */
    lemma ChunkOfOffset(offset: PRef, chunkSize: nat)
      requires Valid() && offset % PAGE_SIZE == 0 && PageNumber(offset) < 0x1_0000 * chunkPages
      requires chunkSize == PAGE_SIZE * chunkPages
      ensures chunkSize > 0 && chunkPages > 0
      ensures offset / chunkSize == ChunkNumber(offset, chunkSize) == ChunkOf(PageNumber(offset), chunkPages) < 0x1_0000
      ensures offset / chunkSize * chunkSize == PAGE_SIZE * StartOf(offset / chunkSize, chunkPages)
    {
      hide RolledFile.Whole, StartOf, ChunkOf, PlaceOf;
      PageInChunk(PageNumber(offset), chunkPages);
      ChunkNumberFits(PageNumber(offset), chunkPages);
      StartInBytes(ChunkOf(PageNumber(offset), chunkPages), chunkPages);
    }

    method UpdateInChunk(c: nat, page: Page) returns (r: Result<nat>)
      requires Valid() && c in files && PageSelf(page) % PAGE_SIZE == 0
      requires PageNumber(PageSelf(page)) <= |flat| && c == ChunkOf(PageNumber(PageSelf(page)), chunkPages)
      modifies this`len, this`flat, this`cursors, files[c]
      ensures r == Ok(len)
      ensures var k := PageNumber(PageSelf(page));
        && flat == (if k < |old(flat)| then old(flat)[k := page] else old(flat) + [page])
        && (if !appendOnly || k == |old(flat)|
            then Valid() && cursors == AfterWrite(old(cursors), k, chunkPages) else Spoilt())
    {
      hide RolledFile.Valid, Chunk, PageSelf, WriteFlat, Max, StartOf, ChunkOf, PlaceOf;
      OneFileEach();
      var k := PageNumber(PageSelf(page));
      ghost var after := if k < |flat| then flat[k := page] else flat + [page];
      ChunkPlace(c, k, page);
      var written := WriteInChunk(c, page);
      match written
      case Err(e) => return Err(e);
      case Ok(n) =>
        len := Max(len, n + PAGE_SIZE * StartOf(c, chunkPages));
        flat := after;
        if !appendOnly || k == |old(flat)| {
          WholeAgain(old(flat), k, page, c);
        } else {
          assert files[c].content != Chunk(flat, chunkPages, c);
        }
        r := Ok(len);
    }

    lemma OneFileEach()
      requires Valid()
      ensures chunkPages > 0 && len == PAGE_SIZE * |flat| && cursors.Keys == files.Keys
      ensures forall c :: c in files ==> Whole(c)
      ensures forall c, d :: c in files && d in files && c != d ==> files[c] != files[d]
      ensures forall d :: 0 <= d && d !in files ==> |flat| <= StartOf(d, chunkPages)
    {
    }

    /** The write itself: one chunk file changes, all others hold what they held. */
    method WriteInChunk(c: nat, page: Page) returns (r: Result<nat>)
      requires Valid() && c in files && files[c].Holds(PageSelf(page))
      requires (PageSelf(page) - files[c].base) % PAGE_SIZE == 0
      modifies this`cursors, files[c]
      ensures var k := PageNumber(PageSelf(page) - files[c].base);
        var at := if appendOnly then |old(files[c].content)| else k;
        && files[c].content == WriteFlat(old(files[c].content), at, page) && files[c].cursor == at + 1
        && files[c].len == Max(old(files[c].len), PAGE_SIZE * (k + 1)) && r == Ok(files[c].len)
        && cursors == old(cursors)[c := at + 1]
      ensures forall d :: d in files && d != c ==> Holds(d, flat)
    {
      hide Chunk, PageSelf, WriteFlat, Max, StartOf;
      assert Whole(c) && forall d :: d in files ==> Whole(d);
      r := files[c].UpdatePage(page);
      cursors := cursors[c := files[c].cursor];
    }

    /** Where a page belongs in its chunk file, and when writing it makes the file the chunk it should be. */
    lemma ChunkPlace(c: nat, k: nat, page: Page)
      requires Valid() && c in files && PageSelf(page) % PAGE_SIZE == 0
      requires k == PageNumber(PageSelf(page)) <= |flat| && c == ChunkOf(k, chunkPages)
      ensures files[c].Holds(PageSelf(page)) && (PageSelf(page) - files[c].base) % PAGE_SIZE == 0
      ensures PageNumber(PageSelf(page) - files[c].base) == PlaceOf(k, chunkPages)
      ensures k == |flat| ==> |files[c].content| == PlaceOf(k, chunkPages)
      ensures
        var wanted := Chunk(if k < |flat| then flat[k := page] else flat + [page], chunkPages, c);
        var at := if appendOnly then |files[c].content| else PlaceOf(k, chunkPages);
        WriteFlat(files[c].content, at, page) == wanted <==> !appendOnly || k == |flat|
      ensures
        var after := if k < |flat| then flat[k := page] else flat + [page];
        var pages := |Chunk(after, chunkPages, c)|;
        && Max(files[c].len, PAGE_SIZE * (PlaceOf(k, chunkPages) + 1)) == PAGE_SIZE * pages
        && Max(len, PAGE_SIZE * pages + PAGE_SIZE * StartOf(c, chunkPages)) == PAGE_SIZE * |after|
    {
      hide Chunk, PageSelf, WriteFlat, StartOf, ChunkOf, PlaceOf;
      PageInChunk(k, chunkPages);
      Relative(PageSelf(page), StartOf(c, chunkPages), chunkPages);
      assert Whole(c);
      var content := files[c].content;
      WrittenAtEnd(content, |content|, page);
      if k < |flat| {
        ChunkUpdate(flat, k, page, chunkPages, c);
        WrittenInside(content, PlaceOf(k, chunkPages), page);
      } else {
        ChunkAppend(flat, page, chunkPages, c);
      }
      LengthAfter(flat, k, c, |Chunk(if k < |flat| then flat[k := page] else flat + [page], chunkPages, c)|);
    }

    /** Chunks other than the one of page `k` do not notice that it is written. */
    lemma OthersKept(before: seq<Page>, k: nat, page: Page, d: nat)
      requires chunkPages > 0 && k <= |before| && d != ChunkOf(k, chunkPages)
      ensures var after := if k < |before| then before[k := page] else before + [page];
              Chunk(after, chunkPages, d) == Chunk(before, chunkPages, d)
    {
      hide Chunk, StartOf, ChunkOf, PlaceOf;
      if k < |before| {
        ChunkUpdate(before, k, page, chunkPages, d);
      } else {
        ChunkAppend(before, page, chunkPages, d);
      }
    }

    /** The end of the chunk just written never lies behind the end of the file. */
    lemma LengthAfter(before: seq<Page>, k: nat, c: nat, pages: nat)
      requires chunkPages > 0 && k <= |before| && c == ChunkOf(k, chunkPages)
      requires k < |before| ==> pages == |Chunk(before, chunkPages, c)|
      requires k == |before| ==> pages == |Chunk(before, chunkPages, c)| + 1
      ensures k < |before| ==> PAGE_SIZE * pages + PAGE_SIZE * StartOf(c, chunkPages) <= PAGE_SIZE * |before|
      ensures k == |before| ==> PAGE_SIZE * pages + PAGE_SIZE * StartOf(c, chunkPages) == PAGE_SIZE * (|before| + 1)
    {
      PageInChunk(k, chunkPages);
    }

    /** Empties all chunk files behind a chunk, in whatever order the map yields them. */
    method EmptyBehind(chunk: nat)
      requires Valid()
      modifies files.Values
      ensures forall c :: c in files ==>
              files[c].Valid() && files[c].content == if c <= chunk then old(files[c].content) else []
      ensures forall c :: c in files ==> files[c].cursor == old(files[c].cursor)
    {
      hide Chunk, StartOf, ChunkOf, PlaceOf;
      var todo := files.Keys;
      assert forall c :: c in files ==> old(Whole(c));
      while todo != {}
        invariant todo <= files.Keys && forall c :: c in files ==> files[c].cursor == old(files[c].cursor)
        invariant forall c :: c in files ==>
                files[c].Valid() && files[c].content == if c in todo || c <= chunk then old(files[c].content) else []
      {
        var c :| c in todo;
        if c > chunk { files[c].Truncate(0); }
        todo := todo - {c};
      }
    }

    method Truncate(newLen: nat) returns (r: Result<()>)
      requires Valid() && PageNumber(newLen) <= |flat| && PageNumber(newLen) < 0x1_0000 * chunkPages
      modifies this`len, this`flat, files.Values
      ensures Valid() && (r.Ok? <==> newLen % PAGE_SIZE == 0)
      ensures flat == if r.Ok? then old(flat)[..PageNumber(newLen)] else old(flat)
    {
      hide Chunk, SingleFile.Valid, StartOf, ChunkOf, PlaceOf, ChunkNumber, RestOf;
      if newLen % PAGE_SIZE != 0 { return Err(Corrupted); }
      ghost var n := PageNumber(newLen);
      var chunkSize := PAGE_SIZE * chunkPages;
      CutPlace(newLen, chunkSize);
      CutChunks(ChunkNumber(newLen, chunkSize), RestOf(newLen, chunkSize), n);
      len := newLen;
      flat := flat[..n];
      assert forall c :: c in files ==> Whole(c);
      r := Ok(());
    }

    lemma CutPlace(newLen: nat, chunkSize: nat)
      requires Valid() && newLen % PAGE_SIZE == 0 && PageNumber(newLen) < 0x1_0000 * chunkPages
      requires chunkSize == PAGE_SIZE * chunkPages
      ensures chunkSize > 0 && ChunkNumber(newLen, chunkSize) == ChunkOf(PageNumber(newLen), chunkPages)
      ensures RestOf(newLen, chunkSize) == PAGE_SIZE * PlaceOf(PageNumber(newLen), chunkPages)
    {
      ChunkOfOffset(newLen, chunkSize);
      PageInChunk(PageNumber(newLen), chunkPages);
    }

    /** Leaves in every chunk file exactly the pages below `n`. */
    method CutChunks(chunk: nat, rest: nat, ghost n: nat)
      requires Valid() && n <= |flat| && chunk == ChunkOf(n, chunkPages) && rest == PAGE_SIZE * PlaceOf(n, chunkPages)
      modifies files.Values
      ensures forall c :: c in files ==> Holds(c, flat[..n])
    {
      hide Chunk, StartOf, ChunkOf, PlaceOf;
      assert forall c :: c in files ==> old(Whole(c));
      EmptyBehind(chunk);
      ChunkCut(flat, n, chunkPages, chunk);
      if chunk in files {
        files[chunk].Truncate(rest);
      }
      forall c | c in files ensures Holds(c, flat[..n]) {
        ChunkCut(flat, n, chunkPages, c);
      }
    }
  }

  lemma OneMoreFile(files: map<nat, SingleFile>, c: nat, chunk: SingleFile)
    requires c !in files
    ensures files[c := chunk].Values == files.Values + {chunk}
  {
    var more := files[c := chunk];
    forall x | x in files.Values ensures x in more.Values {
      var d :| d in files && files[d] == x;
      assert more[d] == x;
    }
    assert more[c] == chunk;
  }

  lemma ChunkNumberFits(k: nat, p: nat)
    requires p > 0 && k < 0x1_0000 * p
    ensures ChunkOf(k, p) < 0x1_0000
  {
  }

  lemma StartInBytes(c: nat, p: nat)
    ensures c * (PAGE_SIZE * p) == PAGE_SIZE * StartOf(c, p)
  {
  }

  // ---------------------------------------------------------------- whole runs

  /** Page positions, no gaps, and never more than 65536 chunks. */
  ghost predicate InReach(file: seq<Page>, op: PageOp, chunkPages: nat)
  {
    match op
    case Read(pref) => pref % PAGE_SIZE == 0
    case Append(_) => |file| < 0x1_0000 * chunkPages
    case Update(page) => PageSelf(page) % PAGE_SIZE == 0 && PageNumber(PageSelf(page)) <= |file|
      && PageNumber(PageSelf(page)) < 0x1_0000 * chunkPages
    case Truncate(len) => len % PAGE_SIZE == 0 && PageNumber(len) <= |file| && PageNumber(len) < 0x1_0000 * chunkPages
    case Flush => true
  }

  lemma {:induction false} StaysInReach(ops: seq<PageOp>, chunkPages: nat, n: nat)
    requires n <= |ops| && forall i :: 0 <= i < |ops| ==> InReach(Plain([], ops[..i]), ops[i], chunkPages)
    ensures |Plain([], ops[..n])| <= 0x1_0000 * chunkPages
  {
    if n > 0 {
      StaysInReach(ops, chunkPages, n - 1);
      assert ops[..n][..n - 1] == ops[..n - 1];
      assert InReach(Plain([], ops[..n - 1]), ops[n - 1], chunkPages);
    }
  }

  /** The cursors as long as every operation keeps the file flat. */
  function Cursors(ops: seq<PageOp>, p: nat): map<nat, nat>
    requires p > 0
  {
    if ops == [] then map[]
    else
      var front, op := ops[..|ops| - 1], ops[|ops| - 1];
      var before, file := Cursors(front, p), Plain([], front);
      match op
      case Read(pref) => AfterRead(before, |file|, PageNumber(pref), p)
      case Append(_) => AfterWrite(before, |file|, p)
      case Update(page) => AfterWrite(before, PageNumber(PageSelf(page)), p)
      case Truncate(_) => before
      case Flush => before
  }

  /** The operation does to the chunk files what it does to a flat file: an append needs a file open for appending or a
      cursor at the end of the last chunk, an update a file open for writing or a page behind the last. */
  predicate KeepsFlat(ops: seq<PageOp>, op: PageOp, p: nat, appendOnly: bool)
    requires p > 0
  {
    var file := Plain([], ops);
    match op
    case Append(_) => appendOnly || CursorAt(Cursors(ops, p), ChunkOf(|file|, p)) == PlaceOf(|file|, p)
    case Update(page) => !appendOnly || PageNumber(PageSelf(page)) == |file|
    case Read(_) => true
    case Truncate(_) => true
    case Flush => true
  }

  /** Only appended to, or only written at positions. */
  predicate Pure(ops: seq<PageOp>, appendOnly: bool)
  {
    forall i :: 0 <= i < |ops| ==> if appendOnly then !ops[i].Update? else !ops[i].Append?
  }

  lemma PureRunsKeepFlat(ops: seq<PageOp>, n: nat, p: nat, appendOnly: bool)
    requires p > 0 && n < |ops|
    ensures Pure(ops, appendOnly) ==> KeepsFlat(ops[..n], ops[n], p, appendOnly)
  {
  }

  lemma PlainOfNothing(p: nat)
    requires p > 0
    ensures Plain([], []) == [] && Cursors([], p) == map[]
  {
  }

  /** The pages in the file of chunk `c`. */
  function StoredIn(stored: map<nat, seq<Page>>, c: nat): seq<Page> { if c in stored then stored[c] else [] }

  /** The chunk files are the chunks of the flat file and nothing else. */
  ghost predicate Chunked(stored: map<nat, seq<Page>>, flat: seq<Page>, p: nat)
  {
    forall c: nat :: StoredIn(stored, c) == Chunk(flat, p, c)
  }

  /** For every chunk size and either way of opening the files, as long as every operation `KeepsFlat` a file split into
      chunks answers like one flat file and no access reaches the wrong chunk file. The first operation that does not
      leaves something else in the chunk files. Files open for appending that are never updated, and files open for
      writing that are never appended to, stay flat through every run. */
  method RunRolled(chunkPages: nat, appendOnly: bool, ops: seq<PageOp>)
    returns (answers: seq<Option<Page>>, stored: map<nat, seq<Page>>)
    requires chunkPages > 0 && forall i :: 0 <= i < |ops| ==> InReach(Plain([], ops[..i]), ops[i], chunkPages)
    ensures |answers| <= |ops|
    ensures forall i :: 0 <= i < |answers| ==> KeepsFlat(ops[..i], ops[i], chunkPages, appendOnly)
    ensures forall i :: 0 <= i < |answers| && ops[i].Read? ==> answers[i] == ReadFlat(Plain([], ops[..i]), ops[i].pref)
    ensures |answers| == |ops| ==> Chunked(stored, Plain([], ops), chunkPages)
    ensures |answers| < |ops| ==>
      var n := |answers|;
      !KeepsFlat(ops[..n], ops[n], chunkPages, appendOnly) && !Chunked(stored, Plain([], ops[..n + 1]), chunkPages)
    ensures Pure(ops, appendOnly) ==> |answers| == |ops|
  {
    hide RolledFile.Valid, RolledFile.Spoilt, RolledFile.Stored, InReach, Plain, Chunked, KeepsFlat,
      Cursors, ReadFlat;
    PlainOfNothing(chunkPages);
    var f := new RolledFile(chunkPages, appendOnly);
    answers := [];
    for n := 0 to |ops|
      invariant fresh(f) && fresh(f.files.Values) && f.chunkPages == chunkPages && f.appendOnly == appendOnly
      invariant f.Valid() && f.flat == Plain([], ops[..n]) && f.cursors == Cursors(ops[..n], chunkPages)
      invariant |answers| == n
      invariant forall i :: 0 <= i < n ==> KeepsFlat(ops[..i], ops[i], chunkPages, appendOnly)
      invariant forall i :: 0 <= i < n && ops[i].Read? ==> answers[i] == ReadFlat(Plain([], ops[..i]), ops[i].pref)
    {
      StaysInReach(ops, chunkPages, n);
      assert ops[..n + 1] == ops[..n] + [ops[n]];
      PureRunsKeepFlat(ops, n, chunkPages, appendOnly);
      var answer := RolledOp(f, ops[..n], ops[n]);
      f.StoredIsChunked();
      stored := f.Stored();
      if !KeepsFlat(ops[..n], ops[n], chunkPages, appendOnly) { return; }
      answers := answers + [answer];
    }
    f.StoredIsChunked();
    stored := f.Stored();
    assert ops[..|ops|] == ops;
  }

  method RolledOp(f: RolledFile, ghost ops: seq<PageOp>, op: PageOp) returns (answer: Option<Page>)
    requires f.Valid() && f.flat == Plain([], ops) && f.cursors == Cursors(ops, f.chunkPages)
    requires InReach(f.flat, op, f.chunkPages) && |f.flat| <= 0x1_0000 * f.chunkPages
    modifies f, f.files.Values
    ensures f.flat == Plain([], ops + [op]) && fresh(f.files.Values - old(f.files.Values))
    ensures
      if KeepsFlat(ops, op, f.chunkPages, f.appendOnly)
      then f.Valid() && f.cursors == Cursors(ops + [op], f.chunkPages) else f.Spoilt()
    ensures op.Read? ==> answer == ReadFlat(old(f.flat), op.pref)
  {
    hide RolledFile.Valid, PageSelf, StartOf, ChunkOf, PlaceOf, ChunkNumber, RestOf;
    answer := None;
    assert (ops + [op])[..|ops|] == ops;
    match op
    case Read(pref) =>
      var r := f.ReadPage(pref);
      match r { case Ok(page) => answer := page; case Err(_) => }
    case Append(page) => var _ := f.AppendPage(page);
    case Update(page) => var _ := f.UpdatePage(page);
    case Truncate(len) => var _ := f.Truncate(len);
    case Flush =>
  }

  // ---------------------------------------------------------------- two runs that do not stay flat

  function Update3(p: Page, q: Page, r: Page): seq<PageOp> { [Append(p), Append(q), Update(r)] }

  function Read3(p: Page, q: Page, r: Page): seq<PageOp> { [Append(p), Append(q), Read(0), Append(r)] }

  /** In files open for appending an updated page does not land where it belongs, whatever the size of the chunks. The
      file of a chunk with room for three pages puts it at its end, and the old page is read. */
  method UpdateWhileAppending(p: Page, q: Page, r: Page, chunkPages: nat)
      returns (answers: seq<Option<Page>>, stored: map<nat, seq<Page>>, answer: Result<Option<Page>>,
        content: seq<Page>)
    requires PageSelf(r) == 0 && chunkPages > 0
    ensures Plain([], Update3(p, q, r)) == [r, q]
    ensures |answers| == 2 && !Chunked(stored, [r, q], chunkPages)
    ensures answer == Ok(Some(p)) && content == [p, q, r]
  {
    hide PageSelf, Plain, KeepsFlat, Chunked, Cursors;
    UpdateIsNotAtEnd(p, q, r, chunkPages);
    var ops := Update3(p, q, r);
    answers, stored := RunRolled(chunkPages, true, ops);
    assert !KeepsFlat(ops[..2], ops[2], chunkPages, true);
    assert ops[..3] == ops;
    answer, content := UpdateInOneFile(p, q, r);
  }

  method UpdateInOneFile(p: Page, q: Page, r: Page) returns (answer: Result<Option<Page>>, content: seq<Page>)
    requires PageSelf(r) == 0
    ensures answer == Ok(Some(p)) && content == [p, q, r]
  {
    hide PageSelf;
    var f := new SingleFile(0, 3 * PAGE_SIZE, true);
    f.AppendPage(p);
    f.AppendPage(q);
    var _ := f.UpdatePage(r);
    answer := f.ReadPage(0);
    content := f.content;
  }

  /** In files open for writing, a page appended after a read does not land at the end, if all fit one chunk. It
      overwrites the page behind the one read. */
  method AppendAfterReading(p: Page, q: Page, r: Page, chunkPages: nat)
      returns (answers: seq<Option<Page>>, stored: map<nat, seq<Page>>, answer: Result<Option<Page>>,
        content: seq<Page>)
    requires chunkPages > 2
    ensures Plain([], Read3(p, q, r)) == [p, q, r]
    ensures |answers| == 3 && !Chunked(stored, [p, q, r], chunkPages)
    ensures answer == Err(UnexpectedEof) && content == [p, r]
  {
    hide Plain, KeepsFlat, Chunked, Cursors;
    CursorIsNotAtEnd(p, q, r, chunkPages);
    var ops := Read3(p, q, r);
    answers, stored := RunRolled(chunkPages, false, ops);
    assert !KeepsFlat(ops[..3], ops[3], chunkPages, false);
    assert ops[..4] == ops;
    answer, content := AppendInOneFile(p, q, r);
  }

  method AppendInOneFile(p: Page, q: Page, r: Page) returns (answer: Result<Option<Page>>, content: seq<Page>)
    ensures answer == Err(UnexpectedEof) && content == [p, r]
  {
    var f := new SingleFile(0, 3 * PAGE_SIZE, false);
    f.AppendPage(p);
    f.AppendPage(q);
    answer := f.ReadPage(0);
    f.AppendPage(r);
    answer := f.ReadPage(2 * PAGE_SIZE);
    content := f.content;
  }

  lemma UpdateIsNotAtEnd(p: Page, q: Page, r: Page, chunkPages: nat)
    requires PageSelf(r) == 0 && chunkPages > 0
    ensures var ops := Update3(p, q, r);
      && Plain([], ops) == [r, q]
      && (forall i :: 0 <= i < 3 ==> InReach(Plain([], ops[..i]), ops[i], chunkPages))
      && (forall i :: 0 <= i < 3 ==> (KeepsFlat(ops[..i], ops[i], chunkPages, true) <==> i < 2))
  {
    hide PageSelf, Cursors;
    var ops := Update3(p, q, r);
    AfterTwo(p, q);
    assert ops[..0] == [] && ops[..1] == [Append(p)] && ops[..2] == [Append(p), Append(q)] && ops[..3] == ops;
    assert Plain([], ops) == PlainNext(Plain([], ops[..2]), ops[2]);
  }

  lemma CursorIsNotAtEnd(p: Page, q: Page, r: Page, chunkPages: nat)
    requires chunkPages > 2
    ensures var ops := Read3(p, q, r);
      && Plain([], ops) == [p, q, r]
      && (forall i :: 0 <= i < 4 ==> InReach(Plain([], ops[..i]), ops[i], chunkPages))
      && (forall i :: 0 <= i < 4 ==> (KeepsFlat(ops[..i], ops[i], chunkPages, false) <==> i < 3))
  {
    AfterTwo(p, q);
    var ops := Read3(p, q, r);
    assert ops[..0] == [] && ops[..1] == [Append(p)] && ops[..2] == [Append(p), Append(q)] && ops[..4] == ops;
    assert ops[..3][..2] == ops[..2] && ops[..2][..1] == ops[..1];
    assert Plain([], ops[..3]) == [p, q];
    assert Cursors(ops[..1], chunkPages) == AfterWrite(map[], 0, chunkPages);
    assert Cursors(ops[..2], chunkPages) == AfterWrite(Cursors(ops[..1], chunkPages), 1, chunkPages);
    assert Cursors(ops[..3], chunkPages) == AfterRead(Cursors(ops[..2], chunkPages), 2, 0, chunkPages);
  }

  lemma AfterTwo(p: Page, q: Page)
    ensures Plain([], []) == [] && Plain([], [Append(p)]) == [p] && Plain([], [Append(p), Append(q)]) == [p, q]
  {
    var one := [Append(p)];
    assert one[..0] == [];
    assert Plain([], one) == PlainNext(Plain([], []), Append(p)) == [p];
    assert [Append(p), Append(q)][..1] == one;
  }
}
