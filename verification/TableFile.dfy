/** The hash table file: six-byte cells laid out over pages that carry their own position. */
module TableFiles {
  import opened Types
  import opened Codec
  import opened PagedFile

  const FIRST_PAGE_HEAD := 28
  const BUCKET_SIZE := 6
  const BUCKETS_PER_PAGE := 681
  const BUCKETS_FIRST_PAGE := 677

  // ---------------------------------------------------------------- addressing

  function TableOffset(bucket: nat): PRef
  {
    if bucket < BUCKETS_FIRST_PAGE then bucket * BUCKET_SIZE + FIRST_PAGE_HEAD
    else ((bucket - BUCKETS_FIRST_PAGE) / BUCKETS_PER_PAGE + 1) * PAGE_SIZE + bucket % BUCKETS_PER_PAGE * BUCKET_SIZE
  }

  /** The page `modify_bucket` logs for a bucket. */
  function LoggedPage(bucket: nat): PRef
  {
    if bucket < BUCKETS_FIRST_PAGE then 0
    else ((bucket - BUCKETS_FIRST_PAGE) / BUCKETS_PER_PAGE + 1) * PAGE_SIZE
  }

  function CellPage(bucket: nat): nat
  {
    if bucket < BUCKETS_FIRST_PAGE then 0 else (bucket - BUCKETS_FIRST_PAGE) / BUCKETS_PER_PAGE + 1
  }

  function CellPos(bucket: nat): (r: nat)
    ensures r + BUCKET_SIZE <= PAGE_PAYLOAD_SIZE
    ensures CellPage(bucket) == 0 ==> FIRST_PAGE_HEAD <= r
  {
    if bucket < BUCKETS_FIRST_PAGE then bucket * BUCKET_SIZE + FIRST_PAGE_HEAD
      else bucket % BUCKETS_PER_PAGE * BUCKET_SIZE
  }

  /** Page and position of a cell are those of its offset, and the page is the one that gets logged. */
  lemma OffsetSplits(bucket: nat)
    ensures PageNumber(TableOffset(bucket)) == CellPage(bucket)
    ensures InPagePos(TableOffset(bucket)) == CellPos(bucket)
    ensures ThisPage(TableOffset(bucket)) == LoggedPage(bucket) == CellPage(bucket) * PAGE_SIZE
  {
  }

  /** Cells follow each other six bytes apart, behind a header of 28 bytes on the first page; a page has 677 or 681 of
      them. */
  lemma OffsetsInOrder(bucket: nat)
    ensures TableOffset(0) == 28
    ensures bucket + 1 < 677 ==> TableOffset(bucket + 1) == TableOffset(bucket) + 6
    ensures bucket < 677 ==> TableOffset(bucket) == 28 + 6 * bucket
    ensures bucket >= 677 ==>
      && TableOffset(bucket) / 4096 == (bucket - 677) / 681 + 1 && TableOffset(bucket) % 4096 == bucket % 681 * 6
      && LoggedPage(bucket) == ((bucket - 677) / 681 + 1) * 4096
    ensures bucket < 677 ==> LoggedPage(bucket) == 0
  {
    OffsetSplits(bucket);
  }

  /** Cells of different buckets share no byte; in particular no two buckets have the same offset. */
  lemma CellsDisjoint(a: nat, b: nat)
    requires a != b
    ensures TableOffset(a) + BUCKET_SIZE <= TableOffset(b) || TableOffset(b) + BUCKET_SIZE <= TableOffset(a)
    ensures CellPage(a) == CellPage(b) ==>
            CellPos(a) + BUCKET_SIZE <= CellPos(b) || CellPos(b) + BUCKET_SIZE <= CellPos(a)
  {
    OffsetSplits(a);
    OffsetSplits(b);
    if CellPage(a) == CellPage(b) && CellPage(a) > 0 {
      SamePageCells(a, b);
    }
  }

  lemma SamePageCells(a: nat, b: nat)
    requires a != b && BUCKETS_FIRST_PAGE <= a && BUCKETS_FIRST_PAGE <= b
    requires (a - BUCKETS_FIRST_PAGE) / BUCKETS_PER_PAGE == (b - BUCKETS_FIRST_PAGE) / BUCKETS_PER_PAGE
    ensures a % BUCKETS_PER_PAGE != b % BUCKETS_PER_PAGE
  {
  }

  /** Cells stay clear of the header of the first page and of the trailer of every page. */
  lemma CellsInPayload(bucket: nat)
    ensures InPagePos(TableOffset(bucket)) + BUCKET_SIZE <= PAGE_PAYLOAD_SIZE
    ensures TableOffset(bucket) >= FIRST_PAGE_HEAD
  {
    OffsetSplits(bucket);
  }

  // ---------------------------------------------------------------- blank pages

  function InvalidCells(page: Page, head: nat, n: nat): Page
    requires head + n * BUCKET_SIZE <= PAGE_PAYLOAD_SIZE
  {
    if n == 0 then page else WritePRef(InvalidCells(page, head, n - 1), head + (n - 1) * BUCKET_SIZE, INVALID)
  }

  function Head(pos: PRef): nat { if pos == 0 then FIRST_PAGE_HEAD else 0 }
  function CellCount(pos: PRef): nat { if pos == 0 then BUCKETS_FIRST_PAGE else BUCKETS_PER_PAGE }

  function InvalidPage(pos: PRef): Page
  {
    InvalidCells(WritePRef(ZeroPage(), PAGE_PAYLOAD_SIZE, pos), Head(pos), CellCount(pos))
  }

  lemma {:induction false} InvalidCellsRead(page: Page, head: nat, n: nat, o: nat)
    requires head + n * BUCKET_SIZE <= PAGE_PAYLOAD_SIZE
    ensures PageSelf(InvalidCells(page, head, n)) == PageSelf(page)
    ensures o < n ==> ReadPRef(InvalidCells(page, head, n), head + o * BUCKET_SIZE) == INVALID
  {
    if n > 0 {
      InvalidCellsRead(page, head, n - 1, o);
      PRefReadBack(InvalidCells(page, head, n - 1), head + (n - 1) * BUCKET_SIZE, INVALID);
    }
  }

  lemma InvalidPageReads(pos: PRef, bucket: nat)
    requires pos <= INVALID
    ensures PageSelf(InvalidPage(pos)) == pos
    ensures pos == CellPage(bucket) * PAGE_SIZE ==> ReadPRef(InvalidPage(pos), CellPos(bucket)) == INVALID
  {
    PRefReadBack(ZeroPage(), PAGE_PAYLOAD_SIZE, pos);
    var o := if bucket < BUCKETS_FIRST_PAGE then bucket else bucket % BUCKETS_PER_PAGE;
    InvalidCellsRead(WritePRef(ZeroPage(), PAGE_PAYLOAD_SIZE, pos), Head(pos), CellCount(pos), o);
    if pos == CellPage(bucket) * PAGE_SIZE {
      assert CellPos(bucket) == Head(pos) + o * BUCKET_SIZE;
    }
  }

  /** A blank page byte by byte: zeros for the header and behind the cells, cells of ones, and its position. */
  lemma BlankPageBytes(pos: PRef, i: nat)
    requires pos <= INVALID && i < PAGE_SIZE
    ensures InvalidPage(pos)[i] ==
      if i >= 4090 then pos / Pow256(4095 - i) % 256
      else if (if pos == 0 then 28 <= i < 4090 else i < 4086) then 255 else 0
  {
    hide Pow256;
    FieldBytes(ZeroPage(), PAGE_PAYLOAD_SIZE, pos);
    InvalidCellsBytes(WritePRef(ZeroPage(), PAGE_PAYLOAD_SIZE, pos), Head(pos), CellCount(pos), i);
  }

  lemma {:induction false} InvalidCellsBytes(page: Page, head: nat, n: nat, i: nat)
    requires head + n * BUCKET_SIZE <= PAGE_PAYLOAD_SIZE && i < PAGE_SIZE
    ensures InvalidCells(page, head, n)[i] == if head <= i < head + n * BUCKET_SIZE then 255 else page[i]
  {
    hide BigEndian;
    if n > 0 {
      InvalidCellsBytes(page, head, n - 1, i);
      BytesInOrder(INVALID);
    }
  }

  method InvalidOffsetsPage(pos: PRef) returns (page: Page)
    ensures page == InvalidPage(pos)
  {
    page := WritePRef(ZeroPage(), PAGE_PAYLOAD_SIZE, pos);
    ghost var first := page;
    for o := 0 to CellCount(pos)
      invariant page == InvalidCells(first, Head(pos), o)
    {
      page := WritePRef(page, Head(pos) + o * BUCKET_SIZE, INVALID);
    }
  }

  // ---------------------------------------------------------------- table contents

  /** Every page carries its own position. */
  ghost predicate Shaped(file: seq<Page>)
  {
    PAGE_SIZE * |file| <= INVALID && forall i :: 0 <= i < |file| ==> PageSelf(file[i]) == PAGE_SIZE * i
  }

  /** What loading finds in the cell of a bucket; a missing page counts as an invalid cell. */
  function Cell(file: seq<Page>, bucket: nat): PRef
  {
    if CellPage(bucket) < |file| then ReadPRef(file[CellPage(bucket)], CellPos(bucket)) else INVALID
  }

  function Fill(file: seq<Page>, upto: nat): (r: seq<Page>)
    requires |file| <= upto
    ensures |r| == upto
    decreases upto - |file|
  {
    if |file| == upto then file else Fill(file, upto - 1) + [InvalidPage(PAGE_SIZE * (upto - 1))]
  }

  /** Writing a page at its own position, after filling a gap with blank pages. */
  function Updated(file: seq<Page>, page: Page): seq<Page>
  {
    var k := PageNumber(PageSelf(page));
    if k < |file| then file[k := page] else Fill(file, k) + [page]
  }

  /** The file after each page written by an update: blank pages for a gap one by one, then the page. */
  ghost predicate UpdateSteps(file: seq<Page>, page: Page, steps: seq<seq<Page>>)
  {
    var k := PageNumber(PageSelf(page));
    && |steps| == (if k > |file| then k - |file| else 0) + 1
    && steps[|steps| - 1] == Updated(file, page)
    && forall i :: 0 <= i < |steps| - 1 ==> steps[i] == Fill(file, |file| + i + 1)
  }

  /** The page as `flush` reads it: blank if the file does not have it yet. */
  function PageOrBlank(file: seq<Page>, k: nat): Page
  {
    if k < |file| then file[k] else InvalidPage(PAGE_SIZE * k)
  }

  function SetCell(file: seq<Page>, bucket: nat, link: PRef): seq<Page>
  {
    Updated(file, WritePRef(PageOrBlank(file, CellPage(bucket)), CellPos(bucket), link))
  }

  datatype Header = Header(buckets: nat, step: nat, sip0: u64, sip1: u64)

  function PageHeader(page: Page): Header
  {
    Header(ReadPRef(page, 0), ReadPRef(page, 6), ReadU64(page, 12), ReadU64(page, 20))
  }

  function WithHeader(page: Page, buckets: nat, step: nat, sip0: u64, sip1: u64): Page
  {
    WriteU64(WriteU64(WritePRef(WritePRef(page, 0, buckets), 6, step), 12, sip0), 20, sip1)
  }

  function SetHeader(file: seq<Page>, buckets: nat, step: nat, sip0: u64, sip1: u64): seq<Page>
  {
    Updated(file, WithHeader(PageOrBlank(file, 0), buckets, step, sip0, sip1))
  }

  lemma FillNothing(file: seq<Page>)
    ensures Fill(file, |file|) == file
  {
  }

  lemma FillNext(file: seq<Page>, n: nat)
    requires |file| <= n
    ensures Fill(file, n + 1) == Fill(file, n) + [InvalidPage(PAGE_SIZE * n)]
  {
  }

  lemma LastOfUpdate(file: seq<Page>, page: Page)
    ensures var k := PageNumber(PageSelf(page));
            Updated(file, page) == if k < |file| then file[k := page] else Fill(file, k) + [page]
  {
  }

  lemma {:induction false} FillShaped(file: seq<Page>, upto: nat)
    requires Shaped(file) && |file| <= upto && PAGE_SIZE * upto <= INVALID
    ensures Shaped(Fill(file, upto)) && file <= Fill(file, upto)
    ensures forall c :: Cell(Fill(file, upto), c) == Cell(file, c)
    decreases upto - |file|
  {
    if |file| < upto {
      FillShaped(file, upto - 1);
      InvalidPageReads(PAGE_SIZE * (upto - 1), 0);
      forall c ensures Cell(Fill(file, upto), c) == Cell(file, c) {
        InvalidPageReads(PAGE_SIZE * (upto - 1), c);
        assert Cell(Fill(file, upto - 1), c) == Cell(file, c);
      }
    }
  }

  lemma UpdatedShaped(file: seq<Page>, page: Page)
    requires Shaped(file) && PageSelf(page) % PAGE_SIZE == 0 && PageSelf(page) + PAGE_SIZE <= INVALID
    ensures Shaped(Updated(file, page)) && |file| <= |Updated(file, page)|
    ensures forall i :: 0 <= i < |file| && i != PageNumber(PageSelf(page)) ==> Updated(file, page)[i] == file[i]
    ensures PageNumber(PageSelf(page)) < |Updated(file, page)|
    ensures Updated(file, page)[PageNumber(PageSelf(page))] == page
    ensures |Updated(file, page)| ==
            if PageNumber(PageSelf(page)) < |file| then |file| else PageNumber(PageSelf(page)) + 1
  {
    if PageNumber(PageSelf(page)) >= |file| { FillShaped(file, PageNumber(PageSelf(page))); }
  }

  lemma BlankOrPage(file: seq<Page>, k: nat)
    requires Shaped(file) && PAGE_SIZE * (k + 1) <= INVALID
    ensures PageSelf(PageOrBlank(file, k)) == PAGE_SIZE * k
    ensures forall c :: CellPage(c) == k ==> ReadPRef(PageOrBlank(file, k), CellPos(c)) == Cell(file, c)
  {
    InvalidPageReads(PAGE_SIZE * k, 0);
    forall c | CellPage(c) == k ensures ReadPRef(PageOrBlank(file, k), CellPos(c)) == Cell(file, c) {
      InvalidPageReads(PAGE_SIZE * k, c);
    }
  }

  lemma PageOfFile(file: seq<Page>, k: nat)
    requires k < |file|
    ensures PageOrBlank(file, k) == file[k]
  {
  }

  /** Cells on a page other than the updated one keep their contents. */
  lemma UpdatedElsewhere(file: seq<Page>, page: Page, c: nat)
    requires Shaped(file) && PageSelf(page) % PAGE_SIZE == 0 && PageSelf(page) + PAGE_SIZE <= INVALID
    requires CellPage(c) != PageNumber(PageSelf(page))
    ensures Cell(Updated(file, page), c) == Cell(file, c)
  {
    var k := PageNumber(PageSelf(page));
    if k >= |file| { FillShaped(file, k); assert Cell(Fill(file, k), c) == Cell(file, c); }
  }

  /** Writing one cell changes that cell and nothing else. */
  lemma SetCellEffect(file: seq<Page>, bucket: nat, link: PRef)
    requires Shaped(file) && link <= INVALID && PAGE_SIZE * (CellPage(bucket) + 1) <= INVALID
    ensures Shaped(SetCell(file, bucket, link))
    ensures forall c :: Cell(SetCell(file, bucket, link), c) == if c == bucket then link else Cell(file, c)
    ensures |file| > 0 ==> PageHeader(SetCell(file, bucket, link)[0]) == PageHeader(file[0])
  {
    hide WritePRef, ReadPRef, ReadU64, Updated, PageOrBlank, Shaped, Cell;
    var k := CellPage(bucket);
    var page := PageOrBlank(file, k);
    var page' := WritePRef(page, CellPos(bucket), link);
    if k < |file| { PageOfFile(file, k); }
    BlankOrPage(file, k);
    PRefReadBack(page, CellPos(bucket), link);
    UpdatedShaped(file, page');
    forall c ensures Cell(SetCell(file, bucket, link), c) == if c == bucket then link else Cell(file, c) {
      SetCellAt(file, bucket, link, c);
    }
  }

  lemma SetCellAt(file: seq<Page>, bucket: nat, link: PRef, c: nat)
    requires Shaped(file) && link <= INVALID && PAGE_SIZE * (CellPage(bucket) + 1) <= INVALID
    ensures Cell(SetCell(file, bucket, link), c) == if c == bucket then link else Cell(file, c)
  {
    hide WritePRef, ReadPRef, ReadU64, Updated, PageOrBlank, Shaped;
    var k := CellPage(bucket);
    var page := PageOrBlank(file, k);
    var page' := WritePRef(page, CellPos(bucket), link);
    BlankOrPage(file, k);
    PRefReadBack(page, CellPos(bucket), link);
    UpdatedShaped(file, page');
    if CellPage(c) != k {
      UpdatedElsewhere(file, page', c);
    } else {
      if k < |file| { PageOfFile(file, k); }
      if c != bucket { CellsDisjoint(c, bucket); }
    }
  }

  lemma HeaderReadBack(page: Page, buckets: nat, step: nat, sip0: u64, sip1: u64)
    requires buckets <= INVALID && step <= INVALID
    ensures PageHeader(WithHeader(page, buckets, step, sip0, sip1)) == Header(buckets, step, sip0, sip1)
    ensures PageSelf(WithHeader(page, buckets, step, sip0, sip1)) == PageSelf(page)
    ensures forall q :: FIRST_PAGE_HEAD <= q && q + 6 <= PAGE_SIZE ==>
              ReadPRef(WithHeader(page, buckets, step, sip0, sip1), q) == ReadPRef(page, q)
  {
    var a := WritePRef(page, 0, buckets);
    var b := WritePRef(a, 6, step);
    var c := WriteU64(b, 12, sip0);
    PRefReadBack(page, 0, buckets);
    PRefReadBack(a, 6, step);
    U64ReadBack(b, 12, sip0);
    U64ReadBack(c, 20, sip1);
  }

  /** The header byte by byte: bucket count and step in six bytes each, the two words of the hash in eight. */
  lemma HeaderBytes(page: Page, buckets: nat, step: nat, sip0: u64, sip1: u64, i: nat)
    requires i < PAGE_SIZE
    ensures WithHeader(page, buckets, step, sip0, sip1)[i] ==
      if i < 6 then buckets / Pow256(5 - i) % 256
      else if i < 12 then step / Pow256(11 - i) % 256
      else if i < 20 then sip0 / Pow256(19 - i) % 256
      else if i < 28 then sip1 / Pow256(27 - i) % 256
      else page[i]
  {
    hide WritePRef, WriteU64, Pow256;
    var a := WritePRef(page, 0, buckets);
    var b := WritePRef(a, 6, step);
    var c := WriteU64(b, 12, sip0);
    FieldBytes(page, 0, buckets);
    FieldBytes(a, 6, step);
    FieldBytes(b, 12, sip0);
    FieldBytes(c, 20, sip1);
  }

  lemma WriteBack(page: Page, pos: nat, width: nat)
    requires pos + width <= PAGE_SIZE
    ensures WriteAt(page, pos, BigEndian(Value(page[pos..pos + width]), width)) == page
  {
    BigEndianOfValue(page[pos..pos + width]);
  }

  /** Writing the header a page already has leaves the page as it is. */
  lemma SameHeader(page: Page, buckets: nat, step: nat, sip0: u64, sip1: u64)
    requires PageHeader(page) == Header(buckets, step, sip0, sip1)
    ensures WithHeader(page, buckets, step, sip0, sip1) == page
  {
    WriteBack(page, 0, 6);
    WriteBack(page, 6, 6);
    WriteBack(page, 12, 8);
    WriteBack(page, 20, 8);
  }

  /** Writing the header changes the header and no cell. */
  lemma SetHeaderEffect(file: seq<Page>, buckets: nat, step: nat, sip0: u64, sip1: u64)
    requires Shaped(file) && buckets <= INVALID && step <= INVALID
    ensures var t := SetHeader(file, buckets, step, sip0, sip1);
            && Shaped(t) && |t| > 0
            && PageHeader(t[0]) == Header(buckets, step, sip0, sip1)
            && forall c :: Cell(t, c) == Cell(file, c)
  {
    var page := PageOrBlank(file, 0);
    var page' := WithHeader(page, buckets, step, sip0, sip1);
    BlankOrPage(file, 0);
    HeaderReadBack(page, buckets, step, sip0, sip1);
    UpdatedShaped(file, page');
    var t := SetHeader(file, buckets, step, sip0, sip1);
    forall c ensures Cell(t, c) == Cell(file, c) {
      if CellPage(c) != 0 { UpdatedElsewhere(file, page', c); }
    }
  }

  // ---------------------------------------------------------------- whole runs of a table file

  datatype Write = CellWrite(bucket: nat, link: PRef) | HeaderWrite(header: Header)

  ghost predicate Sane(w: Write)
  {
    match w
    case CellWrite(b, link) => link <= INVALID && PAGE_SIZE * (CellPage(b) + 1) <= INVALID
    case HeaderWrite(h) => h.buckets <= INVALID && h.step <= INVALID
  }

  ghost function AfterWrites(ws: seq<Write>): seq<Page>
    requires forall i :: 0 <= i < |ws| ==> Sane(ws[i])
  {
    if ws == [] then []
    else var file := AfterWrites(ws[..|ws| - 1]);
         match ws[|ws| - 1]
         case CellWrite(b, link) => SetCell(file, b, link)
         case HeaderWrite(h) => SetHeader(file, h.buckets, h.step, h.sip0, h.sip1)
  }

  function LastWrite(ws: seq<Write>, bucket: nat): PRef
  {
    if ws == [] then INVALID
    else var w := ws[|ws| - 1];
         if w.CellWrite? && w.bucket == bucket then w.link else LastWrite(ws[..|ws| - 1], bucket)
  }

  /** After any sequence of writes to an empty table file it is contiguous, every page knows its position,
      and each cell holds what was written to it last, or is invalid if nothing was. */
  lemma {:induction false} TableRun(ws: seq<Write>, bucket: nat)
    requires forall i :: 0 <= i < |ws| ==> Sane(ws[i])
    ensures Shaped(AfterWrites(ws)) && Cell(AfterWrites(ws), bucket) == LastWrite(ws, bucket)
  {
    if ws != [] {
      TableRun(ws[..|ws| - 1], bucket);
      var file := AfterWrites(ws[..|ws| - 1]);
      match ws[|ws| - 1]
      case CellWrite(b, link) => SetCellEffect(file, b, link);
      case HeaderWrite(h) => SetHeaderEffect(file, h.buckets, h.step, h.sip0, h.sip1);
    }
  }

  // ---------------------------------------------------------------- the file

  class TableFile {
    var file: seq<Page>
    var initializedUntil: PRef
    /** What the file contained since it was last synced, before what it contains now. */
    ghost var older: seq<seq<Page>>

    ghost predicate Valid()
      reads this`file, this`initializedUntil
    {
      Shaped(file) && initializedUntil == PAGE_SIZE * |file|
    }

    constructor (file: seq<Page>)
      requires Shaped(file)
      ensures Valid() && this.file == file && older == []
    {
      this.file, initializedUntil, older := file, PAGE_SIZE * |file|, [];
    }

    /** Refuses a page that does not carry its own position; in a valid table file there is none. */
    method ReadPage(pref: PRef) returns (r: Result<Option<Page>>)
      requires Valid() && InPagePos(pref) == 0
      ensures r == Ok(ReadFlat(file, pref))
    {
      var page := ReadFlat(file, pref);
      if page.Some? && PageSelf(page.value) != pref { return Err(Corrupted); }
      r := Ok(page);
    }

    /** `steps` lists the file after each page written. */
    method UpdatePage(page: Page) returns (ghost steps: seq<seq<Page>>)
      requires Valid() && PageSelf(page) % PAGE_SIZE == 0 && PageSelf(page) + PAGE_SIZE <= INVALID
      modifies this
      ensures Valid() && file == Updated(old(file), page)
      ensures UpdateSteps(old(file), page, steps) && older == old(older) + [old(file)] + steps[..|steps| - 1]
    {
      hide PageSelf, InvalidPage, Shaped, Fill, Updated;
      steps := [];
      FillNothing(file);
      var self, k := PageSelf(page), PageNumber(PageSelf(page));
      UpdatedShaped(file, page);
      if self >= PAGE_SIZE * |file| {
        while self > initializedUntil
          invariant |old(file)| <= |file| <= k && file == Fill(old(file), |file|)
          invariant initializedUntil == PAGE_SIZE * |file| && older == old(older)
          invariant |steps| == |file| - |old(file)|
          invariant forall i :: 0 <= i < |steps| ==>
                  |old(file)| + i + 1 <= k && steps[i] == Fill(old(file), |old(file)| + i + 1)
          decreases self - initializedUntil
        {
          var blank := InvalidOffsetsPage(initializedUntil);
          FillNext(old(file), |file|);
          file := file + [blank];
          initializedUntil := initializedUntil + PAGE_SIZE;
          steps := steps + [file];
        }
      }
      LastOfUpdate(old(file), page);
      initializedUntil := Max(initializedUntil, self + PAGE_SIZE);
      file := if k < |file| then file[k := page] else file + [page];
      steps := steps + [file];
      older := older + [old(file)] + steps[..|steps| - 1];
    }

    /** Makes sure of all pages written. */
    method Sync()
      modifies this`older
      ensures older == []
    {
      older := [];
    }

    method Truncate(newLen: nat) returns (r: Result<()>)
      requires Valid() && PageNumber(newLen) <= |file|
      modifies this
      ensures r.Ok? <==> newLen % PAGE_SIZE == 0
      ensures r.Ok? ==> Valid() && file == old(file)[..PageNumber(newLen)] && older == old(older) + [old(file)]
    {
      initializedUntil := newLen;
      if newLen % PAGE_SIZE != 0 { return Err(Corrupted); }
      older, file := older + [file], file[..PageNumber(newLen)];
      r := Ok(());
    }
  }

  /** Yields the cells in bucket order until the pages run out. */
  class BucketIterator {
    const file: TableFile
    var n: nat

    constructor (file: TableFile)
      ensures this.file == file && n == 0
    {
      this.file, n := file, 0;
    }

    method Next() returns (r: Option<PRef>)
      requires file.Valid()
      modifies this
      ensures CellPage(old(n)) < |file.file| ==> r == Some(Cell(file.file, old(n))) && n == old(n) + 1
      ensures CellPage(old(n)) >= |file.file| ==> r == None && n == old(n)
    {
      hide TableOffset, CellPage, CellPos, ReadPRef, Shaped;
      var offset := TableOffset(n);
      OffsetSplits(n);
      var page := file.ReadPage(ThisPage(offset));
      if page.Ok? && page.value.Some? {
        n := n + 1;
        return Some(ReadPRef(page.value.value, InPagePos(offset)));
      }
      r := None;
    }
  }
}
