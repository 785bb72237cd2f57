/** The page cache in front of a file, with eviction left open. */
module CachedFiles {
  import opened Types
  import opened Codec
  import opened PagedFile
  import opened FlatFiles

  class CachedFile {
    /** The file behind the cache, queued pages included. */
    var file: seq<Page>
    var cached: map<PRef, Page>
    var len: nat

    /** Every cached page is the page in the file, and the cache knows how long the file is. */
    ghost predicate Valid()
      reads this
    {
      && len == PAGE_SIZE * |file|
      && forall p :: p in cached ==> p % PAGE_SIZE == 0 && PageNumber(p) < |file| && cached[p] == file[PageNumber(p)]
    }

    constructor (file: seq<Page>)
      ensures Valid() && this.file == file && cached == map[]
    {
      this.file, cached, len := file, map[], PAGE_SIZE * |file|;
    }

    /** Caches a page; whatever is in `evict` drops out, be it the page itself. */
    method Cache(pref: PRef, page: Page, evict: set<PRef>)
      modifies this`cached
      ensures cached == map p | p in old(cached)[pref := page] && p !in evict :: old(cached)[pref := page][p]
    {
      var all := cached[pref := page];
      cached := map p | p in all && p !in evict :: all[p];
    }

    method ReadPage(pref: PRef, evict: set<PRef>) returns (r: Option<Page>)
      requires Valid() && pref % PAGE_SIZE == 0
      modifies this`cached
      ensures Valid() && r == ReadFlat(file, pref)
    {
      if pref in cached { return Some(cached[pref]); }
      r := ReadFlat(file, pref);
      if r.Some? { Cache(pref, r.value, evict); }
    }

    method AppendPage(page: Page, evict: set<PRef>)
      requires Valid()
      modifies this
      ensures Valid() && file == old(file) + [page]
    {
      var pref := len;
      Cache(pref, page, evict);
      len := Max(len, pref + PAGE_SIZE);
      file := file + [page];
    }

    /** The page goes to the position it carries. */
    method UpdatePage(page: Page, evict: set<PRef>)
      requires Valid() && PageSelf(page) % PAGE_SIZE == 0
      modifies this
      ensures Valid() && file == WriteFlat(old(file), PageNumber(PageSelf(page)), page)
    {
      hide PageSelf;
      var pref := PageSelf(page);
      Cache(pref, page, evict);
      len := Max(len, pref + PAGE_SIZE);
      file := WriteFlat(file, PageNumber(pref), page);
    }

    method Truncate(newLen: nat)
      requires Valid() && newLen % PAGE_SIZE == 0 && PageNumber(newLen) <= |file|
      modifies this
      ensures Valid() && file == old(file)[..PageNumber(newLen)]
    {
      len := newLen;
      cached := map p | p in cached && p < newLen :: cached[p];
      file := file[..PageNumber(newLen)];
    }

    method Flush()
      requires Valid()
      modifies this`cached
      ensures Valid() && cached == map[]
    {
      cached := map[];
    }
  }

  // ---------------------------------------------------------------- whole runs

  /** Positions are page boundaries and nothing is truncated to more than it has. */
  ghost predicate InOrder(file: seq<Page>, op: PageOp)
  {
    match op
    case Read(pref) => pref % PAGE_SIZE == 0
    case Update(page) => PageSelf(page) % PAGE_SIZE == 0
    case Truncate(len) => len % PAGE_SIZE == 0 && PageNumber(len) <= |file|
    case Append(_) => true
    case Flush => true
  }

  /** Whatever is evicted when, a cached file answers every read of every run like the file without a cache. */
  method RunCached(file: seq<Page>, ops: seq<PageOp>, evict: seq<set<PRef>>)
      returns (answers: seq<Option<Page>>, left: seq<Page>)
    requires |evict| == |ops| && forall i :: 0 <= i < |ops| ==> InOrder(Plain(file, ops[..i]), ops[i])
    ensures |answers| == |ops| && left == Plain(file, ops)
    ensures forall i :: 0 <= i < |ops| && ops[i].Read? ==> answers[i] == ReadFlat(Plain(file, ops[..i]), ops[i].pref)
  {
    hide CachedFile.Valid, InOrder, Plain;
    var c := new CachedFile(file);
    NothingDone(file);
    answers := [];
    for n := 0 to |ops|
      invariant fresh(c) && c.Valid() && c.file == Plain(file, ops[..n]) && |answers| == n
      invariant forall i :: 0 <= i < n && ops[i].Read? ==> answers[i] == ReadFlat(Plain(file, ops[..i]), ops[i].pref)
    {
      assert ops[..n + 1] == ops[..n] + [ops[n]];
      PlainPush(file, ops[..n], ops[n]);
      var answer := CachedOp(c, ops[n], evict[n]);
      answers := answers + [answer];
    }
    assert ops[..|ops|] == ops;
    left := c.file;
  }

  lemma NothingDone(file: seq<Page>)
    ensures Plain(file, []) == file
  {
  }

  method CachedOp(c: CachedFile, op: PageOp, evict: set<PRef>) returns (answer: Option<Page>)
    requires c.Valid() && InOrder(c.file, op)
    modifies c
    ensures c.Valid() && c.file == PlainNext(old(c.file), op)
    ensures op.Read? ==> answer == ReadFlat(old(c.file), op.pref)
  {
    hide CachedFile.Valid, PageSelf, WriteFlat;
    answer := None;
    match op
    case Read(pref) => answer := c.ReadPage(pref, evict);
    case Append(page) => c.AppendPage(page, evict);
    case Update(page) => c.UpdatePage(page, evict);
    case Truncate(len) => c.Truncate(len);
    case Flush => c.Flush();
  }
}
