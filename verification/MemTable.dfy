/** The in-memory index over data, link, table and log file. */
module MemTables {
  import opened Types
  import opened Codec
  import opened Growth
  import opened Index
  import opened Ledger
  import opened PagedFile
  import opened DataFiles
  import opened TableFiles
  import opened DirtyBits
  import opened Recovery

  /** The slot lists lie in the link file. */
  ghost predicate Stored(lists: Lists, contents: map<PRef, Payload>)
  {
    forall p :: p in lists ==> p in contents && contents[p] == Link(SlotsBytes(lists[p]))
  }

  /** Longer lists do not fit an envelope. */
  const LONGEST_LIST := 1_677_721

  lemma LinkLength(slots: seq<Slot>)
    ensures |Serialize(Link(SlotsBytes(slots)))| == 1 + 10 * |slots| && Encodable(Link(SlotsBytes(slots)))
  {
  }

  /** The link file has room for these slots. */
  predicate ListFits(slots: seq<Slot>, pos: PRef) { |slots| <= LONGEST_LIST && pos + 4 + 10 * |slots| < INVALID }

  /** The link file has room for every bucket, and for the padding behind them. */
  ghost predicate ViewFits(view: View, pos: PRef)
  {
    (forall b :: 0 <= b < |view| ==> |view[b]| <= LONGEST_LIST) && pos + Cost(view) + PAGE_SIZE + 7 < INVALID
  }

  lemma CostOfNothing(view: View)
    ensures Cost(view[..0]) == 0
  {
  }

  lemma ListOfViewFits(view: View, n: nat, start: PRef, pos: PRef)
    requires ViewFits(view, start) && n < |view| && pos <= start + Cost(view[..n])
    ensures ListFits(view[n], pos)
  {
    hide Cost;
    CostOfPrefix(view, n);
  }

  type FillTarget = n: int | 1 <= n <= 128 witness 1

  ghost predicate ListsSound(lists: Lists, refs: Refs, hasher: Hasher)
  {
    forall p :: p in lists ==> AllSound(lists[p], refs, hasher)
  }

  /** What the store was when it finished a batch. */
  datatype Saved = Saved(g: Params, hasher: Hasher, buckets: seq<Bucket>, view: View, index: map<Bytes, PRef>,
                         strays: set<nat>, rehashed: set<nat>, lists: Lists, links: map<PRef, Payload>, refs: Refs)

  ghost predicate WellStored(pages: seq<Page>, contents: map<PRef, Payload>)
  {
    |Flatten(pages)| < INVALID && Framed(Flatten(pages)) && Contains(Flatten(pages), contents)
  }

  /** The committed files hold all of it. */
  ghost predicate Remembers(c: Commit, s: Saved)
  {
    && s.g.Sound() && s.g.buckets == |s.buckets| == |s.view|
    && Indexes(s.view, s.g.logMod, s.g.step, s.refs, s.hasher, s.index, s.strays)
    && Proper(s.lists) && Stored(s.lists, s.links) && ListsSound(s.lists, s.refs, s.hasher)
    && Views(s.view, s.buckets, s.lists) && AllKnown(s.buckets, s.lists)
    && Recorded(s.buckets, {}, c.table, s.lists, {}, 0, s.rehashed)
    && 0 < |c.table| <= CellPage(s.g.buckets) + 1
    && PageHeader(c.table[0]) == Header(s.g.buckets, s.g.step, s.hasher.sip0, s.hasher.sip1)
    && WellStored(c.link, s.links) && WellStored(c.data, s.refs)
  }

  function Clamp(fillTarget: nat): FillTarget
  {
    if fillTarget > 128 then 128 else if fillTarget < 1 then 1 else fillTarget
  }

  function NonEmpty<T>(s: seq<T>): Option<seq<T>> { if |s| == 0 then None else Some(s) }

  lemma SplitPush(slots: seq<Slot>, m: nat, b: nat, i: nat)
    requires m > 0 && i < |slots|
    ensures slots[i].hash % m == b ==> Split(slots[..i + 1], m, b, true) == Split(slots[..i], m, b, true) + [slots[i]]
    ensures slots[i].hash % m == b ==> Split(slots[..i + 1], m, b, false) == Split(slots[..i], m, b, false)
    ensures slots[i].hash % m != b ==> Split(slots[..i + 1], m, b, true) == Split(slots[..i], m, b, true)
    ensures slots[i].hash % m != b ==> Split(slots[..i + 1], m, b, false) == Split(slots[..i], m, b, false) + [slots[i]]
  {
    assert slots[..i + 1][..i] == slots[..i];
  }

  lemma {:induction false} NothingMoves(slots: seq<Slot>, m: nat, b: nat)
    requires m > 0 && Split(slots, m, b, false) == []
    ensures Split(slots, m, b, true) == slots
  {
    hide Split;
    if slots == [] {
      SplitNone(m, b);
    } else {
      SplitLast(slots, m, b);
      NothingMoves(slots[..|slots| - 1], m, b);
      assert slots == slots[..|slots| - 1] + [slots[|slots| - 1]];
    }
  }

  /** Some slot leaves the bucket that is rehashed. */
  predicate Moves(view: View, g: Params)
  {
    g.step < Pow2(g.logMod) && g.step < |view| && |Split(view[g.step], Pow2(g.logMod + 1), g.step, false)| > 0
  }

  /** A growth step that moves slots forgets the reference of the bucket they leave; if nothing stays there, its slots,
      too. One that moves nothing logs nothing. */
  predicate Rehoused(view: View, g: Params, buckets: seq<Bucket>, logged: set<PRef>, logged': set<PRef>)
  {
    if Moves(view, g)
    then g.step < |buckets|
      && buckets[g.step] == Bucket(INVALID, NonEmpty(Split(view[g.step], Pow2(g.logMod + 1), g.step, true)))
    else logged' == logged
  }

  lemma RehousedAt(view: View, g: Params, buckets: seq<Bucket>, logged: set<PRef>, logged': set<PRef>)
    requires g.step < |view| && g.step < |buckets| && g.step < Pow2(g.logMod)
    requires var m, slots := Pow2(g.logMod + 1), view[g.step];
             if |Split(slots, m, g.step, false)| > 0
               then buckets[g.step] == Bucket(INVALID, NonEmpty(Split(slots, m, g.step, true)))
             else logged' == logged
    ensures Rehoused(view, g, buckets, logged, logged')
  {
  }

  /** Only `step` and `logMod` matter, and a further bucket does not. */
  lemma RehousedPush(view: View, g: Params, h: Params, buckets: seq<Bucket>, logged: set<PRef>, logged': set<PRef>)
    requires h.logMod == g.logMod && h.step == g.step
    requires if g.step < Pow2(g.logMod) then Rehoused(view, h, buckets, logged, logged') else logged' == logged
    ensures Rehoused(view, g, buckets + [EMPTY], logged, logged')
  {
  }

  predicate WillGrow(hash: u32, fillTarget: FillTarget, forget: nat, g: Params)
  {
    forget == 0 && hash % fillTarget == 0 && g.CanGrow()
  }

  /** What `put` does beside changing the map: the growth policy, what becomes of a bucket whose new slot moves on at
      once, and which pages are logged when the bucket at `step` is empty. */
  predicate PutEffect(hash: u32, fillTarget: FillTarget, forget: nat, g: Params, view: View, logged: set<PRef>,
                      forget': nat, g': Params, buckets': seq<Bucket>, logged': set<PRef>)
  {
    var b := BucketFor(g.logMod, g.step, hash);
    && forget' == (if forget > 0 then forget - 1 else 0)
    && g' == (if WillGrow(hash, fillTarget, forget, g) then g.Grow() else g)
    && (WillGrow(hash, fillTarget, forget, g) && b == g.step < Pow2(g.logMod) && hash % Pow2(g.logMod + 1) != b ==>
          b < |buckets'| && buckets'[b].stored == INVALID && buckets'[b].slots != Some([]))
    && (b != g.step && g.step < |view| && view[g.step] == [] ==> logged' <= logged + {LoggedPage(b)})
  }

  /** The effect of a put, from the effects of its two halves. */
  lemma PutHalves(hash: u32, fillTarget: FillTarget, forget: nat, g: Params, view: View, logged: set<PRef>, slot: Slot,
                  mid: View, logged1: set<PRef>, forget': nat, g': Params, buckets': seq<Bucket>, logged': set<PRef>)
    requires g.Sound() && slot.hash == hash && |view| == |mid| == g.buckets
    requires var b := BucketFor(g.logMod, g.step, hash);
             && b < |view| && slot in mid[b] && logged1 <= logged + {LoggedPage(b)}
             && forall c :: 0 <= c < |view| && c != b ==> mid[c] == view[c]
    requires forget' == (if forget > 0 then forget - 1 else 0)
    requires g' == if WillGrow(hash, fillTarget, forget, g) then g.Grow() else g
    requires if WillGrow(hash, fillTarget, forget, g) then Rehoused(mid, g, buckets', logged1, logged')
            else logged' == logged1
    ensures PutEffect(hash, fillTarget, forget, g, view, logged, forget', g', buckets', logged')
  {
    hide BucketFor, Pow2, LoggedPage, Split, Params.Sound, Params.Grow;
    BucketsInRange(g, hash);
    SplitNone(Pow2(g.logMod + 1), g.step);
    var b := BucketFor(g.logMod, g.step, hash);
    if b == g.step && hash % Pow2(g.logMod + 1) != b {
      assert slot in Split(mid[b], Pow2(g.logMod + 1), b, false);
    }
  }

  /** Each slot that leaves bucket `b` under modulus `m` is listed under the bucket it goes to. */
  ghost predicate SortedOut(slots: seq<Slot>, m: nat, b: nat, moves: map<nat, seq<Slot>>)
    requires m > 0
  {
    forall c: nat {:trigger c in moves} ::
      && (c in moves <==> c != b && Split(slots, m, c, true) != [])
      && (c in moves ==> moves[c] == Split(slots, m, c, true))
  }

  lemma SortedOutNothing(m: nat, b: nat)
    requires m > 0
    ensures SortedOut([], m, b, map[])
  {
    hide Split;
    forall c: nat ensures Split([], m, c, true) == [] { SplitNone(m, c); }
  }

  lemma SortedOutPush(slots: seq<Slot>, m: nat, b: nat, i: nat, moves: map<nat, seq<Slot>>)
    requires m > 0 && i < |slots| && SortedOut(slots[..i], m, b, moves)
    ensures var c := slots[i].hash % m;
            var longer := moves[c := (if c in moves then moves[c] else []) + [slots[i]]];
            SortedOut(slots[..i + 1], m, b, if c == b then moves else longer)
  {
    hide Split;
    forall c: nat
      ensures Split(slots[..i + 1], m, c, true) ==
              Split(slots[..i], m, c, true) + if slots[i].hash % m == c then [slots[i]] else []
    {
      SplitPush(slots, m, c, i);
    }
  }

  /** Moving first and replacing the old bucket afterwards. */
  lemma ScatteredOtherwise(view: View, m: nat, b: nat, moves: map<nat, seq<Slot>>, mid: View)
    requires m > 0 && b < |view| == |mid| && SortedOut(view[b], m, b, moves)
    requires forall c :: 0 <= c < |view| ==> mid[c] == view[c] + if c in moves then moves[c] else []
    ensures var kept := NonEmpty(Split(view[b], m, b, true));
            Scattered(view, m, b) == mid[b := if kept.Some? then kept.value else []]
  {
    hide Split;
    var r := Scattered(view, m, b);
    forall c | 0 <= c < |view| && c != b ensures r[c] == mid[c] {
      if c !in moves { assert Split(view[b], m, c, true) == []; }
    }
  }

  lemma NothingScattered(view: View, m: nat, b: nat)
    requires m > 0 && b < |view| && |Split(view[b], m, b, false)| == 0
    ensures Scattered(view, m, b) == view
  {
    hide Split;
    NothingMoves(view[b], m, b);
    var r := Scattered(view, m, b);
    forall c | 0 <= c < |view| && c != b ensures r[c] == view[c] {
      NothingGoes(view[b], m, b, c);
    }
  }

  lemma {:induction false} NothingGoes(slots: seq<Slot>, m: nat, b: nat, c: nat)
    requires m > 0 && c != b && Split(slots, m, b, false) == []
    ensures Split(slots, m, c, true) == []
  {
    hide Split;
    if slots == [] {
      SplitNone(m, c);
    } else {
      SplitLast(slots, m, b);
      SplitLast(slots, m, c);
      NothingGoes(slots[..|slots| - 1], m, b, c);
    }
  }

  /** Where slots go, there are buckets. */
  lemma MovesInRange(slots: seq<Slot>, m: nat, b: nat, moves: map<nat, seq<Slot>>)
    requires m > 0 && SortedOut(slots, m, b, moves)
    ensures forall c :: c in moves ==> c < m
  {
    hide Split;
    forall c | c in moves ensures c < m {
      assert moves[c][0] in Split(slots, m, c, true);
      assert moves[c][0].hash % m == c;
    }
  }

  /** The bucket a growth step rehashes, if any. */
  function Rehashes(g: Params): set<nat> { if g.step < Pow2(g.logMod) then {g.step} else {} }

  /** Whether growth would rehash a bucket that may hold strays. */
  ghost predicate Derails(hash: u32, fillTarget: FillTarget, forget: nat, g: Params, strays: set<nat>)
  {
    WillGrow(hash, fillTarget, forget, g) && !Clean(g, strays)
  }

  /** What `get` answers for a view of the buckets. */
  function Answer(view: View, logMod: nat, step: nat, refs: Refs, hasher: Hasher, key: Bytes)
      : Result<Option<(PRef, Bytes)>>
  {
    var b := BucketFor(logMod, step, hasher.Of(key));
    if b >= |view| then Err(Corrupted)
    else var i := FirstHit(view[b], refs, hasher.Of(key), key, 0);
         Ok(if i < |view[b]| then Some((view[b][i].pref, refs[view[b][i].pref].data)) else None)
  }

  lemma NoHit(refs: Refs, hash: u32, key: Bytes)
    ensures FirstHit([], refs, hash, key, 0) == 0
  {
  }

  lemma ViewAt(view: View, buckets: seq<Bucket>, lists: Lists, n: nat)
    requires Views(view, buckets, lists) && n < |buckets|
    ensures n < |view| && view[n] == Logical(lists, buckets[n])
  {
  }

  lemma SoundIsNarrow(slots: seq<Slot>, refs: Refs, hasher: Hasher)
    requires AllSound(slots, refs, hasher)
    ensures Narrow(slots)
  {
    forall i | 0 <= i < |slots| ensures slots[i].pref <= INVALID { assert Sound(slots[i], refs, hasher); }
  }

  lemma LoggedOnBoundary(n: nat)
    ensures LoggedPage(n) % PAGE_SIZE == 0
  {
    hide LoggedPage, TableOffset, CellPage;
    OffsetSplits(n);
    WholePages(CellPage(n));
  }

  lemma WholePages(k: nat)
    ensures k * PAGE_SIZE % PAGE_SIZE == 0
  {
  }

  /** A modified bucket with slots lies on a page that is in the log, or behind the committed table. */
  lemma MarkedIsLogged(buckets: seq<Bucket>, n: nat, left: set<nat>, table: seq<Page>, lists: Lists, log: LogFile,
      rehashed: set<nat>, c: Commit)
    requires n < |buckets| && n in left && buckets[n].slots.Some? && log.Follows(c)
    requires Recorded(buckets, left, table, lists, log.logged, log.sourceLen, rehashed)
    ensures CellPage(n) >= |c.table| || Logged(log.file.All(), PAGE_SIZE * CellPage(n))
  {
    OffsetSplits(n);
    assert BucketOK(buckets[n], n in left, Cell(table, n), lists, Covered(n, log.logged, log.sourceLen), n in rehashed);
  }

  lemma CellPageWritten(table: seq<Page>, n: nat, p: PRef, buckets: nat)
    requires Shaped(table) && PAGE_SIZE * (CellPage(n) + 1) <= INVALID && p <= INVALID
    requires n < buckets && |table| <= CellPage(buckets) + 1
    ensures var page := WritePRef(PageOrBlank(table, CellPage(n)), CellPos(n), p);
            && PageSelf(page) == PAGE_SIZE * CellPage(n) && PageSelf(page) + PAGE_SIZE <= INVALID
            && PageNumber(PageSelf(page)) == CellPage(n)
            && Updated(table, page) == SetCell(table, n, p)
    ensures |SetCell(table, n, p)| <= CellPage(buckets) + 1
    ensures |table| > 0 ==> |SetCell(table, n, p)| > 0 && PageHeader(SetCell(table, n, p)[0]) == PageHeader(table[0])
  {
    BlankOrPage(table, CellPage(n));
    PRefReadBack(PageOrBlank(table, CellPage(n)), CellPos(n), p);
    TableLength(table, n, p, buckets);
    SetCellEffect(table, n, p);
    UpdatedShaped(table, WritePRef(PageOrBlank(table, CellPage(n)), CellPos(n), p));
  }

  lemma HeaderPageWritten(table: seq<Page>, buckets: nat, step: nat, sip0: u64, sip1: u64)
    requires Shaped(table) && buckets <= INVALID && step <= INVALID
    ensures var page := WithHeader(PageOrBlank(table, 0), buckets, step, sip0, sip1);
            && PageSelf(page) == 0
            && Updated(table, page) == SetHeader(table, buckets, step, sip0, sip1)
            && |Updated(table, page)| == if |table| == 0 then 1 else |table|
    ensures var t := SetHeader(table, buckets, step, sip0, sip1);
            |t| > 0 && PageHeader(t[0]) == Header(buckets, step, sip0, sip1)
  {
    BlankOrPage(table, 0);
    HeaderReadBack(PageOrBlank(table, 0), buckets, step, sip0, sip1);
    UpdatedShaped(table, WithHeader(PageOrBlank(table, 0), buckets, step, sip0, sip1));
    SetHeaderEffect(table, buckets, step, sip0, sip1);
  }

  lemma LeavesCurrent(d: Disk, i: Image)
    requires i == Image(d.log.durable, d.table, d.link.durable, d.data.durable)
    ensures Leaves(d, i)
  {
    hide Mixes;
    MixesCurrent(d);
  }

  /** An unlogged first page with a new header may be beyond recovery. */
  lemma HeaderLost(d: Disk, log: LogFile, c: Commit, buckets: nat, step: nat, sip0: u64, sip1: u64)
    requires Guarded(d, c, 1) && log.Follows(c) && d.log == log.file && 0 !in log.logged && |c.table| > 0
    requires buckets <= INVALID && step <= INVALID && d.table == SetHeader(c.table, buckets, step, sip0, sip1)
    requires PageHeader(c.table[0]) != Header(buckets, step, sip0, sip1)
    ensures Lost(d, c)
  {
    hide Guarded, Restores, Leaves, PageHeader, WithHeader, PageSelf;
    HeaderPageWritten(c.table, buckets, step, sip0, sip1);
    var i := Image(d.log.durable, d.table, d.link.durable, d.data.durable);
    LeavesCurrent(d, i);
    UnloggedHeader(d, c, i, buckets, step, sip0, sip1);
  }

  lemma LoggedIsDurable(log: LogFile, c: Commit, p: PRef)
    requires log.Follows(c) && log.file.Idle() && p in log.logged
    ensures Logged(log.file.durable, p)
  {
    assert log.file.All() == log.file.durable;
  }

  lemma NothingLeft(buckets: seq<Bucket>, left: set<nat>, table: seq<Page>, lists: Lists, logged: set<PRef>,
      sourceLen: nat, rehashed: set<nat>)
    requires Recorded(buckets, left, table, lists, logged, sourceLen, rehashed)
    requires forall b :: b in left ==> b >= |buckets|
    ensures Recorded(buckets, {}, table, lists, logged, sourceLen, rehashed)
  {
  }

  lemma ListsGrow(lists: Lists, refs: Refs, more: Refs, hasher: Hasher)
    requires ListsSound(lists, refs, hasher) && forall p :: p in refs ==> p in more && more[p] == refs[p]
    ensures ListsSound(lists, more, hasher)
  {
  }

  lemma ListsSoundPush(lists: Lists, lists': Lists, p: PRef, slots: seq<Slot>, refs: Refs, hasher: Hasher)
    requires ListsSound(lists, refs, hasher) && AllSound(slots, refs, hasher) && ListFiled(lists, lists', p, slots)
    ensures ListsSound(lists', refs, hasher)
  {
  }

  lemma SizesInReach(g: Params)
    requires g.Sound()
    ensures g.buckets <= 0x1_0000_0000 + 22 && g.step <= INVALID
  {
    BucketsInRange(g, 0);
    Pow2Values();
    Pow2Monotone(g.logMod + 1, 31);
  }

  lemma IndexesSound(view: View, logMod: nat, step: nat, refs: Refs, hasher: Hasher, index: map<Bytes, PRef>,
      strays: set<nat>)
    requires Indexes(view, logMod, step, refs, hasher, index, strays)
    ensures forall b :: 0 <= b < |view| ==> AllSound(view[b], refs, hasher)
  {
    forall b | 0 <= b < |view| ensures AllSound(view[b], refs, hasher) {
      assert BucketHolds(view[b], b, logMod, step, refs, hasher, index, b in strays);
    }
  }

  lemma HeaderLengths(d: Disk, c: Commit, from: nat)
    requires Guarded(d, c, from)
    ensures |d.log.All()| > 0
    ensures var first := d.log.All()[0];
            && ReadPRef(first, 0) == PAGE_SIZE * |c.data| && ReadPRef(first, 6) == PAGE_SIZE * |c.table|
              && ReadPRef(first, 12) == PAGE_SIZE * |c.link|
  {
    LogHeaderReadBack(PAGE_SIZE * |c.data|, PAGE_SIZE * |c.table|, PAGE_SIZE * |c.link|);
  }

  /** Cutting files back to the committed lengths, one after the other, keeps the state guarded. */
  lemma CutGuarded(d: Disk, c: Commit, from: nat)
    requires Guarded(d, c, from)
    ensures |c.table| <= |d.table| && |c.data| <= |d.data.durable| && |c.link| <= |d.link.durable|
    ensures d.data.durable[..|c.data|] == c.data && d.link.durable[..|c.link|] == c.link
    ensures var d1 := d.Wrote(d.table[..|c.table|]);
            var d2 := d1.(data := Settled(c.data));
            Guarded(d1, c, from) && Guarded(d2, c, from) && Guarded(d2.(link := Settled(c.link)), c, from)
  {
    hide Shaped, LogOf, Intact;
    CutProtected(d.table, d.log.durable, c, from);
    var d1 := d.Wrote(d.table[..|c.table|]);
    forall j | 0 <= j < |d1.older| ensures Protected(d1.older[j], d.log.durable, c, from) {}
  }

  lemma CutProtected(t: seq<Page>, log: seq<Page>, c: Commit, from: nat)
    requires Protected(t, log, c, from)
    ensures Protected(t[..|c.table|], log, c, from)
  {
    hide PageSelf;
    forall k | from <= k < |c.table| ensures Intact(t[..|c.table|], log, c, k) {
      assert Intact(t, log, c, k);
    }
  }

  lemma CutLeads(d: Disk, c: Commit, from: nat, trace: seq<Disk>)
    requires Guarded(d, c, from) && d.data.Idle() && d.link.Idle() && |trace| == 3
    requires trace[0] == d.Wrote(d.table[..|c.table|])
    requires trace[1] == trace[0].(data := Settled(c.data))
    requires trace[2] == trace[1].(link := Settled(c.link))
    ensures Leads(d, trace, trace[2])
  {
    hide LogOf, Intact, Shaped;
    StepOfTable(d, d.table[..|c.table|]);
    assert FileStep(d.data, Settled(c.data)) && FileStep(d.link, Settled(c.link));
    forall i | 0 <= i < 3 ensures Step(At(d, trace, i), trace[i]) {}
  }

  /** Updating a page, with the write-ahead rule obeyed, goes through guarded states only. */
  lemma UpdateGuarded(d: Disk, c: Commit, from: nat, page: Page, steps: seq<seq<Page>>)
    requires Guarded(d, c, from) && UpdateSteps(d.table, page, steps)
    requires PageSelf(page) % PAGE_SIZE == 0 && PageSelf(page) + PAGE_SIZE <= INVALID
    requires var k := PageNumber(PageSelf(page));
             k < from || k >= |c.table| || Logged(d.log.durable, PAGE_SIZE * k) || page == c.table[k]
    ensures forall e :: e in Writes(d, steps) ==> Guarded(e, c, from)
  {
    hide Protected, Updated, PageSelf, Logged, Fill, LogOf, Writes;
    WriteProtected(d.table, d.log.durable, c, from, page);
    assert PAGE_SIZE * PageNumber(PageSelf(page)) <= PageSelf(page);
    forall j | 0 <= j < |steps| ensures Protected(steps[j], d.log.durable, c, from) {
      if j < |steps| - 1 { FillProtected(d.table, d.log.durable, c, from, |d.table| + j + 1); }
    }
    forall i | 0 <= i < |steps| ensures Guarded(Writes(d, steps)[i], c, from) { WritesGuarded(d, c, from, steps, i); }
  }

  lemma CommittedIsStored(c: Commit, s: Saved)
    requires Remembers(c, s)
    ensures WellStored(c.link, s.links) && WellStored(c.data, s.refs)
    ensures PAGE_SIZE * |c.link| < INVALID && PAGE_SIZE * |c.data| < INVALID
  {
  }

  lemma LogPages(d: Disk, c: Commit, from: nat)
    requires Guarded(d, c, from) && d.log.Idle()
    ensures 0 < |d.log.durable| <= LAST_LOG_PAGE + 1 && d.log.durable == d.log.All()
  {
  }

  lemma LoggedPageFits(d: Disk, c: Commit, from: nat, k: nat)
    requires Guarded(d, c, from) && d.log.Idle() && 1 <= k < |d.log.durable|
    ensures var page := d.log.durable[k];
            && PageSelf(page) % PAGE_SIZE == 0 && PageSelf(page) + PAGE_SIZE <= INVALID
            && PageNumber(PageSelf(page)) < |c.table| && page == c.table[PageNumber(PageSelf(page))]
  {
    assert d.log.All() == d.log.durable;
    assert PreImage(d.log.All()[k], c);
  }

  lemma ReplayNothing(table: seq<Page>)
    ensures Replay(table, []) == table
  {
  }

  /** Recovery as a function of the files found. */
  lemma RecoverySteps(d: Disk, c: Commit, from: nat, i: Image)
    requires Guarded(d, c, from) && i == Image(d.log.durable, d.table, d.link.durable, d.data.durable)
    requires d.log.Idle() && d.link.Idle() && d.data.Idle()
    ensures |i.log| > 0 && |c.table| <= |d.table|
    ensures Recovered(i) == Image([HeaderFor(c)], Replay(d.table[..|c.table|], Replayed(d.log.durable)), c.link, c.data)
    ensures |d.log.durable| == 1 ==> d.log.durable == [HeaderFor(c)] && Replayed(d.log.durable) == []
    ensures c.Sized() && (from == 0 ==> Recovered(i).table == c.table)
  {
    hide Mixes, Protected, Intact;
    assert d.log.All() == d.log.durable && d.link.All() == d.link.durable && d.data.All() == d.data.durable;
    LeavesCurrent(d, i);
    GuardedDescends(d, c, from, i);
    RecoveredFrom(i, c);
    HeaderLengths(d, c, from);
    if from == 0 { GuardedRestores(d, c, i); }
  }

  lemma NewLogSealed(d: Disk, c: Commit, logs: seq<QFile>)
    requires c.Sized() && d.table == c.table && d.older == [] && d.link == Settled(c.link) && d.data == Settled(c.data)
    requires logs == [Settled([]), QFile([], [HeaderFor(c)], 1), QFile([], [HeaderFor(c)], 0), Settled([HeaderFor(c)])]
    ensures forall i :: 0 <= i < 4 ==> Sealed(d.(log := logs[i]), c)
  {
  }

  lemma SealedBefore(d: Disk, c: Commit)
    requires c.Sized() && d.table == c.table && d.older == [] && d.link == Settled(c.link) && d.data == Settled(c.data)
    requires d.log.Idle()
    ensures d.log.durable <= [HeaderFor(c)] ==> Sealed(d, c)
  {
    assert d.log.All() == d.log.durable;
  }

  lemma NewLogLeads(d: Disk, pages: seq<Page>, logs: seq<QFile>)
    requires d.log.Idle()
    requires logs == [Settled([]), QFile([], pages, 1), QFile([], pages, 0), Settled(pages)]
    ensures Leads(d, LogSteps(d, logs), d.(log := Settled(pages)))
  {
    assert logs[1].All() == logs[2].All() == logs[3].All() == pages;
    var trace := LogSteps(d, logs);
    forall i | 0 <= i < 4 ensures Step(At(d, trace, i), trace[i]) {
      assert FileStep(At(d, trace, i).log, trace[i].log);
    }
  }

  function LogSteps(d: Disk, logs: seq<QFile>): seq<Disk>
  {
    seq(|logs|, i requires 0 <= i < |logs| => d.(log := logs[i]))
  }

  /** Buckets and their contents as `load` sets them up. */
  function LoadedBuckets(table: seq<Page>, n: nat): seq<Bucket>
  {
    seq(n, b requires 0 <= b => Bucket(Cell(table, b), None))
  }
  function LoadedView(table: seq<Page>, lists: Lists, n: nat): View
  {
    seq(n, b requires 0 <= b => ListOf(lists, Cell(table, b)))
  }

  /** What removing the first hit for a key does to the index. */
  lemma LookupFinds(view: View, logMod: nat, step: nat, refs: Refs, hasher: Hasher, index: map<Bytes, PRef>,
      strays: set<nat>, key: Bytes)
    requires Indexes(view, logMod, step, refs, hasher, index, strays)
    requires BucketFor(logMod, step, hasher.Of(key)) < |view|
    ensures var b := BucketFor(logMod, step, hasher.Of(key));
            var i := FirstHit(view[b], refs, hasher.Of(key), key, 0);
            && AllSound(view[b], refs, hasher)
            && (i < |view[b]| <==> key in index)
            && var rest := if i < |view[b]| then view[b := Without(view[b], i)] else view;
               && Indexes(rest, logMod, step, refs, hasher, Remove(index, key), strays)
               && StraysStay(view, rest, logMod, step) && Total(rest) <= Total(view)
  {
    var b := BucketFor(logMod, step, hasher.Of(key));
    var i := FirstHit(view[b], refs, hasher.Of(key), key, 0);
    hide Total;
    assert BucketHolds(view[b], b, logMod, step, refs, hasher, index, b in strays);
    LookupIsMap(view, logMod, step, refs, hasher, index, strays, key);
    if i < |view[b]| {
      RemoveKeeps(view, logMod, step, refs, hasher, index, strays, key, b, i);
      TotalUpdate(view, b, Without(view[b], i));
      RemovedAtHome(view, logMod, step, b, i);
    } else {
      assert Remove(index, key) == index;
    }
  }

  /** Slots that are not where they would be looked for stay where they are. */
  ghost predicate StraysStay(view: View, view': View, logMod: nat, step: nat)
  {
    |view| <= |view'| && forall b, x :: 0 <= b < |view| && x in view[b] && BucketFor(logMod, step, x.hash) != b ==>
      x in view'[b]
  }

  /** A growth step rehashes strays like any other slot. */
  ghost predicate StraysMove(view: View, view': View, g: Params)
    requires g.step < |view|
  {
    forall x :: x in view[g.step] && BucketFor(g.logMod, g.step, x.hash) != g.step ==>
      x.hash % Pow2(g.logMod + 1) < |view'| && x in view'[x.hash % Pow2(g.logMod + 1)]
  }

  lemma NoStrayMoves(view: View, logMod: nat, step: nat)
    ensures StraysStay(view, view, logMod, step)
  {
  }

  lemma StoredAtEnd(view: View, mid: View, logMod: nat, step: nat, b: nat, slot: Slot)
    requires StraysStay(view, mid, logMod, step) && b < |mid| && Total(mid) <= Total(view)
    ensures var after := mid[b := mid[b] + [slot]];
            StraysStay(view, after, logMod, step) && Total(after) <= Total(view) + 1
  {
    hide Total, BucketFor;
    TotalUpdate(mid, b, mid[b] + [slot]);
  }

  lemma StraysInHalves(view: View, mid: View, after: View, g: Params)
    requires StraysStay(view, mid, g.logMod, g.step) && g.step < |view|
    ensures StraysStay(mid, after, g.logMod, g.step) ==> StraysStay(view, after, g.logMod, g.step)
    ensures g.step < |mid| && (StraysMove(mid, after, g) ==> StraysMove(view, after, g))
  {
    hide BucketFor, Pow2;
  }

  lemma GrowRange(g: Params)
    requires g.Sound()
    ensures Pow2(g.logMod + 1) <= g.buckets && g.step < g.buckets
  {
    hide Pow2;
  }

  lemma RegroupedIs(view: View, g: Params)
    requires g.step < Pow2(g.logMod) ==> g.step < |view|
    ensures Regrouped(view, g) == if g.step < Pow2(g.logMod) then Scattered(view, Pow2(g.logMod + 1), g.step) else view
  {
    hide Scattered, Pow2;
  }

  /** What a growth step makes of the buckets. */
  lemma GrowSeen(view: View, g: Params, refs: Refs, hasher: Hasher, index: map<Bytes, PRef>, strays: set<nat>)
    requires g.Sound() && g.CanGrow() && g.buckets == |view|
    requires Indexes(view, g.logMod, g.step, refs, hasher, index, strays)
    ensures g.step < |view| && g.Grow().Sound()
    ensures var grown := Regrouped(view, g) + [[]];
      && (forall b :: 0 <= b < |grown| ==> AllSound(grown[b], refs, hasher))
      && (Clean(g, strays) ==>
        && Indexes(grown, g.Grow().logMod, g.Grow().step, refs, hasher, index, strays)
        && Total(grown) == Total(view) && StraysStay(view, grown, g.logMod, g.step))
      && (!Clean(g, strays) ==> StraysMove(view, grown, g))
  {
    hide Indexes, Regrouped, Scattered, Halved, BucketFor, Pow2, Total, AllSound, Params.Sound, Params.Grow, StraysStay,
      StraysMove;
    GrowRange(g);
    GrowKeepsSound(g);
    IndexesSound(view, g.logMod, g.step, refs, hasher, index, strays);
    RegroupedSound(view, g, refs, hasher);
    if Clean(g, strays) {
      GrowKeeps(view, g, refs, hasher, index, strays);
      TotalOfHalved(view, g);
      RegroupedStays(view, g, refs, hasher, index, strays);
    } else {
      RegroupedMoves(view, g);
    }
  }

  lemma RegroupedSound(view: View, g: Params, refs: Refs, hasher: Hasher)
    requires g.step < Pow2(g.logMod) ==> g.step < |view|
    requires forall b :: 0 <= b < |view| ==> AllSound(view[b], refs, hasher)
    ensures forall b :: 0 <= b <= |view| ==> AllSound((Regrouped(view, g) + [[]])[b], refs, hasher)
  {
    hide Pow2, Split;
    var grown := Regrouped(view, g) + [[]];
    forall b, i | 0 <= b < |view| && 0 <= i < |grown[b]| ensures Sound(grown[b][i], refs, hasher) {
      var x := grown[b][i];
      assert x in grown[b];
      var c := if x in view[b] then b else g.step;
      assert x in view[c] && AllSound(view[c], refs, hasher);
    }
  }

  lemma RegroupedMoves(view: View, g: Params)
    requires g.step < Pow2(g.logMod) && g.step < |view| && Pow2(g.logMod + 1) <= |view|
    ensures StraysMove(view, Regrouped(view, g) + [[]], g)
  {
    hide Pow2, Split, BucketFor;
    var m, grown := Pow2(g.logMod + 1), Regrouped(view, g) + [[]];
    forall x | x in view[g.step] ensures x.hash % m < |grown| && x in grown[x.hash % m] {
      assert x in Split(view[g.step], m, x.hash % m, true);
    }
  }

  lemma RegroupedStays(view: View, g: Params, refs: Refs, hasher: Hasher, index: map<Bytes, PRef>, strays: set<nat>)
    requires g.Sound() && g.buckets == |view| && Clean(g, strays) && (g.step < Pow2(g.logMod) ==> g.step < |view|)
    requires Indexes(view, g.logMod, g.step, refs, hasher, index, strays)
    ensures StraysStay(view, Regrouped(view, g) + [[]], g.logMod, g.step)
  {
    hide Pow2, Split, BucketFor;
    var grown := Regrouped(view, g) + [[]];
    forall b, x | 0 <= b < |view| && x in view[b] && BucketFor(g.logMod, g.step, x.hash) != b ensures x in grown[b] {
      var i :| 0 <= i < |view[b]| && view[b][i] == x;
      assert BucketHolds(view[b], b, g.logMod, g.step, refs, hasher, index, b in strays);
      assert Placed(view[b][i], b, g.logMod, g.step, refs, index, b in strays);
    }
  }

  lemma RemovedAtHome(view: View, logMod: nat, step: nat, b: nat, i: nat)
    requires b < |view| && i < |view[b]| && BucketFor(logMod, step, view[b][i].hash) == b
    ensures StraysStay(view, view[b := Without(view[b], i)], logMod, step)
  {
    hide BucketFor;
    var rest := view[b := Without(view[b], i)];
    forall c, x | 0 <= c < |view| && x in view[c] && BucketFor(logMod, step, x.hash) != c ensures x in rest[c] {
      if c == b {
        var j :| 0 <= j < |view[b]| && view[b][j] == x;
        assert rest[b][if j < i then j else j - 1] == x;
      }
    }
  }

  class MemTable {
    const fillTarget: FillTarget
    var step: nat
    var forget: nat
    var logMod: nat
    var hasher: Hasher
    var buckets: seq<Bucket>
    const dirty: Dirty
    const log: LogFile
    const data: DataFile
    const table: TableFile
    const link: DataFile

    ghost var lists: Lists
    ghost var view: View
    /** The map the index stands for. */
    ghost var index: map<Bytes, PRef>
    /** The buckets that were reloaded from a stale cell: they may hold slots that are not looked for there. */
    ghost var strays: set<nat>
    /** The buckets rehashed since the table was loaded. */
    ghost var rehashed: set<nat>
    /** The files as the last batch left them, and what they hold. */
    ghost var base: Commit
    ghost var saved: Saved

    function Parameters(): Params
      reads this`logMod, this`step, this`buckets
    {
      Params(logMod, step, |buckets|)
    }

    ghost predicate Files()
      reads dirty, table, data, data.appender, link, link.appender
    {
      && data != link && data.appender != link.appender
      && dirty.Valid() && table.Valid() && data.Valid() && link.Valid()
    }

    ghost predicate Linked()
      reads this`lists, this`view, this`buckets, link`contents
    {
      Proper(lists) && Stored(lists, link.contents) && Views(view, buckets, lists) && AllKnown(buckets, lists)
    }

    ghost predicate Ledgered()
      reads this`lists, this`buckets, this`rehashed, dirty`used, dirty`marks, table`file, log`logged, log`sourceLen
    {
      && dirty.used == |buckets| && |table.file| <= CellPage(|buckets|) + 1
      && Recorded(buckets, dirty.marks, table.file, lists, log.logged, log.sourceLen, rehashed)
    }

    /** Between two batches only the log and the data file change. */
    ghost predicate BetweenBatches()
      reads this`base, table`file, table`older, log, link.appender, data.appender
    {
      && table.file == base.table && table.older == [] && log.Follows(base)
      && base.link == link.appender.file.durable && link.appender.file.Idle() && link.appender.page == None
      && base.data <= data.appender.file.durable
    }

    ghost predicate Core()
      reads this`lists, this`view, this`buckets, this`rehashed, this`base
      reads dirty, table, log, data, data.appender, link, link.appender
    {
      Files() && Linked() && Ledgered() && BetweenBatches()
    }

    ghost predicate Valid()
      reads this`lists, this`view, this`buckets, this`base, this`step, this`logMod, this`hasher, this`index
      reads this`strays, this`rehashed, this`saved
      reads dirty, table, log, data, data.appender, link, link.appender
    {
      && Core() && |view| == |buckets| && Params(logMod, step, |buckets|).Sound()
      && Indexes(view, logMod, step, data.contents, hasher, index, strays)
      && ListsSound(lists, data.contents, hasher) && Remembers(base, saved)
    }

    /** Enough to read: every slot leads to data stored under a key with its hash. */
    ghost predicate Readable()
      reads this`lists, this`view, this`buckets, this`hasher
      reads dirty, table, data, data.appender, link, link.appender
    {
      Files() && Linked() && |view| == |buckets| && forall b :: 0 <= b < |view| ==>
        AllSound(view[b], data.contents, hasher)
    }

    /** An empty table over the given files; `recover`, `load` and a first batch follow. */
    constructor (hasher: Hasher, log: LogFile, table: TableFile, data: DataFile, link: DataFile, bucketFillTarget: nat)
      ensures this.log == log && this.table == table && this.data == data && this.link == link && this.hasher == hasher
      ensures fillTarget == Clamp(bucketFillTarget) && logMod == INIT_LOGMOD && step == 0 && forget == 0
      ensures fillTarget == if bucketFillTarget < 1 then 1 else if bucketFillTarget > 128 then 128 else bucketFillTarget
      ensures logMod == 8 && |buckets| == 512
      ensures buckets == seq(INIT_BUCKETS, i => EMPTY) && fresh(dirty) && dirty.Valid() && dirty.used == INIT_BUCKETS
      ensures dirty.marks == {}
      ensures view == seq(INIT_BUCKETS, i => []) && lists == map[] && index == map[] && strays == rehashed == {}
    {
      this.log, this.table, this.data, this.link, this.hasher := log, table, data, link, hasher;
      logMod, step, forget := INIT_LOGMOD, 0, 0;
      buckets := seq(INIT_BUCKETS, i => EMPTY);
      dirty := new Dirty(INIT_BUCKETS);
      fillTarget := Clamp(bucketFillTarget);
      view, lists, index, strays, rehashed := seq(INIT_BUCKETS, i => []), map[], map[], {}, {};
    }

    // -------------------------------------------------------------- buckets

    /** Reads the slots of a bucket from the link file on first use. */
    method ResolveBucket(n: nat) returns (r: Result<()>)
      requires Files() && Linked()
      modifies this`buckets
      ensures r.Ok? && Linked() && |buckets| == |old(buckets)|
      ensures buckets == if n < |buckets| then old(buckets)[n := Resolved(old(buckets)[n], lists)] else old(buckets)
      ensures old(Ledgered()) ==> Ledgered()
    {
      hide DataFile.Valid, TableFile.Valid, Dirty.Valid, Recorded, EnvelopeAt, Serialize, Deserialize, SlotsBytes,
        ParseSlots;
      if n < |buckets| && buckets[n].slots.None? && IsValid(buckets[n].stored) {
        var stored := buckets[n].stored;
        link.ContentsAt(stored);
        var envelope := link.GetEnvelope(stored);
        match envelope { case Err(e) => return Err(e); case Ok(payload) =>
          match Deserialize(payload)
          case Ok(Link(links)) =>
            SlotsRoundTrip(lists[stored]);
            var slots := ReadSlots(links);
            buckets := buckets[n := Bucket(stored, Some(slots))];
          case _ =>
        }
      }
      if n < |buckets| && old(Ledgered()) {
        ResolveKeeps(old(buckets), n, dirty.marks, table.file, lists, log.logged, log.sourceLen, rehashed);
      }
      r := Ok(());
    }

    /** Marks a bucket that has just changed and logs its table page. */
    method ModifyBucket(n: nat, ghost before: seq<Bucket>) returns (r: Result<()>)
      requires Files() && BetweenBatches() && n < |buckets| == |before| && dirty.used == |buckets|
      requires Recorded(before, dirty.marks, table.file, lists, log.logged, log.sourceLen, rehashed)
      requires buckets == before[n := buckets[n]]
      requires Known(buckets[n].stored, lists)
      requires buckets[n].slots.None? ==> buckets[n].stored == INVALID && n in rehashed
      modifies dirty`bits, dirty`marks, log`file, log`logged
      ensures r.Ok? && Files() && BetweenBatches() && (|table.file| <= CellPage(|buckets|) + 1 ==> Ledgered())
      ensures log.logged <= old(log.logged) + {LoggedPage(n)}
    {
      hide DataFile.Valid, TableFile.Valid, Dirty.Valid, LogFile.Follows, Recorded, CellPage, LoggedPage, ReadFlat;
      ModifyKeeps(before, n, buckets[n], dirty.marks, table.file, lists, log.logged, log.sourceLen, rehashed);
      dirty.Set(n);
      LoggedOnBoundary(n);
      r := log.LogPage(LoggedPage(n), table, base);
    }

    method StoreToBucket(n: nat, hash: u32, pref: PRef) returns (r: Result<()>)
      requires Core()
      modifies this`buckets, this`view, dirty`bits, dirty`marks, log`file, log`logged
      ensures Core() && |buckets| == |old(buckets)|
      ensures r == if n < |buckets| then Ok(()) else Err(Corrupted)
      ensures log.logged <= old(log.logged) + {LoggedPage(n)}
      ensures view == if n < |buckets| then old(view)[n := old(view)[n] + [Slot(hash, pref)]] else old(view)
    {
      hide DataFile.Valid, TableFile.Valid, Dirty.Valid, LogFile.Follows, Recorded, CellPage, LoggedPage, Stored,
        Proper;
      var resolved := ResolveBucket(n);
      match resolved { case Err(e) => return Err(e); case Ok(_) => }
      ghost var before := buckets;
      if n < |buckets| {
        if buckets[n].slots.Some? {
          buckets := buckets[n := Bucket(buckets[n].stored, Some(buckets[n].slots.value + [Slot(hash, pref)]))];
        } else {
          buckets := buckets[n := Bucket(buckets[n].stored, Some([Slot(hash, pref)]))];
        }
        view := view[n := view[n] + [Slot(hash, pref)]];
      } else {
        return Err(Corrupted);
      }
      r := ModifyBucket(n, before);
      assert r.value == ();
    }

    /** Drops the slot of the key, if the bucket has one. */
    method RemoveDuplicate(key: Bytes, hash: u32, n: nat) returns (r: Result<bool>)
      requires Core() && (n < |view| ==> AllSound(view[n], data.contents, hasher))
      modifies this`buckets, this`view, dirty`bits, dirty`marks, log`file, log`logged
      ensures Core() && |buckets| == |old(buckets)| && r.Ok?
      ensures log.logged <= old(log.logged) + {LoggedPage(n)}
      ensures n >= |view| ==> !r.value && view == old(view)
      ensures n < |view| ==>
        var i := FirstHit(old(view)[n], data.contents, hash, key, 0);
        && (r.value <==> i < |old(view)[n]|)
        && view == if r.value then old(view)[n := Without(old(view)[n], i)] else old(view)
    {
      hide DataFile.Valid, TableFile.Valid, Dirty.Valid, LogFile.Follows, Recorded, FirstHit, AllSound, Proper, Stored;
      var resolved := ResolveBucket(n);
      match resolved { case Err(e) => return Err(e); case Ok(_) => }
      ghost var before := buckets;
      if n < |buckets| && buckets[n].slots.Some? {
        var slots := buckets[n].slots.value;
        assert slots == view[n];
        var found := FindSlot(slots, key, hash);
        match found { case Err(e) => return Err(e); case Ok(i) =>
          if i < |slots| {
            buckets := buckets[n := Bucket(buckets[n].stored, Some(Without(slots, i)))];
            view := view[n := Without(slots, i)];
            var modified := ModifyBucket(n, before);
            match modified { case Err(e) => return Err(e); case Ok(_) => }
            return Ok(true);
          }
        }
      }
      r := Ok(false);
    }

    /** The search loop of `remove_duplicate`: data that is not indexed is passed over. */
    method FindSlot(slots: seq<Slot>, key: Bytes, hash: u32) returns (r: Result<nat>)
      requires data.Valid() && AllSound(slots, data.contents, hasher)
      ensures r == Ok(FirstHit(slots, data.contents, hash, key, 0))
    {
      hide DataFile.Valid;
      for i := 0 to |slots|
        invariant FirstHit(slots, data.contents, hash, key, 0) == FirstHit(slots, data.contents, hash, key, i)
      {
        assert Sound(slots[i], data.contents, hasher);
        if slots[i].hash == hash {
          var payload := data.Fetch(slots[i].pref);
          match payload
          case Err(e) => return Err(e);
          case Ok(Indexed(k, _)) => if k == key { return Ok(i); }
          case Ok(_) =>
        }
      }
      r := Ok(|slots|);
    }

    // -------------------------------------------------------------- growing

    /** Stores a list of slots one by one. */
    method StoreAll(n: nat, added: seq<Slot>) returns (r: Result<()>)
      requires Core() && n < |buckets| == |view|
      modifies this`buckets, this`view, dirty`bits, dirty`marks, log`file, log`logged
      ensures r.Ok? && Core() && |buckets| == |old(buckets)|
      ensures view == old(view)[n := old(view)[n] + added]
    {
      hide *;
      for i := 0 to |added|
        invariant Core() && |buckets| == |old(buckets)|
        invariant |view| == |old(view)| && view[n] == old(view)[n] + added[..i]
        invariant forall c :: 0 <= c < |view| && c != n ==> view[c] == old(view)[c]
      {
        var stored := StoreToBucket(n, added[i].hash, added[i].pref);
        match stored { case Err(e) => return Err(e); case Ok(_) => }
        assert added[..i + 1] == added[..i] + [added[i]];
      }
      assert added[..|added|] == added;
      r := Ok(());
    }

    /** Sorts the slots of a bucket into those that stay and those that move, keyed by the bucket they move to. */
    method SortOut(slots: seq<Slot>, b: nat)
        returns (kept: Option<seq<Slot>>, moves: map<nat, seq<Slot>>, rewrite: bool)
      ensures kept == NonEmpty(Split(slots, Pow2(logMod + 1), b, true))
      ensures SortedOut(slots, Pow2(logMod + 1), b, moves)
      ensures rewrite <==> |Split(slots, Pow2(logMod + 1), b, false)| > 0
    {
      hide Split, Pow2, SortedOut;
      kept, moves, rewrite := None, map[], false;
      var m := Pow2(logMod + 1);
      SplitNone(m, b);
      SortedOutNothing(m, b);
      for i := 0 to |slots|
        invariant kept == NonEmpty(Split(slots[..i], m, b, true))
        invariant SortedOut(slots[..i], m, b, moves)
        invariant rewrite <==> |Split(slots[..i], m, b, false)| > 0
      {
        var newBucket := slots[i].hash % m;
        SplitPush(slots, m, b, i);
        SortedOutPush(slots, m, b, i, moves);
        if newBucket != b {
          moves := moves[newBucket := (if newBucket in moves then moves[newBucket] else []) + [slots[i]]];
          rewrite := true;
        } else if kept.Some? {
          kept := Some(kept.value + [slots[i]]);
        } else {
          kept := Some([slots[i]]);
          assert kept.value == Split(slots[..i + 1], m, b, true);
        }
      }
      assert slots[..|slots|] == slots;
    }

    /** A bucket that keeps nothing is left without slots and without reference, as if it had never been used. */
    method RehashBucket(b: nat) returns (r: Result<()>)
      requires Core() && b < Pow2(logMod) && Pow2(logMod + 1) <= |buckets| == |view| && b < |view| && b in rehashed
      modifies this`buckets, this`view, dirty`bits, dirty`marks, log`file, log`logged
      ensures r.Ok? && Core() && |buckets| == |old(buckets)|
      ensures view == Scattered(old(view), Pow2(logMod + 1), b)
      ensures Rehoused(old(view), Params(logMod, b, |buckets|), buckets, old(log.logged), log.logged)
    {
      hide *;
      var resolved := SlotsOf(b);
      match resolved { case Err(e) => return Err(e); case Ok(slots) =>
        var kept, moves, rewrite := SortOut(slots, b);
        if rewrite {
          MovesInRange(slots, Pow2(logMod + 1), b, moves);
          var stored := MakeMoves(moves);
          match stored { case Err(e) => return Err(e); case Ok(_) => }
          ScatteredOtherwise(old(view), Pow2(logMod + 1), b, moves, view);
          r := ReplaceBucket(b, kept);
        } else {
          NothingScattered(old(view), Pow2(logMod + 1), b);
          r := Ok(());
        }
        RehousedAt(old(view), Params(logMod, b, |buckets|), buckets, old(log.logged), log.logged);
      }
    }

    method SlotsOf(b: nat) returns (r: Result<seq<Slot>>)
      requires Core() && b < |buckets| == |view|
      modifies this`buckets
      ensures Core() && |buckets| == |old(buckets)| && r == Ok(view[b])
    {
      hide DataFile.Valid, TableFile.Valid, Dirty.Valid, LogFile.Follows, Recorded, Stored, Proper;
      var resolved := ResolveBucket(b);
      match resolved { case Err(e) => return Err(e); case Ok(_) => }
      r := Ok(if buckets[b].slots.Some? then buckets[b].slots.value else []);
    }

    method ReplaceBucket(b: nat, kept: Option<seq<Slot>>) returns (r: Result<()>)
      requires Core() && b < |buckets| == |view| && b in rehashed
      modifies this`buckets, this`view, dirty`bits, dirty`marks, log`file, log`logged
      ensures r.Ok? && Core() && |buckets| == |old(buckets)|
      ensures view == old(view)[b := if kept.Some? then kept.value else []] && buckets[b] == Bucket(INVALID, kept)
    {
      hide DataFile.Valid, TableFile.Valid, Dirty.Valid, LogFile.Follows, Recorded, Stored;
      ghost var before := buckets;
      buckets := buckets[b := Bucket(INVALID, kept)];
      view := view[b := if kept.Some? then kept.value else []];
      r := ModifyBucket(b, before);
    }

    /** Stores what moves, in whatever order the map yields it. */
    method MakeMoves(moves: map<nat, seq<Slot>>) returns (r: Result<()>)
      requires Core() && |buckets| == |view| && forall c :: c in moves ==> c < |view|
      modifies this`buckets, this`view, dirty`bits, dirty`marks, log`file, log`logged
      ensures r.Ok? && Core() && |buckets| == |old(buckets)| == |view|
      ensures forall c :: 0 <= c < |view| ==> view[c] == old(view)[c] + if c in moves then moves[c] else []
    {
      hide *;
      var todo := moves.Keys;
      while todo != {}
        invariant Core() && |buckets| == |old(buckets)| == |view| && todo <= moves.Keys
        invariant forall c :: 0 <= c < |view| ==>
          view[c] == old(view)[c] + if c in moves && c !in todo then moves[c] else []
      {
        var bucket :| bucket in todo;
        var stored := StoreAll(bucket, moves[bucket]);
        match stored { case Err(e) => return Err(e); case Ok(_) => }
        todo := todo - {bucket};
      }
      r := Ok(());
    }

    /** One growth step: rehash the bucket at `step` if it is not rehashed yet, advance, add a bucket. Unless it
        rehashes a bucket that may hold strays, the index is as good as before. */
    method Grow() returns (r: Result<()>)
      requires Valid() && step < 0x8000_0000
      modifies this`buckets, this`view, this`step, this`logMod, this`rehashed, dirty, log`file, log`logged
      ensures r.Ok? && Readable() && Parameters() == old(Parameters()).Grow() && old(step) < |old(view)|
      ensures rehashed == old(rehashed) + Rehashes(old(Parameters())) && |buckets| == |old(buckets)| + 1
      ensures view == Regrouped(old(view), old(Parameters())) + [[]]
      ensures Rehoused(old(view), old(Parameters()), buckets, old(log.logged), log.logged)
      ensures Clean(old(Parameters()), strays) ==>
        Valid() && Total(view) == old(Total(view)) && StraysStay(old(view), view, old(logMod), old(step))
      ensures !Clean(old(Parameters()), strays) ==> StraysMove(old(view), view, old(Parameters()))
    {
      hide MemTable.Core, MemTable.Readable, Indexes, BucketFor, Pow2, Regrouped, Scattered, ListsSound, Remembers,
        Rehoused, Moves, Total, Params.Sound, Params.Grow, Clean, StraysStay, StraysMove;
      ghost var g := Parameters();
      GrowSeen(view, g, data.contents, hasher, index, strays);
      var done := RehashStep();
      match done { case Err(e) => return Err(e); case Ok(_) => }
      AdvanceStep();
      RehousedPush(old(view), g, g.(buckets := |buckets|), buckets, old(log.logged), log.logged);
      PushBucket();
      ReadableNow();
      r := Ok(());
    }

    /** The parameters of the next growth step. */
    method AdvanceStep()
      modifies this`step, this`logMod
      ensures Params(logMod, step, |buckets| + 1) == old(Parameters()).Grow()
    {
      hide Pow2;
      step := step + 1;
      if step > Pow2(logMod + 1) {
        logMod := logMod + 1;
        step := 0;
      }
    }

    /** The part of a growth step that rehashes. */
    method RehashStep() returns (r: Result<()>)
      requires Core() && |view| == |buckets| && Parameters().Sound() && step < |view|
      modifies this`buckets, this`view, this`rehashed, dirty`bits, dirty`marks, log`file, log`logged
      ensures r.Ok? && Core() && |buckets| == |old(buckets)| && view == Regrouped(old(view), old(Parameters()))
      ensures rehashed == old(rehashed) + Rehashes(Parameters())
      ensures if step < Pow2(logMod) then Rehoused(old(view), Parameters(), buckets, old(log.logged), log.logged)
        else log.logged == old(log.logged)
    {
      hide MemTable.Core, Pow2, Regrouped, Scattered, Rehoused, Params.Sound;
      GrowRange(Parameters());
      RegroupedIs(view, Parameters());
      if step < Pow2(logMod) {
        NoteRehash(step);
        r := RehashBucket(step);
      } else {
        r := Ok(());
      }
    }

    ghost method NoteRehash(b: nat)
      requires Core()
      modifies this`rehashed
      ensures Core() && rehashed == old(rehashed) + {b}
    {
      hide DataFile.Valid, TableFile.Valid, Dirty.Valid, LogFile.Follows, Recorded, Stored, CellPage;
      RehashedMore(buckets, dirty.marks, table.file, lists, log.logged, log.sourceLen, rehashed, rehashed + {b});
      rehashed := rehashed + {b};
    }

    lemma ReadableNow()
      requires Core() && |view| == |buckets| && forall b :: 0 <= b < |view| ==> AllSound(view[b], data.contents, hasher)
      ensures Readable()
    {
      hide MemTable.Linked, MemTable.Files, AllSound;
    }

    method PushBucket()
      requires Core()
      modifies this`buckets, this`view, dirty
      ensures Core() && buckets == old(buckets) + [EMPTY] && view == old(view) + [[]]
    {
      hide DataFile.Valid, TableFile.Valid, Dirty.Valid, LogFile.Follows, Recorded, Stored;
      GrowRecorded(buckets, dirty.marks, table.file, lists, log.logged, log.sourceLen, rehashed);
      buckets, view := buckets + [EMPTY], view + [[]];
      dirty.Append();
    }

    // -------------------------------------------------------------- the operations of the index

    method Put(key: Bytes, pref: PRef) returns (r: Result<()>)
      requires Valid() && pref < INVALID && pref in data.contents && data.contents[pref].Indexed?
      requires data.contents[pref].key == key
      modifies this`buckets, this`view, this`step, this`logMod, this`forget, this`index, this`rehashed
      modifies dirty, log`file, log`logged
      ensures rehashed == old(rehashed) +
        if WillGrow(hasher.Of(key), fillTarget, old(forget), old(Parameters())) then Rehashes(old(Parameters())) else {}
      ensures r.Ok? && Readable() && index == old(index)[key := pref] && old(step) < |old(view)|
      ensures if Derails(hasher.Of(key), fillTarget, old(forget), old(Parameters()), strays)
        then StraysMove(old(view), view, old(Parameters()))
        else Valid() && Total(view) <= old(Total(view)) + 1 && StraysStay(old(view), view, old(logMod), old(step))
      ensures PutEffect(hasher.Of(key), fillTarget, old(forget), old(Parameters()), old(view), old(log.logged),
                        forget, Parameters(), buckets, log.logged)
    {
      hide MemTable.Core, MemTable.Readable, Indexes, BucketFor, Pow2, Params.Grow, ListsSound, Remembers, LoggedPage,
        PutEffect, Rehoused, WillGrow, Clean, Total, StraysStay, StraysMove;
      var hash := hasher.Of(key);
      ghost var g := Parameters();
      var stored := Reindex(key, hash, pref);
      match stored { case Err(e) => return Err(e); case Ok(_) => }
      ghost var mid, logged := view, log.logged;
      r := GrowIfFull(hash);
      StraysInHalves(old(view), mid, view, g);
      PutHalves(hash, fillTarget, old(forget), g, old(view), old(log.logged), Slot(hash, pref), mid, logged,
                forget, Parameters(), buckets, log.logged);
    }

    /** The first half of `put`: the old slot of the key, if any, goes, and the new one is stored. */
    method Reindex(key: Bytes, hash: u32, pref: PRef) returns (r: Result<()>)
      requires Valid() && pref < INVALID && pref in data.contents && data.contents[pref].Indexed?
      requires data.contents[pref].key == key && hash == hasher.Of(key)
      modifies this`buckets, this`view, this`index, dirty`bits, dirty`marks, log`file, log`logged
      ensures r.Ok? && Valid() && index == old(index)[key := pref] && Parameters() == old(Parameters())
      ensures Total(view) <= old(Total(view)) + 1 && StraysStay(old(view), view, logMod, step) && step < |view|
      ensures var b := BucketFor(logMod, step, hash);
        && |view| == |old(view)| && b < |view| && Slot(hash, pref) in view[b]
        && log.logged <= old(log.logged) + {LoggedPage(b)}
        && forall c :: 0 <= c < |view| && c != b ==> view[c] == old(view)[c]
    {
      hide MemTable.Core, Indexes, BucketFor, Pow2, FirstHit, Params.Sound, ListsSound, Remembers, LoggedPage, Total,
        StraysStay;
      var bucket := BucketFor(logMod, step, hash);
      BucketsInRange(Parameters(), hash);
      GrowRange(Parameters());
      var removed := Unindex(key);
      match removed { case Err(e) => return Err(e); case Ok(_) => }
      StoreKeeps(view, logMod, step, data.contents, hasher, index, strays, key, pref, bucket);
      StoredAtEnd(old(view), view, logMod, step, bucket, Slot(hash, pref));
      r := StoreToBucket(bucket, hash, pref);
      match r { case Err(e) => return; case Ok(_) => }
      index := index[key := pref];
    }

    /** The growth policy of `put`: every forgotten key saves one chance to grow. */
    method GrowIfFull(hash: u32) returns (r: Result<()>)
      requires Valid()
      modifies this`buckets, this`view, this`step, this`logMod, this`forget, this`rehashed, dirty, log`file, log`logged
      ensures r.Ok? && Readable() && old(step) < |old(view)|
      ensures forget == if old(forget) > 0 then old(forget) - 1 else 0
      ensures |buckets| ==
        |old(buckets)| + if old(forget) == 0 && hash % fillTarget == 0 && old(step) < 0x8000_0000 then 1 else 0
      ensures var g := old(Parameters());
        if WillGrow(hash, fillTarget, old(forget), g)
        then Parameters() == g.Grow() && Rehoused(old(view), g, buckets, old(log.logged), log.logged)
          && rehashed == old(rehashed) + Rehashes(g)
        else Parameters() == g && log.logged == old(log.logged) && rehashed == old(rehashed)
      ensures if Derails(hash, fillTarget, old(forget), old(Parameters()), strays)
        then StraysMove(old(view), view, old(Parameters()))
        else Valid() && Total(view) == old(Total(view)) && StraysStay(old(view), view, old(logMod), old(step))
    {
      hide MemTable.Valid, MemTable.Readable, Params.Sound, Params.Grow, Regrouped, Rehoused, Clean, Total, StraysStay,
        StraysMove, BucketFor, Pow2;
      ValidIsReadable();
      NoStrayMoves(view, logMod, step);
      if forget == 0 {
        if hash % fillTarget == 0 && step < 0x8000_0000 {
          r := Grow();
          return;
        }
      } else {
        forget := forget - 1;
      }
      r := Ok(());
    }

    lemma ValidIsReadable()
      requires Valid()
      ensures Readable() && step < |view|
    {
      hide MemTable.Core, Indexes, ListsSound, Remembers, MemTable.Readable, AllSound;
      IndexesSound(view, logMod, step, data.contents, hasher, index, strays);
      GrowRange(Parameters());
      ReadableNow();
    }

    /** Removes the key from its bucket and from the map. */
    method Unindex(key: Bytes) returns (r: Result<bool>)
      requires Valid()
      modifies this`buckets, this`view, this`index, dirty`bits, dirty`marks, log`file, log`logged
      ensures r == Ok(key in old(index)) && Valid() && index == Remove(old(index), key)
      ensures |buckets| == |old(buckets)| && |view| == |old(view)|
      ensures Total(view) <= old(Total(view)) && StraysStay(old(view), view, logMod, step)
      ensures var bucket := BucketFor(logMod, step, hasher.Of(key));
        && log.logged <= old(log.logged) + {LoggedPage(bucket)}
        && forall c :: 0 <= c < |view| && c != bucket ==> view[c] == old(view)[c]
    {
      hide MemTable.Core, Indexes, BucketFor, Pow2, FirstHit, Params.Sound, ListsSound, Remembers, Total, StraysStay;
      var hash := hasher.Of(key);
      var bucket := BucketFor(logMod, step, hash);
      BucketsInRange(Params(logMod, step, |buckets|), hash);
      LookupFinds(view, logMod, step, data.contents, hasher, index, strays, key);
      r := RemoveDuplicate(key, hash, bucket);
      index := Remove(index, key);
    }

    method Forget(key: Bytes) returns (r: Result<()>)
      requires Valid()
      modifies this`buckets, this`view, this`index, this`forget, dirty`bits, dirty`marks, log`file, log`logged
      ensures r.Ok? && Valid() && index == Remove(old(index), key) && |buckets| == |old(buckets)|
      ensures forget == old(forget) + if key in old(index) then 1 else 0
      ensures Total(view) <= old(Total(view)) && StraysStay(old(view), view, logMod, step)
    {
      hide *;
      var removed := Unindex(key);
      match removed { case Err(e) => return Err(e); case Ok(found) => if found { forget := forget + 1; } }
      r := Ok(());
    }

    method Get(key: Bytes) returns (r: Result<Option<(PRef, Bytes)>>)
      requires Readable()
      modifies this`buckets
      ensures Readable() && (old(Core()) ==> Core()) && |buckets| == |old(buckets)|
      ensures r == Answer(view, logMod, step, data.contents, hasher, key)
    {
      hide DataFile.Valid, TableFile.Valid, Dirty.Valid, LogFile.Follows, Recorded, BucketFor, Pow2, FirstHit, Stored,
        AllSound, Proper;
      var hash := hasher.Of(key);
      var bucket := BucketFor(logMod, step, hash);
      var resolved := ResolveBucket(bucket);
      match resolved { case Err(e) => return Err(e); case Ok(_) => }
      if bucket < |buckets| {
        if buckets[bucket].slots.Some? {
          r := Search(buckets[bucket].slots.value, key, hash);
          return;
        }
        NoHit(data.contents, hash, key);
      } else {
        return Err(Corrupted);
      }
      r := Ok(None);
    }

    /** The search loop of `get`: data that is not indexed is an error. */
    method Search(slots: seq<Slot>, key: Bytes, hash: u32) returns (r: Result<Option<(PRef, Bytes)>>)
      requires data.Valid() && AllSound(slots, data.contents, hasher)
      ensures var i := FirstHit(slots, data.contents, hash, key, 0);
              r == Ok(if i < |slots| then Some((slots[i].pref, data.contents[slots[i].pref].data)) else None)
    {
      hide DataFile.Valid;
      for i := 0 to |slots|
        invariant FirstHit(slots, data.contents, hash, key, 0) == FirstHit(slots, data.contents, hash, key, i)
      {
        assert Sound(slots[i], data.contents, hasher);
        if slots[i].hash == hash {
          var payload := data.Fetch(slots[i].pref);
          match payload
          case Err(e) => return Err(e);
          case Ok(Indexed(k, d)) => if k == key { return Ok(Some((slots[i].pref, d))); }
          case Ok(_) => return Err(Corrupted);
        }
      }
      r := Ok(None);
    }

    method MayHaveKey(key: Bytes) returns (r: Result<bool>)
      requires Readable()
      modifies this`buckets
      ensures Readable() && (old(Core()) ==> Core()) && |buckets| == |old(buckets)|
      ensures var b := BucketFor(logMod, step, hasher.Of(key));
              r == if b < |view| then Ok(exists i :: 0 <= i < |view[b]| && view[b][i].hash == hasher.Of(key))
                else Err(Corrupted)
    {
      hide DataFile.Valid, TableFile.Valid, Dirty.Valid, LogFile.Follows, Recorded, BucketFor, Pow2, Stored, AllSound,
        Proper;
      var hash := hasher.Of(key);
      var bucket := BucketFor(logMod, step, hash);
      var resolved := ResolveBucket(bucket);
      match resolved { case Err(e) => return Err(e); case Ok(_) => }
      if bucket < |buckets| {
        if buckets[bucket].slots.Some? {
          var slots := buckets[bucket].slots.value;
          for i := 0 to |slots|
            invariant forall j :: 0 <= j < i ==> slots[j].hash != hash
          {
            if slots[i].hash == hash { return Ok(true); }
          }
        }
      } else {
        return Err(Corrupted);
      }
      r := Ok(false);
    }

    /** Appends data to the data file; the index does not change. */
    method AppendData(p: Payload) returns (r: Result<PRef>)
      requires Valid()
      modifies data, data.appender
      ensures Grows(old(data.appender.file), data.appender.file) && link.appender.pos == old(link.appender.pos)
      ensures Now() == old(Now()).(data := data.appender.file)
      ensures r.Ok? <==>
              Encodable(p) && |Serialize(p)| < 0x100_0000 && old(data.appender.pos) + 3 + |Serialize(p)| < INVALID
      ensures r.Err? ==> r.error == Panic
      ensures r.Ok? ==> Valid() && r.value == old(data.appender.pos) < INVALID
      ensures r.Ok? ==> r.value !in old(data.contents) && data.contents == old(data.contents)[r.value := p]
      ensures r.Ok? ==> data.appender.pos == old(data.appender.pos) + 3 + |Serialize(p)|
    {
      hide DataFile.Valid, TableFile.Valid, Dirty.Valid, LogFile.Follows, Recorded, Indexes, Stored, Proper, Encodable,
        Serialize, Params.Sound, Views, ListsSound, Remembers;
      r := data.AppendPayload(p);
      QueueGrows(old(data.appender.file), data.appender.file);
      if r.Ok? {
        RefsGrow(view, logMod, step, old(data.contents), data.contents, hasher, index, strays);
        ListsGrow(lists, old(data.contents), data.contents, hasher);
      }
    }

    // -------------------------------------------------------------- writing a batch

    ghost function Here(): Stage
      reads this`buckets, this`lists, table`file
    {
      Stage(buckets, table.file, lists)
    }

    /** The files as they are at this moment. */
    ghost function Now(): Disk
      reads log`file, table`file, table`older, link.appender`file, data.appender`file
    {
      Disk(log.file, table.file, table.older, link.appender.file, data.appender.file)
    }

    /** The log is durable and buckets are being written out; those in `left` still have to be. */
    ghost predicate Flushing(left: set<nat>, from: nat)
      reads this`lists, this`view, this`buckets, this`rehashed, this`base
      reads dirty, table, log, data, data.appender, link, link.appender
    {
      && Files() && Linked() && |view| == |buckets| <= 0x1_0000_0000 + 22 && dirty.used == |buckets|
      && Recorded(buckets, left, table.file, lists, log.logged, log.sourceLen, rehashed)
        && |table.file| <= CellPage(|buckets|) + 1
      && log.Follows(base) && log.file.Idle() && Guarded(Now(), base, from)
    }

    /** Every page written on the way leaves a state from which the last batch can be recovered. */
    method WriteTable(page: Page, ghost from: nat) returns (ghost trace: seq<Disk>)
      requires table.Valid() && Guarded(Now(), base, from)
      requires PageSelf(page) % PAGE_SIZE == 0 && PageSelf(page) + PAGE_SIZE <= INVALID
      requires var k := PageNumber(PageSelf(page));
               k < from || k >= |base.table| || Logged(log.file.durable, PAGE_SIZE * k) || page == base.table[k]
      modifies table
      ensures table.Valid() && table.file == Updated(old(table.file), page) && Guarded(Now(), base, from)
      ensures forall d :: d in trace ==> Guarded(d, base, from)
      ensures Leads(old(Now()), trace, Now()) && |trace| > 0
    {
      hide TableFile.Valid, Guarded, Updated, PageSelf, Leads, Writes, Protected;
      ghost var before := Now();
      ghost var steps := table.UpdatePage(page);
      trace := Writes(before, steps);
      UpdateLeads(before, page, steps);
      UpdateGuarded(before, base, from, page, steps);
      LeadsToLast(before, trace, Now());
    }

    /** Writes a list of slots to the link file; an empty one is not written. */
    method AppendLink(slots: seq<Slot>) returns (r: Result<PRef>)
      requires link.Valid() && Narrow(slots) && Proper(lists) && Stored(lists, link.contents)
      modifies this`lists, link, link.appender
      ensures link.appender.file.durable == old(link.appender.file.durable)
      ensures old(link.appender.file.pending) <= link.appender.file.pending
      ensures r.Err? ==> r.error == Panic
      ensures ListFits(slots, old(link.appender.pos)) ==> r.Ok?
      ensures r.Ok? ==> old(link.appender.pos) <= link.appender.pos <= old(link.appender.pos) + 4 + 10 * |slots|
      ensures r.Ok? && |slots| > 0 ==> r.value == old(link.appender.pos) < link.appender.pos
      ensures r.Ok? ==> link.Valid() && Stored(lists, link.contents) && ListFiled(old(lists), lists, r.value, slots)
    {
      hide DataFile.Valid, SlotsBytes, Serialize, ParseSlots, Encodable;
      if |slots| == 0 { return Ok(INVALID); }
      var links := FromSlots(slots);
      LinkLength(slots);
      r := link.AppendPayload(Link(links));
      if r.Ok? { lists := lists[r.value := slots]; }
    }

    /** The write of one bucket: list, reference, cell. */
    method WriteOut(n: nat, page: Page, ghost left: set<nat>, ghost from: nat)
        returns (r: Result<()>, ghost trace: seq<Disk>)
      requires Flushing(left, from) && n < |buckets| && n in left
      requires AllSound(view[n], data.contents, hasher) && ListsSound(lists, data.contents, hasher)
      requires buckets[n].slots.Some? && page == PageOrBlank(table.file, CellPage(n))
      modifies this`buckets, this`lists, table, link, link.appender
      ensures Leads(old(Now()), trace, Now()) && forall d :: d in trace ==> Guarded(d, base, from)
      ensures r.Ok? ==> Flushing(left - {n}, from) && |buckets| == |old(buckets)|
      ensures r.Ok? ==> ListsSound(lists, data.contents, hasher)
      ensures r.Err? ==> r.error == Panic && !ListFits(view[n], old(link.appender.pos))
      ensures r.Ok? ==> old(link.appender.pos) <= link.appender.pos <= old(link.appender.pos) + 4 + 10 * |view[n]|
      ensures r.Ok? ==> buckets == old(buckets)[n := buckets[n]]
      ensures r.Ok? && HasSlots(buckets[n]) ==> buckets[n].stored == old(link.appender.pos) < link.appender.pos
      ensures r.Ok? ==> Skipped(old(Here()), Here())
      ensures |old(table.file)| > 0 ==> |table.file| > 0 && PageHeader(table.file[0]) == PageHeader(old(table.file)[0])
    {
      hide DataFile.Valid, Recorded, Guarded, Dirty.Valid, Proper, Views, Stored, AllSound, Shaped, CellPage, CellPos,
        LoggedPage, AllKnown, WritePRef, PageSelf, PageHeader, LogFile.Follows, Logged, Narrow, Updated, PageOrBlank,
        ListsSound, Leads, Step, Grows, Skipped;
      var slots := buckets[n].slots.value;
      ViewAt(view, buckets, lists, n);
      SoundIsNarrow(slots, data.contents, hasher);
      MarkedIsLogged(buckets, n, left, table.file, lists, log, rehashed, base);
      PagesInReach(|buckets|);
      ghost var t, before, was := table.file, Now(), lists;
      var stored := AppendLink(slots);
      StreamsGrowGuarded(before, base, from, link.appender.file, data.appender.file);
      QueueGrows(before.link, link.appender.file);
      LinkGrows(before, link.appender.file);
      assert Now() == before.(link := link.appender.file);
      trace := [Now()];
      LeadsOne(before, Now());
      if stored.Err? { return Err(stored.error), trace; }
      ghost var filed := Now();
      var p := stored.value;
      WriteOutKeeps(buckets, n, p, left, t, was, lists, log.logged, log.sourceLen, rehashed);
      WriteOutSkips(buckets, n, p, t, was, lists);
      ViewsWrittenOut(view, buckets, n, p, was, lists);
      ListsSoundPush(was, lists, p, slots, data.contents, hasher);
      CellPageWritten(t, n, p, |buckets|);
      assert log.file.All() == log.file.durable;
      buckets := buckets[n := Bucket(p, Some(slots))];
      ghost var steps := WriteTable(WritePRef(page, CellPos(n), p), from);
      LeadsOn(before, trace, filed, steps, Now());
      trace := trace + steps;
      r := Ok(());
    }

    /** Writes the slots of one bucket to the link file and its reference to the table file. */
    method FlushBucket(n: nat, ghost left: set<nat>, ghost from: nat) returns (r: Result<()>, ghost trace: seq<Disk>)
      requires Flushing(left, from) && n < |buckets| && n in left
      requires AllSound(view[n], data.contents, hasher) && ListsSound(lists, data.contents, hasher)
      modifies this`buckets, this`lists, table, link, link.appender
      ensures Leads(old(Now()), trace, Now()) && forall d :: d in trace ==> Guarded(d, base, from)
      ensures r.Ok? ==> Flushing(left - {n}, from) && |buckets| == |old(buckets)|
      ensures r.Ok? ==> ListsSound(lists, data.contents, hasher)
      ensures r.Err? ==> r.error == Panic && !ListFits(view[n], old(link.appender.pos))
      ensures r.Ok? ==> old(link.appender.pos) <= link.appender.pos <= old(link.appender.pos) + 4 + 10 * |view[n]|
      ensures r.Ok? ==> buckets == old(buckets)[n := buckets[n]]
      ensures r.Ok? && HasSlots(buckets[n]) ==> buckets[n].stored == old(link.appender.pos) < link.appender.pos
      ensures r.Ok? ==> Skipped(old(Here()), Here())
      ensures |old(table.file)| > 0 ==> |table.file| > 0 && PageHeader(table.file[0]) == PageHeader(old(table.file)[0])
    {
      hide DataFile.Valid, LogFile.Follows, Recorded, Guarded, Dirty.Valid, Proper, Views, Stored, AllSound, SetCell,
        Shaped, CellPage, CellPos, LoggedPage, ListsSound, TableOffset, AllKnown, PageHeader, Logged, InvalidPage,
        Leads, Skipped;
      trace := [];
      LeadsNowhere(Now());
      NothingTouched(Here());
      PagesInReach(|buckets|);
      OffsetSplits(n);
      var read := table.ReadPage(ThisPage(TableOffset(n)));
      match read { case Err(e) => return Err(e), trace; case Ok(found) =>
        var page: Page;
        if found.Some? { page := found.value; } else { page := InvalidOffsetsPage(ThisPage(TableOffset(n))); }
        if buckets[n].slots.Some? {
          r, trace := WriteOut(n, page, left, from);
        } else {
          SkipKeeps(buckets, n, left, table.file, lists, log.logged, log.sourceLen, rehashed);
          r := Ok(());
        }
      }
    }

    /** The first page was logged, or is new, or keeps its header. */
    ghost predicate HeaderSafe()
      reads this`base, this`buckets, this`step, this`hasher, log`logged
    {
      0 in log.logged || |base.table| == 0
        || PageHeader(base.table[0]) == Header(|buckets|, step, hasher.sip0, hasher.sip1)
    }

    /** Pages from here on can be recovered while a batch is being written. */
    ghost function SafeFrom(): nat
      reads this`base, this`buckets, this`step, this`hasher, log`logged
    {
      if HeaderSafe() then 0 else 1
    }

    /** Rewrites the header of the first page, logged or not. */
    method WriteHeader(ghost left: set<nat>, ghost from: nat) returns (r: Result<()>, ghost trace: seq<Disk>)
      requires Flushing(left, from) && from == SafeFrom() && table.file == base.table && step <= INVALID
      modifies table
      ensures r.Ok? && Flushing(left, from)
      ensures Leads(old(Now()), trace, Now()) && forall d :: d in trace ==> Guarded(d, base, from)
      ensures table.file == SetHeader(old(table.file), |buckets|, step, hasher.sip0, hasher.sip1)
      ensures |table.file| > 0 && PageHeader(table.file[0]) == Header(|buckets|, step, hasher.sip0, hasher.sip1)
      ensures |trace| > 0 && (from == 1 ==> Lost(Now(), base)) && Skipped(old(Here()), Here())
    {
      hide DataFile.Valid, Recorded, Guarded, Dirty.Valid, Proper, Views, Stored, AllSound, Shaped, CellPage, AllKnown,
        WithHeader, PageSelf, PageHeader, LogFile.Follows, Logged, Updated, InvalidPage, Leads, Lost, SetHeader,
        Skipped;
      trace := [];
      var read := table.ReadPage(0);
      match read { case Err(e) => return Err(e), trace; case Ok(found) =>
        var page: Page;
        if found.Some? { page := found.value; } else { page := InvalidOffsetsPage(0); }
        HeaderPageWritten(table.file, |buckets|, step, hasher.sip0, hasher.sip1);
        HeaderKeeps(buckets, left, table.file, lists, log.logged, log.sourceLen, rehashed, |buckets|, step, hasher.sip0,
          hasher.sip1);
        HeaderSkips(buckets, table.file, lists, |buckets|, step, hasher.sip0, hasher.sip1);
        if 0 in log.logged { LoggedIsDurable(log, base, 0); }
        if |base.table| > 0 && PageHeader(base.table[0]) == Header(|buckets|, step, hasher.sip0, hasher.sip1) {
          SameHeader(base.table[0], |buckets|, step, hasher.sip0, hasher.sip1);
        }
        trace := WriteTable(WithHeader(page, |buckets|, step, hasher.sip0, hasher.sip1), from);
        if from == 1 { HeaderLost(Now(), log, base, |buckets|, step, hasher.sip0, hasher.sip1); }
      }
      r := Ok(());
    }

    /** Writes out header and modified buckets and waits for the link file. */
    method Flush(ghost from: nat) returns (r: Result<()>, ghost trace: seq<Disk>)
      requires Flushing(dirty.marks, from) && from == SafeFrom() && table.file == base.table && step <= INVALID
      requires forall b :: 0 <= b < |view| ==> AllSound(view[b], data.contents, hasher)
      requires ListsSound(lists, data.contents, hasher)
      modifies this`buckets, this`lists, table, link, link.appender, dirty`bits, dirty`marks
      ensures Leads(old(Now()), trace, Now()) && forall d :: d in trace ==> Guarded(d, base, from)
      ensures from == 1 ==> exists d :: d in trace && Lost(d, base)
      ensures r.Err? ==> r.error == Panic && !ViewFits(view, old(link.appender.pos))
      ensures r.Ok? ==> link.appender.pos < old(link.appender.pos) + Cost(view) + PAGE_SIZE + 7
      ensures r.Ok? ==> Skipped(old(Here()), Here())
      ensures r.Ok? ==> FiledInOrder(buckets, old(dirty.marks), |buckets|, old(link.appender.pos), link.appender.pos)
      ensures r.Ok? ==> Flushing({}, from) && |buckets| == |old(buckets)| && dirty.marks == {}
      ensures r.Ok? ==> ListsSound(lists, data.contents, hasher)
      ensures r.Ok? ==> |table.file| > 0
      ensures r.Ok? ==> PageHeader(table.file[0]) == Header(|buckets|, step, hasher.sip0, hasher.sip1)
      ensures r.Ok? ==> link.appender.file.waiting == 0 && link.appender.page == None
      ensures r.Ok? ==> link.appender.stream == Flatten(link.appender.file.All())
    {
      hide DataFile.Valid, Recorded, Guarded, Dirty.Valid, TableFile.Valid, MemTable.Linked, AllSound, CellPage,
        PageHeader, LogFile.Follows, SetHeader, Flatten, ListsSound, Leads, Lost, Padded, Cost, Skipped, FiledInOrder;
      ghost var start, steps := Now(), [];
      r, trace := WriteHeader(dirty.marks, from);
      LeadsToLast(start, trace, Now());
      if r.Err? { return; }
      ghost var written, here := Now(), Here();
      var isDirty := dirty.IsDirty();
      if isDirty {
        r, steps := FlushDirty(from);
        LeadsOn(start, trace, written, steps, Now());
        assert written in trace + steps;
        trace := trace + steps;
        if r.Err? { return; }
        SkippedOn(old(Here()), here, Here());
      }
      ghost var flushed := Now();
      PaddedIsAligned(link.appender.pos);
      FiledStill(buckets, dirty.marks, |buckets|, old(link.appender.pos), link.appender.pos,
        Padded(link.appender.pos));
      r := FinishFlush(from);
      LeadsOn(start, trace, flushed, [Now()], Now());
      assert written in trace + [Now()];
      trace := trace + [Now()];
    }

    method FinishFlush(ghost from: nat) returns (r: Result<()>)
      requires Flushing({}, from)
      modifies link, link.appender, dirty`bits, dirty`marks
      ensures r.Err? ==> r.error == Panic
      ensures r.Ok? <==> Padded(old(link.appender.pos)) < INVALID
      ensures r.Ok? ==> link.appender.pos == Padded(old(link.appender.pos))
      ensures r.Ok? ==> Flushing({}, from) && dirty.marks == {}
      ensures Leads(old(Now()), [Now()], Now()) && Guarded(Now(), base, from)
      ensures r.Ok? ==> link.appender.file.waiting == 0 && link.appender.page == None
      ensures r.Ok? ==> link.appender.stream == Flatten(link.appender.file.All())
    {
      hide DataFile.Valid, Recorded, Guarded, Dirty.Valid, TableFile.Valid, Proper, Views, Stored, AllKnown, CellPage,
        LogFile.Follows, Flatten, Leads, Step, Padded;
      dirty.Clear();
      ghost var before := Now();
      r := link.Flush();
      StreamsGrowGuarded(before, base, from, link.appender.file, data.appender.file);
      assert Now() == before.(link := link.appender.file);
      LinkGrows(before, link.appender.file);
      LeadsOne(before, Now());
    }

    /** Walks the bitmap up to `used` and writes out every marked bucket. */
    method FlushDirty(ghost from: nat) returns (r: Result<()>, ghost trace: seq<Disk>)
      requires Flushing(dirty.marks, from) && dirty.Valid() && dirty.used == |buckets| == |view|
      requires forall b :: 0 <= b < |view| ==> AllSound(view[b], data.contents, hasher)
      requires |table.file| > 0 && data != link && ListsSound(lists, data.contents, hasher)
      modifies this`buckets, this`lists, table, link, link.appender
      ensures Leads(old(Now()), trace, Now()) && forall d :: d in trace ==> Guarded(d, base, from)
      ensures r.Err? ==> r.error == Panic && !ViewFits(view, old(link.appender.pos))
      ensures r.Ok? ==> link.appender.pos <= old(link.appender.pos) + Cost(view) && Skipped(old(Here()), Here())
      ensures r.Ok? ==> FiledInOrder(buckets, dirty.marks, |buckets|, old(link.appender.pos), link.appender.pos)
      ensures r.Ok? ==> Flushing({}, from) && |buckets| == |old(buckets)| && ListsSound(lists, data.contents, hasher)
      ensures |table.file| > 0 && PageHeader(table.file[0]) == PageHeader(old(table.file)[0])
    {
      hide *;
      r, trace := Ok(()), [];
      ghost var left, steps := dirty.marks, [];
      LeadsNowhere(Now());
      NothingTouched(Here());
      NothingFiled(buckets, dirty.marks, link.appender.pos);
      CostOfNothing(view);
      for n := 0 to dirty.used
        invariant Flushing(left, from) && |buckets| == |old(buckets)| && ListsSound(lists, data.contents, hasher)
        invariant left == set b | b in dirty.marks && n <= b
        invariant Leads(old(Now()), trace, Now()) && forall d :: d in trace ==> Guarded(d, base, from)
        invariant |table.file| > 0 && PageHeader(table.file[0]) == PageHeader(old(table.file)[0])
        invariant r.Ok? && Skipped(old(Here()), Here())
        invariant old(link.appender.pos) <= link.appender.pos <= old(link.appender.pos) + Cost(view[..n])
        invariant FiledInOrder(buckets, dirty.marks, n, old(link.appender.pos), link.appender.pos)
      {
        CostOfPrefix(view, n);
        if ViewFits(view, old(link.appender.pos)) {
          ListOfViewFits(view, n, old(link.appender.pos), link.appender.pos);
        }
        var marked := dirty.Get(n);
        ghost var was, pos := buckets, link.appender.pos;
        if marked {
          if n < |buckets| {
            ghost var before, here := Now(), Here();
            r, steps := FlushBucket(n, left, from);
            LeadsOn(old(Now()), trace, before, steps, Now());
            trace := trace + steps;
            if r.Err? { return; }
            SkippedOn(old(Here()), here, Here());
            left := left - {n};
          }
        }
        FiledNext(was, dirty.marks, n, old(link.appender.pos), pos, buckets, link.appender.pos);
      }
      AllWrittenOut(left, from);
      assert view[..|view|] == view;
    }

    lemma AllWrittenOut(left: set<nat>, from: nat)
      requires Flushing(left, from) && forall b :: b in left ==> b >= |buckets|
      ensures Flushing({}, from)
    {
      hide DataFile.Valid, Recorded, Guarded, Dirty.Valid, TableFile.Valid, MemTable.Linked, CellPage, LogFile.Follows;
      NothingLeft(buckets, left, table.file, lists, log.logged, log.sourceLen, rehashed);
    }

    /** Writes and syncs the log; from here on table pages may be overwritten. */
    method BeginBatch() returns (ghost trace: seq<Disk>)
      requires Valid()
      modifies log`file
      ensures Flushing(dirty.marks, SafeFrom()) && step <= INVALID && table.file == base.table
      ensures forall b :: 0 <= b < |view| ==> AllSound(view[b], data.contents, hasher)
      ensures ListsSound(lists, data.contents, hasher)
      ensures Leads(old(Now()), trace, Now()) && Guarded(old(Now()), base, SafeFrom())
      ensures forall d :: d in trace ==> Guarded(d, base, SafeFrom())
    {
      hide DataFile.Valid, Recorded, Guarded, Dirty.Valid, TableFile.Valid, MemTable.Linked, AllSound, CellPage,
        LogFile.Follows, Indexes, Remembers, ListsSound, PageHeader, Leads, Step, Grows, MemTable.SafeFrom,
        Params.Sound;
      SizesInReach(Params(logMod, step, |buckets|));
      IndexesSound(view, logMod, step, data.contents, hasher, index, strays);
      IdleIsGuarded(log, Now(), base, SafeFrom());
      log.Flush();
      IdleIsGuarded(log, Now(), base, SafeFrom());
      ghost var flushed := Now();
      LogGrows(old(Now()), log.file);
      LeadsOne(old(Now()), flushed);
      SyncSettles(log.file);
      log.Sync();
      IdleIsGuarded(log, Now(), base, SafeFrom());
      LogGrows(flushed, log.file);
      LeadsOne(flushed, Now());
      LeadsOn(old(Now()), [flushed], flushed, [Now()], Now());
      trace := [flushed] + [Now()];
    }

    /** Syncs the link file, which has been written. */
    method SyncLink(ghost from: nat)
      requires Flushing({}, from) && link.appender.file.waiting == 0
      requires link.appender.stream == Flatten(link.appender.file.All())
      modifies link.appender`file
      ensures Flushing({}, from) && Leads(old(Now()), [Now()], Now()) && Guarded(Now(), base, from)
      ensures link.appender.file.Idle() && link.appender.stream == Flatten(link.appender.file.durable)
    {
      hide DataFile.Valid, Recorded, Guarded, Dirty.Valid, TableFile.Valid, MemTable.Linked, CellPage, LogFile.Follows,
        Flatten, Leads, Step;
      ghost var before := Now();
      SyncSettles(link.appender.file);
      link.Sync();
      StreamsGrowGuarded(before, base, from, link.appender.file, data.appender.file);
      assert Now() == before.(link := link.appender.file);
      LinkGrows(before, link.appender.file);
      LeadsOne(before, Now());
    }

    /** Syncs the table file. */
    method SyncTable(ghost from: nat)
      requires Flushing({}, from)
      modifies table`older
      ensures Flushing({}, from) && Leads(old(Now()), [Now()], Now()) && Guarded(Now(), base, from) && table.older == []
    {
      hide DataFile.Valid, Recorded, Guarded, Dirty.Valid, TableFile.Valid, MemTable.Linked, CellPage, LogFile.Follows,
        Leads;
      ghost var before := Now();
      table.Sync();
      SyncedGuarded(before, base, from);
      assert Now() == before.Synced();
      LeadsOne(before, Now());
    }

    /** The second half of a batch: syncs table and link file, writes and syncs the data file. */
    method SettleFiles(ghost from: nat) returns (r: Result<()>, ghost trace: seq<Disk>)
      requires Flushing({}, from) && dirty.marks == {}
      requires link.appender.file.waiting == 0 && link.appender.page == None
      requires link.appender.stream == Flatten(link.appender.file.All())
      modifies table`older, data, data.appender, link.appender`file
      ensures Leads(old(Now()), trace, Now()) && forall d :: d in trace ==> Guarded(d, base, from)
      ensures r.Err? ==> r.error == Panic
      ensures r.Ok? <==> Padded(old(data.appender.pos)) < INVALID
      ensures r.Ok? ==> Flushing({}, from) && Written() && table.older == [] && data.contents == old(data.contents)
      ensures r.Ok? ==> data.appender.pos == Padded(old(data.appender.pos))
      ensures link.appender.pos == old(link.appender.pos)
    {
      hide DataFile.Valid, Recorded, Guarded, Dirty.Valid, TableFile.Valid, MemTable.Linked, CellPage, LogFile.Follows,
        Flatten, Padded, Leads;
      ghost var start := Now();
      SyncTable(from);
      ghost var tabled := Now();
      SyncLink(from);
      ghost var linked := Now();
      LeadsOn(start, [tabled], tabled, [linked], linked);
      r := FlushData(from);
      ghost var flushed := Now();
      trace := [tabled] + [linked] + [flushed];
      LeadsOn(start, [tabled] + [linked], linked, [flushed], flushed);
      if r.Err? { return; }
      SyncData(from);
      LeadsOn(start, trace, flushed, [Now()], Now());
      trace := trace + [Now()];
    }

    /** Pads the data file and writes it. */
    method FlushData(ghost from: nat) returns (r: Result<()>)
      requires Flushing({}, from)
      modifies data, data.appender
      ensures Leads(old(Now()), [Now()], Now()) && Guarded(Now(), base, from)
      ensures r.Err? ==> r.error == Panic
      ensures r.Ok? <==> Padded(old(data.appender.pos)) < INVALID
      ensures r.Ok? ==> Flushing({}, from) && data.contents == old(data.contents)
      ensures r.Ok? ==> data.appender.pos == Padded(old(data.appender.pos))
      ensures r.Ok? ==> data.appender.file.waiting == 0 && data.appender.page == None
      ensures r.Ok? ==> data.appender.stream == Flatten(data.appender.file.All())
    {
      hide DataFile.Valid, Recorded, Guarded, Dirty.Valid, TableFile.Valid, MemTable.Linked, CellPage, LogFile.Follows,
        Flatten, Padded, Leads, Step;
      ghost var before := Now();
      r := data.Flush();
      StreamsGrowGuarded(before, base, from, link.appender.file, data.appender.file);
      assert Now() == before.(data := data.appender.file);
      DataGrows(before, data.appender.file);
      LeadsOne(before, Now());
    }

    /** Syncs the data file, which has been written. */
    method SyncData(ghost from: nat)
      requires Flushing({}, from) && data.appender.file.waiting == 0
      requires data.appender.stream == Flatten(data.appender.file.All())
      modifies data.appender`file
      ensures Flushing({}, from) && Leads(old(Now()), [Now()], Now()) && Guarded(Now(), base, from)
      ensures data.appender.file.Idle() && data.appender.stream == Flatten(data.appender.file.durable)
    {
      hide DataFile.Valid, Recorded, Guarded, Dirty.Valid, TableFile.Valid, MemTable.Linked, CellPage, LogFile.Follows,
        Flatten, Leads, Step;
      ghost var before := Now();
      SyncSettles(data.appender.file);
      data.Sync();
      StreamsGrowGuarded(before, base, from, link.appender.file, data.appender.file);
      assert Now() == before.(data := data.appender.file);
      DataGrows(before, data.appender.file);
      LeadsOne(before, Now());
    }

    /** Everything has been written and is durable. */
    ghost predicate Written()
      reads dirty, table, data, data.appender, link, link.appender
    {
      && Files() && dirty.marks == {}
      && link.appender.file.Idle() && link.appender.page == None
        && link.appender.stream == Flatten(link.appender.file.durable)
      && data.appender.file.Idle() && data.appender.page == None
        && data.appender.stream == Flatten(data.appender.file.durable)
    }

    ghost function Committed(): Commit
      reads table`file, link.appender`file, data.appender`file
    {
      Commit(table.file, link.appender.file.durable, data.appender.file.durable)
    }

    /** Starts a new log; the moment the old one is gone, the new batch is what recovery restores. */
    method EndBatch() returns (ghost trace: seq<Disk>)
      requires Written() && Linked() && |view| == |buckets| <= 0x1_0000_0000 + 22
      requires |table.file| <= CellPage(|buckets|) + 1
      requires dirty.used == |buckets| && Recorded(buckets, {}, table.file, lists, log.logged, log.sourceLen, rehashed)
      requires log.file.Idle() && table.older == []
      modifies this`base, log
      ensures base == Committed() && base.Sized() && Core() && Files() && Linked() && log.logged == {}
      ensures Leads(old(Now()), trace, Now()) && |trace| > 0 && trace[0].log == Settled([])
      ensures forall d :: d in trace ==> Sealed(d, base)
    {
      hide DataFile.Valid, Recorded, Guarded, Dirty.Valid, TableFile.Valid, MemTable.Linked, CellPage, LogHeader,
        Flatten, Sealed, Leads, PreImage;
      SizedNow();
      PagesInReach(|buckets|);
      base := Committed();
      SettledKeeps(buckets, table.file, lists, log.logged, log.sourceLen, rehashed, {}, PAGE_SIZE * |table.file|);
      log.Reset(PAGE_SIZE * |table.file|);
      ghost var before := Now();
      ghost var steps := log.Renew(PAGE_SIZE * |data.appender.file.durable|, PAGE_SIZE * |table.file|,
        PAGE_SIZE * |link.appender.file.durable|);
      trace := LogSteps(before, steps);
      NewLogLeads(before, [HeaderFor(base)], steps);
      NewLogSealed(before, base, steps);
      assert log.file.All() == [HeaderFor(base)];
    }

    lemma EndsNow()
      requires Written()
      ensures data.appender.pos == PAGE_SIZE * |data.appender.file.durable|
    {
      hide DataFiles.Filed, Spells, Dirty.Valid, TableFile.Valid;
      data.appender.StreamIsPrefix();
    }

    lemma SizedNow()
      requires Written()
      ensures Shaped(table.file) && PAGE_SIZE * |table.file| <= INVALID
      ensures PAGE_SIZE * |link.appender.file.durable| < INVALID && PAGE_SIZE * |data.appender.file.durable| < INVALID
    {
      hide DataFiles.Filed, Spells, Dirty.Valid;
      data.appender.StreamIsPrefix();
      link.appender.StreamIsPrefix();
    }

    /** Enough room for a batch: in the link file for all buckets, in the data file for the padding. */
    ghost predicate BatchFits(linkEnd: PRef, dataEnd: PRef)
      reads this`view
    {
      ViewFits(view, linkEnd) && Padded(dataEnd) < INVALID
    }

    /** Ends the current batch and starts a new one. `trace` lists the files after each step. Up to `cut` a crash
        recovers the last batch, provided the header of the first page can be; from there on it recovers this one. */
    method Batch() returns (r: Result<()>, ghost trace: seq<Disk>, ghost cut: nat)
      requires Valid()
      modifies this`buckets, this`lists, this`base, this`saved, dirty`bits, dirty`marks
      modifies table, log, data, data.appender, link, link.appender
      ensures Leads(old(Now()), trace, Now()) && Guarded(old(Now()), old(base), old(SafeFrom()))
      ensures cut <= |trace| && (!old(HeaderSafe()) ==> exists i :: 0 <= i < cut && Lost(trace[i], old(base)))
      ensures forall i :: 0 <= i < cut ==> Guarded(trace[i], old(base), old(SafeFrom()))
      ensures r.Err? ==> r.error == Panic && cut == |trace|
      ensures r.Err? ==> !BatchFits(old(link.appender.pos), old(data.appender.pos))
      ensures r.Ok? ==> link.appender.pos < old(link.appender.pos) + Cost(view) + PAGE_SIZE + 7
      ensures r.Ok? ==> Skipped(old(Here()), Here()) && log.logged == {} && data.appender.pos == PAGE_SIZE * |base.data|
      ensures r.Ok? ==> cut < |trace| && trace[cut].log == Settled([])
      ensures r.Ok? ==> forall i :: cut <= i < |trace| ==> Sealed(trace[i], base)
      ensures r.Ok? ==> Valid() && base == Committed() && dirty.marks == {} && |buckets| == |old(buckets)|
      ensures r.Ok? ==> data.contents == old(data.contents) && data.appender.pos == Padded(old(data.appender.pos))
      ensures r.Ok? ==>
              saved == Saved(Params(logMod, step, |buckets|), hasher, buckets, view, index, strays, rehashed, lists,
                link.contents,
                data.contents)
    {
      hide MemTable.Valid, MemTable.Files, MemTable.Linked, MemTable.Written, Recorded, Guarded, Sealed,
        LogFile.Follows, CellPage, Indexes, ListsSound, Params.Sound, PageHeader, Padded, MemTable.SafeFrom,
        MemTable.HeaderSafe, Leads, Lost, ViewFits, Cost, MemTable.BatchFits, Skipped;
      ghost var steps: seq<Disk>;
      r, trace := WriteBatch();
      cut := |trace|;
      forall i | 0 <= i < cut ensures Guarded(trace[i], old(base), old(SafeFrom())) { assert trace[i] in trace; }
      ghost var writing := trace;
      assert forall d :: d in trace ==> exists i :: 0 <= i < cut && trace[i] == d;
      if r.Err? { return; }
      ghost var written := Now();
      steps := SealBatch();
      LeadsOn(old(Now()), trace, written, steps, Now());
      trace := trace + steps;
      assert trace[..cut] == writing;
    }

    lemma Apart()
      requires Valid()
      ensures data != link && data.appender != link.appender && |view| == |buckets|
    {
      hide MemTable.Linked, MemTable.Ledgered, MemTable.BetweenBatches, Indexes, ListsSound, Remembers, Params.Sound,
        DataFile.Valid, TableFile.Valid, Dirty.Valid;
    }

    /** The writes of a batch, all of them undone by a recovery. */
    method WriteBatch() returns (r: Result<()>, ghost trace: seq<Disk>)
      requires Valid()
      modifies this`buckets, this`lists, dirty`bits, dirty`marks, table
      modifies log`file, data, data.appender, link, link.appender
      ensures Leads(old(Now()), trace, Now()) && Guarded(old(Now()), base, old(SafeFrom()))
      ensures !old(HeaderSafe()) ==> exists d :: d in trace && Lost(d, base)
      ensures forall d :: d in trace ==> Guarded(d, base, old(SafeFrom()))
      ensures r.Err? ==> r.error == Panic && !BatchFits(old(link.appender.pos), old(data.appender.pos))
      ensures r.Ok? ==> link.appender.pos < old(link.appender.pos) + Cost(view) + PAGE_SIZE + 7
      ensures r.Ok? ==> Skipped(old(Here()), Here())
      ensures r.Ok? ==> Flushing({}, old(SafeFrom())) && Written() && ListsSound(lists, data.contents, hasher)
      ensures r.Ok? ==> table.older == []
      ensures r.Ok? ==> |table.file| > 0
      ensures r.Ok? ==> PageHeader(table.file[0]) == Header(|buckets|, step, hasher.sip0, hasher.sip1)
      ensures r.Ok? ==> |buckets| == |old(buckets)| == |view|
      ensures r.Ok? ==> Params(logMod, step, |buckets|).Sound()
      ensures r.Ok? ==> Indexes(view, logMod, step, data.contents, hasher, index, strays)
      ensures r.Ok? ==> data.contents == old(data.contents) && data.appender.pos == Padded(old(data.appender.pos))
    {
      hide DataFile.Valid, Recorded, Guarded, Dirty.Valid, TableFile.Valid, MemTable.Linked, MemTable.Core, AllSound,
        CellPage, LogFile.Follows, Indexes, Remembers, ListsSound, PageHeader, Padded, Params.Sound,
        MemTable.HeaderSafe, Flatten, Leads, Lost, ViewFits, Cost, Skipped, MemTable.Written, MemTable.Flushing;
      Apart();
      ghost var from, start := SafeFrom(), Now();
      ghost var steps: seq<Disk>;
      trace := BeginBatch();
      ghost var reached := Now();
      r, steps := Flush(from);
      LeadsOn(start, trace, reached, steps, Now());
      trace := trace + steps;
      if r.Err? { return; }
      reached := Now();
      r, steps := SettleFiles(from);
      LeadsOn(start, trace, reached, steps, Now());
      trace := trace + steps;
    }

    method SealBatch() returns (ghost trace: seq<Disk>)
      requires Written() && Linked() && |view| == |buckets| && |table.file| <= CellPage(|buckets|) + 1
      requires dirty.used == |buckets| && Recorded(buckets, {}, table.file, lists, log.logged, log.sourceLen, rehashed)
      requires log.file.Idle() && table.older == [] && ListsSound(lists, data.contents, hasher)
      requires |table.file| > 0 && PageHeader(table.file[0]) == Header(|buckets|, step, hasher.sip0, hasher.sip1)
      requires Params(logMod, step, |buckets|).Sound()
      requires Indexes(view, logMod, step, data.contents, hasher, index, strays)
      modifies this`base, this`saved, log
      ensures Valid() && base == Committed() && dirty.marks == {} && log.logged == {}
      ensures data.appender.pos == PAGE_SIZE * |base.data|
      ensures saved == Saved(Params(logMod, step, |buckets|), hasher, buckets, view, index, strays, rehashed, lists,
              link.contents,
              data.contents)
      ensures Leads(old(Now()), trace, Now()) && |trace| > 0 && trace[0].log == Settled([])
      ensures forall d :: d in trace ==> Sealed(d, base)
    {
      hide DataFile.Valid, Recorded, Dirty.Valid, TableFile.Valid, MemTable.Linked, MemTable.Core, CellPage,
        LogFile.Follows, Indexes, Remembers, ListsSound, PageHeader, Sealed, Params.Sound, Flatten, Leads;
      SizesInReach(Params(logMod, step, |buckets|));
      EndsNow();
      trace := EndBatch();
      saved := Saved(Params(logMod, step, |buckets|), hasher, buckets, view, index, strays, rehashed, lists,
        link.contents,
        data.contents);
      RememberNow();
    }

    /** What has just been committed is all there. */
    lemma RememberNow()
      requires Core() && Written() && |view| == |buckets| && Params(logMod, step, |buckets|).Sound()
      requires Indexes(view, logMod, step, data.contents, hasher, index, strays)
      requires ListsSound(lists, data.contents, hasher)
      requires base == Committed() && |table.file| > 0
      requires PageHeader(table.file[0]) == Header(|buckets|, step, hasher.sip0, hasher.sip1)
      requires saved == Saved(Params(logMod, step, |buckets|), hasher, buckets, view, index, strays, rehashed, lists,
              link.contents,
              data.contents)
      ensures Remembers(base, saved)
    {
      hide Recorded, Indexes, ListsSound, Proper, Views, AllKnown, Stored, Spells, Dirty.Valid, TableFile.Valid,
        LogFile.Follows, Flatten, Concat, Contains, CellPage, Params.Sound, PageHeader;
      SettledKeeps(buckets, table.file, lists, log.logged, log.sourceLen, rehashed, {}, 0);
      data.appender.StreamIsPrefix();
      link.appender.StreamIsPrefix();
    }

    // -------------------------------------------------------------- opening

    /** The files as found on opening: no queues, nothing in memory. */
    ghost predicate Found()
      reads table, log, data, data.appender, link, link.appender
    {
      && data != link && data.appender != link.appender && table.Valid() && log.file.Idle()
      && data.appender.page == None && data.appender.file.Idle()
      && link.appender.page == None && link.appender.file.Idle()
    }

    ghost function OnDisk(): Image
      reads log`file, table`file, link.appender`file, data.appender`file
    {
      Image(log.file.durable, table.file, link.appender.file.durable, data.appender.file.durable)
    }

    /** Cuts table, data and link file back to the lengths the log header gives. */
    method CutBack(ghost c: Commit, ghost s: Saved, ghost from: nat)
        returns (r: Result<(nat, nat, nat)>, ghost trace: seq<Disk>)
      requires Found() && Guarded(Now(), c, from) && Remembers(c, s)
      modifies table, data, data.appender, link, link.appender
      ensures r == Ok((PAGE_SIZE * |c.data|, PAGE_SIZE * |c.table|, PAGE_SIZE * |c.link|))
      ensures Found() && data.Valid() && link.Valid() && data.contents == s.refs && link.contents == s.links
      ensures table.file == old(table.file)[..|c.table|] && Guarded(Now(), c, from)
      ensures data.appender.file == Settled(c.data) && link.appender.file == Settled(c.link)
      ensures data.appender.stream == Flatten(c.data) && link.appender.stream == Flatten(c.link)
      ensures Leads(old(Now()), trace, Now()) && forall d :: d in trace ==> Guarded(d, c, from)
    {
      hide Shaped, DataFile.Valid, LogOf, Intact, Remembers, Framed, Contains, Flatten, Spells, PageHeader, ReadPRef,
        LogHeader, Guarded, Leads;
      trace := [];
      assert log.file.All() == log.file.durable;
      HeaderLengths(Now(), c, from);
      var first := log.file.durable[0];
      var dataLen, tableLen, linkLen := ReadPRef(first, 0), ReadPRef(first, 6), ReadPRef(first, 12);
      ghost var d0 := Now();
      CutGuarded(d0, c, from);
      CommittedIsStored(c, s);
      var cut := table.Truncate(tableLen);
      match cut { case Err(e) => return Err(e), trace; case Ok(_) => }
      trace := trace + [Now()];
      cut := data.Truncate(dataLen, s.refs);
      match cut { case Err(e) => return Err(e), trace; case Ok(_) => }
      trace := trace + [Now()];
      cut := link.Truncate(linkLen, s.links);
      match cut { case Err(e) => return Err(e), trace; case Ok(_) => }
      trace := trace + [Now()];
      CutLeads(d0, c, from, trace);
      r := Ok((dataLen, tableLen, linkLen));
    }

    /** Writes the logged pages back, as far as the log iterator goes. */
    method ReplayLog(ghost from: nat) returns (ghost trace: seq<Disk>)
      requires table.Valid() && log.file.Idle() && Guarded(Now(), base, from)
      modifies table
      ensures table.Valid() && Guarded(Now(), base, from)
      ensures |log.file.durable| > 0 && table.file == Replay(old(table.file), Replayed(log.file.durable))
      ensures Leads(old(Now()), trace, Now()) && forall d :: d in trace ==> Guarded(d, base, from)
    {
      hide Guarded, TableFile.Valid, Updated, PreImage, Leads;
      trace := [];
      LeadsNowhere(Now());
      var pages := log.file.durable;
      LogPages(Now(), base, from);
      var k := 1;
      while k <= LAST_LOG_PAGE && k < |pages|
        invariant 1 <= k <= |pages|
        invariant table.Valid() && Guarded(Now(), base, from)
        invariant table.file == Replay(old(table.file), pages[1..k])
        invariant Leads(old(Now()), trace, Now())
        invariant forall d :: d in trace ==> Guarded(d, base, from)
        decreases |pages| - k
      {
        LoggedPageFits(Now(), base, from, k);
        ghost var before := Now();
        ghost var steps := WriteTable(pages[k], from);
        LeadsOn(old(Now()), trace, before, steps, Now());
        trace := trace + steps;
        assert pages[1..k + 1] == pages[1..k] + [pages[k]];
        k := k + 1;
      }
      assert pages[1..] == pages[1..|pages|];
    }

    /** Undoes what was written since the last batch, syncs the table file and starts a new log. */
    method RollBack(lengths: (nat, nat, nat), ghost from: nat) returns (ghost trace: seq<Disk>)
      requires table.Valid() && log.file.Idle() && Guarded(Now(), base, from) && base.Sized()
      requires data.appender.file == Settled(base.data) && link.appender.file == Settled(base.link)
      requires lengths == (PAGE_SIZE * |base.data|, PAGE_SIZE * |base.table|, PAGE_SIZE * |base.link|)
      modifies table, log`file
      ensures table.Valid() && log.file == Settled([HeaderFor(base)]) && |old(log.file.durable)| > 0
      ensures table.file == Replay(old(table.file), Replayed(old(log.file.durable)))
      ensures Leads(old(Now()), trace, Now())
      ensures table.file == base.table ==> Sealed(Now(), base)
      ensures table.file == base.table ==> forall d :: d in trace ==> Guarded(d, base, from) || Sealed(d, base)
    {
      hide Guarded, TableFile.Valid, LogHeader, Sealed, Replay, Leads;
      trace := ReplayLog(from);
      ghost var before := Now();
      table.Sync();
      SyncedGuarded(before, base, from);
      ghost var synced := Now();
      LeadsOne(before, synced);
      LeadsOn(old(Now()), trace, before, [synced], synced);
      ghost var logs := log.Renew(lengths.0, lengths.1, lengths.2);
      NewLogLeads(synced, log.file.durable, logs);
      LeadsOn(old(Now()), trace + [synced], synced, LogSteps(synced, logs), Now());
      trace := trace + [synced] + LogSteps(synced, logs);
      if table.file == base.table {
        NewLogSealed(synced, base, logs);
        assert synced.(log := logs[3]) == Now();
      }
    }

    /** Recovery is what `Recovered` says, and every state on the way recovers to the same. `from` is the first
        table page that can be restored. Without a log nothing is touched. */
    method Recover(ghost c: Commit, ghost s: Saved, ghost from: nat) returns (r: Result<()>, ghost trace: seq<Disk>)
      requires Found() && (|log.file.durable| > 0 ==> Guarded(Now(), c, from) && Remembers(c, s))
      modifies this`base, table, log`file, data, data.appender, link, link.appender
      ensures r.Ok? && Found() && table.Valid() && OnDisk() == Recovered(old(OnDisk()))
      ensures Leads(old(Now()), trace, Now())
      ensures |old(log.file.durable)| == 0 ==> trace == []
      ensures |old(log.file.durable)| == 0 ==> unchanged(table, log, data, data.appender, link, link.appender)
      ensures |old(log.file.durable)| > 0 ==>
        && data.Valid() && link.Valid() && data.contents == s.refs && link.contents == s.links
        && data.appender.file == Settled(c.data) && link.appender.file == Settled(c.link)
        && data.appender.stream == Flatten(c.data) && link.appender.stream == Flatten(c.link)
        && log.file == Settled([HeaderFor(c)]) && base == c
      ensures |old(log.file.durable)| > 0 && from == 0 ==>
        && table.file == c.table && (Guarded(Now(), c, 0) || Sealed(Now(), c))
        && forall d :: d in trace ==> Guarded(d, c, 0) || Sealed(d, c)
    {
      hide Guarded, DataFile.Valid, TableFile.Valid, Remembers, Flatten, Spells, LogHeader, Sealed, Replay, Leads;
      trace := [];
      LeadsNowhere(Now());
      if |log.file.durable| > 0 {
        base := c;
        RecoverySteps(Now(), c, from, OnDisk());
        var lengths;
        lengths, trace := CutBack(c, s, from);
        match lengths { case Err(e) => return Err(e), trace; case Ok(len) =>
          ReplayNothing(table.file);
          if |log.file.durable| > 1 {
            ghost var before := Now();
            ghost var steps := RollBack(len, from);
            LeadsOn(old(Now()), trace, before, steps, Now());
            trace := trace + steps;
          }
        }
      }
      r := Ok(());
    }

    /** Takes parameters and references from the table file; slots are read when needed. */
    method Load(ghost known: Lists) returns (r: Result<()>)
      requires table.Valid() && dirty.Valid() && dirty.marks == {} && dirty.used == |buckets|
      requires forall b :: 0 <= b < |buckets| ==> buckets[b] == EMPTY
      modifies this`buckets, this`step, this`logMod, this`hasher, this`lists, this`view, dirty
      ensures dirty.Valid() && dirty.marks == {} && dirty.used == |buckets|
      ensures |table.file| == 0 ==> r.Ok? && logMod == old(logMod) && step == old(step) && hasher == old(hasher)
      ensures |table.file| == 0 ==> |buckets| == |old(buckets)|
      ensures |table.file| > 0 ==>
        var h := PageHeader(table.file[0]);
        && (r.Ok? <==> ReloadedLogMod(h.buckets) >= 0) && (r.Err? ==> r.error == Panic)
        && (r.Ok? ==> logMod == ReloadedLogMod(h.buckets) && step == h.step)
        && (r.Ok? ==> hasher == Hasher(old(hasher).f, h.sip0, h.sip1))
        && (r.Ok? ==> |buckets| == h.buckets % 0x1_0000_0000)
      ensures r.Ok? ==> buckets == LoadedBuckets(table.file, |buckets|) && lists == known
      ensures r.Ok? ==> view == LoadedView(table.file, known, |buckets|)
    {
      hide TableFile.Valid, Dirty.Valid, BitLen, ReadPRef, ReadU64, CellPage, CellPos;
      var read := table.ReadPage(0);
      match read { case Err(e) => return Err(e); case Ok(None) => case Ok(Some(first)) =>
        var n := ReadPRef(first, 0) % 0x1_0000_0000;
        buckets := seq(n, i => EMPTY);
        dirty.Renew(n);
        step := ReadPRef(first, 6);
        if BitLen(n) < 2 { return Err(Panic); }
        logMod := BitLen(n) - 2;
        hasher := Hasher(hasher.f, ReadU64(first, 12), ReadU64(first, 20));
      }
      ReadCells();
      lists, view := known, LoadedView(table.file, known, |buckets|);
      r := Ok(());
    }

    method ReadCells()
      requires table.Valid() && forall b :: 0 <= b < |buckets| ==> buckets[b] == EMPTY
      modifies this`buckets
      ensures |buckets| == |old(buckets)| && buckets == LoadedBuckets(table.file, |buckets|)
    {
      hide TableFile.Valid, ReadPRef, CellPos;
      var it := new TableFiles.BucketIterator(table);
      var i := 0;
      var cell := it.Next();
      while cell.Some?
        invariant |buckets| == |old(buckets)| && 0 <= i <= |buckets| && it.file == table
        invariant cell.Some? ==> it.n == i + 1 && cell.value == Cell(table.file, i)
        invariant cell.None? ==> CellPage(i) >= |table.file|
        invariant forall b :: 0 <= b < i ==> buckets[b] == Bucket(Cell(table.file, b), None)
        invariant forall b :: i <= b < |buckets| ==> buckets[b] == EMPTY
        decreases |buckets| - i
      {
        if i < |buckets| {
          buckets := buckets[i := Bucket(cell.value, buckets[i].slots)];
        } else {
          break;
        }
        i := i + 1;
        cell := it.Next();
      }
      forall b | i <= b < |buckets| ensures Cell(table.file, b) == INVALID {}
    }

    /** Ready for the batch that ends the opening of a store: nothing is marked, nothing is queued. */
    ghost predicate Opened()
      reads this`lists, this`view, this`buckets, this`rehashed, this`step
      reads dirty, table, log, data, data.appender, link, link.appender
    {
      && Written() && Linked() && |view| == |buckets| <= 0x1_0000_0000 + 22 && dirty.used == |buckets|
        && step <= INVALID
      && Recorded(buckets, {}, table.file, lists, log.logged, log.sourceLen, rehashed)
        && |table.file| <= CellPage(|buckets|) + 1
      && log.file.Idle()
    }

    /** The header of the first page, written and synced. */
    method WriteOpening() returns (ghost trace: seq<Disk>)
      requires Opened()
      modifies table, log`file
      ensures Opened() && table.older == [] && log.file == old(log.file)
      ensures table.file == SetHeader(old(table.file), |buckets|, step, hasher.sip0, hasher.sip1) && |table.file| > 0
      ensures PageHeader(table.file[0]) == Header(|buckets|, step, hasher.sip0, hasher.sip1)
      ensures trace == [old(Now()).Wrote(table.file), Now()] && Leads(old(Now()), trace, Now())
    {
      hide DataFile.Valid, Recorded, Dirty.Valid, Shaped, MemTable.Linked, CellPage, PageHeader, Flatten, WithHeader,
        PageSelf, Updated, InvalidPage, Leads, SetHeader;
      log.Settle();
      ghost var start := Now();
      var page := PageOrBlank(table.file, 0);
      HeaderPageWritten(table.file, |buckets|, step, hasher.sip0, hasher.sip1);
      HeaderKeeps(buckets, {}, table.file, lists, log.logged, log.sourceLen, rehashed, |buckets|, step, hasher.sip0,
        hasher.sip1);
      ghost var steps := table.UpdatePage(WithHeader(page, |buckets|, step, hasher.sip0, hasher.sip1));
      UpdateLeads(start, WithHeader(page, |buckets|, step, hasher.sip0, hasher.sip1), steps);
      ghost var rewritten := Now();
      assert Writes(start, steps) == [rewritten] && rewritten == start.Wrote(table.file);
      table.Sync();
      LeadsOne(rewritten, Now());
      LeadsOn(start, [rewritten], rewritten, [Now()], Now());
      trace := [rewritten] + [Now()];
    }

    /** The batch at the end of opening, when no bucket is marked and none is written out: only the header of the
        first page is written, with what it already says unless the table file is new. */
    method OpeningBatch() returns (r: Result<()>, ghost trace: seq<Disk>)
      requires Opened()
      modifies this`base, this`saved, dirty`bits, dirty`marks, table, log, data, data.appender, link, link.appender
      ensures r.Ok? && Core() && Files() && Linked() && base == Committed() && Leads(old(Now()), trace, Now())
      ensures |trace| > 0 && trace[0] == old(Now()).Wrote(table.file)
      ensures old(log.file.durable) <= [HeaderFor(base)] ==> forall i :: 0 < i < |trace| ==> Sealed(trace[i], base)
      ensures table.file == SetHeader(old(table.file), |buckets|, step, hasher.sip0, hasher.sip1)
      ensures base.link == old(link.appender.file.durable) && base.data == old(data.appender.file.durable)
      ensures data.contents == old(data.contents) && data.appender.pos == old(data.appender.pos)
      ensures link.appender.pos == old(link.appender.pos)
      ensures saved == Saved(Params(logMod, step, |buckets|), hasher, buckets, view, index, strays, rehashed, lists,
              link.contents,
              data.contents)
      ensures (&& Params(logMod, step, |buckets|).Sound()
              && Indexes(view, logMod, step, data.contents, hasher, index, strays)
               && ListsSound(lists, data.contents, hasher)) ==> Valid()
    {
      hide DataFile.Valid, Recorded, Dirty.Valid, Shaped, MemTable.Linked, CellPage, LogFile.Follows, Indexes,
        Remembers, ListsSound, PageHeader, Sealed, Params.Sound, Flatten, MemTable.Core, Leads, SetHeader;
      trace := WriteOpening();
      r := CloseFiles();
      match r { case Err(_) => return; case Ok(_) => }
      ghost var written := Now();
      ghost var sealing := EndBatch();
      LeadsOn(old(Now()), trace, written, sealing, Now());
      SealedBefore(written, base);
      trace := trace + sealing;
      saved := Saved(Params(logMod, step, |buckets|), hasher, buckets, view, index, strays, rehashed, lists,
        link.contents,
        data.contents);
      if Params(logMod, step, |buckets|).Sound() && Indexes(view, logMod, step, data.contents, hasher, index, strays)
        && ListsSound(lists, data.contents, hasher) {
        RememberNow();
      }
      r := Ok(());
    }

    /** Clears the bitmap and flushes link and data file, both already on a page boundary. */
    method CloseFiles() returns (r: Result<()>)
      requires Written()
      modifies dirty`bits, dirty`marks, data, data.appender, link, link.appender
      ensures r.Ok? && Written()
      ensures link.appender.file == old(link.appender.file) && data.appender.file == old(data.appender.file)
      ensures data.contents == old(data.contents) && link.contents == old(link.contents)
      ensures data.appender.pos == old(data.appender.pos) && link.appender.pos == old(link.appender.pos)
    {
      hide Dirty.Valid, TableFile.Valid, Flatten, DataFile.Valid;
      dirty.Clear();
      r := link.Close();
      match r { case Err(_) => return; case Ok(_) => }
      r := data.Close();
    }
  }
}
