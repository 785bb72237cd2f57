/** How the buckets in memory relate to the cells of the table file and to the undo log. */
module Ledger {
  import opened Types
  import opened Codec
  import opened Index
  import opened TableFiles

  /** The slot lists written to the link file, by reference. */
  type Lists = map<PRef, seq<Slot>>

  ghost predicate Proper(lists: Lists)
  {
    forall p :: p in lists ==> p < INVALID && lists[p] != [] && Narrow(lists[p])
  }

  ghost predicate Known(p: PRef, lists: Lists) { p == INVALID || p in lists }

  ghost predicate AllKnown(buckets: seq<Bucket>, lists: Lists)
  {
    forall b :: 0 <= b < |buckets| ==> Known(buckets[b].stored, lists)
  }

  function ListOf(lists: Lists, p: PRef): seq<Slot> { if p in lists then lists[p] else [] }

  ghost predicate Views(view: View, buckets: seq<Bucket>, lists: Lists)
  {
    |view| == |buckets| && forall b :: 0 <= b < |buckets| ==> view[b] == Logical(lists, buckets[b])
  }

  /** Modified buckets with slots in memory may be overwritten on disk, their page is in the log. An
      unmodified bucket is what its cell says. A bucket without slots in memory either is what its cell
      says or has been emptied by a rehash, whatever its cell still says. */
  ghost predicate BucketOK(b: Bucket, marked: bool, cell: PRef, lists: Lists, covered: bool, rehashed: bool)
  {
    && Known(b.stored, lists) && Known(cell, lists)
    && (b.slots.None? ==> b.stored == cell || (rehashed && b.stored == INVALID))
    && (b.slots.None? && marked ==> b.stored == INVALID)
    && (b.slots.Some? && !marked ==> b.stored == cell && b.slots.value == ListOf(lists, b.stored))
    && (b.slots.Some? && marked ==> covered)
  }

  /** The page of the bucket need not or will not be lost when its cell is overwritten. */
  ghost predicate Covered(b: nat, logged: set<PRef>, sourceLen: nat)
  {
    LoggedPage(b) < sourceLen ==> LoggedPage(b) in logged
  }

  ghost predicate Recorded(buckets: seq<Bucket>, marks: set<nat>, table: seq<Page>, lists: Lists, logged: set<PRef>,
      sourceLen: nat, rehashed: set<nat>)
  {
    && (forall b :: 0 <= b < |buckets| ==>
      BucketOK(buckets[b], b in marks, Cell(table, b), lists, Covered(b, logged, sourceLen), b in rehashed))
    && (forall b :: |buckets| <= b ==> Cell(table, b) == INVALID)
  }

  function Resolved(b: Bucket, lists: Lists): Bucket
  {
    if b.slots.None? && b.stored in lists then Bucket(b.stored, Some(lists[b.stored])) else b
  }

  lemma ResolveKeeps(buckets: seq<Bucket>, n: nat, marks: set<nat>, table: seq<Page>, lists: Lists, logged: set<PRef>,
      sourceLen: nat, rehashed: set<nat>)
    requires Proper(lists) && n < |buckets| && Recorded(buckets, marks, table, lists, logged, sourceLen, rehashed)
    ensures Recorded(buckets[n := Resolved(buckets[n], lists)], marks, table, lists, logged, sourceLen, rehashed)
  {
    assert BucketOK(buckets[n], n in marks, Cell(table, n), lists, Covered(n, logged, sourceLen), n in rehashed);
  }

  lemma RehashedMore(buckets: seq<Bucket>, marks: set<nat>, table: seq<Page>, lists: Lists, logged: set<PRef>,
      sourceLen: nat, rehashed: set<nat>, more: set<nat>)
    requires Recorded(buckets, marks, table, lists, logged, sourceLen, rehashed) && rehashed <= more
    ensures Recorded(buckets, marks, table, lists, logged, sourceLen, more)
  {
    hide Cell, Covered, LoggedPage;
    forall b | 0 <= b < |buckets|
      ensures BucketOK(buckets[b], b in marks, Cell(table, b), lists, Covered(b, logged, sourceLen), b in more)
    {
      assert BucketOK(buckets[b], b in marks, Cell(table, b), lists, Covered(b, logged, sourceLen), b in rehashed);
    }
  }

  /** Replacing a bucket, marking it and logging its page. */
  lemma ModifyKeeps(buckets: seq<Bucket>, n: nat, b: Bucket, marks: set<nat>, table: seq<Page>, lists: Lists,
      logged: set<PRef>, sourceLen: nat, rehashed: set<nat>)
    requires n < |buckets| && Recorded(buckets, marks, table, lists, logged, sourceLen, rehashed)
    requires Known(b.stored, lists) && (b.slots.None? ==> b.stored == INVALID && n in rehashed)
    ensures var logged' := if LoggedPage(n) < sourceLen then logged + {LoggedPage(n)} else logged;
            Recorded(buckets[n := b], marks + {n}, table, lists, logged', sourceLen, rehashed)
  {
  }

  /** The new bucket of a growth step; the bit set with it is the one behind it. */
  lemma GrowRecorded(buckets: seq<Bucket>, marks: set<nat>, table: seq<Page>, lists: Lists, logged: set<PRef>,
      sourceLen: nat, rehashed: set<nat>)
    requires Recorded(buckets, marks, table, lists, logged, sourceLen, rehashed)
    ensures Recorded(buckets + [EMPTY], marks + {|buckets| + 1}, table, lists, logged, sourceLen, rehashed)
  {
  }

  // ---------------------------------------------------------------- writing buckets out

  /** The lists after the slots of a bucket have been written at `p`; an empty bucket gets no list. */
  ghost predicate ListFiled(lists: Lists, lists': Lists, p: PRef, slots: seq<Slot>)
  {
    if |slots| == 0 then p == INVALID && lists' == lists
    else p < INVALID && p !in lists && lists' == lists[p := slots]
  }

  /** Writing out one bucket: its cell and its reference now say what its slots are. */
  lemma WriteOutKeeps(buckets: seq<Bucket>, n: nat, p: PRef, left: set<nat>, table: seq<Page>, lists: Lists,
      lists': Lists, logged: set<PRef>, sourceLen: nat, rehashed: set<nat>)
    requires Shaped(table) && PAGE_SIZE * (CellPage(n) + 1) <= INVALID
    requires Proper(lists) && n < |buckets| && buckets[n].slots.Some? && Narrow(buckets[n].slots.value)
    requires Recorded(buckets, left, table, lists, logged, sourceLen, rehashed)
    requires ListFiled(lists, lists', p, buckets[n].slots.value)
    ensures Proper(lists') && Shaped(SetCell(table, n, p))
    ensures Recorded(buckets[n := Bucket(p, buckets[n].slots)], left - {n}, SetCell(table, n, p), lists', logged,
            sourceLen, rehashed)
  {
    hide Shaped, LoggedPage, CellPage, Covered, SetCell, Cell, Narrow;
    var table', buckets' := SetCell(table, n, p), buckets[n := Bucket(p, buckets[n].slots)];
    SetCellEffect(table, n, p);
    forall c | 0 <= c < |buckets|
      ensures BucketOK(buckets'[c], c in left - {n}, Cell(table', c), lists', Covered(c, logged, sourceLen),
              c in rehashed)
    {
      assert BucketOK(buckets[c], c in left, Cell(table, c), lists, Covered(c, logged, sourceLen), c in rehashed);
    }
  }

  lemma SkipKeeps(buckets: seq<Bucket>, n: nat, left: set<nat>, table: seq<Page>, lists: Lists, logged: set<PRef>,
      sourceLen: nat, rehashed: set<nat>)
    requires n < |buckets| && buckets[n].slots.None?
    requires Recorded(buckets, left, table, lists, logged, sourceLen, rehashed)
    ensures Recorded(buckets, left - {n}, table, lists, logged, sourceLen, rehashed)
  {
  }

  lemma ViewsWrittenOut(view: View, buckets: seq<Bucket>, n: nat, p: PRef, lists: Lists, lists': Lists)
    requires Views(view, buckets, lists) && n < |buckets| && buckets[n].slots.Some? && Proper(lists)
    requires AllKnown(buckets, lists)
    requires ListFiled(lists, lists', p, buckets[n].slots.value)
    ensures Views(view, buckets[n := Bucket(p, buckets[n].slots)], lists')
    ensures AllKnown(buckets[n := Bucket(p, buckets[n].slots)], lists')
  {
  }

  predicate HasSlots(b: Bucket) { b.slots.Some? && b.slots.value != [] }

  ghost predicate Listed(buckets: seq<Bucket>, marks: set<nat>, b: nat)
  {
    b < |buckets| && b in marks && HasSlots(buckets[b])
  }

  /** The lists of the marked buckets below `n` were written one behind the other, in the order of the buckets. */
  ghost predicate FiledInOrder(buckets: seq<Bucket>, marks: set<nat>, n: nat, start: PRef, end: PRef)
  {
    && (forall b :: 0 <= b < n && Listed(buckets, marks, b) ==> start <= buckets[b].stored < end)
    && (forall b, c :: 0 <= b < c < n && Listed(buckets, marks, b) && Listed(buckets, marks, c) ==>
      buckets[b].stored < buckets[c].stored)
  }

  lemma NothingFiled(buckets: seq<Bucket>, marks: set<nat>, pos: PRef)
    ensures FiledInOrder(buckets, marks, 0, pos, pos)
  {
  }

  /** Padding behind the last list changes nothing, nor does a file without marks. */
  lemma FiledStill(buckets: seq<Bucket>, marks: set<nat>, n: nat, start: PRef, pos: PRef, end: PRef)
    requires (FiledInOrder(buckets, marks, n, start, pos) || marks == {}) && pos <= end
    ensures FiledInOrder(buckets, marks, n, start, end)
  {
  }

  lemma FiledNext(buckets: seq<Bucket>, marks: set<nat>, n: nat, start: PRef, pos: PRef, after: seq<Bucket>, end: PRef)
    requires FiledInOrder(buckets, marks, n, start, pos) && start <= pos <= end && |after| == |buckets|
    requires n in marks && n < |buckets| ==>
      after == buckets[n := after[n]] && (HasSlots(after[n]) ==> pos <= after[n].stored < end)
    requires n !in marks || n >= |buckets| ==> after == buckets
    ensures FiledInOrder(after, marks, n + 1, start, end)
  {
  }

  /** The header of the first page does not concern the buckets. */
  lemma HeaderKeeps(buckets: seq<Bucket>, left: set<nat>, table: seq<Page>, lists: Lists, logged: set<PRef>,
      sourceLen: nat, rehashed: set<nat>, n: nat, step: nat, sip0: u64, sip1: u64)
    requires Shaped(table) && n <= INVALID && step <= INVALID
    requires Recorded(buckets, left, table, lists, logged, sourceLen, rehashed)
    ensures Recorded(buckets, left, SetHeader(table, n, step, sip0, sip1), lists, logged, sourceLen, rehashed)
  {
    hide Shaped, LoggedPage, CellPage, SetHeader, Cell, Covered;
    SetHeaderEffect(table, n, step, sip0, sip1);
    var table' := SetHeader(table, n, step, sip0, sip1);
    forall c | 0 <= c < |buckets|
      ensures BucketOK(buckets[c], c in left, Cell(table', c), lists, Covered(c, logged, sourceLen), c in rehashed)
    {
      assert BucketOK(buckets[c], c in left, Cell(table, c), lists, Covered(c, logged, sourceLen), c in rehashed);
    }
  }

  /** With nothing marked the log no longer matters. */
  lemma SettledKeeps(buckets: seq<Bucket>, table: seq<Page>, lists: Lists, logged: set<PRef>, sourceLen: nat,
      rehashed: set<nat>, logged': set<PRef>, sourceLen': nat)
    requires Recorded(buckets, {}, table, lists, logged, sourceLen, rehashed)
    ensures Recorded(buckets, {}, table, lists, logged', sourceLen', rehashed)
  {
  }

  /** The table file never has more pages than its buckets can reach. */
  lemma TableLength(table: seq<Page>, n: nat, p: PRef, buckets: nat)
    requires Shaped(table) && PAGE_SIZE * (CellPage(n) + 1) <= INVALID && p <= INVALID
    requires n < buckets && |table| <= CellPage(buckets) + 1
    ensures |SetCell(table, n, p)| <= CellPage(buckets) + 1
  {
    hide CellPage, CellPos, Shaped, PageSelf, WritePRef, ReadPRef, PageOrBlank, Updated;
    PagesInOrder(n, buckets);
    BlankOrPage(table, CellPage(n));
    SelfKept(PageOrBlank(table, CellPage(n)), CellPos(n), p);
    UpdatedShaped(table, WritePRef(PageOrBlank(table, CellPage(n)), CellPos(n), p));
  }

  lemma PagesInOrder(n: nat, m: nat)
    requires n <= m
    ensures CellPage(n) <= CellPage(m)
  {
  }

  /** Writing a cell leaves the trailer of the page alone. */
  lemma SelfKept(page: Page, pos: nat, p: PRef)
    requires pos + 6 <= PAGE_PAYLOAD_SIZE && p <= INVALID
    ensures PageSelf(WritePRef(page, pos, p)) == PageSelf(page)
  {
    hide WritePRef, ReadPRef;
    PRefReadBack(page, pos, p);
  }

  lemma PagesInReach(buckets: nat)
    requires buckets <= 0x1_0000_0000 + 22
    ensures CellPage(buckets) + 1 <= 0x80_0000
    ensures forall n :: 0 <= n <= buckets ==> PAGE_SIZE * (CellPage(n) + 1) <= INVALID
  {
  }

  // ---------------------------------------------------------------- what a flush leaves alone

  /** Buckets, table file and slot lists, at one moment of a flush. */
  datatype Stage = Stage(buckets: seq<Bucket>, table: seq<Page>, lists: Lists)

  /** Buckets without slots in memory, their cells and all lists written before are as they were. */
  ghost predicate Skipped(s: Stage, s': Stage)
  {
    && |s'.buckets| == |s.buckets|
    && (forall b :: 0 <= b < |s.buckets| && s.buckets[b].slots.None? ==>
          s'.buckets[b] == s.buckets[b] && Cell(s'.table, b) == Cell(s.table, b))
    && forall p :: p in s.lists ==> p in s'.lists && s'.lists[p] == s.lists[p]
  }

  lemma SkippedOn(s0: Stage, s1: Stage, s2: Stage)
    requires Skipped(s0, s1) && Skipped(s1, s2)
    ensures Skipped(s0, s2)
  {
    hide Cell;
  }

  lemma NothingTouched(s: Stage)
    ensures Skipped(s, s)
  {
  }

  /** Writing out one bucket with slots leaves those without alone. */
  lemma WriteOutSkips(buckets: seq<Bucket>, n: nat, p: PRef, table: seq<Page>, lists: Lists, lists': Lists)
    requires Shaped(table) && PAGE_SIZE * (CellPage(n) + 1) <= INVALID && p <= INVALID
    requires n < |buckets| && buckets[n].slots.Some? && ListFiled(lists, lists', p, buckets[n].slots.value)
    ensures Skipped(Stage(buckets, table, lists),
                    Stage(buckets[n := Bucket(p, buckets[n].slots)], SetCell(table, n, p), lists'))
  {
    hide Shaped, Cell, SetCell, CellPage;
    SetCellEffect(table, n, p);
  }

  lemma HeaderSkips(buckets: seq<Bucket>, table: seq<Page>, lists: Lists, n: nat, step: nat, sip0: u64, sip1: u64)
    requires Shaped(table) && n <= INVALID && step <= INVALID
    ensures Skipped(Stage(buckets, table, lists), Stage(buckets, SetHeader(table, n, step, sip0, sip1), lists))
  {
    hide Shaped, Cell, SetHeader;
    SetHeaderEffect(table, n, step, sip0, sip1);
  }
}
