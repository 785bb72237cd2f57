/** The undo log, what a crash can leave behind, and what recovery makes of it. */
module Recovery {
  import opened Types
  import opened Codec
  import opened PagedFile
  import opened TableFiles

  /** The log iterator gives up behind this page number, 2^35 / PAGE_SIZE. */
  const LAST_LOG_PAGE := 0x80_0000

  /** The three files a finished batch leaves behind. */
  datatype Commit = Commit(table: seq<Page>, link: seq<Page>, data: seq<Page>) {
    ghost predicate Sized() {
      && Shaped(table)
      && PAGE_SIZE * |table| <= INVALID && PAGE_SIZE * |link| <= INVALID && PAGE_SIZE * |data| <= INVALID
      && |table| <= LAST_LOG_PAGE
    }
  }

  /** The files of a running store. All but the table file are written in the background; `older` lists what the table
      file contained since it was last synced, before what it contains now. */
  datatype Disk = Disk(log: QFile, table: seq<Page>, older: seq<seq<Page>>, link: QFile, data: QFile) {
    function Tables(): seq<seq<Page>> { older + [table] }
    function Wrote(t: seq<Page>): Disk { this.(table := t, older := older + [table]) }
    function Synced(): Disk { this.(older := []) }
  }

  /** The files as found after a crash. */
  datatype Image = Image(log: seq<Page>, table: seq<Page>, link: seq<Page>, data: seq<Page>)

  /** Pages written since the last sync may have reached the disk in any order or not at all: every page comes from one
      of the tables, and so does the length. */
  ghost predicate Mixes(tables: seq<seq<Page>>, t: seq<Page>)
  {
    && (exists j :: 0 <= j < |tables| && |t| == |tables[j]|)
    && forall k :: 0 <= k < |t| ==> Supplies(tables, k, t[k])
  }

  ghost predicate Supplies(tables: seq<seq<Page>>, k: nat, page: Page)
  {
    exists j :: 0 <= j < |tables| && k < |tables[j]| && tables[j][k] == page
  }

  ghost predicate Leaves(d: Disk, i: Image)
  {
    d.log.Leaves(i.log) && Mixes(d.Tables(), i.table) && d.link.Leaves(i.link) && d.data.Leaves(i.data)
  }

  /** Whichever table each page and the length are taken from, a crash may leave that, and nothing else. */
  lemma AnyMixture(tables: seq<seq<Page>>, t: seq<Page>, choice: seq<nat>, j: nat)
    requires j < |tables| && |t| == |choice| == |tables[j]|
    requires forall k :: 0 <= k < |t| ==> choice[k] < |tables| && k < |tables[choice[k]]|
    ensures (forall k :: 0 <= k < |t| ==> t[k] == tables[choice[k]][k]) ==> Mixes(tables, t)
    ensures Mixes(tables, t) ==> forall k :: 0 <= k < |t| ==>
      exists i :: 0 <= i < |tables| && k < |tables[i]| && t[k] == tables[i][k]
  {
    if forall k :: 0 <= k < |t| ==> t[k] == tables[choice[k]][k] {
      forall k | 0 <= k < |t| ensures Supplies(tables, k, t[k]) { assert tables[choice[k]][k] == t[k]; }
    }
    if Mixes(tables, t) {
      forall k | 0 <= k < |t| ensures exists i :: 0 <= i < |tables| && k < |tables[i]| && t[k] == tables[i][k] {
        assert Supplies(tables, k, t[k]);
      }
    }
  }

  /** The current table is among what a crash may leave. */
  lemma MixesCurrent(d: Disk)
    ensures Mixes(d.Tables(), d.table)
  {
    var tables := d.Tables();
    assert tables[|tables| - 1] == d.table;
    forall k | 0 <= k < |d.table| ensures Supplies(tables, k, d.table[k]) {
      assert tables[|tables| - 1][k] == d.table[k];
    }
  }

  // ---------------------------------------------------------------- the log header

  function LogHeader(dataLen: nat, tableLen: nat, linkLen: nat): Page
  {
    WritePRef(WritePRef(WritePRef(ZeroPage(), 0, dataLen), 6, tableLen), 12, linkLen)
  }

  function HeaderFor(c: Commit): Page
  {
    LogHeader(PAGE_SIZE * |c.data|, PAGE_SIZE * |c.table|, PAGE_SIZE * |c.link|)
  }

  lemma LogHeaderReadBack(dataLen: nat, tableLen: nat, linkLen: nat)
    requires dataLen <= INVALID && tableLen <= INVALID && linkLen <= INVALID
    ensures var page := LogHeader(dataLen, tableLen, linkLen);
            ReadPRef(page, 0) == dataLen && ReadPRef(page, 6) == tableLen && ReadPRef(page, 12) == linkLen
  {
    var a := WritePRef(ZeroPage(), 0, dataLen);
    var b := WritePRef(a, 6, tableLen);
    PRefReadBack(ZeroPage(), 0, dataLen);
    PRefReadBack(a, 6, tableLen);
    PRefReadBack(b, 12, linkLen);
  }

  /** The log header byte by byte: the lengths of data, table and link file in six bytes each. */
  lemma LogHeaderBytes(dataLen: nat, tableLen: nat, linkLen: nat, i: nat)
    requires i < PAGE_SIZE
    ensures LogHeader(dataLen, tableLen, linkLen)[i] ==
      if i < 6 then dataLen / Pow256(5 - i) % 256
      else if i < 12 then tableLen / Pow256(11 - i) % 256
      else if i < 18 then linkLen / Pow256(17 - i) % 256
      else 0
  {
    hide WritePRef, Pow256;
    var a := WritePRef(ZeroPage(), 0, dataLen);
    var b := WritePRef(a, 6, tableLen);
    FieldBytes(ZeroPage(), 0, dataLen);
    FieldBytes(a, 6, tableLen);
    FieldBytes(b, 12, linkLen);
  }

  // ---------------------------------------------------------------- recovery

  function Cut(pages: seq<Page>, len: nat): seq<Page>
  {
    if PageNumber(len) <= |pages| then pages[..PageNumber(len)] else pages
  }

  function Replay(table: seq<Page>, pages: seq<Page>): seq<Page>
  {
    if pages == [] then table else Updated(Replay(table, pages[..|pages| - 1]), pages[|pages| - 1])
  }

  /** The log pages the iterator reaches, without the header. */
  function Replayed(log: seq<Page>): seq<Page>
    requires |log| > 0
  {
    if |log| <= LAST_LOG_PAGE + 1 then log[1..] else log[1..LAST_LOG_PAGE + 1]
  }

  /** In numbers: all pages behind the header, up to page 2^35 / 4096. */
  lemma ReplayedInNumbers(log: seq<Page>)
    requires |log| > 0
    ensures Replayed(log) == log[1..if |log| <= 0x80_0001 then |log| else 0x80_0001]
  {
  }

  function Recovered(i: Image): Image
  {
    if i.log == [] then i
    else
      var dataLen, tableLen, linkLen := ReadPRef(i.log[0], 0), ReadPRef(i.log[0], 6), ReadPRef(i.log[0], 12);
      Image(if |i.log| > 1 then [LogHeader(dataLen, tableLen, linkLen)] else i.log,
            Replay(Cut(i.table, tableLen), Replayed(i.log)),
            Cut(i.link, linkLen), Cut(i.data, dataLen))
  }

  /** Recovery gives back exactly the committed files. */
  ghost predicate Restores(i: Image, c: Commit)
  {
    var r := Recovered(i);
    r.table == c.table && r.link == c.link && r.data == c.data && r.log <= [HeaderFor(c)]
  }

  // ---------------------------------------------------------------- what makes an image recoverable

  ghost predicate PreImage(page: Page, c: Commit)
  {
    && PageSelf(page) % PAGE_SIZE == 0 && PageNumber(PageSelf(page)) < |c.table|
    && c.table[PageNumber(PageSelf(page))] == page
  }

  ghost predicate Logged(log: seq<Page>, p: PRef) { exists j :: 1 <= j < |log| && PageSelf(log[j]) == p }

  /** The log opens with the header of `c` and holds only pages of its table. */
  ghost predicate LogOf(log: seq<Page>, c: Commit)
  {
    && 1 <= |log| <= LAST_LOG_PAGE + 1
    && log[0] == HeaderFor(c)
    && forall j :: 1 <= j < |log| ==> PreImage(log[j], c)
  }

  /** The files grew out of the committed ones, only table pages may have been overwritten. */
  ghost predicate Descends(i: Image, c: Commit)
  {
    && c.Sized() && LogOf(i.log, c)
    && c.link <= i.link && c.data <= i.data
    && Shaped(i.table) && |c.table| <= |i.table|
  }

  ghost predicate Intact(table: seq<Page>, log: seq<Page>, c: Commit, k: nat)
    requires k < |c.table| <= |table|
  {
    table[k] == c.table[k] || Logged(log, PAGE_SIZE * k)
  }

  lemma {:induction false} ReplayPages(table: seq<Page>, log: seq<Page>, c: Commit, n: nat)
    requires c.Sized() && LogOf(log, c) && Shaped(table) && |table| == |c.table| && 1 <= n <= |log|
    ensures var t := Replay(table, log[1..n]);
            && Shaped(t) && |t| == |table|
            && forall k :: 0 <= k < |t| ==> t[k] == if Logged(log[..n], PAGE_SIZE * k) then c.table[k] else table[k]
  {
    hide Logged, Updated, HeaderFor, ReadPRef, Shaped;
    if n == 1 {
      NothingLogged(log);
    } else {
      ReplayPages(table, log, c, n - 1);
      var before := Replay(table, log[1..n - 1]);
      var page := log[n - 1];
      assert log[1..n][..n - 2] == log[1..n - 1] && log[1..n][n - 2] == page;
      UpdatedShaped(before, page);
      var t := Replay(table, log[1..n]);
      forall k | 0 <= k < |t| ensures t[k] == if Logged(log[..n], PAGE_SIZE * k) then c.table[k] else table[k] {
        LoggedPush(log, n, PAGE_SIZE * k);
      }
    }
  }

  lemma NothingLogged(log: seq<Page>)
    requires |log| > 0
    ensures forall p :: !Logged(log[..1], p)
  {
  }

  lemma LoggedPush(log: seq<Page>, n: nat, p: PRef)
    requires 2 <= n <= |log|
    ensures Logged(log[..n], p) <==> Logged(log[..n - 1], p) || PageSelf(log[n - 1]) == p
  {
  }

  lemma RecoveredFrom(i: Image, c: Commit)
    requires Descends(i, c)
    ensures var r := Recovered(i);
            && r.link == c.link && r.data == c.data && r.log == [HeaderFor(c)]
            && |r.table| == |c.table|
            && forall k :: 0 <= k < |c.table| ==>
              r.table[k] == if Logged(i.log, PAGE_SIZE * k) then c.table[k] else i.table[k]
  {
    LogHeaderReadBack(PAGE_SIZE * |c.data|, PAGE_SIZE * |c.table|, PAGE_SIZE * |c.link|);
    var table := Cut(i.table, PAGE_SIZE * |c.table|);
    ReplayPages(table, i.log, c, |i.log|);
    assert i.log[1..|i.log|] == i.log[1..];
    assert i.log[..|i.log|] == i.log;
  }

  /** Recovery restores the last batch page for page if and only if every committed table page is
      untouched or in the log. */
  lemma RestoresExactly(i: Image, c: Commit)
    requires Descends(i, c)
    ensures Restores(i, c) <==> forall k :: 0 <= k < |c.table| ==> Intact(i.table, i.log, c, k)
  {
    RecoveredFrom(i, c);
    var r := Recovered(i);
    if forall k :: 0 <= k < |c.table| ==> Intact(i.table, i.log, c, k) {
      forall k | 0 <= k < |c.table| ensures r.table[k] == c.table[k] {
        assert Intact(i.table, i.log, c, k);
      }
    }
    if r.table == c.table {
      forall k | 0 <= k < |c.table| ensures Intact(i.table, i.log, c, k) {
        assert r.table[k] == c.table[k];
      }
    }
  }

  /** Recovering what was recovered changes nothing. */
  lemma RecoverTwice(i: Image, c: Commit)
    requires Descends(i, c)
    ensures Recovered(Recovered(i)) == Recovered(i)
  {
    RecoveredFrom(i, c);
    var r := Recovered(i);
    LogHeaderReadBack(PAGE_SIZE * |c.data|, PAGE_SIZE * |c.table|, PAGE_SIZE * |c.link|);
    assert Replayed(r.log) == [];
  }

  // ---------------------------------------------------------------- safe states of a running store

  /** A table out of which recovery makes that of `c`, pages below `from` excepted. */
  ghost predicate Protected(t: seq<Page>, log: seq<Page>, c: Commit, from: nat)
  {
    && Shaped(t) && |c.table| <= |t|
    && forall k :: from <= k < |c.table| ==> Intact(t, log, c, k)
  }

  /** The store has not finished a batch since `c`; pages from `from` on are protected by the log. */
  ghost predicate Guarded(d: Disk, c: Commit, from: nat)
  {
    && c.Sized() && LogOf(d.log.All(), c) && |d.log.durable| >= 1
    && c.link <= d.link.durable && c.data <= d.data.durable
    && Protected(d.table, d.log.durable, c, from)
    && forall j :: 0 <= j < |d.older| ==> Protected(d.older[j], d.log.durable, c, from)
  }

  /** The store has written and synced everything of `c`; at most the log header is missing. */
  ghost predicate Sealed(d: Disk, c: Commit)
  {
    && c.Sized() && d.log.All() <= [HeaderFor(c)]
    && d.table == c.table && (forall j :: 0 <= j < |d.older| ==> d.older[j] == c.table)
    && d.link == Settled(c.link) && d.data == Settled(c.data)
  }

  lemma PrefixesAgree(a: seq<Page>, b: seq<Page>, c: seq<Page>)
    requires a <= b <= c
    ensures a <= c && forall j :: 0 <= j < |b| ==> b[j] == c[j]
  {
  }

  /** Whatever mixture of protected tables a crash leaves is protected, also by a longer log. */
  lemma MixtureProtected(d: Disk, c: Commit, from: nat, t: seq<Page>, log: seq<Page>)
    requires Guarded(d, c, from) && Mixes(d.Tables(), t) && d.log.durable <= log
    ensures Protected(t, log, c, from)
  {
    hide LogOf, HeaderFor;
    var tables := d.Tables();
    forall j | 0 <= j < |tables| ensures Protected(tables[j], d.log.durable, c, from) {}
    forall k | 0 <= k < |t| ensures PageSelf(t[k]) == PAGE_SIZE * k {
      assert Supplies(tables, k, t[k]);
    }
    forall k | from <= k < |c.table| ensures Intact(t, log, c, k) {
      assert Supplies(tables, k, t[k]);
      var j :| 0 <= j < |tables| && k < |tables[j]| && tables[j][k] == t[k];
      StaysIntact(tables[j], d.log.durable, c, k, t, log);
    }
  }

  lemma StaysIntact(t: seq<Page>, log: seq<Page>, c: Commit, k: nat, t': seq<Page>, log': seq<Page>)
    requires k < |c.table| <= |t| && |c.table| <= |t'| && Intact(t, log, c, k) && t'[k] == t[k] && log <= log'
    ensures Intact(t', log', c, k)
  {
    if Logged(log, PAGE_SIZE * k) {
      var j :| 1 <= j < |log| && PageSelf(log[j]) == PAGE_SIZE * k;
      assert log'[j] == log[j];
    }
  }

  lemma GuardedDescends(d: Disk, c: Commit, from: nat, i: Image)
    requires Guarded(d, c, from) && Leaves(d, i)
    ensures Descends(i, c) && Protected(i.table, i.log, c, from)
    ensures forall k :: from <= k < |c.table| ==> Intact(i.table, i.log, c, k)
  {
    hide Shaped, HeaderFor;
    PrefixesAgree(d.log.durable, i.log, d.log.All());
    PrefixesAgree(c.link, d.link.durable, i.link);
    PrefixesAgree(c.data, d.data.durable, i.data);
    MixtureProtected(d, c, from, i.table, i.log);
  }

  /** A crash in a guarded state always recovers to the last batch. */
  lemma GuardedRestores(d: Disk, c: Commit, i: Image)
    requires Guarded(d, c, 0) && Leaves(d, i)
    ensures Restores(i, c)
  {
    GuardedDescends(d, c, 0, i);
    RestoresExactly(i, c);
  }

  /** Where all tables are the same there is nothing to mix. */
  lemma NothingToMix(tables: seq<seq<Page>>, table: seq<Page>, t: seq<Page>)
    requires (forall j :: 0 <= j < |tables| ==> tables[j] == table) && Mixes(tables, t)
    ensures t == table
  {
    forall k | 0 <= k < |t| ensures k < |table| && t[k] == table[k] {
      assert Supplies(tables, k, t[k]);
    }
  }

  /** A crash in a sealed state always recovers to the new batch. */
  lemma SealedRestores(d: Disk, c: Commit, i: Image)
    requires Sealed(d, c) && Leaves(d, i)
    ensures Restores(i, c) && i.table == c.table
  {
    hide HeaderFor, Shaped;
    assert d.link.All() == c.link && d.data.All() == c.data;
    assert i.link == c.link && i.data == c.data;
    NothingToMix(d.Tables(), c.table, i.table);
    if i.log != [] {
      assert i.log == [HeaderFor(c)];
      HeaderForReadBack(c);
      assert Replayed(i.log) == [];
    }
  }

  lemma HeaderForReadBack(c: Commit)
    requires c.Sized()
    ensures var page := HeaderFor(c);
            && ReadPRef(page, 0) == PAGE_SIZE * |c.data| && ReadPRef(page, 6) == PAGE_SIZE * |c.table|
            && ReadPRef(page, 12) == PAGE_SIZE * |c.link|
            && LogHeader(ReadPRef(page, 0), ReadPRef(page, 6), ReadPRef(page, 12)) == page
  {
    LogHeaderReadBack(PAGE_SIZE * |c.data|, PAGE_SIZE * |c.table|, PAGE_SIZE * |c.link|);
  }

  /** When only the first page is unprotected, whether recovery restores the batch depends on it alone. */
  lemma FirstPageDecides(d: Disk, c: Commit, i: Image)
    requires Guarded(d, c, 1) && Leaves(d, i)
    ensures Restores(i, c) <==> |c.table| == 0 || Intact(i.table, i.log, c, 0)
  {
    GuardedDescends(d, c, 1, i);
    RestoresExactly(i, c);
  }

  // ---------------------------------------------------------------- steps of a running store

  /** Pages were queued, or written, or both. */
  ghost predicate Grows(a: QFile, b: QFile) { a.durable <= b.durable && a.All() <= b.All() }

  ghost predicate FileStep(a: QFile, b: QFile) { Grows(a, b) || (b.durable <= a.durable && b.pending == a.pending) }

  /** One write of the table file: a page appended, a page overwritten, or the end cut off. */
  ghost predicate TableStep(a: seq<Page>, b: seq<Page>)
  {
    || (|b| == |a| + 1 && a <= b)
    || (|b| == |a| && exists k :: 0 <= k < |a| && b == a[k := b[k]])
    || b <= a
  }

  /** A step touches one file. */
  ghost predicate Step(d: Disk, e: Disk)
  {
    || (e == d.Wrote(e.table) && TableStep(d.table, e.table))
    || e == d.Synced()
    || (e == d.(log := e.log) && FileStep(d.log, e.log))
    || (e == d.(link := e.link) && FileStep(d.link, e.link))
    || (e == d.(data := e.data) && FileStep(d.data, e.data))
  }

  function At(d: Disk, trace: seq<Disk>, i: nat): Disk
    requires i <= |trace|
  {
    if i == 0 then d else trace[i - 1]
  }

  /** The states after each step on the way from `d` to `e`, none left out. */
  ghost predicate Leads(d: Disk, trace: seq<Disk>, e: Disk)
  {
    At(d, trace, |trace|) == e && forall i :: 0 <= i < |trace| ==> Step(At(d, trace, i), trace[i])
  }

  lemma LeadsOn(d: Disk, trace: seq<Disk>, e: Disk, more: seq<Disk>, f: Disk)
    requires Leads(d, trace, e) && Leads(e, more, f)
    ensures Leads(d, trace + more, f)
  {
    hide Step;
    var all := trace + more;
    forall i | 0 <= i < |all| ensures Step(At(d, all, i), all[i]) {
      if i < |trace| {
        assert At(d, all, i) == At(d, trace, i) && all[i] == trace[i];
      } else {
        assert At(d, all, i) == At(e, more, i - |trace|) && all[i] == more[i - |trace|];
      }
    }
  }

  lemma LeadsOne(d: Disk, e: Disk)
    requires Step(d, e)
    ensures Leads(d, [e], e)
  {
  }

  lemma LeadsToLast(d: Disk, trace: seq<Disk>, e: Disk)
    requires Leads(d, trace, e) && |trace| > 0
    ensures e in trace
  {
  }

  lemma LeadsNowhere(d: Disk)
    ensures Leads(d, [], d)
  {
  }

  lemma QueueGrows(a: QFile, b: QFile)
    requires a.durable == b.durable && a.pending <= b.pending
    ensures Grows(a, b)
  {
    assert b.pending == a.pending + b.pending[|a.pending|..];
    assert b.All() == a.All() + b.pending[|a.pending|..];
  }

  lemma LogGrows(d: Disk, log: QFile)
    requires Grows(d.log, log)
    ensures Step(d, d.(log := log))
  {
  }

  lemma LinkGrows(d: Disk, link: QFile)
    requires Grows(d.link, link)
    ensures Step(d, d.(link := link))
  {
  }

  lemma DataGrows(d: Disk, data: QFile)
    requires Grows(d.data, data)
    ensures Step(d, d.(data := data))
  {
  }

  /** What a crash may leave behind between `d` and the next state `e`. */
  ghost predicate Interrupts(d: Disk, e: Disk, i: Image)
  {
    || Leaves(d, i) || Leaves(e, i)
    || (&& d.Tables() == e.Tables() && Mixes(e.Tables(), i.table) && Between(d.log, e.log, i.log)
        && Between(d.link, e.link, i.link) && Between(d.data, e.data, i.data))
  }

  ghost predicate Between(a: QFile, b: QFile, image: seq<Page>) { a.durable <= image <= b.All() }

  /** The state after each of several writes of the table file. */
  function Writes(d: Disk, steps: seq<seq<Page>>): (r: seq<Disk>)
    ensures |r| == |steps|
  {
    seq(|steps|, i requires 0 <= i < |steps| => d.(table := steps[i], older := d.older + [d.table] + steps[..i]))
  }

  /** The steps of `update_page`: blank pages one by one, then the page itself. */
  lemma UpdateLeads(d: Disk, page: Page, steps: seq<seq<Page>>)
    requires UpdateSteps(d.table, page, steps)
    ensures var e := d.(table := Updated(d.table, page), older := d.older + [d.table] + steps[..|steps| - 1]);
            Leads(d, Writes(d, steps), e)
  {
    hide PageSelf, Fill, Updated, TableStep, Step;
    var trace := Writes(d, steps);
    forall i | 0 <= i < |trace| ensures Step(At(d, trace, i), trace[i]) {
      UpdateStep(d.table, page, steps, i);
      WritesNext(d, steps, i);
      StepOfTable(At(d, trace, i), steps[i]);
    }
  }

  /** Each of these steps is one write. */
  lemma UpdateStep(table: seq<Page>, page: Page, steps: seq<seq<Page>>, i: nat)
    requires UpdateSteps(table, page, steps) && i < |steps|
    ensures TableStep(if i == 0 then table else steps[i - 1], steps[i])
  {
    hide PageSelf, InvalidPage, Fill, Updated, TableStep;
    FillNothing(table);
    if i < |steps| - 1 {
      FillStep(table, |table| + i);
    } else {
      LastStep(table, page);
    }
  }

  lemma WritesNext(d: Disk, steps: seq<seq<Page>>, i: nat)
    requires i < |steps|
    ensures var before := At(d, Writes(d, steps), i);
      before.table == (if i == 0 then d.table else steps[i - 1]) && Writes(d, steps)[i] == before.Wrote(steps[i])
  {
    assert i > 0 ==> steps[..i] == steps[..i - 1] + [steps[i - 1]];
  }

  lemma StepOfTable(d: Disk, t: seq<Page>)
    requires TableStep(d.table, t)
    ensures Step(d, d.Wrote(t))
  {
  }

  lemma FillStep(table: seq<Page>, n: nat)
    requires |table| <= n
    ensures TableStep(Fill(table, n), Fill(table, n + 1))
  {
  }

  lemma LastStep(table: seq<Page>, page: Page)
    ensures var k := PageNumber(PageSelf(page));
            TableStep(Fill(table, if k < |table| then |table| else k), Updated(table, page))
  {
    var k := PageNumber(PageSelf(page));
    if k < |table| { assert Updated(table, page) == table[k := Updated(table, page)[k]]; }
  }

  // ---------------------------------------------------------------- steps that keep a state guarded

  /** The write-ahead rule: a committed page may be overwritten once its pre-image is durable. */
  lemma WriteProtected(t: seq<Page>, log: seq<Page>, c: Commit, from: nat, page: Page)
    requires Protected(t, log, c, from)
    requires PageSelf(page) % PAGE_SIZE == 0 && PageSelf(page) + PAGE_SIZE <= INVALID
    requires var k := PageNumber(PageSelf(page));
             k < from || k >= |c.table| || Logged(log, PAGE_SIZE * k) || page == c.table[k]
    ensures Protected(Updated(t, page), log, c, from)
  {
    hide PageSelf, Shaped, Updated;
    UpdatedShaped(t, page);
    forall k | from <= k < |c.table| ensures Intact(Updated(t, page), log, c, k) {
      assert Intact(t, log, c, k);
    }
  }

  lemma FillProtected(t: seq<Page>, log: seq<Page>, c: Commit, from: nat, upto: nat)
    requires Protected(t, log, c, from) && |t| <= upto && PAGE_SIZE * upto <= INVALID
    ensures Protected(Fill(t, upto), log, c, from)
  {
    hide PageSelf, Shaped, Fill;
    FillShaped(t, upto);
    forall k | from <= k < |c.table| ensures Intact(Fill(t, upto), log, c, k) {
      assert Intact(t, log, c, k);
    }
  }

  /** Writing protected tables one after the other keeps a state guarded. */
  lemma WritesGuarded(d: Disk, c: Commit, from: nat, steps: seq<seq<Page>>, i: nat)
    requires Guarded(d, c, from) && i < |steps|
    requires forall j :: 0 <= j <= i ==> Protected(steps[j], d.log.durable, c, from)
    ensures Guarded(Writes(d, steps)[i], c, from)
  {
    hide Protected, LogOf;
  }

  lemma SyncedGuarded(d: Disk, c: Commit, from: nat)
    requires Guarded(d, c, from)
    ensures Guarded(d.Synced(), c, from)
  {
    hide Protected, LogOf;
  }

  lemma StreamsGrowGuarded(d: Disk, c: Commit, from: nat, link: QFile, data: QFile)
    requires Guarded(d, c, from) && d.link.durable <= link.durable && d.data.durable <= data.durable
    ensures Guarded(d.(link := link, data := data), c, from)
  {
    hide Protected, LogOf;
    PrefixesAgree(c.link, d.link.durable, link.durable);
    PrefixesAgree(c.data, d.data.durable, data.durable);
  }

  // ---------------------------------------------------------------- interrupted steps

  /** Whatever a crash leaves behind between two guarded states recovers the last batch. */
  lemma InterruptedGuarded(d: Disk, e: Disk, c: Commit, i: Image)
    requires Guarded(d, c, 0) && Guarded(e, c, 0) && Interrupts(d, e, i)
    ensures exists f :: Guarded(f, c, 0) && Leaves(f, i)
    ensures Restores(i, c)
  {
    hide Protected, Mixes;
    if Leaves(d, i) {
      GuardedRestores(d, c, i);
    } else if Leaves(e, i) {
      GuardedRestores(e, c, i);
    } else {
      var f := Rest(i);
      RestLeaves(i);
      PrefixesAgree(d.log.durable, i.log, e.log.All());
      PrefixesAgree(c.link, d.link.durable, i.link);
      PrefixesAgree(c.data, d.data.durable, i.data);
      MixtureProtected(d, c, 0, i.table, i.log);
      assert Guarded(f, c, 0);
      GuardedRestores(f, c, i);
    }
  }

  /** Files that have come to rest. */
  function Rest(i: Image): Disk { Disk(Settled(i.log), i.table, [], Settled(i.link), Settled(i.data)) }

  lemma RestLeaves(i: Image)
    ensures Leaves(Rest(i), i) && Rest(i).log.All() == i.log && Rest(i).link.All() == i.link
    ensures Rest(i).data.All() == i.data
  {
    MixesCurrent(Rest(i));
  }

  lemma InterruptedSealed(d: Disk, e: Disk, c: Commit, i: Image)
    requires Sealed(d, c) && Sealed(e, c) && Interrupts(d, e, i)
    ensures exists f :: Sealed(f, c) && Leaves(f, i)
    ensures Restores(i, c)
  {
    hide Mixes, HeaderFor, Restores;
    if Leaves(d, i) {
      SealedRestores(d, c, i);
    } else {
      assert d.link.durable == e.link.All() && d.data.durable == e.data.All();
      assert Leaves(e, i);
      SealedRestores(e, c, i);
    }
  }

  /** Guarded and sealed states of the same batch may follow each other in any order. */
  lemma InterruptedEither(d: Disk, e: Disk, c: Commit, i: Image)
    requires (Guarded(d, c, 0) || Sealed(d, c)) && (Guarded(e, c, 0) || Sealed(e, c)) && Step(d, e)
    requires Interrupts(d, e, i)
    ensures exists f :: (Guarded(f, c, 0) || Sealed(f, c)) && Leaves(f, i)
  {
    hide Mixes, Protected, HeaderFor;
    if !Leaves(d, i) && !Leaves(e, i) {
      if i.log == [] { NoLogBetween(d, e, c, i); }
      var f := Rest(i);
      RestLeaves(i);
      SomeLogBetween(d, e, c, i);
      assert Guarded(f, c, 0);
    }
  }

  /** The files other than the table file lie between those of two states. */
  ghost predicate Within(d: Disk, e: Disk, i: Image)
  {
    && d.Tables() == e.Tables() && Mixes(e.Tables(), i.table) && Between(d.log, e.log, i.log)
    && Between(d.link, e.link, i.link) && Between(d.data, e.data, i.data)
  }

  lemma NoLogBetween(d: Disk, e: Disk, c: Commit, i: Image)
    requires (Guarded(d, c, 0) || Sealed(d, c)) && (Guarded(e, c, 0) || Sealed(e, c)) && Step(d, e) && i.log == []
    requires Within(d, e, i)
    ensures Leaves(d, i)
  {
    hide Mixes, Protected, HeaderFor, LogOf, TableStep;
    assert Sealed(d, c);
    if Sealed(e, c) {
      assert e.link.All() == c.link && e.data.All() == c.data;
    } else {
      assert e.log != d.log && d.link.All() == c.link && d.data.All() == c.data;
    }
  }

  lemma SomeLogBetween(d: Disk, e: Disk, c: Commit, i: Image)
    requires (Guarded(d, c, 0) || Sealed(d, c)) && (Guarded(e, c, 0) || Sealed(e, c)) && i.log != []
    requires Within(d, e, i)
    ensures Descends(i, c) && Protected(i.table, i.log, c, 0)
  {
    hide Shaped, HeaderFor, PreImage, Mixes;
    PrefixesAgree(d.log.durable, i.log, e.log.All());
    PrefixesAgree(c.link, d.link.durable, i.link);
    PrefixesAgree(c.data, d.data.durable, i.data);
    if Guarded(d, c, 0) {
      MixtureProtected(d, c, 0, i.table, i.log);
    } else {
      NothingToMix(d.Tables(), c.table, i.table);
    }
  }

  /** The step with which a batch takes effect: the old log is gone. */
  lemma InterruptedSwitch(d: Disk, e: Disk, c: Commit, c': Commit, i: Image)
    requires Guarded(d, c, 0) && Sealed(e, c') && e.log.All() == [] && Interrupts(d, e, i)
    ensures Leaves(d, i) || Leaves(e, i)
    ensures Restores(i, c) || Restores(i, c')
  {
    if Leaves(d, i) { GuardedRestores(d, c, i); }
    if Leaves(e, i) { SealedRestores(e, c', i); }
  }

  // ---------------------------------------------------------------- the unlogged first page

  /** The header of the first page is rewritten by every batch whether or not the page was logged. If it was
      not, what is left once that write has reached the disk recovers the last batch if and only if bucket count and
      step are the old ones. */
  lemma UnloggedHeader(d: Disk, c: Commit, i: Image, buckets: nat, step: nat, sip0: u64, sip1: u64)
    requires Guarded(d, c, 1) && Leaves(d, i) && i.table == d.table
    requires |c.table| > 0 && !Logged(d.log.All(), 0)
    requires buckets <= INVALID && step <= INVALID
    requires d.table[0] == WithHeader(c.table[0], buckets, step, sip0, sip1)
    ensures Restores(i, c) <==> PageHeader(c.table[0]) == Header(buckets, step, sip0, sip1)
  {
    FirstPageDecides(d, c, i);
    PrefixesAgree(d.log.durable, i.log, d.log.All());
    assert !Logged(i.log, 0);
    HeaderReadBack(c.table[0], buckets, step, sip0, sip1);
    if PageHeader(c.table[0]) == Header(buckets, step, sip0, sip1) {
      SameHeader(c.table[0], buckets, step, sip0, sip1);
    }
  }

  /** What a crash leaves of this state need not recover the last batch. */
  ghost predicate Lost(d: Disk, c: Commit) { exists i :: Leaves(d, i) && !Restores(i, c) }

  /** What a crash leaves of a store that has not finished a batch since `c` never recovers to other data. */
  lemma OtherDataIsNotRestored(d: Disk, c: Commit, from: nat, c': Commit, i: Image)
    requires Guarded(d, c, from) && Leaves(d, i) && c'.data != c.data
    ensures !Restores(i, c')
  {
    GuardedDescends(d, c, from, i);
    RecoveredFrom(i, c);
  }

  // ---------------------------------------------------------------- the log file

  ghost predicate Tracks(log: seq<Page>, logged: set<PRef>, c: Commit)
  {
    && |log| == 1 + |logged| && log[0] == HeaderFor(c)
    && (forall j :: 1 <= j < |log| ==> PreImage(log[j], c) && PageSelf(log[j]) in logged)
    && (forall p :: p in logged ==> p % PAGE_SIZE == 0 && p < PAGE_SIZE * |c.table| && Logged(log, p))
  }

  lemma TracksPush(log: seq<Page>, logged: set<PRef>, c: Commit, page: Page)
    requires Tracks(log, logged, c) && PreImage(page, c) && PageSelf(page) !in logged
    ensures Tracks(log + [page], logged + {PageSelf(page)}, c)
  {
    var log' := log + [page];
    assert log'[|log|] == page;
    forall p | p in logged ensures Logged(log', p) {
      var j :| 1 <= j < |log| && PageSelf(log[j]) == p;
      assert log'[j] == log[j];
    }
  }

  class LogFile {
    var file: QFile
    var logged: set<PRef>
    var sourceLen: nat

    /** The log of the batch since `c`: each page in `logged` once, with its content in `c`. */
    ghost predicate Follows(c: Commit)
      reads this
    {
      c.Sized() && sourceLen == PAGE_SIZE * |c.table| && |file.durable| >= 1 && Tracks(file.All(), logged, c)
    }

    constructor (file: QFile)
      ensures this.file == file && logged == {} && sourceLen == 0
    {
      this.file, logged, sourceLen := file, {}, 0;
    }

    method Init(dataLen: nat, tableLen: nat, linkLen: nat) returns (ghost steps: seq<QFile>)
      requires dataLen <= INVALID && tableLen <= INVALID && linkLen <= INVALID && file.Idle()
      modifies this`file
      ensures var header := [LogHeader(dataLen, tableLen, linkLen)];
              file == QFile([], header, 0) && steps == [Settled([]), QFile([], header, 1), file]
    {
      file := file.Truncate(0);
      steps := [file];
      file := file.Append(LogHeader(dataLen, tableLen, linkLen));
      steps := steps + [file];
      file := file.Flush();
      steps := steps + [file];
    }

    /** Logs the page at most once a batch, and only if the table file had it when the batch began. */
    method LogPage(pref: PRef, source: TableFile, ghost c: Commit) returns (r: Result<()>)
      requires Follows(c) && source.Valid() && pref % PAGE_SIZE == 0
      requires pref < sourceLen && pref !in logged ==> ReadFlat(source.file, pref) == ReadFlat(c.table, pref)
      modifies this`file, this`logged
      ensures r == Ok(()) && Follows(c)
      ensures logged == if pref < sourceLen then old(logged) + {pref} else old(logged)
      ensures file.durable == old(file.durable) && old(file.pending) <= file.pending
    {
      hide Tracks, ReadPRef;
      if pref < sourceLen && pref !in logged {
        logged := logged + {pref};
        var read := source.ReadPage(pref);
        match read
        case Err(e) => return Err(e);
        case Ok(None) =>
        case Ok(Some(page)) =>
          TracksPush(file.All(), old(logged), c, page);
          assert file.Append(page).All() == file.All() + [page];
          file := file.Append(page);
      }
      r := Ok(());
    }

    /** Waits for the background writer. */
    method Flush()
      modifies this`file
      ensures file == old(file).Flush() && file.All() == old(file.All())
      ensures forall c :: old(Follows(c)) ==> Follows(c)
    {
      file := file.Flush();
    }

    /** Makes sure of what has been written. */
    method Sync()
      modifies this`file
      ensures file == old(file).Sync() && file.All() == old(file.All()) && old(file.durable) <= file.durable
      ensures forall c :: old(Follows(c)) ==> Follows(c)
    {
      SyncSettles(file);
      file := file.Sync();
    }

    /** Writing and syncing a log that is idle. */
    method Settle()
      requires file.Idle()
      modifies this`file
      ensures file == old(file)
    {
      Flush();
      SyncSettles(file);
      Sync();
    }

    /** A new log with nothing but its header, written and synced. */
    method Renew(dataLen: nat, tableLen: nat, linkLen: nat) returns (ghost steps: seq<QFile>)
      requires dataLen <= INVALID && tableLen <= INVALID && linkLen <= INVALID && file.Idle()
      modifies this`file
      ensures var header := [LogHeader(dataLen, tableLen, linkLen)];
        && file == Settled(header)
        && steps == [Settled([]), QFile([], header, 1), QFile([], header, 0), Settled(header)]
    {
      hide LogHeader;
      steps := Init(dataLen, tableLen, linkLen);
      Flush();
      SyncSettles(file);
      Sync();
      steps := steps + [file];
    }

    method Reset(len: nat)
      modifies this`sourceLen, this`logged
      ensures sourceLen == len && logged == {}
    {
      sourceLen, logged := len, {};
    }
  }

  /** Between two batches a crash always recovers the last one. */
  lemma IdleIsGuarded(log: LogFile, d: Disk, c: Commit, from: nat)
    requires log.Follows(c) && d.log == log.file && d.table == c.table && d.older == []
    requires c.link <= d.link.durable && c.data <= d.data.durable
    ensures Guarded(d, c, from)
  {
    LogNeverTooLong(log, c);
    forall k | from <= k < |c.table| ensures Intact(d.table, d.log.durable, c, k) {}
  }

  /** Since every table page is logged at most once, the log never outgrows the reach of its iterator. */
  lemma LogNeverTooLong(log: LogFile, c: Commit)
    requires log.Follows(c)
    ensures |log.file.All()| <= |c.table| + 1 <= 0x80_0001
    ensures LogOf(log.file.All(), c)
  {
    var numbers := set k | 0 <= k < |c.table| :: PAGE_SIZE * k;
    PageCount(|c.table|);
    forall p | p in log.logged ensures p in numbers {
      assert p == PAGE_SIZE * PageNumber(p);
    }
    SubsetSize(log.logged, numbers);
  }

  lemma {:induction false} PageCount(n: nat)
    ensures |set k | 0 <= k < n :: PAGE_SIZE * k| == n
  {
    if n == 0 {
      assert (set k | 0 <= k < n :: PAGE_SIZE * k) == {};
    } else {
      PageCount(n - 1);
      assert (set k | 0 <= k < n :: PAGE_SIZE * k) == (set k | 0 <= k < n - 1 :: PAGE_SIZE * k) + {PAGE_SIZE * (n - 1)};
    }
  }
}
