/** Runs that show which conditions of the theorems about crashes and reopening cannot be dropped. */
module Witnesses {
  import opened Types
  import opened Codec
  import opened Growth
  import opened Index
  import opened Ledger
  import opened PagedFile
  import opened DataFiles
  import opened TableFiles
  import opened Recovery
  import opened MemTables
  import opened Reopening
  import opened Store

  // ---------------------------------------------------------------- small stores

  /** A store this small has room for a batch. */
  ghost predicate Small(h: Hammersbald)
    reads h.mem`index, h.mem`strays, h.mem`buckets, h.mem.data.appender`pos, h.mem.link.appender`pos
  {
    h.mem.strays == {} && |h.mem.index| <= 10 && |h.mem.buckets| <= 5000 && h.mem.data.appender.pos <= 1_000_000
      && h.mem.link.appender.pos <= 1_000_000
  }

  lemma SmallFits(h: Hammersbald)
    requires h.Valid() && Small(h)
    ensures h.mem.BatchFits(h.mem.link.appender.pos, h.mem.data.appender.pos) && Cost(h.mem.view) <= 30_000
    ensures HasRoom(ExtentOf(h.Present()), h.Abstract().end)
  {
    hide Indexes, MemTable.Core, ListsSound, Remembers, Params.Sound, MemTable.BatchFits, Cost, Padded, Total;
    SlotsAtMostKeys(h.mem.view, h.mem.logMod, h.mem.step, h.mem.data.contents, h.mem.hasher, h.mem.index);
    RoomForAll(h);
    LinkEndsAtBatch(h);
    PaddedIsAligned(h.mem.data.appender.pos);
  }

  /** A batch of a small store. */
  method Save(h: Hammersbald)
    requires h.Valid() && Small(h)
    modifies h.mem`buckets, h.mem`lists, h.mem`base, h.mem`saved
    modifies h.mem.dirty, h.mem.table, h.mem.log, h.mem.data, h.mem.data.appender, h.mem.link, h.mem.link.appender
    ensures h.Valid() && h.Abstract() == Next(old(h.Abstract()), Op.Batch)
    ensures h.mem.Parameters() == old(h.mem.Parameters())
    ensures h.mem.link.appender.pos <= old(h.mem.link.appender.pos) + 50_000
    ensures Skipped(old(h.mem.Here()), h.mem.Here()) && h.mem.log.logged == {} && h.mem.base.table == h.mem.table.file
    ensures h.mem.saved == Saved(h.mem.Parameters(), h.mem.hasher, h.mem.buckets, h.mem.view, h.mem.index, h.mem.strays,
                                 h.mem.rehashed, h.mem.lists, h.mem.link.contents, h.mem.data.contents)
    ensures Remembers(h.mem.base, h.mem.saved) && h.Abstract() == Held(h.mem.base, h.mem.saved)
  {
    hide Hammersbald.Valid, MemTable.BatchFits, Cost, Leads, CrashSafe, Torn, Skipped, Remembers, Next, Sealed;
    SmallFits(h);
    var r, _, _ := h.Batch();
    match r { case Err(_) => return; case Ok(_) => }
    SameLength(old(h.mem.Here()), h.mem.Here());
  }

  lemma SameLength(s: Stage, s': Stage)
    requires Skipped(s, s')
    ensures |s'.buckets| == |s.buckets|
  {
  }

  method NewStore(f: (u64, u64, Bytes) -> u32, fillTarget: FillTarget) returns (h: Hammersbald)
    ensures fresh(h.mem) && fresh(h.mem.dirty) && fresh(h.mem.table) && fresh(h.mem.log)
    ensures fresh(h.mem.data) && fresh(h.mem.data.appender) && fresh(h.mem.link) && fresh(h.mem.link.appender)
    ensures h.Valid() && h.Abstract() == EMPTY_MODEL && h.mem.link.appender.pos == 0
    ensures h.Tuned() == Setting(FRESH, 0, Hasher(f, 0, 0), fillTarget, {}, {})
  {
    hide Hammersbald.Valid, Leads, Sealed, CrashDuring, Survives;
    ghost var steps: seq<Disk>;
    h, steps := Create(f, 0, 0, fillTarget);
  }

  /** Puts a short key without data. */
  method PutEmpty(h: Hammersbald, key: Bytes)
    requires h.Valid() && |key| <= 1 && h.mem.data.appender.pos <= 1_000_000 && !Strands(h.Tuned(), PutKeyed(key, []))
    modifies h.mem`buckets, h.mem`view, h.mem`step, h.mem`logMod, h.mem`forget, h.mem`index, h.mem`rehashed
    modifies h.mem.dirty, h.mem.log`file, h.mem.log`logged, h.mem.data, h.mem.data.appender
    ensures h.Valid() && h.mem.index == old(h.mem.index)[key := old(h.mem.data.appender.pos)]
    ensures h.mem.data.contents == old(h.mem.data.contents)[old(h.mem.data.appender.pos) := Indexed(key, [])]
    ensures h.Abstract() == Next(old(h.Abstract()), Op.PutKeyed(key, []))
    ensures h.mem.data.appender.pos == old(h.mem.data.appender.pos) + 8 + |key|
    ensures h.mem.link.appender.pos == old(h.mem.link.appender.pos)
    ensures StraysStay(old(h.mem.view), h.mem.view, old(h.mem.logMod), old(h.mem.step))
    ensures h.Tuned() == Tune(old(h.Tuned()), old(h.Abstract()), PutKeyed(key, []))
    ensures PutEffect(h.mem.hasher.Of(key), h.mem.fillTarget, old(h.mem.forget), old(h.mem.Parameters()),
            old(h.mem.view),
                      old(h.mem.log.logged), h.mem.forget, h.mem.Parameters(), h.mem.buckets, h.mem.log.logged)
  {
    hide Hammersbald.Valid, Serialize, Encodable, PutEffect, Grows, Strands, StraysStay, StraysMove, MemTable.Readable,
      Total, Tune;
    EmptyPayload(key);
    var r := h.PutKeyed(key, []);
  }

  /** Without strays a put can be made at any time. */
  lemma NothingStrands(t: Setting, op: Op)
    requires t.strays == {}
    ensures !Strands(t, op)
  {
  }

  lemma EmptyPayload(key: Bytes)
    requires |key| <= 1
    ensures Accepted(key, []) && |Serialize(Indexed(key, []))| == 5 + |key| && Encodable(Indexed(key, []))
  {
  }

  lemma StepByStep(ops: seq<Op>)
    ensures After(ops[..0]) == EMPTY_MODEL
    ensures forall k :: 0 < k <= |ops| ==> After(ops[..k]) == Next(After(ops[..k - 1]), ops[k - 1])
    ensures ops[..|ops|] == ops
  {
    hide Next;
    forall k | 0 < k <= |ops| ensures After(ops[..k]) == Next(After(ops[..k - 1]), ops[k - 1]) {
      assert ops[..k][..k - 1] == ops[..k - 1];
    }
  }

  lemma NextValues(m: Model, key: Bytes)
    ensures Next(m, Op.Batch) == m.(end := Padded(m.end))
    ensures Next(m, Op.Forget(key)) == m.(index := Remove(m.index, key))
  {
  }

  lemma PadsToPage()
    ensures Padded(8) == 4096
  {
  }

  /** One key stored. */
  method PutFirst(f: (u64, u64, Bytes) -> u32) returns (h: Hammersbald)
    requires f(0, 0, []) % 3 != 0
    ensures fresh(h.mem) && fresh(h.mem.dirty) && fresh(h.mem.table) && fresh(h.mem.log)
    ensures fresh(h.mem.data) && fresh(h.mem.data.appender) && fresh(h.mem.link) && fresh(h.mem.link.appender)
    ensures h.Valid() && h.Abstract() == Next(EMPTY_MODEL, PutKeyed([], []))
    ensures h.Abstract() == Model(map[[] := 0], map[0 := Indexed([], [])], 8)
    ensures h.Tuned() == Setting(FRESH, 0, Hasher(f, 0, 0), 3, {}, {}) && h.mem.link.appender.pos == 0
  {
    hide Hammersbald.Valid, Pow2, Params.Grow, Params.CanGrow, Next, StraysStay, Strands, PutEffect, Rehashes;
    h := NewStore(f, 3);
    NothingStrands(h.Tuned(), PutKeyed([], []));
    PutEmpty(h, []);
  }

  /** One key stored in bucket 0 and saved: the cell of the bucket leads to its slot. */
  method SaveFirst(f: (u64, u64, Bytes) -> u32) returns (h: Hammersbald)
    requires f(0, 0, []) % 3 != 0 && BucketFor(8, 0, f(0, 0, [])) == 0
    ensures fresh(h.mem) && fresh(h.mem.dirty) && fresh(h.mem.table) && fresh(h.mem.log)
    ensures fresh(h.mem.data) && fresh(h.mem.data.appender) && fresh(h.mem.link) && fresh(h.mem.link.appender)
    ensures h.Valid() && h.Abstract() == Next(Next(EMPTY_MODEL, PutKeyed([], [])), Op.Batch)
    ensures h.Abstract() == Model(map[[] := 0], map[0 := Indexed([], [])], 4096)
    ensures h.Tuned() == Setting(FRESH, 0, Hasher(f, 0, 0), 3, {}, {}) && h.mem.link.appender.pos <= 100_000
    ensures var cell := Cell(h.mem.table.file, 0);
      cell in h.mem.lists && h.mem.lists[cell] == [Slot(f(0, 0, []), 0)]
  {
    hide Hammersbald.Valid, Cell, Skipped, BucketFor, Remembers, Padded, Next, MemTable.Here;
    PadsToPage();
    h := PutFirst(f);
    NextValues(h.Abstract(), []);
    Save(h);
    FirstIsSaved(h);
  }

  lemma FirstIsSaved(h: Hammersbald)
    requires h.Valid() && h.mem.index == map[[] := 0] && h.mem.strays == {} && h.mem.Parameters() == FRESH
    requires BucketFor(8, 0, h.mem.hasher.Of([])) == 0
    requires Remembers(h.mem.base, h.mem.saved) && h.mem.base.table == h.mem.table.file
    requires h.mem.saved.view == h.mem.view && h.mem.saved.lists == h.mem.lists
    ensures var cell := Cell(h.mem.table.file, 0);
      cell in h.mem.lists && h.mem.lists[cell] == [Slot(h.mem.hasher.Of([]), 0)]
  {
    hide Indexes, ListsSound, Remembers, Params.Sound, MemTable.Core, Cell, BucketFor;
    OnlyKey(h.mem.view, 8, 0, h.mem.data.contents, h.mem.hasher, h.mem.index, []);
    SavedCell(h.mem.base, h.mem.saved, 0);
  }

  lemma TwoKeys(index: map<Bytes, PRef>, a: Bytes, b: Bytes)
    requires index.Keys == {a, b}
    ensures |index| <= 2
  {
    assert |index.Keys| == |index|;
  }

  /** Without a key that leads to it, a bucket that was emptied is as if it had never been used. */
  lemma FirstIsEmpty(h: Hammersbald)
    requires h.Valid() && h.mem.Parameters() == Params(8, 1, 513) && h.mem.strays == {}
    requires forall key :: key in h.mem.index ==> BucketFor(8, 1, h.mem.hasher.Of(key)) != 0
    requires h.mem.buckets[0].stored == INVALID && h.mem.buckets[0].slots != Some([])
    ensures h.mem.buckets[0] == EMPTY
  {
    hide Indexes, ListsSound, Remembers, Params.Sound, MemTable.Files, MemTable.Ledgered, MemTable.BetweenBatches,
      BucketFor, MemTables.Stored;
    NobodyHome(h.mem.view, 8, 1, h.mem.data.contents, h.mem.hasher, h.mem.index, {}, 0);
    ViewAt(h.mem.view, h.mem.buckets, h.mem.lists, 0);
  }

  // ---------------------------------------------------------------- a forgotten key that returns

  function HashOf(sip0: u64, sip1: u64, key: Bytes): u32 { if key == [] then 512 else if key == [1] then 1 else 768 }

  const RETURNING := [PutKeyed([], []), Op.Batch, Op.Forget([]), PutKeyed([1], []), PutKeyed([2], []), Op.Batch]

  lemma Returning()
    ensures After(RETURNING[..2]) == Next(Next(EMPTY_MODEL, PutKeyed([], [])), Op.Batch)
    ensures After(RETURNING[..4]) == Next(Next(After(RETURNING[..2]), Op.Forget([])), PutKeyed([1], []))
    ensures After(RETURNING[..5]) == Next(After(RETURNING[..4]), PutKeyed([2], []))
    ensures After(RETURNING) == Next(After(RETURNING[..5]), Op.Batch)
  {
    hide Next, From;
    var ops := RETURNING;
    StepByStep(ops);
    assert After(ops[..1]) == Next(After(ops[..0]), ops[0]);
    assert After(ops[..3]) == Next(After(ops[..2]), ops[2]);
    assert After(ops[..4]) == Next(After(ops[..3]), ops[3]);
  }

  lemma Homes()
    ensures BucketFor(8, 0, 512) == 0 && BucketFor(8, 0, 768) == 0 && BucketFor(8, 0, 1) == 1
    ensures BucketFor(8, 1, 512) == 0 && BucketFor(8, 1, 768) == 256 && BucketFor(8, 1, 1) == 1
    ensures 768 % Pow2(9) == 256 && Pow2(8) == 256
  {
    hide Pow2;
    Pow2Values();
  }

  /** The key is forgotten; then a growth step empties its bucket, which the next batch skips. */
  method ForgetAndGrow(h: Hammersbald)
    requires h.Valid() && h.Abstract() == Model(map[[] := 0], map[0 := Indexed([], [])], 4096) == After(RETURNING[..2])
    requires h.Tuned() == Setting(FRESH, 0, Hasher(HashOf, 0, 0), 3, {}, {})
    modifies h.mem`buckets, h.mem`view, h.mem`step, h.mem`logMod, h.mem`forget, h.mem`index, h.mem`rehashed
    modifies h.mem.dirty, h.mem.log, h.mem.data, h.mem.data.appender
    ensures h.Valid() && h.mem.Parameters() == Params(8, 1, 513) && h.mem.buckets[0] == EMPTY && h.mem.strays == {}
    ensures h.mem.index.Keys == {[1], [2]} && h.mem.data.appender.pos == 4114
    ensures h.mem.hasher == old(h.mem.hasher)
    ensures h.mem.link.appender.pos == old(h.mem.link.appender.pos)
    ensures 0 in h.mem.data.contents && h.mem.data.contents[0] == Indexed([], [])
    ensures h.Abstract() == After(RETURNING[..5])
  {
    hide Hammersbald.Valid, BucketFor, Pow2, From, Next, StraysStay, Strands, PutEffect, Tune;
    Returning();
    Homes();
    ForgetFirst(h);
    NothingStrands(h.Tuned(), PutKeyed([2], []));
    ghost var view, logged := h.mem.view, h.mem.log.logged;
    PutEmpty(h, [2]);
    EmptiesFirst(view, logged, h.mem.forget, h.mem.Parameters(), h.mem.buckets, h.mem.log.logged);
    SameHasherAfter(Setting(FRESH, 0, Hasher(HashOf, 0, 0), 3, {}, {}), After(RETURNING[..4]), [2]);
    FirstIsEmpty(h);
  }

  /** The next put makes up for the key forgotten. */
  method ForgetFirst(h: Hammersbald)
    requires h.Valid() && h.Abstract() == Model(map[[] := 0], map[0 := Indexed([], [])], 4096) == After(RETURNING[..2])
    requires h.Tuned() == Setting(FRESH, 0, Hasher(HashOf, 0, 0), 3, {}, {})
    modifies h.mem`buckets, h.mem`view, h.mem`step, h.mem`logMod, h.mem`forget, h.mem`index, h.mem`rehashed
    modifies h.mem.dirty, h.mem.log, h.mem.data, h.mem.data.appender
    ensures h.Valid() && h.Tuned() == Setting(FRESH, 0, Hasher(HashOf, 0, 0), 3, {}, {})
    ensures h.Abstract() == After(RETURNING[..4]) && h.mem.index.Keys == {[1]} && h.mem.data.appender.pos == 4105
    ensures h.mem.link.appender.pos == old(h.mem.link.appender.pos)
    ensures 0 in h.mem.data.contents && h.mem.data.contents[0] == Indexed([], [])
  {
    hide Hammersbald.Valid, Pow2, From, Next, StraysStay, Strands, PutEffect, Total, Rehashes;
    NextValues(h.Abstract(), []);
    Returning();
    var r := h.Forget([]);
    NothingStrands(h.Tuned(), PutKeyed([1], []));
    PutEmpty(h, [1]);
  }

  /** Where the slot list of bucket 0 was before a batch that skips the bucket, it still is. */
  lemma StillThere(s: Stage, s': Stage, list: seq<Slot>)
    requires Skipped(s, s') && |s.buckets| > 0 && s.buckets[0] == EMPTY
    requires Cell(s.table, 0) in s.lists && s.lists[Cell(s.table, 0)] == list
    ensures |s'.buckets| > 0 && s'.buckets[0] == EMPTY && Cell(s'.table, 0) in s'.lists
    ensures s'.lists[Cell(s'.table, 0)] == list
  {
    hide Cell;
  }

  /** A batch of a small store whose bucket 0 was emptied: its cell still leads to the old list. */
  method SaveEmptied(h: Hammersbald, ghost list: seq<Slot>)
    requires h.Valid() && Small(h) && |h.mem.buckets| > 0 && h.mem.buckets[0] == EMPTY
    requires var cell := Cell(h.mem.table.file, 0); cell in h.mem.lists && h.mem.lists[cell] == list
    modifies h.mem`buckets, h.mem`lists, h.mem`base, h.mem`saved
    modifies h.mem.dirty, h.mem.table, h.mem.log, h.mem.data, h.mem.data.appender, h.mem.link, h.mem.link.appender
    ensures h.Valid() && Remembers(h.mem.base, h.mem.saved)
    ensures Held(h.mem.base, h.mem.saved) == Next(old(h.Abstract()), Op.Batch)
    ensures var c, s := h.mem.base, h.mem.saved;
      && s.g == old(h.mem.Parameters()) && s.hasher == h.mem.hasher && |s.buckets| > 0 && s.buckets[0] == EMPTY
      && s.strays == h.mem.strays && s.rehashed == h.mem.rehashed && s.refs == old(h.mem.data.contents)
      && Cell(c.table, 0) in s.lists && s.lists[Cell(c.table, 0)] == list
  {
    hide Hammersbald.Valid, Skipped, Remembers, Cell, Next, Small;
    NextValues(h.Abstract(), []);
    ghost var before := h.mem.Here();
    Save(h);
    StillThere(before, h.mem.Here(), list);
  }

  lemma GhostAnswers(c: Commit, s: Saved)
    requires Remembers(c, s) && s.g == Params(8, 1, 513) && s.hasher == Hasher(HashOf, 0, 0)
    requires s.buckets[0] == EMPTY && Cell(c.table, 0) in s.lists && s.lists[Cell(c.table, 0)] == [Slot(512, 0)]
    requires 0 in s.refs && s.refs[0] == Indexed([], [])
    ensures ReloadedLogMod(513) == 8 && Answer(Reloaded(c, s), 8, 1, s.refs, s.hasher, []) == Ok(Some((0, [])))
    ensures !NothingHaunted(c, s)
  {
    hide Indexes, ListsSound, MemTables.Stored, WellStored, PageHeader, Recorded, Views, AllKnown, Cell, BucketFor,
      ReloadedLogMod, Pow2;
    Homes();
    Pow2Values();
    ReloadExact(s.g);
    assert Cell(c.table, 0) < INVALID by { assert Proper(s.lists); }
    ReloadedBucket(c, s, 0);
    assert Hit(s.lists[Cell(c.table, 0)][0], s.refs, 512, []);
    assert Haunted(c, s, 0) by { assert Slot(512, 0) in s.lists[Cell(c.table, 0)]; }
  }

  /** Reads a key after closing and opening again. */
  method ReadReopened(h: Hammersbald, key: Bytes) returns (r: Result<Option<(PRef, Bytes)>>)
    requires h.Valid() && h.mem.saved.g.buckets < 0x1_0000_0000
    ensures var c, s := h.mem.base, h.mem.saved;
            && ReloadedLogMod(s.g.buckets) >= 0
            && r == Answer(Reloaded(c, s), ReloadedLogMod(s.g.buckets), s.g.step, s.refs, s.hasher, key)
  {
    hide MemTable.Valid, Remembers, Answer, Recoverable, Restores, Guarded, Flatten, NothingHaunted, Expected, Grows,
      Reloaded, ReloadedLogMod, Pow2, Leaves;
    var mem := h.mem;
    var image := Image(mem.log.file.durable, mem.table.file, mem.link.appender.file.durable,
      mem.data.appender.file.durable);
    LeavesCurrent(mem.Now(), image);
    IdleIsRecoverable(h);
    CrashIsRecoverable(mem.Now(), mem.base, image);
    r := ReadAfterCrash(image, h.mem.hasher, h.mem.fillTarget, key, h.mem.base, h.mem.saved);
  }

  /** The run `RETURNING` on a new store with fill target 3, which is then closed and opened again: the key it forgot is
      found. `c` and `s` are what its last batch saved. */
  method ForgottenKeyReturns() returns (found: Result<Option<(PRef, Bytes)>>, ghost c: Commit, ghost s: Saved)
    ensures LastPut(RETURNING, []) == None && [] !in s.index && found == Ok(Some((0, [])))
    ensures Remembers(c, s) && Held(c, s) == After(RETURNING) && s.hasher == Hasher(HashOf, 0, 0) && s.g == Grown(1)
    ensures !NothingHaunted(c, s) && found == Answer(Reloaded(c, s), s.g.logMod, s.g.step, s.refs, s.hasher, [])
  {
    hide Hammersbald.Valid, Remembers, Answer, Cell, NothingHaunted, ReloadedLogMod, Reloaded, From, Next, LastPut;
    Forgotten();
    ModelKeepsLastPut(RETURNING, []);
    var h := MakeReturning();
    c, s := h.mem.base, h.mem.saved;
    GhostAnswers(c, s);
    found := ReadReopened(h, []);
  }

  /** The run itself. Bucket 0 is emptied and skipped by the last batch. */
  method MakeReturning() returns (h: Hammersbald)
    ensures h.Valid() && Remembers(h.mem.base, h.mem.saved) && Held(h.mem.base, h.mem.saved) == After(RETURNING)
    ensures var c, s := h.mem.base, h.mem.saved;
      && s.g == Params(8, 1, 513) && s.hasher == Hasher(HashOf, 0, 0) && |s.buckets| > 0 && s.buckets[0] == EMPTY
      && Cell(c.table, 0) in s.lists && s.lists[Cell(c.table, 0)] == [Slot(512, 0)]
      && 0 in s.refs && s.refs[0] == Indexed([], [])
  {
    hide Hammersbald.Valid, Skipped, Remembers, Cell, Padded, From, Next, BucketFor, Pow2;
    Returning();
    Homes();
    h := SaveFirst(HashOf);
    ForgetAndGrow(h);
    NextValues(h.Abstract(), []);
    PaddedIsAligned(h.mem.data.appender.pos);
    TwoKeys(h.mem.index, [1], [2]);
    SaveEmptied(h, [Slot(512, 0)]);
  }

  lemma Forgotten()
    ensures LastPut(RETURNING, []) == None
  {
    var ops := RETURNING;
    assert ops[..5][..4] == ops[..4] && ops[..4][..3] == ops[..3];
    assert LastPut(ops[..3], []) == LastPut(ops[..4], []) == LastPut(ops[..5], []) == None;
  }

  // ---------------------------------------------------------------- a stray that comes home

  function Hash256(sip0: u64, sip1: u64, key: Bytes): u32 { if key == [] then 256 else 768 }

  /** The slot of the first key is saved in bucket 0, which the second put empties while the table grows. */
  const STRAYING := [PutKeyed([], []), Op.Batch, PutKeyed([1], []), Op.Batch]

  /** The first key is forgotten, then the table grows until bucket 0 is rehashed again. */
  const DRIFTING := [Op.Forget([])] + seq(514, i => PutKeyed([1], []))

  lemma Straying()
    ensures After(STRAYING[..2]) == Next(Next(EMPTY_MODEL, PutKeyed([], [])), Op.Batch)
    ensures After(STRAYING) == Next(Next(After(STRAYING[..2]), PutKeyed([1], [])), Op.Batch)
  {
    hide Next, From;
    var ops := STRAYING;
    StepByStep(ops);
    assert After(ops[..1]) == Next(After(ops[..0]), ops[0]);
    assert After(ops[..3]) == Next(After(ops[..2]), ops[2]);
  }

  lemma Homes256()
    ensures BucketFor(8, 0, 256) == 0 && BucketFor(8, 0, 768) == 0
    ensures BucketFor(8, 1, 256) == 256 && BucketFor(8, 1, 768) == 256
    ensures 768 % Pow2(9) == 256 && Pow2(8) == 256
    ensures BucketFor(9, 0, 256) == 256 && BucketFor(9, 1, 256) == 256 && 256 % Pow2(10) == 256
  {
    hide Pow2;
    Pow2Values();
  }

  lemma {:induction false} FirstRound(n: nat)
    requires n <= 512
    ensures Grown(n) == Params(8, n, 512 + n)
    ensures n > 0 ==> BucketFor(8, n, 256) == 256
  {
    hide Pow2;
    Pow2Values();
    if n > 0 { FirstRound(n - 1); }
  }

  lemma SecondRound()
    ensures Grown(513) == Params(9, 0, 1025)
  {
    hide Pow2, Grown;
    Pow2Values();
    FirstRound(512);
    GrownNext(512);
  }

  /** The second put empties bucket 0. */
  method EmptyFirst(h: Hammersbald)
    requires h.Valid() && h.Abstract() == Model(map[[] := 0], map[0 := Indexed([], [])], 4096)
    requires h.Tuned() == Setting(FRESH, 0, Hasher(Hash256, 0, 0), 3, {}, {})
    modifies h.mem`buckets, h.mem`view, h.mem`step, h.mem`logMod, h.mem`forget, h.mem`index, h.mem`rehashed
    modifies h.mem.dirty, h.mem.log`file, h.mem.log`logged, h.mem.data, h.mem.data.appender
    ensures h.Valid() && h.Abstract() == Next(old(h.Abstract()), PutKeyed([1], [])) && h.mem.data.appender.pos == 4105
    ensures h.mem.index.Keys == {[], [1]} && h.mem.buckets != [] && h.mem.buckets[0] == EMPTY
    ensures h.Tuned() == Setting(Params(8, 1, 513), 0, Hasher(Hash256, 0, 0), 3, {}, {0})
    ensures h.mem.link.appender.pos == old(h.mem.link.appender.pos)
  {
    hide Hammersbald.Valid, BucketFor, Pow2, LoggedPage, Next, StraysStay, Strands, PutEffect, Params.Grow;
    Homes256();
    NothingStrands(h.Tuned(), PutKeyed([1], []));
    ghost var view, logged := h.mem.view, h.mem.log.logged;
    EmptyPayload([1]);
    PutEmpty(h, [1]);
    EmptiesFirst(view, logged, h.mem.forget, h.mem.Parameters(), h.mem.buckets, h.mem.log.logged);
    FirstIsEmpty(h);
  }

  /** Bucket 0 is skipped by the next batch. */
  method LeaveStray() returns (h: Hammersbald)
    ensures fresh(h.mem) && fresh(h.mem.dirty) && fresh(h.mem.table) && fresh(h.mem.log)
    ensures fresh(h.mem.data) && fresh(h.mem.data.appender) && fresh(h.mem.link) && fresh(h.mem.link.appender)
    ensures h.Valid() && Remembers(h.mem.base, h.mem.saved) && Held(h.mem.base, h.mem.saved) == After(STRAYING)
    ensures IsStray(h.mem.base, h.mem.saved) && h.mem.saved.hasher == h.mem.hasher && h.mem.fillTarget == 3
  {
    hide Hammersbald.Valid, Cell, Skipped, BucketFor, Remembers, Pow2, Padded, From, Next;
    Straying();
    Homes256();
    h := SaveFirst(Hash256);
    EmptyFirst(h);
    NextValues(h.Abstract(), []);
    PaddedIsAligned(h.mem.data.appender.pos);
    TwoKeys(h.mem.index, [], [1]);
    SaveEmptied(h, [Slot(256, 0)]);
  }

  lemma EmptiesFirst(view: View, logged: set<PRef>, forget: nat, g: Params, buckets: seq<Bucket>, logged': set<PRef>)
    requires PutEffect(768, 3, 0, FRESH, view, logged, forget, g, buckets, logged')
    ensures g == Params(8, 1, 513) && forget == 0
    ensures |buckets| > 0 && buckets[0].stored == INVALID && buckets[0].slots != Some([])
  {
    hide BucketFor, Pow2, LoggedPage;
    Homes256();
    Pow2Values();
  }

  /** What the first half of the run saves. */
  ghost predicate IsStray(c: Commit, s: Saved)
  {
    && s.g == Params(8, 1, 513) && s.hasher == Hasher(Hash256, 0, 0) && s.strays == {} && s.rehashed == {0}
    && |s.buckets| > 0 && s.buckets[0] == EMPTY
    && Cell(c.table, 0) in s.lists && s.lists[Cell(c.table, 0)] == [Slot(256, 0)]
  }

  lemma StrayIsNotHaunted(c: Commit, s: Saved)
    requires Remembers(c, s) && IsStray(c, s)
    ensures Reopenable(c, s) && Unsettled(c, s) == {0} && 0 < |Reloaded(c, s)| && Slot(256, 0) in Reloaded(c, s)[0]
    ensures s.g.buckets < 0x1_0000_0000
  {
    hide Indexes, ListsSound, MemTables.Stored, WellStored, PageHeader, Recorded, Views, AllKnown, Cell, BucketFor,
      ReloadedLogMod, Pow2, Remembers;
    Homes256();
    Pow2Values();
    CellsAreValid(c, s);
    forall b | 0 <= b < |s.buckets| && Stale(c, s, b) ensures b == 0 { StaleWasRehashed(c, s, b); }
    ReloadedBucket(c, s, 0);
  }

  lemma CellsAreValid(c: Commit, s: Saved)
    requires Remembers(c, s)
    ensures |s.buckets| == s.g.buckets && forall p :: p in s.lists ==> p < INVALID
  {
    hide Indexes, ListsSound, MemTables.Stored, WellStored, PageHeader, Recorded, Views, AllKnown, Params.Sound;
  }

  /** Closes a store and opens it again. */
  method Reopen(h: Hammersbald) returns (again: Hammersbald)
    requires h.Valid() && Reopenable(h.mem.base, h.mem.saved) && h.mem.saved.g.buckets < 0x1_0000_0000
    ensures fresh(again.mem) && fresh(again.mem.dirty) && fresh(again.mem.table) && fresh(again.mem.log)
    ensures fresh(again.mem.data) && fresh(again.mem.data.appender)
    ensures fresh(again.mem.link) && fresh(again.mem.link.appender)
    ensures again.Valid() && again.Abstract() == Held(h.mem.base, h.mem.saved)
    ensures again.Tuned() == Resumed(h.mem.base, h.mem.saved, h.mem.fillTarget)
    ensures again.mem.view == Reloaded(h.mem.base, h.mem.saved)
  {
    hide MemTable.Valid, MemTable.Readable, Remembers, Recoverable, Restores, Guarded, Sealed, Leads, Reloaded,
      ReloadedLogMod, Pow2, Leaves, NothingHaunted, Unsettled;
    var mem := h.mem;
    var image := Image(mem.log.file.durable, mem.table.file, mem.link.appender.file.durable,
      mem.data.appender.file.durable);
    LeavesCurrent(mem.Now(), image);
    IdleIsRecoverable(h);
    CrashIsRecoverable(mem.Now(), mem.base, image);
    ghost var trace;
    again, trace := Open(image, mem.hasher, mem.fillTarget, mem.base, mem.saved);
  }

  /** A slot of the stray kind: in bucket 0, but looked for in bucket 256. */
  ghost predicate Drifts(h: Hammersbald)
    reads h.mem`view, h.mem`hasher, h.mem.data`contents
  {
    && h.mem.hasher == Hasher(Hash256, 0, 0) && 0 < |h.mem.view| && Slot(256, 0) in h.mem.view[0]
    && 0 in h.mem.data.contents && h.mem.data.contents[0] == Indexed([], [])
  }

  lemma StaysAdrift(view: View, view': View, g: Params)
    requires 0 < |view| && Slot(256, 0) in view[0] && BucketFor(g.logMod, g.step, 256) == 256
    requires StraysStay(view, view', g.logMod, g.step)
    ensures 0 < |view'| && Slot(256, 0) in view'[0]
  {
    hide BucketFor;
  }

  /** The settings while the table grows for the second time. */
  lemma Drifting(t: Setting, m: Model, n: nat)
    requires 0 < n < 513 && t.hasher == Hasher(Hash256, 0, 0) && t.fillTarget == 3 && t.strays == {0} && t.g == Grown(n)
    ensures !Strands(t, PutKeyed([1], [])) && BucketFor(t.g.logMod, t.g.step, 256) == 256
    ensures var u := Tune(t, m, PutKeyed([1], []));
      && u == t.(g := u.g, forget := u.forget, rehashed := u.rehashed)
      && u.g == (if t.forget == 0 then Grown(n + 1) else t.g) && (t.forget <= 1 ==> u.forget == 0)
  {
    hide Pow2, BucketFor, Grown, Params.Grow;
    FirstRound(n);
    GrownNext(n);
    EmptyPayload([1]);
    Pow2Values();
  }

  /** Forgets the first key and lets the table grow up to the second round. */
  method DriftAlong(h: Hammersbald)
    requires h.Valid() && Drifts(h) && h.mem.data.appender.pos <= 10_000 && h.mem.data.appender.pos > 0
    requires h.Tuned() == Setting(Grown(1), 0, Hasher(Hash256, 0, 0), 3, {0}, {}) && [] in h.mem.index
    modifies h.mem`buckets, h.mem`view, h.mem`step, h.mem`logMod, h.mem`forget, h.mem`index, h.mem`rehashed
    modifies h.mem.dirty, h.mem.log, h.mem.data, h.mem.data.appender
    ensures h.Valid() && Drifts(h) && h.mem.data.appender.pos <= 20_000 && h.mem.data.appender.pos > 0
    ensures h.Tuned() == Setting(Grown(513), 0, Hasher(Hash256, 0, 0), 3, {0}, h.mem.rehashed)
    ensures h.Abstract() == From(old(h.Abstract()), DRIFTING[..514]) && [] !in h.mem.index
    ensures h.Tuned() == SetAfter(old(h.Tuned()), old(h.Abstract()), DRIFTING[..514])
    ensures Steady(old(h.Tuned()), old(h.Abstract()), DRIFTING[..514])
  {
    hide Hammersbald.Valid, BucketFor, Pow2, Grown, From, Next, Strands, Tune, SetAfter, PutEffect, StraysStay, Total;
    ghost var m, t := h.Abstract(), h.Tuned();
    NextValues(m, []);
    FirstRound(1);
    DriftingFrom(t, m, 0);
    ForgetStrandsNot(t);
    ghost var view, g := h.mem.view, h.mem.Parameters();
    TuneForget(h.Tuned(), m, []);
    var r := h.Forget([]);
    StaysAdrift(view, h.mem.view, g);
    for n := 1 to 514
      invariant h.Valid() && Drifts(h) && h.mem.data.appender.pos <= 10_000 + 9 * n && h.mem.data.appender.pos > 0
      invariant h.Tuned() == Setting(Grown(if n == 1 then 1 else n - 1), if n == 1 then 1 else 0, Hasher(Hash256, 0, 0),
                                     3, {0}, h.mem.rehashed)
      invariant h.Abstract() == From(m, DRIFTING[..n]) && [] !in h.mem.index
      invariant h.Tuned() == SetAfter(t, m, DRIFTING[..n])
      invariant forall i :: 0 <= i < n ==> !Strands(SetAfter(t, m, DRIFTING[..i]), DRIFTING[i])
    {
      DriftingFrom(t, m, n);
      DriftOnce(h, if n == 1 then 1 else n - 1);
    }
    forall i | 0 <= i < 514 ensures !Strands(SetAfter(t, m, DRIFTING[..514][..i]), DRIFTING[..514][i]) {
      assert DRIFTING[..514][..i] == DRIFTING[..i];
    }
  }

  /** One more put, which only grows the table if no forget is outstanding. */
  method DriftOnce(h: Hammersbald, ghost k: nat)
    requires h.Valid() && Drifts(h) && 0 < h.mem.data.appender.pos <= 20_000 && 0 < k < 513 && [] !in h.mem.index
    requires h.mem.forget <= 1
    requires h.Tuned() == Setting(Grown(k), h.mem.forget, Hasher(Hash256, 0, 0), 3, {0}, h.mem.rehashed)
    modifies h.mem`buckets, h.mem`view, h.mem`step, h.mem`logMod, h.mem`forget, h.mem`index, h.mem`rehashed
    modifies h.mem.dirty, h.mem.log`file, h.mem.log`logged, h.mem.data, h.mem.data.appender
    ensures h.Valid() && Drifts(h) && h.mem.data.appender.pos == old(h.mem.data.appender.pos) + 9
    ensures [] !in h.mem.index && h.Abstract() == Next(old(h.Abstract()), PutKeyed([1], []))
    ensures !Strands(old(h.Tuned()), PutKeyed([1], []))
    ensures h.Tuned() == Tune(old(h.Tuned()), old(h.Abstract()), PutKeyed([1], []))
    ensures h.Tuned() == Setting(if old(h.mem.forget) == 0 then Grown(k + 1) else Grown(k), 0, Hasher(Hash256, 0, 0), 3,
                                 {0}, h.mem.rehashed)
  {
    hide Hammersbald.Valid, BucketFor, Pow2, Grown, Next, Strands, Tune, PutEffect, StraysStay, Total;
    ghost var view, g := h.mem.view, h.mem.Parameters();
    Drifting(h.Tuned(), h.Abstract(), k);
    PutEmpty(h, [1]);
    StaysAdrift(view, h.mem.view, g);
  }

  lemma ForgetStrandsNot(t: Setting)
    ensures !Strands(t, Op.Forget([]))
  {
  }

  lemma TuneForget(t: Setting, m: Model, key: Bytes)
    ensures Tune(t, m, Op.Forget(key)) == if key in m.index then t.(forget := t.forget + 1) else t
  {
  }

  lemma DriftingFrom(t: Setting, m: Model, n: nat)
    requires n < 515
    ensures SetAfter(t, m, DRIFTING[..n + 1]) == Tune(SetAfter(t, m, DRIFTING[..n]), From(m, DRIFTING[..n]),
            DRIFTING[n])
    ensures SetAfter(t, m, DRIFTING[..0]) == t
    ensures From(m, DRIFTING[..n + 1]) == Next(From(m, DRIFTING[..n]), DRIFTING[n])
    ensures From(m, DRIFTING[..0]) == m && DRIFTING[..515] == DRIFTING
    ensures DRIFTING[n] == if n == 0 then Op.Forget([]) else PutKeyed([1], [])
  {
    hide Next, Tune;
    assert DRIFTING[..n + 1][..n] == DRIFTING[..n];
  }

  /** One more put rehashes bucket 0, and the stray is found where it lands. */
  method ComeHome(h: Hammersbald) returns (found: Result<Option<(PRef, Bytes)>>)
    requires h.Valid() && Drifts(h) && 0 < h.mem.data.appender.pos <= 20_000
    requires h.Tuned() == Setting(Grown(513), 0, Hasher(Hash256, 0, 0), 3, {0}, h.mem.rehashed)
    modifies h.mem`buckets, h.mem`view, h.mem`step, h.mem`logMod, h.mem`forget, h.mem`index, h.mem`rehashed
    modifies h.mem.dirty, h.mem.log, h.mem.data, h.mem.data.appender
    ensures h.mem.Readable() && h.Abstract() == Next(old(h.Abstract()), PutKeyed([1], []))
    ensures Strands(old(h.Tuned()), PutKeyed([1], []))
    ensures h.Tuned() == Tune(old(h.Tuned()), old(h.Abstract()), PutKeyed([1], []))
    ensures found == Answer(h.mem.view, h.mem.logMod, h.mem.step, h.mem.data.contents, h.mem.hasher, [])
    ensures found.Ok? && found.value.Some?
  {
    hide Hammersbald.Valid, MemTable.Readable, MemTable.Core, BucketFor, Pow2, Grown, Next, Tune, PutEffect, StraysMove,
      StraysStay, Total, Strands, Serialize, Encodable, Grows, Answer;
    SecondRound();
    EmptyPayload([1]);
    StrandsAtLast(h.Tuned());
    ghost var view, m, t := h.mem.view, h.Abstract(), h.Tuned();
    var r := h.PutKeyed([1], []);
    NextPut(m, [1]);
    Landed(view, h.mem.view);
    TunedAtLast(t, m);
    found := h.mem.Get([]);
    StrayIsFound(h.mem.view, h.mem.data.contents, h.mem.hasher);
  }

  lemma StrandsAtLast(t: Setting)
    requires t.g == Params(9, 0, 1025) && t.hasher == Hasher(Hash256, 0, 0) && t.fillTarget == 3 && t.forget == 0
    requires t.strays == {0}
    ensures Strands(t, PutKeyed([1], []))
  {
    hide Pow2;
    Pow2Values();
    EmptyPayload([1]);
  }

  lemma TunedAtLast(t: Setting, m: Model)
    requires t.g == Params(9, 0, 1025) && t.hasher == Hasher(Hash256, 0, 0) && t.fillTarget == 3 && t.forget == 0
    ensures Tune(t, m, PutKeyed([1], [])) == t.(g := Params(9, 1, 1026), rehashed := t.rehashed + {0})
  {
    hide Pow2;
    Pow2Values();
    EmptyPayload([1]);
  }

  lemma NextPut(m: Model, key: Bytes)
    requires |key| <= 1
    ensures Next(m, PutKeyed(key, [])).refs == m.refs[m.end := Indexed(key, [])]
    ensures Next(m, PutKeyed(key, [])).index == m.index[key := m.end]
  {
    hide Serialize;
    EmptyPayload(key);
  }

  lemma Landed(view: View, view': View)
    requires 0 < |view| && StraysMove(view, view', Params(9, 0, 1025)) && Slot(256, 0) in view[0]
    ensures 256 < |view'| && Slot(256, 0) in view'[256]
  {
    hide BucketFor, Pow2;
    Homes256();
  }

  lemma StrayIsFound(view: View, refs: Refs, hasher: Hasher)
    requires 256 < |view| && Slot(256, 0) in view[256] && 0 in refs && refs[0] == Indexed([], [])
    requires hasher == Hasher(Hash256, 0, 0)
    ensures var a := Answer(view, 9, 1, refs, hasher, []); a.Ok? && a.value.Some?
  {
    hide BucketFor, Pow2;
    Homes256();
    var i :| 0 <= i < |view[256]| && view[256][i] == Slot(256, 0);
    assert Hit(view[256][i], refs, 256, []);
  }

  /** The run `STRAYING` on a new store with fill target 3, which is then closed and opened again, and the run
      `DRIFTING` on that. No cell is haunted when it is opened, and all goes well up to the last put, which rehashes
      bucket 0: the key forgotten long before is found. */
  method StrayComesHome()
      returns (found: Result<Option<(PRef, Bytes)>>, h: Hammersbald, ghost c: Commit, ghost s: Saved)
    ensures Remembers(c, s) && Reopenable(c, s) && Held(c, s) == After(STRAYING)
    ensures var t, m := Resumed(c, s, 3), Held(c, s);
      && Steady(t, m, DRIFTING[..514]) && Strands(SetAfter(t, m, DRIFTING[..514]), DRIFTING[514])
      && h.Abstract() == From(m, DRIFTING) && h.Tuned() == SetAfter(t, m, DRIFTING)
    ensures h.mem.Readable() && [] !in h.Abstract().index && found.Ok? && found.value.Some?
    ensures found == Answer(h.mem.view, h.mem.logMod, h.mem.step, h.mem.data.contents, h.mem.hasher, [])
  {
    hide Hammersbald.Valid, MemTable.Readable, Remembers, Reloaded, Grown, From, Next, Strands, Tune, SetAfter, Answer,
      NothingHaunted, Unsettled, Pow2, Steady, Cell;
    var first := LeaveStray();
    c, s := first.mem.base, first.mem.saved;
    StrayIsNotHaunted(c, s);
    FirstRound(1);
    h := Reopen(first);
    BeginsAdrift(c, s);
    ghost var t, m := h.Tuned(), h.Abstract();
    DriftingFrom(t, m, 514);
    DriftAlong(h);
    NextPut(h.Abstract(), [1]);
    found := ComeHome(h);
  }

  lemma BeginsAdrift(c: Commit, s: Saved)
    requires Held(c, s) == After(STRAYING)
    ensures [] in s.index && 0 in s.refs && s.refs[0] == Indexed([], []) && 0 < PAGE_SIZE * |c.data| <= 10_000
  {
    hide From;
    Straying();
    EmptyPayload([]);
    EmptyPayload([1]);
    PadsToPage();
    PaddedIsAligned(4105);
  }

  // ---------------------------------------------------------------- a batch that is torn

  /** Every key leads to bucket 700 as soon as that is in use. */
  function Hash700(sip0: u64, sip1: u64, key: Bytes): u32 { 700 }

  lemma Home700()
    ensures Grown(713) == Params(9, 200, 1225) && Grown(714) == Params(9, 201, 1226) && Grown(714) == Grown(713).Grow()
    ensures BucketFor(9, 200, 700) == 700 && LoggedPage(700) == PAGE_SIZE
  {
    hide Pow2;
    Pow2Values();
    SoundIsGrown(Params(9, 200, 1225));
  }

  /** The same key put 713 times and saved, and put once more. */
  const EXPOSING := seq(713, i => PutKeyed([], [])) + [Op.Batch, PutKeyed([], [])]

  lemma Exposing(n: nat)
    requires n <= 714
    ensures n != 713 ==> After(EXPOSING[..n + 1]) == Next(After(EXPOSING[..n]), PutKeyed([], []))
    ensures After(EXPOSING[..714]) == Next(After(EXPOSING[..713]), Op.Batch) && EXPOSING[..715] == EXPOSING
  {
    hide Next;
    var ops := EXPOSING;
    assert ops[..n + 1][..n] == ops[..n] && ops[..714][..713] == ops[..713];
  }

  /** Every put of the key lets the table grow. */
  method Put713Times() returns (h: Hammersbald)
    ensures fresh(h.mem) && fresh(h.mem.dirty) && fresh(h.mem.table) && fresh(h.mem.log)
    ensures fresh(h.mem.data) && fresh(h.mem.data.appender) && fresh(h.mem.link) && fresh(h.mem.link.appender)
    ensures h.Valid() && h.Tuned() == Setting(Grown(713), 0, Hasher(Hash700, 0, 0), 1, {}, h.mem.rehashed)
    ensures h.mem.index.Keys == {[]}
    ensures h.mem.data.appender.pos == 5704 && h.mem.link.appender.pos == 0 && h.Abstract() == After(EXPOSING[..713])
  {
    hide Hammersbald.Valid, BucketFor, Pow2, LoggedPage, Grown, Params.CanGrow, Params.Grow, From, Next, StraysStay;
    h := NewStore(Hash700, 1);
    NotGrown();
    FromNothing(EMPTY_MODEL);
    assert EXPOSING[..0] == [];
    for n := 0 to 713
      invariant h.Valid() && h.Tuned() == Setting(Grown(n), 0, Hasher(Hash700, 0, 0), 1, {}, h.mem.rehashed)
      invariant h.mem.index.Keys == if n == 0 then {} else {[]}
      invariant h.mem.data.appender.pos == 8 * n && h.mem.link.appender.pos == 0 && h.Abstract() == After(EXPOSING[..n])
    {
      GrownNext(n);
      Exposing(n);
      PutEmpty(h, []);
    }
  }

  lemma NotGrown()
    ensures Grown(0) == FRESH
  {
  }

  lemma GrownNext(n: nat)
    ensures Grown(n + 1) == if Grown(n).CanGrow() then Grown(n).Grow() else Grown(n)
  {
  }

  /** 713 puts of one key and a batch. */
  method Save713() returns (h: Hammersbald)
    ensures fresh(h.mem) && fresh(h.mem.dirty) && fresh(h.mem.table) && fresh(h.mem.log)
    ensures fresh(h.mem.data) && fresh(h.mem.data.appender) && fresh(h.mem.link) && fresh(h.mem.link.appender)
    ensures h.Valid() && Small(h) && h.mem.data.appender.pos <= 900_000 && h.mem.link.appender.pos <= 900_000
    ensures h.mem.index.Keys == {[]} && h.mem.log.logged == {} && h.mem.saved.g == Params(9, 200, 1225)
    ensures h.Tuned() == Setting(Params(9, 200, 1225), 0, Hasher(Hash700, 0, 0), 1, {}, h.mem.rehashed)
    ensures h.Abstract() == After(EXPOSING[..714]) == Held(h.mem.base, h.mem.saved)
  {
    hide Hammersbald.Valid, Skipped, Remembers, Grown, Padded, From, Next, Total, BucketFor, Pow2, LoggedPage;
    Home700();
    Exposing(714);
    h := Put713Times();
    PaddedIsAligned(h.mem.data.appender.pos);
    NextValues(h.Abstract(), []);
    OneKey(h.mem.index);
    Save(h);
  }

  lemma OneKey(index: map<Bytes, PRef>)
    requires index.Keys == {[]}
    ensures |index| == 1
  {
    assert |index.Keys| == |index|;
  }

  /** One more put changes the header while it logs only the second page. */
  method UnsafeHeader() returns (h: Hammersbald)
    ensures fresh(h.mem) && fresh(h.mem.dirty) && fresh(h.mem.table) && fresh(h.mem.log)
    ensures fresh(h.mem.data) && fresh(h.mem.data.appender) && fresh(h.mem.link) && fresh(h.mem.link.appender)
    ensures h.Valid() && Small(h) && !h.mem.HeaderSafe()
    ensures h.Abstract() == After(EXPOSING) && Held(h.mem.base, h.mem.saved) == After(EXPOSING[..714])
    ensures h.Tuned() == Setting(Grown(714), 0, Hasher(Hash700, 0, 0), 1, {}, h.mem.rehashed)
  {
    hide Hammersbald.Valid, BucketFor, Remembers, Grown, MemTable.HeaderSafe, Pow2, LoggedPage, PutEffect, From, Next,
      StraysStay, Tune, Strands;
    Home700();
    Exposing(714);
    h := Save713();
    NothingAtStep(h);
    ghost var view, t := h.mem.view, h.Tuned();
    NothingStrands(t, PutKeyed([], []));
    PutEmpty(h, []);
    SameHasherAfter(t, After(EXPOSING[..714]), []);
    SecondPageOnly(view, h.mem.forget, h.mem.Parameters(), h.mem.buckets, h.mem.log.logged);
    OneKey(h.mem.index);
    HeaderIsUnsafe(h);
  }

  lemma SameHasherAfter(t: Setting, m: Model, key: Bytes)
    ensures var u := Tune(t, m, PutKeyed(key, [])); u.hasher == t.hasher && u.strays == t.strays
  {
  }

  lemma SecondPageOnly(view: View, forget: nat, g: Params, buckets: seq<Bucket>, logged: set<PRef>)
    requires PutEffect(700, 1, 0, Params(9, 200, 1225), view, {}, forget, g, buckets, logged)
    requires 200 < |view| && view[200] == []
    ensures g == Params(9, 201, 1226) && 0 !in logged && forget == 0
  {
    hide BucketFor, Pow2, LoggedPage, Grown;
    Home700();
  }

  lemma NothingAtStep(h: Hammersbald)
    requires h.Valid() && h.mem.Parameters() == Params(9, 200, 1225) && h.mem.hasher == Hasher(Hash700, 0, 0)
    requires h.mem.strays == {}
    ensures 200 < |h.mem.view| && h.mem.view[200] == []
  {
    hide Indexes, ListsSound, Remembers, Params.Sound, MemTable.Core, BucketFor;
    Home700();
    NobodyHome(h.mem.view, 9, 200, h.mem.data.contents, h.mem.hasher, h.mem.index, {}, 200);
  }

  lemma HeaderIsUnsafe(h: Hammersbald)
    requires h.Valid() && h.mem.saved.g == Params(9, 200, 1225) && h.mem.Parameters() == Params(9, 201, 1226)
    requires 0 !in h.mem.log.logged
    ensures !h.mem.HeaderSafe()
  {
    hide Indexes, ListsSound, MemTable.Core, Params.Sound, Recorded, Views, Proper, AllKnown, MemTables.Stored,
      WellStored, PageHeader;
  }

  lemma LastOfExposing()
    ensures Batched(EXPOSING) == 714 && After(EXPOSING + [Op.Batch]) == Next(After(EXPOSING), Op.Batch)
    ensures (EXPOSING + [Op.Batch])[..Batched(EXPOSING + [Op.Batch])] == EXPOSING + [Op.Batch]
  {
    hide Next;
    var ops := EXPOSING;
    assert |ops| == 715 && ops[714].PutKeyed? && ops[..714][713] == Op.Batch;
    assert (ops + [Op.Batch])[..715] == ops;
  }

  /** The run `EXPOSING` on a new store with fill target 1, and a batch after it that is torn: interrupted at one of its
      steps, it recovers neither to the batch before it nor to the one it would have been. */
  method TornBatch() returns (ok: bool, ghost a: Moment, ghost steps: seq<Disk>, ghost b: Moment)
    ensures ok && Kept(a, EMPTY_MODEL, EXPOSING) && Kept(b, EMPTY_MODEL, EXPOSING + [Op.Batch])
    ensures a.setting == Setting(Grown(714), 0, Hasher(Hash700, 0, 0), 1, {}, a.setting.rehashed)
    ensures Lived(Op.Batch, After(EXPOSING), a, steps, b)
    ensures !SafeHeader(a) && Tears(a.disk, steps, a.commit, true, b.commit)
  {
    hide Hammersbald.Valid, MemTable.HeaderSafe, SafeHeader, MemTable.BatchFits, Remembers, Tears, OpSafe, Leads, Cost,
      Guarded, Sealed, From, Next, HasRoom, BatchCost, Tune, Grown;
    var h := UnsafeHeader();
    LastOfExposing();
    HeaderSafeSeen(h);
    NowKept(h, EMPTY_MODEL, EXPOSING);
    SmallFits(h);
    a := h.Present();
    var out;
    out, steps := Apply(h, Op.Batch);
    b, ok := h.Present(), out == Done;
    NowKept(h, EMPTY_MODEL, EXPOSING + [Op.Batch]);
  }
}
