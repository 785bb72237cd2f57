/** What a store answers after it has been closed, or has crashed, and is opened again. */
module Reopening {
  import opened Types
  import opened Growth
  import opened Index
  import opened Ledger
  import opened TableFiles
  import opened Recovery
  import opened MemTables

  function Reloaded(c: Commit, s: Saved): View { LoadedView(c.table, s.lists, s.g.buckets) }

  /** The bucket was emptied by a rehash and skipped by every flush since: its cell still leads to old slots. */
  ghost predicate Stale(c: Commit, s: Saved, b: nat)
    requires b < |s.buckets|
  {
    s.buckets[b] == EMPTY && Cell(c.table, b) != INVALID
  }

  /** One of those old slots has a hash that still leads to this bucket. */
  ghost predicate Haunted(c: Commit, s: Saved, b: nat)
    requires b < |s.buckets|
  {
    && Stale(c, s, b) && Cell(c.table, b) in s.lists
    && exists x :: x in s.lists[Cell(c.table, b)] && BucketFor(s.g.logMod, s.g.step, x.hash) == b
  }

  /** Every key is answered as the map says. */
  ghost predicate AnswersAsSaved(view: View, logMod: nat, s: Saved)
  {
    forall key :: Lookup(view, logMod, s.g.step, s.refs, s.hasher, key) == AsOption(s.index, key)
  }

  /** Reloading shows each bucket as it was, except the stale ones. */
  lemma ReloadedBucket(c: Commit, s: Saved, b: nat)
    requires Remembers(c, s) && b < |s.buckets|
    ensures !Stale(c, s, b) ==> Reloaded(c, s)[b] == s.view[b]
    ensures Stale(c, s, b) ==> Cell(c.table, b) in s.lists && s.view[b] == []
                               && Reloaded(c, s)[b] == s.lists[Cell(c.table, b)] != []
  {
    hide Cell, Indexes, ListsSound, Stored, WellStored, PageHeader;
    assert BucketOK(s.buckets[b], b in {}, Cell(c.table, b), s.lists, Covered(b, {}, 0), b in s.rehashed);
    assert s.view[b] == Logical(s.lists, s.buckets[b]);
  }

  /** Only buckets that were rehashed since the store was opened can become stale. */
  lemma StaleWasRehashed(c: Commit, s: Saved, b: nat)
    requires Remembers(c, s) && b < |s.buckets| && Stale(c, s, b)
    ensures b in s.rehashed
  {
    hide Cell, Indexes, ListsSound, Stored, WellStored, PageHeader, Views, Proper, AllKnown;
    assert BucketOK(s.buckets[b], b in {}, Cell(c.table, b), s.lists, Covered(b, {}, 0), b in s.rehashed);
  }

  /** The cell of a bucket that is not empty leads to its slots. */
  lemma SavedCell(c: Commit, s: Saved, b: nat)
    requires Remembers(c, s) && b < |s.view| && s.view[b] != []
    ensures Cell(c.table, b) in s.lists && s.lists[Cell(c.table, b)] == s.view[b]
  {
    hide Cell, Indexes, ListsSound, Stored, WellStored, PageHeader, Recorded, Views;
    ReloadedBucket(c, s, b);
  }

  /** Nothing wrong is ever read: all reloaded slots lead to data stored under a key with their hash. */
  lemma ReloadedIsSound(c: Commit, s: Saved, b: nat)
    requires Remembers(c, s) && b < |s.buckets|
    ensures AllSound(Reloaded(c, s)[b], s.refs, s.hasher)
  {
    hide Cell, Recorded, Stored, WellStored, PageHeader, Indexes, Views, AllSound;
    if Cell(c.table, b) !in s.lists { NoSlots(s.refs, s.hasher); }
  }

  lemma NoSlots(refs: Refs, hasher: Hasher)
    ensures AllSound([], refs, hasher)
  {
  }

  lemma ReloadedAnswer(c: Commit, s: Saved, key: Bytes)
    requires Remembers(c, s)
    ensures var b := BucketFor(s.g.logMod, s.g.step, s.hasher.Of(key));
            b < |s.buckets| && (!Haunted(c, s, b) ==>
              Lookup(Reloaded(c, s), s.g.logMod, s.g.step, s.refs, s.hasher, key) == AsOption(s.index, key))
  {
    hide Cell, Recorded, Stored, WellStored, PageHeader, Indexes, Views, ListsSound, BucketFor, Proper, AllKnown;
    BucketsInRange(s.g, s.hasher.Of(key));
    var b := BucketFor(s.g.logMod, s.g.step, s.hasher.Of(key));
    LookupIsMap(s.view, s.g.logMod, s.g.step, s.refs, s.hasher, s.index, s.strays, key);
    ReloadedBucket(c, s, b);
    if Stale(c, s, b) && !Haunted(c, s, b) {
      var slots := Reloaded(c, s)[b];
      assert FirstHit(slots, s.refs, s.hasher.Of(key), key, 0) == |slots|;
    }
  }

  /** With `logMod` restored, every key is answered as before closing if and only if no stale cell holds a slot
      whose hash still leads to its bucket. */
  lemma ReopenAnswersExactly(c: Commit, s: Saved)
    requires Remembers(c, s)
    ensures AnswersAsSaved(Reloaded(c, s), s.g.logMod, s) <==> forall b :: 0 <= b < |s.buckets| ==> !Haunted(c, s, b)
  {
    hide Cell, Recorded, Stored, WellStored, PageHeader, Indexes, Views, ListsSound, BucketFor, Proper, AllKnown,
      Lookup;
    if forall b :: 0 <= b < |s.buckets| ==> !Haunted(c, s, b) {
      forall key ensures Lookup(Reloaded(c, s), s.g.logMod, s.g.step, s.refs, s.hasher, key) == AsOption(s.index, key) {
        ReloadedAnswer(c, s, key);
      }
    }
    if b :| 0 <= b < |s.buckets| && Haunted(c, s, b) {
      var x :| x in s.lists[Cell(c.table, b)] && BucketFor(s.g.logMod, s.g.step, x.hash) == b;
      GhostIsFound(c, s, b, x);
    }
  }

  /** A forgotten or moved slot in a stale cell is found again under its key. */
  lemma GhostIsFound(c: Commit, s: Saved, b: nat, x: Slot)
    requires Remembers(c, s) && b < |s.buckets| && Stale(c, s, b)
    requires Cell(c.table, b) in s.lists && x in s.lists[Cell(c.table, b)]
    requires BucketFor(s.g.logMod, s.g.step, x.hash) == b
    ensures x.pref in s.refs && s.refs[x.pref].Indexed?
    ensures var key := s.refs[x.pref].key;
            && key !in s.index
            && Lookup(Reloaded(c, s), s.g.logMod, s.g.step, s.refs, s.hasher, key).Some?
  {
    hide Cell, Recorded, Stored, WellStored, PageHeader, Views, BucketFor, Proper, AllKnown;
    ReloadedBucket(c, s, b);
    var slots := s.lists[Cell(c.table, b)];
    var i :| 0 <= i < |slots| && slots[i] == x;
    assert AllSound(slots, s.refs, s.hasher);
    assert Sound(slots[i], s.refs, s.hasher);
    var key := s.refs[x.pref].key;
    assert key !in s.index;
    assert Hit(slots[i], s.refs, x.hash, key);
  }

  /** The reloaded buckets are a correct index again, with strays in `strays`, if and only if every stale cell belongs
      to one of these buckets and none is haunted. */
  lemma ReopenIndexesExactly(c: Commit, s: Saved, strays: set<nat>)
    requires Remembers(c, s) && s.strays <= strays
    ensures Indexes(Reloaded(c, s), s.g.logMod, s.g.step, s.refs, s.hasher, s.index, strays) <==>
            forall b :: 0 <= b < |s.buckets| && Stale(c, s, b) ==> b in strays && !Haunted(c, s, b)
  {
    hide Cell, Recorded, Stored, WellStored, PageHeader, Views, BucketFor, Proper, AllKnown, ListsSound;
    var view := Reloaded(c, s);
    if forall b :: 0 <= b < |s.buckets| && Stale(c, s, b) ==> b in strays && !Haunted(c, s, b) {
      forall b | 0 <= b < |view|
        ensures BucketHolds(view[b], b, s.g.logMod, s.g.step, s.refs, s.hasher, s.index, b in strays)
      {
        ReloadedHolds(c, s, b, b in strays);
      }
      forall key | key in s.index ensures Finds(view, s.g.logMod, s.g.step, s.refs, s.hasher, key, s.index[key]) {
        assert Finds(s.view, s.g.logMod, s.g.step, s.refs, s.hasher, key, s.index[key]);
        ReloadedBucket(c, s, BucketFor(s.g.logMod, s.g.step, s.hasher.Of(key)));
      }
    }
    if b :| 0 <= b < |s.buckets| && Stale(c, s, b) && (b !in strays || Haunted(c, s, b)) {
      StaleIsMisplaced(c, s, b, b in strays);
      assert 0 <= b < |view|;
    }
  }

  lemma ReloadedHolds(c: Commit, s: Saved, b: nat, stray: bool)
    requires Remembers(c, s) && b < |s.buckets| && (b in s.strays ==> stray)
    requires Stale(c, s, b) ==> stray && !Haunted(c, s, b)
    ensures BucketHolds(Reloaded(c, s)[b], b, s.g.logMod, s.g.step, s.refs, s.hasher, s.index, stray)
  {
    hide Cell, Recorded, Stored, WellStored, PageHeader, Views, BucketFor, Proper, AllKnown, ListsSound;
    ReloadedBucket(c, s, b);
    ReloadedIsSound(c, s, b);
    var slots := Reloaded(c, s)[b];
    if Stale(c, s, b) {
      forall i | 0 <= i < |slots| ensures BucketFor(s.g.logMod, s.g.step, slots[i].hash) != b {
        assert slots[i] in s.lists[Cell(c.table, b)];
      }
    } else {
      assert BucketHolds(s.view[b], b, s.g.logMod, s.g.step, s.refs, s.hasher, s.index, b in s.strays);
      forall i | 0 <= i < |slots| ensures Placed(slots[i], b, s.g.logMod, s.g.step, s.refs, s.index, stray) {
        assert Placed(slots[i], b, s.g.logMod, s.g.step, s.refs, s.index, b in s.strays);
      }
    }
  }

  lemma StaleIsMisplaced(c: Commit, s: Saved, b: nat, stray: bool)
    requires Remembers(c, s) && b < |s.buckets| && Stale(c, s, b) && (!stray || Haunted(c, s, b))
    ensures !BucketHolds(Reloaded(c, s)[b], b, s.g.logMod, s.g.step, s.refs, s.hasher, s.index, stray)
  {
    hide Cell, Recorded, Stored, WellStored, PageHeader, Views, BucketFor, Proper, AllKnown, ListsSound, Indexes;
    ReloadedBucket(c, s, b);
    ReloadedIsSound(c, s, b);
    var slots := Reloaded(c, s)[b];
    var i := 0;
    if Haunted(c, s, b) {
      i :| 0 <= i < |slots| && BucketFor(s.g.logMod, s.g.step, slots[i].hash) == b;
    }
    assert Sound(slots[i], s.refs, s.hasher);
    if BucketFor(s.g.logMod, s.g.step, slots[i].hash) == b { GhostIsFound(c, s, b, slots[i]); }
    assert !Placed(slots[i], b, s.g.logMod, s.g.step, s.refs, s.index, stray);
  }

  /** What a look-up finds in a list of slots. */
  function InList(slots: seq<Slot>, refs: Refs, hash: u32, key: Bytes): Option<PRef>
  {
    var i := FirstHit(slots, refs, hash, key, 0);
    if i < |slots| then Some(slots[i].pref) else None
  }

  /** With `logMod` one too large, a key whose bucket is now a stale one is looked for among its old slots. Of the
      others those whose hash has the next bit set while the lower bits lie below `step` are looked for in a bucket that
      holds strays at most, so they are no longer found if it holds none; all the rest are answered as before. */
  lemma ShiftedAnswersExactly(c: Commit, s: Saved, key: Bytes)
    requires Remembers(c, s) && s.g.step + s.g.logMod - INIT_LOGMOD >= Pow2(s.g.logMod + 1)
    ensures var h := s.hasher.Of(key);
            var w := BucketFor(s.g.logMod + 1, s.g.step, h);
            var lost := h % Pow2(s.g.logMod + 1) < s.g.step && h % Pow2(s.g.logMod + 2) >= Pow2(s.g.logMod + 1);
            && w < |s.buckets|
            && Lookup(Reloaded(c, s), s.g.logMod + 1, s.g.step, s.refs, s.hasher, key) ==
               (if Stale(c, s, w) then InList(ListOf(s.lists, Cell(c.table, w)), s.refs, h, key)
                else if lost then InList(s.view[w], s.refs, h, key)
                else AsOption(s.index, key))
            && (lost && w !in s.strays ==> InList(s.view[w], s.refs, h, key) == None)
  {
    hide Cell, Recorded, Stored, WellStored, PageHeader, Views, Proper, AllKnown, ListsSound, BucketFor, Pow2;
    var h := s.hasher.Of(key);
    var w := BucketFor(s.g.logMod + 1, s.g.step, h);
    MisplacedAfterReload(s.g, h);
    BucketsInRange(s.g, h);
    ReloadedBucket(c, s, w);
    LookupIsMap(s.view, s.g.logMod, s.g.step, s.refs, s.hasher, s.index, s.strays, key);
    if w != BucketFor(s.g.logMod, s.g.step, h) {
      UpperHome(s.g, h);
      if w !in s.strays { UpperBucketsEmpty(s.view, s.g, s.refs, s.hasher, s.index, s.strays, w); }
    }
  }

  /** A hash that is looked for elsewhere is looked for among the buckets not in use yet. */
  lemma UpperHome(g: Params, h: nat)
    requires g.Sound() && BucketFor(g.logMod + 1, g.step, h) != BucketFor(g.logMod, g.step, h)
    requires g.step + g.logMod - INIT_LOGMOD >= Pow2(g.logMod + 1)
    ensures BucketFor(g.logMod + 1, g.step, h) >= Pow2(g.logMod + 1)
  {
    hide Pow2;
    Pow2Step(g.logMod);
    Pow2Step(g.logMod + 1);
    Pow2Monotone(5, g.logMod);
    assert Pow2(5) == 32 by { Pow2Values5(); }
    HashSplits(g.logMod, h);
    HashSplits(g.logMod + 1, h);
  }

  lemma Pow2Values5()
    ensures Pow2(5) == 32
  {
  }

  lemma UpperBucketsEmpty(view: View, g: Params, refs: Refs, hasher: Hasher, index: map<Bytes, PRef>,
      strays: set<nat>, b: nat)
    requires g.Sound() && g.buckets == |view| && Indexes(view, g.logMod, g.step, refs, hasher, index, strays)
    requires Pow2(g.logMod + 1) <= b < |view| && b !in strays
    ensures view[b] == []
  {
    assert BucketHolds(view[b], b, g.logMod, g.step, refs, hasher, index, false);
    if view[b] != [] {
      assert Placed(view[b][0], b, g.logMod, g.step, refs, index, false);
      HashSplits(g.logMod, view[b][0].hash);
      assert false;
    }
  }
}
