/** The hash index as a value: what its buckets must hold to stand for a map from keys to references. */
module Index {
  import opened Types
  import opened Codec
  import opened Growth

  /** An arbitrary keyed hash function; the two words are drawn when a store is created. */
  datatype Hasher = Hasher(f: (u64, u64, Bytes) -> u32, sip0: u64, sip1: u64) {
    function Of(key: Bytes): u32 { f(sip0, sip1, key) }
  }

  datatype Bucket = Bucket(stored: PRef, slots: Option<seq<Slot>>)
  const EMPTY := Bucket(INVALID, None)

  /** What each bucket holds, whether or not it has been read from the link file yet. */
  type View = seq<seq<Slot>>

  function Logical(lists: map<PRef, seq<Slot>>, b: Bucket): seq<Slot>
  {
    if b.slots.Some? then b.slots.value else if b.stored in lists then lists[b.stored] else []
  }

  /** The references that lead to data stored under a key. */
  type Refs = map<PRef, Payload>

  // ---------------------------------------------------------------- looking up

  predicate Hit(slot: Slot, refs: Refs, hash: u32, key: Bytes)
  {
    slot.hash == hash && slot.pref in refs && refs[slot.pref].Indexed? && refs[slot.pref].key == key
  }

  /** The first slot from `i` on that belongs to the key, or the length of the list. */
  function FirstHit(slots: seq<Slot>, refs: Refs, hash: u32, key: Bytes, i: nat): (r: nat)
    requires i <= |slots|
    ensures i <= r <= |slots| && (r < |slots| ==> Hit(slots[r], refs, hash, key))
    ensures forall j :: i <= j < r ==> !Hit(slots[j], refs, hash, key)
    decreases |slots| - i
  {
    if i == |slots| || Hit(slots[i], refs, hash, key) then i else FirstHit(slots, refs, hash, key, i + 1)
  }

  /** What a look-up answers: the first hit in the one bucket the hash leads to. */
  function Lookup(view: View, logMod: nat, step: nat, refs: Refs, hasher: Hasher, key: Bytes): Option<PRef>
  {
    var b := BucketFor(logMod, step, hasher.Of(key));
    if b >= |view| then None
    else var i := FirstHit(view[b], refs, hasher.Of(key), key, 0);
         if i < |view[b]| then Some(view[b][i].pref) else None
  }

  // ---------------------------------------------------------------- the invariant

  /** The slot leads to data stored under a key with its hash. */
  ghost predicate Sound(slot: Slot, refs: Refs, hasher: Hasher)
  {
    slot.pref < INVALID && slot.pref in refs && refs[slot.pref].Indexed? && hasher.Of(refs[slot.pref].key) == slot.hash
  }

  ghost predicate AllSound(slots: seq<Slot>, refs: Refs, hasher: Hasher)
  {
    forall i :: 0 <= i < |slots| ==> Sound(slots[i], refs, hasher)
  }

  /** The slot is in the bucket its hash leads to and is the current one for its key; or it is a stray, which is never
      looked for where it is, in a bucket that may hold some. */
  ghost predicate Placed(slot: Slot, b: nat, logMod: nat, step: nat, refs: Refs, index: map<Bytes, PRef>, stray: bool)
    requires slot.pref in refs && refs[slot.pref].Indexed?
  {
    if BucketFor(logMod, step, slot.hash) == b
    then refs[slot.pref].key in index && index[refs[slot.pref].key] == slot.pref
    else stray
  }

  /** No slot that is looked for in bucket `b` is there twice. */
  ghost predicate Distinct(slots: seq<Slot>, b: nat, logMod: nat, step: nat)
  {
    forall i, j :: 0 <= i < j < |slots| && BucketFor(logMod, step, slots[i].hash) == b ==>
      slots[i].pref != slots[j].pref
  }

  ghost predicate BucketHolds(slots: seq<Slot>, b: nat, logMod: nat, step: nat, refs: Refs, hasher: Hasher,
      index: map<Bytes, PRef>, stray: bool)
  {
    && Distinct(slots, b, logMod, step) && AllSound(slots, refs, hasher)
    && forall i :: 0 <= i < |slots| ==> Placed(slots[i], b, logMod, step, refs, index, stray)
  }

  /** The current data of the key was stored under it and has its slot in the bucket of its hash. */
  ghost predicate Finds(view: View, logMod: nat, step: nat, refs: Refs, hasher: Hasher, key: Bytes, p: PRef)
  {
    var b := BucketFor(logMod, step, hasher.Of(key));
    && p in refs && refs[p].Indexed? && refs[p].key == key
    && b < |view| && Slot(hasher.Of(key), p) in view[b]
  }

  /** The buckets hold one slot for each key of the map, in the bucket of its hash, and nothing else but strays in
      buckets of `strays`. */
  ghost predicate Indexes(view: View, logMod: nat, step: nat, refs: Refs, hasher: Hasher, index: map<Bytes, PRef>,
      strays: set<nat>)
  {
    && (forall b :: 0 <= b < |view| ==> BucketHolds(view[b], b, logMod, step, refs, hasher, index, b in strays))
    && (forall key :: key in index ==> Finds(view, logMod, step, refs, hasher, key, index[key]))
  }

  function AsOption(index: map<Bytes, PRef>, key: Bytes): Option<PRef>
  {
    if key in index then Some(index[key]) else None
  }

  /** Under the invariant a look-up answers what the map says, for every key. */
  lemma LookupIsMap(view: View, logMod: nat, step: nat, refs: Refs, hasher: Hasher, index: map<Bytes, PRef>,
      strays: set<nat>, key: Bytes)
    requires Indexes(view, logMod, step, refs, hasher, index, strays)
    requires BucketFor(logMod, step, hasher.Of(key)) < |view|
    ensures Lookup(view, logMod, step, refs, hasher, key) == AsOption(index, key)
  {
  }

  /** In the bucket of a hash there is a slot with that hash if and only if some key of the map has it. */
  lemma SlotSharesHash(view: View, logMod: nat, step: nat, refs: Refs, hasher: Hasher, index: map<Bytes, PRef>,
      strays: set<nat>, hash: u32)
    requires Indexes(view, logMod, step, refs, hasher, index, strays) && BucketFor(logMod, step, hash) < |view|
    ensures var slots := view[BucketFor(logMod, step, hash)];
      (exists i :: 0 <= i < |slots| && slots[i].hash == hash) <==> exists k :: k in index && hasher.Of(k) == hash
  {
    hide BucketFor;
    var b := BucketFor(logMod, step, hash);
    assert BucketHolds(view[b], b, logMod, step, refs, hasher, index, b in strays);
    if i :| 0 <= i < |view[b]| && view[b][i].hash == hash {
      assert Sound(view[b][i], refs, hasher) && Placed(view[b][i], b, logMod, step, refs, index, b in strays);
      assert refs[view[b][i].pref].key in index;
    }
    if k :| k in index && hasher.Of(k) == hash {
      assert Finds(view, logMod, step, refs, hasher, k, index[k]);
    }
  }

  // ---------------------------------------------------------------- steps that keep the invariant

  function Without<T>(s: seq<T>, i: nat): seq<T>
    requires i < |s|
  {
    s[..i] + s[i + 1..]
  }

  function Remove(index: map<Bytes, PRef>, key: Bytes): map<Bytes, PRef> { map k | k in index && k != key :: index[k] }

  /** Dropping the slot of a key drops the key from the map and nothing else. */
  lemma RemoveKeeps(view: View, logMod: nat, step: nat, refs: Refs, hasher: Hasher, index: map<Bytes, PRef>,
      strays: set<nat>, key: Bytes, b: nat, i: nat)
    requires Indexes(view, logMod, step, refs, hasher, index, strays)
    requires b == BucketFor(logMod, step, hasher.Of(key)) < |view| && i < |view[b]|
    requires Hit(view[b][i], refs, hasher.Of(key), key)
    ensures Indexes(view[b := Without(view[b], i)], logMod, step, refs, hasher, Remove(index, key), strays)
  {
    var view', index' := view[b := Without(view[b], i)], Remove(index, key);
    assert BucketHolds(view[b], b, logMod, step, refs, hasher, index, b in strays);
    assert Placed(view[b][i], b, logMod, step, refs, index, b in strays);
    forall c | 0 <= c < |view'| ensures BucketHolds(view'[c], c, logMod, step, refs, hasher, index', c in strays) {
      assert BucketHolds(view[c], c, logMod, step, refs, hasher, index, c in strays);
      OthersRemain(view[c], c, logMod, step, refs, hasher, index, c in strays, key, if c == b then i else |view[c]|);
    }
    forall k | k in index' ensures Finds(view', logMod, step, refs, hasher, k, index'[k]) {
      assert Finds(view, logMod, step, refs, hasher, k, index[k]);
      var c := BucketFor(logMod, step, hasher.Of(k));
      if c == b {
        var j :| 0 <= j < |view[b]| && view[b][j] == Slot(hasher.Of(k), index[k]);
        assert j != i;
        assert view'[b][if j < i then j else j - 1] == view[b][j];
      }
    }
  }

  /** A bucket without the slot of `key` (none if `i` is its length) holds under the map without `key`. */
  lemma OthersRemain(slots: seq<Slot>, c: nat, logMod: nat, step: nat, refs: Refs, hasher: Hasher,
      index: map<Bytes, PRef>, stray: bool, key: Bytes, i: nat)
    requires BucketHolds(slots, c, logMod, step, refs, hasher, index, stray) && i <= |slots|
    requires c == BucketFor(logMod, step, hasher.Of(key)) <==> i < |slots|
    requires i < |slots| ==> refs[slots[i].pref].key == key
    ensures var rest := if i < |slots| then Without(slots, i) else slots;
            BucketHolds(rest, c, logMod, step, refs, hasher, Remove(index, key), stray)
  {
  }

  /** New data only adds references; the index does not notice. */
  lemma RefsGrow(view: View, logMod: nat, step: nat, refs: Refs, more: Refs, hasher: Hasher, index: map<Bytes, PRef>,
      strays: set<nat>)
    requires Indexes(view, logMod, step, refs, hasher, index, strays)
    requires forall p :: p in refs ==> p in more && more[p] == refs[p]
    ensures Indexes(view, logMod, step, more, hasher, index, strays)
  {
  }

  /** Storing a slot for a key the map does not have adds that key. */
  lemma StoreKeeps(view: View, logMod: nat, step: nat, refs: Refs, hasher: Hasher, index: map<Bytes, PRef>,
      strays: set<nat>, key: Bytes, p: PRef, b: nat)
    requires Indexes(view, logMod, step, refs, hasher, index, strays) && key !in index
    requires p < INVALID && p in refs && refs[p].Indexed? && refs[p].key == key
    requires b == BucketFor(logMod, step, hasher.Of(key)) < |view|
    ensures Indexes(view[b := view[b] + [Slot(hasher.Of(key), p)]], logMod, step, refs, hasher, index[key := p], strays)
  {
  }

  // ---------------------------------------------------------------- growing

  /** The slots of a list that stay in (or leave) bucket `b` under modulus `m`, in order. */
  function Split(slots: seq<Slot>, m: nat, b: nat, stay: bool): (r: seq<Slot>)
    requires m > 0
    ensures forall x :: x in r <==> x in slots && (x.hash % m == b <==> stay)
  {
    if slots == [] then []
    else var last := slots[|slots| - 1];
         assert slots == slots[..|slots| - 1] + [last];
         Split(slots[..|slots| - 1], m, b, stay) + if last.hash % m == b <==> stay then [last] else []
  }

  /** Slots keep their order. */
  lemma {:induction false} SplitInOrder(a: seq<Slot>, b: seq<Slot>, m: nat, c: nat, stay: bool)
    requires m > 0
    ensures Split(a + b, m, c, stay) == Split(a, m, c, stay) + Split(b, m, c, stay)
    ensures |b| == 1 ==> Split(b, m, c, stay) == if b[0].hash % m == c <==> stay then b else []
  {
    hide Split;
    if b == [] {
      SplitNone(m, c);
      assert a + b == a;
    } else {
      var front := b[..|b| - 1];
      SplitInOrder(a, front, m, c, stay);
      SplitLast(b, m, c);
      SplitLast(a + b, m, c);
      SplitNone(m, c);
      assert (a + b)[..|a + b| - 1] == a + front;
    }
  }

  lemma {:induction false} SplitConserves(slots: seq<Slot>, m: nat, b: nat, x: Slot)
    requires m > 0
    ensures multiset(Split(slots, m, b, true))[x] + multiset(Split(slots, m, b, false))[x] == multiset(slots)[x]
  {
    hide Split;
    if slots != [] {
      var front, last := slots[..|slots| - 1], slots[|slots| - 1];
      SplitConserves(front, m, b, x);
      assert slots == front + [last];
      var stay := last.hash % m == b;
      SplitLast(slots, m, b);
      BothCount(front, [last], x);
      BothCount(Split(front, m, b, stay), [last], x);
    } else {
      SplitNone(m, b);
    }
  }

  lemma SplitNone(m: nat, b: nat)
    requires m > 0
    ensures Split([], m, b, true) == Split([], m, b, false) == []
  {
  }

  lemma SplitLast(slots: seq<Slot>, m: nat, b: nat)
    requires m > 0 && slots != []
    ensures var front, last := slots[..|slots| - 1], slots[|slots| - 1];
            var stay := last.hash % m == b;
            && Split(slots, m, b, stay) == Split(front, m, b, stay) + [last]
            && Split(slots, m, b, !stay) == Split(front, m, b, !stay)
  {
  }

  ghost predicate AllDistinct(slots: seq<Slot>)
  {
    forall i, j :: 0 <= i < j < |slots| ==> slots[i].pref != slots[j].pref
  }

  lemma {:induction false} SplitDistinct(slots: seq<Slot>, m: nat, b: nat, stay: bool)
    requires m > 0 && AllDistinct(slots)
    ensures AllDistinct(Split(slots, m, b, stay))
  {
    if slots != [] {
      var front := slots[..|slots| - 1];
      SplitDistinct(front, m, b, stay);
      var r := Split(front, m, b, stay);
      forall i | 0 <= i < |r| ensures r[i].pref != slots[|slots| - 1].pref {
        assert r[i] in front;
      }
    }
  }

  /** Rehashing bucket `s`: what no longer belongs goes to bucket `s + 2^logMod`. */
  function Rehashed(view: View, logMod: nat, s: nat): (r: View)
    requires s < Pow2(logMod) && s + Pow2(logMod) < |view|
    ensures |r| == |view|
  {
    var t := s + Pow2(logMod);
    var m := Pow2(logMod + 1);
    view[s := Split(view[s], m, s, true)][t := view[t] + Split(view[s], m, s, false)]
  }

  /** Rehashing bucket `b` under modulus `m`, wherever its slots belong. */
  function Scattered(view: View, m: nat, b: nat): (r: View)
    requires m > 0 && b < |view|
    ensures |r| == |view|
  {
    seq(|view|, c requires 0 <= c < |view| =>
      if c == b then Split(view[b], m, b, true) else view[c] + Split(view[b], m, c, true))
  }

  /** The buckets after one growth step, before the new bucket is added. */
  function Regrouped(view: View, g: Params): (r: View)
    requires g.step < Pow2(g.logMod) ==> g.step < |view|
    ensures |r| == |view|
  {
    if g.step < Pow2(g.logMod) then Scattered(view, Pow2(g.logMod + 1), g.step) else view
  }

  /** Under the next modulus every slot stays in bucket `b` or moves to the same other bucket. */
  ghost predicate TwoWays(slots: seq<Slot>, logMod: nat, b: nat)
  {
    forall i :: 0 <= i < |slots| ==>
      slots[i].hash % Pow2(logMod + 1) == b || slots[i].hash % Pow2(logMod + 1) == b + Pow2(logMod)
  }

  /** In a bucket without strays that is about to be rehashed, every slot stays or moves to the same other bucket. */
  lemma StepGoesTwoWays(view: View, g: Params, refs: Refs, hasher: Hasher, index: map<Bytes, PRef>, strays: set<nat>)
    requires g.Sound() && g.buckets == |view| && g.step < Pow2(g.logMod) && g.step !in strays
    requires Indexes(view, g.logMod, g.step, refs, hasher, index, strays)
    ensures g.step + Pow2(g.logMod) < |view| && TwoWays(view[g.step], g.logMod, g.step)
  {
    BucketsInRange(g, 0);
    assert BucketHolds(view[g.step], g.step, g.logMod, g.step, refs, hasher, index, false);
    forall i | 0 <= i < |view[g.step]|
      ensures view[g.step][i].hash % Pow2(g.logMod + 1) == g.step
              || view[g.step][i].hash % Pow2(g.logMod + 1) == g.step + Pow2(g.logMod)
    {
      assert Placed(view[g.step][i], g.step, g.logMod, g.step, refs, index, false);
      StepRehomes(g.logMod, g.step, view[g.step][i].hash);
    }
  }

  lemma {:induction false} SplitTwoWays(slots: seq<Slot>, logMod: nat, b: nat, c: nat)
    requires TwoWays(slots, logMod, b) && c != b
    ensures Split(slots, Pow2(logMod + 1), c, true) ==
            if c == b + Pow2(logMod) then Split(slots, Pow2(logMod + 1), b, false) else []
  {
    hide Split, Pow2;
    var m := Pow2(logMod + 1);
    if slots == [] {
      SplitNone(m, b);
      SplitNone(m, c);
    } else {
      SplitTwoWays(slots[..|slots| - 1], logMod, b, c);
      SplitLast(slots, m, b);
      SplitLast(slots, m, c);
    }
  }

  lemma TwoWaysIsHalved(view: View, logMod: nat, s: nat)
    requires s < Pow2(logMod) && s + Pow2(logMod) < |view| && TwoWays(view[s], logMod, s)
    ensures Scattered(view, Pow2(logMod + 1), s) == Rehashed(view, logMod, s)
  {
    hide Split, Pow2, TwoWays;
    var r := Scattered(view, Pow2(logMod + 1), s);
    forall c | 0 <= c < |view| ensures r[c] == Rehashed(view, logMod, s)[c] {
      if c != s { SplitTwoWays(view[s], logMod, s, c); }
    }
  }

  /** The same when no slot is a stray. */
  function Halved(view: View, g: Params): (r: View)
    requires g.step < Pow2(g.logMod) ==> g.step + Pow2(g.logMod) < |view|
    ensures |r| == |view|
  {
    if g.step < Pow2(g.logMod) then Rehashed(view, g.logMod, g.step) else view
  }

  /** The growth step rehashes no bucket that may hold strays, and moves nothing to one. */
  ghost predicate Clean(g: Params, strays: set<nat>)
  {
    g.step < Pow2(g.logMod) ==> g.step !in strays && g.step + Pow2(g.logMod) !in strays
  }

  /** The only bucket a rehash moves slots to was empty. */
  lemma TargetWasEmpty(view: View, g: Params, refs: Refs, hasher: Hasher, index: map<Bytes, PRef>, strays: set<nat>)
    requires g.Sound() && g.buckets == |view| && g.step < Pow2(g.logMod) && Clean(g, strays)
    requires Indexes(view, g.logMod, g.step, refs, hasher, index, strays)
    ensures g.step + Pow2(g.logMod) < |view| && view[g.step + Pow2(g.logMod)] == []
  {
    BucketsInRange(g, 0);
    var t := g.step + Pow2(g.logMod);
    assert BucketHolds(view[t], t, g.logMod, g.step, refs, hasher, index, t in strays);
    if view[t] != [] {
      assert Placed(view[t][0], t, g.logMod, g.step, refs, index, false);
      StepRehomes(g.logMod, g.step, view[t][0].hash);
      assert false;
    }
  }

  /** A growth step that is clean keeps the index, now read with the grown parameters; strays stay where they are. */
  lemma GrowKeeps(view: View, g: Params, refs: Refs, hasher: Hasher, index: map<Bytes, PRef>, strays: set<nat>)
    requires g.Sound() && g.CanGrow() && g.buckets == |view| && Clean(g, strays)
    requires Indexes(view, g.logMod, g.step, refs, hasher, index, strays)
    ensures g.step < Pow2(g.logMod) ==> g.step + Pow2(g.logMod) < |view|
    ensures Indexes(Regrouped(view, g) + [[]], g.Grow().logMod, g.Grow().step, refs, hasher, index, strays)
    ensures Regrouped(view, g) == Halved(view, g)
  {
    BucketsInRange(g, 0);
    var h := g.Grow();
    var grown := Halved(view, g) + [[]];
    if g.step < Pow2(g.logMod) {
      TargetWasEmpty(view, g, refs, hasher, index, strays);
      StepGoesTwoWays(view, g, refs, hasher, index, strays);
      TwoWaysIsHalved(view, g.logMod, g.step);
    }
    forall c | 0 <= c < |grown| ensures BucketHolds(grown[c], c, h.logMod, h.step, refs, hasher, index, c in strays) {
      if c < |view| { HalvedHolds(view, g, refs, hasher, index, strays, c); }
    }
    forall key | key in index ensures Finds(grown, h.logMod, h.step, refs, hasher, key, index[key]) {
      assert Finds(view, g.logMod, g.step, refs, hasher, key, index[key]);
      HalvedFinds(view, g, hasher.Of(key), Slot(hasher.Of(key), index[key]));
    }
  }

  lemma HalvedHolds(view: View, g: Params, refs: Refs, hasher: Hasher, index: map<Bytes, PRef>, strays: set<nat>,
      c: nat)
    requires g.Sound() && g.CanGrow() && g.buckets == |view| && c < |view| && Clean(g, strays)
    requires Indexes(view, g.logMod, g.step, refs, hasher, index, strays)
    requires g.step < Pow2(g.logMod) ==> g.step + Pow2(g.logMod) < |view| && view[g.step + Pow2(g.logMod)] == []
    ensures BucketHolds(Halved(view, g)[c], c, g.Grow().logMod, g.Grow().step, refs, hasher, index, c in strays)
  {
    hide Pow2, BucketFor, Split, Rehashed;
    var h := g.Grow();
    if g.step < Pow2(g.logMod) && (c == g.step || c == g.step + Pow2(g.logMod)) {
      RehousedHolds(view, g, refs, hasher, index, strays, c);
    } else {
      assert BucketHolds(view[c], c, g.logMod, g.step, refs, hasher, index, c in strays);
      assert Halved(view, g)[c] == view[c] by { RehashedElsewhere(view, g, c); }
      forall i | 0 <= i < |view[c]|
        ensures BucketFor(h.logMod, h.step, view[c][i].hash) == c <==> BucketFor(g.logMod, g.step, view[c][i].hash) == c
        ensures Placed(view[c][i], c, h.logMod, h.step, refs, index, c in strays)
      {
        assert Placed(view[c][i], c, g.logMod, g.step, refs, index, c in strays);
        HashStays(g, view[c][i].hash, c);
      }
    }
  }

  lemma RehashedElsewhere(view: View, g: Params, c: nat)
    requires c < |view| && (g.step < Pow2(g.logMod) ==> g.step + Pow2(g.logMod) < |view|)
    requires g.step < Pow2(g.logMod) ==> c != g.step && c != g.step + Pow2(g.logMod)
    ensures Halved(view, g)[c] == view[c]
  {
    hide Pow2, Split;
  }

  /** Buckets that take no part in a growth step are looked for by the same hashes as before. */
  lemma HashStays(g: Params, hash: nat, c: nat)
    requires g.Sound() && g.CanGrow()
    requires g.step < Pow2(g.logMod) ==> c != g.step && c != g.step + Pow2(g.logMod)
    ensures BucketFor(g.Grow().logMod, g.Grow().step, hash) == c <==> BucketFor(g.logMod, g.step, hash) == c
  {
    GrowRehomes(g, hash);
    HashSplits(g.logMod, hash);
  }

  /** The two halves of the rehashed bucket. */
  lemma RehousedHolds(view: View, g: Params, refs: Refs, hasher: Hasher, index: map<Bytes, PRef>, strays: set<nat>,
      c: nat)
    requires g.Sound() && g.CanGrow() && g.buckets == |view| && Clean(g, strays) && g.step < Pow2(g.logMod)
    requires Indexes(view, g.logMod, g.step, refs, hasher, index, strays)
    requires g.step + Pow2(g.logMod) < |view| && view[g.step + Pow2(g.logMod)] == []
    requires c == g.step || c == g.step + Pow2(g.logMod)
    ensures BucketHolds(Rehashed(view, g.logMod, g.step)[c], c, g.Grow().logMod, g.Grow().step, refs, hasher, index,
              c in strays)
  {
    hide Pow2, BucketFor, Split;
    var h, was := g.Grow(), view[g.step];
    var slots := Rehashed(view, g.logMod, g.step)[c];
    assert BucketHolds(was, g.step, g.logMod, g.step, refs, hasher, index, false);
    assert AllDistinct(was) by {
      forall i | 0 <= i < |was| ensures BucketFor(g.logMod, g.step, was[i].hash) == g.step {
        assert Placed(was[i], g.step, g.logMod, g.step, refs, index, false);
      }
    }
    SplitDistinct(was, Pow2(g.logMod + 1), g.step, c == g.step);
    assert slots == Split(was, Pow2(g.logMod + 1), g.step, c == g.step);
    forall i | 0 <= i < |slots|
      ensures Sound(slots[i], refs, hasher) && Placed(slots[i], c, h.logMod, h.step, refs, index, c in strays) {
      assert slots[i] in slots;
      RehousedSlot(was, g, refs, hasher, index, c in strays, c, slots[i]);
    }
  }

  lemma RehousedSlot(was: seq<Slot>, g: Params, refs: Refs, hasher: Hasher, index: map<Bytes, PRef>, stray: bool,
    c: nat,
      x: Slot)
    requires g.Sound() && g.CanGrow() && g.step < Pow2(g.logMod) && x in was
    requires BucketHolds(was, g.step, g.logMod, g.step, refs, hasher, index, false)
    requires c == g.step || c == g.step + Pow2(g.logMod)
    requires x.hash % Pow2(g.logMod + 1) == g.step <==> c == g.step
    ensures Sound(x, refs, hasher) && Placed(x, c, g.Grow().logMod, g.Grow().step, refs, index, stray)
  {
    hide Pow2, BucketFor, Params.Grow, Params.Sound;
    var j :| 0 <= j < |was| && was[j] == x;
    assert Sound(was[j], refs, hasher) && Placed(was[j], g.step, g.logMod, g.step, refs, index, false);
    HashMoves(g, x.hash, g.step, c);
  }

  lemma HashMoves(g: Params, hash: nat, from: nat, c: nat)
    requires g.Sound() && g.CanGrow() && BucketFor(g.logMod, g.step, hash) == from
    requires g.step < Pow2(g.logMod) && from == g.step ==> (hash % Pow2(g.logMod + 1) == g.step <==> c == g.step)
    requires g.step < Pow2(g.logMod) && from == g.step ==> (c == g.step || c == g.step + Pow2(g.logMod))
    requires !(g.step < Pow2(g.logMod) && from == g.step) ==> c == from
    ensures BucketFor(g.Grow().logMod, g.Grow().step, hash) == c
  {
    GrowRehomes(g, hash);
    HashSplits(g.logMod, hash);
  }

  lemma HalvedFinds(view: View, g: Params, hash: u32, slot: Slot)
    requires g.Sound() && g.CanGrow() && g.buckets == |view| && slot.hash == hash
    requires g.step < Pow2(g.logMod) ==> g.step + Pow2(g.logMod) < |view|
    requires BucketFor(g.logMod, g.step, hash) < |view| && slot in view[BucketFor(g.logMod, g.step, hash)]
    ensures var c := BucketFor(g.Grow().logMod, g.Grow().step, hash);
            c < |view| && slot in Halved(view, g)[c]
  {
    GrowRehomes(g, hash);
    HashSplits(g.logMod, hash);
    BucketsInRange(g, hash);
  }

  function Bag(view: View): multiset<Slot>
  {
    if view == [] then multiset{} else Bag(view[..|view| - 1]) + multiset(view[|view| - 1])
  }

  lemma {:induction false} BagUpdate(view: View, b: nat, slots: seq<Slot>, x: Slot)
    requires b < |view|
    ensures Bag(view[b := slots])[x] + multiset(view[b])[x] == Bag(view)[x] + multiset(slots)[x]
  {
    var n := |view| - 1;
    var view' := view[b := slots];
    assert Bag(view)[x] == Bag(view[..n])[x] + multiset(view[n])[x];
    assert Bag(view')[x] == Bag(view'[..n])[x] + multiset(view'[n])[x];
    if b == n {
      assert view'[..n] == view[..n];
    } else {
      BagUpdate(view[..n], b, slots, x);
      assert view'[..n] == view[..n][b := slots];
    }
  }

  /** Buckets that hold a slot equally often. */
  lemma {:induction false} BagAgrees(view: View, view': View, x: Slot)
    requires |view| == |view'| && forall c :: 0 <= c < |view| ==> multiset(view[c])[x] == multiset(view'[c])[x]
    ensures Bag(view)[x] == Bag(view')[x]
  {
    if view != [] { BagAgrees(view[..|view| - 1], view'[..|view| - 1], x); }
  }

  lemma {:induction false} SplitCount(slots: seq<Slot>, m: nat, c: nat, x: Slot)
    requires m > 0
    ensures multiset(Split(slots, m, c, true))[x] == if x.hash % m == c then multiset(slots)[x] else 0
  {
    hide Split;
    if slots != [] {
      var front, last := slots[..|slots| - 1], slots[|slots| - 1];
      SplitCount(front, m, c, x);
      assert slots == front + [last];
      SplitLast(slots, m, c);
      BothCount(front, [last], x);
      BothCount(Split(front, m, c, true), [last], x);
    } else {
      SplitNone(m, c);
    }
  }

  lemma RehashConservesSlot(view: View, m: nat, b: nat, x: Slot)
    requires 0 < m <= |view| && b < |view|
    ensures Bag(Scattered(view, m, b))[x] == Bag(view)[x]
  {
    hide Bag, Split;
    var t, kept := x.hash % m, Split(view[b], m, b, true);
    var moved := view[b := kept];
    BagUpdate(view, b, kept, x);
    SplitCount(view[b], m, b, x);
    if t != b {
      BagUpdate(moved, t, view[t] + view[b], x);
      moved := moved[t := view[t] + view[b]];
      BothCount(view[t], view[b], x);
    }
    var r := Scattered(view, m, b);
    forall c | 0 <= c < |view| ensures multiset(r[c])[x] == multiset(moved[c])[x] {
      SplitCount(view[b], m, c, x);
      if c != b { BothCount(view[c], Split(view[b], m, c, true), x); }
    }
    BagAgrees(r, moved, x);
  }

  lemma BothCount(a: seq<Slot>, b: seq<Slot>, x: Slot)
    ensures multiset(a + b)[x] == multiset(a)[x] + multiset(b)[x]
  {
  }

  /** A rehash neither loses nor duplicates a slot, strays included. */
  lemma RehashConserves(view: View, m: nat, b: nat)
    requires 0 < m <= |view| && b < |view|
    ensures Bag(Scattered(view, m, b)) == Bag(view)
  {
    hide Bag, Scattered;
    forall x: Slot ensures Bag(Scattered(view, m, b))[x] == Bag(view)[x] {
      RehashConservesSlot(view, m, b, x);
    }
  }

  lemma SomebodyHome(slots: seq<Slot>, b: nat, logMod: nat, step: nat, refs: Refs, hasher: Hasher,
      index: map<Bytes, PRef>) returns (key: Bytes)
    requires BucketHolds(slots, b, logMod, step, refs, hasher, index, false) && slots != []
    ensures key in index && BucketFor(logMod, step, hasher.Of(key)) == b
  {
    hide BucketFor;
    assert Placed(slots[0], b, logMod, step, refs, index, false) && Sound(slots[0], refs, hasher);
    key := refs[slots[0].pref].key;
  }

  /** A bucket without strays that no key leads to is empty. */
  lemma NobodyHome(view: View, logMod: nat, step: nat, refs: Refs, hasher: Hasher, index: map<Bytes, PRef>,
      strays: set<nat>, b: nat)
    requires Indexes(view, logMod, step, refs, hasher, index, strays) && b < |view| && b !in strays
    requires forall key :: key in index ==> BucketFor(logMod, step, hasher.Of(key)) != b
    ensures view[b] == []
  {
    hide BucketFor, BucketHolds;
    if |view[b]| > 0 { var key := SomebodyHome(view[b], b, logMod, step, refs, hasher, index); }
  }

  /** The bucket of the only key holds its slot and nothing else. */
  lemma OnlyKey(view: View, logMod: nat, step: nat, refs: Refs, hasher: Hasher, index: map<Bytes, PRef>, key: Bytes)
    requires Indexes(view, logMod, step, refs, hasher, index, {}) && index.Keys == {key}
    ensures var b := BucketFor(logMod, step, hasher.Of(key));
            b < |view| && view[b] == [Slot(hasher.Of(key), index[key])]
  {
    hide BucketFor;
    var b := BucketFor(logMod, step, hasher.Of(key));
    assert Finds(view, logMod, step, refs, hasher, key, index[key]);
    var slots := view[b];
    assert BucketHolds(slots, b, logMod, step, refs, hasher, index, false);
    forall i | 0 <= i < |slots| ensures slots[i] == Slot(hasher.Of(key), index[key]) {
      assert Placed(slots[i], b, logMod, step, refs, index, false) && Sound(slots[i], refs, hasher);
    }
    assert |slots| > 1 ==> slots[0].pref == slots[1].pref;
  }

  // ---------------------------------------------------------------- counting slots

  function Total(view: View): nat
  {
    if view == [] then 0 else Total(view[..|view| - 1]) + |view[|view| - 1]|
  }

  lemma {:induction false} TotalUpdate(view: View, b: nat, slots: seq<Slot>)
    requires b < |view|
    ensures Total(view[b := slots]) + |view[b]| == Total(view) + |slots|
  {
    var n := |view| - 1;
    var view' := view[b := slots];
    if b == n {
      assert view'[..n] == view[..n];
    } else {
      TotalUpdate(view[..n], b, slots);
      assert view'[..n] == view[..n][b := slots];
    }
  }

  lemma {:induction false} SplitCounts(slots: seq<Slot>, m: nat, b: nat)
    requires m > 0
    ensures |Split(slots, m, b, true)| + |Split(slots, m, b, false)| == |slots|
  {
    hide Split;
    if slots == [] {
      SplitNone(m, b);
    } else {
      SplitCounts(slots[..|slots| - 1], m, b);
      SplitLast(slots, m, b);
    }
  }

  /** A growth step without strays neither adds nor drops slots. */
  lemma TotalOfHalved(view: View, g: Params)
    requires g.step < Pow2(g.logMod) ==> g.step + Pow2(g.logMod) < |view|
    ensures Total(Halved(view, g) + [[]]) == Total(view)
  {
    hide *;
    TotalOfNew(Halved(view, g));
    if g.step < Pow2(g.logMod) { TotalOfRehashed(view, g.logMod, g.step); }
    HalvedIs(view, g);
  }

  lemma HalvedIs(view: View, g: Params)
    requires g.step < Pow2(g.logMod) ==> g.step + Pow2(g.logMod) < |view|
    ensures Halved(view, g) == if g.step < Pow2(g.logMod) then Rehashed(view, g.logMod, g.step) else view
  {
    hide Rehashed, Pow2;
  }

  lemma TotalOfRehashed(view: View, logMod: nat, s: nat)
    requires s < Pow2(logMod) && s + Pow2(logMod) < |view|
    ensures Total(Rehashed(view, logMod, s)) == Total(view)
  {
    hide Split, Pow2, Total;
    var m := Pow2(logMod + 1);
    SplitCounts(view[s], m, s);
    TotalOfTwo(view, s, s + Pow2(logMod), Split(view[s], m, s, true), Split(view[s], m, s, false));
  }

  lemma TotalOfTwo(view: View, s: nat, t: nat, kept: seq<Slot>, moved: seq<Slot>)
    requires s < |view| && t < |view| && s != t && |kept| + |moved| == |view[s]|
    ensures Total(view[s := kept][t := view[t] + moved]) == Total(view)
  {
    hide Total;
    TotalUpdate(view, s, kept);
    TotalUpdate(view[s := kept], t, view[t] + moved);
  }

  lemma TotalOfNew(view: View)
    ensures Total(view + [[]]) == Total(view)
  {
    assert (view + [[]])[..|view|] == view;
  }

  /** What it takes to write every bucket to the link file. */
  function Cost(view: View): nat { 4 * |view| + 10 * Total(view) }

  lemma {:induction false} CostOfPrefix(view: View, n: nat)
    requires n < |view|
    ensures Cost(view[..n + 1]) == Cost(view[..n]) + 4 + 10 * |view[n]| <= Cost(view)
    decreases |view|
  {
    assert view[..n + 1][..n] == view[..n];
    if n + 1 == |view| {
      assert view[..n + 1] == view;
    } else {
      var front := view[..|view| - 1];
      CostOfPrefix(front, n);
      assert front[..n + 1] == view[..n + 1];
    }
  }

  ghost function KeysOf(slots: seq<Slot>, refs: Refs): set<Bytes>
    requires forall i :: 0 <= i < |slots| ==> slots[i].pref in refs && refs[slots[i].pref].Indexed?
  {
    set i | 0 <= i < |slots| :: refs[slots[i].pref].key
  }

  lemma {:induction false} KeysAreDistinct(slots: seq<Slot>, b: nat, logMod: nat, step: nat, refs: Refs, hasher: Hasher,
      index: map<Bytes, PRef>)
    requires BucketHolds(slots, b, logMod, step, refs, hasher, index, false)
    ensures forall i :: 0 <= i < |slots| ==> Sound(slots[i], refs, hasher)
    ensures |KeysOf(slots, refs)| == |slots|
  {
    hide BucketFor;
    if slots != [] {
      var n := |slots| - 1;
      var front := slots[..n];
      assert forall i :: 0 <= i < n ==> front[i] == slots[i];
      forall i | 0 <= i < n
        ensures Sound(front[i], refs, hasher) && Placed(front[i], b, logMod, step, refs, index, false) {
        assert Sound(slots[i], refs, hasher) && Placed(slots[i], b, logMod, step, refs, index, false);
      }
      KeysAreDistinct(front, b, logMod, step, refs, hasher, index);
      var key := refs[slots[n].pref].key;
      assert Placed(slots[n], b, logMod, step, refs, index, false);
      assert key !in KeysOf(front, refs);
      assert KeysOf(slots, refs) == KeysOf(front, refs) + {key};
    }
  }

  /** Every key has one slot: there are no more slots than keys. */
  lemma {:induction false} TotalIsBounded(view: View, n: nat, logMod: nat, step: nat, refs: Refs, hasher: Hasher,
      index: map<Bytes, PRef>) returns (keys: set<Bytes>)
    requires n <= |view| && forall b :: 0 <= b < n ==> BucketHolds(view[b], b, logMod, step, refs, hasher, index, false)
    ensures |keys| == Total(view[..n]) && keys <= index.Keys
    ensures forall key :: key in keys ==> BucketFor(logMod, step, hasher.Of(key)) < n
  {
    hide BucketFor;
    keys := {};
    if n > 0 {
      keys := TotalIsBounded(view, n - 1, logMod, step, refs, hasher, index);
      assert view[..n][..n - 1] == view[..n - 1];
      var slots := view[n - 1];
      KeysAreDistinct(slots, n - 1, logMod, step, refs, hasher, index);
      var more := KeysOf(slots, refs);
      forall key | key in more ensures key in index && BucketFor(logMod, step, hasher.Of(key)) == n - 1 {
        var i :| 0 <= i < |slots| && refs[slots[i].pref].key == key;
        assert Placed(slots[i], n - 1, logMod, step, refs, index, false);
      }
      assert keys !! more;
      keys := keys + more;
    }
  }

  lemma SlotsAtMostKeys(view: View, logMod: nat, step: nat, refs: Refs, hasher: Hasher, index: map<Bytes, PRef>)
    requires Indexes(view, logMod, step, refs, hasher, index, {})
    ensures Total(view) <= |index| && forall b :: 0 <= b < |view| ==> |view[b]| <= |index|
  {
    hide BucketHolds, BucketFor;
    var keys := TotalIsBounded(view, |view|, logMod, step, refs, hasher, index);
    assert view[..|view|] == view;
    SubsetSize(keys, index.Keys);
    assert |index.Keys| == |index|;
    forall b | 0 <= b < |view| ensures |view[b]| <= Total(view) { TotalOfPrefix(view, b); }
  }

  lemma {:induction false} TotalOfPrefix(view: View, b: nat)
    requires b < |view|
    ensures |view[b]| <= Total(view)
  {
    if b < |view| - 1 { TotalOfPrefix(view[..|view| - 1], b); }
  }
}
