/** The key/value store as its users see it, and what it promises over whole runs. */
module Store {
  import opened Types
  import opened Codec
  import opened Growth
  import opened Index
  import opened Ledger
  import opened PagedFile
  import opened DataFiles
  import opened TableFiles
  import opened DirtyBits
  import opened Recovery
  import opened MemTables
  import opened Reopening

  const MAX_KEY := 255
  const DATA_LIMIT := 0x80_0000

  // ---------------------------------------------------------------- the specification

  datatype Op = PutKeyed(key: Bytes, data: Bytes) | GetKeyed(key: Bytes) | Forget(key: Bytes) | MayHave(key: Bytes)
              | Put(data: Bytes) | Get(pref: PRef) | Batch

  /** A plain map from keys to references, what was stored at each reference, and where the next data will go. */
  datatype Model = Model(index: map<Bytes, PRef>, refs: map<PRef, Payload>, end: nat)

  const EMPTY_MODEL := Model(map[], map[], 0)

  predicate Accepted(key: Bytes, data: Bytes) { |key| <= MAX_KEY && |data| < DATA_LIMIT }

  function Add(m: Model, p: Payload): Model { m.(refs := m.refs[m.end := p], end := m.end + 3 + |Serialize(p)|) }

  function Next(m: Model, op: Op): Model
  {
    match op
    case PutKeyed(key, data) =>
      if Accepted(key, data) then Add(m, Indexed(key, data)).(index := m.index[key := m.end]) else m
    case Put(data) => Add(m, Referred(data))
    case Forget(key) => m.(index := Remove(m.index, key))
    case Batch => m.(end := Padded(m.end))
    case GetKeyed(_) => m
    case MayHave(_) => m
    case Get(_) => m
  }

  /** The model after operations that begin at `m`. */
  function From(m: Model, ops: seq<Op>): Model
  {
    if ops == [] then m else Next(From(m, ops[..|ops| - 1]), ops[|ops| - 1])
  }

  lemma FromNothing(m: Model)
    ensures From(m, []) == m
  {
  }

  function After(ops: seq<Op>): Model { From(EMPTY_MODEL, ops) }

  lemma {:induction false} FromThere(m: Model, ops: seq<Op>, more: seq<Op>)
    ensures From(From(m, ops), more) == From(m, ops + more)
  {
    hide Next;
    if more == [] {
      assert ops + more == ops;
    } else {
      FromThere(m, ops, more[..|more| - 1]);
      assert (ops + more)[..|ops + more| - 1] == ops + more[..|more| - 1];
    }
  }

  datatype Out =
    | Reference(pref: PRef) | Found(found: Option<(PRef, Bytes)>) | Content(key: Bytes, data: Bytes) | Done
    | Perhaps(may: bool) | Failed(error: Error)

  function Expected(m: Model, key: Bytes): Option<(PRef, Bytes)>
  {
    if key in m.index && m.index[key] in m.refs && m.refs[m.index[key]].Indexed?
    then Some((m.index[key], m.refs[m.index[key]].data)) else None
  }

  /** Some key of the map has the hash of this one. */
  ghost predicate SharesHash(index: map<Bytes, PRef>, hasher: Hasher, key: Bytes)
  {
    exists k :: k in index && hasher.Of(k) == hasher.Of(key)
  }

  /** The answer to each operation, in terms of the plain map and the hash function. */
  ghost predicate Correct(m: Model, hasher: Hasher, op: Op, out: Out)
  {
    match op
    case PutKeyed(key, data) => out == if Accepted(key, data) then Reference(m.end) else Failed(KeyTooLong)
    case Put(_) => out == Reference(m.end)
    case Forget(_) => out == Done
    case Batch => out == Done
    case GetKeyed(key) => out == Found(Expected(m, key))
    case MayHave(key) => out == Perhaps(SharesHash(m.index, hasher, key))
    case Get(p) => p in m.refs ==>
      match m.refs[p]
      case Indexed(key, data) => out == Content(key, data)
      case Referred(data) => out == Content([], data)
      case Link(_) => true
  }

  // ---------------------------------------------------------------- what the plain map means

  /** The last accepted put of the key, unless a forget of it came later. */
  function LastPut(ops: seq<Op>, key: Bytes): Option<nat>
  {
    if ops == [] then None
    else match ops[|ops| - 1]
         case PutKeyed(k, data) => if k == key && Accepted(k, data) then Some(|ops| - 1)
           else LastPut(ops[..|ops| - 1], key)
         case Forget(k) => if k == key then None else LastPut(ops[..|ops| - 1], key)
         case _ => LastPut(ops[..|ops| - 1], key)
  }

  /** The model keeps, for each key, the reference and the data of exactly that put. */
  lemma {:induction false} ModelKeepsLastPut(ops: seq<Op>, key: Bytes)
    ensures var m, last := After(ops), LastPut(ops, key);
            && (key in m.index <==> last.Some?)
            && (last.Some? ==> last.value < |ops| && ops[last.value].PutKeyed? && ops[last.value].key == key)
            && (last.Some? ==> Expected(m, key) == Some((After(ops[..last.value]).end, ops[last.value].data)))
            && (last.None? ==> Expected(m, key) == None)
  {
    hide Serialize, Padded, Accepted;
    if ops != [] {
      var front, op := ops[..|ops| - 1], ops[|ops| - 1];
      ModelKeepsLastPut(front, key);
      RefsBelowEnd(front);
      var last := LastPut(front, key);
      if last.Some? { assert ops[..last.value] == front[..last.value]; }
    }
  }

  lemma {:induction false} RefsBelowEnd(ops: seq<Op>)
    ensures forall p :: p in After(ops).refs ==> p < After(ops).end
    ensures forall key :: key in After(ops).index ==> After(ops).index[key] in After(ops).refs
  {
    if ops != [] {
      RefsBelowEnd(ops[..|ops| - 1]);
      PaddedIsAligned(After(ops[..|ops| - 1]).end);
    }
  }

  /** What is stored at a reference never changes, whatever is done later. */
  lemma {:induction false} ReferencesAreStable(ops: seq<Op>, n: nat, p: PRef)
    requires n <= |ops| && p in After(ops[..n]).refs
    ensures p in After(ops).refs && After(ops).refs[p] == After(ops[..n]).refs[p]
  {
    if n < |ops| {
      var front := ops[..|ops| - 1];
      assert front[..n] == ops[..n];
      ReferencesAreStable(front, n, p);
      RefsBelowEnd(front);
    } else {
      assert ops[..n] == ops;
    }
  }

  /** What decides when the table grows, the buckets that may hold strays, and those rehashed since the store was
      opened. It changes with the operations only. */
  datatype Setting = Setting(g: Params, forget: nat, hasher: Hasher, fillTarget: FillTarget, strays: set<nat>,
                             rehashed: set<nat>)

  function Tune(t: Setting, m: Model, op: Op): Setting
  {
    match op
    case PutKeyed(key, data) =>
      if !Accepted(key, data) then t
      else var grows := WillGrow(t.hasher.Of(key), t.fillTarget, t.forget, t.g);
           t.(g := if grows then t.g.Grow() else t.g, forget := if t.forget > 0 then t.forget - 1 else 0,
              rehashed := t.rehashed + if grows then Rehashes(t.g) else {})
    case Forget(key) => if key in m.index then t.(forget := t.forget + 1) else t
    case _ => t
  }

  function SetAfter(t: Setting, m: Model, ops: seq<Op>): Setting
  {
    if ops == [] then t
    else Tune(SetAfter(t, m, ops[..|ops| - 1]), From(m, ops[..|ops| - 1]), ops[|ops| - 1])
  }

  /** The operation lets a bucket be rehashed that may hold strays. */
  ghost predicate Strands(t: Setting, op: Op)
  {
    op.PutKeyed? && Accepted(op.key, op.data) && Derails(t.hasher.Of(op.key), t.fillTarget, t.forget, t.g, t.strays)
  }

  ghost predicate Steady(t: Setting, m: Model, ops: seq<Op>)
  {
    forall n :: 0 <= n < |ops| ==> !Strands(SetAfter(t, m, ops[..n]), ops[n])
  }

  /** Without strays nothing can go wrong. */
  lemma {:induction false} NoStraysIsSteady(t: Setting, m: Model, ops: seq<Op>, n: nat)
    requires t.strays == {} && n <= |ops|
    ensures SetAfter(t, m, ops[..n]).strays == {} && (n < |ops| ==> !Strands(SetAfter(t, m, ops[..n]), ops[n]))
  {
    hide Accepted, WillGrow, From, Params.Grow;
    if n > 0 {
      NoStraysIsSteady(t, m, ops, n - 1);
      assert ops[..n][..n - 1] == ops[..n - 1];
    }
  }

  /** A store between two operations: its files, the last batch, how it is set, and how many slots it has. */
  datatype Moment = Moment(disk: Disk, commit: Commit, saved: Saved, setting: Setting, slots: nat)

  /** The last batch was the one at the end of opening. */
  predicate AsOpened(a: Moment)
  {
    && a.saved.g == a.setting.g && a.saved.strays == a.setting.strays
    && a.saved.rehashed == {} && a.setting.rehashed == {}
  }

  /** The keys and data of a batch, and where the next data will go. */
  ghost function Held(c: Commit, s: Saved): Model { Model(s.index, s.refs, PAGE_SIZE * |c.data|) }

  // ---------------------------------------------------------------- the store

  /** The data file has room for the payload and its length fields can hold its lengths. */
  predicate Fits(m: Model, p: Payload)
  {
    Encodable(p) && |Serialize(p)| < 0x100_0000 && m.end + 3 + |Serialize(p)| < INVALID
  }

  lemma AcceptedIsEncodable(key: Bytes, data: Bytes)
    requires Accepted(key, data)
    ensures Encodable(Indexed(key, data)) && |Serialize(Indexed(key, data))| == 5 + |key| + |data| < 0x100_0000
  {
  }

  lemma ReferredLength(data: Bytes)
    ensures |Serialize(Referred(data))| == 4 + |data| && (Encodable(Referred(data)) <==> |data| < 0x100_0000)
  {
  }

  /** The model in numbers. */
  lemma NextInNumbers(m: Model, op: Op)
    ensures op.PutKeyed? && |op.key| <= 255 && |op.data| < 0x80_0000 ==>
      Next(m, op) == Model(m.index[op.key := m.end], m.refs[m.end := Indexed(op.key, op.data)],
                           m.end + 8 + |op.key| + |op.data|)
    ensures op.PutKeyed? && !(|op.key| <= 255 && |op.data| < 0x80_0000) ==> Next(m, op) == m
    ensures op.Put? ==> Next(m, op) == Model(m.index, m.refs[m.end := Referred(op.data)], m.end + 7 + |op.data|)
    ensures op.Batch? ==> Next(m, op) == m.(end := Next(m, op).end) && Next(m, op).end % 4096 == 0
    ensures op.Batch? ==>
      if m.end % 4096 == 0 then Next(m, op).end == m.end else m.end + 7 <= Next(m, op).end < m.end + 7 + 4096
  {
    hide Padded;
    PaddedIsAligned(m.end);
    if op.PutKeyed? && Accepted(op.key, op.data) { AcceptedIsEncodable(op.key, op.data); }
    if op.Put? { ReferredLength(op.data); }
  }

  lemma AnswerIsMap(view: View, logMod: nat, step: nat, refs: Refs, hasher: Hasher, index: map<Bytes, PRef>,
      strays: set<nat>, key: Bytes)
    requires Indexes(view, logMod, step, refs, hasher, index, strays)
    requires BucketFor(logMod, step, hasher.Of(key)) < |view|
    ensures Answer(view, logMod, step, refs, hasher, key) == Ok(Expected(Model(index, refs, 0), key))
  {
    LookupIsMap(view, logMod, step, refs, hasher, index, strays, key);
    if key in index { assert Finds(view, logMod, step, refs, hasher, key, index[key]); }
  }

  class Hammersbald {
    const mem: MemTable

    ghost predicate Valid()
      reads mem`lists, mem`view, mem`buckets, mem`base, mem`step, mem`logMod, mem`hasher, mem`index, mem`strays
      reads mem`rehashed, mem`saved
      reads mem.dirty, mem.table, mem.log, mem.data, mem.data.appender, mem.link, mem.link.appender
    {
      mem.Valid() && Noted()
    }

    /** The hash function stays, and whenever the parameters differ from the saved ones, data has been appended. */
    ghost predicate Noted()
      reads mem`saved, mem`base, mem`buckets, mem`step, mem`logMod, mem`hasher, mem.data.appender`pos
    {
      && mem.saved.hasher == mem.hasher
      && (mem.saved.g == mem.Parameters() || PAGE_SIZE * |mem.base.data| < mem.data.appender.pos)
    }

    /** The data file never ends before the committed part of it. */
    lemma PastBase()
      requires mem.Valid()
      ensures PAGE_SIZE * |mem.base.data| <= mem.data.appender.pos
    {
      hide Indexes, Params.Sound, ListsSound, Remembers, MemTable.Linked, MemTable.Ledgered, LogFile.Follows,
        DataFiles.Filed, Flatten;
    }

    /** Nothing has changed since it was saved. */
    lemma JustSaved()
      requires mem.Valid() && mem.saved.g == mem.Parameters() && mem.saved.hasher == mem.hasher
      ensures Valid()
    {
      hide MemTable.Valid;
    }

    /** The store seen as the plain map. */
    ghost function Abstract(): Model
      reads mem`index, mem.data`contents, mem.data.appender`pos
    {
      Model(mem.index, mem.data.contents, mem.data.appender.pos)
    }

    ghost function Tuned(): Setting
      reads mem`logMod, mem`step, mem`buckets, mem`forget, mem`hasher, mem`strays, mem`rehashed
    {
      Setting(mem.Parameters(), mem.forget, mem.hasher, mem.fillTarget, mem.strays, mem.rehashed)
    }

    ghost function Present(): Moment
      reads mem`base, mem`saved, mem`view, mem`logMod, mem`step, mem`buckets, mem`forget, mem`hasher, mem`strays
      reads mem`rehashed
      reads mem.log`file, mem.table`file, mem.table`older, mem.link.appender`file, mem.data.appender`file
    {
      Moment(mem.Now(), mem.base, mem.saved, Tuned(), Total(mem.view))
    }

    constructor (mem: MemTable)
      ensures this.mem == mem
    {
      this.mem := mem;
    }

    method PutKeyed(key: Bytes, data: Bytes) returns (r: Result<PRef>)
      requires Valid()
      modifies mem`buckets, mem`view, mem`step, mem`logMod, mem`forget, mem`index, mem`rehashed
      modifies mem.dirty, mem.log`file, mem.log`logged, mem.data, mem.data.appender
      ensures Grows(old(mem.data.appender.file), mem.data.appender.file)
      ensures mem.link.appender.pos == old(mem.link.appender.pos)
      ensures r.Ok? ==> Tuned() == Tune(old(Tuned()), old(Abstract()), Op.PutKeyed(key, data))
      ensures r == Err(Panic) ==> mem.Now() == old(mem.Now()).(data := mem.data.appender.file)
      ensures r == Err(KeyTooLong) <==> |key| > 255 || |data| >= 0x80_0000
      ensures var end := old(mem.data.appender.pos) + 8 + |key| + |data|;
        && (r == Err(Panic) <==> |key| <= 255 && |data| < 0x80_0000 && end >= 0xffff_ffff_ffff)
        && (r.Ok? ==> mem.data.appender.pos == end)
      ensures var hash := mem.hasher.f(mem.hasher.sip0, mem.hasher.sip1, key);
        var grows := old(mem.forget) == 0 && hash % mem.fillTarget == 0 && old(mem.step) < 0x8000_0000;
        r.Ok? ==> |mem.buckets| == |old(mem.buckets)| + if grows then 1 else 0
      ensures !Accepted(key, data) ==>
        r == Err(KeyTooLong) && Valid() && Abstract() == old(Abstract()) && Tuned() == old(Tuned())
      ensures Accepted(key, data) && !Fits(old(Abstract()), Indexed(key, data)) ==> r == Err(Panic)
      ensures Accepted(key, data) && Fits(old(Abstract()), Indexed(key, data)) ==>
        && r == Ok(old(Abstract()).end) && Abstract() == Next(old(Abstract()), Op.PutKeyed(key, data))
        && mem.Readable() && old(mem.step) < |old(mem.view)|
        && (if Strands(old(Tuned()), Op.PutKeyed(key, data))
            then StraysMove(old(mem.view), mem.view, old(mem.Parameters()))
            else Valid() && StraysStay(old(mem.view), mem.view, old(mem.logMod), old(mem.step)))
      ensures r.Ok? && !Strands(old(Tuned()), Op.PutKeyed(key, data)) ==> Total(mem.view) <= old(Total(mem.view)) + 1
      ensures r.Err? ==> mem.view == old(mem.view)
      ensures r.Ok? ==>
        PutEffect(mem.hasher.Of(key), mem.fillTarget, old(mem.forget), old(mem.Parameters()), old(mem.view),
                  old(mem.log.logged), mem.forget, mem.Parameters(), mem.buckets, mem.log.logged)
    {
      hide MemTable.Valid, MemTable.Readable, Serialize, Encodable, Derails, Total, StraysMove, StraysStay;
      PastBase();
      QueueGrows(mem.data.appender.file, mem.data.appender.file);
      if |key| > MAX_KEY || |data| >= DATA_LIMIT { return Err(KeyTooLong); }
      AcceptedIsEncodable(key, data);
      r := mem.AppendData(Indexed(key, data));
      if r.Ok? {
        var stored := mem.Put(key, r.value);
        match stored { case Err(e) => return Err(e); case Ok(_) => }
      }
    }

    method GetKeyed(key: Bytes) returns (r: Result<Option<(PRef, Bytes)>>)
      requires Valid()
      modifies mem`buckets
      ensures Valid() && Abstract() == old(Abstract()) && Tuned() == old(Tuned()) && r == Ok(Expected(Abstract(), key))
    {
      hide Indexes, Params.Sound, ListsSound, Remembers, AllSound, MemTable.Linked, MemTable.Ledgered,
        MemTable.BetweenBatches, MemTable.Files, Lookup, BucketFor, FirstHit;
      IndexesSound(mem.view, mem.logMod, mem.step, mem.data.contents, mem.hasher, mem.index, mem.strays);
      BucketsInRange(Params(mem.logMod, mem.step, |mem.buckets|), mem.hasher.Of(key));
      AnswerIsMap(mem.view, mem.logMod, mem.step, mem.data.contents, mem.hasher, mem.index, mem.strays, key);
      r := mem.Get(key);
    }

    /** Whether some key has the same hash: a negative answer is certain, a positive one is not. */
    method MayHaveKey(key: Bytes) returns (r: Result<bool>)
      requires Valid()
      modifies mem`buckets
      ensures Valid() && Abstract() == old(Abstract()) && Tuned() == old(Tuned()) && mem.view == old(mem.view)
      ensures r.Ok? && (r.value <==> exists k :: k in Abstract().index && mem.hasher.Of(k) == mem.hasher.Of(key))
      ensures r.Ok? && (!r.value ==> key !in Abstract().index)
    {
      hide Indexes, Params.Sound, ListsSound, Remembers, AllSound, MemTable.Linked, MemTable.Ledgered,
        MemTable.BetweenBatches, MemTable.Files, BucketFor;
      IndexesSound(mem.view, mem.logMod, mem.step, mem.data.contents, mem.hasher, mem.index, mem.strays);
      BucketsInRange(Params(mem.logMod, mem.step, |mem.buckets|), mem.hasher.Of(key));
      SlotSharesHash(mem.view, mem.logMod, mem.step, mem.data.contents, mem.hasher, mem.index, mem.strays,
        mem.hasher.Of(key));
      r := mem.MayHaveKey(key);
    }

    method Forget(key: Bytes) returns (r: Result<()>)
      requires Valid()
      modifies mem`buckets, mem`view, mem`index, mem`forget
      modifies mem.dirty`bits, mem.dirty`marks, mem.log`file, mem.log`logged
      ensures r.Ok? && Valid() && Abstract() == Next(old(Abstract()), Op.Forget(key))
      ensures Tuned() == Tune(old(Tuned()), old(Abstract()), Op.Forget(key))
      ensures Total(mem.view) <= old(Total(mem.view)) && StraysStay(old(mem.view), mem.view, mem.logMod, mem.step)
    {
      hide MemTable.Valid, Total, StraysStay;
      r := mem.Forget(key);
    }

    method Put(data: Bytes) returns (r: Result<PRef>)
      requires Valid()
      modifies mem.data, mem.data.appender
      ensures Grows(old(mem.data.appender.file), mem.data.appender.file)
      ensures mem.link.appender.pos == old(mem.link.appender.pos)
      ensures mem.Now() == old(mem.Now()).(data := mem.data.appender.file)
      ensures var end := old(mem.data.appender.pos) + 7 + |data|;
        && (r == Err(Panic) <==> |data| >= 0xff_fffc || end >= 0xffff_ffff_ffff)
        && (r.Ok? ==> mem.data.appender.pos == end)
      ensures !Fits(old(Abstract()), Referred(data)) ==> r == Err(Panic)
      ensures Fits(old(Abstract()), Referred(data)) ==>
        r == Ok(old(Abstract()).end) && Valid() && Abstract() == Next(old(Abstract()), Op.Put(data))
    {
      hide MemTable.Valid, Serialize, Encodable;
      PastBase();
      ReferredLength(data);
      r := mem.AppendData(Referred(data));
    }

    method Get(pref: PRef) returns (r: Result<(Bytes, Bytes)>)
      requires Valid()
      ensures pref in Abstract().refs ==>
        match Abstract().refs[pref]
        case Indexed(key, data) => r == Ok((key, data))
        case Referred(data) => r == Ok(([], data))
        case Link(_) => r == Err(Corrupted)
      ensures var found := EnvelopeIn(Flatten(mem.data.appender.Pages()), pref);
        if found.None? then r.Err?
        else match Deserialize(found.value)
             case Ok(Indexed(key, data)) => r == Ok((key, data))
             case Ok(Referred(data)) => r == Ok(([], data))
             case Ok(Link(_)) => r == Err(Corrupted)
             case Err(e) => r == Err(e)
    {
      hide EnvelopeIn, Deserialize, Flatten, PagedFileAppender.Pages, Indexes, Params.Sound, ListsSound, Remembers,
        MemTable.Linked, MemTable.Ledgered, MemTable.BetweenBatches, DataFile.Valid;
      var payload :- mem.data.Fetch(pref);
      match payload
      case Referred(data) => r := Ok(([], data));
      case Indexed(key, data) => r := Ok((key, data));
      case Link(_) => r := Err(Corrupted);
    }

    /** A batch changes nothing but where the next data will go. It is safe against crashes if and only if the header
        of the first page is: then a crash at any step, whatever it leaves of the files, recovers the last batch or
        this one. Otherwise there is a step at which it recovers neither. */
    method Batch() returns (r: Result<()>, ghost trace: seq<Disk>, ghost cut: nat)
      requires Valid()
      modifies mem`buckets, mem`lists, mem`base, mem`saved
      modifies mem.dirty, mem.table, mem.log, mem.data, mem.data.appender, mem.link, mem.link.appender
      ensures r.Err? ==> r.error == Panic && cut == |trace|
      ensures r.Err? ==> !mem.BatchFits(old(mem.link.appender.pos), old(mem.data.appender.pos))
      ensures r.Ok? ==> Valid() && Abstract() == Next(old(Abstract()), Op.Batch) && cut < |trace|
      ensures r.Ok? ==> mem.link.appender.pos < old(mem.link.appender.pos) + Cost(mem.view) + PAGE_SIZE + 7
      ensures r.Ok? ==> Tuned() == old(Tuned()) && Sealed(mem.Now(), mem.base)
      ensures Leads(old(mem.Now()), trace, mem.Now()) && cut <= |trace|
      ensures old(mem.HeaderSafe()) <==>
              CrashSafe(old(mem.Now()), trace, cut, old(mem.base), old(mem.saved), r.Ok?, mem.base, mem.saved)
      ensures !old(mem.HeaderSafe()) ==> Torn(trace, cut, old(mem.base), r.Ok?, mem.base)
      ensures r.Ok? ==> Skipped(old(mem.Here()), mem.Here()) && mem.log.logged == {} && mem.base == mem.Committed()
      ensures r.Ok? ==> mem.saved == Saved(mem.Parameters(), mem.hasher, mem.buckets, mem.view, mem.index, mem.strays,
                                           mem.rehashed, mem.lists, mem.link.contents, mem.data.contents)
      ensures r.Ok? ==> Remembers(mem.base, mem.saved) && Abstract() == Held(mem.base, mem.saved)
    {
      hide Guarded, Sealed, Lost, Leads, MemTable.Core, MemTable.HeaderSafe, Indexes, ListsSound, Remembers,
        Params.Sound, Padded, CrashSafe, Torn, MemTable.BatchFits, Cost, Skipped;
      if !mem.HeaderSafe() { HeaderMoved(); }
      PaddedIsAligned(mem.data.appender.pos);
      r, trace, cut := mem.Batch();
      LeadsEnd(old(mem.Now()), trace, mem.Now());
      if old(mem.HeaderSafe()) {
        BatchIsSafe(old(mem.Now()), trace, cut, old(mem.base), old(mem.saved), r.Ok?, mem.base, mem.saved);
      } else {
        BatchIsTorn(old(mem.Now()), trace, cut, old(mem.base), old(mem.saved), r.Ok?, mem.base, mem.saved);
      }
    }

    /** A header that is not safe has changed, so data has been appended. */
    lemma HeaderMoved()
      requires Valid() && !mem.HeaderSafe()
      ensures PAGE_SIZE * |mem.base.data| < mem.data.appender.pos
    {
      hide Indexes, Params.Sound, ListsSound, MemTable.Core, Recorded, Views, Proper, AllKnown, MemTables.Stored,
        WellStored, PageHeader;
    }
  }

  /** Whichever step is interrupted, up to `cut` the last batch survives, from there on this one if it succeeds. */
  ghost predicate CrashSafe(before: Disk, trace: seq<Disk>, cut: nat, c: Commit, s: Saved, ok: bool, c': Commit,
      s': Saved)
  {
    forall j, i :: 0 <= j < |trace| && Interrupts(At(before, trace, j), trace[j], i) ==>
      (j <= cut && Survives(i, c, s)) || (j >= cut && ok && Survives(i, c', s'))
  }

  /** Some step leaves files that recover neither to `c` nor to `c'`. */
  ghost predicate Torn(trace: seq<Disk>, cut: nat, c: Commit, ok: bool, c': Commit)
    requires cut <= |trace|
  {
    exists j, i :: 0 <= j < cut && Leaves(trace[j], i) && !Restores(i, c) && (ok ==> !Restores(i, c'))
  }

  lemma BatchIsSafe(before: Disk, trace: seq<Disk>, cut: nat, c: Commit, s: Saved, ok: bool, c': Commit, s': Saved)
    requires Guarded(before, c, 0) && cut <= |trace| && (ok <==> cut < |trace|) && Remembers(c, s)
    requires (ok ==> Remembers(c', s'))
    requires forall k :: 0 <= k < cut ==> Guarded(trace[k], c, 0)
    requires ok ==> trace[cut].log == Settled([]) && forall k :: cut <= k < |trace| ==> Sealed(trace[k], c')
    ensures CrashSafe(before, trace, cut, c, s, ok, c', s')
  {
    hide Guarded, Sealed, Remembers, Recoverable, Restores, Interrupts;
    forall j, i | 0 <= j < |trace| && Interrupts(At(before, trace, j), trace[j], i)
      ensures (j <= cut && Survives(i, c, s)) || (j >= cut && ok && Survives(i, c', s'))
    {
      CrashDuringBatch(before, trace, cut, c, c', j, i);
    }
  }

  lemma BatchIsTorn(before: Disk, trace: seq<Disk>, cut: nat, c: Commit, s: Saved, ok: bool, c': Commit, s': Saved)
    requires cut <= |trace| && (exists k :: 0 <= k < cut && Lost(trace[k], c)) && (ok ==> c'.data != c.data)
    requires forall k :: 0 <= k < cut ==> Guarded(trace[k], c, 1)
    ensures Torn(trace, cut, c, ok, c') && !CrashSafe(before, trace, cut, c, s, ok, c', s')
  {
    hide Guarded, Remembers, Recoverable, Restores, Leaves;
    var k :| 0 <= k < cut && Lost(trace[k], c);
    var i :| Leaves(trace[k], i) && !Restores(i, c);
    if ok { OtherDataIsNotRestored(trace[k], c, 1, c', i); }
    assert Interrupts(At(before, trace, k), trace[k], i);
    assert !Survives(i, c, s);
  }

  /** Opening these files gets back to what was saved with `c`. */
  ghost predicate Survives(i: Image, c: Commit, s: Saved) { Recoverable(i, c) && Restores(i, c) && Remembers(c, s) }

  // ---------------------------------------------------------------- creating a store

  /** A memtable over the files of an image, before anything is read from them. */
  method Assemble(image: Image, hasher: Hasher, fillTarget: nat, ghost refs: Refs, ghost links: map<PRef, Payload>)
      returns (mem: MemTable)
    requires Shaped(image.table)
    ensures fresh(mem) && fresh(mem.dirty) && fresh(mem.table) && fresh(mem.log)
    ensures fresh(mem.data) && fresh(mem.data.appender) && fresh(mem.link) && fresh(mem.link.appender)
    ensures mem.Found() && mem.Now() == Rest(image) && mem.OnDisk() == image && mem.log.logged == {}
    ensures mem.log.sourceLen == 0
    ensures mem.data.appender.stream == Flatten(image.data) && mem.link.appender.stream == Flatten(image.link)
    ensures mem.data.contents == refs
    ensures WellStored(image.data, refs) ==> mem.data.Valid()
    ensures mem.link.contents == links
    ensures WellStored(image.link, links) ==> mem.link.Valid()
    ensures mem.dirty.Valid() && mem.dirty.marks == {} && mem.dirty.used == |mem.buckets| == INIT_BUCKETS
    ensures mem.hasher == hasher && mem.logMod == INIT_LOGMOD && mem.step == 0 && mem.index == map[]
    ensures mem.strays == mem.rehashed == {} && mem.view == seq(INIT_BUCKETS, i => [])
    ensures mem.fillTarget == Clamp(fillTarget) && mem.forget == 0
    ensures forall b :: 0 <= b < INIT_BUCKETS ==> mem.buckets[b] == EMPTY
  {
    hide DataFile.Valid, TableFile.Valid, Dirty.Valid, Flatten, Framed, Contains, Shaped, Spells;
    assert Settled(image.data).All() == image.data && Settled(image.link).All() == image.link;
    var log := new LogFile(Settled(image.log));
    var table := new TableFile(image.table);
    var data := new DataFile(Settled(image.data), refs);
    var link := new DataFile(Settled(image.link), links);
    mem := new MemTable(hasher, log, table, data, link, fillTarget);
  }

  const NO_FILES := Image([], [], [], [])

  /** A memtable over empty files, before its first batch. */
  method Prepare(hasher: Hasher, fillTarget: nat) returns (mem: MemTable)
    ensures fresh(mem) && fresh(mem.dirty) && fresh(mem.table) && fresh(mem.log)
    ensures fresh(mem.data) && fresh(mem.data.appender) && fresh(mem.link) && fresh(mem.link.appender)
    ensures mem.Opened() && mem.Now() == Rest(NO_FILES)
    ensures mem.Parameters() == FRESH && mem.Parameters().Sound() && mem.hasher == hasher && mem.forget == 0
    ensures mem.fillTarget == Clamp(fillTarget) && mem.strays == mem.rehashed == {}
    ensures mem.index == map[] && mem.data.contents == map[] && mem.data.appender.pos == mem.link.appender.pos == 0
    ensures Indexes(mem.view, mem.logMod, mem.step, mem.data.contents, mem.hasher, mem.index, {})
    ensures Total(mem.view) == 0
    ensures ListsSound(mem.lists, mem.data.contents, mem.hasher)
  {
    hide DataFile.Valid, TableFile.Valid, Dirty.Valid, MemTable.Opened, MemTable.Found, Recorded, Indexes, Remembers,
      Flatten, Framed, Contains, LoadedView, LoadedBuckets, ListsSound, Shaped, Params.Sound, Leads, Sealed, Guarded,
      Total;
    NothingFramed();
    mem := Assemble(NO_FILES, hasher, fillTarget, map[], map[]);
    var recovered, _ := mem.Recover(Commit([], [], []), mem.saved, 0);
    var loaded := mem.Load(map[]);
    EmptyIsOpened(mem);
  }

  /** A new store over empty files. */
  method Begin(f: (u64, u64, Bytes) -> u32, sip0: u64, sip1: u64, fillTarget: nat)
      returns (h: Hammersbald, ghost trace: seq<Disk>)
    ensures fresh(h.mem) && fresh(h.mem.dirty) && fresh(h.mem.table) && fresh(h.mem.log)
    ensures fresh(h.mem.data) && fresh(h.mem.data.appender) && fresh(h.mem.link) && fresh(h.mem.link.appender)
    ensures Leads(Rest(NO_FILES), trace, h.mem.Now())
    ensures |trace| > 0 && trace[0] == Rest(NO_FILES).Wrote(h.mem.base.table)
    ensures forall j :: 0 < j < |trace| ==> Sealed(trace[j], h.mem.base)
    ensures h.mem.base.table == SetHeader([], INIT_BUCKETS, 0, sip0, sip1) && h.mem.base.link == h.mem.base.data == []
    ensures h.Valid() && h.Abstract() == EMPTY_MODEL == Held(h.mem.base, h.mem.saved) && h.mem.link.appender.pos == 0
    ensures h.Tuned() == Setting(FRESH, 0, Hasher(f, sip0, sip1), Clamp(fillTarget), {}, {}) && h.Present().slots == 0
    ensures AsOpened(h.Present())
  {
    hide Hammersbald.Valid, DataFile.Valid, TableFile.Valid, Dirty.Valid, MemTable.Core, MemTable.Valid,
      MemTable.Opened, Recorded, Indexes, Remembers, Flatten, ListsSound, SetHeader, Shaped, Params.Sound, Leads,
      Sealed, Total;
    var mem := Prepare(Hasher(f, sip0, sip1), fillTarget);
    h := new Hammersbald(mem);
    var r;
    r, trace := mem.OpeningBatch();
    h.JustSaved();
  }

  /** Creating a store. A crash before it is ready leaves empty files or a store without any key. */
  method Create(f: (u64, u64, Bytes) -> u32, sip0: u64, sip1: u64, fillTarget: nat)
      returns (h: Hammersbald, ghost trace: seq<Disk>)
    ensures fresh(h.mem) && fresh(h.mem.dirty) && fresh(h.mem.table) && fresh(h.mem.log)
    ensures fresh(h.mem.data) && fresh(h.mem.data.appender) && fresh(h.mem.link) && fresh(h.mem.link.appender)
    ensures Leads(Rest(NO_FILES), trace, h.mem.Now())
    ensures forall i :: CrashDuring(Rest(NO_FILES), trace, i) ==> i == NO_FILES || Survives(i, h.mem.base, h.mem.saved)
    ensures h.Valid() && h.Abstract() == EMPTY_MODEL == Held(h.mem.base, h.mem.saved) && h.mem.link.appender.pos == 0
    ensures h.Tuned() == Setting(FRESH, 0, Hasher(f, sip0, sip1), Clamp(fillTarget), {}, {}) && h.Present().slots == 0
    ensures AsOpened(h.Present()) && h.mem.logMod == 8 && h.mem.step == 0 && |h.mem.buckets| == 512
    ensures h.mem.fillTarget == if fillTarget < 1 then 1 else if fillTarget > 128 then 128 else fillTarget
  {
    hide Hammersbald.Valid, SetHeader, Leads, Sealed, CrashDuring, Recoverable, Restores, Remembers, Protected, LogOf;
    h, trace := Begin(f, sip0, sip1, fillTarget);
    IdleIsRecoverable(h);
    FirstTable(sip0, sip1);
    forall i | CrashDuring(Rest(NO_FILES), trace, i) ensures i == NO_FILES || Survives(i, h.mem.base, h.mem.saved) {
      CrashDuringCreation(trace, h.mem.base, i);
    }
  }

  lemma FirstTable(sip0: u64, sip1: u64)
    ensures |SetHeader([], INIT_BUCKETS, 0, sip0, sip1)| == 1
  {
    hide WithHeader, PageSelf, InvalidPage;
    HeaderPageWritten([], INIT_BUCKETS, 0, sip0, sip1);
  }

  lemma CrashDuringCreation(trace: seq<Disk>, c: Commit, i: Image)
    requires |trace| > 0 && trace[0] == Rest(NO_FILES).Wrote(c.table) && |c.table| == 1 && c.link == c.data == []
    requires c.Sized() && (forall j :: 0 < j < |trace| ==> Sealed(trace[j], c)) && CrashDuring(Rest(NO_FILES), trace, i)
    ensures i == NO_FILES || (Recoverable(i, c) && Restores(i, c))
  {
    hide Restores, Recoverable, Shaped, HeaderFor, Mixes, LogHeader, QFile.Leaves;
    var j :| 0 <= j < |trace| && Interrupts(At(Rest(NO_FILES), trace, j), trace[j], i);
    var d, e := At(Rest(NO_FILES), trace, j), trace[j];
    if j > 1 {
      InterruptedSealed(d, e, c, i);
      var f :| Sealed(f, c) && Leaves(f, i);
      CrashIsRecoverable(f, c, i);
    } else if j == 1 && Leaves(e, i) {
      CrashIsRecoverable(e, c, i);
    } else {
      assert trace[0].Tables()[0] == [] && |trace[0].Tables()| == 2 && |Rest(NO_FILES).Tables()| == 1;
      if j == 1 { assert e.Tables()[0] == c.table; }
      FirstWrite(c, i);
    }
  }

  lemma FirstWrite(c: Commit, i: Image)
    requires Leaves(Rest(NO_FILES), i) || Leaves(Rest(NO_FILES).Wrote(c.table), i)
    requires c.Sized() && |c.table| == 1 && c.link == c.data == []
    ensures i == NO_FILES || (Recoverable(i, c) && Restores(i, c))
  {
    hide Shaped, HeaderFor, LogHeader, Guarded;
    assert Settled([]).All() == [];
    if i.table != [] { assert Supplies(Rest(NO_FILES).Wrote(c.table).Tables(), 0, i.table[0]); }
  }

  /** A memtable over empty files is ready for its first batch and stands for the empty map. */
  lemma EmptyIsOpened(mem: MemTable)
    requires mem.Found() && mem.OnDisk() == NO_FILES && mem.data.Valid() && mem.link.Valid()
    requires mem.dirty.Valid()
    requires mem.data.appender.stream == [] && mem.link.appender.stream == [] && mem.data.contents == map[]
    requires mem.link.contents == map[]
    requires mem.dirty.marks == {} && mem.dirty.used == |mem.buckets| == INIT_BUCKETS && mem.logMod == INIT_LOGMOD
    requires mem.step == 0
    requires mem.buckets == LoadedBuckets([], INIT_BUCKETS) && mem.lists == map[]
    requires mem.view == LoadedView([], map[], INIT_BUCKETS) && mem.index == map[]
    requires mem.strays == mem.rehashed == {}
    ensures mem.Opened() && Params(mem.logMod, mem.step, |mem.buckets|).Sound() && mem.data.appender.pos == 0
    ensures mem.link.appender.pos == 0
    ensures Indexes(mem.view, mem.logMod, mem.step, mem.data.contents, mem.hasher, mem.index, {})
    ensures Total(mem.view) == 0
    ensures ListsSound(mem.lists, mem.data.contents, mem.hasher)
  {
    hide DataFile.Valid, TableFile.Valid, Dirty.Valid, Recorded, Indexes, Views, AllKnown, MemTables.Stored, Proper,
      ListsSound, Shaped, LoadedView, LoadedBuckets, Spells;
    NothingFramed();
    Pow2Values();
    mem.data.Ends();
    mem.link.Ends();
    EmptyIsLoaded(INIT_BUCKETS, mem.log.logged, mem.log.sourceLen, mem.hasher);
  }

  /** With empty files every bucket is empty. */
  lemma EmptyIsLoaded(n: nat, logged: set<PRef>, sourceLen: nat, hasher: Hasher)
    ensures Proper(map[]) && MemTables.Stored(map[], map[]) && ListsSound(map[], map[], hasher)
    ensures |LoadedView([], map[], n)| == n && |LoadedBuckets([], n)| == n
    ensures Views(LoadedView([], map[], n), LoadedBuckets([], n), map[]) && AllKnown(LoadedBuckets([], n), map[])
    ensures Recorded(LoadedBuckets([], n), {}, [], map[], logged, sourceLen, {})
    ensures Indexes(LoadedView([], map[], n), INIT_LOGMOD, 0, map[], hasher, map[], {})
    ensures Total(LoadedView([], map[], n)) == 0
  {
    NoSlotsAtAll(LoadedView([], map[], n));
  }

  lemma {:induction false} NoSlotsAtAll(view: View)
    requires forall b :: 0 <= b < |view| ==> view[b] == []
    ensures Total(view) == 0
  {
    if view != [] { NoSlotsAtAll(view[..|view| - 1]); }
  }

  lemma NothingFramed()
    ensures Flatten([]) == [] && Framed([]) && Contains([], map[]) && Settled([]).All() == [] && Shaped([])
  {
    assert Payloads([]) && Concat([]) == [];
  }

  // ---------------------------------------------------------------- opening again

  /** Files from which opening gets back to `c`. */
  ghost predicate Recoverable(i: Image, c: Commit)
  {
    Guarded(Rest(i), c, 0) || (c.Sized() && i == Image([], c.table, c.link, c.data))
  }

  /** Whatever a crash leaves behind of a guarded or sealed state is recoverable. */
  lemma CrashIsRecoverable(d: Disk, c: Commit, i: Image)
    requires Leaves(d, i) && (Guarded(d, c, 0) || Sealed(d, c))
    ensures Recoverable(i, c) && Restores(i, c)
  {
    hide Shaped, HeaderFor, LogHeader, Replay;
    if Guarded(d, c, 0) {
      GuardedDescends(d, c, 0, i);
      GuardedRestores(d, c, i);
      assert Settled(i.log).All() == i.log;
    } else {
      SealedRestores(d, c, i);
      assert d.link.All() == c.link && d.data.All() == c.data;
      assert i.link == c.link && i.data == c.data;
      if i.log != [] { assert Settled(i.log).All() == i.log == [HeaderFor(c)]; }
    }
  }

  /** Opening a store up to and including recovery: the files are the committed ones again. */
  method Restore(image: Image, hasher: Hasher, fillTarget: nat, ghost c: Commit, ghost s: Saved)
      returns (mem: MemTable, ghost trace: seq<Disk>)
    requires Recoverable(image, c) && Remembers(c, s) && s.g.buckets < 0x1_0000_0000
    ensures fresh(mem) && fresh(mem.dirty) && fresh(mem.table) && fresh(mem.log)
    ensures fresh(mem.data) && fresh(mem.data.appender) && fresh(mem.link) && fresh(mem.link.appender)
    ensures Leads(Rest(image), trace, mem.Now()) && forall d :: d in trace ==> Guarded(d, c, 0) || Sealed(d, c)
    ensures mem.Found() && mem.table.Valid() && mem.data.Valid() && mem.link.Valid() && mem.dirty.Valid()
    ensures mem.table.file == c.table && mem.data.appender.file == Settled(c.data)
    ensures mem.link.appender.file == Settled(c.link)
    ensures mem.data.appender.stream == Flatten(c.data) && mem.link.appender.stream == Flatten(c.link)
    ensures mem.data.contents == s.refs && mem.link.contents == s.links && mem.hasher == hasher
    ensures mem.dirty.marks == {} && mem.dirty.used == |mem.buckets|
    ensures forall b :: 0 <= b < |mem.buckets| ==> mem.buckets[b] == EMPTY
    ensures mem.log.file.durable <= [HeaderFor(c)] && (Guarded(mem.Now(), c, 0) || Sealed(mem.Now(), c))
    ensures mem.fillTarget == Clamp(fillTarget) && mem.forget == 0 && mem.rehashed == {}
  {
    hide DataFile.Valid, TableFile.Valid, Dirty.Valid, MemTable.Found, Remembers, Recoverable, Flatten, Framed,
      Contains, Shaped, Guarded, Sealed, PageHeader, HeaderFor, ReloadedLogMod, Leads;
    BeforeOpening(image, c, s);
    mem := Assemble(image, hasher, fillTarget, s.refs, s.links);
    var recovered;
    recovered, trace := mem.Recover(c, s, 0);
  }

  /** Opening a store: recovery, loading and a first batch. It answers from the reloaded buckets; it is the store of
      the last batch again if `logMod` is restored and no stale cell is haunted. */
  method Open(image: Image, hasher: Hasher, fillTarget: nat, ghost c: Commit, ghost s: Saved)
      returns (h: Hammersbald, ghost trace: seq<Disk>)
    requires Recoverable(image, c) && Remembers(c, s) && hasher.f == s.hasher.f
    requires s.g.buckets < 0x1_0000_0000
    ensures fresh(h.mem) && fresh(h.mem.dirty) && fresh(h.mem.table) && fresh(h.mem.log)
    ensures fresh(h.mem.data) && fresh(h.mem.data.appender) && fresh(h.mem.link) && fresh(h.mem.link.appender)
    ensures Leads(Rest(image), trace, h.mem.Now()) && (Guarded(Rest(image), c, 0) || Sealed(Rest(image), c))
    ensures forall d :: d in trace ==> Guarded(d, c, 0) || Sealed(d, c)
    ensures h.mem.Readable() && h.mem.view == Reloaded(c, s) && h.mem.data.contents == s.refs
    ensures h.mem.hasher == s.hasher
    ensures h.mem.step == s.g.step && h.mem.logMod == ReloadedLogMod(s.g.buckets) && h.mem.base == c
    ensures Reopenable(c, s) ==>
      && h.Valid() && h.Abstract() == Held(c, s) == Held(c, h.mem.saved)
      && h.Tuned() == Resumed(c, s, fillTarget) && AsOpened(h.Present())
  {
    hide Hammersbald.Valid, DataFile.Valid, TableFile.Valid, Dirty.Valid, MemTable.Valid, MemTable.Found,
      MemTable.Readable, Remembers, Recoverable, Flatten, Framed, Contains, Shaped, Guarded, Sealed, NothingHaunted,
      PageHeader, HeaderFor, Pow2, ReloadedLogMod, Reloaded, Leads;
    BeforeOpening(image, c, s);
    var mem;
    mem, trace := Restore(image, hasher, fillTarget, c, s);
    h := new Hammersbald(mem);
    ghost var before := mem.Now();
    ghost var steps := Start(mem, c, s);
    LeadsOn(Rest(image), trace, before, steps, mem.Now());
    trace := trace + steps;
    if mem.Valid() { h.JustSaved(); }
  }

  /** Loading files that are the committed ones. */
  method Reload(mem: MemTable, ghost c: Commit, ghost s: Saved)
    requires mem.Found() && mem.table.Valid() && mem.table.file == c.table && mem.data.Valid() && mem.link.Valid()
    requires mem.dirty.Valid() && Remembers(c, s)
    requires mem.data.appender.file == Settled(c.data) && mem.link.appender.file == Settled(c.link)
    requires mem.data.appender.stream == Flatten(c.data) && mem.link.appender.stream == Flatten(c.link)
    requires mem.data.contents == s.refs && mem.link.contents == s.links && mem.hasher.f == s.hasher.f
    requires s.g.buckets < 0x1_0000_0000
    requires mem.dirty.marks == {} && mem.dirty.used == |mem.buckets|
    requires forall b :: 0 <= b < |mem.buckets| ==> mem.buckets[b] == EMPTY
    requires |c.table| > 0 && PageHeader(c.table[0]) == Header(s.g.buckets, s.g.step, s.hasher.sip0, s.hasher.sip1)
    requires ReloadedLogMod(s.g.buckets) >= 0 && mem.rehashed == {}
    modifies mem, mem.dirty
    ensures mem.Opened() && mem.Readable() && mem.data.appender.pos == PAGE_SIZE * |c.data|
    ensures mem.view == Reloaded(c, s) && mem.hasher == s.hasher && mem.lists == s.lists
    ensures mem.step == s.g.step && mem.logMod == ReloadedLogMod(s.g.buckets) && |mem.buckets| == s.g.buckets
    ensures mem.index == s.index && mem.strays == Unsettled(c, s) && mem.rehashed == {} && mem.forget == old(mem.forget)
    ensures SetHeader(c.table, |mem.buckets|, mem.step, mem.hasher.sip0, mem.hasher.sip1) == c.table
    ensures ListsSound(mem.lists, mem.data.contents, mem.hasher)
    ensures Reopenable(c, s) ==>
      mem.logMod == s.g.logMod && Params(mem.logMod, mem.step, |mem.buckets|).Sound()
        && Indexes(mem.view, mem.logMod, mem.step, mem.data.contents, mem.hasher, mem.index, mem.strays)
  {
    hide DataFile.Valid, TableFile.Valid, Dirty.Valid, MemTable.Opened, MemTable.Found, MemTable.Readable, Recorded,
      Indexes, Remembers, Flatten, LoadedView, LoadedBuckets, ListsSound, SetHeader, Shaped, Params.Sound, Reopenable,
      PageHeader, Pow2, ReloadedLogMod, AllSound, Unsettled;
    var loaded := mem.Load(s.lists);
    mem.index, mem.strays := s.index, Unsettled(c, s);
    ReopenedIsOpened(mem, c, s);
  }

  /** Loading and the first batch, over files that are the committed ones. */
  method Start(mem: MemTable, ghost c: Commit, ghost s: Saved) returns (ghost trace: seq<Disk>)
    requires mem.Found() && mem.table.Valid() && mem.table.file == c.table && mem.data.Valid() && mem.link.Valid()
    requires mem.dirty.Valid() && Remembers(c, s)
    requires mem.data.appender.file == Settled(c.data) && mem.link.appender.file == Settled(c.link)
    requires mem.data.appender.stream == Flatten(c.data) && mem.link.appender.stream == Flatten(c.link)
    requires mem.data.contents == s.refs && mem.link.contents == s.links && mem.hasher.f == s.hasher.f
    requires s.g.buckets < 0x1_0000_0000
    requires mem.dirty.marks == {} && mem.dirty.used == |mem.buckets|
    requires forall b :: 0 <= b < |mem.buckets| ==> mem.buckets[b] == EMPTY
    requires mem.log.file.durable <= [HeaderFor(c)] && (Guarded(mem.Now(), c, 0) || Sealed(mem.Now(), c))
    requires |c.table| > 0 && PageHeader(c.table[0]) == Header(s.g.buckets, s.g.step, s.hasher.sip0, s.hasher.sip1)
    requires ReloadedLogMod(s.g.buckets) >= 0 && mem.rehashed == {}
    modifies mem, mem.dirty, mem.table, mem.log, mem.data, mem.data.appender, mem.link, mem.link.appender
    ensures Leads(old(mem.Now()), trace, mem.Now()) && forall d :: d in trace ==> Guarded(d, c, 0) || Sealed(d, c)
    ensures mem.Readable() && mem.view == Reloaded(c, s) && mem.data.contents == s.refs && mem.hasher == s.hasher
    ensures mem.step == s.g.step && mem.logMod == ReloadedLogMod(s.g.buckets) && mem.base == c
    ensures Reopenable(c, s) ==>
      mem.Valid() && mem.index == s.index && mem.data.appender.pos == PAGE_SIZE * |c.data| && mem.logMod == s.g.logMod
    ensures mem.strays == Unsettled(c, s) && mem.rehashed == {}
    ensures mem.forget == old(mem.forget) && |mem.buckets| == s.g.buckets
    ensures mem.saved.g == mem.Parameters() && mem.saved.hasher == mem.hasher && mem.saved.index == s.index
    ensures mem.saved.refs == s.refs && mem.saved.strays == mem.strays && mem.saved.rehashed == {}
  {
    hide DataFile.Valid, TableFile.Valid, Dirty.Valid, MemTable.Core, MemTable.Opened, MemTable.Found, MemTable.Files,
      MemTable.Linked, Recorded, Indexes, Remembers, Flatten, ListsSound, SetHeader, Shaped, Reloaded, Params.Sound,
      Sealed, Reopenable, PageHeader, Pow2, ReloadedLogMod, AllSound, Leads, HeaderFor, Unsettled, Guarded;
    Reload(mem, c, s);
    var r;
    r, trace := mem.OpeningBatch();
    assert mem.base == c;
    RewrittenKeeps(old(mem.Now()), c);
  }

  /** Writing the table file once more, as it is. */
  lemma RewrittenKeeps(d: Disk, c: Commit)
    requires (Guarded(d, c, 0) || Sealed(d, c)) && d.table == c.table
    ensures var e := d.Wrote(c.table); Guarded(e, c, 0) || Sealed(e, c)
  {
    hide Protected, LogOf;
  }

  lemma BeforeOpening(image: Image, c: Commit, s: Saved)
    requires Recoverable(image, c) && Remembers(c, s) && s.g.buckets < 0x1_0000_0000
    ensures Shaped(image.table) && WellStored(c.data, s.refs) && WellStored(c.link, s.links)
    ensures |image.log| > 0 ==> Guarded(Rest(image), c, 0)
    ensures |image.log| == 0 ==> Sealed(Rest(image), c)
    ensures |image.log| == 0 ==> image.table == c.table && image.link == c.link && image.data == c.data
    ensures |c.table| > 0 && PageHeader(c.table[0]) == Header(s.g.buckets, s.g.step, s.hasher.sip0, s.hasher.sip1)
    ensures ReloadedLogMod(s.g.buckets) >= 0 && s.g.buckets % 0x1_0000_0000 == s.g.buckets
  {
    hide Shaped, Recorded, Indexes, Views, AllKnown, Proper, MemTables.Stored, ListsSound, PageHeader, WellStored,
      Protected, LogOf, ReloadedLogMod;
    ReloadExact(s.g);
    if s.g.step + s.g.logMod - INIT_LOGMOD >= Pow2(s.g.logMod + 1) { ReloadOffByOne(s.g); }
    if |image.log| == 0 && Guarded(Rest(image), c, 0) { assert false; }
    if Guarded(Rest(image), c, 0) { GuardedIsShaped(Rest(image), c); }
  }

  lemma GuardedIsShaped(d: Disk, c: Commit)
    requires Guarded(d, c, 0)
    ensures Shaped(d.table)
  {
  }

  /** A memtable over the committed files, loaded, is ready for its first batch. */
  lemma ReopenedIsOpened(mem: MemTable, c: Commit, s: Saved)
    requires mem.Found() && mem.table.file == c.table && mem.data.Valid() && mem.link.Valid() && mem.dirty.Valid()
    requires Remembers(c, s)
    requires mem.data.appender.file == Settled(c.data) && mem.link.appender.file == Settled(c.link)
    requires mem.data.appender.stream == Flatten(c.data) && mem.link.appender.stream == Flatten(c.link)
    requires mem.data.contents == s.refs && mem.link.contents == s.links && mem.hasher == s.hasher
    requires mem.step == s.g.step && mem.index == s.index && mem.strays == Unsettled(c, s) && mem.rehashed == {}
    requires mem.dirty.marks == {} && mem.dirty.used == |mem.buckets| == s.g.buckets
    requires mem.logMod == ReloadedLogMod(s.g.buckets)
    requires mem.buckets == LoadedBuckets(c.table, s.g.buckets) && mem.lists == s.lists && mem.view == Reloaded(c, s)
    ensures mem.Opened() && mem.Readable() && mem.data.appender.pos == PAGE_SIZE * |c.data|
    ensures SetHeader(c.table, |mem.buckets|, mem.step, mem.hasher.sip0, mem.hasher.sip1) == c.table
    ensures ListsSound(mem.lists, mem.data.contents, mem.hasher)
    ensures Reopenable(c, s) ==>
      mem.logMod == s.g.logMod && Params(mem.logMod, mem.step, |mem.buckets|).Sound()
        && Indexes(mem.view, mem.logMod, mem.step, mem.data.contents, mem.hasher, mem.index, mem.strays)
  {
    hide DataFile.Valid, Dirty.Valid, Recorded, Indexes, Views, AllKnown, MemTables.Stored, Proper, ListsSound, Spells,
      Flatten, Shaped, PageHeader, SetHeader, CellPage, AllSound, ReloadedLogMod, LoadedBuckets, Reloaded;
    SizesInReach(s.g);
    ReloadExact(s.g);
    LoadedIsRecorded(c, s, mem.log.logged, mem.log.sourceLen);
    SameTable(c, s);
    mem.data.Ends();
    if NothingHaunted(c, s) { ReopenIndexesExactly(c, s, Unsettled(c, s)); }
    forall b | 0 <= b < |mem.view|
      ensures AllSound(mem.view[b], mem.data.contents, mem.hasher) { ReloadedIsSound(c, s, b); }
  }

  lemma SameTable(c: Commit, s: Saved)
    requires Remembers(c, s) && Shaped(c.table)
    ensures SetHeader(c.table, s.g.buckets, s.g.step, s.hasher.sip0, s.hasher.sip1) == c.table
  {
    hide Recorded, Indexes, Views, AllKnown, Proper, MemTables.Stored, ListsSound, WellStored;
    SameHeader(c.table[0], s.g.buckets, s.g.step, s.hasher.sip0, s.hasher.sip1);
  }

  lemma LoadedIsRecorded(c: Commit, s: Saved, logged: set<PRef>, sourceLen: nat)
    requires Remembers(c, s)
    ensures |Reloaded(c, s)| == s.g.buckets
    ensures Views(Reloaded(c, s), LoadedBuckets(c.table, s.g.buckets), s.lists)
    ensures AllKnown(LoadedBuckets(c.table, s.g.buckets), s.lists)
    ensures Recorded(LoadedBuckets(c.table, s.g.buckets), {}, c.table, s.lists, logged, sourceLen, {})
  {
    hide Cell, Indexes, ListsSound, MemTables.Stored, WellStored, PageHeader, Covered;
    var loaded := LoadedBuckets(c.table, s.g.buckets);
    forall b | 0 <= b < |loaded|
      ensures Known(Cell(c.table, b), s.lists)
      ensures BucketOK(loaded[b], b in {}, Cell(c.table, b), s.lists, Covered(b, logged, sourceLen), false)
    {
      assert BucketOK(s.buckets[b], b in {}, Cell(c.table, b), s.lists, Covered(b, {}, 0), b in s.rehashed);
    }
  }

  /** `logMod` is restored and no stale cell is haunted. */
  ghost predicate Reopenable(c: Commit, s: Saved)
  {
    s.g.step + s.g.logMod - INIT_LOGMOD < Pow2(s.g.logMod + 1) && NothingHaunted(c, s)
  }

  /** The buckets that may hold strays once the files are opened again. */
  ghost function Unsettled(c: Commit, s: Saved): set<nat>
  {
    s.strays + set b | 0 <= b < |s.buckets| && Stale(c, s, b)
  }

  // ---------------------------------------------------------------- crashes

  lemma IdleIsRecoverable(h: Hammersbald)
    requires h.Valid()
    ensures Guarded(h.mem.Now(), h.mem.base, 0) && Remembers(h.mem.base, h.mem.saved)
  {
    hide Indexes, ListsSound, Remembers, Recorded, MemTable.Linked, MemTable.Ledgered, LogFile.Follows, Guarded,
      Params.Sound, MemTable.Files;
    IdleIsGuarded(h.mem.log, h.mem.Now(), h.mem.base, 0);
  }

  /** A crash while an operation other than a batch lets the files grow, or right after it, recovers the last batch. */
  lemma CrashWithinOperation(before: Disk, h: Hammersbald, i: Image)
    requires h.Valid() && Guarded(before, h.mem.base, 0) && Interrupts(before, h.mem.Now(), i)
    ensures Survives(i, h.mem.base, h.mem.saved)
  {
    hide Hammersbald.Valid, Remembers, Guarded, Restores, Recoverable;
    IdleIsRecoverable(h);
    CrashIn(before, h.mem.Now(), h.mem.base, i);
  }

  lemma CrashIn(before: Disk, after: Disk, c: Commit, i: Image)
    requires Guarded(before, c, 0) && Guarded(after, c, 0) && Interrupts(before, after, i)
    ensures Recoverable(i, c) && Restores(i, c)
  {
    hide Guarded, Restores, Recoverable, Interrupts, Leaves;
    InterruptedGuarded(before, after, c, i);
    var d :| Guarded(d, c, 0) && Leaves(d, i);
    CrashIsRecoverable(d, c, i);
  }

  /** A batch is atomic. Whichever of its steps a crash interrupts, and whatever is left of the files, opening gets
      back to the last batch before step `cut`, to the new one after it, and at `cut` to one of the two. */
  lemma CrashDuringBatch(before: Disk, trace: seq<Disk>, cut: nat, c: Commit, c': Commit, j: nat, i: Image)
    requires Guarded(before, c, 0) && cut <= |trace| && forall k :: 0 <= k < cut ==> Guarded(trace[k], c, 0)
    requires cut < |trace| ==> trace[cut].log == Settled([]) && forall k :: cut <= k < |trace| ==> Sealed(trace[k], c')
    requires j < |trace| && Interrupts(At(before, trace, j), trace[j], i)
    ensures j < cut ==> Recoverable(i, c) && Restores(i, c)
    ensures j > cut ==> Recoverable(i, c') && Restores(i, c')
    ensures (Recoverable(i, c) && Restores(i, c)) || (Recoverable(i, c') && Restores(i, c'))
  {
    hide Guarded, Sealed, Restores, Recoverable, Interrupts, Leaves;
    var d, e := At(before, trace, j), trace[j];
    if j < cut {
      CrashIn(d, e, c, i);
    } else if j > cut {
      InterruptedSealed(d, e, c', i);
      var f :| Sealed(f, c') && Leaves(f, i);
      CrashIsRecoverable(f, c', i);
    } else {
      InterruptedSwitch(d, e, c, c', i);
      if Leaves(d, i) { CrashIsRecoverable(d, c, i); } else { CrashIsRecoverable(e, c', i); }
    }
  }

  /** Opening is atomic as well: a crash during recovery, loading or the first batch recovers to the same files. */
  lemma CrashDuringOpening(before: Disk, trace: seq<Disk>, c: Commit, j: nat, i: Image)
    requires Leads(before, trace, At(before, trace, |trace|)) && (Guarded(before, c, 0) || Sealed(before, c))
    requires forall d :: d in trace ==> Guarded(d, c, 0) || Sealed(d, c)
    requires j < |trace| && Interrupts(At(before, trace, j), trace[j], i)
    ensures Recoverable(i, c) && Restores(i, c)
  {
    hide Restores, Recoverable, Guarded, Sealed, Leaves, Interrupts, Step;
    var d, e := At(before, trace, j), At(before, trace, j + 1);
    InterruptedEither(d, e, c, i);
    var f :| (Guarded(f, c, 0) || Sealed(f, c)) && Leaves(f, i);
    CrashIsRecoverable(f, c, i);
  }

  /** A crash between `before` and the first state, or between two states. */
  ghost predicate CrashDuring(before: Disk, steps: seq<Disk>, i: Image)
  {
    exists j :: 0 <= j < |steps| && Interrupts(At(before, steps, j), steps[j], i)
  }

  /** Whatever a crash leaves, opening gets back to `c`, or to `c'` if the operation is a batch that succeeds. */
  ghost predicate OpSafe(before: Disk, steps: seq<Disk>, c: Commit, s: Saved, ok: bool, c': Commit, s': Saved)
  {
    forall i :: CrashDuring(before, steps, i) ==> Survives(i, c, s) || (ok && Survives(i, c', s'))
  }

  /** A crash may leave files that recover neither to `c` nor to `c'`. */
  ghost predicate Tears(before: Disk, steps: seq<Disk>, c: Commit, ok: bool, c': Commit)
  {
    exists i :: CrashDuring(before, steps, i) && !Restores(i, c) && (ok ==> !Restores(i, c'))
  }

  lemma SafeAtEveryStep(before: Disk, steps: seq<Disk>, cut: nat, c: Commit, s: Saved, ok: bool, c': Commit, s': Saved)
    requires CrashSafe(before, steps, cut, c, s, ok, c', s')
    ensures OpSafe(before, steps, c, s, ok, c', s')
  {
    hide Interrupts, Survives;
  }

  lemma TornAtSomeStep(before: Disk, steps: seq<Disk>, cut: nat, c: Commit, ok: bool, c': Commit)
    requires cut <= |steps| && Torn(steps, cut, c, ok, c')
    ensures Tears(before, steps, c, ok, c') && (!ok ==> Tears(before, steps, c, false, c))
  {
    hide Restores, Leaves;
    var j, i :| 0 <= j < cut && Leaves(steps[j], i) && !Restores(i, c) && (ok ==> !Restores(i, c'));
    assert Interrupts(At(before, steps, j), steps[j], i);
  }

  lemma LeadsEnd(d: Disk, steps: seq<Disk>, e: Disk)
    requires Leads(d, steps, e)
    ensures At(d, steps, |steps|) == e && (steps != [] ==> steps[|steps| - 1] == e)
  {
  }

  // ---------------------------------------------------------------- one operation

  /** How much a store has to write out, and where. */
  datatype Extent = Extent(buckets: nat, slots: nat, link: nat)

  function ExtentOf(a: Moment): Extent { Extent(a.setting.g.buckets, a.slots, PAGE_SIZE * |a.commit.link|) }

  /** What one batch may add to the link file. */
  function BatchCost(e: Extent): nat { 4 * e.buckets + 10 * e.slots + PAGE_SIZE + 7 }

  /** Enough room for a batch: in the link file for all slots, in the data file for the padding. */
  predicate HasRoom(e: Extent, end: nat)
  {
    e.slots <= LONGEST_LIST && e.link + BatchCost(e) < INVALID && Padded(end) < INVALID
  }

  /** Operations at which a debug build may stop: the data file is full, a length does not fit its field, a reference
      was never handed out, or a batch finds no room. */
  predicate MayStop(m: Model, op: Op, room: bool)
  {
    match op
    case PutKeyed(key, data) => Accepted(key, data) && !Fits(m, Indexed(key, data))
    case Put(data) => !Fits(m, Referred(data))
    case Get(p) => p !in m.refs
    case Batch => !room
    case GetKeyed(_) => false
    case MayHave(_) => false
    case Forget(_) => false
  }

  /** The first page was logged, or is new, or a batch would keep its header. */
  ghost predicate SafeHeader(a: Moment)
  {
    || Logged(a.disk.log.All(), 0) || |a.commit.table| == 0
    || PageHeader(a.commit.table[0])
       == Header(a.setting.g.buckets, a.setting.g.step, a.setting.hasher.sip0, a.setting.hasher.sip1)
  }

  /** As long as the table has not grown since the last batch, the header is safe. */
  lemma UngrownIsSafe(a: Moment)
    requires Remembers(a.commit, a.saved) && a.setting.g == a.saved.g && a.setting.hasher == a.saved.hasher
    ensures SafeHeader(a)
  {
    hide Recorded, Indexes, Views, AllKnown, Proper, MemTables.Stored, ListsSound, WellStored, PageHeader, Logged;
  }

  /** A batch leads from `a` to `b`. If the header is safe, a crash at any of its steps leaves files from which opening
      gets back to the last batch or to this one; otherwise there is one that leaves neither. */
  ghost predicate BatchLived(a: Moment, steps: seq<Disk>, b: Moment)
  {
    && Leads(a.disk, steps, b.disk) && Sealed(b.disk, b.commit) && b.saved.g == a.setting.g
    && b.saved.strays == a.setting.strays && b.saved.rehashed == a.setting.rehashed
    && PAGE_SIZE * |b.commit.link| < PAGE_SIZE * |a.commit.link| + BatchCost(ExtentOf(a))
    && (if SafeHeader(a) then OpSafe(a.disk, steps, a.commit, a.saved, true, b.commit, b.saved)
        else Tears(a.disk, steps, a.commit, true, b.commit))
  }

  /** One operation leads from `a` to `b`. Other than a batch it is seen as one step, and whatever a crash leaves,
      opening gets back to the last batch. */
  ghost predicate Lived(op: Op, m: Model, a: Moment, steps: seq<Disk>, b: Moment)
  {
    && b.setting == Tune(a.setting, m, op) && b.slots <= a.slots + Added(op)
    && (op.Batch? ==> BatchLived(a, steps, b))
    && (!op.Batch? ==> steps == [b.disk] && b.commit == a.commit && b.saved == a.saved)
    && (!op.Batch? ==> OpSafe(a.disk, steps, a.commit, a.saved, false, a.commit, a.saved))
  }

  /** An operation that panics while files grow or a batch is written. A crash gets back to the last batch, except
      during a batch whose header is not safe. */
  ghost predicate Stopped(op: Op, a: Moment, steps: seq<Disk>)
  {
    && Leads(a.disk, steps, At(a.disk, steps, |steps|)) && (!op.Batch? ==> |steps| == 1)
    && (if op.Batch? && !SafeHeader(a) then Tears(a.disk, steps, a.commit, false, a.commit)
        else OpSafe(a.disk, steps, a.commit, a.saved, false, a.commit, a.saved))
  }

  lemma HeaderSafeSeen(h: Hammersbald)
    requires h.Valid()
    ensures h.mem.HeaderSafe() <==> SafeHeader(h.Present())
  {
    hide Indexes, ListsSound, Remembers, Recorded, MemTable.Linked, MemTable.Ledgered, Params.Sound, MemTable.Files,
      PageHeader, HeaderFor, PreImage;
  }

  /** The link file ends where the last batch left it. */
  lemma LinkEndsAtBatch(h: Hammersbald)
    requires h.Valid()
    ensures h.mem.link.appender.pos == PAGE_SIZE * |h.mem.base.link|
  {
    hide Indexes, ListsSound, Remembers, MemTable.Linked, MemTable.Ledgered, LogFile.Follows, Params.Sound,
      DataFiles.Filed, Flatten;
  }

  /** With room for so many slots a batch succeeds. */
  lemma RoomForAll(h: Hammersbald)
    requires h.Valid()
    ensures var e := ExtentOf(h.Present());
      && Cost(h.mem.view) + PAGE_SIZE + 7 <= BatchCost(e)
      && (HasRoom(e, h.Abstract().end) ==> h.mem.BatchFits(h.mem.link.appender.pos, h.mem.data.appender.pos))
  {
    hide Indexes, MemTable.Core, ListsSound, Remembers, Params.Sound, Padded, Total;
    var view := h.mem.view;
    forall b | 0 <= b < |view| ensures |view[b]| <= Total(view) { TotalOfPrefix(view, b); }
    LinkEndsAtBatch(h);
  }

  /** The slots an operation may add. */
  function Added(op: Op): nat { if op.PutKeyed? && Accepted(op.key, op.data) then 1 else 0 }

  /** An operation that only reads. */
  method Look(h: Hammersbald, op: Op) returns (out: Out)
    requires h.Valid() && (op.GetKeyed? || op.MayHave? || op.Get?)
    modifies h.mem`buckets
    ensures h.Valid() && h.Abstract() == old(h.Abstract()) && h.Tuned() == old(h.Tuned())
    ensures out == Failed(Panic) ==> op.Get? && op.pref !in h.Abstract().refs
    ensures out != Failed(Panic) ==> Correct(h.Abstract(), h.mem.hasher, op, out)
  {
    hide Hammersbald.Valid, Expected, EnvelopeIn, Deserialize, Flatten;
    match op
    case GetKeyed(key) =>
      var r := h.GetKeyed(key);
      out := if r.Ok? then Found(r.value) else Failed(Corrupted);
    case MayHave(key) =>
      var r := h.MayHaveKey(key);
      out := if r.Ok? then Perhaps(r.value) else Failed(Corrupted);
    case Get(pref) =>
      var r := h.Get(pref);
      out := if r.Ok? then Content(r.value.0, r.value.1) else Failed(r.error);
  }

  /** Any operation other than a batch. */
  method Quick(h: Hammersbald, op: Op) returns (out: Out)
    requires h.Valid() && !op.Batch? && !Strands(h.Tuned(), op)
    modifies h.mem, h.mem.dirty, h.mem.log, h.mem.data, h.mem.data.appender
    ensures out == Failed(Panic) ==> MayStop(old(h.Abstract()), op, true)
    ensures out != Failed(Panic) ==> h.Valid() && h.Abstract() == Next(old(h.Abstract()), op)
    ensures out != Failed(Panic) ==> Correct(old(h.Abstract()), old(h.mem.hasher), op, out)
    ensures out != Failed(Panic) ==> h.Tuned() == Tune(old(h.Tuned()), old(h.Abstract()), op)
    ensures out != Failed(Panic) ==> Total(h.mem.view) <= old(Total(h.mem.view)) + Added(op)
    ensures h.mem.base == old(h.mem.base) && h.mem.saved == old(h.mem.saved)
    ensures out == Failed(Panic) ==>
      h.mem.Now() == old(h.mem.Now()).(data := h.mem.data.appender.file)
        && Grows(old(h.mem.Now()).data, h.mem.Now().data)
  {
    hide Hammersbald.Valid, Fits, Padded, Remove, Expected, Remembers, Grows, Accepted, PutEffect, WillGrow, Derails,
      Total, StraysStay, StraysMove, MemTable.Readable, SharesHash;
    QueueGrows(h.mem.data.appender.file, h.mem.data.appender.file);
    match op
    case PutKeyed(key, data) =>
      var r := h.PutKeyed(key, data);
      out := if r.Ok? then Reference(r.value) else Failed(r.error);
    case Put(data) =>
      var r := h.Put(data);
      out := if r.Ok? then Reference(r.value) else Failed(r.error);
    case Forget(key) =>
      var r := h.Forget(key);
      out := if r.Ok? then Done else Failed(Corrupted);
    case GetKeyed(_) => out := Look(h, op);
    case MayHave(_) => out := Look(h, op);
    case Get(_) => out := Look(h, op);
  }

  /** A batch as an operation. */
  method ApplyBatch(h: Hammersbald) returns (out: Out, ghost steps: seq<Disk>)
    requires h.Valid()
    modifies h.mem, h.mem.dirty, h.mem.table, h.mem.log
    modifies h.mem.data, h.mem.data.appender, h.mem.link, h.mem.link.appender
    ensures out == Done || out == Failed(Panic)
    ensures out == Failed(Panic) ==>
      && !HasRoom(old(ExtentOf(h.Present())), old(h.Abstract()).end)
      && Stopped(Op.Batch, old(h.Present()), steps)
    ensures out == Done ==>
      && h.Valid() && h.Abstract() == Next(old(h.Abstract()), Op.Batch) == Held(h.mem.base, h.mem.saved)
      && h.Tuned() == old(h.Tuned()) && BatchLived(old(h.Present()), steps, h.Present())
      && h.Present().slots == old(h.Present()).slots
  {
    hide Hammersbald.Valid, Next, Leads, CrashSafe, OpSafe, Tears, Torn, Remembers, MemTable.HeaderSafe, SafeHeader,
      MemTable.BatchFits, Cost, Skipped, Sealed, HasRoom, BatchCost;
    HeaderSafeSeen(h);
    LinkEndsAtBatch(h);
    RoomForAll(h);
    var r;
    ghost var cut;
    r, steps, cut := h.Batch();
    out := if r.Ok? then Done else Failed(Panic);
    if r.Ok? { LinkEndsAtBatch(h); }
    LeadsEnd(old(h.mem.Now()), steps, h.mem.Now());
    if old(h.mem.HeaderSafe()) {
      SafeAtEveryStep(old(h.mem.Now()), steps, cut, old(h.mem.base), old(h.mem.saved), r.Ok?, h.mem.base, h.mem.saved);
      if r.Err? {
        SafeAnyway(old(h.mem.Now()), steps, old(h.mem.base), old(h.mem.saved), h.mem.base, h.mem.saved);
      }
    } else {
      TornAtSomeStep(old(h.mem.Now()), steps, cut, old(h.mem.base), r.Ok?, h.mem.base);
    }
  }

  lemma SafeAnyway(before: Disk, steps: seq<Disk>, c: Commit, s: Saved, c': Commit, s': Saved)
    requires OpSafe(before, steps, c, s, false, c', s')
    ensures OpSafe(before, steps, c, s, false, c, s)
  {
    hide CrashDuring, Survives;
  }

  /** An operation that panics while the data file grows. */
  lemma PanicIsSafe(before: Disk, after: Disk, c: Commit, s: Saved)
    requires Guarded(before, c, 0) && Remembers(c, s) && after == before.(data := after.data)
    requires Grows(before.data, after.data)
    ensures OpSafe(before, [after], c, s, false, c, s) && Leads(before, [after], after)
  {
    hide Guarded, Interrupts, Recoverable, Restores, Remembers;
    StreamsGrowGuarded(before, c, 0, after.link, after.data);
    DataGrows(before, after.data);
    LeadsOne(before, after);
    var steps := [after];
    forall i | CrashDuring(before, steps, i) ensures Survives(i, c, s) {
      CrashIn(before, after, c, i);
    }
  }

  lemma GrowthIsSafe(before: Disk, h: Hammersbald)
    requires h.Valid() && Guarded(before, h.mem.base, 0)
    ensures OpSafe(before, [h.mem.Now()], h.mem.base, h.mem.saved, false, h.mem.base, h.mem.saved)
  {
    hide Hammersbald.Valid, Guarded, Survives, Interrupts;
    var steps := [h.mem.Now()];
    forall i | CrashDuring(before, steps, i) ensures Survives(i, h.mem.base, h.mem.saved) {
      CrashWithinOperation(before, h, i);
    }
  }

  /** One operation. `steps` lists the files after each of its steps; other than a batch it is seen as one. */
  method Apply(h: Hammersbald, op: Op) returns (out: Out, ghost steps: seq<Disk>)
    requires h.Valid() && !Strands(h.Tuned(), op)
    modifies h.mem, h.mem.dirty, h.mem.table, h.mem.log
    modifies h.mem.data, h.mem.data.appender, h.mem.link, h.mem.link.appender
    ensures out == Failed(Panic) ==>
      && MayStop(old(h.Abstract()), op, HasRoom(old(ExtentOf(h.Present())), old(h.Abstract()).end))
      && Stopped(op, old(h.Present()), steps)
    ensures out != Failed(Panic) ==>
      && h.Valid() && h.Abstract() == Next(old(h.Abstract()), op)
      && Correct(old(h.Abstract()), old(h.mem.hasher), op, out)
      && Lived(op, old(h.Abstract()), old(h.Present()), steps, h.Present())
      && (op.Batch? ==> h.Abstract() == Held(h.mem.base, h.mem.saved))
  {
    hide Hammersbald.Valid, Next, OpSafe, Tears, SafeHeader, Guarded, Remembers, Grows, HasRoom, BatchCost, Leads,
      Sealed, Tune, BatchLived, Strands, Total;
    IdleIsRecoverable(h);
    if op.Batch? {
      out, steps := ApplyBatch(h);
      if out != Failed(Panic) { BatchTunes(h.Tuned(), old(h.Abstract())); }
    } else {
      out := Quick(h, op);
      steps := [h.mem.Now()];
      if out == Failed(Panic) {
        PanicIsSafe(old(h.mem.Now()), h.mem.Now(), h.mem.base, h.mem.saved);
      } else {
        GrowthIsSafe(old(h.mem.Now()), h);
      }
    }
  }

  lemma BatchTunes(t: Setting, m: Model)
    ensures Tune(t, m, Op.Batch) == t
  {
  }

  // ---------------------------------------------------------------- sessions

  /** What happened between opening a store and closing it: it began with the model `m`; `life[n]` is the store before
      operation `n`, and `work[n]` lists the files after each step of that operation. */
  datatype Record = Record(m: Model, ops: seq<Op>, outs: seq<Out>, life: seq<Moment>, work: seq<seq<Disk>>) {
    function Before(n: nat): Model
      requires n <= |ops|
    {
      From(m, ops[..n])
    }
    function Hash(): Hasher
      requires life != []
    {
      life[0].setting.hasher
    }
  }

  /** How many operations the last batch covers. */
  function Batched(ops: seq<Op>): (n: nat)
    ensures n <= |ops|
  {
    if ops == [] then 0 else if ops[|ops| - 1].Batch? then |ops| else Batched(ops[..|ops| - 1])
  }

  /** Between two operations the files are guarded, and the last batch holds the keys and data of the operations it
      covers. */
  ghost predicate Kept(a: Moment, m: Model, ops: seq<Op>)
  {
    && Guarded(a.disk, a.commit, 0) && Remembers(a.commit, a.saved) && a.saved.hasher == a.setting.hasher
    && Held(a.commit, a.saved) == From(m, ops[..Batched(ops)])
  }

  /** Each operation is answered like a plain map and is `Lived`. */
  ghost predicate Served(r: Record)
  {
    && |r.outs| <= |r.ops| && |r.outs| <= |r.work| && |r.life| == |r.outs| + 1
    && (forall n :: 0 <= n < |r.outs| ==>
      && Correct(r.Before(n), r.Hash(), r.ops[n], r.outs[n])
      && Lived(r.ops[n], r.Before(n), r.life[n], r.work[n], r.life[n + 1]))
    && (forall n :: 0 <= n < |r.life| ==> Kept(r.life[n], r.m, r.ops[..n]))
  }

  /** All operations were made, or all before one that `MayStop`. */
  ghost predicate Ended(r: Record)
    requires Served(r)
  {
    var n := |r.outs|;
    if n == |r.ops| then |r.work| == n
    else
      && |r.work| == n + 1 && Stopped(r.ops[n], r.life[n], r.work[n])
      && MayStop(r.Before(n), r.ops[n], HasRoom(ExtentOf(r.life[n]), r.Before(n).end))
  }

  ghost predicate Session(r: Record) { Served(r) && Ended(r) }

  lemma ServedNothing(m: Model, ops: seq<Op>, a: Moment)
    requires Kept(a, m, [])
    ensures Served(Record(m, ops, [], [a], [])) && From(m, ops[..0]) == m
  {
    hide Kept;
    assert ops[..0] == [];
  }

  lemma ServedPush(r: Record, out: Out, steps: seq<Disk>, b: Moment)
    requires Served(r) && |r.outs| < |r.ops| && |r.work| == |r.outs|
    requires var n := |r.outs|;
      && Correct(r.Before(n), r.Hash(), r.ops[n], out) && Lived(r.ops[n], r.Before(n), r.life[n], steps, b)
      && Kept(b, r.m, r.ops[..n + 1])
    ensures Served(r.(outs := r.outs + [out], life := r.life + [b], work := r.work + [steps]))
  {
    hide Correct, Lived, Kept, From;
  }

  lemma ServedUntil(r: Record, steps: seq<Disk>)
    requires Served(r) && |r.outs| < |r.ops| && |r.work| == |r.outs|
    requires var n := |r.outs|;
      && Stopped(r.ops[n], r.life[n], steps)
      && MayStop(r.Before(n), r.ops[n], HasRoom(ExtentOf(r.life[n]), r.Before(n).end))
    ensures Session(r.(work := r.work + [steps]))
  {
    hide Correct, Lived, Kept, From, MayStop, Stopped, HasRoom;
  }

  lemma ServedToTheEnd(r: Record)
    requires Served(r) && |r.outs| == |r.work| == |r.ops|
    ensures Session(r)
  {
    hide Correct, Lived, Kept, From;
  }

  /** The last batch goes on holding what it held, and a new one holds everything. */
  lemma KeptOn(r: Record, h: Hammersbald, steps: seq<Disk>)
    requires Served(r) && |r.outs| < |r.ops| && |r.life| == |r.outs| + 1 && h.Valid()
    requires var n := |r.outs|;
      && Lived(r.ops[n], r.Before(n), r.life[n], steps, h.Present())
      && h.Abstract() == Next(r.Before(n), r.ops[n])
      && (r.ops[n].Batch? ==> h.Abstract() == Held(h.mem.base, h.mem.saved))
    ensures Kept(h.Present(), r.m, r.ops[..|r.outs| + 1]) && h.Abstract() == r.Before(|r.outs| + 1)
  {
    hide Guarded, Remembers, Next, Lived, Hammersbald.Valid, Served;
    var n := |r.outs|;
    var ops := r.ops[..n + 1];
    ServedKept(r, n);
    LivedTunes(r.ops[n], r.Before(n), r.life[n], steps, h.Present());
    assert ops[..n] == r.ops[..n] && ops[n] == r.ops[n] && ops[..n + 1] == ops;
    assert !r.ops[n].Batch? ==> ops[..Batched(ops)] == r.ops[..n][..Batched(r.ops[..n])];
    NowKept(h, r.m, ops);
  }

  /** Whatever the store held at its beginning, a sequence of operations makes a session. */
  method Serve(h: Hammersbald, ghost m: Model, ops: seq<Op>) returns (outs: seq<Out>, ghost r: Record)
    requires h.Valid() && h.Abstract() == m == Held(h.mem.base, h.mem.saved) && Steady(h.Tuned(), m, ops)
    modifies h.mem, h.mem.dirty, h.mem.table, h.mem.log
    modifies h.mem.data, h.mem.data.appender, h.mem.link, h.mem.link.appender
    ensures Session(r) && r.m == m && r.ops == ops && r.outs == outs && r.life[0] == old(h.Present())
  {
    hide Hammersbald.Valid, MayStop, Correct, Lived, Stopped, Served, Kept, Ended, Next, HasRoom, Tune, Strands, From;
    outs := [];
    ghost var t := h.Tuned();
    r := Record(m, ops, [], [h.Present()], []);
    FromNothing(m);
    NowKept(h, m, []);
    ServedNothing(m, ops, h.Present());
    for n := 0 to |ops|
      invariant r.m == m && r.ops == ops && r.outs == outs && |outs| == |r.work| == n && |r.life| == n + 1 && Served(r)
      invariant h.Valid() && h.Abstract() == r.Before(n) && h.Tuned() == SetAfter(t, m, ops[..n])
      invariant r.life[0] == old(h.Present()) && r.life[n] == h.Present()
    {
      ghost var steps;
      var out;
      SameHasher(r, n);
      out, steps := Apply(h, ops[n]);
      if out == Failed(Panic) {
        ServedUntil(r, steps);
        r := r.(work := r.work + [steps]);
        return;
      }
      LivedTunes(ops[n], r.Before(n), r.life[n], steps, h.Present());
      assert ops[..n + 1][..n] == ops[..n];
      KeptOn(r, h, steps);
      ServedPush(r, out, steps, h.Present());
      outs := outs + [out];
      r := r.(outs := outs, life := r.life + [h.Present()], work := r.work + [steps]);
    }
    ServedToTheEnd(r);
  }

  lemma ServedKept(r: Record, n: nat)
    requires Served(r) && n < |r.life|
    ensures n <= |r.ops| && Kept(r.life[n], r.m, r.ops[..n])
  {
    hide Kept, Lived, Correct, From;
  }

  lemma LivedTunes(op: Op, m: Model, a: Moment, steps: seq<Disk>, b: Moment)
    requires Lived(op, m, a, steps, b)
    ensures b.setting == Tune(a.setting, m, op)
    ensures !op.Batch? ==> b.commit == a.commit && b.saved == a.saved
  {
    hide Tune, OpSafe, BatchLived;
  }

  lemma NowKept(h: Hammersbald, m: Model, ops: seq<Op>)
    requires h.Valid() && Held(h.mem.base, h.mem.saved) == From(m, ops[..Batched(ops)])
    ensures Kept(h.Present(), m, ops)
  {
    hide Guarded, Remembers, MemTable.Valid;
    IdleIsRecoverable(h);
  }

  // ---------------------------------------------------------------- room for batches

  /** The most a store can have to write out after these operations. */
  function Later(e: Extent, ops: seq<Op>): Extent
  {
    if ops == [] then e
    else
      var f := Later(e, ops[..|ops| - 1]);
      match ops[|ops| - 1]
      case PutKeyed(key, data) => if Accepted(key, data) then Extent(f.buckets + 1, f.slots + 1, f.link) else f
      case Batch => f.(link := f.link + BatchCost(f))
      case _ => f
  }

  predicate AtMost(e: Extent, f: Extent) { e.buckets <= f.buckets && e.slots <= f.slots && e.link <= f.link }

  /** Each operation adds no more than is accounted for. */
  lemma OneMore(op: Op, m: Model, a: Moment, steps: seq<Disk>, b: Moment, e: Extent, ops: seq<Op>)
    requires Lived(op, m, a, steps, b) && AtMost(ExtentOf(a), Later(e, ops))
    ensures AtMost(ExtentOf(b), Later(e, ops + [op]))
  {
    hide OpSafe, Tears, SafeHeader, Leads, Sealed, Padded, WillGrow, Accepted;
    assert (ops + [op])[..|ops|] == ops;
  }

  lemma {:induction false} Accounted(r: Record, n: nat)
    requires Served(r) && n < |r.life|
    ensures AtMost(ExtentOf(r.life[n]), Later(ExtentOf(r.life[0]), r.ops[..n]))
  {
    hide Lived, Kept, Correct, Next, ExtentOf;
    if n == 0 {
      assert r.ops[..0] == [];
    } else {
      Accounted(r, n - 1);
      OneMore(r.ops[n - 1], r.Before(n - 1), r.life[n - 1], r.work[n - 1], r.life[n], ExtentOf(r.life[0]),
        r.ops[..n - 1]);
      assert r.ops[..n] == r.ops[..n - 1] + [r.ops[n - 1]];
    }
  }

  /** After `ops`, begun with `m` and an extent of `e`, a batch certainly has room. */
  predicate BatchHasRoom(e: Extent, m: Model, ops: seq<Op>) { HasRoom(Later(e, ops), From(m, ops).end) }

  /** Each operation is answered like a plain map, up to one that `MayStop`. */
  ghost predicate Answered(e: Extent, m: Model, hasher: Hasher, ops: seq<Op>, outs: seq<Out>)
  {
    && |outs| <= |ops| && (forall n :: 0 <= n < |outs| ==> Correct(From(m, ops[..n]), hasher, ops[n], outs[n]))
    && (|outs| < |ops| ==>
      MayStop(From(m, ops[..|outs|]), ops[|outs|], BatchHasRoom(e, m, ops[..|outs|])))
  }

  lemma SessionIsAnswered(r: Record)
    requires Session(r)
    ensures Answered(ExtentOf(r.life[0]), r.m, r.Hash(), r.ops, r.outs)
  {
    hide Correct, Lived, Kept, From, Stopped, Padded, Later, ExtentOf;
    if |r.outs| < |r.ops| { Accounted(r, |r.outs|); }
  }

  /** The extent of a new store. */
  const NEW := Extent(INIT_BUCKETS, 0, 0)

  /** For every hash function, every fill target and every sequence of operations on a new store, each answer is
      the one of the plain map: growth, rehashing, batches and padding cannot be observed. A run ends early only
      at an operation that `MayStop`. */
  method Run(f: (u64, u64, Bytes) -> u32, sip0: u64, sip1: u64, fillTarget: nat, ops: seq<Op>) returns (outs: seq<Out>)
    ensures |outs| <= |ops|
    ensures forall i :: 0 <= i < |outs| ==> Correct(After(ops[..i]), Hasher(f, sip0, sip1), ops[i], outs[i])
    ensures forall i :: 0 <= i < |outs| && ops[i].PutKeyed? ==>
      (outs[i] == Failed(KeyTooLong) <==> |ops[i].key| > 255 || |ops[i].data| >= 0x80_0000)
    ensures |outs| < |ops| ==> Exhausts(ops[..|outs|], ops[|outs|])
  {
    hide Session, Correct, MayStop, BatchHasRoom, From, Survives, Leads, CrashDuring;
    ghost var opening, r;
    outs, opening, r := FirstSession(f, sip0, sip1, fillTarget, ops);
    forall i | 0 <= i < |outs| && ops[i].PutKeyed?
      ensures outs[i] == Failed(KeyTooLong) <==> |ops[i].key| > 255 || |ops[i].data| >= 0x80_0000
    {
      TooLongInNumbers(After(ops[..i]), Hasher(f, sip0, sip1), ops[i], outs[i]);
    }
    if |outs| < |ops| { StopsInNumbers(ops[..|outs|], ops[|outs|]); }
  }

  lemma TooLongInNumbers(m: Model, hasher: Hasher, op: Op, out: Out)
    requires op.PutKeyed? && Correct(m, hasher, op, out)
    ensures out == Failed(KeyTooLong) <==> |op.key| > 255 || |op.data| >= 0x80_0000
  {
  }

  function CountPuts(ops: seq<Op>): nat
  {
    if ops == [] then 0 else CountPuts(ops[..|ops| - 1]) + if ops[|ops| - 1].PutKeyed? then 1 else 0
  }

  function CountBatches(ops: seq<Op>): nat
  {
    if ops == [] then 0 else CountBatches(ops[..|ops| - 1]) + if ops[|ops| - 1].Batch? then 1 else 0
  }

  /** In numbers, where a run on a new store may stop: data that would end at 2^48 - 1 or beyond or needs a length of
      more than three bytes, a reference never handed out, or a batch after so many puts and batches that the link
      file or one slot list might be full. */
  predicate Exhausts(ops: seq<Op>, op: Op)
  {
    var m := After(ops);
    match op
    case PutKeyed(key, data) =>
      |key| <= 255 && |data| < 0x80_0000 && m.end + 8 + |key| + |data| >= 0xffff_ffff_ffff
    case Put(data) => |data| >= 0xff_fffc || m.end + 7 + |data| >= 0xffff_ffff_ffff
    case Get(p) => p !in m.refs
    case Batch =>
      var puts, batches := CountPuts(ops), CountBatches(ops);
      || puts > 1_677_721 || (batches + 1) * (14 * puts + 6151) >= 0xffff_ffff_ffff
      || m.end + 4103 > 0xffff_ffff_ffff
    case GetKeyed(_) => false
    case MayHave(_) => false
    case Forget(_) => false
  }

  lemma {:induction false} LaterInNumbers(ops: seq<Op>)
    ensures var e, puts := Later(NEW, ops), CountPuts(ops);
      e.buckets <= 512 + puts && e.slots <= puts && e.link <= Charge(CountBatches(ops), puts)
  {
    hide Accepted, Charge;
    if ops != [] {
      var front := ops[..|ops| - 1];
      LaterInNumbers(front);
      OneMoreCharge(CountBatches(front), CountPuts(front));
    }
  }

  function Charge(batches: nat, puts: nat): nat { batches * (14 * puts + 6151) }

  lemma OneMoreCharge(b: nat, p: nat)
    ensures Charge(b, p) <= Charge(b, p + 1) && Charge(b + 1, p) == Charge(b, p) + 14 * p + 6151
  {
  }

  lemma StopsInNumbers(ops: seq<Op>, op: Op)
    requires MayStop(After(ops), op, BatchHasRoom(NEW, EMPTY_MODEL, ops))
    ensures Exhausts(ops, op)
  {
    hide From, Later, Padded, Serialize;
    match op
    case PutKeyed(key, data) => AcceptedIsEncodable(key, data);
    case Put(data) => ReferredLength(data);
    case Batch =>
      LaterInNumbers(ops);
      PaddedIsAligned(After(ops).end);
      OneMoreCharge(CountBatches(ops), CountPuts(ops));
    case _ =>
  }

  // ---------------------------------------------------------------- from session to session

  /** Opening these files gets back to the first `k` operations of a session. */
  ghost predicate Left(r: Record, k: nat, i: Image, c: Commit, s: Saved)
  {
    && k <= |r.ops| && r.life != [] && Survives(i, c, s) && Held(c, s) == r.Before(k)
    && s.hasher.f == r.life[0].setting.hasher.f
  }

  /** A crash before operation `n`, or while it is made. */
  ghost predicate CrashAt(r: Record, n: nat, i: Image)
  {
    && n < |r.life|
    && (Leaves(r.life[n].disk, i) || (n < |r.work| && CrashDuring(r.life[n].disk, r.work[n], i)))
  }

  /** Operation `n` is a batch whose header is not safe. */
  ghost predicate Exposed(r: Record, n: nat)
  {
    n < |r.life| && n < |r.work| && n < |r.ops| && r.ops[n].Batch? && !SafeHeader(r.life[n])
  }

  /** The hash function of a session never changes. */
  lemma {:induction false} SameHasher(r: Record, n: nat)
    requires Served(r) && n < |r.life|
    ensures r.life[n].setting.hasher == r.life[0].setting.hasher
  {
    hide Kept, Correct, OpSafe, BatchLived, From;
    if n > 0 {
      SameHasher(r, n - 1);
      assert Lived(r.ops[n - 1], r.Before(n - 1), r.life[n - 1], r.work[n - 1], r.life[n]);
    }
  }

  lemma MomentLeft(r: Record, n: nat, i: Image)
    requires Served(r) && n < |r.life| && Survives(i, r.life[n].commit, r.life[n].saved)
    ensures Left(r, Batched(r.ops[..n]), i, r.life[n].commit, r.life[n].saved)
  {
    hide Lived, Correct, Survives, From, Batched, Guarded, Remembers;
    SameHasher(r, n);
    assert Kept(r.life[n], r.m, r.ops[..n]);
    assert r.ops[..n][..Batched(r.ops[..n])] == r.ops[..Batched(r.ops[..n])];
  }

  /** So a crash anywhere in a session, except within a batch whose header is not safe, leaves files for the next one:
      with the operations of the last batch, or of the batch that was interrupted. */
  lemma CrashInSession(r: Record, n: nat, i: Image) returns (k: nat, c: Commit, s: Saved)
    requires Session(r) && CrashAt(r, n, i) && !Exposed(r, n)
    ensures Left(r, k, i, c, s) && n < |r.life| == |r.outs| + 1
    ensures
      || (k == Batched(r.ops[..n]) && c == r.life[n].commit && s == r.life[n].saved)
      || (n < |r.outs| && r.ops[n].Batch? && k == n + 1 && c == r.life[n + 1].commit && s == r.life[n + 1].saved)
  {
    hide Correct, Survives, From, CrashDuring, MayStop, Lived, Stopped, Leaves, Batched, Left, SafeHeader, Kept,
      HasRoom;
    if Leaves(r.life[n].disk, i) {
      KeptSurvives(r.life[n], r.m, r.ops[..n], i);
    } else if n < |r.outs| {
      LivedThrough(r.ops[n], r.Before(n), r.life[n], r.work[n], r.life[n + 1], i);
    } else {
      StoppedThrough(r.ops[n], r.life[n], r.work[n], i);
    }
    if Survives(i, r.life[n].commit, r.life[n].saved) {
      k, c, s := Batched(r.ops[..n]), r.life[n].commit, r.life[n].saved;
      MomentLeft(r, n, i);
    } else {
      k, c, s := n + 1, r.life[n + 1].commit, r.life[n + 1].saved;
      MomentLeft(r, n + 1, i);
      BatchedAll(r.ops[..n + 1]);
    }
  }

  lemma BatchedAll(ops: seq<Op>)
    requires ops != [] && ops[|ops| - 1].Batch?
    ensures Batched(ops) == |ops|
  {
  }

  lemma KeptSurvives(a: Moment, m: Model, ops: seq<Op>, i: Image)
    requires Kept(a, m, ops) && Leaves(a.disk, i)
    ensures Survives(i, a.commit, a.saved)
  {
    hide Guarded, Remembers, Recoverable, Restores, Leaves;
    CrashIsRecoverable(a.disk, a.commit, i);
  }

  lemma LivedThrough(op: Op, m: Model, a: Moment, steps: seq<Disk>, b: Moment, i: Image)
    requires Lived(op, m, a, steps, b) && CrashDuring(a.disk, steps, i) && (op.Batch? ==> SafeHeader(a))
    ensures Survives(i, a.commit, a.saved) || (op.Batch? && Survives(i, b.commit, b.saved))
  {
    hide CrashDuring, Survives, SafeHeader, Tune;
  }

  lemma StoppedThrough(op: Op, a: Moment, steps: seq<Disk>, i: Image)
    requires Stopped(op, a, steps) && CrashDuring(a.disk, steps, i) && (op.Batch? ==> SafeHeader(a))
    ensures Survives(i, a.commit, a.saved)
  {
    hide CrashDuring, Survives, SafeHeader, Leads;
  }

  /** Within a batch whose header is not safe a crash can lose both it and the batch before it. */
  lemma ExposedIsTorn(r: Record, n: nat) returns (i: Image)
    requires Session(r) && Exposed(r, n)
    ensures CrashAt(r, n, i) && !Restores(i, r.life[n].commit)
    ensures n < |r.outs| ==> !Restores(i, r.life[n + 1].commit)
  {
    hide Correct, Kept, CrashDuring, Restores, SafeHeader, Leads, Tune, HasRoom;
    var a := r.life[n];
    var ok := n < |r.outs|;
    var c := if ok then r.life[n + 1].commit else a.commit;
    if ok { assert Lived(r.ops[n], r.Before(n), a, r.work[n], r.life[n + 1]); }
    i :| CrashDuring(a.disk, r.work[n], i) && !Restores(i, a.commit) && (ok ==> !Restores(i, c));
  }

  /** The first session of a store. A crash while it is created leaves no files or an empty store. */
  method FirstSession(f: (u64, u64, Bytes) -> u32, sip0: u64, sip1: u64, fillTarget: nat, ops: seq<Op>)
    returns (outs: seq<Out>, ghost opening: seq<Disk>, ghost r: Record)
    ensures Session(r) && r.m == EMPTY_MODEL && r.ops == ops && r.outs == outs
    ensures Answered(NEW, EMPTY_MODEL, Hasher(f, sip0, sip1), ops, outs)
    ensures r.life[0].setting == Setting(FRESH, 0, Hasher(f, sip0, sip1), Clamp(fillTarget), {}, {})
    ensures Leads(Rest(NO_FILES), opening, r.life[0].disk) && AsOpened(r.life[0])
    ensures forall i :: CrashDuring(Rest(NO_FILES), opening, i) ==>
      i == NO_FILES || Left(r, 0, i, r.life[0].commit, r.life[0].saved)
  {
    hide Hammersbald.Valid, MayStop, Correct, Lived, Stopped, Kept, Next, Leads, Survives, CrashDuring, Answered;
    var h;
    h, opening := Create(f, sip0, sip1, fillTarget);
    LinkEndsAtBatch(h);
    forall n | 0 <= n < |ops| ensures !Strands(SetAfter(h.Tuned(), EMPTY_MODEL, ops[..n]), ops[n]) {
      NoStraysIsSteady(h.Tuned(), EMPTY_MODEL, ops, n);
    }
    outs, r := Serve(h, EMPTY_MODEL, ops);
    SessionIsAnswered(r);
    forall i | Survives(i, r.life[0].commit, r.life[0].saved)
      ensures Left(r, 0, i, r.life[0].commit, r.life[0].saved)
    {
      MomentLeft(r, 0, i);
    }
  }

  /** How a store is set when its files are opened again. */
  ghost function Resumed(c: Commit, s: Saved, fillTarget: nat): Setting
  {
    Setting(s.g, 0, s.hasher, Clamp(fillTarget), Unsettled(c, s), {})
  }

  /** Any further session, over files left by the session before it. If they are `Reopenable`, it begins with exactly
      the operations that survived, and goes on like a plain map as long as no bucket is rehashed that was reloaded from
      a stale cell. A crash while it opens leaves the same. */
  method NextSession(image: Image, hasher: Hasher, fillTarget: nat, ops: seq<Op>, ghost last: Record, ghost k: nat,
      ghost c: Commit, ghost s: Saved)
    returns (outs: seq<Out>, ghost opening: seq<Disk>, ghost r: Record)
    requires Left(last, k, image, c, s) && hasher.f == last.life[0].setting.hasher.f
    requires Reopenable(c, s) && Steady(Resumed(c, s, fillTarget), last.Before(k), ops)
    ensures Session(r) && r.m == last.Before(k) && r.ops == ops && r.outs == outs
    ensures Answered(ExtentOf(r.life[0]), r.m, s.hasher, ops, outs)
    ensures r.life[0].setting == Resumed(c, s, fillTarget) && r.life[0].commit == c && AsOpened(r.life[0])
    ensures Leads(Rest(image), opening, r.life[0].disk)
    ensures forall i :: CrashDuring(Rest(image), opening, i) ==> Left(last, k, i, c, s)
  {
    hide Hammersbald.Valid, MayStop, Correct, Lived, Stopped, Kept, Next, Leads, Sealed, Guarded, Flatten,
      NothingHaunted, Remembers, Recoverable, Restores, Interrupts, Reloaded, ReloadedLogMod, MemTable.Readable, Pow2,
      Session, From, Unsettled, Steady;
    FewBuckets(c, s);
    var h;
    h, opening := Open(image, hasher, fillTarget, c, s);
    LeadsEnd(Rest(image), opening, h.mem.Now());
    forall i | CrashDuring(Rest(image), opening, i) ensures Survives(i, c, s) {
      var j :| 0 <= j < |opening| && Interrupts(At(Rest(image), opening, j), opening[j], i);
      CrashDuringOpening(Rest(image), opening, c, j, i);
    }
    outs, r := Serve(h, Held(c, s), ops);
    SessionIsAnswered(r);
  }

  /** A session after a crash at any point of the session before it, except within a batch whose header is not safe. */
  method SessionAfterCrash(image: Image, hasher: Hasher, fillTarget: nat, ops: seq<Op>, ghost last: Record,
      ghost n: nat) returns (outs: seq<Out>, ghost k: nat, ghost r: Record)
    requires Session(last) && CrashAt(last, n, image) && !Exposed(last, n)
    requires hasher.f == last.life[0].setting.hasher.f
    requires forall j :: n <= j <= n + 1 && j < |last.life| ==> Reopenable(last.life[j].commit, last.life[j].saved)
    requires forall j :: n <= j <= n + 1 && j < |last.life| ==>
      var a := last.life[j]; Steady(Resumed(a.commit, a.saved, fillTarget), Held(a.commit, a.saved), ops)
    ensures k == Batched(last.ops[..n]) || (n < |last.outs| && last.ops[n].Batch? && k == n + 1)
    ensures Session(r) && r.m == last.Before(k) && r.ops == ops && r.outs == outs
    ensures r.life[0].setting.hasher.f == hasher.f
  {
    hide Session, CrashAt, Exposed, Reopenable, Survives, From, Leads, CrashDuring, Answered, Batched, Steady,
      Unsettled;
    ghost var c, s, opening;
    k, c, s := CrashInSession(last, n, image);
    outs, opening, r := NextSession(image, hasher, fillTarget, ops, last, k, c, s);
  }

  // ---------------------------------------------------------------- where strays can be

  lemma UnsettledWasRehashed(c: Commit, s: Saved)
    requires Remembers(c, s)
    ensures Unsettled(c, s) <= s.strays + s.rehashed
  {
    hide Remembers, Stale;
    forall b | b in Unsettled(c, s) ensures b in s.strays + s.rehashed {
      if b !in s.strays { StaleWasRehashed(c, s, b); }
    }
  }

  /** The growth parameters never go back, and the buckets that may hold strays stay the same. */
  lemma {:induction false} SettingGrows(t: Setting, m: Model, ops: seq<Op>, k: nat, n: nat)
    requires k <= n <= |ops|
    ensures var a, b := SetAfter(t, m, ops[..k]), SetAfter(t, m, ops[..n]);
      && b.strays == a.strays && a.g.logMod <= b.g.logMod
      && (a.g.logMod == b.g.logMod ==> a.g.step <= b.g.step)
    decreases n - k
  {
    hide Accepted, WillGrow, From, Pow2, Rehashes;
    if k < n {
      SettingGrows(t, m, ops, k, n - 1);
      assert ops[..n][..n - 1] == ops[..n - 1];
    }
  }

  /** As long as `logMod` stays the same, only buckets below `step` have been rehashed. */
  lemma {:induction false} RehashedBelowStep(t: Setting, m: Model, ops: seq<Op>)
    requires t.rehashed == {} && SetAfter(t, m, ops).g.logMod == t.g.logMod
    ensures var u := SetAfter(t, m, ops); forall b :: b in u.rehashed ==> b < u.g.step
  {
    hide Accepted, WillGrow, From, Pow2;
    if ops != [] {
      var front := ops[..|ops| - 1];
      assert ops[..|front|] == front && ops[..|ops|] == ops && ops[..0] == [];
      SettingGrows(t, m, ops, 0, |front|);
      SettingGrows(t, m, ops, |front|, |ops|);
      RehashedBelowStep(t, m, front);
    }
  }

  /** As long as `logMod` stays the same, strays that lie below `step` at the beginning are never reached. */
  lemma SteadyWithinRound(t: Setting, m: Model, ops: seq<Op>)
    requires (forall b :: b in t.strays ==> b < t.g.step) && SetAfter(t, m, ops).g.logMod == t.g.logMod
    ensures Steady(t, m, ops)
  {
    hide Accepted, WillGrow, From, Pow2, SetAfter;
    forall n | 0 <= n < |ops| ensures !Strands(SetAfter(t, m, ops[..n]), ops[n]) {
      assert ops[..|ops|] == ops;
      SettingGrows(t, m, ops, 0, n);
      SettingGrows(t, m, ops, n, |ops|);
      SetAfterNothing(t, m, ops);
    }
  }

  lemma SetAfterNothing(t: Setting, m: Model, ops: seq<Op>)
    ensures SetAfter(t, m, ops[..0]) == t
  {
  }

  lemma {:induction false} SettingsFollow(r: Record, n: nat)
    requires Served(r) && n < |r.life|
    ensures r.life[n].setting == SetAfter(r.life[0].setting, r.m, r.ops[..n])
  {
    hide Kept, Correct, Lived, From, Tune;
    if n > 0 {
      SettingsFollow(r, n - 1);
      LivedTunes(r.ops[n - 1], r.Before(n - 1), r.life[n - 1], r.work[n - 1], r.life[n]);
      assert r.ops[..n][..n - 1] == r.ops[..n - 1];
    }
  }

  /** In the round in which a session begins, what a batch saves has been rehashed below `step` only. */
  lemma {:induction false} SavedBelowStep(r: Record, n: nat)
    requires Served(r) && n < |r.life| && AsOpened(r.life[0])
    ensures var s, t := r.life[n].saved, r.life[0].setting;
      && s.strays == t.strays
      && (s.g.logMod == t.g.logMod ==> t.g.step <= s.g.step && forall b :: b in s.rehashed ==> b < s.g.step)
  {
    hide Kept, Correct, Lived, From, Tune, SetAfter;
    if n > 0 {
      SavedBelowStep(r, n - 1);
      var a, t := r.life[n - 1], r.life[0].setting;
      LivedSaves(r.ops[n - 1], r.Before(n - 1), a, r.work[n - 1], r.life[n]);
      SettingsFollow(r, n - 1);
      SettingGrows(t, r.m, r.ops[..n - 1], 0, n - 1);
      SetAfterNothing(t, r.m, r.ops[..n - 1]);
      assert r.ops[..n - 1][..n - 1] == r.ops[..n - 1];
      if r.ops[n - 1].Batch? && a.setting.g.logMod == t.g.logMod { RehashedBelowStep(t, r.m, r.ops[..n - 1]); }
    }
  }

  lemma LivedSaves(op: Op, m: Model, a: Moment, steps: seq<Disk>, b: Moment)
    requires Lived(op, m, a, steps, b)
    ensures if op.Batch?
      then b.saved.g == a.setting.g && b.saved.strays == a.setting.strays && b.saved.rehashed == a.setting.rehashed
      else b.saved == a.saved
  {
    hide OpSafe, Tears, SafeHeader, Leads, Sealed, Tune;
  }

  /** So as long as the table is in the round in which it was created, stale cells do no harm unless they are haunted:
      whatever was saved in a session, the next one is steady, and its strays again lie below `step`. */
  lemma SteadyInSameRound(r: Record, n: nat, fillTarget: nat, ops: seq<Op>)
    requires Served(r) && n < |r.life| && AsOpened(r.life[0])
    requires forall b :: b in r.life[0].setting.strays ==> b < r.life[0].setting.g.step
    requires var a := r.life[n]; var t := Resumed(a.commit, a.saved, fillTarget);
      && r.life[0].setting.g.logMod == t.g.logMod
      && SetAfter(t, Held(a.commit, a.saved), ops).g.logMod == t.g.logMod
    ensures var a := r.life[n]; var t := Resumed(a.commit, a.saved, fillTarget);
      && Steady(t, Held(a.commit, a.saved), ops)
      && forall b :: b in t.strays ==> b < t.g.step
  {
    hide Correct, Lived, From, Tune, SetAfter, Unsettled, Guarded, Remembers, Steady;
    var a := r.life[n];
    ServedKept(r, n);
    SavedBelowStep(r, n);
    UnsettledWasRehashed(a.commit, a.saved);
    SteadyWithinRound(Resumed(a.commit, a.saved, fillTarget), Held(a.commit, a.saved), ops);
  }

  // ---------------------------------------------------------------- the lifetime of a store

  /** Sessions that follow each other, the first `ks[i]` operations of session `i` having survived it. */
  ghost predicate Lifetime(rs: seq<Record>, ks: seq<nat>)
  {
    && |rs| == |ks| + 1 && rs[0].m == EMPTY_MODEL && (forall i :: 0 <= i < |rs| ==> Session(rs[i]))
    && forall i :: 0 <= i < |ks| ==> ks[i] <= |rs[i].ops| && rs[i + 1].m == rs[i].Before(ks[i])
  }

  /** All operations that survived. */
  function Surviving(rs: seq<Record>, ks: seq<nat>): seq<Op>
    requires |rs| == |ks| + 1 && forall i :: 0 <= i < |ks| ==> ks[i] <= |rs[i].ops|
  {
    if ks == [] then [] else
      var n := |ks| - 1;
      Surviving(rs[..n + 1], ks[..n]) + rs[n].ops[..ks[n]]
  }

  /** Whatever crashes there were, in each session every answer is that of the plain map after exactly the operations
      that survived. */
  lemma {:induction false} LifetimeAnswers(rs: seq<Record>, ks: seq<nat>)
    requires Lifetime(rs, ks)
    ensures var r, past := rs[|ks|], Surviving(rs, ks);
      && r.m == After(past)
      && forall n :: 0 <= n < |r.outs| ==> Correct(After(past + r.ops[..n]), r.Hash(), r.ops[n], r.outs[n])
  {
    hide Correct, Lived, Kept, Ended, Next, From;
    var r, past := rs[|ks|], Surviving(rs, ks);
    if ks == [] {
      assert After([]) == EMPTY_MODEL by { Afresh(); }
    } else {
      var n := |ks| - 1;
      LifetimeAnswers(rs[..n + 1], ks[..n]);
      FromThere(EMPTY_MODEL, Surviving(rs[..n + 1], ks[..n]), rs[n].ops[..ks[n]]);
    }
    forall n | 0 <= n < |r.outs| ensures Correct(After(past + r.ops[..n]), r.Hash(), r.ops[n], r.outs[n]) {
      FromThere(EMPTY_MODEL, past, r.ops[..n]);
    }
  }

  lemma Afresh()
    ensures After([]) == EMPTY_MODEL
  {
  }

  lemma FewBuckets(c: Commit, s: Saved)
    requires Remembers(c, s) && s.g.step + s.g.logMod - INIT_LOGMOD < Pow2(s.g.logMod + 1)
    ensures s.g.buckets < 0x1_0000_0000
  {
    hide Recorded, Indexes, Views, AllKnown, Proper, MemTables.Stored, ListsSound, WellStored, PageHeader, Pow2;
    Pow2Values();
    Pow2Step(s.g.logMod + 1);
    Pow2Monotone(s.g.logMod + 2, 32);
  }

  /** A key read after reopening such files. If `logMod` is restored and no stale cell is haunted, the answer is that
      of the last batch. */
  method ReadAfterCrash(image: Image, hasher: Hasher, fillTarget: nat, key: Bytes, ghost c: Commit, ghost s: Saved)
    returns (r: Result<Option<(PRef, Bytes)>>)
    requires Recoverable(image, c) && Remembers(c, s) && hasher.f == s.hasher.f && s.g.buckets < 0x1_0000_0000
    ensures ReloadedLogMod(s.g.buckets) >= 0
    ensures r == Answer(Reloaded(c, s), ReloadedLogMod(s.g.buckets), s.g.step, s.refs, s.hasher, key)
    ensures s.g.step + s.g.logMod - INIT_LOGMOD < Pow2(s.g.logMod + 1) && NothingHaunted(c, s) ==>
      r == Ok(Expected(Model(s.index, s.refs, 0), key))
  {
    hide Recoverable, NothingHaunted, Flatten, Indexes, ListsSound, Recorded, Views, Proper, AllKnown, MemTables.Stored,
      WellStored, PageHeader, Answer, Leads, Guarded, Sealed, MemTable.Readable, MemTable.Core, Hammersbald.Valid,
      ReloadedLogMod, Reloaded, Haunted, Expected;
    ReloadExact(s.g);
    if s.g.step + s.g.logMod - INIT_LOGMOD < Pow2(s.g.logMod + 1) { ReopenedAnswers(c, s); }
      else { ReloadOffByOne(s.g); }
    var h, _ := Open(image, hasher, fillTarget, c, s);
    r := h.mem.Get(key);
  }

  ghost predicate NothingHaunted(c: Commit, s: Saved)
  {
    forall b :: 0 <= b < |s.buckets| ==> !Haunted(c, s, b)
  }

  /** With `logMod` restored, a reopened store gives every key the answer of the last batch if and only if no stale cell
      holds a slot whose hash still leads to its bucket. */
  lemma ReopenedAnswers(c: Commit, s: Saved)
    requires Remembers(c, s)
    ensures (forall key :: Answer(Reloaded(c, s), s.g.logMod, s.g.step, s.refs, s.hasher,
            key) == Ok(Expected(Model(s.index, s.refs, 0), key)))
            <==> NothingHaunted(c, s)
  {
    hide Recorded, Indexes, Views, AllKnown, Proper, MemTables.Stored, ListsSound, WellStored, PageHeader, Haunted,
      Answer, Expected, Lookup, Params.Sound, Reloaded;
    ReopenAnswersExactly(c, s);
    forall key
      ensures Answer(Reloaded(c, s), s.g.logMod, s.g.step, s.refs, s.hasher, key) == Ok(Expected(Model(s.index,
              s.refs, 0), key))
              <==> Lookup(Reloaded(c, s), s.g.logMod, s.g.step, s.refs, s.hasher, key) == AsOption(s.index, key)
    {
      AnswerIsLookup(c, s, key);
    }
  }

  lemma AnswerIsLookup(c: Commit, s: Saved, key: Bytes)
    requires Remembers(c, s)
    ensures Answer(Reloaded(c, s), s.g.logMod, s.g.step, s.refs, s.hasher, key) == Ok(Expected(Model(s.index, s.refs,
            0), key))
            <==> Lookup(Reloaded(c, s), s.g.logMod, s.g.step, s.refs, s.hasher, key) == AsOption(s.index, key)
  {
    hide Recorded, Views, AllKnown, Proper, MemTables.Stored, ListsSound, WellStored, PageHeader, Params.Sound,
      BucketFor, Cell, FirstHit;
    BucketsInRange(s.g, s.hasher.Of(key));
    if key in s.index { AnswerIsMap(s.view, s.g.logMod, s.g.step, s.refs, s.hasher, s.index, s.strays, key); }
  }
}
