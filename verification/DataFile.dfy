/** Data and link files: a byte stream made of envelopes and nothing else. */
module DataFiles {
  import opened Types
  import opened Codec
  import opened PagedFile

  // ---------------------------------------------------------------- concatenated envelopes

  predicate Payloads(es: seq<Bytes>) { forall i :: 0 <= i < |es| ==> 0 < |es[i]| < 0x100_0000 }

  function Concat(es: seq<Bytes>): Bytes
  {
    if es == [] then [] else Concat(es[..|es| - 1]) + Enveloped(es[|es| - 1])
  }

  /** Where the envelope number `i` begins. */
  function Offset(es: seq<Bytes>, i: nat): nat
    requires i <= |es|
  {
    |Concat(es[..i])|
  }

  lemma OffsetZero(es: seq<Bytes>)
    ensures Offset(es, 0) == 0
  {
  }

  /** The stream is an exact concatenation of non-empty envelopes. */
  ghost predicate Framed(stream: Bytes) { exists es :: Payloads(es) && stream == Concat(es) }

  lemma ConcatPush(es: seq<Bytes>, e: Bytes)
    ensures Concat(es + [e]) == Concat(es) + Enveloped(e)
  {
    assert (es + [e])[..|es|] == es;
  }

  lemma {:induction false} ConcatPrefix(es: seq<Bytes>, i: nat)
    requires i <= |es|
    ensures Concat(es[..i]) <= Concat(es)
  {
    if i == |es| {
      assert es[..i] == es;
    } else {
      ConcatPrefix(es[..|es| - 1], i);
      assert es[..|es| - 1][..i] == es[..i];
    }
  }

  /** Envelope number `i` lies at its offset, and the next one right behind it. */
  lemma ConcatAt(es: seq<Bytes>, i: nat)
    requires Payloads(es) && i < |es|
    ensures EnvelopeAt(Concat(es), Offset(es, i), es[i])
    ensures Offset(es, i + 1) == Offset(es, i) + 3 + |es[i]| <= |Concat(es)|
  {
    assert es[..i + 1] == es[..i] + [es[i]];
    ConcatPush(es[..i], es[i]);
    EnvelopeAppended(Concat(es[..i]), es[i]);
    ConcatPrefix(es, i + 1);
    EnvelopeStays(Concat(es[..i + 1]), Concat(es), Offset(es, i), es[i]);
  }

  // ---------------------------------------------------------------- padding

  function PaddingLength(pos: PRef): nat
    requires InPagePos(pos) > 0
  {
    if PAGE_SIZE - InPagePos(pos) >= 7 then PAGE_SIZE - InPagePos(pos) - 7 else 2 * PAGE_SIZE - InPagePos(pos) - 7
  }

  /** The position after a flush: the next page boundary that leaves room for an empty envelope. */
  function Padded(pos: PRef): PRef
  {
    if InPagePos(pos) == 0 then pos else pos + 7 + PaddingLength(pos)
  }

  lemma PaddedIsAligned(pos: PRef)
    ensures Padded(pos) % 4096 == 0
    ensures pos <= Padded(pos) < pos + 4096 + 7
    ensures if pos % 4096 == 0 then Padded(pos) == pos else Padded(pos) >= pos + 7
  {
  }

  function Zeros(n: nat): Bytes { seq(n, i => 0) }

  /** The envelopes a flush adds at this position. */
  function Padding(pos: PRef): seq<Bytes>
  {
    if InPagePos(pos) == 0 then [] else [Serialize(Referred(Zeros(PaddingLength(pos))))]
  }

  /** A flush adds nothing on a page boundary, otherwise one envelope with data of zeros that ends on one. */
  lemma PaddingBytes(pos: PRef)
    ensures pos % 4096 == 0 ==> Padding(pos) == []
    ensures pos % 4096 != 0 ==> |Padding(pos)| == 1
    ensures pos % 4096 != 0 ==>
      var s, n := Padding(pos)[0], Padded(pos) - pos - 7;
      && |s| == 4 + n && s[0] == 1 && s[1] == 0 && s[2] == n / 256 && s[3] == n % 256
      && forall i :: 4 <= i < |s| ==> s[i] == 0
  {
    hide Serialize;
    if pos % 4096 != 0 {
      PaddingFits(pos);
      var zeros := Zeros(PaddingLength(pos));
      PayloadBytes(Referred(zeros));
      var s := Padding(pos)[0];
      forall i | 4 <= i < |s| ensures s[i] == 0 { assert s[i] == s[4..][i - 4]; }
    }
  }

  lemma PaddingFits(pos: PRef)
    requires InPagePos(pos) > 0
    ensures var p := Referred(Zeros(PaddingLength(pos)));
            Encodable(p) && |Serialize(p)| == PaddingLength(pos) + 4 < 0x100_0000
  {
  }

  // ---------------------------------------------------------------- the file

  /** Every reference leads to an envelope with the payload stored there. */
  ghost predicate Contains(stream: Bytes, contents: map<PRef, Payload>)
  {
    forall p :: p in contents ==> Encodable(contents[p]) && EnvelopeAt(stream, p, Serialize(contents[p]))
  }

  ghost predicate Filed(stream: Bytes, envelopes: seq<Bytes>, contents: map<PRef, Payload>)
  {
    Payloads(envelopes) && stream == Concat(envelopes) && Contains(stream, contents)
  }

  lemma FiledPush(stream: Bytes, envelopes: seq<Bytes>, contents: map<PRef, Payload>, p: Payload)
    requires Filed(stream, envelopes, contents) && Encodable(p) && |Serialize(p)| < 0x100_0000
    ensures Filed(stream + Enveloped(Serialize(p)), envelopes + [Serialize(p)], contents[|stream| := p])
    ensures |stream| !in contents
  {
    hide Serialize, Encodable, Concat, Enveloped, BigEndian;
    ConcatPush(envelopes, Serialize(p));
    var longer := stream + Enveloped(Serialize(p));
    EnvelopeAppended(stream, Serialize(p));
    forall q | q in contents ensures EnvelopeAt(longer, q, Serialize(contents[q])) {
      EnvelopeStays(stream, longer, q, Serialize(contents[q]));
    }
  }

  lemma FiledForget(stream: Bytes, envelopes: seq<Bytes>, contents: map<PRef, Payload>, q: PRef, p: Payload)
    requires q !in contents && Filed(stream, envelopes, contents[q := p])
    ensures Filed(stream, envelopes, contents)
  {
    var more := contents[q := p];
    forall r | r in contents ensures Encodable(contents[r]) && EnvelopeAt(stream, r, Serialize(contents[r])) {
      assert r in more && more[r] == contents[r];
    }
  }

  /** What reading a length and then that many bytes finds on the pages a reader sees. */
  ghost predicate ReadFrom(pages: seq<Page>, pref: PRef, payload: Bytes)
  {
    var all := Flatten(pages);
    var next := pref + 3 + |payload|;
    && next <= |all| && next < INVALID
    && Value(all[pref..pref + 3]) == |payload|
    && all[pref + 3..next] == payload
  }

  /** Three bytes, the most significant first. */
  function Length(s: Bytes): nat
    requires |s| == 3
  {
    s[0] as int * 0x1_0000 + s[1] as int * 0x100 + s[2] as int
  }

  /** The envelope that a length of three bytes at a position makes of the bytes behind it, if they are there and the
      positions are valid. */
  function EnvelopeIn(all: Bytes, pref: PRef): Option<Bytes>
  {
    if pref + 3 > |all| || pref + 3 >= 0xffff_ffff_ffff then None
    else
      var n := Length(all[pref..pref + 3]);
      if n > 0 && (pref + 3 + n > |all| || pref + 3 + n >= 0xffff_ffff_ffff) then None
      else Some(all[pref + 3..pref + 3 + n])
  }

  lemma LengthInOrder(s: Bytes)
    requires |s| == 3
    ensures Value(s) == Length(s)
  {
    assert s[..2][..1] == s[..1] && s[..1][..0] == [];
    assert Value(s[..1]) == s[0] && Value(s[..2]) == Value(s[..1]) * 256 + s[1];
  }

  lemma ReadableEnvelope(file: PagedFileAppender, pref: PRef, payload: Bytes)
    requires file.Valid() && EnvelopeAt(file.stream, pref, payload)
    ensures ReadFrom(file.Pages(), pref, payload)
  {
    hide PagedFileAppender.Valid, PagedFileAppender.Pages, Flatten, Value, BigEndian;
    file.StreamSlice(pref, 3);
    file.StreamSlice(pref + 3, |payload|);
    ReadBack24(|payload|);
  }

  /** Behind the last envelope a reader meets the end of the pages or a zero length. */
  lemma NothingAtTheEnd(file: PagedFileAppender)
    requires file.Valid()
    ensures var all, p := Flatten(file.Pages()), |file.stream|; p + 3 <= |all| ==> Value(all[p..p + 3]) == 0
  {
    file.StreamIsPrefix();
    var all, p := Flatten(file.Pages()), |file.stream|;
    if p + 3 <= |all| {
      assert all[p..p + 3] == [0, 0, 0];
      assert [0, 0, 0][..2] == [0, 0];
      assert [0, 0][..1] == [0];
    }
  }

  class DataFile {
    const appender: PagedFileAppender
    /** All payloads in file order, padding included. */
    ghost var envelopes: seq<Bytes>
    /** What was stored at the references handed out. */
    ghost var contents: map<PRef, Payload>

    ghost predicate Valid()
      reads this, appender
    {
      appender.Valid() && Filed(appender.stream, envelopes, contents)
    }

    /** Opens a file in which `keep` was stored; only after a crash may it end inside an envelope. */
    constructor (file: QFile, ghost keep: map<PRef, Payload>)
      ensures fresh(appender) && appender.page == None
      ensures appender.file == file && appender.stream == Flatten(file.All()) && contents == keep
      ensures |Flatten(file.All())| < INVALID && Framed(Flatten(file.All())) && Contains(Flatten(file.All()), keep) ==>
              Valid()
    {
      appender := new PagedFileAppender(file, PAGE_SIZE * |file.All()|);
      contents := keep;
      if es :| Payloads(es) && Flatten(file.All()) == Concat(es) { envelopes := es; } else { envelopes := []; }
    }

    lemma Ends()
      requires Valid()
      ensures appender.pos == |appender.stream|
    {
      hide Filed, Flatten;
      appender.StreamIsPrefix();
    }

    method GetEnvelope(pref: PRef) returns (r: Result<Bytes>)
      requires Valid()
      ensures forall payload :: EnvelopeAt(appender.stream, pref, payload) ==> r == Ok(payload)
      ensures var found := EnvelopeIn(Flatten(appender.Pages()), pref);
        (r.Ok? <==> found.Some?) && (r.Ok? ==> r.value == found.value)
    {
      hide PagedFileAppender.Valid, PagedFileAppender.Pages, Flatten, Value, BigEndian, Filed, EnvelopeAt;
      forall payload | EnvelopeAt(appender.stream, pref, payload)
        ensures ReadFrom(appender.Pages(), pref, payload)
      {
        ReadableEnvelope(appender, pref, payload);
      }
      var len :- appender.Read(pref, 3);
      var n := Value(len);
      LengthInOrder(len);
      r := appender.Read(pref + 3, n);
    }

    /** What was stored at a reference is there, and parses. */
    lemma ContentsAt(pref: PRef)
      requires Valid() && pref in contents
      ensures EnvelopeAt(appender.stream, pref, Serialize(contents[pref]))
      ensures Deserialize(Serialize(contents[pref])) == Ok(contents[pref])
    {
      PayloadRoundTrip(contents[pref]);
    }

    /** The envelope at a reference, parsed. */
    method Fetch(pref: PRef) returns (r: Result<Payload>)
      requires Valid()
      ensures pref in contents ==> r == Ok(contents[pref])
      ensures var found := EnvelopeIn(Flatten(appender.Pages()), pref);
        if found.Some? then r == Deserialize(found.value) else r.Err?
    {
      hide EnvelopeIn, Flatten, PagedFileAppender.Pages, Deserialize, DataFile.Valid;
      if pref in contents { ContentsAt(pref); }
      var envelope :- GetEnvelope(pref);
      r := Deserialize(envelope);
    }

    /** Appends one envelope and returns where it begins. */
    method AppendPayload(p: Payload) returns (r: Result<PRef>)
      requires Valid()
      modifies this, appender
      ensures appender.file.durable == old(appender.file.durable)
      ensures old(appender.file.pending) <= appender.file.pending
      ensures r.Ok? <==> Encodable(p) && |Serialize(p)| < 0x100_0000 && old(appender.pos) + 3 + |Serialize(p)| < INVALID
      ensures r.Err? ==> r.error == Panic
      ensures r.Ok? ==> Valid() && r.value == old(appender.pos) && envelopes == old(envelopes) + [Serialize(p)]
      ensures r.Ok? ==> appender.stream == old(appender.stream) + Enveloped(Serialize(p))
      ensures r.Ok? ==> r.value !in old(contents) && contents == old(contents)[r.value := p]
      ensures r.Ok? ==> appender.pos == r.value + 3 + |Serialize(p)|
    {
      if !Encodable(p) { return Err(Panic); }
      var payload := Serialize(p);
      if |payload| >= 0x100_0000 { return Err(Panic); }
      var me := appender.pos;
      assert me == |appender.stream| by { appender.StreamIsPrefix(); }
      var _ :- appender.Append(Enveloped(payload));
      FiledPush(old(appender.stream), envelopes, contents, p);
      envelopes, contents := envelopes + [payload], contents[me := p];
      r := Ok(me);
    }

    /** Pads with a referred envelope of zeros up to a page boundary, then waits for the writer. */
    method Flush() returns (r: Result<()>)
      requires Valid()
      modifies this, appender
      ensures appender.file.durable == old(appender.file.durable) && old(appender.file.All()) <= appender.file.All()
      ensures r.Ok? <==> Padded(old(appender.pos)) < INVALID
      ensures r.Err? ==> r.error == Panic
      ensures r.Ok? ==> Valid() && appender.pos == Padded(old(appender.pos)) && appender.page == None
      ensures r.Ok? ==> appender.file.waiting == 0 && appender.stream == Flatten(appender.file.All())
      ensures r.Ok? ==> envelopes == old(envelopes) + Padding(old(appender.pos))
      ensures r.Ok? ==> contents == old(contents)
      ensures InPagePos(old(appender.pos)) == 0 ==> appender.file == old(appender.file).Flush()
      ensures InPagePos(old(appender.pos)) == 0 ==> appender.stream == old(appender.stream)
    {
      hide PagedFileAppender.Valid, Filed, Flatten, PaddingLength;
      PaddedIsAligned(appender.pos);
      if InPagePos(appender.pos) > 0 {
        var _ :- Pad();
      }
      appender.Aligned();
      r := appender.Flush();
    }

    /** Makes sure of what has been written. */
    method Sync()
      requires Valid()
      modifies appender`file
      ensures Valid() && appender.file == old(appender.file).Sync() && appender.file.All() == old(appender.file.All())
    {
      hide PagedFileAppender.Valid, Filed;
      appender.Sync();
    }

    /** Flushing and syncing a file that is idle and ends on a page boundary. */
    method Close() returns (r: Result<()>)
      requires Valid() && appender.page == None && appender.file.Idle()
      modifies this, appender
      ensures r.Ok? && Valid() && appender.page == None && appender.file == old(appender.file)
      ensures contents == old(contents)
      ensures appender.stream == old(appender.stream) && appender.pos == old(appender.pos)
    {
      hide Filed, Flatten, Spells;
      OnBoundary();
      SyncSettles(appender.file);
      r := Flush();
      match r { case Err(_) => return; case Ok(_) => }
      Sync();
    }

    lemma OnBoundary()
      requires Valid() && appender.page == None
      ensures InPagePos(appender.pos) == 0 && Padded(appender.pos) == appender.pos < INVALID
    {
    }

    /** The padding part of a flush: after it the stream ends on a page boundary. */
    method Pad() returns (r: Result<()>)
      requires Valid() && InPagePos(appender.pos) > 0
      modifies this, appender
      ensures appender.file.durable == old(appender.file.durable) && old(appender.file.pending) <= appender.file.pending
      ensures r.Ok? <==> Padded(old(appender.pos)) < INVALID
      ensures r.Err? ==> r.error == Panic
      ensures r.Ok? ==> Valid() && appender.pos == Padded(old(appender.pos))
      ensures r.Ok? ==> envelopes == old(envelopes) + Padding(old(appender.pos)) && contents == old(contents)
    {
      var padding := Zeros(PaddingLength(appender.pos));
      PaddingFits(appender.pos);
      var me :- AppendPayload(Referred(padding));
      FiledForget(appender.stream, envelopes, old(contents), me, Referred(padding));
      contents := old(contents);
      r := Ok(());
    }

    /** Cuts the file back to a length at which it was flushed before; `keep` lists what was stored by then. */
    method Truncate(newLen: nat, ghost keep: map<PRef, Payload>) returns (r: Result<()>)
      requires appender.page == None && appender.file.Idle()
      requires newLen % PAGE_SIZE == 0 && newLen < INVALID && PageNumber(newLen) <= |appender.file.durable|
      requires var kept := Flatten(appender.file.durable[..PageNumber(newLen)]); Framed(kept) && Contains(kept, keep)
      modifies this, appender
      ensures r.Ok? && Valid() && contents == keep
      ensures appender.file == Settled(old(appender.file.durable)[..PageNumber(newLen)])
      ensures appender.page == None && appender.stream == Flatten(appender.file.durable)
    {
      ghost var kept := Flatten(appender.file.durable[..PageNumber(newLen)]);
      assert appender.file.All() == appender.file.durable;
      r := appender.Truncate(newLen);
      assert appender.file.All() == appender.file.durable;
      ghost var es :| Payloads(es) && kept == Concat(es);
      envelopes, contents := es, keep;
    }

    /** All envelopes with their positions, by running an iterator to its end. */
    method Envelopes() returns (all: seq<(PRef, Bytes)>)
      requires Valid()
      ensures |all| == |envelopes|
      ensures forall i :: 0 <= i < |all| ==> all[i] == (Offset(envelopes, i), envelopes[i])
    {
      hide PagedFileAppender.Valid, Contains, Concat, Payloads, Offset;
      OffsetZero(envelopes);
      all := [];
      var it := new EnvelopeIterator(appender);
      var item := it.Next(envelopes, 0);
      while item.Some?
        invariant |all| <= |envelopes| && it.file == appender
        invariant item.Some? <==> |all| < |envelopes|
        invariant item.Some? ==> item.value == (Offset(envelopes, |all|), envelopes[|all|])
        invariant it.pos == if item.Some? then Offset(envelopes, |all| + 1) else Offset(envelopes, |all|)
        invariant forall i :: 0 <= i < |all| ==> all[i] == (Offset(envelopes, i), envelopes[i])
        decreases |envelopes| - |all|
      {
        all := all + [item.value];
        item := it.Next(envelopes, |all|);
      }
    }
  }

  class EnvelopeIterator {
    const file: PagedFileAppender
    var pos: PRef

    constructor (file: PagedFileAppender)
      ensures this.file == file && pos == 0
    {
      this.file, this.pos := file, 0;
    }

    /** Standing before envelope `i` it yields that envelope and steps behind it; at the end it stops,
        whether the stream ends on a page boundary, in a zero tail, or too close to the end of a page. */
    method Next(ghost es: seq<Bytes>, ghost i: nat) returns (r: Option<(PRef, Bytes)>)
      requires file.Valid() && Payloads(es) && file.stream == Concat(es)
      requires i <= |es| && pos == Offset(es, i)
      modifies this
      ensures i < |es| ==> r == Some((old(pos), es[i])) && pos == Offset(es, i + 1)
      ensures i == |es| ==> r == None && pos == old(pos)
    {
      hide PagedFileAppender.Valid, PagedFileAppender.Pages, Flatten, Concat, EnvelopeAt, Value;
      if i < |es| {
        ConcatAt(es, i);
        ReadableEnvelope(file, pos, es[i]);
      } else {
        assert es[..i] == es;
        NothingAtTheEnd(file);
      }
      assert file.pos == |file.stream| by { file.StreamIsPrefix(); }
      if IsValid(pos) {
        var len := file.Read(pos, 3);
        if len.Ok? {
          var length := Value(len.value);
          if length > 0 {
            var start := pos;
            var buf := file.Read(pos + 3, length);
            pos := pos + 3 + length;
            return Some((start, buf.value));
          }
        }
      }
      r := None;
    }
  }
}
