/** Byte formats: big-endian numbers, fields of pages, payloads, envelopes and link slots. */
module Codec {
  import opened Types

  // ---------------------------------------------------------------- big-endian numbers

  function Pow256(k: nat): (r: nat)
    ensures r > 0
  {
    if k == 0 then 1 else 256 * Pow256(k - 1)
  }

  function BigEndian(n: nat, width: nat): (r: Bytes)
    ensures |r| == width
  {
    if width == 0 then [] else BigEndian(n / 256, width - 1) + [n % 256]
  }

  function Value(s: Bytes): (n: nat)
  {
    if s == [] then 0 else Value(s[..|s| - 1]) * 256 + s[|s| - 1]
  }

  lemma {:induction false} ValueOfBigEndian(n: nat, width: nat)
    requires n < Pow256(width)
    ensures Value(BigEndian(n, width)) == n
  {
    if width > 0 {
      ValueOfBigEndian(n / 256, width - 1);
      var s := BigEndian(n, width);
      assert s[..|s| - 1] == BigEndian(n / 256, width - 1);
    }
  }

  lemma {:induction false} BigEndianOfValue(s: Bytes)
    ensures Value(s) < Pow256(|s|) && BigEndian(Value(s), |s|) == s
  {
    if s != [] {
      var t := s[..|s| - 1];
      BigEndianOfValue(t);
      assert s == t + [s[|s| - 1]];
    }
  }

  lemma DivideTwice(n: nat, b: nat)
    requires b > 0
    ensures n / 256 / b == n / (256 * b)
  {
    var q := n / 256;
    var q', r' := q / b, q % b;
    assert 256 * b * q' == 256 * (b * q');
    Quotient(n, 256 * b, q', 256 * r' + n % 256);
  }

  lemma Quotient(n: nat, m: nat, q: nat, r: nat)
    requires m > 0 && r < m && n == m * q + r
    ensures n / m == q
  {
    var d := n / m - q;
    assert n == m * (n / m) + n % m && m * (n / m) == m * q + m * d;
  }

  /** The most significant byte comes first. */
  lemma {:induction false} BigEndianAt(n: nat, width: nat, i: nat)
    requires i < width
    ensures BigEndian(n, width)[i] == n / Pow256(width - 1 - i) % 256
  {
    if i < width - 1 {
      BigEndianAt(n / 256, width - 1, i);
      DivideTwice(n, Pow256(width - 2 - i));
    }
  }

  /** The bytes of a length, of a hash, of a reference and of a key word, one by one. */
  lemma BytesInOrder(n: nat)
    ensures BigEndian(n, 3) == [n / 0x1_0000 % 256, n / 0x100 % 256, n % 256]
    ensures BigEndian(n, 4) == [n / 0x100_0000 % 256, n / 0x1_0000 % 256, n / 0x100 % 256, n % 256]
    ensures BigEndian(n, 6) == [n / 0x100_0000_0000 % 256, n / 0x1_0000_0000 % 256] + BigEndian(n, 4)
    ensures BigEndian(n, 8) == [n / 0x100_0000_0000_0000 % 256, n / 0x1_0000_0000_0000 % 256] + BigEndian(n, 6)
  {
    hide BigEndian;
    Widths();
    assert Pow256(0) == 1 && Pow256(1) == 0x100 && Pow256(2) == 0x1_0000;
    assert Pow256(5) == 256 * Pow256(4) && Pow256(7) == 256 * Pow256(6);
    forall w, i | 0 <= i < w ensures BigEndian(n, w)[i] == n / Pow256(w - 1 - i) % 256 { BigEndianAt(n, w, i); }
  }

  lemma Widths()
    ensures Pow256(3) == 0x100_0000 && Pow256(4) == 0x1_0000_0000
    ensures Pow256(6) == 0x1_0000_0000_0000 && Pow256(8) == 0x1_0000_0000_0000_0000
  {
    assert Pow256(2) == 65536;
    assert Pow256(4) == 0x1_0000_0000;
  }

  /** Three-byte and six-byte numbers, the two widths used for lengths and references. */
  lemma ReadBack24(n: nat)
    requires n < 0x100_0000
    ensures Value(BigEndian(n, 3)) == n
  {
    Widths();
    ValueOfBigEndian(n, 3);
  }

  lemma ReadBack48(n: nat)
    requires n < 0x1_0000_0000_0000
    ensures Value(BigEndian(n, 6)) == n
  {
    Widths();
    ValueOfBigEndian(n, 6);
  }

  // ---------------------------------------------------------------- fields of a page

  function WriteAt(page: Page, pos: nat, s: Bytes): Page
    requires pos + |s| <= PAGE_SIZE
  {
    page[..pos] + s + page[pos + |s|..]
  }

  function WritePRef(page: Page, pos: nat, p: PRef): Page
    requires pos + 6 <= PAGE_SIZE
  {
    WriteAt(page, pos, BigEndian(p, 6))
  }

  function ReadPRef(page: Page, pos: nat): PRef
    requires pos + 6 <= PAGE_SIZE
  {
    Value(page[pos..pos + 6])
  }

  function WriteU64(page: Page, pos: nat, n: u64): Page
    requires pos + 8 <= PAGE_SIZE
  {
    WriteAt(page, pos, BigEndian(n, 8))
  }

  function ReadU64(page: Page, pos: nat): u64
    requires pos + 8 <= PAGE_SIZE
  {
    BigEndianOfValue(page[pos..pos + 8]);
    Widths();
    Value(page[pos..pos + 8])
  }

  /** The position a table page claims for itself, its last six bytes. */
  function PageSelf(page: Page): PRef { ReadPRef(page, PAGE_PAYLOAD_SIZE) }

  lemma WriteAtLocal(page: Page, pos: nat, s: Bytes)
    requires pos + |s| <= PAGE_SIZE
    ensures WriteAt(page, pos, s)[pos..pos + |s|] == s
    ensures forall a, b :: 0 <= a <= b <= PAGE_SIZE && (b <= pos || pos + |s| <= a) ==>
            WriteAt(page, pos, s)[a..b] == page[a..b]
  {
    var w := WriteAt(page, pos, s);
    forall i | 0 <= i < PAGE_SIZE && (i < pos || pos + |s| <= i) ensures w[i] == page[i] {
      if i >= pos + |s| { assert w[i] == page[pos + |s|..][i - pos - |s|]; }
    }
    forall a, b | 0 <= a <= b <= PAGE_SIZE && (b <= pos || pos + |s| <= a) ensures w[a..b] == page[a..b] {
      assert forall i :: a <= i < b ==> w[i] == page[i];
    }
  }

  /** A field is written most significant byte first and nothing else is touched. */
  lemma FieldBytes(page: Page, pos: nat, n: nat)
    ensures pos + 6 <= PAGE_SIZE ==> forall i :: 0 <= i < PAGE_SIZE ==>
      WritePRef(page, pos, n)[i] == if pos <= i < pos + 6 then n / Pow256(5 - (i - pos)) % 256 else page[i]
    ensures pos + 8 <= PAGE_SIZE && n < 0x1_0000_0000_0000_0000 ==> forall i :: 0 <= i < PAGE_SIZE ==>
      WriteU64(page, pos, n)[i] == if pos <= i < pos + 8 then n / Pow256(7 - (i - pos)) % 256 else page[i]
  {
    hide BigEndian, Pow256;
    forall i | 0 <= i < 6 ensures BigEndian(n, 6)[i] == n / Pow256(5 - i) % 256 { BigEndianAt(n, 6, i); }
    forall i | 0 <= i < 8 ensures BigEndian(n, 8)[i] == n / Pow256(7 - i) % 256 { BigEndianAt(n, 8, i); }
  }

  lemma PRefReadBack(page: Page, pos: nat, p: PRef)
    requires pos + 6 <= PAGE_SIZE && p <= INVALID
    ensures ReadPRef(WritePRef(page, pos, p), pos) == p
    ensures forall q :: 0 <= q && q + 6 <= PAGE_SIZE && (q + 6 <= pos || pos + 6 <= q) ==>
              ReadPRef(WritePRef(page, pos, p), q) == ReadPRef(page, q)
    ensures forall q :: 0 <= q && q + 8 <= PAGE_SIZE && (q + 8 <= pos || pos + 6 <= q) ==>
              ReadU64(WritePRef(page, pos, p), q) == ReadU64(page, q)
  {
    WriteAtLocal(page, pos, BigEndian(p, 6));
    ReadBack48(p);
  }

  lemma U64ReadBack(page: Page, pos: nat, n: u64)
    requires pos + 8 <= PAGE_SIZE
    ensures ReadU64(WriteU64(page, pos, n), pos) == n
    ensures forall q :: 0 <= q && q + 6 <= PAGE_SIZE && (q + 6 <= pos || pos + 8 <= q) ==>
              ReadPRef(WriteU64(page, pos, n), q) == ReadPRef(page, q)
    ensures forall q :: 0 <= q && q + 8 <= PAGE_SIZE && (q + 8 <= pos || pos + 8 <= q) ==>
              ReadU64(WriteU64(page, pos, n), q) == ReadU64(page, q)
  {
    WriteAtLocal(page, pos, BigEndian(n, 8));
    Widths();
    ValueOfBigEndian(n, 8);
  }

  // ---------------------------------------------------------------- payloads

  datatype Payload = Indexed(key: Bytes, data: Bytes) | Referred(data: Bytes) | Link(links: Bytes)

  /** The lengths a payload may have for its serialization not to panic. */
  predicate Encodable(p: Payload)
  {
    match p
    case Indexed(key, data) => |key| < 256 && |data| < 0x100_0000
    case Referred(data) => |data| < 0x100_0000
    case Link(_) => true
  }

  function SerializeData(data: Bytes): Bytes { BigEndian(|data|, 3) + data }

  function Serialize(p: Payload): (r: Bytes)
    ensures |r| > 0
  {
    match p
    case Indexed(key, data) => [0, |key| % 256] + key + SerializeData(data)
    case Referred(data) => [1] + SerializeData(data)
    case Link(links) => [2] + links
  }

  /** Byte by byte: the kind, the length of a key and the key, the length of the data and the data. */
  lemma PayloadBytes(p: Payload)
    requires Encodable(p)
    ensures var s := Serialize(p);
      match p
      case Indexed(key, data) =>
        var k := |key|;
        && |s| == 5 + k + |data| && s[0] == 0 && s[1] == k && s[2..2 + k] == key && s[5 + k..] == data
        && s[2 + k] == |data| / 0x1_0000 && s[3 + k] == |data| / 0x100 % 256 && s[4 + k] == |data| % 256
      case Referred(data) =>
        && |s| == 4 + |data| && s[0] == 1 && s[4..] == data
        && s[1] == |data| / 0x1_0000 && s[2] == |data| / 0x100 % 256 && s[3] == |data| % 256
      case Link(links) => s[0] == 2 && s[1..] == links
  {
    hide BigEndian;
    match p
    case Indexed(key, data) => BytesInOrder(|data|);
    case Referred(data) => BytesInOrder(|data|);
    case Link(links) =>
  }

  function DeserializeData(s: Bytes): Result<Bytes>
  {
    if |s| < 3 then Err(Panic)
    else var n := Value(s[0..3]);
         if |s| < 3 + n then Err(Panic) else Ok(s[3..3 + n])
  }

  function Deserialize(s: Bytes): Result<Payload>
  {
    if |s| == 0 then Err(Panic)
    else if s[0] == 0 then
      if |s| < 2 then Err(Panic)
      else var keyEnd: nat := 2 + s[1] as int;
           if |s| < keyEnd then Err(Panic)
           else var data :- DeserializeData(s[keyEnd..]);
                Ok(Indexed(s[2..keyEnd], data))
    else if s[0] == 1 then
      var data :- DeserializeData(s[1..]);
      Ok(Referred(data))
    else if s[0] == 2 then Ok(Link(s[1..]))
    else Err(Corrupted)
  }

  lemma DataRoundTrip(data: Bytes)
    requires |data| < 0x100_0000
    ensures DeserializeData(SerializeData(data)) == Ok(data)
  {
    ReadBack24(|data|);
    var s := SerializeData(data);
    assert s[0..3] == BigEndian(|data|, 3);
    assert s[3..3 + |data|] == data;
  }

  lemma PayloadRoundTrip(p: Payload)
    requires Encodable(p)
    ensures Deserialize(Serialize(p)) == Ok(p)
  {
    var s := Serialize(p);
    match p
    case Indexed(key, data) =>
      DataRoundTrip(data);
      assert s[2..2 + |key|] == key;
      assert s[2 + |key|..] == SerializeData(data);
    case Referred(data) =>
      DataRoundTrip(data);
      assert s[1..] == SerializeData(data);
    case Link(links) =>
      assert s[1..] == links;
  }

  /** What follows a payload with its own length does not matter. */
  lemma PayloadInFront(p: Payload, rest: Bytes)
    requires Encodable(p) && !p.Link?
    ensures Deserialize(Serialize(p) + rest) == Ok(p)
  {
    hide SerializeData, DeserializeData, Serialize, Deserialize;
    match p
    case Indexed(key, data) => IndexedInFront(key, data, rest);
    case Referred(data) => ReferredInFront(data, rest);
  }

  lemma IndexedInFront(key: Bytes, data: Bytes, rest: Bytes)
    requires Encodable(Indexed(key, data))
    ensures Deserialize(Serialize(Indexed(key, data)) + rest) == Ok(Indexed(key, data))
  {
    hide SerializeData, DeserializeData;
    DataInFront(data, rest);
    var tail := SerializeData(data) + rest;
    ThreeParts([0, |key|], key, tail);
    assert Serialize(Indexed(key, data)) + rest == [0, |key|] + key + tail;
  }

  lemma ReferredInFront(data: Bytes, rest: Bytes)
    requires Encodable(Referred(data))
    ensures Deserialize(Serialize(Referred(data)) + rest) == Ok(Referred(data))
  {
    hide SerializeData, DeserializeData;
    DataInFront(data, rest);
    var s := Serialize(Referred(data)) + rest;
    assert s == [1] + (SerializeData(data) + rest);
    assert s[1..] == SerializeData(data) + rest;
  }

  lemma ThreeParts(a: Bytes, b: Bytes, c: Bytes)
    ensures var s := a + b + c; s[|a|..|a| + |b|] == b && s[|a| + |b|..] == c
    ensures forall i :: 0 <= i < |a| ==> (a + b + c)[i] == a[i]
  {
  }

  lemma DataInFront(data: Bytes, rest: Bytes)
    requires |data| < 0x100_0000
    ensures DeserializeData(SerializeData(data) + rest) == Ok(data)
  {
    hide BigEndian, Value;
    ReadBack24(|data|);
    var s := SerializeData(data) + rest;
    assert s[0..3] == BigEndian(|data|, 3);
    assert s[3..3 + |data|] == data;
  }

  /** Other kinds are refused. */
  lemma UnknownKind(s: Bytes)
    ensures s != [] && s[0] > 2 ==> Deserialize(s) == Err(Corrupted)
    ensures s == [] ==> Deserialize(s) == Err(Panic)
  {
  }

  lemma DataParsed(s: Bytes)
    requires DeserializeData(s).Ok?
    ensures |DeserializeData(s).value| < 0x100_0000
    ensures SerializeData(DeserializeData(s).value) <= s
  {
    var n := Value(s[0..3]);
    BigEndianOfValue(s[0..3]);
    Widths();
    assert s == s[0..3] + s[3..3 + n] + s[3 + n..];
  }

  lemma PrefixAfter(head: Bytes, a: Bytes, b: Bytes)
    requires a <= b
    ensures head + a <= head + b
  {
    assert b == a + b[|a|..];
    assert head + b == head + a + b[|a|..];
  }

  /** Whatever parses was written by `Serialize`: its serialization starts the input. */
  lemma PayloadParsed(s: Bytes)
    requires Deserialize(s).Ok?
    ensures Encodable(Deserialize(s).value) && Serialize(Deserialize(s).value) <= s
  {
    hide Value, BigEndian, DeserializeData, SerializeData;
    if s[0] == 0 {
      var keyEnd: nat := 2 + s[1] as int;
      DataParsed(s[keyEnd..]);
      PrefixAfter([0, s[1]] + s[2..keyEnd], SerializeData(Deserialize(s).value.data), s[keyEnd..]);
      assert s == [0, s[1]] + s[2..keyEnd] + s[keyEnd..];
    } else if s[0] == 1 {
      DataParsed(s[1..]);
      PrefixAfter([1], SerializeData(Deserialize(s).value.data), s[1..]);
      assert s == [1] + s[1..];
    } else {
      assert s == [2] + s[1..];
    }
  }

  // ---------------------------------------------------------------- envelopes in a byte stream

  function Enveloped(payload: Bytes): Bytes { BigEndian(|payload|, 3) + payload }

  lemma EnvelopeBytes(payload: Bytes)
    requires |payload| < 0x100_0000
    ensures var s := Enveloped(payload);
      && |s| == 3 + |payload| && s[0] == |payload| / 0x1_0000 && s[1] == |payload| / 0x100 % 256
      && s[2] == |payload| % 256 && s[3..] == payload
  {
    hide BigEndian;
    BytesInOrder(|payload|);
  }

  /** An envelope with this payload begins at `p`. */
  predicate EnvelopeAt(stream: Bytes, p: nat, payload: Bytes)
  {
    && |payload| < 0x100_0000
    && p + 3 + |payload| <= |stream|
    && stream[p..p + 3] == BigEndian(|payload|, 3)
    && stream[p + 3..p + 3 + |payload|] == payload
  }

  lemma EnvelopeAppended(stream: Bytes, payload: Bytes)
    requires |payload| < 0x100_0000
    ensures EnvelopeAt(stream + Enveloped(payload), |stream|, payload)
  {
    var s := stream + Enveloped(payload);
    assert s[|stream|..|stream| + 3] == BigEndian(|payload|, 3);
  }

  /** Envelopes are never disturbed by what is appended after them. */
  lemma EnvelopeStays(stream: Bytes, longer: Bytes, p: nat, payload: Bytes)
    requires EnvelopeAt(stream, p, payload) && stream <= longer
    ensures EnvelopeAt(longer, p, payload)
  {
    assert longer[..|stream|] == stream;
    assert longer[p..p + 3] == stream[p..p + 3];
    assert longer[p + 3..p + 3 + |payload|] == stream[p + 3..p + 3 + |payload|];
  }

  // ---------------------------------------------------------------- link slots

  function SlotBytes(slot: Slot): (r: Bytes)
    ensures |r| == 10
  {
    BigEndian(slot.hash, 4) + BigEndian(slot.pref, 6)
  }

  function SlotsBytes(slots: seq<Slot>): (r: Bytes)
    ensures |r| == 10 * |slots|
  {
    if slots == [] then [] else SlotsBytes(slots[..|slots| - 1]) + SlotBytes(slots[|slots| - 1])
  }

  function ParseSlot(s: Bytes): Slot
    requires |s| == 10
  {
    BigEndianOfValue(s[..4]);
    Widths();
    Slot(Value(s[..4]), Value(s[4..]))
  }

  function ParseSlots(links: Bytes): (r: seq<Slot>)
    ensures |r| == |links| / 10
  {
    seq(|links| / 10, i requires 0 <= i < |links| / 10 => ParseSlot(links[10 * i..10 * i + 10]))
  }

  predicate Narrow(slots: seq<Slot>) { forall i :: 0 <= i < |slots| ==> slots[i].pref <= INVALID }

  lemma SlotRoundTrip(slot: Slot)
    requires slot.pref <= INVALID
    ensures ParseSlot(SlotBytes(slot)) == slot
  {
    Widths();
    ValueOfBigEndian(slot.hash, 4);
    ReadBack48(slot.pref);
    assert SlotBytes(slot)[..4] == BigEndian(slot.hash, 4);
    assert SlotBytes(slot)[4..] == BigEndian(slot.pref, 6);
  }

  lemma SlotsBytesLast(slots: seq<Slot>)
    requires slots != []
    ensures SlotsBytes(slots) == SlotsBytes(slots[..|slots| - 1]) + SlotBytes(slots[|slots| - 1])
  {
  }

  lemma SliceInFront(a: Bytes, b: Bytes, i: nat, j: nat)
    requires i <= j <= |a|
    ensures (a + b)[i..j] == a[i..j]
  {
  }

  lemma SliceBehind(a: Bytes, b: Bytes)
    ensures (a + b)[|a|..|a| + |b|] == b
  {
  }

  lemma {:induction false} SlotsBytesAt(slots: seq<Slot>, i: nat)
    requires i < |slots|
    ensures SlotsBytes(slots)[10 * i..10 * i + 10] == SlotBytes(slots[i])
  {
    hide SlotsBytes, SlotBytes;
    var last := |slots| - 1;
    var front := SlotsBytes(slots[..last]);
    SlotsBytesLast(slots);
    if i < last {
      SlotsBytesAt(slots[..last], i);
      SliceInFront(front, SlotBytes(slots[last]), 10 * i, 10 * i + 10);
    } else {
      SliceBehind(front, SlotBytes(slots[last]));
    }
  }

  /** Four bytes of the hash and six of the reference, slot by slot. */
  lemma SlotsBytesInOrder(slots: seq<Slot>, i: nat)
    requires i < |slots| && slots[i].pref <= INVALID
    ensures var s, h, p := SlotsBytes(slots)[10 * i..10 * i + 10], slots[i].hash, slots[i].pref;
      && s[0] == h / 0x100_0000 && s[1] == h / 0x1_0000 % 256 && s[2] == h / 0x100 % 256 && s[3] == h % 256
      && s[4] == p / 0x100_0000_0000 && s[5] == p / 0x1_0000_0000 % 256 && s[6] == p / 0x100_0000 % 256
      && s[7] == p / 0x1_0000 % 256 && s[8] == p / 0x100 % 256 && s[9] == p % 256
  {
    hide SlotBytes, SlotsBytes;
    SlotsBytesAt(slots, i);
    SlotBytesInOrder(slots[i]);
  }

  lemma SlotBytesInOrder(slot: Slot)
    requires slot.pref <= INVALID
    ensures var s, h, p := SlotBytes(slot), slot.hash, slot.pref;
      && s[0] == h / 0x100_0000 && s[1] == h / 0x1_0000 % 256 && s[2] == h / 0x100 % 256 && s[3] == h % 256
      && s[4] == p / 0x100_0000_0000 && s[5] == p / 0x1_0000_0000 % 256 && s[6] == p / 0x100_0000 % 256
      && s[7] == p / 0x1_0000 % 256 && s[8] == p / 0x100 % 256 && s[9] == p % 256
  {
    hide BigEndian;
    BytesInOrder(slot.hash);
    BytesInOrder(slot.pref);
  }

  lemma SlotsRoundTrip(slots: seq<Slot>)
    requires Narrow(slots)
    ensures ParseSlots(SlotsBytes(slots)) == slots
  {
    forall i | 0 <= i < |slots| ensures ParseSlots(SlotsBytes(slots))[i] == slots[i] {
      SlotsBytesAt(slots, i);
      SlotRoundTrip(slots[i]);
    }
  }

  /** `Link::from_slots`: fills a zeroed buffer in place, ten bytes a slot. */
  method FromSlots(slots: seq<Slot>) returns (links: Bytes)
    requires Narrow(slots)
    ensures links == SlotsBytes(slots)
    ensures ParseSlots(links) == slots
  {
    var buf := new byte[10 * |slots|](i => 0);
    for i := 0 to |slots|
      invariant buf[..10 * i] == SlotsBytes(slots[..i])
    {
      var b := SlotBytes(slots[i]);
      ghost var before := buf[..10 * i];
      forall j | 0 <= j < 10 { buf[10 * i + j] := b[j]; }
      assert buf[..10 * i] == before;
      assert buf[10 * i..10 * (i + 1)] == b;
      assert buf[..10 * (i + 1)] == buf[..10 * i] + buf[10 * i..10 * (i + 1)];
      assert slots[..i + 1][..i] == slots[..i];
    }
    links := buf[..];
    assert slots[..|slots|] == slots;
    assert buf[..10 * |slots|] == buf[..];
    SlotsRoundTrip(slots);
  }

  /** `Link::slots`: reads the slots back one by one; a trailing partial slot is ignored. */
  method ReadSlots(links: Bytes) returns (slots: seq<Slot>)
    ensures slots == ParseSlots(links)
  {
    slots := [];
    for i := 0 to |links| / 10
      invariant slots == ParseSlots(links)[..i]
    {
      var s := links[10 * i..10 * i + 10];
      slots := slots + [ParseSlot(s)];
    }
  }
}
