/** Byte strings, pages, persistent references and result types shared by the whole store. */
module Types {
  type byte = b: int | 0 <= b < 256
  type Bytes = seq<byte>

  const PAGE_SIZE := 4096
  const PAGE_PAYLOAD_SIZE := 4090

  type Page = p: Bytes | |p| == PAGE_SIZE witness seq(PAGE_SIZE, i => 0)

  /** A position in a file of at most 2^48 bytes; the largest 48-bit number means "no position". */
  type PRef = nat
  const INVALID: nat := 0xffff_ffff_ffff

  type u32 = x: int | 0 <= x < 0x1_0000_0000
  type u64 = x: int | 0 <= x < 0x1_0000_0000_0000_0000

  datatype Option<+T> = None | Some(value: T)

  /** `Panic` stands for a failed run-time check of a debug build: an oversized
      big-endian write, a slice out of range, a reference reaching `INVALID`. */
  datatype Error = Corrupted | KeyTooLong | UnexpectedEof | Panic

  datatype Result<+T> = Ok(value: T) | Err(error: Error) {
    predicate IsFailure() { Err? }
    function PropagateFailure<U>(): Result<U> requires Err? { Err(error) }
    function Extract(): T requires Ok? { value }
  }

  /** One entry of a hash bucket: the hash of a key and where its data lies. */
  datatype Slot = Slot(hash: u32, pref: PRef)

  function PageNumber(p: PRef): nat { p / PAGE_SIZE }
  function ThisPage(p: PRef): PRef { p / PAGE_SIZE * PAGE_SIZE }
  function InPagePos(p: PRef): nat { p % PAGE_SIZE }
  predicate IsValid(p: PRef) { p < INVALID }

  function Max(a: nat, b: nat): nat { if a < b then b else a }

  lemma SliceOfSlice<T>(s: seq<T>, a: nat, b: nat, c: nat, d: nat)
    requires a <= b <= |s| && c <= d <= b - a
    ensures s[a..b][c..d] == s[a + c..a + d]
  {
    forall i | 0 <= i < d - c ensures s[a..b][c..d][i] == s[a + c..a + d][i] {
      assert s[a..b][c + i] == s[a + c + i];
    }
  }

  lemma {:induction false} SubsetSize<T>(a: set<T>, b: set<T>)
    requires a <= b
    ensures |a| <= |b|
  {
    if a != {} {
      var x :| x in a;
      SubsetSize(a - {x}, b - {x});
    }
  }

  function ZeroPage(): Page { seq(PAGE_SIZE, i => 0) }
}
