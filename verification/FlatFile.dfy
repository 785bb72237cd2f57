/** The plain file that caching and splitting into chunks must not be told apart from. */
module FlatFiles {
  import opened Types
  import opened Codec

  /** Writing a page at a position; a gap before it reads as zero pages. */
  function WriteFlat(file: seq<Page>, k: nat, page: Page): (r: seq<Page>)
    ensures |r| == if k < |file| then |file| else k + 1
  {
    if k < |file| then file[k := page] else file + seq(k - |file|, i => ZeroPage()) + [page]
  }

  /** What the layers below the appender are asked to do. */
  datatype PageOp = Read(pref: PRef) | Append(page: Page) | Update(page: Page) | Truncate(len: nat) | Flush

  function PlainNext(file: seq<Page>, op: PageOp): seq<Page>
  {
    match op
    case Append(page) => file + [page]
    case Update(page) => WriteFlat(file, PageNumber(PageSelf(page)), page)
    case Truncate(len) => if PageNumber(len) <= |file| then file[..PageNumber(len)] else file
    case Read(_) => file
    case Flush => file
  }

  function Plain(file: seq<Page>, ops: seq<PageOp>): seq<Page>
  {
    if ops == [] then file else PlainNext(Plain(file, ops[..|ops| - 1]), ops[|ops| - 1])
  }

  lemma PlainPush(file: seq<Page>, ops: seq<PageOp>, op: PageOp)
    ensures Plain(file, ops + [op]) == PlainNext(Plain(file, ops), op)
  {
    assert (ops + [op])[..|ops|] == ops;
  }
}
