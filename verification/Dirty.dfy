/** The bitmap of modified buckets, in words of 64 bits. */
module DirtyBits {
  type Word = w: seq<bool> | |w| == 64 witness seq(64, i => false)

  function ZeroWord(): Word { seq(64, i => false) }
  function OneWord(): Word { seq(64, i => i == 0) }

  class Dirty {
    var bits: seq<Word>
    var used: nat
    /** The positions whose bit is set. */
    ghost var marks: set<nat>

    /** Position `used` is always inside the bitmap. */
    ghost predicate Valid()
      reads this
    {
      && used < 64 * |bits|
      && (forall i :: i in marks <==> 0 <= i < 64 * |bits| && bits[i / 64][i % 64])
    }

    constructor (n: nat)
      ensures Valid() && used == n && marks == {}
    {
      bits, used, marks := seq(n / 64 + 1, i => ZeroWord()), n, {};
    }

    /** Starts over with `n` clean positions. */
    method Renew(n: nat)
      modifies this
      ensures Valid() && used == n && marks == {}
    {
      bits, used, marks := seq(n / 64 + 1, i => ZeroWord()), n, {};
    }

    method Set(n: nat)
      requires Valid() && n <= used
      modifies this`bits, this`marks
      ensures Valid() && marks == old(marks) + {n}
    {
      bits := bits[n / 64 := bits[n / 64][n % 64 := true]];
      marks := marks + {n};
      forall i | 0 <= i < 64 * |bits| ensures i in marks <==> bits[i / 64][i % 64] {
        if i != n { assert i / 64 != n / 64 || i % 64 != n % 64; }
      }
    }

    method Get(n: nat) returns (r: bool)
      requires Valid() && n <= used
      ensures r <==> n in marks
    {
      r := bits[n / 64][n % 64];
    }

    method Clear()
      requires Valid()
      modifies this`bits, this`marks
      ensures Valid() && marks == {}
    {
      var k := 0;
      while k < |bits|
        invariant k <= |bits| == |old(bits)|
        invariant forall j :: 0 <= j < k ==> bits[j] == ZeroWord()
      {
        bits := bits[k := ZeroWord()];
        k := k + 1;
      }
      marks := {};
    }

    method IsDirty() returns (r: bool)
      requires Valid()
      ensures r <==> marks != {}
    {
      for k := 0 to |bits|
        invariant forall i :: 0 <= i < 64 * k ==> !bits[i / 64][i % 64]
      {
        if bits[k] != ZeroWord() {
          ghost var j :| 0 <= j < 64 && bits[k][j];
          assert (64 * k + j) / 64 == k && (64 * k + j) % 64 == j;
          assert 64 * k + j in marks;
          return true;
        }
      }
      assert forall i :: i !in marks;
      r := false;
    }

    /** Makes room for one more position and marks the one behind it. */
    method Append()
      requires Valid()
      modifies this
      ensures Valid() && used == old(used) + 1 && marks == old(marks) + {used}
    {
      used := used + 1;
      if used >= 64 * |bits| {
        bits := bits + [OneWord()];
        marks := marks + {used};
      } else {
        Set(used);
      }
    }
  }
}
