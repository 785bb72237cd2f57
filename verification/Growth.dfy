/** Linear hashing: how `step` and `log_mod` grow and which bucket a hash belongs to. */
module Growth {
  const INIT_BUCKETS := 512
  const INIT_LOGMOD := 8

  function Pow2(n: nat): (r: nat)
    ensures r > 0
  {
    if n == 0 then 1 else 2 * Pow2(n - 1)
  }

  function BucketFor(logMod: nat, step: nat, hash: nat): nat
  {
    var bucket := hash % Pow2(logMod);
    if bucket < step then hash % Pow2(logMod + 1) else bucket
  }

  /** The growth parameters: `logMod`, `step` and the number of buckets. */
  datatype Params = Params(logMod: nat, step: nat, buckets: nat) {
    ghost predicate Sound() {
      && INIT_LOGMOD <= logMod <= 30
      && step <= Pow2(logMod + 1)
      && buckets == Pow2(logMod + 1) + step + (logMod - INIT_LOGMOD)
    }

    /** Growth stops for good once `step` reaches 2^31. */
    predicate CanGrow() { step < 0x8000_0000 }

    function Grow(): Params {
      if step + 1 > Pow2(logMod + 1)
      then Params(logMod + 1, 0, buckets + 1)
      else Params(logMod, step + 1, buckets + 1)
    }
  }

  const FRESH := Params(INIT_LOGMOD, 0, INIT_BUCKETS)

  /** The parameters after `k` attempts to grow a fresh table. */
  function Grown(k: nat): Params
  {
    if k == 0 then FRESH
    else var g := Grown(k - 1); if g.CanGrow() then g.Grow() else g
  }

  // ---------------------------------------------------------------- powers of two

  lemma Pow2Values()
    ensures Pow2(8) == 256 && Pow2(9) == 512 && Pow2(10) == 1024
    ensures Pow2(30) == 0x4000_0000 && Pow2(31) == 0x8000_0000 && Pow2(32) == 0x1_0000_0000
  {
    assert Pow2(4) == 16;
    assert Pow2(8) == 256;
    assert Pow2(12) == 4096;
    assert Pow2(16) == 65536;
    assert Pow2(20) == 1048576;
    assert Pow2(24) == 16777216;
    assert Pow2(28) == 0x1000_0000;
  }

  lemma Pow2Step(n: nat)
    ensures Pow2(n + 1) == 2 * Pow2(n)
  {
  }

  lemma {:induction false} Pow2Monotone(a: nat, b: nat)
    requires a <= b
    ensures Pow2(a) <= Pow2(b)
    ensures a < b ==> 2 * Pow2(a) <= Pow2(b)
    decreases b - a
  {
    if a < b { Pow2Monotone(a, b - 1); }
  }

  lemma MulAtLeast(m: nat, x: int)
    requires x >= 1
    ensures m * x >= m
  {
  }

  lemma MulDistributes(m: int, a: int, b: int)
    ensures m * (a - b) == m * a - m * b
  {
  }

  lemma DivModUnique(h: nat, m: nat, q: nat, r: nat)
    requires m > 0 && r < m && h == m * q + r
    ensures h % m == r
  {
    var q' := h / m;
    var r' := h % m;
    assert h == m * q' + r' && 0 <= r' < m;
    MulDistributes(m, q, q');
    MulDistributes(m, q', q);
    if q' < q { MulAtLeast(m, q - q'); assert false; }
    if q' > q { MulAtLeast(m, q' - q); assert false; }
  }

  lemma DivMod(h: nat, n: nat)
    requires n > 0
    ensures h == n * (h / n) + h % n && 0 <= h % n < n && h / n >= 0
  {
  }

  /** A modulus twice as large either keeps the remainder or adds the old modulus to it. */
  lemma ModDouble(h: nat, m: nat, n: nat)
    requires m > 0 && n == 2 * m
    ensures h % n == h % m || h % n == h % m + m
  {
    DivMod(h, n);
    HalfModulus(h, m, n, h / n, h % n);
  }

  lemma HalfModulus(h: nat, m: nat, n: nat, q: nat, r: nat)
    requires m > 0 && n == 2 * m && h == n * q + r && r < n
    ensures h % m == if r < m then r else r - m
  {
    assert n * q == m * (2 * q);
    if r < m {
      DivModUnique(h, m, 2 * q, r);
    } else {
      assert m * (2 * q + 1) == m * (2 * q) + m;
      DivModUnique(h, m, 2 * q + 1, r - m);
    }
  }

  lemma HashSplits(logMod: nat, h: nat)
    ensures h % Pow2(logMod + 1) == h % Pow2(logMod) || h % Pow2(logMod + 1) == h % Pow2(logMod) + Pow2(logMod)
    ensures h % Pow2(logMod) < Pow2(logMod)
  {
    ModDouble(h, Pow2(logMod), Pow2(logMod + 1));
  }

  // ---------------------------------------------------------------- growth arithmetic

  lemma GrowKeepsSound(g: Params)
    requires g.Sound() && g.CanGrow()
    ensures g.Grow().Sound()
  {
    Pow2Values();
    Pow2Monotone(g.logMod + 1, 31);
  }

  lemma {:induction false} GrownIsSound(k: nat)
    ensures Grown(k).Sound()
  {
    Pow2Values();
    if k > 0 {
      GrownIsSound(k - 1);
      if Grown(k - 1).CanGrow() { GrowKeepsSound(Grown(k - 1)); }
    }
  }

  /** In numbers: the parameters after `k` growth steps of a new table, until growth stops at step 2^31. */
  lemma {:induction false} GrownInNumbers(k: nat)
    ensures var g := Grown(k);
      && 8 <= g.logMod <= 30 && g.step <= Pow2(g.logMod + 1) && g.buckets == Pow2(g.logMod + 1) + g.step + g.logMod - 8
      && (g.buckets == 512 + k || g.step == 0x8000_0000)
    ensures Grown(0) == Params(8, 0, 512)
  {
    hide Pow2;
    GrownIsSound(k);
    Pow2Values();
    Pow2Monotone(Grown(k).logMod + 1, 31);
    if k > 0 { GrownInNumbers(k - 1); }
  }

  /** In numbers: the remainder modulo 2^logMod if it has not been passed by `step`, otherwise that modulo
      2^(logMod+1). */
  lemma BucketInNumbers(logMod: nat, step: nat, hash: nat, q: nat, r: nat, q': nat, r': nat)
    requires hash == q * Pow2(logMod) + r && r < Pow2(logMod)
    requires hash == q' * (2 * Pow2(logMod)) + r' && r' < 2 * Pow2(logMod)
    ensures BucketFor(logMod, step, hash) == if r < step then r' else r
    ensures BucketFor(8, 0, hash) == hash % 256
  {
    hide Pow2;
    Pow2Step(logMod);
    Pow2Values();
    DivModUnique(hash, Pow2(logMod), q, r);
    DivModUnique(hash, 2 * Pow2(logMod), q', r');
  }

  /** Every sound parameter triple is the one reached after exactly `buckets - 512` growth steps. */
  lemma {:induction false} SoundIsGrown(g: Params)
    requires g.Sound()
    ensures g.buckets >= INIT_BUCKETS && Grown(g.buckets - INIT_BUCKETS) == g
    decreases g.buckets
  {
    hide Pow2;
    Pow2Monotone(9, g.logMod + 1);
    assert Pow2(9) == 512 by { Pow2Values(); }
    if g.step > 0 {
      var p := Params(g.logMod, g.step - 1, g.buckets - 1);
      assert p.CanGrow() by { Pow2Monotone(g.logMod + 1, 31); Pow2Values(); }
      SoundIsGrown(p);
    } else if g.logMod > INIT_LOGMOD {
      var p := Params(g.logMod - 1, Pow2(g.logMod), g.buckets - 1);
      Pow2Step(g.logMod);
      assert p.CanGrow() by { Pow2Monotone(g.logMod, 30); Pow2Values(); }
      SoundIsGrown(p);
    }
  }

  /** The reachable growth parameters are exactly the sound ones. */
  lemma ReachableIffSound(g: Params)
    ensures (exists k: nat :: Grown(k) == g) <==> g.Sound()
  {
    if g.Sound() { SoundIsGrown(g); }
    if k: nat :| Grown(k) == g { GrownIsSound(k); }
  }

  /** No access computed from sound parameters leaves the bucket vector, and every shift is by less than 32. */
  lemma BucketsInRange(g: Params, hash: nat)
    requires g.Sound()
    ensures BucketFor(g.logMod, g.step, hash) < g.buckets
    ensures g.step < Pow2(g.logMod) ==> g.step + Pow2(g.logMod) < g.buckets
    ensures 0 < 32 - g.logMod - 1 && 32 - g.logMod < 32
    ensures g.buckets <= 0x1_0000_0000 + 22
  {
    HashSplits(g.logMod, hash);
    Pow2Values();
    Pow2Monotone(g.logMod + 1, 31);
  }

  // ---------------------------------------------------------------- residency

  /** While `step` is below 2^logMod, advancing it re-homes only the hashes of bucket `step`. */
  lemma StepRehomes(logMod: nat, step: nat, hash: nat)
    requires step < Pow2(logMod)
    ensures BucketFor(logMod, step + 1, hash) ==
            if BucketFor(logMod, step, hash) == step then hash % Pow2(logMod + 1) else BucketFor(logMod, step, hash)
    ensures BucketFor(logMod, step, hash) == step ==>
              BucketFor(logMod, step + 1, hash) == step || BucketFor(logMod, step + 1, hash) == step + Pow2(logMod)
    ensures BucketFor(logMod, step, hash) != step + Pow2(logMod)
  {
    HashSplits(logMod, hash);
  }

  lemma LateStepRehomesNothing(logMod: nat, step: nat, hash: nat)
    requires Pow2(logMod) <= step
    ensures BucketFor(logMod, step, hash) == hash % Pow2(logMod + 1)
    ensures BucketFor(logMod, step + 1, hash) == BucketFor(logMod, step, hash)
    ensures step == Pow2(logMod + 1) ==> BucketFor(logMod + 1, 0, hash) == BucketFor(logMod, step, hash)
  {
    HashSplits(logMod, hash);
  }

  /** One growth step seen from a hash: it stays, or it moves from bucket `step` to `step + 2^logMod`. */
  lemma GrowRehomes(g: Params, hash: nat)
    requires g.Sound() && g.CanGrow()
    ensures var h := g.Grow();
            BucketFor(h.logMod, h.step, hash) ==
            if g.step < Pow2(g.logMod) && BucketFor(g.logMod, g.step, hash) == g.step
            then hash % Pow2(g.logMod + 1) else BucketFor(g.logMod, g.step, hash)
  {
  }

  // ---------------------------------------------------------------- reload

  /** The number of significant bits, `32 - leading_zeros`. */
  function BitLen(n: nat): nat
  {
    if n == 0 then 0 else 1 + BitLen(n / 2)
  }

  /** What `load` computes from the stored bucket count; negative stands for a failed subtraction. */
  function ReloadedLogMod(buckets: nat): int
  {
    BitLen(buckets % 0x1_0000_0000) - 2
  }

  lemma {:induction false} BitLenBounds(n: nat, k: nat)
    requires k > 0
    ensures BitLen(n) == k <==> Pow2(k - 1) <= n < Pow2(k)
  {
    if n == 0 {
    } else if k == 1 {
      if n > 1 { BitLenBounds(n / 2, 1); }
      assert BitLen(n) == 1 <==> BitLen(n / 2) == 0;
    } else {
      BitLenBounds(n / 2, k - 1);
    }
  }

  /** `load` restores `logMod` exactly when `step + logMod - 8 < 2^(logMod+1)`. */
  lemma ReloadExact(g: Params)
    requires g.Sound()
    ensures ReloadedLogMod(g.buckets) == g.logMod <==> g.step + g.logMod - INIT_LOGMOD < Pow2(g.logMod + 1)
  {
    hide Pow2, BitLen;
    Pow2Values();
    Pow2Step(g.logMod + 1);
    Pow2Monotone(g.logMod + 2, 32);
    if g.buckets < 0x1_0000_0000 {
      BitLenBounds(g.buckets, g.logMod + 2);
    } else {
      assert g.logMod == 30;
      BitLenBounds(g.buckets % 0x1_0000_0000, 32);
    }
  }

  /** Otherwise, if the count still fits 32 bits, `load` computes one too many. */
  lemma ReloadOffByOne(g: Params)
    requires g.Sound() && g.buckets < 0x1_0000_0000
    requires g.step + g.logMod - INIT_LOGMOD >= Pow2(g.logMod + 1)
    ensures ReloadedLogMod(g.buckets) == g.logMod + 1
  {
    hide Pow2, BitLen;
    Pow2Step(g.logMod + 1);
    Pow2Step(g.logMod + 2);
    Pow2Values();
    Pow2Monotone(8, g.logMod + 1);
    BitLenBounds(g.buckets, g.logMod + 3);
  }

  /** The mistake is reachable: a fresh table meets it after 512 growth steps. */
  lemma ReloadWitness()
    ensures exists g: Params :: g.Sound() && ReloadedLogMod(g.buckets) == g.logMod + 1
    ensures Grown(512) == Params(8, 512, 1024) && ReloadedLogMod(1024) == 9
  {
    Pow2Values();
    var g := Params(8, 512, 1024);
    SoundIsGrown(g);
    ReloadOffByOne(g);
  }

  /** With `logMod` one too large, exactly these hashes are looked for in the wrong bucket. */
  lemma MisplacedAfterReload(g: Params, hash: nat)
    requires g.Sound() && g.step + g.logMod - INIT_LOGMOD >= Pow2(g.logMod + 1)
    ensures BucketFor(g.logMod + 1, g.step, hash) != BucketFor(g.logMod, g.step, hash) <==>
            hash % Pow2(g.logMod + 1) < g.step && hash % Pow2(g.logMod + 2) >= Pow2(g.logMod + 1)
    ensures BucketFor(g.logMod + 1, g.step, hash) < g.buckets
  {
    Pow2Values();
    Pow2Monotone(5, g.logMod);
    assert Pow2(5) == 32;
    HashSplits(g.logMod, hash);
    HashSplits(g.logMod + 1, hash);
  }
}
