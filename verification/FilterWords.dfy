/** The words of a Bloom filter and the mask test on them,
    include/luthier/Object/ELFObjectFileUtils.h:258-265. */
module FilterWords {

  /** `1 << n`, by doubling. */
  function Mask(n: nat): bv64
    requires n < 64
  {
    if n == 0 then 1 else Mask(n - 1) << 1
  }

  predicate Contains(w: bv64, m: bv64) {
    w & m == m
  }

  /** The mask test of the code. */
  predicate PassesWord(w: bv64, a: bv64, b: bv64) {
    Contains(w, a | b)
  }

  /** The mask test lets a word through when both masks are in it, */
  lemma BothBitsPass(w: bv64, a: bv64, b: bv64)
    requires Contains(w, a) && Contains(w, b)
    ensures PassesWord(w, a, b)
  {
  }

  /** and only then. */
  lemma OnlyBothPass(w: bv64, a: bv64, b: bv64)
    requires PassesWord(w, a, b)
    ensures Contains(w, a) && Contains(w, b)
  {
  }

  // ----- the bits that a linker sets -----

  /** `m` moved left by `n` places, one at a time. */
  function Moved(m: bv64, n: nat): bv64
    decreases n
  {
    if n == 0 then m else Moved(m << 1, n - 1)
  }

  /** Bit `n` of a filter word. */
  predicate IsSet(w: bv64, n: nat) {
    Contains(w, Moved(1, n))
  }

  lemma {:induction false} MovedLast(m: bv64, n: nat)
    requires n > 0
    ensures Moved(m, n) == Moved(m, n - 1) << 1
    decreases n
  {
    if n > 1 { MovedLast(m << 1, n - 1); }
  }

  lemma MaskStep(n: nat, k: bv64)
    requires 0 < n < 64 && Mask(n - 1) == k
    ensures Mask(n) == k << 1
  {
  }

  lemma MovedStep(n: nat, k: bv64)
    requires 0 < n < 64 && Moved(1, n - 1) == k
    ensures Moved(1, n) == k << 1
  {
    MovedLast(1, n);
  }

  lemma {:induction false} MaskIsMoved(n: nat) returns (k: bv64)
    requires n < 64
    ensures Mask(n) == k && Moved(1, n) == k
  {
    k := 1;
    if n > 0 {
      k := MaskIsMoved(n - 1);
      MaskStep(n, k);
      MovedStep(n, k);
      k := k << 1;
    }
  }

  lemma BitsPass(w: bv64, m: nat, n: nat)
    requires m < 64 && n < 64 && IsSet(w, m) && IsSet(w, n)
    ensures PassesWord(w, Mask(m), Mask(n))
  {
    var a := MaskIsMoved(m);
    var b := MaskIsMoved(n);
    BothBitsPass(w, a, b);
  }

  lemma OnlyBitsPass(w: bv64, m: nat, n: nat)
    requires m < 64 && n < 64 && PassesWord(w, Mask(m), Mask(n))
    ensures IsSet(w, m) && IsSet(w, n)
  {
    var a := MaskIsMoved(m);
    var b := MaskIsMoved(n);
    OnlyBothPass(w, a, b);
  }

  lemma OrLeft(w: bv64, v: bv64, m: bv64)
    requires Contains(w, m)
    ensures Contains(w | v, m)
  {
  }

  lemma OrRight(w: bv64, v: bv64, m: bv64)
    requires Contains(v, m)
    ensures Contains(w | v, m)
  {
  }

  lemma BothIn(a: bv64, b: bv64)
    ensures Contains(a | b, a) && Contains(a | b, b)
  {
    OrLeft(a, b, a);
    OrRight(a, b, b);
  }

  /** A filter word over zero: what the hashes that belong to it contribute. */
  function Gathered(bitsOf: nat -> bv64, wordOf: nat -> nat, hs: seq<nat>, w: nat): bv64 {
    if hs == [] then 0
    else
      var h, rest := hs[|hs| - 1], Gathered(bitsOf, wordOf, hs[..|hs| - 1], w);
      if wordOf(h) == w then rest | bitsOf(h) else rest
  }

  lemma GatheredLast(bitsOf: nat -> bv64, wordOf: nat -> nat, hs: seq<nat>, w: nat, m: bv64)
    requires hs != [] && wordOf(hs[|hs| - 1]) == w && Contains(bitsOf(hs[|hs| - 1]), m)
    ensures Contains(Gathered(bitsOf, wordOf, hs, w), m)
  {
    OrRight(Gathered(bitsOf, wordOf, hs[..|hs| - 1], w), bitsOf(hs[|hs| - 1]), m);
  }

  lemma GatheredMore(bitsOf: nat -> bv64, wordOf: nat -> nat, hs: seq<nat>, w: nat, m: bv64)
    requires hs != [] && Contains(Gathered(bitsOf, wordOf, hs[..|hs| - 1], w), m)
    ensures Contains(Gathered(bitsOf, wordOf, hs, w), m)
  {
    OrLeft(Gathered(bitsOf, wordOf, hs[..|hs| - 1], w), bitsOf(hs[|hs| - 1]), m);
  }

  /** The word of a hash holds what the hash contributes. */
  lemma {:induction false} GatheredHas(bitsOf: nat -> bv64, wordOf: nat -> nat, hs: seq<nat>, m: bv64, k: nat)
    requires k < |hs| && Contains(bitsOf(hs[k]), m)
    ensures Contains(Gathered(bitsOf, wordOf, hs, wordOf(hs[k])), m)
  {
    if k == |hs| - 1 {
      GatheredLast(bitsOf, wordOf, hs, wordOf(hs[k]), m);
    } else {
      assert hs[..|hs| - 1][k] == hs[k];
      GatheredHas(bitsOf, wordOf, hs[..|hs| - 1], m, k);
      GatheredMore(bitsOf, wordOf, hs, wordOf(hs[k]), m);
    }
  }
}
