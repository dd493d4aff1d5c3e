/** Symbol lookup through a GNU hash section,
    include/luthier/Object/ELFObjectFileUtils.h:246-285. */
module GnuHash {
  import opened Common
  import opened ElfSymbols
  import opened FilterWords

  /** A DT_GNU_HASH table.  `filter`, `buckets` and `chain` are its three
      arrays, so `maskwords` is |filter| and `nbuckets` is |buckets|; `bits` is
      the width of a filter word. */
  datatype Table = Table(
    bits: nat, symndx: nat, shift2: nat, filter: seq<bv64>, buckets: seq<nat>, chain: seq<nat>)

  /** What the code takes for granted of a table: the arrays exist, the shift is
      defined, and a walk that passes the last symbol ends.  The first hashed
      symbol may lie past the symbol table; then nothing is found. */
  predicate Usable(t: Table, tab: SymTab) {
    && (t.bits == 32 || t.bits == 64) && t.shift2 < 32
    && t.filter != [] && t.buckets != []
    && (t.symndx <= |tab.syms| ==> |t.chain| == |tab.syms| - t.symndx)
    && (forall b :: 0 <= b < |t.buckets| ==> t.buckets[b] < WORDS)
    && (t.symndx >= 1 || |tab.syms| < WORDS)
  }

  function BucketOf(t: Table, h: nat): (b: nat)
    requires t.buckets != []
    ensures b < |t.buckets|
  {
    h % |t.buckets|
  }

  function ChainAt(t: Table, i: nat): nat
    requires t.symndx <= i < t.symndx + |t.chain|
  {
    t.chain[i - t.symndx]
  }

  /** `c & 1`: the chain word closes its chain. */
  predicate Ends(c: nat) {
    c % 2 == 1
  }

  /** `(h | 1) == (c | 1)`: the words agree in all bits but the lowest. */
  predicate SameHash(h: nat, c: nat) {
    h / 2 == c / 2
  }

  // ----- the Bloom filter -----

  function Pow2(n: nat): (p: nat)
    ensures p > 0
  {
    if n == 0 then 1 else 2 * Pow2(n - 1)
  }

  function FilterWord(t: Table, h: nat): bv64
    requires t.filter != [] && (t.bits == 32 || t.bits == 64)
  {
    t.filter[(h / t.bits) % |t.filter|]
  }

  function FirstBit(t: Table, h: nat): (n: nat)
    requires t.bits == 32 || t.bits == 64
    ensures n < 64
  {
    h % t.bits
  }

  function SecondBit(t: Table, h: nat): (n: nat)
    requires (t.bits == 32 || t.bits == 64) && t.shift2 < 32
    ensures n < 64
  {
    (h / Pow2(t.shift2)) % t.bits
  }

  predicate PassesFilter(t: Table, h: nat)
    requires (t.bits == 32 || t.bits == 64) && t.shift2 < 32 && t.filter != []
  {
    PassesWord(FilterWord(t, h), Mask(FirstBit(t, h)), Mask(SecondBit(t, h)))
  }

  // ----- the lookup -----

  /** `I + 1` in 32 bits. */
  function Next(i: nat): (n: nat)
    requires i < WORDS
    ensures n < WORDS && n == (i + 1) % WORDS
  {
    if i + 1 == WORDS then 0 else i + 1
  }

  /** The walk along the chain from index `i`, in 32-bit index arithmetic. */
  function Walk(t: Table, tab: SymTab, h: nat, name: string, i: nat): Lookup
    requires Usable(t, tab) && i < WORDS
    decreases if t.symndx <= i < |tab.syms| then WORDS - i else 0
  {
    if !(t.symndx <= i < |tab.syms|) then NotFound
    else if !SameHash(h, ChainAt(t, i)) then Walk(t, tab, h, name, Next(i))  // no test for the end of the chain
    else if NameOf(tab, i) == None then BadName(i)
    else if Named(tab, i, name) then Found(i)
    else if Ends(ChainAt(t, i)) then NotFound
    else Walk(t, tab, h, name, Next(i))
  }

  function GnuLookup(t: Table, tab: SymTab, hash: string -> nat, name: string): Lookup
    requires Usable(t, tab)
  {
    if !PassesFilter(t, hash(name)) then NotFound
    else Walk(t, tab, hash(name), name, t.buckets[BucketOf(t, hash(name))])
  }

  /** getSymbolFromGnuHashTable. */
  method GetSymbolFromGnuHashTable(t: Table, tab: SymTab, hash: string -> nat, name: string) returns (r: Lookup)
    requires Usable(t, tab)
    ensures r == GnuLookup(t, tab, hash, name)
  {
    var h := hash(name);
    if !PassesFilter(t, h) { return NotFound; }
    var i: nat := t.buckets[BucketOf(t, h)];
    while t.symndx <= i < |tab.syms|
      invariant i < WORDS
      invariant Walk(t, tab, h, name, i) == GnuLookup(t, tab, hash, name)
      decreases if t.symndx <= i < |tab.syms| then WORDS - i else 0
    {
      var c := ChainAt(t, i);
      if SameHash(h, c) {
        if tab.syms[i].name >= |tab.strings| { return BadName(i); }
        if CString(tab.strings[tab.syms[i].name..]) == name { return Found(i); }
        if Ends(c) { return NotFound; }
      }
      i := Next(i);
    }
    return NotFound;
  }

  // ----- correctness -----

  /** `h >> k`, one bit at a time. */
  function ShiftRight(h: nat, k: nat): nat {
    if k == 0 then h else ShiftRight(h / 2, k - 1)
  }

  lemma {:induction false} ShiftIs(h: nat, k: nat)
    ensures ShiftRight(h, k) == h / Pow2(k)
  {
    if k > 0 {
      ShiftIs(h / 2, k - 1);
      HalfThenDivide(h, Pow2(k - 1));
    }
  }

  lemma HalfThenDivide(h: nat, p: nat)
    requires p > 0
    ensures (h / 2) / p == h / (2 * p)
  {
    var q := (h / 2) / p;
    var r := (h / 2) % p;
    assert h / 2 == q * p + r;
    assert h == q * (2 * p) + (2 * r + h % 2);
    DivideIs(h, 2 * p, q, 2 * r + h % 2);
  }

  lemma DivideIs(h: nat, d: nat, q: nat, r: nat)
    requires d > 0 && h == q * d + r && r < d
    ensures h / d == q
  {
    var k := h / d;
    assert h == k * d + h % d;
    assert (q - k) * d == h % d - r;
    OnlyZero(q - k, d);
  }

  lemma OnlyZero(a: int, d: int)
    requires d > 0 && -d < a * d < d
    ensures a == 0
  {
  }

  /** The bucket of symbol `i` in a table of `nbuckets` buckets. */
  function Home(nbuckets: nat, tab: SymTab, hash: string -> nat, i: nat): nat
    requires nbuckets > 0 && i < |tab.syms| && NameOf(tab, i).Some?
  {
    hash(NameOf(tab, i).value) % nbuckets
  }

  /** The two bits of a hash are set in its filter word, */
  predicate HasBits(t: Table, h: nat)
    requires (t.bits == 32 || t.bits == 64) && t.filter != []
  {
    var word := t.filter[(h / t.bits) % |t.filter|];
    IsSet(word, h % t.bits) && IsSet(word, ShiftRight(h, t.shift2) % t.bits)
  }

  /** the bucket of symbol `i` names a symbol at or before it, with only symbols
      of the bucket in between, */
  ghost predicate InBucket(t: Table, tab: SymTab, hash: string -> nat, i: nat)
    requires t.buckets != [] && i < |tab.syms| && NamesReadable(tab)
  {
    var first, nb := t.buckets[hash(NameOf(tab, i).value) % |t.buckets|], |t.buckets|;
    && t.symndx <= first <= i
    && forall j :: first <= j <= i ==> Home(nb, tab, hash, j) == Home(nb, tab, hash, i)
  }

  /** and its chain word holds its hash, with a mark at the end of the bucket. */
  ghost predicate OnChain(t: Table, tab: SymTab, hash: string -> nat, i: nat)
    requires t.buckets != [] && t.symndx <= i < |tab.syms| && |t.chain| == |tab.syms| - t.symndx && NamesReadable(tab)
  {
    var c, nb := t.chain[i - t.symndx], |t.buckets|;
    && c / 2 == hash(NameOf(tab, i).value) / 2
    && (c % 2 == 1 <==> i + 1 == |tab.syms| || Home(nb, tab, hash, i + 1) != Home(nb, tab, hash, i))
  }

  /** What the ABI asks of a linker for symbol `i`. */
  ghost predicate Entered(t: Table, tab: SymTab, hash: string -> nat, i: nat)
    requires Usable(t, tab) && t.symndx <= i < |tab.syms| && NamesReadable(tab)
  {
    HasBits(t, hash(NameOf(tab, i).value)) && InBucket(t, tab, hash, i) && OnChain(t, tab, hash, i)
  }

  ghost predicate WellFormed(t: Table, tab: SymTab, hash: string -> nat) {
    && Usable(t, tab) && 1 <= t.symndx <= |tab.syms| <= WORDS && NamesReadable(tab)
    && forall i :: t.symndx <= i < |tab.syms| ==> Entered(t, tab, hash, i)
  }

  /** Between the start of the bucket and the first symbol with the name, the
      chain does not end and no symbol has the name. */
  lemma WalkGoesOn(t: Table, tab: SymTab, hash: string -> nat, name: string, i: nat, target: nat)
    requires WellFormed(t, tab, hash) && IsFirst(tab, t.symndx, target, name)
    requires t.buckets[BucketOf(t, hash(name))] <= i < target
    ensures t.symndx <= i < |tab.syms| && NameOf(tab, i).Some? && !Named(tab, i, name)
    ensures !Ends(ChainAt(t, i)) && Next(i) == i + 1
  {
    assert Entered(t, tab, hash, target);
    assert Entered(t, tab, hash, i);
    assert Home(|t.buckets|, tab, hash, i + 1) == Home(|t.buckets|, tab, hash, i);
  }

  /** From the start of the bucket, or from any later index before the symbol
      sought, the walk arrives at the first symbol with the name. */
  lemma {:induction false} WalkArrives(t: Table, tab: SymTab, hash: string -> nat, name: string, i: nat, target: nat)
    requires WellFormed(t, tab, hash) && IsFirst(tab, t.symndx, target, name)
    requires t.buckets[BucketOf(t, hash(name))] <= i <= target
    ensures Walk(t, tab, hash(name), name, i) == Found(target)
    decreases target - i
  {
    if i == target {
      assert Entered(t, tab, hash, target);
      assert SameHash(hash(name), ChainAt(t, target));
    } else {
      WalkGoesOn(t, tab, hash, name, i, target);
      WalkArrives(t, tab, hash, name, i + 1, target);
    }
  }

  /** In any usable table, a symbol that is found carries the name, and the walk
      never reads past the symbols. */
  lemma {:induction false} WalkSound(t: Table, tab: SymTab, h: nat, name: string, i: nat)
    requires Usable(t, tab) && i < WORDS
    ensures var r := Walk(t, tab, h, name, i);
            && !r.BadIndex?
            && (r.Found? ==> t.symndx <= r.index < |tab.syms| && Named(tab, r.index, name) && SameHash(h, ChainAt(t, r.index)))
            && (r.BadName? ==> t.symndx <= r.at < |tab.syms| && NameOf(tab, r.at) == None)
    decreases if t.symndx <= i < |tab.syms| then WORDS - i else 0
  {
    if t.symndx <= i < |tab.syms| {
      WalkSound(t, tab, h, name, Next(i));
    }
  }

  lemma LookupSound(t: Table, tab: SymTab, hash: string -> nat, name: string)
    requires Usable(t, tab)
    ensures var r := GnuLookup(t, tab, hash, name);
            && !r.BadIndex?
            && (r.Found? ==> t.symndx <= r.index < |tab.syms| && Named(tab, r.index, name))
            && (r.BadName? ==> t.symndx <= r.at < |tab.syms| && NameOf(tab, r.at) == None)
  {
    if PassesFilter(t, hash(name)) {
      WalkSound(t, tab, hash(name), name, t.buckets[BucketOf(t, hash(name))]);
    }
  }

  // ----- the lookup in any table -----

  /** The walk from `i` gets to `j`: the chain word there holds the hash but for its
      lowest bit, and it passes by everything on the way. */
  ghost predicate GetsTo(t: Table, tab: SymTab, h: nat, name: string, i: nat, j: nat)
    requires Usable(t, tab)
  {
    && t.symndx <= i <= j < |tab.syms| && j < WORDS && t.chain[j - t.symndx] / 2 == h / 2
    && forall k :: i <= k < j ==> PassesBy(t, tab, h, name, k)
  }

  lemma WalkPasses(t: Table, tab: SymTab, h: nat, name: string, i: nat)
    requires Usable(t, tab) && t.symndx <= i < |tab.syms| && i < WORDS
    ensures Walk(t, tab, h, name, i) ==
              if PassesBy(t, tab, h, name, i) then Walk(t, tab, h, name, Next(i))
              else if NameOf(tab, i) == None then BadName(i)
              else if Named(tab, i, name) then Found(i) else NotFound
  {
  }

  lemma {:induction false} WalkIff(t: Table, tab: SymTab, h: nat, name: string, i: nat, j: nat)
    requires Usable(t, tab) && i < WORDS
    ensures Walk(t, tab, h, name, i) == Found(j) <==> GetsTo(t, tab, h, name, i, j) && Named(tab, j, name)
    ensures Walk(t, tab, h, name, i) == BadName(j) <==> GetsTo(t, tab, h, name, i, j) && NameOf(tab, j) == None
    decreases if t.symndx <= i < |tab.syms| then WORDS - i else 0
  {
    if t.symndx <= i < |tab.syms| {
      WalkPasses(t, tab, h, name, i);
      if i < j { GetsOn(t, tab, h, name, i, j); }
      if PassesBy(t, tab, h, name, i) { WalkIff(t, tab, h, name, Next(i), j); }
    }
  }

  /** A matching word that the walk passes is of a symbol with another name and no end mark. */
  predicate PassesBy(t: Table, tab: SymTab, h: nat, name: string, k: nat)
    requires Usable(t, tab) && t.symndx <= k < |tab.syms|
  {
    t.chain[k - t.symndx] / 2 == h / 2 ==> NameOf(tab, k).Some? && !Named(tab, k, name) && t.chain[k - t.symndx] % 2 == 0
  }

  lemma GetsOn(t: Table, tab: SymTab, h: nat, name: string, i: nat, j: nat)
    requires Usable(t, tab) && t.symndx <= i < |tab.syms| && i < j
    ensures GetsTo(t, tab, h, name, i, j) <==> GetsTo(t, tab, h, name, i + 1, j) && PassesBy(t, tab, h, name, i)
  {
    if GetsTo(t, tab, h, name, i, j) {
      assert PassesBy(t, tab, h, name, i);
      forall k | i + 1 <= k < j ensures PassesBy(t, tab, h, name, k) {}
    } else if GetsTo(t, tab, h, name, i + 1, j) && PassesBy(t, tab, h, name, i) {
      forall k | i <= k < j ensures PassesBy(t, tab, h, name, k) {}
    }
  }

  lemma PassesIffBits(t: Table, h: nat)
    requires (t.bits == 32 || t.bits == 64) && t.shift2 < 32 && t.filter != []
    ensures PassesFilter(t, h) <==> HasBits(t, h)
  {
    ShiftIs(h, t.shift2);
    if HasBits(t, h) {
      BitsPass(FilterWord(t, h), FirstBit(t, h), SecondBit(t, h));
    } else if PassesFilter(t, h) {
      OnlyBitsPass(FilterWord(t, h), FirstBit(t, h), SecondBit(t, h));
    }
  }

  /** What the lookup answers over any usable table, well-formed or not: symbol `j`
      is found if and only if both bits of the hash are set in its filter word, the
      walk from its bucket gets to `j`, and `j` has the name; and `j` is reported
      if and only if its name cannot be read instead. */
  lemma LookupIff(t: Table, tab: SymTab, hash: string -> nat, name: string, j: nat)
    requires Usable(t, tab)
    ensures var h := hash(name);
            var reached := HasBits(t, h) && GetsTo(t, tab, h, name, t.buckets[h % |t.buckets|], j);
            && (GnuLookup(t, tab, hash, name) == Found(j) <==> reached && Named(tab, j, name))
            && (GnuLookup(t, tab, hash, name) == BadName(j) <==> reached && NameOf(tab, j) == None)
  {
    PassesIffBits(t, hash(name));
    WalkIff(t, tab, hash(name), name, t.buckets[BucketOf(t, hash(name))], j);
  }

  lemma EnteredPasses(t: Table, tab: SymTab, hash: string -> nat, i: nat)
    requires Usable(t, tab) && t.symndx <= i < |tab.syms| && NamesReadable(tab) && Entered(t, tab, hash, i)
    ensures PassesFilter(t, hash(NameOf(tab, i).value))
  {
    var h := hash(NameOf(tab, i).value);
    ShiftIs(h, t.shift2);
    BitsPass(FilterWord(t, h), FirstBit(t, h), SecondBit(t, h));
  }

  /** The lookup finds the first hashed symbol with the name, or nothing when no
      hashed symbol has it, although mismatching terminators do not stop it. */
  lemma GnuFindsFirst(t: Table, tab: SymTab, hash: string -> nat, name: string)
    requires WellFormed(t, tab, hash)
    ensures forall i :: GnuLookup(t, tab, hash, name) == Found(i) <==> IsFirst(tab, t.symndx, i, name)
    ensures GnuLookup(t, tab, hash, name) == NotFound <==> Absent(tab, t.symndx, name)
  {
    var h := hash(name);
    LookupSound(t, tab, hash, name);
    if !Absent(tab, t.symndx, name) {
      var target := FirstNamed(tab, t.symndx, name);
      assert Entered(t, tab, hash, target);
      EnteredPasses(t, tab, hash, target);
      WalkArrives(t, tab, hash, name, t.buckets[BucketOf(t, h)], target);
    }
  }

  lemma FirstNamed(tab: SymTab, from: nat, name: string) returns (i: nat)
    requires !Absent(tab, from, name)
    ensures IsFirst(tab, from, i, name)
  {
    i := from;
    while !Named(tab, i, name)
      invariant from <= i < |tab.syms|
      invariant forall j :: from <= j < i ==> !Named(tab, j, name)
      invariant !Absent(tab, from, name)
      decreases |tab.syms| - i
    {
      i := i + 1;
    }
  }

  // ----- the end of the chain -----

  /** The walk that tests every chain word for the end of the chain. */
  function StrictWalk(t: Table, tab: SymTab, h: nat, name: string, i: nat): Lookup
    requires Usable(t, tab) && i < WORDS
    decreases if t.symndx <= i < |tab.syms| then WORDS - i else 0
  {
    if !(t.symndx <= i < |tab.syms|) then NotFound
    else if SameHash(h, ChainAt(t, i)) && NameOf(tab, i) == None then BadName(i)
    else if SameHash(h, ChainAt(t, i)) && Named(tab, i, name) then Found(i)
    else if Ends(ChainAt(t, i)) then NotFound
    else StrictWalk(t, tab, h, name, Next(i))
  }

  lemma {:induction false} StrictArrives(t: Table, tab: SymTab, hash: string -> nat, name: string, i: nat, target: nat)
    requires WellFormed(t, tab, hash) && IsFirst(tab, t.symndx, target, name)
    requires t.buckets[BucketOf(t, hash(name))] <= i <= target
    ensures StrictWalk(t, tab, hash(name), name, i) == Found(target)
    decreases target - i
  {
    if i == target {
      assert Entered(t, tab, hash, target);
    } else {
      WalkGoesOn(t, tab, hash, name, i, target);
      StrictArrives(t, tab, hash, name, i + 1, target);
    }
  }

  lemma {:induction false} StrictSound(t: Table, tab: SymTab, h: nat, name: string, i: nat)
    requires Usable(t, tab) && i < WORDS && NamesReadable(tab)
    ensures var r := StrictWalk(t, tab, h, name, i);
            r == NotFound || (r.Found? && t.symndx <= r.index < |tab.syms| && Named(tab, r.index, name))
    decreases if t.symndx <= i < |tab.syms| then WORDS - i else 0
  {
    if t.symndx <= i < |tab.syms| {
      StrictSound(t, tab, h, name, Next(i));
    }
  }

  /** Leaving out the test for the end of the chain on a mismatch only makes the
      walk longer: over a well-formed table both walks end alike. */
  lemma LooseWalkIsStrict(t: Table, tab: SymTab, hash: string -> nat, name: string)
    requires WellFormed(t, tab, hash)
    ensures var i, h := t.buckets[BucketOf(t, hash(name))], hash(name);
            Walk(t, tab, h, name, i) == StrictWalk(t, tab, h, name, i)
  {
    var i, h := t.buckets[BucketOf(t, hash(name))], hash(name);
    if Absent(tab, t.symndx, name) {
      WalkSound(t, tab, h, name, i);
      StrictSound(t, tab, h, name, i);
    } else {
      var target := FirstNamed(tab, t.symndx, name);
      assert Entered(t, tab, hash, target);
      WalkArrives(t, tab, hash, name, i, target);
      StrictArrives(t, tab, hash, name, i, target);
    }
  }

  // ----- the tables that a linker emits -----

  /** How a table is laid out: the width and the number of its filter words, the
      second shift, and the number of its buckets. */
  datatype Layout = Layout(bits: nat, words: nat, shift2: nat, nbuckets: nat)

  predicate ValidLayout(y: Layout) {
    (y.bits == 32 || y.bits == 64) && y.words > 0 && y.shift2 < 32 && y.nbuckets > 0
  }

  /** The two bits of a hash. */
  function BitsOf(y: Layout, h: nat): bv64
    requires ValidLayout(y)
  {
    Moved(1, h % y.bits) | Moved(1, ShiftRight(h, y.shift2) % y.bits)
  }

  function WordOf(y: Layout, h: nat): nat
    requires ValidLayout(y)
  {
    (h / y.bits) % y.words
  }

  function EmitWord(y: Layout, hs: seq<nat>, w: nat): bv64
    requires ValidLayout(y)
  {
    Gathered((h: nat) => BitsOf(y, h), (h: nat) => WordOf(y, h), hs, w)
  }

  function Slots(y: Layout, hs: seq<nat>): seq<nat>
    requires ValidLayout(y)
  {
    seq<nat>(|hs|, k requires 0 <= k < |hs| => hs[k] % y.nbuckets)
  }

  /** The first place from `k` on that holds `b`, or the end. */
  function FirstIn(slots: seq<nat>, b: nat, k: nat): (r: nat)
    requires k <= |slots|
    ensures k <= r <= |slots| && (r < |slots| ==> slots[r] == b) && forall j :: k <= j < r ==> slots[j] != b
    decreases |slots| - k
  {
    if k == |slots| || slots[k] == b then k else FirstIn(slots, b, k + 1)
  }

  /** The bucket `b`: the first symbol that belongs to it, or 0. */
  function EmitBucket(slots: seq<nat>, symndx: nat, b: nat): nat {
    var k := FirstIn(slots, b, 0);
    if k < |slots| then symndx + k else 0
  }

  /** A chain word: the hash, with the lowest bit for the end of the bucket. */
  function EmitChain(hs: seq<nat>, slots: seq<nat>, k: nat): nat
    requires k < |hs| == |slots|
  {
    2 * (hs[k] / 2) + if k + 1 == |slots| || slots[k + 1] != slots[k] then 1 else 0
  }

  /** The table of symbols with these hashes, the first of which is symbol `symndx`. */
  function Emit(y: Layout, hs: seq<nat>, symndx: nat): Table
    requires ValidLayout(y)
  {
    var slots := Slots(y, hs);
    Table(y.bits, symndx, y.shift2,
          seq(y.words, w requires 0 <= w < y.words => EmitWord(y, hs, w)),
          seq<nat>(y.nbuckets, b requires 0 <= b < y.nbuckets => EmitBucket(slots, symndx, b)),
          seq<nat>(|hs|, k requires 0 <= k < |hs| => EmitChain(hs, slots, k)))
  }

  /** The linker sorts the hashed symbols by bucket. */
  ghost predicate Grouped(slots: seq<nat>) {
    forall i, j, k :: 0 <= i <= j <= k < |slots| && slots[i] == slots[k] ==> slots[j] == slots[i]
  }

  lemma EmittedMask(y: Layout, hs: seq<nat>, k: nat, m: bv64)
    requires ValidLayout(y) && k < |hs| && Contains(BitsOf(y, hs[k]), m)
    ensures Contains(EmitWord(y, hs, WordOf(y, hs[k])), m)
  {
    GatheredHas((h: nat) => BitsOf(y, h), (h: nat) => WordOf(y, h), hs, m, k);
  }

  lemma BitsAreIn(y: Layout, h: nat, a: bv64, b: bv64)
    requires ValidLayout(y) && a == Moved(1, h % y.bits) && b == Moved(1, ShiftRight(h, y.shift2) % y.bits)
    ensures Contains(BitsOf(y, h), a) && Contains(BitsOf(y, h), b)
  {
    BothIn(a, b);
  }

  lemma EmittedBits(y: Layout, hs: seq<nat>, k: nat)
    requires ValidLayout(y) && k < |hs|
    ensures var word := EmitWord(y, hs, WordOf(y, hs[k]));
            IsSet(word, hs[k] % y.bits) && IsSet(word, ShiftRight(hs[k], y.shift2) % y.bits)
  {
    var a, b := Moved(1, hs[k] % y.bits), Moved(1, ShiftRight(hs[k], y.shift2) % y.bits);
    BitsAreIn(y, hs[k], a, b);
    EmittedMask(y, hs, k, a);
    EmittedMask(y, hs, k, b);
  }

  /** The hashes of the symbols from `symndx` on. */
  function HashesOf(tab: SymTab, hash: string -> nat, symndx: nat): seq<nat>
    requires symndx <= |tab.syms| && NamesReadable(tab)
  {
    seq<nat>(|tab.syms| - symndx, k requires 0 <= k < |tab.syms| - symndx => hash(NameOf(tab, symndx + k).value))
  }

  lemma EmittedHasBits(y: Layout, hs: seq<nat>, symndx: nat, k: nat)
    requires ValidLayout(y) && k < |hs|
    ensures HasBits(Emit(y, hs, symndx), hs[k])
  {
    EmittedBits(y, hs, k);
    assert Emit(y, hs, symndx).filter[WordOf(y, hs[k])] == EmitWord(y, hs, WordOf(y, hs[k]));
  }

  /** The places of the symbols' buckets. */
  ghost predicate AreSlots(nb: nat, tab: SymTab, hash: string -> nat, symndx: nat, slots: seq<nat>)
    requires nb > 0 && symndx <= |tab.syms| && NamesReadable(tab)
  {
    |slots| == |tab.syms| - symndx && forall j :: symndx <= j < |tab.syms| ==> slots[j - symndx] == Home(nb, tab, hash, j)
  }

  lemma SlotsAre(y: Layout, tab: SymTab, hash: string -> nat, symndx: nat)
    requires ValidLayout(y) && symndx <= |tab.syms| && NamesReadable(tab)
    ensures AreSlots(y.nbuckets, tab, hash, symndx, Slots(y, HashesOf(tab, hash, symndx)))
  {
  }

  lemma EmittedInBucket(t: Table, tab: SymTab, hash: string -> nat, i: nat, slots: seq<nat>)
    requires t.buckets != [] && t.symndx <= i < |tab.syms| && NamesReadable(tab)
    requires AreSlots(|t.buckets|, tab, hash, t.symndx, slots) && Grouped(slots)
    requires t.buckets[Home(|t.buckets|, tab, hash, i)] == EmitBucket(slots, t.symndx, slots[i - t.symndx])
    ensures InBucket(t, tab, hash, i)
  {
    var nb, first := |t.buckets|, FirstIn(slots, slots[i - t.symndx], 0);
    forall j | t.symndx + first <= j <= i ensures Home(nb, tab, hash, j) == Home(nb, tab, hash, i) {
      assert slots[j - t.symndx] == slots[i - t.symndx];
    }
  }

  lemma ChainWordIs(hs: seq<nat>, slots: seq<nat>, k: nat)
    requires k < |hs| == |slots|
    ensures var c := EmitChain(hs, slots, k);
            c / 2 == hs[k] / 2 && (c % 2 == 1 <==> k + 1 == |slots| || slots[k + 1] != slots[k])
  {
  }

  lemma EmittedOnChain(t: Table, tab: SymTab, hash: string -> nat, i: nat, hs: seq<nat>, slots: seq<nat>)
    requires t.buckets != [] && t.symndx <= i < |tab.syms| && |t.chain| == |tab.syms| - t.symndx && NamesReadable(tab)
    requires AreSlots(|t.buckets|, tab, hash, t.symndx, slots) && |hs| == |slots|
    requires hs[i - t.symndx] == hash(NameOf(tab, i).value)
    requires t.chain[i - t.symndx] == EmitChain(hs, slots, i - t.symndx)
    ensures OnChain(t, tab, hash, i)
  {
    ChainWordIs(hs, slots, i - t.symndx);
    assert i + 1 < |tab.syms| ==> slots[i + 1 - t.symndx] == Home(|t.buckets|, tab, hash, i + 1);
  }

  lemma EmittedPlaces(y: Layout, hs: seq<nat>, symndx: nat, k: nat)
    requires ValidLayout(y) && k < |hs|
    ensures var t, slots := Emit(y, hs, symndx), Slots(y, hs);
            && slots[k] == hs[k] % y.nbuckets < |t.buckets| == y.nbuckets
            && t.buckets[slots[k]] == EmitBucket(slots, symndx, slots[k])
            && |t.chain| == |hs| && t.chain[k] == EmitChain(hs, slots, k) && t.symndx == symndx
  {
  }

  lemma HashIs(tab: SymTab, hash: string -> nat, symndx: nat, i: nat)
    requires symndx <= i < |tab.syms| && NamesReadable(tab)
    ensures var hs := HashesOf(tab, hash, symndx);
            |hs| == |tab.syms| - symndx && hs[i - symndx] == hash(NameOf(tab, i).value)
  {
  }

  lemma PlacedBits(y: Layout, t: Table, tab: SymTab, hash: string -> nat, hs: seq<nat>, i: nat)
    requires ValidLayout(y) && t.symndx <= i < |tab.syms| && NamesReadable(tab)
    requires hs == HashesOf(tab, hash, t.symndx) && t == Emit(y, hs, t.symndx)
    ensures (t.bits == 32 || t.bits == 64) && t.filter != [] && HasBits(t, hash(NameOf(tab, i).value))
  {
    HashIs(tab, hash, t.symndx, i);
    EmittedHasBits(y, hs, t.symndx, i - t.symndx);
  }

  lemma PlacedInBucket(y: Layout, t: Table, tab: SymTab, hash: string -> nat, hs: seq<nat>, i: nat)
    requires ValidLayout(y) && t.symndx <= i < |tab.syms| && NamesReadable(tab)
    requires hs == HashesOf(tab, hash, t.symndx) && t == Emit(y, hs, t.symndx) && Grouped(Slots(y, hs)) && Usable(t, tab)
    ensures InBucket(t, tab, hash, i)
  {
    SlotsAre(y, tab, hash, t.symndx);
    EmittedPlaces(y, hs, t.symndx, i - t.symndx);
    EmittedInBucket(t, tab, hash, i, Slots(y, hs));
  }

  lemma PlacedOnChain(y: Layout, t: Table, tab: SymTab, hash: string -> nat, hs: seq<nat>, i: nat)
    requires ValidLayout(y) && t.symndx <= i < |tab.syms| && NamesReadable(tab)
    requires hs == HashesOf(tab, hash, t.symndx) && t == Emit(y, hs, t.symndx)
    ensures OnChain(t, tab, hash, i)
  {
    SlotsAre(y, tab, hash, t.symndx);
    EmittedPlaces(y, hs, t.symndx, i - t.symndx);
    HashIs(tab, hash, t.symndx, i);
    EmittedOnChain(t, tab, hash, i, hs, Slots(y, hs));
  }

  /** Such a table meets what the ABI asks for every hashed symbol. */
  lemma EmittedEntered(y: Layout, t: Table, tab: SymTab, hash: string -> nat, hs: seq<nat>, i: nat)
    requires ValidLayout(y) && t.symndx <= i < |tab.syms| && NamesReadable(tab)
    requires hs == HashesOf(tab, hash, t.symndx) && t == Emit(y, hs, t.symndx) && Grouped(Slots(y, hs)) && Usable(t, tab)
    ensures Entered(t, tab, hash, i)
  {
    PlacedBits(y, t, tab, hash, hs, i);
    PlacedInBucket(y, t, tab, hash, hs, i);
    PlacedOnChain(y, t, tab, hash, hs, i);
  }

  /** The lookup undoes the linker: whatever the names, the hash function and the
      layout of the table, it finds the first hashed symbol with a name, and
      nothing for a name that no hashed symbol has. */
  lemma LinkerRoundTrip(y: Layout, tab: SymTab, hash: string -> nat, symndx: nat, name: string)
    requires ValidLayout(y) && 1 <= symndx <= |tab.syms| <= WORDS && NamesReadable(tab)
    requires Grouped(Slots(y, HashesOf(tab, hash, symndx)))
    ensures var t := Emit(y, HashesOf(tab, hash, symndx), symndx);
            && WellFormed(t, tab, hash)
            && (forall i :: GnuLookup(t, tab, hash, name) == Found(i) <==> IsFirst(tab, symndx, i, name))
            && (GnuLookup(t, tab, hash, name) == NotFound <==> Absent(tab, symndx, name))
  {
    var t := Emit(y, HashesOf(tab, hash, symndx), symndx);
    assert Usable(t, tab);
    forall i | symndx <= i < |tab.syms| ensures Entered(t, tab, hash, i) { EmittedEntered(y, t, tab, hash, HashesOf(tab, hash, symndx), i); }
    GnuFindsFirst(t, tab, hash, name);
  }

  /** So a name is found in the table of its one symbol, after the null symbol. */
  lemma OneSymbolFound(y: Layout, hash: string -> nat, name: string)
    requires ValidLayout(y) && '\0' !in name
    ensures var tab := SymTab([Sym(|name|, 0, 0), Sym(0, 1, 8)], name + "\0");
            GnuLookup(Emit(y, [hash(name)], 1), tab, hash, name) == Found(1)
  {
    var tab := SymTab([Sym(|name|, 0, 0), Sym(0, 1, 8)], name + "\0");
    StoredName(name);
    assert tab.strings[0..] == name + "\0";
    assert NameOf(tab, 1) == Some(name);
    assert HashesOf(tab, hash, 1) == [hash(name)];
    LinkerRoundTrip(y, tab, hash, 1, name);
    assert IsFirst(tab, 1, 1, name);
  }
}
