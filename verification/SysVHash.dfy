/** Symbol lookup through a System V hash section,
    include/luthier/Object/ELFObjectFileUtils.h:287-311. */
module SysVHash {
  import opened Common
  import opened ElfSymbols

  /** `nbucket` is |buckets| and `nchain` is |chains|; 0 is STN_UNDEF. */
  datatype Table = Table(buckets: seq<nat>, chains: seq<nat>)

  /** There is a bucket to start from and a chain word for every symbol. */
  predicate Usable(t: Table, tab: SymTab) {
    t.buckets != [] && |tab.syms| <= |t.chains|
  }

  function Head(t: Table, h: nat): nat
    requires t.buckets != []
  {
    t.buckets[h % |t.buckets|]
  }

  // ----- which walks end -----

  /** The walk looks at `i` and returns: the chain ends, an entry is broken, or the name matches. */
  predicate Halts(tab: SymTab, name: string, i: nat) {
    i == 0 || i >= |tab.syms| || NameOf(tab, i) == None || Named(tab, i, name)
  }

  /** The walk for `name` from `i` returns after following at most `n` links. */
  predicate Stops(t: Table, tab: SymTab, name: string, i: nat, n: nat)
    requires Usable(t, tab)
    decreases n
  {
    Halts(tab, name, i) || (n > 0 && Stops(t, tab, name, t.chains[i], n - 1))
  }

  lemma {:induction false} StopsLater(t: Table, tab: SymTab, name: string, i: nat, n: nat, m: nat)
    requires Usable(t, tab) && Stops(t, tab, name, i, n) && n <= m
    ensures Stops(t, tab, name, i, m)
    decreases n
  {
    if !Halts(tab, name, i) {
      StopsLater(t, tab, name, t.chains[i], n - 1, m - 1);
    }
  }

  /** A walk of exactly `n` links visits `n` different symbols before the last one. */
  lemma {:induction false} VisitsAreDistinct(t: Table, tab: SymTab, name: string, i: nat, n: nat) returns (on: set<nat>)
    requires Usable(t, tab) && Stops(t, tab, name, i, n) && (n > 0 ==> !Stops(t, tab, name, i, n - 1))
    ensures |on| == n && forall j :: j in on ==> j < |tab.syms| && Stops(t, tab, name, j, n)
    decreases n
  {
    if n == 0 {
      on := {};
    } else {
      var rest := VisitsAreDistinct(t, tab, name, t.chains[i], n - 1);
      assert i !in rest;
      on := {i} + rest;
      forall j | j in rest ensures Stops(t, tab, name, j, n) { StopsLater(t, tab, name, j, n - 1, n); }
    }
  }

  lemma {:induction false} LeastLinks(t: Table, tab: SymTab, name: string, i: nat, n: nat) returns (m: nat)
    requires Usable(t, tab) && Stops(t, tab, name, i, n)
    ensures m <= n && Stops(t, tab, name, i, m) && (m > 0 ==> !Stops(t, tab, name, i, m - 1))
  {
    if n > 0 && Stops(t, tab, name, i, n - 1) {
      m := LeastLinks(t, tab, name, i, n - 1);
    } else {
      m := n;
    }
  }

  function Range(n: nat): (r: set<nat>)
    ensures |r| == n && forall j: nat :: j in r <==> j < n
  {
    if n == 0 then {} else Range(n - 1) + {n - 1}
  }

  /** A walk that returns at all follows at most as many links as there are
      symbols: a longer one would go around a cycle forever. */
  lemma StopsSoonOrNever(t: Table, tab: SymTab, name: string, i: nat, n: nat)
    requires Usable(t, tab) && Stops(t, tab, name, i, n)
    ensures Stops(t, tab, name, i, |tab.syms|)
  {
    var m := LeastLinks(t, tab, name, i, n);
    var on := VisitsAreDistinct(t, tab, name, i, m);
    SubsetCardinality(on, Range(|tab.syms|));
    StopsLater(t, tab, name, i, m, |tab.syms|);
  }

  // ----- the lookup -----

  /** The walk along the chain from `i`. */
  function Walk(t: Table, tab: SymTab, name: string, i: nat, n: nat): Lookup
    requires Usable(t, tab) && Stops(t, tab, name, i, n)
    decreases n
  {
    if i == 0 then NotFound
    else if i >= |tab.syms| then BadIndex(i)
    else if NameOf(tab, i) == None then BadName(i)
    else if Named(tab, i, name) then Found(i)
    else Walk(t, tab, name, t.chains[i], n - 1)
  }

  /** The walk for `name` returns. */
  predicate Returns(t: Table, tab: SymTab, hash: string -> nat, name: string)
    requires Usable(t, tab)
  {
    Stops(t, tab, name, Head(t, hash(name)), |tab.syms|)
  }

  function SysVLookup(t: Table, tab: SymTab, hash: string -> nat, name: string): Lookup
    requires Usable(t, tab) && Returns(t, tab, hash, name)
  {
    Walk(t, tab, name, Head(t, hash(name)), |tab.syms|)
  }

  /** getSymbolFromSysVHashTable. */
  method GetSymbolFromSysVHashTable(t: Table, tab: SymTab, hash: string -> nat, name: string) returns (r: Lookup)
    requires Usable(t, tab) && Returns(t, tab, hash, name)
    ensures r == SysVLookup(t, tab, hash, name)
  {
    var i: nat := Head(t, hash(name));
    ghost var n: nat := |tab.syms|;
    while i != 0
      invariant Stops(t, tab, name, i, n)
      invariant Walk(t, tab, name, i, n) == SysVLookup(t, tab, hash, name)
      decreases n
    {
      if i >= |tab.syms| { return BadIndex(i); }
      if tab.syms[i].name >= |tab.strings| { return BadName(i); }
      if CString(tab.strings[tab.syms[i].name..]) == name { return Found(i); }
      i := t.chains[i];
      n := n - 1;
    }
    return NotFound;
  }

  // ----- correctness -----

  /** Symbol `j` is on the chain from `i`, at most `n` links away. */
  predicate OnChain(t: Table, tab: SymTab, i: nat, j: nat, n: nat)
    requires Usable(t, tab)
    decreases n
  {
    0 < i < |tab.syms| && (i == j || (n > 0 && OnChain(t, tab, t.chains[i], j, n - 1)))
  }

  /** The chain from `i` reaches STN_UNDEF within `n` links and stays inside the symbol table. */
  predicate Closed(t: Table, tab: SymTab, i: nat, n: nat)
    requires Usable(t, tab)
    decreases n
  {
    i == 0 || (i < |tab.syms| && n > 0 && Closed(t, tab, t.chains[i], n - 1))
  }

  /** What the ABI asks of a linker: chains end in STN_UNDEF, and symbol `i` is on
      the chain of bucket `h % nbucket`, where `h` is its hash. */
  ghost predicate WellFormed(t: Table, tab: SymTab, hash: string -> nat) {
    && Usable(t, tab) && NamesReadable(tab)
    && (forall b :: 0 <= b < |t.buckets| ==> Closed(t, tab, t.buckets[b], |tab.syms|))
    && (forall i :: 0 < i < |tab.syms| ==> OnChain(t, tab, t.buckets[hash(NameOf(tab, i).value) % |t.buckets|], i, |tab.syms|))
  }

  lemma {:induction false} ClosedStops(t: Table, tab: SymTab, name: string, i: nat, n: nat)
    requires Usable(t, tab) && Closed(t, tab, i, n)
    ensures Stops(t, tab, name, i, n)
    decreases n
  {
    if !Halts(tab, name, i) {
      ClosedStops(t, tab, name, t.chains[i], n - 1);
    }
  }

  /** In any table, a symbol that is found is on the chain and carries the name,
      and an error names a broken entry. */
  lemma {:induction false} WalkSound(t: Table, tab: SymTab, name: string, i: nat, n: nat)
    requires Usable(t, tab) && Stops(t, tab, name, i, n)
    ensures var r := Walk(t, tab, name, i, n);
            && (r.Found? ==> r.index < |tab.syms| && OnChain(t, tab, i, r.index, n) && Named(tab, r.index, name))
            && (r.BadName? ==> 0 < r.at < |tab.syms| && NameOf(tab, r.at) == None)
            && (r.BadIndex? ==> r.at >= |tab.syms| && !Closed(t, tab, i, n))
    decreases n
  {
    if !Halts(tab, name, i) {
      WalkSound(t, tab, name, t.chains[i], n - 1);
    }
  }

  lemma {:induction false} OnChainInRange(t: Table, tab: SymTab, i: nat, j: nat, n: nat)
    requires Usable(t, tab) && OnChain(t, tab, i, j, n)
    ensures 0 < j < |tab.syms|
    decreases n
  {
    if i != j { OnChainInRange(t, tab, t.chains[i], j, n - 1); }
  }

  /** A lookup that finds nothing has compared the name of every symbol on the chain. */
  lemma {:induction false} NothingMissed(t: Table, tab: SymTab, name: string, i: nat, n: nat, j: nat)
    requires Usable(t, tab) && Stops(t, tab, name, i, n) && Walk(t, tab, name, i, n) == NotFound
    requires OnChain(t, tab, i, j, n) && j < |tab.syms|
    ensures !Named(tab, j, name)
    decreases n
  {
    if i != j {
      NothingMissed(t, tab, name, t.chains[i], n - 1, j);
    }
  }

  // ----- the lookup in any table -----

  /** The walk from `i` gets to `j` within `n` links, over existing symbols with
      readable and other names. */
  predicate GetsTo(t: Table, tab: SymTab, name: string, i: nat, j: nat, n: nat)
    requires Usable(t, tab)
    decreases n
  {
    i == j || (0 < i < |tab.syms| && NameOf(tab, i).Some? && !Named(tab, i, name) && n > 0 && GetsTo(t, tab, name, t.chains[i], j, n - 1))
  }

  /** What a walk that returns answers over any table: it finds the first symbol on
      the way that has the name, reports the first one that does not exist or has
      no readable name, and finds nothing exactly when it gets to STN_UNDEF. */
  lemma {:induction false} WalkIff(t: Table, tab: SymTab, name: string, i: nat, n: nat)
    requires Usable(t, tab) && Stops(t, tab, name, i, n)
    ensures var r := Walk(t, tab, name, i, n);
            && (r.Found? ==> 0 < r.index < |tab.syms| && Named(tab, r.index, name) && GetsTo(t, tab, name, i, r.index, n))
            && (r.BadName? ==> 0 < r.at < |tab.syms| && NameOf(tab, r.at) == None && GetsTo(t, tab, name, i, r.at, n))
            && (r.BadIndex? ==> r.at >= |tab.syms| && r.at != 0 && GetsTo(t, tab, name, i, r.at, n))
            && (r.NotFound? <==> GetsTo(t, tab, name, i, 0, n))
    decreases n
  {
    if !Halts(tab, name, i) {
      WalkIff(t, tab, name, t.chains[i], n - 1);
    }
  }

  /** Over a well-formed table the lookup returns for every name, finds a symbol
      with it exactly when a scan of all symbols but the null one would, and never fails. */
  lemma SysVFinds(t: Table, tab: SymTab, hash: string -> nat, name: string)
    requires WellFormed(t, tab, hash)
    ensures Returns(t, tab, hash, name)
    ensures var r := SysVLookup(t, tab, hash, name);
            && (r.Found? || r.NotFound?)
            && (r.Found? ==> 0 < r.index < |tab.syms| && Named(tab, r.index, name))
            && (r.NotFound? <==> Absent(tab, 1, name))
  {
    var head, n := Head(t, hash(name)), |tab.syms|;
    ClosedStops(t, tab, name, head, n);
    WalkSound(t, tab, name, head, n);
    var r := SysVLookup(t, tab, hash, name);
    if r.Found? {
      OnChainInRange(t, tab, head, r.index, n);
    }
    if r.NotFound? {
      forall j | 1 <= j < |tab.syms| ensures !Named(tab, j, name) {
        if Named(tab, j, name) {
          assert OnChain(t, tab, t.buckets[hash(NameOf(tab, j).value) % |t.buckets|], j, n);
          NothingMissed(t, tab, name, head, n, j);
        }
      }
    }
  }

  // ----- the tables that a linker emits -----

  /** The last symbol before `k` that belongs to bucket `b`, or STN_UNDEF;
      `slots` are the buckets of all symbols. */
  function Latest(slots: seq<nat>, b: nat, k: nat): (r: nat)
    requires k <= |slots|
    ensures r == 0 || (0 < r < k && slots[r] == b)
    ensures forall j :: r < j < k ==> slots[j] != b
    decreases k
  {
    if k <= 1 then 0 else if slots[k - 1] == b then k - 1 else Latest(slots, b, k - 1)
  }

  /** The table that a linker emits for symbols in these buckets: each symbol is
      put in front of its bucket. */
  function Emit(slots: seq<nat>, nbucket: nat): Table {
    Table(seq<nat>(nbucket, b requires 0 <= b < nbucket => Latest(slots, b, |slots|)),
          seq<nat>(|slots|, i requires 0 <= i < |slots| => Latest(slots, slots[i], i)))
  }

  lemma {:induction false} EmittedChains(t: Table, tab: SymTab, slots: seq<nat>, b: nat, k: nat, n: nat)
    requires Usable(t, tab) && |slots| == |tab.syms| && k <= |slots| && k <= n + 1
    requires forall i :: 0 < i < |slots| ==> t.chains[i] == Latest(slots, slots[i], i)
    ensures Closed(t, tab, Latest(slots, b, k), n)
    ensures forall i :: 0 < i < k && slots[i] == b ==> OnChain(t, tab, Latest(slots, b, k), i, n)
    decreases n
  {
    var head := Latest(slots, b, k);
    if head > 0 {
      EmittedChains(t, tab, slots, b, head, n - 1);
    }
  }

  ghost predicate AreSlots(tab: SymTab, hash: string -> nat, nbucket: nat, slots: seq<nat>)
    requires nbucket > 0 && NamesReadable(tab)
  {
    |slots| == |tab.syms| && forall i :: 0 <= i < |slots| ==> slots[i] == hash(NameOf(tab, i).value) % nbucket
  }

  /** The lookup undoes the linker: whatever the names, the hash function and the
      number of buckets, it returns, finds a symbol with a name that some symbol
      has, and nothing for any other. */
  lemma LinkerRoundTrip(tab: SymTab, hash: string -> nat, nbucket: nat, slots: seq<nat>, name: string)
    requires nbucket > 0 && NamesReadable(tab) && AreSlots(tab, hash, nbucket, slots)
    ensures var t := Emit(slots, nbucket);
            && WellFormed(t, tab, hash) && Returns(t, tab, hash, name)
            && var r := SysVLookup(t, tab, hash, name);
               && (r.Found? || r.NotFound?)
               && (r.Found? ==> 0 < r.index < |tab.syms| && Named(tab, r.index, name))
               && (r.NotFound? <==> Absent(tab, 1, name))
  {
    var t := Emit(slots, nbucket);
    EmittedWellFormed(t, tab, hash, nbucket, slots);
    SysVFinds(t, tab, hash, name);
  }

  lemma EmittedWellFormed(t: Table, tab: SymTab, hash: string -> nat, nbucket: nat, slots: seq<nat>)
    requires nbucket > 0 && NamesReadable(tab) && AreSlots(tab, hash, nbucket, slots) && t == Emit(slots, nbucket)
    ensures WellFormed(t, tab, hash)
  {
    forall b | 0 <= b < nbucket
      ensures Closed(t, tab, t.buckets[b], |tab.syms|)
      ensures forall i :: 0 < i < |slots| && slots[i] == b ==> OnChain(t, tab, t.buckets[b], i, |tab.syms|)
    {
      EmittedChains(t, tab, slots, b, |slots|, |slots|);
    }
    forall i | 0 < i < |tab.syms| ensures OnChain(t, tab, t.buckets[hash(NameOf(tab, i).value) % nbucket], i, |tab.syms|) {
      assert slots[i] == hash(NameOf(tab, i).value) % nbucket;
    }
  }
}
