/** The snapshot of a HIP API table whose size differs between the runtime and
    the headers the tool was compiled with,
    include/luthier/Rocprofiler/HipApiTableSnapshot.h:46-74 and
    include/luthier/HIP/ApiTable.h:1037-1083. */
module HipSnapshot {
  import opened Common

  newtype Byte = x: int | 0 <= x < 256

  /** The number of bytes of a size and of a function pointer. */
  const WORD: nat := 8

  /** The little-endian number in `b`. */
  function Number(b: seq<Byte>): nat {
    if b == [] then 0 else b[0] as nat + 256 * Number(b[1..])
  }

  /** A dispatch table starts with its size; entries are words at later offsets. */
  function WordAt(table: seq<Byte>, off: nat): nat
    requires off + WORD <= |table|
  {
    Number(table[off..off + WORD])
  }

  function SizeOf(table: seq<Byte>): nat
    requires WORD <= |table|
  {
    WordAt(table, 0)
  }

  /** A table in the runtime's memory: it has as many bytes as it says. */
  predicate IsTable(mem: seq<Byte>) {
    WORD <= |mem| && SizeOf(mem) <= |mem|
  }

  function Zeros(n: nat): seq<Byte> {
    seq(n, i => 0)
  }

  /** What a zero-initialised struct of `own` bytes holds after the bounded copy. */
  function Captured(own: nat, mem: seq<Byte>): seq<Byte>
    requires IsTable(mem)
  {
    var n := if own <= SizeOf(mem) then own else SizeOf(mem);
    mem[..n] + Zeros(own - n)
  }

  class Snapshot {
    const table: array<Byte>
    var invoked: bool

    /** `own` is the compiled size of the table, which holds at least its size field. */
    constructor (own: nat)
      requires WORD <= own
      ensures fresh(table) && table.Length == own && table[..] == Zeros(own) && !invoked
    {
      table := new Byte[own](i => 0);
      invoked := false;
      new;
      assert table[..] == Zeros(own);
    }

    /** The registration callback: only the first registration is captured. */
    method OnRegistration(mem: seq<Byte>)
      requires IsTable(mem)
      requires !invoked ==> table[..] == Zeros(table.Length)
      modifies this, table
      ensures invoked
      ensures table[..] == if old(invoked) then old(table[..]) else Captured(table.Length, mem)
    {
      if !invoked {
        var n := if table.Length <= SizeOf(mem) then table.Length else SizeOf(mem);
        forall i | 0 <= i < n { table[i] := mem[i]; }
        assert table[n..] == Zeros(table.Length - n);
        assert table[..] == table[..n] + table[n..];
        assert table[..n] == mem[..n];
      }
      invoked := true;
    }

    /** getFunction behind its guard; none is the fatal error. */
    method GetFunction(off: nat) returns (f: Option<nat>)
      requires WORD <= off && off + WORD <= table.Length
      ensures f == if invoked then Lookup(table[..], off) else None
    {
      if !invoked { return None; }
      var bytes := table[..];
      if !(off < SizeOf(bytes)) { return None; }
      return Some(Number(bytes[off..off + WORD]));
    }
  }

  /** The guarded lookup in a captured table. */
  function Lookup(table: seq<Byte>, off: nat): Option<nat>
    requires WORD <= off && off + WORD <= |table|
  {
    if off < SizeOf(table) then Some(WordAt(table, off)) else None
  }

  /** The entry is wholly inside the runtime's table. */
  predicate RuntimeHas(mem: seq<Byte>, off: nat)
    requires IsTable(mem)
  {
    off + WORD <= SizeOf(mem)
  }

  // ----- the captured size -----

  lemma {:induction false} ZeroNumber(b: seq<Byte>)
    ensures Number(b) == 0 <==> b == Zeros(|b|)
    decreases |b|
  {
    if b != [] {
      ZeroNumber(b[1..]);
      assert b == [b[0]] + b[1..];
      assert Zeros(|b|) == [0] + Zeros(|b| - 1);
    }
  }

  /** The size field survives the copy, even a copy that stops inside it. */
  lemma SizeSurvives(own: nat, mem: seq<Byte>)
    requires WORD <= own && IsTable(mem)
    ensures |Captured(own, mem)| == own && SizeOf(Captured(own, mem)) == SizeOf(mem)
  {
    var head, size := mem[0..WORD], SizeOf(mem);
    var copy := Captured(own, mem)[0..WORD];
    if size >= WORD {
      assert copy == head;
    } else {
      // a number below 8 is its lowest byte, and the others are zero
      ZeroNumber(head[1..]);
      assert Number(head) == head[0] as nat + 256 * Number(head[1..]);
      assert head[1..] == Zeros(WORD - 1);
      assert size == head[0] as nat;
      forall i | 0 <= i < WORD ensures copy[i] == head[i] {
        assert i > 0 ==> head[i] == head[1..][i - 1];
      }
      assert copy == head;
    }
  }

  // ----- the lookup -----

  /** For every entry the tool was compiled with, the lookup succeeds exactly
      when the entry starts inside the runtime's table, and gives the runtime's
      pointer when the entry is wholly inside. */
  lemma LookupIs(own: nat, mem: seq<Byte>, off: nat)
    requires IsTable(mem) && WORD <= off && off + WORD <= own
    ensures |Captured(own, mem)| == own
    ensures Lookup(Captured(own, mem), off).Some? <==> off < SizeOf(mem)
    ensures RuntimeHas(mem, off) ==> Lookup(Captured(own, mem), off) == Some(WordAt(mem, off))
  {
    SizeSurvives(own, mem);
    if RuntimeHas(mem, off) {
      assert Captured(own, mem)[off..off + WORD] == mem[off..off + WORD];
    }
  }

  /** So the guard is exact unless the runtime's table ends inside the entry. */
  lemma GuardExactIff(own: nat, mem: seq<Byte>, off: nat)
    requires IsTable(mem) && WORD <= off && off + WORD <= own
    ensures |Captured(own, mem)| == own
    ensures (Lookup(Captured(own, mem), off).Some? <==> RuntimeHas(mem, off)) <==> !(off < SizeOf(mem) < off + WORD)
  {
    LookupIs(own, mem, off);
  }

  /** With sizes and offsets that are multiples of a word, as every table of
      pointers has, the lookup is right for every pair of table sizes. */
  lemma AlignedLookup(own: nat, mem: seq<Byte>, off: nat)
    requires IsTable(mem) && WORD <= off && off + WORD <= own
    requires off % WORD == 0 && SizeOf(mem) % WORD == 0
    ensures |Captured(own, mem)| == own
    ensures Lookup(Captured(own, mem), off) == if RuntimeHas(mem, off) then Some(WordAt(mem, off)) else None
  {
    LookupIs(own, mem, off);
  }

  // ----- the bytes of a word -----

  /** The eight bytes from `at` on, lowest first. */
  function EightBytes(b: seq<Byte>, at: nat): nat
    requires at + 8 <= |b|
  {
    b[at] as nat + 0x100 * b[at + 1] as nat + 0x1_0000 * b[at + 2] as nat + 0x100_0000 * b[at + 3] as nat
    + 0x1_0000_0000 * b[at + 4] as nat + 0x100_0000_0000 * b[at + 5] as nat
    + 0x1_0000_0000_0000 * b[at + 6] as nat + 0x100_0000_0000_0000 * b[at + 7] as nat
  }

  lemma NumberIs(b: seq<Byte>, i: nat)
    requires i < |b|
    ensures Number(b[i..]) == b[i] as nat + 256 * Number(b[i + 1..])
  {
    assert b[i..][1..] == b[i + 1..];
  }

  lemma LastFour(b: seq<Byte>)
    requires |b| == 8
    ensures Number(b[4..]) == b[4] as nat + 0x100 * b[5] as nat + 0x1_0000 * b[6] as nat + 0x100_0000 * b[7] as nat
  {
    NumberIs(b, 4);
    NumberIs(b, 5);
    NumberIs(b, 6);
    NumberIs(b, 7);
    assert b[8..] == [];
  }

  lemma NumberIsEightBytes(b: seq<Byte>)
    requires |b| == 8
    ensures Number(b) == EightBytes(b, 0)
  {
    assert b[0..] == b;
    NumberIs(b, 0);
    NumberIs(b, 1);
    NumberIs(b, 2);
    NumberIs(b, 3);
    LastFour(b);
  }

  lemma WordIsEightBytes(table: seq<Byte>, off: nat)
    requires off + 8 <= |table|
    ensures WordAt(table, off) == EightBytes(table, off)
  {
    NumberIsEightBytes(table[off..off + 8]);
  }

  /** The runtime's size is in its first eight bytes; and for an entry whose eight
      bytes lie within that size, the tool gets the pointer in those bytes of the
      runtime's memory. */
  lemma LookupReads(own: nat, mem: seq<Byte>, off: nat)
    requires IsTable(mem) && 8 <= off && off + 8 <= own
    ensures |Captured(own, mem)| == own && EightBytes(mem, 0) <= |mem|
    ensures off + 8 <= EightBytes(mem, 0) ==> Lookup(Captured(own, mem), off) == Some(EightBytes(mem, off))
    ensures EightBytes(mem, 0) <= off ==> Lookup(Captured(own, mem), off) == None
  {
    WordIsEightBytes(mem, 0);
    LookupIs(own, mem, off);
    if off + 8 <= EightBytes(mem, 0) { WordIsEightBytes(mem, off); }
  }
}
