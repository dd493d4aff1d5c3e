/** Symbol lookup by name in an ELF object: the first hash section, then the
    symbol table, include/luthier/Object/ELFObjectFileUtils.h:313-455. */
module SymbolLookup {
  import opened Common
  import opened ElfSymbols
  import GnuHash
  import SysVHash

  /** What is checked of a hash section before its table is used: whether the
      section, the list of sections, the linked symbol table, its string table and
      its symbols can be read; and its place in the file. */
  datatype Header = Header(readable: bool, offset: nat, size: nat, fileSize: nat)

  /** A section, as far as a lookup looks at it.  A hash section comes with the
      symbol table it links to. */
  datatype Section =
    | Other
    | Gnu(head: Header, gnu: GnuHash.Table, tab: SymTab)
    | SysV(head: Header, sysv: SysVHash.Table, tab: SymTab)

  datatype Object = Object(sections: seq<Section>, symtab: SymTab)

  /** A symbol of the dynamic table of the first hash section, or of the symbol table. */
  datatype SymbolRef = Dynamic(index: nat) | Static(index: nat)

  predicate IsHash(s: Section) {
    s != Other
  }

  /** The number of values of a 64-bit size. */
  const SIZES: nat := 0x1_0000_0000_0000_0000

  /** The size that is asked of a GNU section: its header and a word each for its
      arrays, in 64-bit arithmetic that wraps when `symndx` is past the symbols. */
  function GnuSize(t: GnuHash.Table, tab: SymTab): nat {
    (16 + 4 * |t.filter| + 4 * |t.buckets| + 4 * ((|tab.syms| - t.symndx) % SIZES)) % SIZES
  }

  function SysVSize(t: SysVHash.Table): nat {
    (8 + 4 * |t.buckets| + 4 * |t.chains|) % SIZES
  }

  predicate InFile(h: Header) {
    (h.offset + h.size) % SIZES < h.fileSize
  }

  /** The section passes all checks. */
  predicate Passes(s: Section) {
    match s
    case Other => true
    case Gnu(h, t, tab) => h.readable && InFile(h) && h.size >= 16 && h.size >= GnuSize(t, tab)
    case SysV(h, t, tab) => h.readable && InFile(h) && h.size >= 8 && h.size >= SysVSize(t)
  }

  /** What the two lookups take for granted of a hash section that passes the checks. */
  predicate Usable(s: Section, hash: string -> nat, name: string) {
    Passes(s) ==>
      match s
      case Other => true
      case Gnu(h, t, tab) => GnuHash.Usable(t, tab)
      case SysV(h, t, tab) => SysVHash.Usable(t, tab) && SysVHash.Returns(t, tab, hash, name)
  }

  ghost predicate WellFormed(s: Section, hash: string -> nat) {
    Passes(s)
    && match s
       case Other => true
       case Gnu(h, t, tab) => GnuHash.WellFormed(t, tab, hash)
       case SysV(h, t, tab) => SysVHash.WellFormed(t, tab, hash)
  }

  function FromLookup(r: Lookup): Result<Option<nat>> {
    match r
    case Found(i) => Ok(Some(i))
    case NotFound => Ok(None)
    case _ => Error
  }

  function HashLookup(s: Section, hash: string -> nat, name: string): Result<Option<nat>>
    requires Usable(s, hash, name)
  {
    if !Passes(s) then Error else
      match s
      case Other => Ok(None)
      case Gnu(h, t, tab) => FromLookup(GnuHash.GnuLookup(t, tab, hash, name))
      case SysV(h, t, tab) => FromLookup(SysVHash.SysVLookup(t, tab, hash, name))
  }

  /** getHashTableSymbol. */
  method GetHashTableSymbol(s: Section, hash: string -> nat, name: string) returns (r: Result<Option<nat>>)
    requires Usable(s, hash, name)
    ensures !Passes(s) ==> r == Error
    ensures r == HashLookup(s, hash, name)
  {
    match s
    case Other => return Ok(None);
    case Gnu(h, t, tab) =>
      if !h.readable { return Error; }
      if (h.offset + h.size) % SIZES >= h.fileSize { return Error; }
      if h.size < 16 || h.size < GnuSize(t, tab) { return Error; }
      var l := GnuHash.GetSymbolFromGnuHashTable(t, tab, hash, name);
      return FromLookup(l);
    case SysV(h, t, tab) =>
      if !h.readable { return Error; }
      if (h.offset + h.size) % SIZES >= h.fileSize { return Error; }
      if h.size < 8 || h.size < SysVSize(t) { return Error; }
      var l := SysVHash.GetSymbolFromSysVHashTable(t, tab, hash, name);
      return FromLookup(l);
  }

  /** The first hash section, or `Other` if there is none. */
  function FirstHash(sections: seq<Section>): Section {
    if sections == [] then Other
    else if IsHash(sections[0]) then sections[0]
    else FirstHash(sections[1..])
  }

  /** The scan of the symbol table from index `i`: the first symbol with the
      name, or an error if a name before it cannot be read. */
  function Scan(tab: SymTab, name: string, i: nat): Result<Option<nat>>
    requires i <= |tab.syms|
    decreases |tab.syms| - i
  {
    if i == |tab.syms| then Ok(None)
    else if NameOf(tab, i) == None then Error
    else if Named(tab, i, name) then Ok(Some(i))
    else Scan(tab, name, i + 1)
  }

  function Wrap(r: Result<Option<nat>>, inDynamic: bool): Result<Option<SymbolRef>> {
    match r
    case Error => Error
    case Ok(None) => Ok(None)
    case Ok(Some(i)) => Ok(Some(if inDynamic then Dynamic(i) else Static(i)))
  }

  function LookupSymbol(o: Object, hash: string -> nat, name: string, fallback: bool): Result<Option<SymbolRef>>
    requires Usable(FirstHash(o.sections), hash, name)
  {
    var r := HashLookup(FirstHash(o.sections), hash, name);
    if r == Ok(None) then (if fallback then Wrap(Scan(o.symtab, name, RangeStart(o.symtab)), false) else Ok(None))
    else Wrap(r, true)
  }

  lemma {:induction false} FirstHashFrom(sections: seq<Section>, i: nat)
    requires i <= |sections| && forall j :: 0 <= j < i ==> !IsHash(sections[j])
    ensures FirstHash(sections) == FirstHash(sections[i..])
    decreases i
  {
    if i == 0 {
      assert sections[0..] == sections;
    } else {
      FirstHashFrom(sections, i - 1);
      assert sections[i - 1..][1..] == sections[i..];
    }
  }

  /** The fallback: the symbols past the null symbol, in order. */
  method ScanSymbols(tab: SymTab, name: string) returns (r: Result<Option<nat>>)
    ensures r == Scan(tab, name, RangeStart(tab))
  {
    var k: nat := RangeStart(tab);
    while k < |tab.syms|
      invariant k <= |tab.syms|
      invariant Scan(tab, name, k) == Scan(tab, name, RangeStart(tab))
    {
      if tab.syms[k].name >= |tab.strings| { return Error; }
      if CString(tab.strings[tab.syms[k].name..]) == name { return Ok(Some(k)); }
      k := k + 1;
    }
    return Ok(None);
  }

  /** lookupSymbolByName. */
  method LookupSymbolByName(o: Object, hash: string -> nat, name: string, fallback: bool) returns (r: Result<Option<SymbolRef>>)
    requires Usable(FirstHash(o.sections), hash, name)
    ensures r == LookupSymbol(o, hash, name, fallback)
  {
    var i: nat := 0;
    while i < |o.sections|
      invariant i <= |o.sections|
      invariant forall j :: 0 <= j < i ==> !IsHash(o.sections[j])
    {
      if IsHash(o.sections[i]) {
        FirstHashFrom(o.sections, i);
        var out := GetHashTableSymbol(o.sections[i], hash, name);
        if out == Error { return Error; }
        if out.value.Some? { return Ok(Some(Dynamic(out.value.value))); }
        break;   // later hash sections are not consulted
      }
      i := i + 1;
    }
    FirstHashFrom(o.sections, i);
    if fallback {
      var found := ScanSymbols(o.symtab, name);
      return Wrap(found, false);
    }
    return Ok(None);
  }

  // ----- what a lookup finds -----

  /** The names from `from` up to `to` can be read and are not `name`. */
  ghost predicate Passed(tab: SymTab, name: string, from: nat, to: nat)
    requires to <= |tab.syms|
  {
    forall j :: from <= j < to ==> NameOf(tab, j).Some? && !Named(tab, j, name)
  }

  /** What a hash section that passes the checks answers: the symbol that its table
      gives, an error exactly when the table reports a broken entry, and otherwise
      nothing. */
  lemma SectionAnswers(s: Section, hash: string -> nat, name: string, i: nat)
    requires Passes(s) && Usable(s, hash, name) && HasTable(s)
    ensures var l := if s.Gnu? then GnuHash.GnuLookup(s.gnu, s.tab, hash, name) else SysVHash.SysVLookup(s.sysv, s.tab, hash, name);
            && (HashLookup(s, hash, name) == Ok(Some(i)) <==> l == Found(i))
            && (HashLookup(s, hash, name) == Error <==> l.BadIndex? || l.BadName?)
            && (HashLookup(s, hash, name) == Ok(None) <==> l == NotFound)
  {
  }

  /** Where nothing wraps, a hash section passes the checks if and only if it can
      be read, ends before the end of the file, and has room for its header and a
      word for each element of its arrays. */
  lemma PassesIff(h: Header, gnu: GnuHash.Table, sysv: SysVHash.Table, tab: SymTab)
    requires h.offset + h.size < 0x1_0000_0000_0000_0000
    requires gnu.symndx <= |tab.syms| && 16 + 4 * |gnu.filter| + 4 * |gnu.buckets| + 4 * (|tab.syms| - gnu.symndx) < 0x1_0000_0000_0000_0000
    requires 8 + 4 * |sysv.buckets| + 4 * |sysv.chains| < 0x1_0000_0000_0000_0000
    ensures Passes(Gnu(h, gnu, tab)) <==>
              && h.readable && h.offset + h.size < h.fileSize
              && 16 + 4 * |gnu.filter| + 4 * |gnu.buckets| + 4 * (|tab.syms| - gnu.symndx) <= h.size
    ensures Passes(SysV(h, sysv, tab)) <==>
              h.readable && h.offset + h.size < h.fileSize && 8 + 4 * |sysv.buckets| + 4 * |sysv.chains| <= h.size
  {
  }

  /** The scan stops at the first symbol that has the name or no readable name. */
  lemma {:induction false} ScanFinds(tab: SymTab, name: string, i: nat) returns (k: nat)
    requires i <= |tab.syms|
    ensures i <= k <= |tab.syms| && Passed(tab, name, i, k)
    ensures k < |tab.syms| ==> NameOf(tab, k) == None || Named(tab, k, name)
    ensures Scan(tab, name, i) ==
              if k == |tab.syms| then Ok(None) else if NameOf(tab, k) == None then Error else Ok(Some(k))
    decreases |tab.syms| - i
  {
    if i < |tab.syms| && NameOf(tab, i).Some? && !Named(tab, i, name) {
      k := ScanFinds(tab, name, i + 1);
    } else {
      k := i;
    }
  }

  /** Over readable names the scan finds the first symbol with the name, if there is one. */
  lemma ScanFindsFirst(tab: SymTab, name: string)
    requires NamesReadable(tab)
    ensures var r := Scan(tab, name, RangeStart(tab));
            && r.Ok?
            && (forall k: nat :: r == Ok(Some(k)) <==> IsFirst(tab, 1, k, name))
            && (r == Ok(None) <==> Absent(tab, 1, name))
  {
    var k := ScanFinds(tab, name, RangeStart(tab));
    assert k < |tab.syms| ==> IsFirst(tab, 1, k, name);
  }

  /** The symbols that a hash section covers are those from this index on. */
  function HashedFrom(s: Section): nat {
    match s
    case Gnu(h, t, tab) => t.symndx
    case _ => 1
  }

  predicate HasTable(s: Section) {
    s.Gnu? || s.SysV?
  }

  /** `name` occurs among the symbols that the section covers. */
  ghost predicate InHashed(s: Section, name: string) {
    HasTable(s) && !Absent(s.tab, HashedFrom(s), name)
  }

  lemma HashFinds(s: Section, hash: string -> nat, name: string)
    requires WellFormed(s, hash)
    ensures Usable(s, hash, name)
    ensures var r := HashLookup(s, hash, name);
            r.Ok? && (r.value.Some? <==> InHashed(s, name))
  {
    match s
    case Gnu(h, t, tab) => GnuHash.GnuFindsFirst(t, tab, hash, name); GnuHash.LookupSound(t, tab, hash, name);
    case SysV(h, t, tab) => SysVHash.SysVFinds(t, tab, hash, name);
    case Other =>
  }

  /** Over a well-formed first hash section and readable names, the lookup never
      fails and succeeds exactly when the name is among the hashed symbols or,
      with the fallback, in the symbol table. */
  lemma LookupComplete(o: Object, hash: string -> nat, name: string, fallback: bool)
    requires WellFormed(FirstHash(o.sections), hash) && NamesReadable(o.symtab)
    ensures Usable(FirstHash(o.sections), hash, name)
    ensures var r := LookupSymbol(o, hash, name, fallback);
            && r.Ok?
            && (r.value.Some? <==> InHashed(FirstHash(o.sections), name) || (fallback && !Absent(o.symtab, 1, name)))
            && (r.value.Some? && r.value.value.Dynamic? <==> InHashed(FirstHash(o.sections), name))
            && (r.value.Some? && r.value.value.Static? ==> IsFirst(o.symtab, 1, r.value.value.index, name))
  {
    HashFinds(FirstHash(o.sections), hash, name);
    ScanFindsFirst(o.symtab, name);
  }

  /** The name of a symbol that a lookup returned. */
  predicate Carries(o: Object, r: SymbolRef, name: string) {
    match r
    case Dynamic(i) =>
      var s := FirstHash(o.sections);
      HasTable(s) && i < |s.tab.syms| && Named(s.tab, i, name)
    case Static(i) => i < |o.symtab.syms| && Named(o.symtab, i, name)
  }

  /** However broken the object, a symbol that is found carries the name. */
  lemma LookupCarriesName(o: Object, hash: string -> nat, name: string, fallback: bool, r: SymbolRef)
    requires Usable(FirstHash(o.sections), hash, name) && LookupSymbol(o, hash, name, fallback) == Ok(Some(r))
    ensures Carries(o, r, name)
  {
    var s := FirstHash(o.sections);
    if HashLookup(s, hash, name) == Ok(None) {
      var k := ScanFinds(o.symtab, name, RangeStart(o.symtab));
    } else {
      HashSound(s, hash, name);
    }
  }

  lemma HashSound(s: Section, hash: string -> nat, name: string)
    requires Usable(s, hash, name)
    ensures var r := HashLookup(s, hash, name);
            r.Ok? && r.value.Some? ==> HasTable(s) && r.value.value < |s.tab.syms| && Named(s.tab, r.value.value, name)
  {
    if Passes(s) {
      match s
      case Other =>
      case Gnu(h, t, tab) => GnuHash.LookupSound(t, tab, hash, name);
      case SysV(h, t, tab) => SysVHash.WalkSound(t, tab, name, SysVHash.Head(t, hash(name)), |tab.syms|);
    }
  }

  /** A relocatable has no hash section: its lookup is the first-match scan, and
      without the fallback finds nothing. */
  lemma {:induction false} RelocatableIsScan(o: Object, hash: string -> nat, name: string)
    requires forall i :: 0 <= i < |o.sections| ==> !IsHash(o.sections[i])
    ensures FirstHash(o.sections) == Other
    ensures LookupSymbol(o, hash, name, true) == Wrap(Scan(o.symtab, name, RangeStart(o.symtab)), false)
    ensures LookupSymbol(o, hash, name, false) == Ok(None)
  {
    FirstHashFrom(o.sections, |o.sections|);
  }

  /** Sections after the first hash section make no difference, even hash
      sections that would hold the name. */
  lemma {:induction false} LaterSectionsIgnored(o: Object, i: nat, more: seq<Section>)
    requires i < |o.sections| && IsHash(o.sections[i])
    ensures FirstHash(o.sections[..i + 1] + more) == FirstHash(o.sections)
    decreases i
  {
    var s := o.sections;
    if i > 0 && !IsHash(s[0]) {
      assert s[1..][..i] == s[..i + 1][1..];
      LaterSectionsIgnored(Object(s[1..], o.symtab), i - 1, more);
      assert (s[..i + 1] + more)[1..] == s[1..][..i] + more;
    }
  }
}
