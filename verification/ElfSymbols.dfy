/** ELF symbol tables and their names. */
module ElfSymbols {
  import opened Common

  /** A symbol table entry: the offset of its name, its type and its size. */
  datatype Sym = Sym(name: nat, kind: nat, size: nat)

  /** A symbol table with the string table that its names point into. */
  datatype SymTab = SymTab(syms: seq<Sym>, strings: string)

  /** The number of values of a 32-bit word. */
  const WORDS: nat := 0x1_0000_0000

  /** The C string at the start of `s`: everything before the first NUL. */
  function CString(s: string): (r: string)
    ensures '\0' !in r
    ensures r <= s
    ensures |r| < |s| ==> s[|r|] == '\0'
  {
    if s == "" || s[0] == '\0' then "" else [s[0]] + CString(s[1..])
  }

  /** A loader accepts only string tables that end with NUL, so that reading a
      name stays inside the table. */
  predicate Terminated(strings: string) {
    strings != "" && strings[|strings| - 1] == '\0'
  }

  /** The name of symbol `i`, unless its offset is past the string table. */
  function NameOf(tab: SymTab, i: nat): Option<string>
    requires i < |tab.syms|
  {
    var at := tab.syms[i].name;
    if at < |tab.strings| then Some(CString(tab.strings[at..])) else None
  }

  /** Reading any name stops at a NUL inside the string table. */
  lemma NameEndsInside(s: string, at: nat)
    requires Terminated(s) && at < |s|
    ensures at + |CString(s[at..])| < |s|
  {
  }

  /** A name stored with its NUL reads back. */
  lemma {:induction false} StoredName(name: string)
    requires '\0' !in name
    ensures CString(name + "\0") == name
  {
    if name != "" {
      assert (name + "\0")[1..] == name[1..] + "\0";
      StoredName(name[1..]);
    }
  }

  lemma {:induction false} CStringStops(s: string, name: string)
    requires '\0' !in name && |name| < |s| && s[..|name|] == name && s[|name|] == '\0'
    ensures CString(s) == name
  {
    if name != "" {
      assert s[1..][..|name| - 1] == name[1..];
      CStringStops(s[1..], name[1..]);
    }
  }

  /** The name of a symbol is the text between its offset and the next NUL; there
      is none exactly when the offset is past the string table. */
  lemma NameIs(tab: SymTab, i: nat, name: string)
    requires i < |tab.syms| && '\0' !in name
    ensures var at := tab.syms[i].name;
            && (NameOf(tab, i) == None <==> at >= |tab.strings|)
            && (at + |name| < |tab.strings| && tab.strings[at..at + |name|] == name && tab.strings[at + |name|] == '\0' ==>
                  NameOf(tab, i) == Some(name))
  {
    var at := tab.syms[i].name;
    if at + |name| < |tab.strings| && tab.strings[at..at + |name|] == name && tab.strings[at + |name|] == '\0' {
      assert tab.strings[at..][..|name|] == name;
      CStringStops(tab.strings[at..], name);
    }
  }

  predicate Named(tab: SymTab, i: nat, name: string)
    requires i < |tab.syms|
  {
    NameOf(tab, i) == Some(name)
  }

  /** `i` is the lowest index from `from` on that carries `name`. */
  ghost predicate IsFirst(tab: SymTab, from: nat, i: nat, name: string) {
    && from <= i < |tab.syms| && Named(tab, i, name)
    && forall j :: from <= j < i ==> !Named(tab, j, name)
  }

  ghost predicate Absent(tab: SymTab, from: nat, name: string) {
    forall j :: from <= j < |tab.syms| ==> !Named(tab, j, name)
  }

  /** Where a symbol range starts: it skips the null symbol 0. */
  function RangeStart(tab: SymTab): nat {
    if tab.syms == [] then 0 else 1
  }

  /** How many symbols are in the range. */
  function RangeSize(tab: SymTab): nat {
    |tab.syms| - RangeStart(tab)
  }

  ghost predicate NamesReadable(tab: SymTab) {
    forall i :: 0 <= i < |tab.syms| ==> NameOf(tab, i).Some?
  }

  /** What a lookup in a hash table ends with. */
  datatype Lookup =
    | Found(index: nat)
    | NotFound
    | BadIndex(at: nat)   // the table names a symbol that does not exist
    | BadName(at: nat)    // a symbol's name offset is past the string table
}
