/** The symbol classes of an AMDGCN code object and the pairing of kernel
    functions with kernel descriptors, include/luthier/Object/AMDGCNObjectFile.h. */
module AmdgcnSymbols {
  import opened Common
  import opened ElfSymbols
  import opened FilteringIterator
  import L = SymbolLookup

  /** An ELF object together with the dynamic symbol table that is iterated over. */
  datatype CodeObject = CodeObject(elf: L.Object, dynsym: SymTab)

  const STT_OBJECT: nat := 1
  const STT_FUNC: nat := 2
  const STT_AMDGPU_HSA_KERNEL: nat := 10
  const KD: string := ".kd"

  /** The lookups that the hash section of `o` can answer: those of every name. */
  ghost predicate Usable(o: CodeObject, hash: string -> nat) {
    forall name :: L.Usable(L.FirstHash(o.elf.sections), hash, name)
  }

  /** lookupSymbol: with the fallback to the symbol table. */
  function Find(o: CodeObject, hash: string -> nat, name: string): Result<Option<L.SymbolRef>>
    requires L.Usable(L.FirstHash(o.elf.sections), hash, name)
  {
    L.LookupSymbol(o.elf, hash, name, true)
  }

  predicate EndsWith(s: string, suffix: string) {
    |suffix| <= |s| && s[|s| - |suffix|..] == suffix
  }

  // ----- the classes -----

  function IsKernelDescriptor(tab: SymTab, i: nat): Check
    requires i < |tab.syms|
  {
    var s := tab.syms[i];
    match NameOf(tab, i)
    case None => Fails
    case Some(name) => Is((s.kind == STT_OBJECT && EndsWith(name, KD) && s.size == 64) || (s.kind == STT_AMDGPU_HSA_KERNEL && s.size == 64))
  }

  function IsVariable(tab: SymTab, i: nat): Check
    requires i < |tab.syms|
  {
    match IsKernelDescriptor(tab, i)
    case Is(kd) => Is(tab.syms[i].kind == STT_OBJECT && !kd)
    case other => other
  }

  ghost function IsKernelFunction(o: CodeObject, hash: string -> nat, tab: SymTab, i: nat): Check
    requires Usable(o, hash) && i < |tab.syms|
  {
    if tab.syms[i].kind != STT_FUNC then Is(false) else
      match NameOf(tab, i)
      case None => Fails
      case Some(name) =>
        match Find(o, hash, name + KD)
        case Error => Fails
        case Ok(found) => Is(found.Some?)
  }

  /** The error of the kernel check is dereferenced, which ends the process. */
  ghost function IsDeviceFunction(o: CodeObject, hash: string -> nat, tab: SymTab, i: nat): Check
    requires Usable(o, hash) && i < |tab.syms|
  {
    if tab.syms[i].kind != STT_FUNC then Is(false) else
      match IsKernelFunction(o, hash, tab, i)
      case Is(kernel) => Is(!kernel)
      case _ => Aborts
  }

  /** Every function is a kernel or a device function and every object a
      descriptor or a variable, never both, unless a check fails: the device
      check then ends the process where the kernel check reports an error, and
      the two object checks report errors alike.  Other kinds are neither
      functions nor variables. */
  lemma ClassesPartition(o: CodeObject, hash: string -> nat, tab: SymTab, i: nat)
    requires Usable(o, hash) && i < |tab.syms|
    ensures var kind, kernel, device := tab.syms[i].kind, IsKernelFunction(o, hash, tab, i), IsDeviceFunction(o, hash, tab, i);
            if kind != STT_FUNC then kernel == Is(false) && device == Is(false)
            else (kernel == Fails && device == Aborts) || (kernel == Is(true) && device == Is(false)) || (kernel == Is(false) && device == Is(true))
    ensures var kind, kd, variable := tab.syms[i].kind, IsKernelDescriptor(tab, i), IsVariable(tab, i);
            if NameOf(tab, i) == None then kd == Fails && variable == Fails
            else if kind == STT_OBJECT then (kd == Is(true) && variable == Is(false)) || (kd == Is(false) && variable == Is(true))
            else variable == Is(false) && (kd == Is(true) ==> kind == STT_AMDGPU_HSA_KERNEL) && (kd == Is(true) || kd == Is(false))
  {
  }

  ghost predicate IsDescriptorName(name: string) {
    exists base: string :: name == base + ".kd"
  }

  lemma EndsWithIs(name: string)
    ensures EndsWith(name, ".kd") <==> IsDescriptorName(name)
  {
    if EndsWith(name, ".kd") {
      assert name == name[..|name| - 3] + ".kd";
    }
  }

  /** Which symbols with a readable name are descriptors and variables: an object
      (type 1) is a descriptor if and only if it has 64 bytes and is named
      something with ".kd" behind it, and otherwise a variable; a symbol of type
      10 is a descriptor if and only if it has 64 bytes; nothing else is either. */
  lemma DescriptorIff(tab: SymTab, i: nat)
    requires i < |tab.syms| && NameOf(tab, i).Some?
    ensures var s, name := tab.syms[i], NameOf(tab, i).value;
            && (s.kind == 1 ==> IsKernelDescriptor(tab, i) == Is(s.size == 64 && IsDescriptorName(name)))
            && (s.kind == 1 ==> IsVariable(tab, i) == Is(!(s.size == 64 && IsDescriptorName(name))))
            && (s.kind == 10 ==> IsKernelDescriptor(tab, i) == Is(s.size == 64) && IsVariable(tab, i) == Is(false))
            && (s.kind != 1 && s.kind != 10 ==> IsKernelDescriptor(tab, i) == Is(false) && IsVariable(tab, i) == Is(false))
  {
    EndsWithIs(NameOf(tab, i).value);
  }

  /** Which symbols of a well-formed code object are kernel and device functions:
      a function (type 2) is a kernel if and only if its name with ".kd" behind it
      occurs, and otherwise a device function; nothing else is either. */
  lemma FunctionClassIff(o: CodeObject, hash: string -> nat, tab: SymTab, i: nat)
    requires WellFormed(o, hash) && Usable(o, hash) && i < |tab.syms| && NameOf(tab, i).Some?
    ensures var kernel, device := IsKernelFunction(o, hash, tab, i), IsDeviceFunction(o, hash, tab, i);
            var occurs := Occurs(o, NameOf(tab, i).value + ".kd");
            && (tab.syms[i].kind == 2 ==> kernel == Is(occurs) && device == Is(!occurs))
            && (tab.syms[i].kind != 2 ==> kernel == Is(false) && device == Is(false))
  {
    FindsOccurring(o, hash);
  }

  /** How the checks of a function answer in any code object: the kernel check fails
      exactly when the name cannot be read or the lookup of the name with ".kd"
      behind it fails, where the device check ends the process; and the function is
      a kernel exactly when that lookup finds a symbol. */
  lemma FunctionChecks(o: CodeObject, hash: string -> nat, tab: SymTab, i: nat)
    requires Usable(o, hash) && i < |tab.syms| && tab.syms[i].kind == 2
    ensures var kernel, device, name := IsKernelFunction(o, hash, tab, i), IsDeviceFunction(o, hash, tab, i), NameOf(tab, i);
            && (kernel == Fails <==> name == None || Find(o, hash, name.value + ".kd") == Error)
            && (device == Aborts <==> kernel == Fails)
            && (kernel == Is(true) <==> name.Some? && exists r :: Find(o, hash, name.value + ".kd") == Ok(Some(r)))
            && (device == Is(true) <==> name.Some? && Find(o, hash, name.value + ".kd") == Ok(None))
  {
    var name := NameOf(tab, i);
    if name.Some? && Find(o, hash, name.value + ".kd").Ok? && Find(o, hash, name.value + ".kd").value.Some? {
      assert Find(o, hash, name.value + ".kd") == Ok(Some(Find(o, hash, name.value + ".kd").value.value));
    }
  }

  // ----- the kernel functions of a code object -----

  /** What a linker and loader guarantee: a well-formed first hash section and readable names. */
  ghost predicate WellFormed(o: CodeObject, hash: string -> nat) {
    && L.WellFormed(L.FirstHash(o.elf.sections), hash)
    && NamesReadable(o.elf.symtab) && NamesReadable(o.dynsym)
  }

  /** A plain scan of the hashed dynamic symbols and the symbol table meets `name`. */
  ghost predicate Occurs(o: CodeObject, name: string) {
    L.InHashed(L.FirstHash(o.elf.sections), name) || !Absent(o.elf.symtab, 1, name)
  }

  lemma FindsOccurring(o: CodeObject, hash: string -> nat)
    requires WellFormed(o, hash)
    ensures Usable(o, hash)
    ensures forall name :: Find(o, hash, name).Ok? && (Find(o, hash, name).value.Some? <==> Occurs(o, name))
  {
    forall name ensures L.Usable(L.FirstHash(o.elf.sections), hash, name) {
      L.LookupComplete(o.elf, hash, name, true);
    }
    forall name ensures Find(o, hash, name).Ok? && (Find(o, hash, name).value.Some? <==> Occurs(o, name)) {
      L.LookupComplete(o.elf, hash, name, true);
    }
  }

  ghost predicate IsKernelNamed(o: CodeObject, i: nat)
    requires i < |o.dynsym.syms| && NameOf(o.dynsym, i).Some?
  {
    o.dynsym.syms[i].kind == STT_FUNC && Occurs(o, NameOf(o.dynsym, i).value + KD)
  }

  /** The check of the kernel-function iterator: its position `i` is symbol `i + 1`,
      because the range skips the null symbol. */
  ghost predicate ChecksKernels(o: CodeObject, hash: string -> nat, check: Checker)
    requires Usable(o, hash)
  {
    forall i :: 0 <= i < RangeSize(o.dynsym) ==> check(i) == IsKernelFunction(o, hash, o.dynsym, i + 1)
  }

  lemma KernelCheck(o: CodeObject, hash: string -> nat, i: nat)
    requires WellFormed(o, hash) && Usable(o, hash) && i < |o.dynsym.syms|
    ensures NameOf(o.dynsym, i).Some? && IsKernelFunction(o, hash, o.dynsym, i) == Is(IsKernelNamed(o, i))
  {
    FindsOccurring(o, hash);
  }

  lemma CheckIs(o: CodeObject, hash: string -> nat, check: Checker, i: nat)
    requires WellFormed(o, hash) && Usable(o, hash) && ChecksKernels(o, hash, check) && i < RangeSize(o.dynsym)
    ensures NameOf(o.dynsym, i + 1).Some? && check(i) == Is(IsKernelNamed(o, i + 1))
  {
    KernelCheck(o, hash, i + 1);
    assert check(i) == IsKernelFunction(o, hash, o.dynsym, i + 1);
  }

  /** The check answers whether the function's name plus ".kd" occurs. */
  ghost predicate TellsKernels(o: CodeObject, check: Checker)
    requires NamesReadable(o.dynsym)
  {
    forall i :: 0 <= i < RangeSize(o.dynsym) ==> check(i) == Is(IsKernelNamed(o, i + 1))
  }

  lemma ChecksTell(o: CodeObject, hash: string -> nat, check: Checker)
    requires WellFormed(o, hash) && Usable(o, hash) && ChecksKernels(o, hash, check)
    ensures TellsKernels(o, check)
  {
    forall i | 0 <= i < RangeSize(o.dynsym) ensures check(i) == Is(IsKernelNamed(o, i + 1)) { CheckIs(o, hash, check, i); }
  }

  lemma KernelsVisited(o: CodeObject, check: Checker)
    requires NamesReadable(o.dynsym) && TellsKernels(o, check)
    ensures VisitsKernels(o, check)
  {
    EnumerationExact(check, RangeSize(o.dynsym));
    FilterIs(check, RangeSize(o.dynsym), 0);
  }

  /** The loop visits exactly the functions whose name plus ".kd" occurs, in table
      order: symbol `j` at position `j - 1`, because the range skips the null symbol. */
  ghost predicate VisitsKernels(o: CodeObject, check: Checker)
    requires NamesReadable(o.dynsym)
  {
    var visited := RangeFor(check, RangeSize(o.dynsym));
    && visited == Filter(check, RangeSize(o.dynsym), 0)
    && (forall i: nat :: i in visited <==>
          i + 1 < |o.dynsym.syms| && o.dynsym.syms[i + 1].kind == 2 && Occurs(o, NameOf(o.dynsym, i + 1).value + ".kd"))
    && (forall k, m :: 0 <= k < m < |visited| ==> visited[k] < visited[m])
  }

  /** The iterator over the kernel functions of a well-formed code object visits
      exactly the functions of the dynamic table whose name plus ".kd" occurs. */
  lemma KernelFunctions(o: CodeObject, hash: string -> nat, check: Checker)
    requires WellFormed(o, hash) && Usable(o, hash) && ChecksKernels(o, hash, check)
    ensures VisitsKernels(o, check)
  {
    ChecksTell(o, hash, check);
    KernelsVisited(o, check);
  }

  // ----- pairing -----

  predicate OccursAt(s: string, pattern: string, i: nat) {
    i + |pattern| <= |s| && s[i..i + |pattern|] == pattern
  }

  /** The last place at or before `i` where `pattern` occurs in `s`. */
  function RFind(s: string, pattern: string, i: nat): (r: Option<nat>)
    ensures r.Some? ==> r.value <= i && OccursAt(s, pattern, r.value)
    ensures forall m: nat :: OccursAt(s, pattern, m) && m <= i ==> r.Some? && m <= r.value
    decreases i
  {
    if OccursAt(s, pattern, i) then Some(i)
    else if i == 0 then None
    else RFind(s, pattern, i - 1)
  }

  /** `name.substr(0, name.rfind(".kd"))`: all of the name when there is no ".kd". */
  function FunctionName(name: string): string {
    match RFind(name, KD, |name|)
    case Some(i) => name[..i]
    case None => name
  }

  /** A function's name comes back from its descriptor's, even when it contains ".kd". */
  lemma NameComesBack(name: string)
    ensures FunctionName(name + KD) == name
  {
    var s, at := name + KD, |name|;
    assert OccursAt(s, KD, at);
    assert RFind(s, KD, |s|) == Some(at);
  }

  /** A descriptor's function is named by what stands before its last ".kd", or by
      the whole name if there is none. */
  lemma FunctionNameIs(name: string)
    ensures (forall i: nat :: !OccursAt(name, ".kd", i)) ==> FunctionName(name) == name
    ensures forall i: nat :: OccursAt(name, ".kd", i) && (forall j: nat :: i < j ==> !OccursAt(name, ".kd", j)) ==> FunctionName(name) == name[..i]
  {
  }

  /** A descriptor's name comes back from its function's exactly when it ends in ".kd". */
  lemma DescriptorNameComesBack(name: string)
    ensures FunctionName(name) + KD == name <==> EndsWith(name, KD)
  {
    if EndsWith(name, KD) {
      var base := name[..|name| - |KD|];
      assert name == base + KD;
      NameComesBack(base);
    }
    var f := FunctionName(name);
    assert (f + KD)[|f|..] == KD;
  }

  function NameAt(o: CodeObject, r: L.SymbolRef): Option<string> {
    match r
    case Dynamic(i) =>
      var s := L.FirstHash(o.elf.sections);
      if L.HasTable(s) && i < |s.tab.syms| then NameOf(s.tab, i) else None
    case Static(i) => if i < |o.elf.symtab.syms| then NameOf(o.elf.symtab, i) else None
  }

  function Required(r: Result<Option<L.SymbolRef>>): Result<L.SymbolRef> {
    match r
    case Ok(Some(s)) => Ok(s)
    case _ => Error
  }

  /** fromKernelFunction, for a function of this name. */
  ghost function DescriptorOf(o: CodeObject, hash: string -> nat, name: Option<string>): Result<L.SymbolRef>
    requires Usable(o, hash)
  {
    if name == None then Error else Required(Find(o, hash, name.value + KD))
  }

  /** fromKernelDescriptor, for a descriptor of this name. */
  ghost function FunctionOf(o: CodeObject, hash: string -> nat, name: Option<string>): Result<L.SymbolRef>
    requires Usable(o, hash)
  {
    if name == None then Error else Required(Find(o, hash, FunctionName(name.value)))
  }

  lemma FoundCarries(o: CodeObject, hash: string -> nat, name: string)
    requires Usable(o, hash)
    ensures var r := Find(o, hash, name); r.Ok? && r.value.Some? ==> NameAt(o, r.value.value) == Some(name)
  {
    var r := Find(o, hash, name);
    if r.Ok? && r.value.Some? {
      L.LookupCarriesName(o.elf, hash, name, true, r.value.value);
    }
  }

  /** From a function to its descriptor and back: the second lookup asks for
      exactly the function's name, whatever that name is. */
  lemma FunctionRoundTrip(o: CodeObject, hash: string -> nat, name: string)
    requires Usable(o, hash) && DescriptorOf(o, hash, Some(name)).Ok?
    ensures var d := NameAt(o, DescriptorOf(o, hash, Some(name)).value);
            && d == Some(name + KD)
            && FunctionOf(o, hash, d) == Required(Find(o, hash, name))
            && (FunctionOf(o, hash, d).Ok? ==> NameAt(o, FunctionOf(o, hash, d).value) == Some(name))
  {
    FoundCarries(o, hash, name + KD);
    NameComesBack(name);
    FoundCarries(o, hash, name);
  }

  /** In a well-formed code object the pairing of a kernel function that occurs
      never fails, and the way back ends at its name. */
  lemma KernelRoundTrip(o: CodeObject, hash: string -> nat, name: string)
    requires WellFormed(o, hash) && Usable(o, hash) && Occurs(o, name)
    ensures DescriptorOf(o, hash, Some(name)).Ok? <==> Occurs(o, name + KD)
    ensures DescriptorOf(o, hash, Some(name)).Ok? ==>
              var f := FunctionOf(o, hash, NameAt(o, DescriptorOf(o, hash, Some(name)).value));
              f.Ok? && NameAt(o, f.value) == Some(name)
  {
    FindsOccurring(o, hash);
    if DescriptorOf(o, hash, Some(name)).Ok? {
      FunctionRoundTrip(o, hash, name);
    }
  }

  /** A linked code object: the hash section covers the dynamic symbols that are
      iterated over.  A GNU section leaves out undefined symbols only, and a linked
      code object has no undefined functions. */
  ghost predicate Linked(o: CodeObject) {
    var s := L.FirstHash(o.elf.sections);
    && L.HasTable(s) && s.tab == o.dynsym
    && forall i :: 0 <= i < L.HashedFrom(s) && i < |o.dynsym.syms| ==> o.dynsym.syms[i].kind != STT_FUNC
  }

  ghost predicate NamedOnce(tab: SymTab, i: nat)
    requires i < |tab.syms| && NameOf(tab, i).Some?
  {
    forall j :: 0 <= j < |tab.syms| && j != i ==> !Named(tab, j, NameOf(tab, i).value)
  }

  lemma LinkedOccurs(o: CodeObject, i: nat)
    requires Linked(o) && i < |o.dynsym.syms| && NameOf(o.dynsym, i).Some? && o.dynsym.syms[i].kind == STT_FUNC
    ensures L.InHashed(L.FirstHash(o.elf.sections), NameOf(o.dynsym, i).value)
  {
    assert Named(o.dynsym, i, NameOf(o.dynsym, i).value);
  }

  lemma FindsItself(o: CodeObject, hash: string -> nat, i: nat)
    requires WellFormed(o, hash) && Usable(o, hash) && Linked(o)
    requires i < |o.dynsym.syms| && NameOf(o.dynsym, i).Some? && o.dynsym.syms[i].kind == STT_FUNC && NamedOnce(o.dynsym, i)
    ensures Find(o, hash, NameOf(o.dynsym, i).value) == Ok(Some(L.Dynamic(i)))
  {
    var name := NameOf(o.dynsym, i).value;
    LinkedOccurs(o, i);
    L.LookupComplete(o.elf, hash, name, true);
    L.LookupCarriesName(o.elf, hash, name, true, Find(o, hash, name).value.value);
  }

  lemma KernelPairs(o: CodeObject, hash: string -> nat, i: nat)
    requires WellFormed(o, hash) && Usable(o, hash) && Linked(o)
    requires i < |o.dynsym.syms| && NameOf(o.dynsym, i).Some? && IsKernelNamed(o, i)
    ensures PairsBack(o, hash, i)
  {
    var name := NameOf(o.dynsym, i).value;
    LinkedOccurs(o, i);
    KernelRoundTrip(o, hash, name);
    FunctionRoundTrip(o, hash, name);
    if NamedOnce(o.dynsym, i) { FindsItself(o, hash, i); }
  }

  /** Function `i` has a descriptor, named after it, and comes back from it: the
      same name, and the very same symbol if no other dynamic symbol has its name. */
  ghost predicate PairsBack(o: CodeObject, hash: string -> nat, i: nat)
    requires Usable(o, hash) && i < |o.dynsym.syms| && NameOf(o.dynsym, i).Some?
  {
    var name := NameOf(o.dynsym, i);
    var d := DescriptorOf(o, hash, name);
    && d.Ok? && NameAt(o, d.value) == Some(name.value + KD)
    && var f := FunctionOf(o, hash, NameAt(o, d.value));
       && f.Ok? && NameAt(o, f.value) == name
       && (NamedOnce(o.dynsym, i) ==> f.value == L.Dynamic(i))
  }

  lemma VisitedIsKernel(o: CodeObject, check: Checker, i: nat)
    requires NamesReadable(o.dynsym) && VisitsKernels(o, check) && i in RangeFor(check, RangeSize(o.dynsym))
    ensures i + 1 < |o.dynsym.syms| && NameOf(o.dynsym, i + 1).Some? && IsKernelNamed(o, i + 1)
  {
  }

  /** In a linked code object every function that the kernel iterator visits pairs
      with a descriptor and comes back. */
  lemma VisitedKernelsPair(o: CodeObject, hash: string -> nat, check: Checker, i: nat)
    requires WellFormed(o, hash) && Usable(o, hash) && Linked(o) && ChecksKernels(o, hash, check)
    requires i in RangeFor(check, RangeSize(o.dynsym))
    ensures i + 1 < |o.dynsym.syms| && NameOf(o.dynsym, i + 1).Some? && PairsBack(o, hash, i + 1)
  {
    KernelFunctions(o, hash, check);
    VisitedIsKernel(o, check, i);
    KernelPairs(o, hash, i + 1);
  }

  /** From a descriptor to its function and back: the same name returns exactly
      when the descriptor's name ends in ".kd". */
  lemma DescriptorRoundTrip(o: CodeObject, hash: string -> nat, name: string)
    requires Usable(o, hash) && FunctionOf(o, hash, Some(name)).Ok?
    requires DescriptorOf(o, hash, NameAt(o, FunctionOf(o, hash, Some(name)).value)).Ok?
    ensures var d := DescriptorOf(o, hash, NameAt(o, FunctionOf(o, hash, Some(name)).value));
            NameAt(o, d.value) == Some(name) <==> EndsWith(name, KD)
  {
    FoundCarries(o, hash, FunctionName(name));
    FoundCarries(o, hash, FunctionName(name) + KD);
    DescriptorNameComesBack(name);
  }
}
