# Verification model of the Luthier host tooling

This project models the parts of Luthier in which concurrency, in-place updates
or malformed input make the code hard to trust, and proves what they promise.
It is written in Dafny 4.11; `dafny verify dfyconfig.toml` checks all of it.

| module | what it models |
|---|---|
| `SingletonProtocol` | the reference-counted singleton as a transition system: any number of threads, nested calls, both storage backends |
| `SingletonInvariant`, `SingletonSteps` | the invariant of every reachable state, and that every step keeps it |
| `SingletonSafety` | counts, lifetimes, publication and the return of `destroyInstance`, over whole runs |
| `SingletonProgress` | the hang on self-destruction, which calls can move, and bounds on every schedule and every drain |
| `SingletonWaits` | exactly when every call returns: the order of publication keeps waits from forming a cycle |
| `SingletonCalls` | what each operation does from beginning to end when it runs alone, when it waits for the lock, and when the debug assertion fails |
| `SingletonRefinement` | the lock-guarded backend refines the atomic one |
| `ElfSymbols`, `FilterWords`, `GnuHash`, `SysVHash`, `SymbolLookup` | symbol lookup by name through hash sections and by scan, and the hash tables that a linker emits |
| `FilteringIterator`, `AmdgcnSymbols` | the symbol classes of a code object, the iterators over them, and kernel/descriptor pairing |
| `ApiTables` | snapshots and wrapper installers on the HSA API table, over any number of registrations |
| `RegistrationProvider` | the life of a registration callback provider |
| `HipSnapshot` | the size-bounded copy of a HIP table and its guarded lookup, byte by byte |
| `WrapperCalls` | the `withInstance` calls of the API-table wrappers, placed in a run of the singleton |
| `LcoCache`, `KernelRecords`, `DestroyChain` | the loaded-code-object cache, the records of instrumented kernels, and the wrappers around `hsa_executable_destroy` and the load |
| `PacketMonitor` | queue creation and packet batches, with and without a live tool |
| `OpcodeMap` | the generated real-to-pseudo opcode table |

How the model is laid out:

- The singleton is a state machine on values: a state holds the slot, the
  lock, the count and history of every object, and every pending call with its
  local references; each lock operation, slot access, retain, release, swap,
  compare-exchange, count read and callback boundary is one step. An object's
  `phase` records history only; no step's guard reads it. A call sits at a
  `Loc`: its thread and its depth in that thread's stack of calls.
- Code that updates things in place is a class or a method with loops, proved
  against a function of the old state; the main results are lemmas about that
  function. The cache, the providers and the API table also have runs of steps
  around them, because their properties are about interleavings.
- The environment enters as parameters: hash functions, the runtime's and
  rocprofiler-sdk's answers, and whether a guarded memory copy succeeds. In
  `PacketMonitor` and `DestroyChain` whether a wrapper finds the tool is no
  parameter: its `withInstance` call is part of a run of the singleton, which
  decides it. The runs of `LcoCache` leave it open which loads and destroys
  bypass the cache, and their results hold for every choice.

Assumptions about the environment: rocprofiler-sdk calls the callbacks in
registration order and hands over a fresh table each time; a wrapper calls on
through the location that it was installed with; handles and base addresses of
code objects are reused only after a destroy; live code objects have different
base addresses; no executable is destroyed while a load into it is in flight,
or destroyed twice; a load that fails leaves the caller's variable alone;
string tables end with NUL, as LLVM's accessor checks.

Several results say exactly when the code does what it promises, because it
does not do so always:

- `destroyInstance` never returns when a release build calls it from inside a
  callback on the instance that it removes (`SingletonProgress.ReleaseBuildHangs`,
  `SingletonProgress.SelfHeldForever`). At the end of any schedule without a fatal
  call, every call has returned if and only if no `destroyInstance` has removed
  an instance on which a callback of its own thread was running
  (`SingletonWaits.ReturnsIff`, `SingletonWaits.ScheduleReturnsIff`). Destroying
  another instance from inside a callback is harmless.
- A lookup of a code object whose executable is being destroyed re-inserts its
  erased entry, which then outlives it; with a reused handle the cache serves
  the old bytes (`LcoCache.StaleAfterReuse`). A destroy bypasses the erase when
  its wrapper finds the tool unpublished, and when the tool makes it itself
  through its snapshot of the table, as it does for its instrumented kernels; a
  single lookup of such a code object leaves a dead key
  (`LcoCache.OwnExecutableGoesStale`). The cache is coherent throughout a run if
  and only if no executable is destroyed after such a lookup, or by a destroy
  that bypasses the erase while the cache holds one of its keys
  (`LcoCache.CoherentIff`).
- A lookup that fills the cache enters no base address. The base map is the exact
  inverse of the base function on the cached code objects if and only if no
  lookup fills the cache and no executable is destroyed as above
  (`LcoCache.BasesExactIff`); on what the load wrapper inserted, lookups do not
  matter (`LcoCache.BasesStayInverseIff`).
- The two inserts of the load wrapper keep present entries. They meet one exactly
  when it was left behind before the load or, in the cache, when the code object
  has been looked up since (`LcoCache.InsertMeetsKeyIff`,
  `LcoCache.InsertMeetsBaseIff`); a base left behind keeps its dead handle
  (`LcoCache.StaleBaseAfterReuse`).
- The load wrapper copies its own uninitialised variable to the caller's before it
  looks at the status. With no tool published it behaves as the runtime's
  function if and only if the load succeeds or the caller passed null
  (`DestroyChain.FailingLoadOverwrites`, `DestroyChain.LoadForwardsIff`).
- A provider let go after `std::terminate` may still be called
  (`RegistrationProvider.TerminateLeavesDangling`, `RegistrationProvider.DanglingFireIff`).

Smaller exact conditions: a symbol loop that ignores `Err` is right if and only
if no check fails or there is nothing to find (`FilteringIterator.EnumerationExact`);
a descriptor's name comes back if and only if it ends in `.kd`
(`AmdgcnSymbols.DescriptorNameComesBack`); wrapper chains are whole if and only
if no two wrappers share a saved pointer (`ApiTables.WrappersCompose`); the HIP
guard is exact unless the runtime's table ends inside an entry
(`HipSnapshot.GuardExactIff`); the generated opcode function gives its own answer
back for every opcode but the table size, for which it reads past the table
(`OpcodeMap.GeneratedIsIdempotentIff`).

Where code and comments disagree, the model follows the code: the header
comment of `include/luthier/Common/Singleton.h:34-39` lets
`LUTHIER_SINGLETON_FORCE_INTRUSIVE` select the `shared_ptr` backend, while lines
59-61 select the intrusive one; the comment at
`include/luthier/HSATooling/LoadedCodeObjectCache.h:81-83` says that the cache is
kept coherent, which holds under the condition above.

## Model

| member | source | states |
|---|---|---|
| `SingletonSteps.StepKeeps` | include/luthier/Common/Singleton.h:94-157 | every step of any call, in either backend, keeps the whole invariant: counts, lock, stacks, callback depth, and each call's agreement with the history of its objects |
| `SingletonSafety.RunKeeps` | include/luthier/Common/Singleton.h:94-284 | every state of every run satisfies the invariant |
| `SingletonSafety.CountIsReferences` | include/luthier/Common/Singleton.h:96-157 | in every reachable state an object's count is the number of references naming it: slot, `Held`, `New`, `Old`/`Doomed`, the by-value copy, and `Expected` of a failed compare-exchange |
| `SingletonSafety.GainedFromSlotOrMaker` | include/luthier/Common/Singleton.h:138-150 | a reference is gained only from the slot, or by the maker of an object not yet published |
| `SingletonSafety.StepAdvances` | include/luthier/Common/Singleton.h:110-117 | no step moves any object back in its life, and only the call that owns a stage ends it |
| `SingletonSafety.LastRelease` | include/luthier/Common/Singleton.h:110-117 | which release takes a count from 1 to 0: the reset of a drained object and the drop of an unpublished one, never the exit of `withInstance` |
| `SingletonSafety.NoReferenceAfterUnpublish` | include/luthier/Common/Singleton.h:152-157 | once an object has left the slot no call ever gains a reference to it and its count never rises |
| `SingletonSafety.CountOfOneIsStable` | include/luthier/Common/Singleton.h:281-283 | a use count of 1 read by the drain stays 1 until its own reset, whatever other threads do |
| `SingletonSafety.DestructorRunsAlone` | include/luthier/Common/Singleton.h:272-284 | while or after an object's destructor runs, no slot, callback or local refers to it |
| `SingletonSafety.DestroyReturnsAfterFree` | include/luthier/Common/Singleton.h:272-284 | after unpublishing, the call is draining or destroying until the object is freed |
| `SingletonSafety.FreeingRelease` | include/luthier/Common/Singleton.h:112-117 | the destructor starts exactly in the release from 1 to 0 by the call that owns the object |
| `SingletonSafety.EndIsFinal` | include/luthier/Common/Singleton.h:112-117 | an object whose destructor has begun is never used again |
| `SingletonSafety.FreedOnce` | include/luthier/Common/Singleton.h:112-117 | no run starts the destruction of an object twice |
| `SingletonSafety.FreedExactlyOnce` | include/luthier/Common/Singleton.h:112-117 | an object that a run leaves neither in the slot nor with a pending call has been destroyed exactly once and is freed: nothing leaks |
| `SingletonSafety.NeverTouchedAfterFree` | include/luthier/Common/Singleton.h:94-157 | no step touches a freed object, and only its destroyer touches one under destruction |
| `SingletonSafety.UnpublishedIsPrivate` | include/luthier/Common/Singleton.h:261-265 | an object not yet published is referenced by its maker only |
| `SingletonSafety.LosingPublication` | include/luthier/Common/Singleton.h:96-99 | a publication that loses leaves its object out of the slot for good; only its maker destroys it, and has freed it once the maker is gone or reports the failure |
| `SingletonSafety.LoserStays` | include/luthier/Common/Singleton.h:143-150 | no step of any thread rescues or publishes an object whose publication has lost |
| `SingletonSafety.LostNeverReturns` | include/luthier/Common/Singleton.h:143-150 | a `createInstance` call that has lost its publication never returns, in any continuation |
| `SingletonSafety.NoCallbackWhileEmpty` | include/luthier/Common/Singleton.h:224-253 | a `withInstance` call over an empty slot never runs its callback |
| `SingletonSafety.SlotFilledByPublication` | include/luthier/Common/Singleton.h:261-265 | only the publishing step of a `createInstance` fills an empty slot, with the object its own call made |
| `SingletonProgress.SelfHeldForever` | include/luthier/Common/Singleton.h:281-283 | destroying from inside a callback on the same instance leaves the count above 1 in every continuation: the call never returns |
| `SingletonProgress.ReleaseBuildHangs` | include/luthier/Common/Singleton.h:163-175 | a concrete run of a release build that reaches that hang |
| `SingletonProgress.DebugNeverSelfHeld` | include/luthier/Common/Singleton.h:273-277 | the depth of a thread is the number of its running callbacks, so the assertion rules the hang out in debug builds |
| `SingletonProgress.CallbackExitDrops` | include/luthier/Common/Singleton.h:224-253 | leaving `withInstance` drops exactly that call's reference and never the last one |
| `SingletonProgress.WorkBoundsSchedules` | include/luthier/Common/Singleton.h:272-284 | however threads are scheduled, pending calls take at most as many steps as the work measure says |
| `SingletonProgress.DrainIsBounded` | include/luthier/Common/Singleton.h:281-283 | after an unpublication the calls that hold the object take no more steps than the work they had left then, whatever calls start meanwhile |
| `SingletonProgress.DrainIsOver` | include/luthier/Common/Singleton.h:281-283 | a drain whose object no other call holds can go on |
| `SingletonWaits.CallbackIsOlder` | include/luthier/Common/Singleton.h:272-284 | what a callback holds was in the slot no later than what a drain made from inside it took |
| `SingletonWaits.OrderedFirst` | include/luthier/Common/Singleton.h:138-157 | such objects were published in that order: an object that has left the slot never comes back |
| `SingletonWaits.NoDeadlock` | include/luthier/Common/Singleton.h:272-284 | at the end of any run without a fatal call, while a call is pending, some call can move or a thread drains what its own callback holds |
| `SingletonWaits.EveryCallReturns` | include/luthier/Common/Singleton.h:272-284 | when nothing can move any more, every call has returned if and only if no thread drains what its own callback holds |
| `SingletonWaits.ReturnsIff` | include/luthier/Common/Singleton.h:272-284 | and if and only if no `destroyInstance` removed an instance on which a callback of its own thread was running |
| `SingletonWaits.DebugReturns` | include/luthier/Common/Singleton.h:273-277 | in a debug build every call has returned |
| `SingletonWaits.StretchExtendsRun` | include/luthier/Common/Singleton.h:272-284 | any schedule of pending calls extends the run it starts from by exactly its steps and states |
| `SingletonWaits.ScheduleReturnsIff` | include/luthier/Common/Singleton.h:272-284 | hence every schedule has at most as many steps as the work measure, and one that ends where nothing can move has returned from every call if and only if neither the run nor the schedule took an instance held by a callback of the same thread |
| `SingletonCalls.AssertsIff` | include/luthier/Common/Singleton.h:272-278 | over runs, a `destroyInstance` call fails the debug assertion if and only if it is made in a debug build while a callback of its own thread runs, and otherwise starts |
| `SingletonCalls.DestroyStarts` | include/luthier/Common/Singleton.h:272-278 | the same in every reachable state, where a failed assertion is the end of the call |
| `SingletonCalls.WithInstanceRuns` | include/luthier/Common/Singleton.h:224-253 | run alone over a published instance, `withInstance` runs its callback on it with one more reference, and leaves everything as it was |
| `SingletonCalls.WithInstanceFindsNone` | include/luthier/Common/Singleton.h:224-253 | over an empty slot it returns and changes nothing |
| `SingletonCalls.CreatePublishes` | include/luthier/Common/Singleton.h:260-265 | run alone over an empty slot, `createInstance` publishes its object with a count of 1 and returns |
| `SingletonCalls.CreateFails` | include/luthier/Common/Singleton.h:260-265 | over a full slot it destroys its object and ends in the fatal error, leaving the published instance and its count alone |
| `SingletonCalls.DestroyEmpties` | include/luthier/Common/Singleton.h:272-284 | run alone, `destroyInstance` empties the slot whoever else holds the instance, outside a debug build's own callbacks |
| `SingletonCalls.DrainWaits` | include/luthier/Common/Singleton.h:281-283 | while others hold the instance, the drain changes nothing |
| `SingletonCalls.DestroyFrees` | include/luthier/Common/Singleton.h:272-284 | with no other reference it destroys the instance and returns |
| `SingletonCalls.DestroyFindsNone` | include/luthier/Common/Singleton.h:272-284 | over an empty slot it returns and changes nothing |
| `SingletonCalls.BlockedIff` | include/luthier/Common/Singleton.h:138-157 | a call waits if and only if the slot is lock-guarded and it reads while some call writes, or writes while some call reads or writes |
| `SingletonRefinement.StepRefines` | include/luthier/Common/Singleton.h:138-157 | each step of the lock-guarded backend is none, one or two steps of the atomic backend between the states they stand for |
| `SingletonRefinement.RunRefines` | include/luthier/Common/Singleton.h:105-159 | every interleaved run over the lock-guarded slot is a run over an atomic load / compare-exchange / exchange slot |
| `SingletonRefinement.AbsInv` | include/luthier/Common/Singleton.h:94-101 | the atomic state, with counts recomputed, satisfies the same invariant |
| `SingletonRefinement.SameForUsers` | include/luthier/Common/Singleton.h:224-284 | slot, lives of objects, running constructors, callbacks and destructors, and failures are the same in both runs |
| `ElfSymbols.CString` | include/luthier/Object/ELFObjectFileUtils.h:278-279 | a name is everything before the first NUL |
| `ElfSymbols.NameEndsInside` | include/luthier/Object/ELFObjectFileUtils.h:274-279 | reading a name stays inside a NUL-terminated string table |
| `ElfSymbols.NameIs` | include/luthier/Object/ELFObjectFileUtils.h:274-279 | a symbol's name is the text between its offset and the next NUL, and missing exactly when the offset is past the string table |
| `GnuHash.GetSymbolFromGnuHashTable` | include/luthier/Object/ELFObjectFileUtils.h:246-285 | the Bloom test and the chain walk, in 32-bit index arithmetic, compute the lookup function on every usable table |
| `FilterWords.BothBitsPass` | include/luthier/Object/ELFObjectFileUtils.h:258-265 | the mask test lets a hash through when both of its bits are set |
| `GnuHash.LookupSound` | include/luthier/Object/ELFObjectFileUtils.h:267-284 | on any usable table a found symbol is a hashed symbol with the name, and an error names a broken entry |
| `GnuHash.LookupIff` | include/luthier/Object/ELFObjectFileUtils.h:246-285 | over any usable table, broken or not: a symbol is found exactly when both bits of the hash are set in its word, the walk from its bucket gets there past other names and no end mark, and it has the name; and it is reported exactly when its name cannot be read instead |
| `GnuHash.WalkArrives` | include/luthier/Object/ELFObjectFileUtils.h:267-283 | from the start of the bucket the walk reaches the first symbol with the name |
| `GnuHash.GnuFindsFirst` | include/luthier/Object/ELFObjectFileUtils.h:246-285 | over a table that is as the ABI asks of a linker, formulas spelled out, the lookup finds exactly the lowest hashed index with the name, or nothing if there is none |
| `GnuHash.LinkerRoundTrip` | include/luthier/Object/ELFObjectFileUtils.h:246-285 | the lookup undoes the linker: for all names, hash functions, word widths, numbers of filter words and buckets and shifts, the emitted table is so, and each hashed name is found in it |
| `GnuHash.LooseWalkIsStrict` | include/luthier/Object/ELFObjectFileUtils.h:271-282 | skipping the end-of-chain test on a mismatch never changes the answer over a well-formed table |
| `GnuHash.OneSymbolFound` | include/luthier/Object/ELFObjectFileUtils.h:246-285 | the name of a single symbol is found in its emitted table, whatever the name, the hash and the layout |
| `SysVHash.GetSymbolFromSysVHashTable` | include/luthier/Object/ELFObjectFileUtils.h:287-311 | the chain walk computes the lookup function whenever it returns at all |
| `SysVHash.StopsSoonOrNever` | include/luthier/Object/ELFObjectFileUtils.h:294-309 | a walk that returns follows at most as many links as there are symbols; any longer walk goes around a cycle forever |
| `SysVHash.WalkSound` | include/luthier/Object/ELFObjectFileUtils.h:294-309 | a found symbol is on the chain and carries the name; each error names a broken entry |
| `SysVHash.NothingMissed` | include/luthier/Object/ELFObjectFileUtils.h:294-310 | a walk that finds nothing has compared every symbol on the chain |
| `SysVHash.WalkIff` | include/luthier/Object/ELFObjectFileUtils.h:294-310 | over any table, a walk that returns finds the first symbol on its way with the name, reports the first missing or unnamed one, and finds nothing exactly when it gets to STN_UNDEF |
| `SysVHash.SysVFinds` | include/luthier/Object/ELFObjectFileUtils.h:287-311 | over a table whose symbols are on the chains of the buckets that the ABI names, the lookup returns for every name and finds a symbol exactly when a scan would |
| `SysVHash.LinkerRoundTrip` | include/luthier/Object/ELFObjectFileUtils.h:287-311 | the lookup undoes the linker: for all names, hash functions and numbers of buckets, each name is found in the emitted table |
| `SymbolLookup.GetHashTableSymbol` | include/luthier/Object/ELFObjectFileUtils.h:313-406 | an error if the section, its links, its place in the file or its size fails a check; otherwise the lookup of its kind, whose errors are passed on |
| `SymbolLookup.PassesIff` | include/luthier/Object/ELFObjectFileUtils.h:357-399 | where nothing wraps, a section passes the checks if and only if it can be read, ends inside the file and has room for its header and a word for each array element |
| `SymbolLookup.SectionAnswers` | include/luthier/Object/ELFObjectFileUtils.h:372-402 | a section that passes the checks answers with its table's symbol, an error exactly when the table reports a broken entry, and nothing otherwise |
| `SymbolLookup.LookupSymbolByName` | include/luthier/Object/ELFObjectFileUtils.h:426-455 | only the first hash section is used, its error or symbol is returned, and otherwise the symbol table is scanned past its null symbol if asked for |
| `SymbolLookup.ScanSymbols` | include/luthier/Object/ELFObjectFileUtils.h:446-453 | the fallback loop computes the scan of the table past its null symbol |
| `SymbolLookup.ScanFinds` | include/luthier/Object/ELFObjectFileUtils.h:446-453 | the scan stops at the first symbol that has the name or whose name cannot be read |
| `SymbolLookup.ScanFindsFirst` | include/luthier/Object/ELFObjectFileUtils.h:446-453 | over readable names the scan is the first match |
| `SymbolLookup.LookupComplete` | include/luthier/Object/ELFObjectFileUtils.h:426-455 | over a well-formed hash section the lookup succeeds exactly when the name is hashed or, with the fallback, in the symbol table, and prefers the hashed symbol |
| `SymbolLookup.LookupCarriesName` | include/luthier/Object/ELFObjectFileUtils.h:426-455 | however broken the object, a symbol that is found carries the name |
| `SymbolLookup.RelocatableIsScan` | include/luthier/Object/ELFObjectFileUtils.h:426-455 | without a hash section the lookup is the first-match scan |
| `SymbolLookup.LaterSectionsIgnored` | include/luthier/Object/ELFObjectFileUtils.h:431-444 | sections after the first hash section make no difference |
| `FilteringIterator.SymbolIterator.Begin` | include/luthier/Object/AMDGCNObjectFile.h:408-424 | `*_begin` stops at the first symbol of the class; a failed check reports the error and gives the end |
| `FilteringIterator.SymbolIterator.Advance` | include/luthier/Object/AMDGCNObjectFile.h:198-218 | `++` stops at the next symbol of the class, or at one whose check fails, with the error set |
| `FilteringIterator.Enumerate` | include/luthier/Object/AMDGCNObjectFile.h:408-432 | a loop with `Err` clear afterwards has visited exactly the symbols of the class, and `Err` is set only by a failing check |
| `FilteringIterator.FilterIs` | include/luthier/Object/AMDGCNObjectFile.h:408-432 | the reference: the symbols of the class in table order, each once, and no other |
| `FilteringIterator.EnumerationExact` | include/luthier/Object/AMDGCNObjectFile.h:198-218 | a loop that ignores `Err` visits exactly the class if and only if no check fails or the class is empty |
| `AmdgcnSymbols.ClassesPartition` | include/luthier/Object/AMDGCNObjectFile.h:459-493 | every function is a kernel or a device function and every object a descriptor or a variable, never both, unless a check fails; which checks then fail, and how |
| `AmdgcnSymbols.DescriptorIff` | include/luthier/Object/AMDGCNObjectFile.h:459-472 | an object is a descriptor if and only if it has 64 bytes and its name is something with ".kd" behind it, and a variable otherwise; a symbol of type 10 is a descriptor if and only if it has 64 bytes; nothing else is either |
| `AmdgcnSymbols.FunctionClassIff` | include/luthier/Object/AMDGCNObjectFile.h:474-493 | a function is a kernel if and only if its name with ".kd" behind it occurs, and a device function otherwise; nothing else is either |
| `AmdgcnSymbols.FunctionChecks` | include/luthier/Object/AMDGCNObjectFile.h:474-493 | in any code object, the kernel check of a function fails exactly when its name or the lookup of its descriptor does, where the device check ends the process |
| `AmdgcnSymbols.FindsOccurring` | include/luthier/Object/AMDGCNObjectFile.h:383-391 | a lookup in a well-formed code object finds exactly the names that a plain scan meets |
| `AmdgcnSymbols.KernelFunctions` | include/luthier/Object/AMDGCNObjectFile.h:474-487 | the kernel-function iterator visits exactly the dynamic function symbols whose name plus ".kd" occurs |
| `AmdgcnSymbols.RFind` | include/luthier/Object/AMDGCNObjectFile.h:563-565 | the last occurrence of a pattern |
| `AmdgcnSymbols.FunctionNameIs` | include/luthier/Object/AMDGCNObjectFile.h:561-565 | a descriptor's function is named by what stands before the last ".kd", or by the whole name if there is none |
| `AmdgcnSymbols.NameComesBack` | include/luthier/Object/AMDGCNObjectFile.h:561-565 | stripping at the last ".kd" undoes appending it, even for names containing ".kd" |
| `AmdgcnSymbols.DescriptorNameComesBack` | include/luthier/Object/AMDGCNObjectFile.h:561-565 | a descriptor's name comes back from its function's exactly when it ends in ".kd" |
| `AmdgcnSymbols.FunctionRoundTrip` | include/luthier/Object/AMDGCNObjectFile.h:523-575 | from a function to its descriptor and back, the second lookup asks for exactly the function's name |
| `AmdgcnSymbols.KernelRoundTrip` | include/luthier/Object/AMDGCNObjectFile.h:523-575 | in a well-formed code object that pairing never fails for a name that occurs, and ends at the same name |
| `AmdgcnSymbols.VisitedKernelsPair` | include/luthier/Object/AMDGCNObjectFile.h:408-432 | in a linked code object every function that the kernel iterator visits pairs with a descriptor named after it and comes back: to its name, and to the same symbol unless another dynamic symbol has the name |
| `AmdgcnSymbols.DescriptorRoundTrip` | include/luthier/Object/AMDGCNObjectFile.h:523-575 | from a descriptor to its function and back, the same name returns exactly when it ends in ".kd" |
| `ApiTables.Interceptor.InstallWrapperEntry` | include/luthier/Rocprofiler/HsaApiTableWrapperInstaller.h:46-57 | the entry is saved, then overwritten; a missing entry is fatal and changes nothing |
| `ApiTables.Interceptor.TakeSnapshot` | include/luthier/Rocprofiler/HsaApiTableSnapshot.h:64-74 | a snapshot captures the entries of the first table below the smaller of the two sizes and ignores later tables |
| `ApiTables.Interceptor.RunInstaller` | include/luthier/Rocprofiler/HsaApiTableWrapperInstaller.h:105-108 | one callback installs its wrappers in order |
| `ApiTables.Interceptor.Register` | include/luthier/Rocprofiler/HsaApiTableWrapperInstaller.h:75-109 | one registration runs every client's callback in order over the fresh table |
| `ApiTables.FatalIffMissing` | include/luthier/Rocprofiler/HsaApiTableWrapperInstaller.h:50-54 | a registration is fatal exactly when an installer's entry is missing |
| `ApiTables.WrappersCompose` | include/luthier/Rocprofiler/HsaApiTableWrapperInstaller.h:46-57 | whatever earlier registrations left behind, each call runs its entry's wrappers once each, newest first, then the pristine function, exactly when no two wrappers share a saved pointer |
| `ApiTables.EveryRegistrationComposes` | include/luthier/Rocprofiler/HsaApiTableWrapperInstaller.h:81-88 | the same after every one of any number of registrations on fresh tables |
| `ApiTables.SharedLocationBreaks` | include/luthier/Rocprofiler/HsaApiTableWrapperInstaller.h:55-56 | two wrappers with one saved pointer cannot both go on correctly |
| `ApiTables.CallsOnce` | include/luthier/Rocprofiler/HsaApiTableWrapperInstaller.h:55-56 | a call runs one sequence of functions only |
| `ApiTables.SnapshotsNeverChange` | include/luthier/Rocprofiler/HsaApiTableSnapshot.h:65-71 | a captured snapshot survives any number of registrations unchanged |
| `ApiTables.SnapshotIsPristine` | include/luthier/Rocprofiler/HsaApiTableSnapshot.h:61-114 | a snapshot entry is the first registration's pristine function for good, exactly when no client before the snapshot wraps it |
| `ApiTables.SnapshotsFirst` | include/luthier/Rocprofiler/HsaApiTableSnapshot.h:61-114 | if snapshots register before installers, all they hold is pristine |
| `RegistrationProvider.Provider.ApiRegistrationCallback` | include/luthier/Rocprofiler/ApiTableRegistrationCallbackProvider.h:127-167 | the user's callback runs, and the flag is set after it, exactly when all arguments pass; only the first run sees the flag unset |
| `RegistrationProvider.Provider.Destroy` | include/luthier/Rocprofiler/ApiTableRegistrationCallbackProvider.h:223-266 | an unregistered provider always goes; a registered one never with an unknown status, and otherwise exactly during finalization or after a host abort |
| `RegistrationProvider.StepKeeps` | include/luthier/Rocprofiler/ApiTableRegistrationCallbackProvider.h:185-266 | registered providers stay alive until finalization or a terminate, and finalization is permanent |
| `RegistrationProvider.EndsIff` | include/luthier/Rocprofiler/ApiTableRegistrationCallbackProvider.h:127-266 | exactly what ends the process: destroying a registered provider on an unknown status or neither during finalization nor after an abort, or a refused registration with a callback listed |
| `RegistrationProvider.NeverFiresOnDestroyed` | include/luthier/Rocprofiler/ApiTableRegistrationCallbackProvider.h:203-222 | in a run without a terminate no callback fires on a destroyed provider |
| `RegistrationProvider.LetGoIsFinal` | include/luthier/Rocprofiler/ApiTableRegistrationCallbackProvider.h:223-266 | without an earlier terminate, no callback fires after a registered provider has been let go |
| `RegistrationProvider.DanglingIffLetGo` | include/luthier/Rocprofiler/ApiTableRegistrationCallbackProvider.h:223-266 | a listed provider is gone exactly when an earlier step destroyed a registered provider with a known status while finalizing or after an abort |
| `RegistrationProvider.DanglingFireIff` | include/luthier/Rocprofiler/ApiTableRegistrationCallbackProvider.h:238-257 | a callback reaches a destroyed provider exactly when an earlier destructor let it go after a terminate |
| `RegistrationProvider.TerminateLeavesDangling` | include/luthier/Rocprofiler/ApiTableRegistrationCallbackProvider.h:238-257 | a concrete run in which that happens |
| `HipSnapshot.Snapshot.OnRegistration` | include/luthier/Rocprofiler/HipApiTableSnapshot.h:42-66 | the first registration copies at most both tables' sizes into the zeroed table; later ones change nothing |
| `HipSnapshot.Snapshot.GetFunction` | include/luthier/HIP/ApiTable.h:1072-1083 | the guarded access, fatal before the first registration and past the captured size |
| `HipSnapshot.SizeSurvives` | include/luthier/Rocprofiler/HipApiTableSnapshot.h:62-64 | the captured size field is the runtime's, even if the copy stops inside it |
| `HipSnapshot.LookupIs` | include/luthier/HIP/ApiTable.h:1041-1055 | for every pair of table sizes an entry wholly inside the runtime's table is found with the runtime's pointer |
| `HipSnapshot.LookupReads` | include/luthier/HIP/ApiTable.h:1041-1083 | byte by byte: the runtime's size is its first eight bytes, and an entry within it is found with the eight bytes at its offset, lowest first |
| `HipSnapshot.GuardExactIff` | include/luthier/HIP/ApiTable.h:1041-1055 | the guard is exact unless the runtime's table ends inside the entry |
| `HipSnapshot.AlignedLookup` | include/luthier/HIP/ApiTable.h:1041-1055 | with word-aligned sizes and offsets the lookup succeeds exactly for the runtime's entries, with the runtime's pointers |
| `LcoCache.LoadedCodeObjectCache.InsertLoaded` | include/luthier/HSATooling/LoadedCodeObjectCache.h:115-157 | a successful copy enters both maps without replacing present keys; an unreadable storage is skipped; a malformed one and a failing query are fatal and change nothing |
| `LcoCache.LoadedCodeObjectCache.EraseLoaded` | include/luthier/HSATooling/LoadedCodeObjectCache.h:167-182 | the loop removes each listed code object and its base address; fatal exactly when a loaded-memory query fails |
| `LcoCache.LoadedCodeObjectCache.GetOrCreate` | src/lib/HSATooling/LoadedCodeObjectCache.cpp:73-114 | a miss fills the cache from the runtime's storage but not the map of base addresses |
| `LcoCache.DestroyWrapperErases` | include/luthier/HSATooling/LoadedCodeObjectCache.h:167-182 | in whatever order the runtime lists them, exactly the executable's entries go |
| `LcoCache.EnterDoes` | include/luthier/HSATooling/LoadedCodeObjectCache.h:115-157 | after a load, a copied storage enters both maps and an unreadable one leaves them alone |
| `LcoCache.CachedUntilDestroyed` | include/luthier/HSATooling/LoadedCodeObjectCache.h:153-182 | from the load wrapper's insert until the destruction of its executable a code object is cached with its storage bytes and its handle under its base address, or with what the insert met there |
| `LcoCache.CoherentSteps` | include/luthier/HSATooling/LoadedCodeObjectCache.h:97-185 | only the runtime's destroy disturbs coherence, and exactly when a key of its executable was left behind |
| `LcoCache.CachedAreKeptIff` | src/lib/HSATooling/LoadedCodeObjectCache.cpp:73-114 | the cache holds exactly what the load wrapper put there throughout a run, if and only if no lookup meets an absent key |
| `LcoCache.BasesExactIff` | include/luthier/HSATooling/LoadedCodeObjectCache.h:153-156 | the base map is exactly the inverse of the base function on the cached code objects throughout a run, if and only if no lookup fills the cache and no executable is destroyed with a key left behind |
| `LcoCache.BasesStayInverseIff` | include/luthier/HSATooling/LoadedCodeObjectCache.h:153-182 | on what the load wrapper inserted it is the inverse whatever the lookups, if and only if no destroy bypasses the erase while the cache holds one of these code objects |
| `LcoCache.StaleBaseAfterReuse` | include/luthier/HSATooling/LoadedCodeObjectCache.h:153-156 | a base address left behind and reused by a later load keeps the handle of the dead code object |
| `LcoCache.CoherentIff` | include/luthier/HSATooling/LoadedCodeObjectCache.h:97-185 | keys are live code objects with exactly their storage bytes throughout a run, if and only if no executable is destroyed after a lookup of its code objects during the destruction, or by a destroy that bypasses the erase while the cache holds one of its keys; live keys alone already give the bytes |
| `LcoCache.OwnExecutableGoesStale` | src/lib/HSATooling/InstrumentedKernelLoaderAndLauncher.cpp:96-118 | a run in which the tool's own executable is destroyed past the wrappers and leaves a dead key, with no lookup during a destruction |
| `LcoCache.StaleAfterReuse` | src/lib/HSATooling/LoadedCodeObjectCache.cpp:73-114 | such a lookup leaves a stale key, and the next code object with its handle is given the old bytes |
| `LcoCache.InsertMeetsKeyIff` | include/luthier/HSATooling/LoadedCodeObjectCache.h:153-156 | the insert into the cache meets an existing key exactly when one was left behind before the runtime's load, or the tool has looked the code object up since |
| `LcoCache.InsertMeetsBaseIff` | include/luthier/HSATooling/LoadedCodeObjectCache.h:153-156 | the insert into the base map meets an existing base address exactly when it was left behind before the runtime's load, with the handle it had then; never while the base map is the inverse on what was inserted |
| `KernelRecords.KernelLoader.EraseRecord` | src/lib/HSATooling/InstrumentedKernelLoaderAndLauncher.cpp:96-118 | the log gains, in this order, the destroy of the executable, of the reader and the release of each piece of storage, and nothing else; the record goes |
| `KernelRecords.KernelLoader.Victims` | src/lib/HSATooling/InstrumentedKernelLoaderAndLauncher.cpp:209-235 | exactly the keys whose descriptor lies in the loaded memory, each once |
| `KernelRecords.HitIff` | src/lib/HSATooling/InstrumentedKernelLoaderAndLauncher.cpp:209-229 | a kernel is hit if and only if its descriptor is one of the bytes of a listed range that could be queried |
| `KernelRecords.KernelLoader.InvalidateOriginalExec` | src/lib/HSATooling/InstrumentedKernelLoaderAndLauncher.cpp:199-243 | every such record is erased, its executable released right before its reader and its storage, and nothing else is released; the others stay, and a failing query changes nothing |
| `DestroyChain.Tool.EraseOf` | include/luthier/HSATooling/LoadedCodeObjectCache.h:167-182 | the cache wrapper's callback erases the listed code objects; a failing query is fatal |
| `DestroyChain.Tool.InvalidateOf` | include/luthier/HSATooling/InstrumentedKernelLoaderAndLauncher.h:289-303 | the loader wrapper's callback removes exactly the records of kernels in the listed code objects, or changes nothing |
| `DestroyChain.Tool.Call` | include/luthier/HSATooling/LoadedCodeObjectCache.h:162-185 | a call through any chain of the two wrappers: each that finds the tool does its work, in chain order, and the runtime's destroy comes last |
| `DestroyChain.Tool.Destroy` | include/luthier/HSATooling/HSATool.h:101-121 | with the tool published during both visits, records and then cache entries of the executable are gone before the runtime's destroy, which runs once and last; with none published the call is the runtime's own |
| `DestroyChain.Tool.LoadWrapper` | include/luthier/HSATooling/LoadedCodeObjectCache.h:97-160 | the runtime's status is passed on; the caller's variable is written even on failure; the cache gains the code object exactly when the call finds the tool and every query succeeds |
| `DestroyChain.FailingLoadOverwrites` | include/luthier/HSATooling/LoadedCodeObjectCache.h:105-114 | a failing load with a caller's variable overwrites it, which the runtime's function does not |
| `DestroyChain.LoadForwardsIff` | include/luthier/HSATooling/LoadedCodeObjectCache.h:105-114 | the caller cannot tell the wrapper from the runtime's function if and only if the load succeeds or no variable is passed |
| `DestroyChain.DestroyOrder` | include/luthier/HSATooling/HSATool.h:101-121 | after any registration of clients of which the cache's and, later, the loader's installer alone wrap hsa_executable_destroy, a call of it runs the loader's wrapper, then the cache's, then the runtime's function |
| `DestroyChain.ToolActionsAre` | include/luthier/HSATooling/HSATool.h:101-121 | the order of installations that the base-class order gives |
| `DestroyChain.ToolIsOrdered` | include/luthier/HSATooling/HSATool.h:101-121 | the tool's own clients are such clients and share no saved pointer |
| `PacketMonitor.Monitor.QueueCreate` | include/luthier/HSATooling/PacketMonitorTrait.h:58-107 | by the runtime's answers: a successful registration keeps the queue with the handler on it, an invalid queue is replaced if all three further calls succeed and otherwise fatal, any other error is fatal; a call that finds no tool is the runtime's own; the tool is found while it stays published, and not while absent |
| `PacketMonitor.Monitor.HandlePackets` | include/luthier/HSATooling/PacketMonitorTrait.h:109-127 | a call that finds the tool gives it the batch, unchanged, and is fatal exactly on null data; one that finds none passes the batch to the writer |
| `PacketMonitor.WrittenBetweenPublications` | include/luthier/HSATooling/PacketMonitorTrait.h:113-126 | every batch handled between an unpublication and the next publication is written through once, in order, and none reaches the tool |
| `PacketMonitor.SeenWhilePublished` | include/luthier/HSATooling/PacketMonitorTrait.h:113-126 | every batch handled while the tool stays published reaches it once, in order, and none is written through |
| `PacketMonitor.NoBatchLost` | include/luthier/HSATooling/PacketMonitorTrait.h:113-126 | whenever the tool comes and goes, the batches seen and written together are as many as were handled, and none is taken back |
| `WrapperCalls.FoundWhilePublished` | include/luthier/Common/Singleton.h:224-253 | a `withInstance` call during which an instance stays published finds one |
| `WrapperCalls.ForwardsWhileEmpty` | include/luthier/Common/Singleton.h:224-253 | a call during which none is published finds none |
| `WrapperCalls.ForwardsBetweenPublications` | include/luthier/Common/Singleton.h:224-284 | so does every call between an unpublication and the next publication |
| `WrapperCalls.EmptyUntilPublished` | include/luthier/Common/Singleton.h:272-284 | the slot stays empty from the step that unpublishes until a step that publishes |
| `WrapperCalls.FindsLive` | include/luthier/Common/Singleton.h:224-253 | a wrapper that finds an instance holds one that is alive and kept alive |
| `OpcodeMap.BuildPseudoInsts` | src/bin/luthier-tblgen/RealToPseudoOpcodeMapBackend.cpp:85-97 | the first pseudo definition with a key wins |
| `OpcodeMap.EmitTable` | src/bin/luthier-tblgen/RealToPseudoOpcodeMapBackend.cpp:32-69 | one row per numbered instruction, naming the pseudo of its key or itself |
| `OpcodeMap.MapIsIdempotent` | src/bin/luthier-tblgen/RealToPseudoOpcodeMapBackend.cpp:32-69 | the map is total and idempotent and every pseudo opcode is a fixed point |
| `OpcodeMap.SameKeySamePseudo` | src/bin/luthier-tblgen/RealToPseudoOpcodeMapBackend.cpp:45-58 | real opcodes with one key map to its first pseudo, or each to itself |
| `OpcodeMap.GeneratedAnswers` | src/bin/luthier-tblgen/RealToPseudoOpcodeMapBackend.cpp:32-77 | the generated function answers a real opcode with the first pseudo definition that has its key, if any, every other opcode of the table with itself, and one past the table size with 65535 |
| `OpcodeMap.GeneratedIsIdempotentIff` | src/bin/luthier-tblgen/RealToPseudoOpcodeMapBackend.cpp:71-77 | the generated function has an answer and gives it back for every opcode but the table size, where it reads past its table; every pseudo opcode is its own answer |

## Left out

- C++ memory orders: atomics are sequentially consistent steps.
- Object addresses are identities that are never reused, counts and depths are unbounded integers, and exceptions out of constructors, destructors and callbacks are not modelled.
- The callback depth is kept in release builds too, where nothing reads it.
- The process going on after a fatal error: a fatal call simply takes no further step while the others may.
- The value that `withInstance` returns from a callback, and references kept past it.
- SysVHash.GetSymbolFromSysVHashTable: requires the walk to return, because over a cyclic chain without the name the code never does (`SysVHash.StopsSoonOrNever`).
- GnuHash.GetSymbolFromGnuHashTable: requires non-empty filter and bucket arrays, a shift below 32 and a chain word per hashed symbol, because the code reads them unchecked, and that a walk past index 0xffffffff cannot wrap around to symbol 0.
- SymbolLookup.GetHashTableSymbol: requires the arrays of a section that passes the checks to be usable; that the size check keeps them inside the section is not derived, and the queries for the section, its links and its symbols are one flag, `readable`.
- The bit operations on 32-bit hash words are written as arithmetic (`h | 1 == c | 1` as equal halves); the filter mask is on 64-bit vectors.
- The naming of section symbols by their section inside LLVM's symbol accessor.
- The device-function iterator's crash on an error is the outcome `Aborts`; what a release build of LLVM would do instead is not modelled.
- Version checks, absent extensions and null sub-tables of the HSA table, which end the process before any entry is touched, and the extension table snapshot's query of the runtime.
- The chained terminate handlers for several template instantiations: one flag stands for all.
- LcoCache.CoherentIff: speaks of one tool's cache; a new tool starts with an empty cache of its own.
- KernelRecords.KernelLoader.InvalidateOriginalExec: errors of the releases are not modelled, since the caller swallows them; the end of a range is not reduced modulo 2^64.
- The reader/writer lock of the kernel loader and the recursive mutex of the cache: each locked region is one step.
- Loading instrumented kernels, overriding dispatch packets, and everything of the HIP registration path.
- The parsing of ELF contents, metadata documents and load offsets.
- Code generation: lifting, liveness, lane allocation, branch relaxation and the payload passes are not part of this model.
