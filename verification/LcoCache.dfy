/** The cache of loaded code objects and its coherence with the runtime,
    include/luthier/HSATooling/LoadedCodeObjectCache.h:97-185 and
    src/lib/HSATooling/LoadedCodeObjectCache.cpp:73-114. */
module LcoCache {
  import opened Common

  type Bytes = seq<nat>

  /** A loaded code object of the runtime: its executable, the base address and
      size of its loaded memory, and its storage. */
  datatype Loaded = Loaded(exec: nat, base: nat, size: nat, storage: Bytes)

  /** Copying and parsing the storage succeeded, the copy was refused by the
      crash guard, or the copy does not parse. */
  datatype Attempt = Copied | Unreadable | Malformed

  /** The two maps of the cache. */
  datatype Maps = Maps(cache: map<nat, Bytes>, bases: map<nat, nat>)

  /** `DenseMap::insert`: a present key keeps its value. */
  function Insert<V>(m: map<nat, V>, k: nat, v: V): map<nat, V> {
    if k in m then m else m[k := v]
  }

  function Inserted(m: Maps, lco: nat, info: Loaded): Maps {
    Maps(Insert(m.cache, lco, info.storage), Insert(m.bases, info.base, lco))
  }

  /** The effect of the loop of the destroy wrapper over the first `n` code objects. */
  function Erased(m: Maps, lcos: seq<nat>, n: nat, live: map<nat, Loaded>): Maps
    requires n <= |lcos| && forall l :: l in lcos ==> l in live
  {
    if n == 0 then m else
      var m1 := Erased(m, lcos, n - 1, live);
      Maps(m1.cache - {lcos[n - 1]}, m1.bases - {live[lcos[n - 1]].base})
  }

  class LoadedCodeObjectCache {
    var cache: map<nat, Bytes>
    var bases: map<nat, nat>

    ghost function Contents(): Maps
      reads this
    {
      Maps(cache, bases)
    }

    constructor ()
      ensures Contents() == Maps(map[], map[])
    {
      cache, bases := map[], map[];
    }

    /** The load wrapper's work on a live tool, after the runtime's load of `lco`.
        `storage` and `memory` tell whether the two queries of the runtime
        succeed; only an unreadable storage is passed over without a fatal error. */
    method InsertLoaded(lco: nat, info: Loaded, storage: bool, attempt: Attempt, memory: bool) returns (fatal: bool)
      modifies this
      ensures fatal <==> !storage || attempt == Malformed || (attempt == Copied && !memory)
      ensures Contents() == if storage && attempt == Copied && memory then Inserted(old(Contents()), lco, info) else old(Contents())
    {
      if !storage { return true; }
      match attempt
      case Unreadable => return false;
      case Malformed => return true;
      case Copied =>
        if !memory { return true; }
        if lco !in cache { cache := cache[lco := info.storage]; }
        if info.base !in bases { bases := bases[info.base := lco]; }
        return false;
    }

    /** The destroy wrapper's work on a live tool, before the runtime's destroy:
        fatal at the first code object whose loaded memory cannot be queried. */
    method EraseLoaded(lcos: seq<nat>, live: map<nat, Loaded>, memory: set<nat>) returns (fatal: bool)
      requires forall l :: l in lcos ==> l in live
      modifies this
      ensures fatal <==> exists l :: l in lcos && l !in memory
      ensures !fatal ==> Contents() == Erased(old(Contents()), lcos, |lcos|, live)
    {
      for i: nat := 0 to |lcos|
        invariant Contents() == Erased(old(Contents()), lcos, i, live)
        invariant forall j :: 0 <= j < i ==> lcos[j] in memory
      {
        cache := cache - {lcos[i]};
        if lcos[i] !in memory {
          assert lcos[i] in lcos;
          return true;
        }
        bases := bases - {live[lcos[i]].base};
      }
      return false;
    }

    /** getOrCreateLoadedCodeObjectEntry: a miss reads the storage from the
        runtime and fills the cache, but not the map of base addresses. */
    method GetOrCreate(lco: nat, storage: Option<Bytes>, attempt: Attempt) returns (r: Result<Bytes>)
      modifies this
      ensures bases == old(bases)
      ensures r == (if lco in old(cache) then Ok(old(cache)[lco])
                    else if storage.Some? && attempt == Copied then Ok(storage.value) else Error)
      ensures cache == if r.Ok? then old(cache)[lco := r.value] else old(cache)
    {
      if lco !in cache {
        if storage.None? || attempt != Copied { return Error; }
        cache := cache[lco := storage.value];
      }
      return Ok(cache[lco]);
    }
  }

  // ----- the cache beside the runtime -----

  /** The runtime's code objects and the executables being destroyed, the code
      objects whose load has not passed the insert yet, those that the load
      wrapper has inserted, and the cache. */
  datatype State = State(
    live: map<nat, Loaded>, dying: set<nat>, pending: set<nat>, kept: set<nat>, maps: Maps)

  datatype Step =
    | Load(lco: nat, info: Loaded)        // the runtime's load returns
    | Enter(lco: nat, attempt: Attempt)   // the load wrapper finds the tool and inserts
    | Skip(lco: nat)                      // the load passes without the insert
    | Leave(exec: nat)                    // the destroy wrapper finds the tool and erases
    | Forward(exec: nat)                  // a destroy reaches the runtime without the erase
    | Destroy(exec: nat)                  // the runtime's destroy
    | Look(lco: nat, attempt: Attempt)    // a lookup by code running on the tool

  /** No executable is destroyed twice, or while a load into it is in flight. */
  predicate MayDestroy(s: State, e: nat) {
    e !in s.dying && forall l :: l in s.pending ==> l in s.live && s.live[l].exec != e
  }

  /** A load or destroy bypasses the cache when its wrapper finds no tool, and when
      the tool makes it itself through its snapshot of the table, as it does for
      its instrumented kernels.  Which call bypasses is left open here: what
      follows holds for every choice. */
  predicate Enabled(s: State, step: Step) {
    match step
    case Load(l, info) =>
      // handles and addresses are reused only after a destroy
      && l !in s.live && info.exec !in s.dying
      && forall k :: k in s.live ==> s.live[k].base != info.base
    case Enter(l, attempt) => l in s.pending && attempt != Malformed
    case Skip(l) => l in s.pending
    case Leave(e) => MayDestroy(s, e)
    case Forward(e) => MayDestroy(s, e)
    case Destroy(e) => e in s.dying
    case Look(l, attempt) => l in s.live
  }

  /** The code objects of an executable. */
  ghost function Of(s: State, e: nat): set<nat> {
    set l | l in s.live && s.live[l].exec == e
  }

  ghost function Apply(s: State, step: Step): State
    requires Enabled(s, step)
  {
    match step
    case Load(l, info) => s.(live := s.live[l := info], pending := s.pending + {l})
    case Enter(l, attempt) =>
      if attempt == Copied && l in s.live
      then s.(pending := s.pending - {l}, kept := s.kept + {l}, maps := Inserted(s.maps, l, s.live[l]))
      else s.(pending := s.pending - {l})
    case Skip(l) => s.(pending := s.pending - {l})
    case Leave(e) =>
      s.(dying := s.dying + {e}, kept := s.kept - Of(s, e), maps := Without(s, Of(s, e)))
    case Forward(e) => s.(dying := s.dying + {e})
    case Destroy(e) => s.(dying := s.dying - {e}, live := s.live - Of(s, e))
    case Look(l, attempt) =>
      if l in s.maps.cache || attempt != Copied then s
      else s.(maps := s.maps.(cache := s.maps.cache[l := s.live[l].storage]))
  }

  ghost predicate Next(s: State, step: Step, s': State) {
    Enabled(s, step) && s' == Apply(s, step)
  }

  /** The maps without these code objects and without their base addresses. */
  ghost function Without(s: State, lcos: set<nat>): Maps
    requires forall l :: l in lcos ==> l in s.live
  {
    Maps(s.maps.cache - lcos, s.maps.bases - (set l | l in lcos :: s.live[l].base))
  }

  function Elements(lcos: seq<nat>): set<nat> {
    set l | l in lcos
  }

  /** The loop of the destroy wrapper computes this, in whatever order the
      runtime lists the code objects. */
  lemma {:induction false} EraseIsWithout(s: State, lcos: seq<nat>, n: nat)
    requires n <= |lcos| && forall l :: l in lcos ==> l in s.live
    ensures Erased(s.maps, lcos, n, s.live) == Without(s, Elements(lcos[..n]))
  {
    if n > 0 {
      EraseIsWithout(s, lcos, n - 1);
      var before, now := Elements(lcos[..n - 1]), Elements(lcos[..n]);
      assert lcos[..n] == lcos[..n - 1] + [lcos[n - 1]];
      assert now == before + {lcos[n - 1]};
      assert (set l | l in now :: s.live[l].base) == (set l | l in before :: s.live[l].base) + {s.live[lcos[n - 1]].base};
    }
  }

  lemma DestroyWrapperErases(s: State, e: nat, lcos: seq<nat>)
    requires Enabled(s, Leave(e)) && Elements(lcos) == Of(s, e) && forall l :: l in lcos ==> l in s.live
    ensures Erased(s.maps, lcos, |lcos|, s.live) == Apply(s, Leave(e)).maps
  {
    EraseIsWithout(s, lcos, |lcos|);
    assert lcos[..|lcos|] == lcos;
  }

  // ----- runs -----

  /** What the runtime guarantees by itself. */
  ghost predicate RuntimeOk(s: State) {
    && (forall k, l :: k in s.live && l in s.live && k != l ==> s.live[k].base != s.live[l].base)
    && (forall l :: l in s.pending ==> l in s.live && s.live[l].exec !in s.dying)
  }

  lemma RuntimeKeeps(s: State, step: Step, s': State)
    requires RuntimeOk(s) && Next(s, step, s')
    ensures RuntimeOk(s')
  {
  }

  /** A run starts with an empty cache beside any code objects loaded before. */
  ghost predicate IsRun(states: seq<State>, steps: seq<Step>) {
    && |states| == |steps| + 1
    && RuntimeOk(states[0]) && states[0].pending == {} && states[0].dying == {} && states[0].kept == {}
    && states[0].maps == Maps(map[], map[])
    && forall k {:trigger steps[k]} :: 0 <= k < |steps| ==> Next(states[k], steps[k], states[k + 1])
  }

  lemma {:induction false} RunKeeps(states: seq<State>, steps: seq<Step>, k: nat)
    requires IsRun(states, steps) && k < |states|
    ensures RuntimeOk(states[k])
  {
    if k > 0 {
      RunKeeps(states, steps, k - 1);
      RuntimeKeeps(states[k - 1], steps[k - 1], states[k]);
    }
  }

  // ----- coherence -----

  /** Every cached key is a live code object. */
  ghost predicate KeysLive(s: State) {
    forall l :: l in s.maps.cache ==> l in s.live
  }

  /** Every cached key is a live code object with exactly its storage bytes. */
  ghost predicate Coherent(s: State) {
    forall l :: l in s.maps.cache ==> l in s.live && s.maps.cache[l] == s.live[l].storage
  }

  predicate IsOf(s: State, l: nat, e: nat) {
    l in s.live && s.live[l].exec == e
  }

  /** A lookup of a code object of `e` while `e` is being destroyed. */
  predicate Racy(s: State, step: Step, e: nat) {
    step.Look? && step.attempt == Copied && IsOf(s, step.lco, e) && e in s.dying
  }

  /** The keys of the cache, or those that the load wrapper has put there. */
  function Keys(s: State, all: bool): set<nat> {
    if all then s.maps.cache.Keys else s.kept
  }

  /** Some of these keys belong to an executable whose destruction has begun. */
  ghost predicate Waiting(s: State, e: nat, all: bool) {
    e in s.dying && exists l :: l in Keys(s, all) && IsOf(s, l, e)
  }

  /** The step leaves such a key behind: a lookup after the erase, or a destroy
      that bypasses the erase although the cache holds one. */
  ghost predicate Exposes(s: State, step: Step, e: nat, all: bool) {
    || (all && Racy(s, step, e))
    || (step == Forward(e) && exists l :: l in Keys(s, all) && IsOf(s, l, e))
  }

  /** Since the last destroy of `e`, a step has left such a key behind. */
  ghost predicate Exposed(states: seq<State>, steps: seq<Step>, k: nat, e: nat, all: bool)
    requires k <= |steps| && |steps| < |states|
  {
    exists j :: 0 <= j < k && Exposes(states[j], steps[j], e, all) && forall m :: j < m < k ==> steps[m] != Destroy(e)
  }

  /** The runtime destroys an executable of which a key has been left behind. */
  ghost predicate DestroysExposed(states: seq<State>, steps: seq<Step>, k: nat, all: bool)
    requires k < |steps| && |steps| < |states|
  {
    steps[k].Destroy? && Exposed(states, steps, k, steps[k].exec, all)
  }

  lemma WaitingSteps(s: State, step: Step, s': State, e: nat, all: bool)
    requires RuntimeOk(s) && Next(s, step, s')
    ensures Waiting(s', e, all) <==> Exposes(s, step, e, all) || (Waiting(s, e, all) && step != Destroy(e))
  {
    if Exposes(s, step, e, all) || (Waiting(s, e, all) && step != Destroy(e)) {
      WaitingStarts(s, step, s', e, all);
    } else if Waiting(s', e, all) {
      WaitingComesFrom(s, step, s', e, all);
    }
  }

  lemma WaitingStarts(s: State, step: Step, s': State, e: nat, all: bool)
    requires RuntimeOk(s) && Next(s, step, s')
    requires Exposes(s, step, e, all) || (Waiting(s, e, all) && step != Destroy(e))
    ensures Waiting(s', e, all)
  {
    var l := if all && Racy(s, step, e) then step.lco else var l :| l in Keys(s, all) && IsOf(s, l, e); l;
    assert l in Keys(s', all) && IsOf(s', l, e);
  }

  lemma WaitingComesFrom(s: State, step: Step, s': State, e: nat, all: bool)
    requires RuntimeOk(s) && Next(s, step, s') && Waiting(s', e, all)
    ensures Exposes(s, step, e, all) || (Waiting(s, e, all) && step != Destroy(e))
  {
    var l :| l in Keys(s', all) && IsOf(s', l, e);
    assert l in Keys(s, all) || step.Look? || step.Enter?;
  }

  lemma {:induction false} WaitingIffExposed(states: seq<State>, steps: seq<Step>, k: nat, e: nat, all: bool)
    requires IsRun(states, steps) && k < |states|
    ensures Waiting(states[k], e, all) <==> Exposed(states, steps, k, e, all)
  {
    if k > 0 {
      WaitingIffExposed(states, steps, k - 1, e, all);
      RunKeeps(states, steps, k - 1);
      WaitingSteps(states[k - 1], steps[k - 1], states[k], e, all);
      ExposedLonger(states, steps, k, e, all);
    }
  }

  lemma ExposedLonger(states: seq<State>, steps: seq<Step>, k: nat, e: nat, all: bool)
    requires 0 < k <= |steps| && |steps| < |states|
    ensures Exposed(states, steps, k, e, all) <==>
              Exposes(states[k - 1], steps[k - 1], e, all) || (Exposed(states, steps, k - 1, e, all) && steps[k - 1] != Destroy(e))
  {
    if Exposed(states, steps, k, e, all) {
      var j :| 0 <= j < k && Exposes(states[j], steps[j], e, all) && forall m :: j < m < k ==> steps[m] != Destroy(e);
      assert j < k - 1 ==> Exposed(states, steps, k - 1, e, all);
    }
    if Exposed(states, steps, k - 1, e, all) && steps[k - 1] != Destroy(e) {
      var j :| 0 <= j < k - 1 && Exposes(states[j], steps[j], e, all) && forall m :: j < m < k - 1 ==> steps[m] != Destroy(e);
      assert forall m :: j < m < k ==> steps[m] != Destroy(e);
    }
  }

  /** Only the runtime's destroy can break coherence, and it does so exactly
      when a key of its executable has been left behind. */
  lemma CoherentSteps(s: State, step: Step, s': State)
    requires RuntimeOk(s) && Next(s, step, s') && Coherent(s)
    ensures !(step.Destroy? && Waiting(s, step.exec, true)) ==> Coherent(s')
    ensures step.Destroy? && Waiting(s, step.exec, true) ==> !KeysLive(s')
  {
    if step.Destroy? && Waiting(s, step.exec, true) {
      var l :| l in Keys(s, true) && IsOf(s, l, step.exec);
      assert l in s'.maps.cache && l !in s'.live;
    } else if step.Destroy? {
      forall l | l in s.maps.cache ensures l in s'.live {
        assert l in Keys(s, true);
      }
    }
  }

  lemma CoherentNext(states: seq<State>, steps: seq<Step>, k: nat)
    requires IsRun(states, steps) && k < |steps| && Coherent(states[k])
    ensures Coherent(states[k + 1]) <==> !DestroysExposed(states, steps, k, true)
    ensures DestroysExposed(states, steps, k, true) ==> !KeysLive(states[k + 1])
  {
    RunKeeps(states, steps, k);
    if steps[k].Destroy? {
      WaitingIffExposed(states, steps, k, steps[k].exec, true);
    }
    CoherentSteps(states[k], steps[k], states[k + 1]);
  }

  lemma {:induction false} CoherentSoFar(states: seq<State>, steps: seq<Step>, k: nat)
    requires IsRun(states, steps) && k < |states|
    requires forall j :: 0 <= j < k ==> !DestroysExposed(states, steps, j, true)
    ensures Coherent(states[k])
  {
    if k > 0 {
      CoherentSoFar(states, steps, k - 1);
      assert !DestroysExposed(states, steps, k - 1, true);
      CoherentNext(states, steps, k - 1);
    }
  }

  lemma FirstExposed(states: seq<State>, steps: seq<Step>, k: nat, all: bool) returns (j: nat)
    requires k < |steps| < |states| && DestroysExposed(states, steps, k, all)
    ensures j <= k && DestroysExposed(states, steps, j, all)
    ensures forall i :: 0 <= i < j ==> !DestroysExposed(states, steps, i, all)
  {
    j := 0;
    while !DestroysExposed(states, steps, j, all)
      invariant j <= k
      invariant forall i :: 0 <= i < j ==> !DestroysExposed(states, steps, i, all)
      decreases k - j
    {
      j := j + 1;
    }
  }

  /** Every cached key is a live code object with exactly its storage bytes
      throughout a run, if and only if the runtime never destroys an executable
      after a lookup of one of its code objects during the destruction, or by a
      destroy that bypasses the erase while the cache holds one of them. */
  lemma CoherentIff(states: seq<State>, steps: seq<Step>)
    requires IsRun(states, steps)
    ensures (forall k :: 0 <= k < |states| ==> Coherent(states[k])) <==>
              (forall k :: 0 <= k < |steps| ==> !DestroysExposed(states, steps, k, true))
    ensures (forall k :: 0 <= k < |states| ==> Coherent(states[k])) <==> (forall k :: 0 <= k < |states| ==> KeysLive(states[k]))
  {
    if k :| 0 <= k < |steps| && DestroysExposed(states, steps, k, true) {
      var j := FirstExposed(states, steps, k, true);
      CoherentSoFar(states, steps, j);
      CoherentNext(states, steps, j);
      assert !KeysLive(states[j + 1]) && !Coherent(states[j + 1]);
    } else {
      forall k | 0 <= k < |states| ensures Coherent(states[k]) && KeysLive(states[k]) {
        CoherentSoFar(states, steps, k);
      }
    }
  }

  /** A lookup during the destruction leaves a key that outlives its code object,
      and the next code object with the same handle is given the old bytes. */
  lemma StaleAfterReuse(s: State, l: nat, next: Loaded)
    requires RuntimeOk(s) && Coherent(s) && l in s.live && Racy(s, Look(l, Copied), s.live[l].exec)
    requires var s2 := Apply(Apply(s, Look(l, Copied)), Destroy(s.live[l].exec)); Enabled(s2, Load(l, next))
    ensures var s2 := Apply(Apply(s, Look(l, Copied)), Destroy(s.live[l].exec));
            && l in s2.maps.cache && l !in s2.live
            && var s4 := Apply(Apply(s2, Load(l, next)), Enter(l, Copied));
               s4.live[l] == next && s4.maps.cache[l] == s.live[l].storage
  {
  }

  /** The load wrapper's insert comes after every load that finds the tool: it
      enters both maps if the storage could be copied, and leaves them alone if it
      was unreadable; either way the load is over. */
  lemma EnterDoes(s: State, l: nat)
    requires RuntimeOk(s) && l in s.pending
    ensures Enabled(s, Enter(l, Copied)) && Enabled(s, Enter(l, Unreadable)) && !Enabled(s, Enter(l, Malformed))
    ensures Apply(s, Enter(l, Copied)) == s.(pending := s.pending - {l}, kept := s.kept + {l}, maps := Inserted(s.maps, l, s.live[l]))
    ensures Apply(s, Enter(l, Unreadable)) == s.(pending := s.pending - {l})
  {
  }

  /** What is cached of a code object once the load wrapper has inserted it. */
  ghost predicate IsCached(s: State, l: nat, info: Loaded, bytes: Bytes, handle: nat) {
    && l in s.live && s.live[l] == info
    && l in s.maps.cache && s.maps.cache[l] == bytes && info.base in s.maps.bases && s.maps.bases[info.base] == handle
  }

  lemma StaysCached(s: State, step: Step, s': State, l: nat, info: Loaded, bytes: Bytes, handle: nat)
    requires RuntimeOk(s) && Next(s, step, s') && IsCached(s, l, info, bytes, handle)
    requires step != Leave(info.exec) && step != Destroy(info.exec)
    ensures IsCached(s', l, info, bytes, handle)
  {
  }

  /** From the load wrapper's insert until the destruction of its executable, a
      code object is cached with the bytes of its storage and its handle under its
      base address, or with what the insert met there. */
  lemma {:induction false} CachedUntilDestroyed(states: seq<State>, steps: seq<Step>, i: nat, j: nat, l: nat)
    requires IsRun(states, steps) && i < j < |states| && steps[i] == Enter(l, Copied) && l in states[i].live
    requires forall k :: i < k < j ==> steps[k] != Leave(states[i].live[l].exec) && steps[k] != Destroy(states[i].live[l].exec)
    ensures var m, info := states[i].maps, states[i].live[l];
            IsCached(states[j], l, info, if l in m.cache then m.cache[l] else info.storage, if info.base in m.bases then m.bases[info.base] else l)
  {
    var m, info := states[i].maps, states[i].live[l];
    if i + 1 < j {
      CachedUntilDestroyed(states, steps, i, j - 1, l);
      RunKeeps(states, steps, j - 1);
      StaysCached(states[j - 1], steps[j - 1], states[j], l, info,
                  if l in m.cache then m.cache[l] else info.storage, if info.base in m.bases then m.bases[info.base] else l);
    }
  }

  /** An executable of the tool's own is loaded and destroyed through its snapshot
      of the table, past both wrappers.  One lookup of its code object is enough
      for a dead key, although none comes during a destruction. */
  lemma OwnExecutableGoesStale() returns (states: seq<State>, steps: seq<Step>)
    ensures IsRun(states, steps)
    ensures forall k, e :: 0 <= k < |steps| ==> !Racy(states[k], steps[k], e)
    ensures !KeysLive(states[|steps|])
  {
    var none := Maps(map[], map[]);
    var info := Loaded(0, 100, 8, [1]);
    var s0 := State(map[], {}, {}, {}, none);
    var s1 := State(map[7 := info], {}, {7}, {}, none);
    var s2 := s1.(pending := {});
    var s3 := s2.(maps := Maps(map[7 := [1]], map[]));
    var s4 := s3.(dying := {0});
    var s5 := State(map[], {}, {}, {}, s4.maps);
    assert s4.dying - {0} == {};
    assert s4.live - Of(s4, 0) == map[];
    assert 7 in s5.maps.cache;
    states, steps := [s0, s1, s2, s3, s4, s5], [Load(7, info), Skip(7), Look(7, Copied), Forward(0), Destroy(0)];
    assert Next(s0, steps[0], s1) && Next(s1, steps[1], s2) && Next(s2, steps[2], s3) && Next(s3, steps[3], s4) && Next(s4, steps[4], s5);
  }

  // ----- the map of base addresses -----

  /** A lookup that fills the cache; it enters no base address. */
  predicate Fills(s: State, step: Step) {
    step.Look? && step.attempt == Copied && step.lco !in s.maps.cache
  }

  lemma FillingSteps(s: State, step: Step, s': State)
    requires Next(s, step, s') && s.maps.cache.Keys == s.kept
    ensures s'.maps.cache.Keys == s'.kept <==> !Fills(s, step)
  {
    if Fills(s, step) {
      assert step.lco in s'.maps.cache.Keys && step.lco !in s'.kept;
    }
  }

  lemma {:induction false} KeptSoFar(states: seq<State>, steps: seq<Step>, k: nat)
    requires IsRun(states, steps) && k < |states|
    requires forall j {:trigger steps[j]} :: 0 <= j < k ==> !Fills(states[j], steps[j])
    ensures states[k].maps.cache.Keys == states[k].kept
  {
    if k > 0 {
      KeptSoFar(states, steps, k - 1);
      FillingSteps(states[k - 1], steps[k - 1], states[k]);
    }
  }

  /** The cache holds exactly what the load wrapper has put there throughout a
      run, if and only if no lookup meets an absent key. */
  lemma CachedAreKeptIff(states: seq<State>, steps: seq<Step>)
    requires IsRun(states, steps)
    ensures (forall k :: 0 <= k < |states| ==> states[k].maps.cache.Keys == states[k].kept) <==>
              (forall k :: 0 <= k < |steps| ==> !Fills(states[k], steps[k]))
  {
    if k :| 0 <= k < |steps| && Fills(states[k], steps[k]) {
      if states[k].maps.cache.Keys == states[k].kept {
        FillingSteps(states[k], steps[k], states[k + 1]);
      }
    } else {
      forall k | 0 <= k < |states| ensures states[k].maps.cache.Keys == states[k].kept {
        KeptSoFar(states, steps, k);
      }
    }
  }

  /** The map of base addresses is the inverse of the base function on these keys. */
  ghost predicate Inverse(s: State, keys: set<nat>) {
    && (forall l :: l in keys ==> l in s.live && s.live[l].base in s.maps.bases && s.maps.bases[s.live[l].base] == l)
    && (forall b :: b in s.maps.bases ==> s.maps.bases[b] in keys && s.maps.bases[b] in s.live && s.live[s.maps.bases[b]].base == b)
  }

  /** No code object whose insert is still to come has been inserted before. */
  ghost predicate PendingNew(s: State) {
    forall l :: l in s.pending ==> l !in s.kept
  }

  lemma InverseSteps(s: State, step: Step, s': State)
    requires RuntimeOk(s) && Next(s, step, s') && Inverse(s, s.kept) && PendingNew(s) && s.kept <= s.maps.cache.Keys
    ensures !(step.Destroy? && Waiting(s, step.exec, false)) ==> Inverse(s', s'.kept) && PendingNew(s') && s'.kept <= s'.maps.cache.Keys
    ensures step.Destroy? && Waiting(s, step.exec, false) ==> !Inverse(s', s'.kept)
  {
    match step
    case Enter(l, attempt) => if attempt == Copied { EnterInverse(s, l); }
    case Leave(e) => LeaveInverse(s, e);
    case Destroy(e) => DestroyInverse(s, e);
    case _ =>
  }

  lemma EnterInverse(s: State, l: nat)
    requires RuntimeOk(s) && l in s.pending && Inverse(s, s.kept) && PendingNew(s) && s.kept <= s.maps.cache.Keys
    ensures var s' := Apply(s, Enter(l, Copied)); Inverse(s', s'.kept) && PendingNew(s') && s'.kept <= s'.maps.cache.Keys
  {
  }

  lemma LeaveInverse(s: State, e: nat)
    requires RuntimeOk(s) && Enabled(s, Leave(e)) && Inverse(s, s.kept) && PendingNew(s) && s.kept <= s.maps.cache.Keys
    ensures var s' := Apply(s, Leave(e)); Inverse(s', s'.kept) && PendingNew(s') && s'.kept <= s'.maps.cache.Keys
  {
  }

  lemma DestroyInverse(s: State, e: nat)
    requires RuntimeOk(s) && Enabled(s, Destroy(e)) && Inverse(s, s.kept)
    ensures Inverse(Apply(s, Destroy(e)), s.kept) <==> !Waiting(s, e, false)
  {
    if Waiting(s, e, false) {
      var l :| l in Keys(s, false) && IsOf(s, l, e);
      assert l in s.kept && l !in Apply(s, Destroy(e)).live;
    } else {
      forall l | l in s.kept ensures l in Apply(s, Destroy(e)).live {
        assert l in Keys(s, false);
      }
    }
  }

  /** The map of base addresses is the inverse on what the load wrapper put into the cache. */
  ghost predicate KeptInverse(s: State) {
    Inverse(s, s.kept) && PendingNew(s) && s.kept <= s.maps.cache.Keys
  }

  lemma InverseNext(states: seq<State>, steps: seq<Step>, k: nat)
    requires IsRun(states, steps) && k < |steps| && KeptInverse(states[k])
    ensures !DestroysExposed(states, steps, k, false) ==> KeptInverse(states[k + 1])
    ensures DestroysExposed(states, steps, k, false) ==> !Inverse(states[k + 1], states[k + 1].kept)
  {
    RunKeeps(states, steps, k);
    if steps[k].Destroy? {
      WaitingIffExposed(states, steps, k, steps[k].exec, false);
    }
    InverseSteps(states[k], steps[k], states[k + 1]);
  }

  lemma {:induction false} InverseSoFar(states: seq<State>, steps: seq<Step>, k: nat)
    requires IsRun(states, steps) && k < |states|
    requires forall j :: 0 <= j < k ==> !DestroysExposed(states, steps, j, false)
    ensures KeptInverse(states[k])
  {
    if k > 0 {
      InverseSoFar(states, steps, k - 1);
      assert !DestroysExposed(states, steps, k - 1, false);
      InverseNext(states, steps, k - 1);
    }
  }

  /** Over a run, whatever the lookups, the map of base addresses stays the
      inverse of the base function on what the load wrapper cached, if and only
      if no destroy of an executable bypasses the erase while the cache holds one
      of its code objects from the load wrapper. */
  lemma BasesStayInverseIff(states: seq<State>, steps: seq<Step>)
    requires IsRun(states, steps)
    ensures (forall k :: 0 <= k < |states| ==> Inverse(states[k], states[k].kept)) <==>
              (forall k :: 0 <= k < |steps| ==> !DestroysExposed(states, steps, k, false))
  {
    if k :| 0 <= k < |steps| && DestroysExposed(states, steps, k, false) {
      var j := FirstExposed(states, steps, k, false);
      InverseSoFar(states, steps, j);
      InverseNext(states, steps, j);
    } else {
      forall k | 0 <= k < |states| ensures Inverse(states[k], states[k].kept) {
        InverseSoFar(states, steps, k);
      }
    }
  }

  /** The map of base addresses is exactly the inverse of the base function on
      all cached code objects throughout a run, if and only if no lookup meets
      an absent key and the runtime destroys no executable of which a key has
      been left behind. */
  lemma BasesExactIff(states: seq<State>, steps: seq<Step>)
    requires IsRun(states, steps)
    ensures (forall k :: 0 <= k < |states| ==> Inverse(states[k], states[k].maps.cache.Keys)) <==>
              && (forall k :: 0 <= k < |steps| ==> !Fills(states[k], steps[k]))
              && (forall k :: 0 <= k < |steps| ==> !DestroysExposed(states, steps, k, true))
  {
    if k :| 0 <= k < |steps| && Fills(states[k], steps[k]) {
      if Inverse(states[k], states[k].maps.cache.Keys) {
        FillBreaks(states[k], steps[k], states[k + 1]);
      }
    } else if k :| 0 <= k < |steps| && DestroysExposed(states, steps, k, true) {
      CoherentIff(states, steps);
      var j :| 0 <= j < |states| && !KeysLive(states[j]);
      assert !Inverse(states[j], states[j].maps.cache.Keys);
    } else {
      forall k | 0 <= k < |states| ensures Inverse(states[k], states[k].maps.cache.Keys) {
        ExactSoFar(states, steps, k);
      }
    }
  }

  lemma FillBreaks(s: State, step: Step, s': State)
    requires Next(s, step, s') && Fills(s, step) && Inverse(s, s.maps.cache.Keys)
    ensures !Inverse(s', s'.maps.cache.Keys)
  {
    assert step.lco in s'.maps.cache.Keys;
  }

  lemma ExactSoFar(states: seq<State>, steps: seq<Step>, k: nat)
    requires IsRun(states, steps) && k < |states|
    requires forall j :: 0 <= j < |steps| ==> !Fills(states[j], steps[j])
    requires forall j :: 0 <= j < |steps| ==> !DestroysExposed(states, steps, j, true)
    ensures Inverse(states[k], states[k].maps.cache.Keys)
  {
    CachedAreKeptIff(states, steps);
    forall j | 0 <= j < k ensures !DestroysExposed(states, steps, j, false) {
      if DestroysExposed(states, steps, j, false) { FewerExposed(states, steps, j); }
    }
    InverseSoFar(states, steps, k);
  }

  lemma FewerExposed(states: seq<State>, steps: seq<Step>, k: nat)
    requires k < |steps| < |states| && DestroysExposed(states, steps, k, false)
    requires forall j :: 0 <= j < |states| ==> states[j].maps.cache.Keys == states[j].kept
    ensures DestroysExposed(states, steps, k, true)
  {
    var e := steps[k].exec;
    var j :| 0 <= j < k && Exposes(states[j], steps[j], e, false) && forall m :: j < m < k ==> steps[m] != Destroy(e);
    assert Exposes(states[j], steps[j], e, true);
  }

  /** A base address left behind outlives its code object: when a later load
      reuses it, the insert keeps the old handle. */
  lemma StaleBaseAfterReuse(s: State, l: nat, k: nat, next: Loaded)
    requires RuntimeOk(s) && KeptInverse(s) && l in s.kept && Enabled(s, Forward(s.live[l].exec)) && next.base == s.live[l].base
    requires var s2 := Apply(Apply(s, Forward(s.live[l].exec)), Destroy(s.live[l].exec)); Enabled(s2, Load(k, next))
    ensures var s2 := Apply(Apply(s, Forward(s.live[l].exec)), Destroy(s.live[l].exec));
            && l !in s2.live
            && var s4 := Apply(Apply(s2, Load(k, next)), Enter(k, Copied));
               next.base in s4.maps.bases && s4.maps.bases[next.base] == l
  {
  }

  // ----- the keys that the load wrapper meets -----

  /** The tool has looked `l` up between steps `i` and `j`. */
  ghost predicate LookedUp(steps: seq<Step>, i: nat, j: nat, l: nat)
    requires j <= |steps|
  {
    exists k :: i < k < j && steps[k] == Look(l, Copied)
  }

  /** The load wrapper meets an existing key exactly when one was left behind
      before the runtime's load, or the tool has looked the code object up
      between the runtime's load and the wrapper's insert. */
  lemma {:induction false} InsertMeetsKeyIff(states: seq<State>, steps: seq<Step>, i: nat, j: nat, l: nat)
    requires IsRun(states, steps) && i < j < |states| && steps[i].Load? && steps[i].lco == l
    requires forall k :: i < k <= j ==> l in states[k].pending
    ensures l in states[j].maps.cache <==> l in states[i].maps.cache || LookedUp(steps, i, j, l)
    ensures Coherent(states[i]) ==> l !in states[i].maps.cache
  {
    assert Next(states[i], steps[i], states[i + 1]);
    if i + 1 < j {
      var s := states[j - 1];
      InsertMeetsKeyIff(states, steps, i, j - 1, l);
      assert RuntimeOk(s) by { RunKeeps(states, steps, j - 1); }
      assert Next(s, steps[j - 1], states[j]);
      assert l in s.pending && l in states[j].pending;
      PendingCached(s, steps[j - 1], states[j], l);
      LookedUpLonger(steps, i, j, l);
    }
  }

  /** Between the runtime's load and the wrapper's insert the entry for the base
      address neither appears nor changes.  So the insert meets one exactly when
      it was left behind before the load, and then keeps its old handle. */
  lemma {:induction false} InsertMeetsBaseIff(states: seq<State>, steps: seq<Step>, i: nat, j: nat, l: nat)
    requires IsRun(states, steps) && i < j < |states| && steps[i].Load? && steps[i].lco == l
    requires forall k :: i < k <= j ==> l in states[k].pending
    ensures var b := steps[i].info.base;
            && l in states[j].live && states[j].live[l] == steps[i].info
            && (b in states[j].maps.bases <==> b in states[i].maps.bases)
            && (b in states[i].maps.bases ==> states[j].maps.bases[b] == states[i].maps.bases[b])
    ensures KeptInverse(states[i]) ==> steps[i].info.base !in states[i].maps.bases
  {
    assert Next(states[i], steps[i], states[i + 1]);
    if i + 1 < j {
      InsertMeetsBaseIff(states, steps, i, j - 1, l);
      RunKeeps(states, steps, j - 1);
      PendingBase(states[j - 1], steps[j - 1], states[j], l);
    }
  }

  lemma PendingBase(s: State, step: Step, s': State, l: nat)
    requires RuntimeOk(s) && Next(s, step, s') && l in s.pending && l in s'.pending
    ensures l in s'.live && s'.live[l] == s.live[l]
    ensures var b := s.live[l].base;
            && (b in s'.maps.bases <==> b in s.maps.bases)
            && (b in s.maps.bases ==> s'.maps.bases[b] == s.maps.bases[b])
  {
  }

  lemma LookedUpLonger(steps: seq<Step>, i: nat, j: nat, l: nat)
    requires i + 1 < j <= |steps|
    ensures LookedUp(steps, i, j, l) <==> LookedUp(steps, i, j - 1, l) || steps[j - 1] == Look(l, Copied)
  {
  }

  lemma PendingCached(s: State, step: Step, s': State, l: nat)
    requires RuntimeOk(s) && Next(s, step, s') && l in s.pending && l in s'.pending
    ensures l in s'.maps.cache <==> l in s.maps.cache || step == Look(l, Copied)
  {
  }
}
