/** The two wrappers around hsa_executable_destroy, their order in the table and
    what a call through them does,
    include/luthier/HSATooling/InstrumentedKernelLoaderAndLauncher.h:289-319,
    include/luthier/HSATooling/LoadedCodeObjectCache.h:97-205 and
    include/luthier/HSATooling/HSATool.h:101-121. */
module DestroyChain {
  import opened Common
  import opened LcoCache
  import P = SingletonProtocol
  import R = KernelRecords
  import T = ApiTables
  import W = WrapperCalls

  // ----- the order of the wrappers in the table -----

  const LOAD: nat := 0
  const DESTROY: nat := 1
  const QUEUE: nat := 2

  /** The installer wraps the entry with its spec `x` and no other. */
  ghost predicate WrapsOnce(c: T.Client, entry: nat, x: nat) {
    && c.Installer? && x < |c.specs| && c.specs[x].entry == entry
    && forall i :: 0 <= i < |c.specs| && i != x ==> c.specs[i].entry != entry
  }

  ghost predicate WrapsNever(c: T.Client, entry: nat) {
    c.Installer? ==> forall i :: 0 <= i < |c.specs| ==> c.specs[i].entry != entry
  }

  /** The cache's installer is client `p`, the loader's is the later client `q`,
      and no other client wraps hsa_executable_destroy. */
  ghost predicate TwoDestroyWrappers(clients: seq<T.Client>, p: nat, x: nat, q: nat, y: nat) {
    && p < q < |clients| && WrapsOnce(clients[p], DESTROY, x) && WrapsOnce(clients[q], DESTROY, y)
    && forall c :: 0 <= c < |clients| && c != p && c != q ==> WrapsNever(clients[c], DESTROY)
  }

  /** The action of spec `x` of client `c`. */
  function ActionOf(clients: seq<T.Client>, c: nat, x: nat): nat
    requires c <= |clients|
  {
    |T.Actions(clients, c)| + x
  }

  lemma ClientWraps(clients: seq<T.Client>, p: nat, x: nat, q: nat, y: nat, c: nat, i: nat)
    requires TwoDestroyWrappers(clients, p, x, q, y) && c < |clients| && i < |T.ActionsOf(clients, c)|
    ensures T.WrapsEntry(T.ActionsOf(clients, c)[i], DESTROY) <==> (c == p && i == x) || (c == q && i == y)
  {
    assert c != p && c != q ==> WrapsNever(clients[c], DESTROY);
  }

  lemma {:induction false} ActionInside(clients: seq<T.Client>, n: nat, c: nat, x: nat)
    requires c < n <= |clients| && x < |T.ActionsOf(clients, c)|
    ensures ActionOf(clients, c, x) < |T.Actions(clients, n)|
  {
    if c < n - 1 { ActionInside(clients, n - 1, c, x); }
  }

  lemma {:induction false} ActionIsOf(clients: seq<T.Client>, n: nat, k: nat) returns (c: nat, i: nat)
    requires n <= |clients| && k < |T.Actions(clients, n)|
    ensures c < n && i < |T.ActionsOf(clients, c)| && k == ActionOf(clients, c, i)
    ensures T.Actions(clients, n)[k] == T.ActionsOf(clients, c)[i]
  {
    if k < |T.Actions(clients, n - 1)| {
      c, i := ActionIsOf(clients, n - 1, k);
    } else {
      c, i := n - 1, k - |T.Actions(clients, n - 1)|;
    }
  }

  lemma ActionsDiffer(clients: seq<T.Client>, c: nat, i: nat, d: nat, j: nat)
    requires c < |clients| && i < |T.ActionsOf(clients, c)| && d < |clients| && j < |T.ActionsOf(clients, d)|
    ensures ActionOf(clients, c, i) == ActionOf(clients, d, j) <==> c == d && i == j
  {
    if c < d { ActionInside(clients, d, c, i); }
    if d < c { ActionInside(clients, c, d, j); }
  }

  lemma WrapperAt(clients: seq<T.Client>, p: nat, x: nat, q: nat, y: nat, k: nat)
    requires TwoDestroyWrappers(clients, p, x, q, y) && k < |T.Actions(clients, |clients|)|
    ensures T.WrapsEntry(T.Actions(clients, |clients|)[k], DESTROY) <==>
              k == ActionOf(clients, p, x) || k == ActionOf(clients, q, y)
  {
    var c, i := ActionIsOf(clients, |clients|, k);
    ClientWraps(clients, p, x, q, y, c, i);
    ActionsDiffer(clients, c, i, p, x);
    ActionsDiffer(clients, c, i, q, y);
  }

  lemma WrappersAre(clients: seq<T.Client>, p: nat, x: nat, q: nat, y: nat)
    requires TwoDestroyWrappers(clients, p, x, q, y)
    ensures var acts := T.Actions(clients, |clients|);
            && (forall k :: 0 <= k < |acts| ==>
                  (T.WrapsEntry(acts[k], DESTROY) <==> k == ActionOf(clients, p, x) || k == ActionOf(clients, q, y)))
            && ActionOf(clients, p, x) < ActionOf(clients, q, y) < |acts|
  {
    var acts := T.Actions(clients, |clients|);
    forall k | 0 <= k < |acts|
      ensures T.WrapsEntry(acts[k], DESTROY) <==> k == ActionOf(clients, p, x) || k == ActionOf(clients, q, y)
    {
      WrapperAt(clients, p, x, q, y, k);
    }
    ActionInside(clients, q, p, x);
    ActionInside(clients, |clients|, q, y);
  }

  lemma {:induction false} ChainOfTwo(acts: seq<T.Action>, n: nat, entry: nat, a: nat, b: nat)
    requires n <= |acts| && a < b
    requires forall k :: 0 <= k < |acts| ==> (T.WrapsEntry(acts[k], entry) <==> k == a || k == b)
    ensures T.Chain(acts, n, entry) == (if b < n then [b] else []) + (if a < n then [a] else [])
  {
    if n > 0 { ChainOfTwo(acts, n - 1, entry, a, b); }
  }

  /** After any registration that offers every wrapped entry, with a saved pointer
      for each wrapper, a call of hsa_executable_destroy runs the kernel loader's
      wrapper, then the cache's, then the runtime's own function. */
  lemma DestroyOrder(clients: seq<T.Client>, p: nat, x: nat, q: nat, y: nat, table: T.Table, m: T.Mem)
    requires TwoDestroyWrappers(clients, p, x, q, y)
    requires var acts := T.Actions(clients, |clients|); T.Pristine(table) && T.Covers(acts, table) && T.DistinctLocations(acts)
    requires DESTROY in table
    ensures var acts, a, b := T.Actions(clients, |clients|), ActionOf(clients, p, x), ActionOf(clients, q, y);
            var after := T.Registered(acts, table, m);
            && a != b && after.Some? && DESTROY in after.value.table
            && T.Calls(acts, after.value.saved, after.value.table[DESTROY], [b, a], table[DESTROY].id)
  {
    var acts, a, b := T.Actions(clients, |clients|), ActionOf(clients, p, x), ActionOf(clients, q, y);
    T.WrappersCompose(acts, table, m);
    WrappersAre(clients, p, x, q, y);
    ChainOfTwo(acts, |acts|, DESTROY, a, b);
  }

  /** The installers of a tool in the construction order of its base classes,
      after its snapshots; each trait saves its own pointers. */
  function ToolClients(owns: seq<nat>): seq<T.Client> {
    seq(|owns|, i requires 0 <= i < |owns| => T.Snapshot(owns[i]))
    + [T.Installer([T.Spec(LOAD, 0), T.Spec(DESTROY, 1)]),   // LoadedCodeObjectCacheTrait
       T.Installer([T.Spec(DESTROY, 2)]),                    // InstrumentedKernelLoaderAndLauncherTrait
       T.Installer([T.Spec(QUEUE, 3)])]                      // PacketMonitorTrait
  }

  /** The installations that this order gives. */
  lemma ToolActionsAre(owns: seq<nat>)
    ensures var s := |owns|;
            T.Actions(ToolClients(owns), s + 3) ==
              T.Actions(ToolClients(owns), s)
              + [T.Wrap(T.Spec(LOAD, 0)), T.Wrap(T.Spec(DESTROY, 1)), T.Wrap(T.Spec(DESTROY, 2)), T.Wrap(T.Spec(QUEUE, 3))]
    ensures forall k :: 0 <= k < |T.Actions(ToolClients(owns), |owns|)| ==> T.Actions(ToolClients(owns), |owns|)[k].Capture?
  {
    var c, s := ToolClients(owns), |owns|;
    T.SnapshotsLead(c, s);
    assert T.ActionsOf(c, s) == [T.Wrap(T.Spec(LOAD, 0)), T.Wrap(T.Spec(DESTROY, 1))];
    assert T.ActionsOf(c, s + 1) == [T.Wrap(T.Spec(DESTROY, 2))];
    assert T.ActionsOf(c, s + 2) == [T.Wrap(T.Spec(QUEUE, 3))];
    assert T.Actions(c, s + 1) == T.Actions(c, s) + T.ActionsOf(c, s);
    assert T.Actions(c, s + 2) == T.Actions(c, s + 1) + T.ActionsOf(c, s + 1);
    assert T.Actions(c, s + 3) == T.Actions(c, s + 2) + T.ActionsOf(c, s + 2);
  }

  /** So the tool's own clients are in that order, and share no saved pointer. */
  lemma ToolIsOrdered(owns: seq<nat>, table: T.Table)
    requires LOAD in table && DESTROY in table && QUEUE in table
    ensures var clients := ToolClients(owns);
            && TwoDestroyWrappers(clients, |owns|, 1, |owns| + 1, 0)
            && T.Covers(T.Actions(clients, |clients|), table) && T.DistinctLocations(T.Actions(clients, |clients|))
  {
    ToolActionsAre(owns);
    var c, s := ToolClients(owns), |owns|;
    assert c[s] == T.Installer([T.Spec(LOAD, 0), T.Spec(DESTROY, 1)]);
    assert c[s + 1] == T.Installer([T.Spec(DESTROY, 2)]);
    assert c[s + 2] == T.Installer([T.Spec(QUEUE, 3)]);
  }

  // ----- what a call through the table does -----

  ghost predicate Lists(lcos: seq<nat>, live: map<nat, Loaded>, exec: nat) {
    forall l :: l in lcos <==> l in live && live[l].exec == exec
  }

  /** The executable's code objects have been listed. */
  ghost predicate Listed(a: Answer, live: map<nat, Loaded>, exec: nat) {
    a.listing.Some? && Lists(a.listing.value, live, exec)
  }

  /** The runtime lists the executable's code objects or fails. */
  ghost predicate Truthful(a: Answer, live: map<nat, Loaded>, exec: nat) {
    a.listing.Some? ==> Lists(a.listing.value, live, exec)
  }

  /** The runtime's answers to a wrapper's queries: the executable's code objects,
      if they can be listed, and those whose loaded memory can be queried. */
  datatype Answer = Answer(listing: Option<seq<nat>>, memory: set<nat>)

  /** The erase of the cache would meet a failing query, which is fatal. */
  predicate Fails(a: Answer) {
    a.listing.None? || exists l :: l in a.listing.value && l !in a.memory
  }

  function Queryable(live: map<nat, Loaded>, memory: set<nat>): map<nat, Loaded> {
    map l | l in live && l in memory :: live[l]
  }

  /** The descriptor lies in the memory of a listed, live code object whose memory
      can be queried. */
  ghost predicate HitLive(kd: nat, lcos: seq<nat>, live: map<nat, Loaded>, memory: set<nat>) {
    exists l :: l in lcos && l in live && l in memory && live[l].base <= kd < live[l].base + live[l].size
  }

  lemma HitsAgree(kd: nat, lcos: seq<nat>, live: map<nat, Loaded>, memory: set<nat>)
    ensures R.Hit(kd, lcos, Queryable(live, memory)) <==> HitLive(kd, lcos, live, memory)
  {
    var q := Queryable(live, memory);
    if R.Hit(kd, lcos, q) {
      var l :| l in lcos && l in q && q[l].base <= kd < q[l].base + q[l].size;
      assert l in live && live[l] == q[l];
    }
  }

  /** The maps hold nothing of these code objects. */
  ghost predicate Forgotten(m: Maps, lcos: seq<nat>, live: map<nat, Loaded>) {
    forall l :: l in lcos ==> l !in m.cache && (l in live ==> live[l].base !in m.bases)
  }

  lemma {:induction false} ErasedForgets(m: Maps, lcos: seq<nat>, n: nat, live: map<nat, Loaded>)
    requires n <= |lcos| && forall l :: l in lcos ==> l in live
    ensures Forgotten(Erased(m, lcos, n, live), lcos[..n], live)
    ensures forall l :: l in m.cache && l !in lcos[..n] ==> l in Erased(m, lcos, n, live).cache && Erased(m, lcos, n, live).cache[l] == m.cache[l]
  {
    if n > 0 {
      ErasedForgets(m, lcos, n - 1, live);
      assert lcos[..n] == lcos[..n - 1] + [lcos[n - 1]];
    }
  }

  /** What a call of hsa_executable_destroy does, in order. */
  datatype Event = Invalidate | Erase | RuntimeDestroy

  /** What each wrapper of a chain meets: the withInstance call that it makes, and the runtime's answers. */
  datatype Visit = Visit(call: W.Call, answer: Answer)

  function Surviving(live: map<nat, Loaded>, exec: nat): map<nat, Loaded> {
    map l | l in live && live[l].exec != exec :: live[l]
  }

  /** A variable of the caller. */
  class Cell {
    var value: nat
    constructor (value: nat)
      ensures this.value == value
    {
      this.value := value;
    }
  }

  /** The traits of one tool beside the runtime's code objects; the actions of the
      table that installed its two destroy wrappers; and what the calls have done. */
  class Tool {
    const cache: LoadedCodeObjectCache
    const loader: R.KernelLoader
    const cacheWrapper: nat
    const loaderWrapper: nat
    var live: map<nat, Loaded>
    var events: seq<Event>

    constructor (live: map<nat, Loaded>, cacheWrapper: nat, loaderWrapper: nat)
      ensures fresh(cache) && fresh(loader) && this.live == live && events == []
      ensures this.cacheWrapper == cacheWrapper && this.loaderWrapper == loaderWrapper
      ensures cache.Contents() == Maps(map[], map[])
    {
      cache := new LoadedCodeObjectCache();
      loader := new R.KernelLoader();
      this.live, events := live, [];
      this.cacheWrapper, this.loaderWrapper := cacheWrapper, loaderWrapper;
    }

    /** The runtime's own hsa_executable_destroy. */
    method RuntimeDestroyExec(exec: nat)
      modifies this
      ensures live == Surviving(old(live), exec) && forall l :: l in live <==> l in old(live) && old(live)[l].exec != exec
      ensures events == old(events) + [RuntimeDestroy]
    {
      live := Surviving(live, exec);
      events := events + [RuntimeDestroy];
    }

    /** The callback of the cache's wrapper; a failing query is fatal. */
    method EraseOf(a: Answer) returns (fatal: bool)
      requires a.listing.Some? ==> forall l :: l in a.listing.value ==> l in live
      modifies this`events, cache
      ensures fatal <==> Fails(a)
      ensures !fatal ==> cache.Contents() == Erased(old(cache.Contents()), a.listing.value, |a.listing.value|, live)
      ensures !fatal ==> events == old(events) + [Erase]
    {
      if a.listing.None? { return true; }
      fatal := cache.EraseLoaded(a.listing.value, live, a.memory);
      events := events + [Erase];
    }

    /** The callback of the loader's wrapper; its errors are swallowed. */
    method InvalidateOf(a: Answer)
      modifies this`events, loader
      ensures events == old(events) + [Invalidate]
      ensures a.listing.None? ==> loader.byOriginal == old(loader.byOriginal) && loader.log == old(loader.log)
      ensures a.listing.Some? ==>
                forall k :: k in loader.byOriginal <==>
                  k in old(loader.byOriginal) && !HitLive(k.kd, a.listing.value, live, a.memory)
    {
      if a.listing.Some? {
        forall k ensures R.Hit(k, a.listing.value, Queryable(live, a.memory)) <==> HitLive(k, a.listing.value, live, a.memory) {
          HitsAgree(k, a.listing.value, live, a.memory);
        }
      }
      var victims := loader.InvalidateOriginalExec(a.listing, Queryable(live, a.memory));
      events := events + [Invalidate];
    }

    /** The wrappers whose visits find the tool do their work, and the runtime's
        function comes last. */
    function Trace(states: seq<P.State>, visits: map<nat, Visit>, ws: seq<nat>): seq<Event> {
      if ws == [] then [RuntimeDestroy]
      else if !Finds(states, visits, ws[0]) then Trace(states, visits, ws[1..])
      else [if ws[0] == loaderWrapper then Invalidate else Erase] + Trace(states, visits, ws[1..])
    }

    /** What the cache holds after the wrappers `ws` have run. */
    ghost function CacheAfter(states: seq<P.State>, visits: map<nat, Visit>, ws: seq<nat>, m: Maps, before: map<nat, Loaded>, exec: nat): Maps {
      if cacheWrapper in ws && Finds(states, visits, cacheWrapper) && Listed(visits[cacheWrapper].answer, before, exec)
      then
        var lcos := visits[cacheWrapper].answer.listing.value;
        Erased(m, lcos, |lcos|, before)
      else m
    }

    /** The records after the wrappers `ws` have run: none of a kernel in the
        executable's memory, and all others. */
    ghost predicate RecordsAfter(states: seq<P.State>, visits: map<nat, Visit>, ws: seq<nat>, before: map<nat, Loaded>,
                                 was: map<R.Key, R.Record>, now: map<R.Key, R.Record>)
    {
      if loaderWrapper in ws && Finds(states, visits, loaderWrapper) && visits[loaderWrapper].answer.listing.Some?
      then NoRecordOf(now, was, visits[loaderWrapper].answer, before)
      else now == was
    }

    /** A call of the function pointer `f` with the executable: each wrapper
        calls on through its saved pointer. */
    method Call(acts: seq<T.Action>, saved: map<nat, T.Fn>, f: T.Fn, ghost ws: seq<nat>, ghost base: nat, exec: nat,
                states: seq<P.State>, visits: map<nat, Visit>) returns (fatal: bool)
      requires T.Calls(acts, saved, f, ws, base) && cacheWrapper != loaderWrapper
      requires forall i, j :: 0 <= i < j < |ws| ==> ws[i] != ws[j]
      requires forall k :: k in ws ==> k == cacheWrapper || k == loaderWrapper
      requires forall k :: k in visits ==> Truthful(visits[k].answer, live, exec)
      modifies this, cache, loader
      ensures fatal <==> cacheWrapper in ws && Finds(states, visits, cacheWrapper) && Fails(visits[cacheWrapper].answer)
      ensures !fatal ==> live == Surviving(old(live), exec) && events == old(events) + Trace(states, visits, ws)
      ensures !fatal ==> cache.Contents() == CacheAfter(states, visits, ws, old(cache.Contents()), old(live), exec)
      ensures !fatal ==> RecordsAfter(states, visits, ws, old(live), old(loader.byOriginal), loader.byOriginal)
      decreases |ws|
    {
      match f
      case Runtime(id) =>
        RuntimeDestroyExec(exec);
        return false;
      case Wrapper(k) =>
        assert ws[0] == k && k in ws && k !in ws[1..];
        assert forall i :: i in ws <==> i == k || i in ws[1..];
        if Finds(states, visits, k) {
          assert Truthful(visits[k].answer, live, exec);
          if k == loaderWrapper {
            InvalidateOf(visits[k].answer);
          } else {
            fatal := EraseOf(visits[k].answer);
            if fatal { return true; }
          }
        }
        fatal := Call(acts, saved, saved[acts[k].spec.loc], ws[1..], base, exec, states, visits);
    }

    /** The table of a registration of these clients, in which the wrappers of
        this tool are the two around hsa_executable_destroy. */
    ghost predicate Installed(clients: seq<T.Client>, w: Wiring, m: T.Mem) {
      && TwoDestroyWrappers(clients, w.p, w.x, w.q, w.y)
      && cacheWrapper == ActionOf(clients, w.p, w.x) && loaderWrapper == ActionOf(clients, w.q, w.y)
      && var acts := T.Actions(clients, |clients|);
         && T.Pristine(w.pristine) && T.Covers(acts, w.pristine) && T.DistinctLocations(acts) && DESTROY in w.pristine
         && T.Registered(acts, w.pristine, w.before) == Some(m)
    }

    lemma InstalledChain(clients: seq<T.Client>, w: Wiring, m: T.Mem)
      requires Installed(clients, w, m)
      ensures cacheWrapper != loaderWrapper && DESTROY in m.table
      ensures T.Calls(T.Actions(clients, |clients|), m.saved, m.table[DESTROY], [loaderWrapper, cacheWrapper], w.pristine[DESTROY].id)
    {
      DestroyOrder(clients, w.p, w.x, w.q, w.y, w.pristine, w.before);
    }

    lemma TraceOfTwo(states: seq<P.State>, visits: map<nat, Visit>)
      requires cacheWrapper != loaderWrapper
      ensures Trace(states, visits, [loaderWrapper, cacheWrapper]) == Work(states, visits) + [RuntimeDestroy]
    {
      assert [loaderWrapper, cacheWrapper][1..] == [cacheWrapper];
      assert [cacheWrapper][1..] == [];
      assert Trace(states, visits, []) == [RuntimeDestroy];
    }

    function Work(states: seq<P.State>, visits: map<nat, Visit>): seq<Event> {
      (if Finds(states, visits, loaderWrapper) then [Invalidate] else []) + (if Finds(states, visits, cacheWrapper) then [Erase] else [])
    }

    /** The application destroys an executable through the table. */
    method DestroyThroughTable(clients: seq<T.Client>, ghost w: Wiring, m: T.Mem, exec: nat, states: seq<P.State>, visits: map<nat, Visit>)
        returns (fatal: bool)
      requires Installed(clients, w, m) && forall k :: k in visits ==> Truthful(visits[k].answer, live, exec)
      modifies this, cache, loader
      ensures fatal <==> (Finds(states, visits, cacheWrapper) && Fails(visits[cacheWrapper].answer))
      ensures !fatal ==> live == Surviving(old(live), exec) && events == old(events) + (Work(states, visits) + [RuntimeDestroy])
      ensures !fatal ==> cache.Contents() == CacheAfter(states, visits, [loaderWrapper, cacheWrapper], old(cache.Contents()), old(live), exec)
      ensures !fatal ==> RecordsAfter(states, visits, [loaderWrapper, cacheWrapper], old(live), old(loader.byOriginal), loader.byOriginal)
    {
      InstalledChain(clients, w, m);
      TraceOfTwo(states, visits);
      fatal := Call(T.Actions(clients, |clients|), m.saved, m.table[DESTROY], [loaderWrapper, cacheWrapper], w.pristine[DESTROY].id,
                    exec, states, visits);
    }

    /** With the tool published during both visits, the kernel records and then
        the cache entries of the executable are gone before the runtime's own
        destroy, which runs once and last; with no tool published, the call is
        the runtime's own. */
    method Destroy(clients: seq<T.Client>, ghost w: Wiring, m: T.Mem, exec: nat, states: seq<P.State>, ghost steps: seq<P.Step>,
                   visits: map<nat, Visit>) returns (fatal: bool)
      requires Installed(clients, w, m) && cacheWrapper in visits && loaderWrapper in visits
      requires forall k :: k in visits ==> W.IsCall(states, steps, visits[k].call) && Truthful(visits[k].answer, live, exec)
      modifies this, cache, loader
      ensures !fatal ==> live == Surviving(old(live), exec) && events == old(events) + (Work(states, visits) + [RuntimeDestroy])
      ensures Reached(states, visits, cacheWrapper) && Reached(states, visits, loaderWrapper) ==>
                && (fatal <==> Fails(visits[cacheWrapper].answer))
                && (!fatal ==> events == old(events) + [Invalidate, Erase, RuntimeDestroy])
                && (!fatal ==> Forgotten(cache.Contents(), visits[cacheWrapper].answer.listing.value, old(live)))
                && (!fatal && visits[loaderWrapper].answer.listing.Some? ==>
                      NoRecordOf(loader.byOriginal, old(loader.byOriginal), visits[loaderWrapper].answer, old(live)))
      ensures Missed(states, visits, cacheWrapper) && Missed(states, visits, loaderWrapper) ==>
                && !fatal && events == old(events) + [RuntimeDestroy]
                && cache.Contents() == old(cache.Contents()) && loader.byOriginal == old(loader.byOriginal)
    {
      WorkIs(states, steps, visits);
      CacheForgets(states, visits, cache.Contents(), live, exec);
      fatal := DestroyThroughTable(clients, w, m, exec, states, visits);
    }

    lemma WorkIs(states: seq<P.State>, steps: seq<P.Step>, visits: map<nat, Visit>)
      requires forall k :: k in visits ==> W.IsCall(states, steps, visits[k].call)
      ensures Reached(states, visits, cacheWrapper) && Reached(states, visits, loaderWrapper) ==>
                Finds(states, visits, cacheWrapper) && Finds(states, visits, loaderWrapper) && Work(states, visits) + [RuntimeDestroy] == [Invalidate, Erase, RuntimeDestroy]
      ensures Missed(states, visits, cacheWrapper) && Missed(states, visits, loaderWrapper) ==>
                !Finds(states, visits, cacheWrapper) && !Finds(states, visits, loaderWrapper) && Work(states, visits) + [RuntimeDestroy] == [RuntimeDestroy]
    {
      if cacheWrapper in visits { VisitFinds(states, steps, visits, cacheWrapper); }
      if loaderWrapper in visits { VisitFinds(states, steps, visits, loaderWrapper); }
    }

    lemma CacheForgets(states: seq<P.State>, visits: map<nat, Visit>, m: Maps, live: map<nat, Loaded>, exec: nat)
      ensures Finds(states, visits, cacheWrapper) && Listed(visits[cacheWrapper].answer, live, exec) ==>
                Forgotten(CacheAfter(states, visits, [loaderWrapper, cacheWrapper], m, live, exec), visits[cacheWrapper].answer.listing.value, live)
    {
      if Finds(states, visits, cacheWrapper) && Listed(visits[cacheWrapper].answer, live, exec) {
        var lcos := visits[cacheWrapper].answer.listing.value;
        ErasedForgets(m, lcos, |lcos|, live);
        assert lcos[..|lcos|] == lcos;
      }
    }

    /** The runtime's own hsa_executable_load_agent_code_object: a failing load
        leaves the caller's variable alone. */
    method RuntimeLoad(answer: Option<(nat, Loaded)>, out: Cell?) returns (success: bool)
      modifies this`live, out
      ensures success <==> answer.Some?
      ensures live == if answer.Some? then old(live)[answer.value.0 := answer.value.1] else old(live)
      ensures out != null ==> out.value == if answer.Some? then answer.value.0 else old(out.value)
    {
      if answer.None? { return false; }
      live := live[answer.value.0 := answer.value.1];
      if out != null { out.value := answer.value.0; }
      return true;
    }

    /** The load wrapper, whose withInstance call is `c` of the run.  It passes a
        variable of its own, which holds `uninit`, to the runtime's function and
        copies it to the caller's before it looks at the status. */
    method LoadWrapper(answer: Option<(nat, Loaded)>, uninit: nat, out: Cell?, states: seq<P.State>, ghost steps: seq<P.Step>, c: W.Call,
                       storage: bool, attempt: Attempt, memory: bool) returns (success: bool, fatal: bool)
      requires W.IsCall(states, steps, c)
      modifies this`live, cache, out
      ensures success <==> answer.Some?
      ensures live == if answer.Some? then old(live)[answer.value.0 := answer.value.1] else old(live)
      ensures out != null ==> out.value == (if answer.Some? then answer.value.0 else uninit) == WrapperWrites(answer, uninit)
      ensures answer.None? || !W.Found(states, c) ==> !fatal && cache.Contents() == old(cache.Contents())
      ensures answer.Some? && W.Found(states, c) ==>
                && (fatal <==> !storage || attempt == Malformed || (attempt == Copied && !memory))
                && cache.Contents() == if storage && attempt == Copied && memory
                                       then Inserted(old(cache.Contents()), answer.value.0, answer.value.1) else old(cache.Contents())
      ensures (W.PublishedThroughout(states, c) ==> W.Found(states, c)) && (W.EmptyThroughout(states, c) ==> !W.Found(states, c))
    {
      if W.EmptyThroughout(states, c) { W.ForwardsWhileEmpty(states, steps, c); }
      if W.PublishedThroughout(states, c) { W.FoundWhilePublished(states, steps, c); }
      var lco := new Cell(uninit);
      success := RuntimeLoad(answer, lco);
      if out != null { out.value := lco.value; }
      fatal := false;
      if success && W.Found(states, c) {
        fatal := cache.InsertLoaded(answer.value.0, answer.value.1, storage, attempt, memory);
      }
    }
  }

  // ----- the caller's variable -----

  /** The caller's variable after the runtime's function. */
  function RuntimeWrites(answer: Option<(nat, Loaded)>, before: nat): nat {
    if answer.Some? then answer.value.0 else before
  }

  /** The caller's variable after the wrapper. */
  function WrapperWrites(answer: Option<(nat, Loaded)>, uninit: nat): nat {
    if answer.Some? then answer.value.0 else uninit
  }

  /** A failing load overwrites the caller's variable with whatever the wrapper's
      own variable held, here 7 over 3, where the runtime's function would not. */
  lemma FailingLoadOverwrites()
    ensures WrapperWrites(None, 7) != RuntimeWrites(None, 3)
  {
  }

  /** So with no tool published the wrapper is indistinguishable from the
      runtime's function if and only if the load succeeds or the caller passes
      no variable. */
  lemma LoadForwardsIff(answer: Option<(nat, Loaded)>, hasOut: bool)
    ensures (forall before: nat, uninit: nat :: hasOut ==> WrapperWrites(answer, uninit) == RuntimeWrites(answer, before))
            <==> answer.Some? || !hasOut
  {
    if answer.None? && hasOut {
      FailingLoadOverwrites();
      assert !(forall before: nat, uninit: nat :: WrapperWrites(answer, uninit) == RuntimeWrites(answer, before));
    }
  }

  /** How a table came about: the places of the two installers among the clients
      and of their specs, the runtime's table, and the memory before. */
  datatype Wiring = Wiring(p: nat, x: nat, q: nat, y: nat, pristine: T.Table, before: T.Mem)

  /** Of the records, exactly those of kernels in the listed code objects are gone. */
  ghost predicate NoRecordOf(now: map<R.Key, R.Record>, was: map<R.Key, R.Record>, a: Answer, live: map<nat, Loaded>)
    requires a.listing.Some?
  {
    forall k :: k in now <==> k in was && !HitLive(k.kd, a.listing.value, live, a.memory)
  }

  /** The tool is published throughout the visit of wrapper `k`. */
  ghost predicate Reached(states: seq<P.State>, visits: map<nat, Visit>, k: nat) {
    k in visits && visits[k].call.at < |states| && W.PublishedThroughout(states, visits[k].call)
  }

  /** No tool is published throughout the visit of wrapper `k`. */
  ghost predicate Missed(states: seq<P.State>, visits: map<nat, Visit>, k: nat) {
    k in visits && visits[k].call.at < |states| && W.EmptyThroughout(states, visits[k].call)
  }

  lemma VisitFinds(states: seq<P.State>, steps: seq<P.Step>, visits: map<nat, Visit>, k: nat)
    requires k in visits && W.IsCall(states, steps, visits[k].call)
    ensures Reached(states, visits, k) ==> Finds(states, visits, k)
    ensures Missed(states, visits, k) ==> !Finds(states, visits, k)
  {
    if Reached(states, visits, k) { W.FoundWhilePublished(states, steps, visits[k].call); }
    if Missed(states, visits, k) { W.ForwardsWhileEmpty(states, steps, visits[k].call); }
  }

  /** The visit of wrapper `k` finds the tool. */
  predicate Finds(states: seq<P.State>, visits: map<nat, Visit>, k: nat) {
    && k in visits && visits[k].call.at < |states| && W.Decides(states[visits[k].call.at], visits[k].call.l)
    && W.Found(states, visits[k].call)
  }
}
