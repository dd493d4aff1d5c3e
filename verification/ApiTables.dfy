/** Interception of the HSA API table: snapshots that keep the first registered
    table and installers that wrap entries at every registration,
    include/luthier/Rocprofiler/HsaApiTableSnapshot.h and
    include/luthier/Rocprofiler/HsaApiTableWrapperInstaller.h. */
module ApiTables {
  import opened Common

  /** A function pointer: one of the runtime's own functions, or the wrapper
      that the action of this number installs. */
  datatype Fn = Runtime(id: nat) | Wrapper(action: nat)

  /** The entries that a table has, by offset. */
  type Table = map<nat, Fn>

  /** One wrapper: the entry, and the location of the saved pointer, through
      which the wrapper calls the function it wraps. */
  datatype Spec = Spec(entry: nat, loc: nat)

  /** A registered callback provider.  A snapshot was compiled with the entries
      below the offset `own`. */
  datatype Client = Snapshot(own: nat) | Installer(specs: seq<Spec>)

  /** What the callbacks of a registration do, in order. */
  datatype Action = Capture(client: nat, own: nat) | Wrap(spec: Spec)

  /** The table handed over by rocprofiler-sdk, the saved pointers, and the
      snapshots taken so far. */
  datatype Mem = Mem(table: Table, saved: map<nat, Fn>, snapshots: map<nat, Table>)

  function Wraps(specs: seq<Spec>): seq<Action> {
    seq(|specs|, i requires 0 <= i < |specs| => Wrap(specs[i]))
  }

  function ActionsOf(clients: seq<Client>, c: nat): seq<Action>
    requires c < |clients|
  {
    match clients[c]
    case Snapshot(own) => [Capture(c, own)]
    case Installer(specs) => Wraps(specs)
  }

  /** The actions of the first `n` clients. */
  function Actions(clients: seq<Client>, n: nat): seq<Action>
    requires n <= |clients|
  {
    if n == 0 then [] else Actions(clients, n - 1) + ActionsOf(clients, n - 1)
  }

  /** copyElement: the entries below the smaller of the two table sizes. */
  function Cut(t: Table, own: nat): Table {
    map e | e in t && e < own :: t[e]
  }

  /** The effect of action `k`; none is the fatal error for a missing entry. */
  function Do(acts: seq<Action>, k: nat, m: Mem): Option<Mem>
    requires k < |acts|
  {
    match acts[k]
    case Capture(c, own) => Some(if c in m.snapshots then m else m.(snapshots := m.snapshots[c := Cut(m.table, own)]))
    case Wrap(Spec(entry, loc)) =>
      if entry !in m.table then None
      else Some(m.(saved := m.saved[loc := m.table[entry]], table := m.table[entry := Wrapper(k)]))
  }

  /** The effect of the first `n` actions. */
  function DoAll(acts: seq<Action>, n: nat, m: Mem): Option<Mem>
    requires n <= |acts|
  {
    if n == 0 then Some(m) else
      match DoAll(acts, n - 1, m)
      case None => None
      case Some(m1) => Do(acts, n - 1, m1)
  }

  /** One registration: a fresh table, then every callback in registration order. */
  function Registered(acts: seq<Action>, pristine: Table, m: Mem): Option<Mem> {
    DoAll(acts, |acts|, m.(table := pristine))
  }

  class Interceptor {
    const clients: seq<Client>
    var table: Table
    var saved: map<nat, Fn>
    var snapshots: map<nat, Table>
    var fatal: bool

    constructor (clients: seq<Client>)
      ensures this.clients == clients && State() == Some(Mem(map[], map[], map[]))
    {
      this.clients, table, saved, snapshots, fatal := clients, map[], map[], map[], false;
    }

    ghost function State(): Option<Mem>
      reads this
    {
      if fatal then None else Some(Mem(table, saved, snapshots))
    }

    /** installWrapperEntry. */
    method InstallWrapperEntry(ghost acts: seq<Action>, k: nat, entry: nat, loc: nat)
      requires !fatal && k < |acts| && acts[k] == Wrap(Spec(entry, loc))
      modifies this
      ensures State() == Do(acts, k, old(State()).value)
      ensures fatal <==> entry !in old(table)
      ensures fatal ==> table == old(table) && saved == old(saved) && snapshots == old(snapshots)
    {
      if entry !in table {
        fatal := true;
        return;
      }
      saved := saved[loc := table[entry]];
      table := table[entry := Wrapper(k)];
    }

    /** The callback of a snapshot: later registrations are ignored. */
    method TakeSnapshot(ghost acts: seq<Action>, ghost k: nat, c: nat, own: nat)
      requires !fatal && k < |acts| && acts[k] == Capture(c, own)
      modifies this
      ensures State() == Do(acts, k, old(State()).value)
    {
      if c in snapshots { return; }
      snapshots := snapshots[c := Cut(table, own)];
    }

    /** The callback of an installer whose first wrapper is action `first`. */
    method RunInstaller(ghost acts: seq<Action>, first: nat, specs: seq<Spec>, ghost m: Mem)
      requires !fatal && first + |specs| <= |acts| && acts[first..first + |specs|] == Wraps(specs)
      requires State() == DoAll(acts, first, m)
      modifies this
      ensures State() == DoAll(acts, first + |specs|, m)
    {
      for i: nat := 0 to |specs|
        invariant State() == DoAll(acts, first + i, m)
      {
        if fatal {
          FatalStays(acts, first + i, first + |specs|, m);
          return;
        }
        assert acts[first..first + |specs|][i] == acts[first + i];
        InstallWrapperEntry(acts, first + i, specs[i].entry, specs[i].loc);
      }
    }

    /** The callback of client `c`, whose actions start at `k`. */
    method RunClient(ghost acts: seq<Action>, k: nat, c: nat, ghost m: Mem)
      requires !fatal && c < |clients| && k + |ActionsOf(clients, c)| <= |acts|
      requires acts[k..k + |ActionsOf(clients, c)|] == ActionsOf(clients, c)
      requires State() == DoAll(acts, k, m)
      modifies this
      ensures State() == DoAll(acts, k + |ActionsOf(clients, c)|, m)
    {
      match clients[c]
      case Snapshot(own) =>
        assert acts[k] == acts[k..k + 1][0];
        TakeSnapshot(acts, k, c, own);
      case Installer(specs) =>
        RunInstaller(acts, k, specs, m);
    }

    /** The runtime registers its table and every callback fires once. */
    method Register(pristine: Table)
      requires !fatal
      modifies this
      ensures State() == Registered(Actions(clients, |clients|), pristine, old(State()).value)
    {
      ghost var acts, m := Actions(clients, |clients|), State().value.(table := pristine);
      table := pristine;
      var k: nat := 0;
      for c: nat := 0 to |clients|
        invariant k == |Actions(clients, c)| && k <= |acts|
        invariant State() == DoAll(acts, k, m)
      {
        ActionsPrefix(clients, c);
        if fatal {
          FatalStays(acts, k, |acts|, m);
          return;
        }
        RunClient(acts, k, c, m);
        k := k + match clients[c] { case Snapshot(own) => 1 case Installer(specs) => |specs| };
      }
    }
  }

  lemma {:induction false} FatalStays(acts: seq<Action>, k: nat, n: nat, m: Mem)
    requires k <= n <= |acts| && DoAll(acts, k, m) == None
    ensures DoAll(acts, n, m) == None
    decreases n - k
  {
    if k < n { FatalStays(acts, k, n - 1, m); }
  }

  lemma {:induction false} ActionsGrow(clients: seq<Client>, c: nat, n: nat)
    requires c <= n <= |clients|
    ensures Actions(clients, c) <= Actions(clients, n)
    decreases n
  {
    if c < n { ActionsGrow(clients, c, n - 1); }
  }

  lemma ActionsPrefix(clients: seq<Client>, c: nat)
    requires c < |clients|
    ensures var acts, k, mine := Actions(clients, |clients|), |Actions(clients, c)|, ActionsOf(clients, c);
            k + |mine| <= |acts| && acts[k..k + |mine|] == mine && |Actions(clients, c + 1)| == k + |mine|
  {
    ActionsGrow(clients, c + 1, |clients|);
    var acts, some, mine := Actions(clients, |clients|), Actions(clients, c + 1), ActionsOf(clients, c);
    assert some == Actions(clients, c) + mine;
    assert acts[..|some|] == some;
    assert acts[|Actions(clients, c)|..|some|] == some[|Actions(clients, c)|..];
  }

  // ----- what a call through an entry runs -----

  /** A call of `f` runs the wrappers `ws` in this order and then the runtime's
      function `base`: each wrapper calls on through its saved pointer. */
  predicate Calls(acts: seq<Action>, saved: map<nat, Fn>, f: Fn, ws: seq<nat>, base: nat)
    decreases |ws|
  {
    match f
    case Runtime(id) => ws == [] && id == base
    case Wrapper(k) =>
      && ws != [] && ws[0] == k && k < |acts| && acts[k].Wrap? && acts[k].spec.loc in saved
      && Calls(acts, saved, saved[acts[k].spec.loc], ws[1..], base)
  }

  predicate WrapsEntry(a: Action, entry: nat) {
    a.Wrap? && a.spec.entry == entry
  }

  /** The wrappers of an entry among the first `n` actions, newest first. */
  function Chain(acts: seq<Action>, n: nat, entry: nat): seq<nat>
    requires n <= |acts|
  {
    if n == 0 then []
    else if WrapsEntry(acts[n - 1], entry) then [n - 1] + Chain(acts, n - 1, entry)
    else Chain(acts, n - 1, entry)
  }

  /** The runtime's own functions, each in one entry. */
  ghost predicate Pristine(t: Table) {
    && (forall e :: e in t ==> t[e].Runtime?)
    && (forall e, d :: e in t && d in t && e != d ==> t[e] != t[d])
  }

  ghost predicate Covers(acts: seq<Action>, t: Table) {
    forall k :: 0 <= k < |acts| && acts[k].Wrap? ==> acts[k].spec.entry in t
  }

  ghost predicate DistinctLocations(acts: seq<Action>) {
    forall j, k :: 0 <= j < k < |acts| && acts[j].Wrap? && acts[k].Wrap? ==> acts[j].spec.loc != acts[k].spec.loc
  }

  /** After `n` actions, a call through any entry runs that entry's wrappers
      once each, newest first, and then the pristine function. */
  ghost predicate Wrapped(acts: seq<Action>, n: nat, m: Mem, pristine: Table)
    requires n <= |acts|
  {
    forall e :: e in pristine ==>
      e in m.table && pristine[e].Runtime? && Calls(acts, m.saved, m.table[e], Chain(acts, n, e), pristine[e].id)
  }

  /** Saving another pointer does not disturb a chain that does not read its location. */
  lemma {:induction false} CallsKept(acts: seq<Action>, saved: map<nat, Fn>, f: Fn, ws: seq<nat>, base: nat, loc: nat, g: Fn)
    requires Calls(acts, saved, f, ws, base)
    requires forall k :: k in ws ==> k < |acts| && acts[k].Wrap? && acts[k].spec.loc != loc
    ensures Calls(acts, saved[loc := g], f, ws, base)
    decreases |ws|
  {
    if f.Wrapper? {
      assert forall k :: k in ws[1..] ==> k in ws;
      CallsKept(acts, saved, saved[acts[f.action].spec.loc], ws[1..], base, loc, g);
    }
  }

  lemma {:induction false} ChainIs(acts: seq<Action>, n: nat, entry: nat)
    requires n <= |acts|
    ensures forall k :: k in Chain(acts, n, entry) <==> 0 <= k < n && WrapsEntry(acts[k], entry)
    ensures |Chain(acts, n, entry)| <= n
  {
    if n > 0 { ChainIs(acts, n - 1, entry); }
  }

  /** An action that does not meet a missing entry keeps the entries of the table. */
  lemma {:induction false} NotFatal(acts: seq<Action>, n: nat, m: Mem)
    requires n <= |acts|
    ensures DoAll(acts, n, m).Some? <==> (forall k :: 0 <= k < n && acts[k].Wrap? ==> acts[k].spec.entry in m.table)
    ensures DoAll(acts, n, m).Some? ==> DoAll(acts, n, m).value.table.Keys == m.table.Keys
  {
    if n > 0 { NotFatal(acts, n - 1, m); }
  }

  lemma {:induction false} WrapsInOrder(acts: seq<Action>, n: nat, m: Mem)
    requires n <= |acts| && Covers(acts, m.table) && DistinctLocations(acts)
    requires forall e :: e in m.table ==> m.table[e].Runtime?
    ensures DoAll(acts, n, m).Some? && Wrapped(acts, n, DoAll(acts, n, m).value, m.table)
  {
    NotFatal(acts, n, m);
    if n > 0 {
      NotFatal(acts, n - 1, m);
      WrapsInOrder(acts, n - 1, m);
      OneMore(acts, n, DoAll(acts, n - 1, m).value, DoAll(acts, n, m).value, m.table);
    }
  }

  lemma OneMore(acts: seq<Action>, n: nat, m1: Mem, m2: Mem, pristine: Table)
    requires 0 < n <= |acts| && DistinctLocations(acts) && Do(acts, n - 1, m1) == Some(m2)
    requires Wrapped(acts, n - 1, m1, pristine)
    ensures Wrapped(acts, n, m2, pristine)
  {
    forall e | e in pristine
      ensures e in m2.table && pristine[e].Runtime? && Calls(acts, m2.saved, m2.table[e], Chain(acts, n, e), pristine[e].id)
    {
      var a, ws := acts[n - 1], Chain(acts, n - 1, e);
      if a.Wrap? {
        ChainIs(acts, n - 1, e);
        forall k | k in ws ensures k < |acts| && acts[k].Wrap? && acts[k].spec.loc != a.spec.loc {
          assert WrapsEntry(acts[k], e);
        }
        CallsKept(acts, m1.saved, m1.table[e], ws, pristine[e].id, a.spec.loc, m1.table[a.spec.entry]);
        if a.spec.entry == e {
          assert Chain(acts, n, e)[1..] == ws;
        }
      }
    }
  }

  /** A call runs one sequence of functions only. */
  lemma {:induction false} CallsOnce(acts: seq<Action>, saved: map<nat, Fn>, f: Fn, ws: seq<nat>, b: nat, vs: seq<nat>, c: nat)
    requires Calls(acts, saved, f, ws, b) && Calls(acts, saved, f, vs, c)
    ensures ws == vs && b == c
    decreases |ws|
  {
    if f.Wrapper? {
      CallsOnce(acts, saved, saved[acts[f.action].spec.loc], ws[1..], b, vs[1..], c);
      assert ws == [ws[0]] + ws[1..] && vs == [vs[0]] + vs[1..];
    }
  }

  /** A call that runs wrapper `k` goes on with what is saved at its location. */
  lemma {:induction false} CallsThrough(acts: seq<Action>, saved: map<nat, Fn>, f: Fn, ws: seq<nat>, base: nat, i: nat)
    requires Calls(acts, saved, f, ws, base) && i < |ws|
    ensures ws[i] < |acts| && acts[ws[i]].Wrap? && acts[ws[i]].spec.loc in saved
    ensures Calls(acts, saved, saved[acts[ws[i]].spec.loc], ws[i + 1..], base)
    decreases i
  {
    if i > 0 {
      CallsThrough(acts, saved, saved[acts[ws[0]].spec.loc], ws[1..], base, i - 1);
      assert ws[1..][i..] == ws[i + 1..];
    }
  }

  /** Below wrapper `k` of an entry come the older wrappers of that entry. */
  lemma {:induction false} ChainBelow(acts: seq<Action>, n: nat, entry: nat, k: nat) returns (i: nat)
    requires k < n <= |acts| && WrapsEntry(acts[k], entry)
    ensures i < |Chain(acts, n, entry)| && Chain(acts, n, entry)[i] == k
    ensures Chain(acts, n, entry)[i + 1..] == Chain(acts, k, entry)
    decreases n
  {
    if k == n - 1 {
      i := 0;
      assert Chain(acts, n, entry)[1..] == Chain(acts, n - 1, entry);
    } else {
      i := ChainBelow(acts, n - 1, entry, k);
      if WrapsEntry(acts[n - 1], entry) {
        i := i + 1;
        assert Chain(acts, n, entry)[i + 1..] == Chain(acts, n - 1, entry)[i..];
      }
    }
  }

  /** Two wrappers that share a location cannot both go on correctly. */
  lemma SharedLocationBreaks(acts: seq<Action>, m: Mem, pristine: Table, j: nat, k: nat)
    requires j < k < |acts| && acts[j].Wrap? && acts[k].Wrap? && acts[j].spec.loc == acts[k].spec.loc
    requires Pristine(pristine) && Covers(acts, pristine)
    ensures !Wrapped(acts, |acts|, m, pristine)
  {
    if Wrapped(acts, |acts|, m, pristine) {
      var n, d, e := |acts|, acts[j].spec.entry, acts[k].spec.entry;
      var p := ChainBelow(acts, n, d, j);
      var q := ChainBelow(acts, n, e, k);
      CallsThrough(acts, m.saved, m.table[d], Chain(acts, n, d), pristine[d].id, p);
      CallsThrough(acts, m.saved, m.table[e], Chain(acts, n, e), pristine[e].id, q);
      var f := m.saved[acts[j].spec.loc];
      ChainIs(acts, j, d);
      ChainIs(acts, k, e);
      assert d == e ==> j in Chain(acts, k, e);
      CallsOnce(acts, m.saved, f, Chain(acts, j, d), pristine[d].id, Chain(acts, k, e), pristine[e].id);
    }
  }

  /** Whatever earlier registrations left behind, a registration that finds all
      entries makes every call run its entry's wrappers once each, newest first,
      and then the pristine function, exactly when no two wrappers share a
      location for the saved pointer. */
  lemma WrappersCompose(acts: seq<Action>, pristine: Table, m: Mem)
    requires Pristine(pristine) && Covers(acts, pristine)
    ensures Registered(acts, pristine, m).Some?
    ensures Wrapped(acts, |acts|, Registered(acts, pristine, m).value, pristine) <==> DistinctLocations(acts)
  {
    var m0 := m.(table := pristine);
    NotFatal(acts, |acts|, m0);
    if DistinctLocations(acts) {
      WrapsInOrder(acts, |acts|, m0);
    } else {
      var j, k :| 0 <= j < k < |acts| && acts[j].Wrap? && acts[k].Wrap? && acts[j].spec.loc == acts[k].spec.loc;
      SharedLocationBreaks(acts, Registered(acts, pristine, m).value, pristine, j, k);
    }
  }

  /** A registration is fatal exactly when an installer's entry is missing. */
  lemma FatalIffMissing(acts: seq<Action>, pristine: Table, m: Mem)
    ensures Registered(acts, pristine, m).None? <==> !Covers(acts, pristine)
  {
    NotFatal(acts, |acts|, m.(table := pristine));
  }

  // ----- snapshots -----

  /** Any number of registrations, each over a table of its own. */
  function Registrations(acts: seq<Action>, tables: seq<Table>, m: Mem): Option<Mem>
    decreases |tables|
  {
    if tables == [] then Some(m) else
      match Registered(acts, tables[0], m)
      case None => None
      case Some(m1) => Registrations(acts, tables[1..], m1)
  }

  /** After every one of any number of registrations the chains are whole again. */
  lemma {:induction false} EveryRegistrationComposes(acts: seq<Action>, tables: seq<Table>, m: Mem)
    requires tables != [] && forall i :: 0 <= i < |tables| ==> Pristine(tables[i]) && Covers(acts, tables[i])
    ensures Registrations(acts, tables, m).Some?
    ensures Wrapped(acts, |acts|, Registrations(acts, tables, m).value, tables[|tables| - 1]) <==> DistinctLocations(acts)
    decreases |tables|
  {
    WrappersCompose(acts, tables[0], m);
    if |tables| > 1 {
      EveryRegistrationComposes(acts, tables[1..], Registered(acts, tables[0], m).value);
    } else {
      assert tables[1..] == [];
    }
  }

  lemma {:induction false} SnapshotsKept(acts: seq<Action>, n: nat, m: Mem, c: nat)
    requires n <= |acts| && c in m.snapshots && DoAll(acts, n, m).Some?
    ensures c in DoAll(acts, n, m).value.snapshots && DoAll(acts, n, m).value.snapshots[c] == m.snapshots[c]
  {
    if n > 0 { SnapshotsKept(acts, n - 1, m, c); }
  }

  lemma {:induction false} SnapshotsNeverChange(acts: seq<Action>, tables: seq<Table>, m: Mem, c: nat)
    requires c in m.snapshots && Registrations(acts, tables, m).Some?
    ensures c in Registrations(acts, tables, m).value.snapshots
    ensures Registrations(acts, tables, m).value.snapshots[c] == m.snapshots[c]
    decreases |tables|
  {
    if tables != [] {
      SnapshotsKept(acts, |acts|, m.(table := tables[0]), c);
      SnapshotsNeverChange(acts, tables[1..], Registered(acts, tables[0], m).value, c);
    }
  }

  /** An entry still holds its pristine function exactly when no action so far wraps it. */
  lemma {:induction false} UnwrappedIsPristine(acts: seq<Action>, n: nat, m: Mem, e: nat)
    requires n <= |acts| && e in m.table && m.table[e].Runtime? && DoAll(acts, n, m).Some?
    ensures var t := DoAll(acts, n, m).value.table;
            e in t && (t[e] == m.table[e] <==> forall k :: 0 <= k < n ==> !WrapsEntry(acts[k], e))
            && (t[e] != m.table[e] ==> t[e].Wrapper?)
  {
    if n > 0 { UnwrappedIsPristine(acts, n - 1, m, e); }
  }

  lemma {:induction false} Captures(acts: seq<Action>, n: nat, p: nat, m: Mem)
    requires p < n <= |acts| && acts[p].Capture? && acts[p].client !in m.snapshots && DoAll(acts, n, m).Some?
    requires forall k :: 0 <= k < |acts| && k != p && acts[k].Capture? ==> acts[k].client != acts[p].client
    ensures DoAll(acts, p, m).Some? && acts[p].client in DoAll(acts, n, m).value.snapshots
    ensures DoAll(acts, n, m).value.snapshots[acts[p].client] == Cut(DoAll(acts, p, m).value.table, acts[p].own)
  {
    if n > p + 1 {
      Captures(acts, n - 1, p, m);
    } else {
      NotYet(acts, p, p, m);
    }
  }

  lemma {:induction false} NotYet(acts: seq<Action>, n: nat, p: nat, m: Mem)
    requires n <= p < |acts| && acts[p].Capture? && acts[p].client !in m.snapshots && DoAll(acts, n, m).Some?
    requires forall k :: 0 <= k < |acts| && k != p && acts[k].Capture? ==> acts[k].client != acts[p].client
    ensures acts[p].client !in DoAll(acts, n, m).value.snapshots
  {
    if n > 0 { NotYet(acts, n - 1, p, m); }
  }

  /** After any number of registrations, a snapshot has exactly the entries that
      the first table had and the snapshot was compiled with, and an entry that
      it holds is the first registration's pristine function, exactly when no
      client registered before the snapshot wraps the entry; otherwise it is a
      wrapper. */
  lemma SnapshotIsPristine(acts: seq<Action>, tables: seq<Table>, p: nat, e: nat, m: Mem)
    requires p < |acts| && acts[p].Capture? && acts[p].client !in m.snapshots
    requires forall k :: 0 <= k < |acts| && k != p && acts[k].Capture? ==> acts[k].client != acts[p].client
    requires tables != [] && Registrations(acts, tables, m).Some? && (e in tables[0] ==> tables[0][e].Runtime?)
    ensures var taken := Registrations(acts, tables, m).value.snapshots;
            && acts[p].client in taken
            && (e in taken[acts[p].client] <==> e in tables[0] && e < acts[p].own)
            && (e in taken[acts[p].client] ==>
                  && (taken[acts[p].client][e] == tables[0][e] <==> forall k :: 0 <= k < p ==> !WrapsEntry(acts[k], e))
                  && (taken[acts[p].client][e] != tables[0][e] ==> taken[acts[p].client][e].Wrapper?))
  {
    var m0 := m.(table := tables[0]);
    Captures(acts, |acts|, p, m0);
    NotFatal(acts, p, m0);
    if e in tables[0] { UnwrappedIsPristine(acts, p, m0, e); }
    SnapshotsNeverChange(acts, tables[1..], Registered(acts, tables[0], m).value, acts[p].client);
  }

  /** Each snapshot client captures once per registration, under its own number. */
  lemma {:induction false} CapturesAreDistinct(clients: seq<Client>, n: nat)
    requires n <= |clients|
    ensures forall k :: 0 <= k < |Actions(clients, n)| && Actions(clients, n)[k].Capture? ==> Actions(clients, n)[k].client < n
    ensures forall j, k :: 0 <= j < k < |Actions(clients, n)| && Actions(clients, n)[j].Capture? && Actions(clients, n)[k].Capture? ==>
              Actions(clients, n)[j].client != Actions(clients, n)[k].client
  {
    if n > 0 { CapturesAreDistinct(clients, n - 1); }
  }

  lemma {:induction false} SnapshotsLead(clients: seq<Client>, n: nat)
    requires n <= |clients| && forall i :: 0 <= i < n ==> clients[i].Snapshot?
    ensures |Actions(clients, n)| == n && forall k :: 0 <= k < n ==> Actions(clients, n)[k] == Capture(k, clients[k].own)
  {
    if n > 0 { SnapshotsLead(clients, n - 1); }
  }

  /** When the first `n` clients are the snapshots, each of them holds pristine
      functions only, for good. */
  lemma SnapshotsFirst(clients: seq<Client>, n: nat, c: nat, tables: seq<Table>, e: nat, m: Mem)
    requires c < n <= |clients| && (forall i :: 0 <= i < n ==> clients[i].Snapshot?) && c !in m.snapshots
    requires tables != [] && (e in tables[0] ==> tables[0][e].Runtime?)
    requires Registrations(Actions(clients, |clients|), tables, m).Some?
    ensures var taken := Registrations(Actions(clients, |clients|), tables, m).value.snapshots;
            && c in taken && (e in taken[c] <==> e in tables[0] && e < clients[c].own)
            && (e in taken[c] ==> taken[c][e] == tables[0][e])
  {
    var acts := Actions(clients, |clients|);
    SnapshotsLead(clients, n);
    ActionsGrow(clients, n, |clients|);
    assert forall k :: 0 <= k < n ==> acts[k] == Actions(clients, n)[k];
    CapturesAreDistinct(clients, |clients|);
    SnapshotIsPristine(acts, tables, c, e, m);
  }
}
