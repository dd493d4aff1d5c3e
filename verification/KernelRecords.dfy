/** The records of instrumented kernels and their invalidation when the original
    executable goes away,
    src/lib/HSATooling/InstrumentedKernelLoaderAndLauncher.cpp:96-118 and 199-243. */
module KernelRecords {
  import opened Common
  import opened LcoCache

  /** The kernel descriptor's address and the instrumentation preset. */
  datatype Key = Key(kd: nat, preset: nat)

  /** What a record owns: an executable, its reader and its managed variables. */
  datatype Record = Record(exec: nat, reader: nat, allocs: seq<nat>)

  datatype Event = DestroyExec(exec: nat) | DestroyReader(reader: nat) | Free(alloc: nat)

  function Frees(allocs: seq<nat>): seq<Event> {
    seq(|allocs|, i requires 0 <= i < |allocs| => Free(allocs[i]))
  }

  /** The executable first, then its reader, then the storage. */
  function Releases(r: Record): seq<Event> {
    [DestroyExec(r.exec), DestroyReader(r.reader)] + Frees(r.allocs)
  }

  function AllReleases(records: map<Key, Record>, keys: seq<Key>): seq<Event>
    requires forall k :: k in keys ==> k in records
  {
    if keys == [] then []
    else AllReleases(records, keys[..|keys| - 1]) + Releases(records[keys[|keys| - 1]])
  }

  /** Somewhere in the log the executable goes, right after it the reader, and
      then the storage, piece by piece. */
  ghost predicate ReleasedInOrder(log: seq<Event>, r: Record) {
    exists p: nat :: IsReleaseAt(log, p, r)
  }

  predicate IsReleaseAt(log: seq<Event>, p: nat, r: Record) {
    && p + 2 + |r.allocs| <= |log|
    && log[p] == DestroyExec(r.exec) && log[p + 1] == DestroyReader(r.reader)
    && forall i :: 0 <= i < |r.allocs| ==> log[p + 2 + i] == Free(r.allocs[i])
  }

  /** How many things these records own. */
  function Pieces(records: map<Key, Record>, keys: seq<Key>): nat
    requires forall k :: k in keys ==> k in records
  {
    if keys == [] then 0
    else Pieces(records, keys[..|keys| - 1]) + 2 + |records[keys[|keys| - 1]].allocs|
  }

  lemma {:induction false} AllReleasesCount(records: map<Key, Record>, keys: seq<Key>)
    requires forall k :: k in keys ==> k in records
    ensures |AllReleases(records, keys)| == Pieces(records, keys)
  {
    if keys != [] { AllReleasesCount(records, keys[..|keys| - 1]); }
  }

  lemma {:induction false} AllReleased(records: map<Key, Record>, keys: seq<Key>, v: nat)
    requires v < |keys| && forall k :: k in keys ==> k in records
    ensures ReleasedInOrder(AllReleases(records, keys), records[keys[v]])
  {
    var before, last := AllReleases(records, keys[..|keys| - 1]), records[keys[|keys| - 1]];
    assert AllReleases(records, keys) == before + Releases(last);
    if v == |keys| - 1 {
      assert IsReleaseAt(AllReleases(records, keys), |before|, last);
    } else {
      AllReleased(records, keys[..|keys| - 1], v);
      var p: nat :| IsReleaseAt(before, p, records[keys[v]]);
      assert IsReleaseAt(AllReleases(records, keys), p, records[keys[v]]);
    }
  }

  /** The descriptor lies in the loaded memory of one of the code objects whose
      memory can be queried. */
  predicate Hit(kd: nat, lcos: seq<nat>, memory: map<nat, Loaded>) {
    exists l :: l in lcos && l in memory && memory[l].base <= kd < memory[l].base + memory[l].size
  }

  /** A kernel is hit if and only if its descriptor's address is at or after the
      start of a listed range that could be queried, and before its end; a range
      of no bytes hits nothing. */
  lemma HitIff(kd: nat, lcos: seq<nat>, memory: map<nat, Loaded>)
    ensures Hit(kd, lcos, memory) <==> exists i, off: nat :: 0 <= i < |lcos| && lcos[i] in memory && InRange(memory[lcos[i]], off, kd)
  {
    if Hit(kd, lcos, memory) {
      var l :| l in lcos && l in memory && memory[l].base <= kd < memory[l].base + memory[l].size;
      var i :| 0 <= i < |lcos| && lcos[i] == l;
      assert InRange(memory[lcos[i]], kd - memory[l].base, kd);
    }
  }

  /** `kd` is the address of byte `off` of the memory. */
  predicate InRange(l: Loaded, off: nat, kd: nat) {
    off < l.size && kd == l.base + off
  }

  /** The records under other keys. */
  function Except(records: map<Key, Record>, keys: seq<Key>): map<Key, Record> {
    map k | k in records && k !in keys :: records[k]
  }

  lemma ExceptOne(records: map<Key, Record>, keys: seq<Key>, k: Key)
    ensures Except(records, keys + [k]) == Except(records, keys) - {k}
  {
  }

  class KernelLoader {
    var byOriginal: map<Key, Record>
    var log: seq<Event>

    constructor ()
      ensures byOriginal == map[] && log == []
    {
      byOriginal, log := map[], [];
    }

    /** eraseRecordLocked. */
    method EraseRecord(k: Key)
      requires k in byOriginal
      modifies this
      ensures byOriginal == old(byOriginal) - {k}
      ensures log == old(log) + Releases(old(byOriginal)[k])
      ensures var r, n := old(byOriginal)[k], |old(log)|;
              && |log| == n + 2 + |r.allocs| && log[..n] == old(log)
              && log[n] == DestroyExec(r.exec) && log[n + 1] == DestroyReader(r.reader)
              && forall i :: 0 <= i < |r.allocs| ==> log[n + 2 + i] == Free(r.allocs[i])
    {
      var r := byOriginal[k];
      log := log + [DestroyExec(r.exec)];
      log := log + [DestroyReader(r.reader)];
      ghost var before := log;
      for i: nat := 0 to |r.allocs|
        invariant log == before + Frees(r.allocs)[..i]
        invariant byOriginal == old(byOriginal)
      {
        log := log + [Free(r.allocs[i])];
      }
      byOriginal := byOriginal - {k};
    }

    /** The keys whose descriptor lies in the ranges, in the order of the walk. */
    method Victims(lcos: seq<nat>, memory: map<nat, Loaded>) returns (victims: seq<Key>)
      ensures forall k :: k in victims <==> k in byOriginal && Hit(k.kd, lcos, memory)
      ensures forall i, j :: 0 <= i < j < |victims| ==> victims[i] != victims[j]
    {
      victims := [];
      var left := byOriginal.Keys;
      while left != {}
        invariant left <= byOriginal.Keys
        invariant forall k :: k in victims <==> k in byOriginal && k !in left && Hit(k.kd, lcos, memory)
        invariant forall i, j :: 0 <= i < j < |victims| ==> victims[i] != victims[j]
        decreases |left|
      {
        var k :| k in left;
        left := left - {k};
        var hit := false;
        for i: nat := 0 to |lcos|
          invariant !hit && forall j :: 0 <= j < i && lcos[j] in memory ==>
                      !(memory[lcos[j]].base <= k.kd < memory[lcos[j]].base + memory[lcos[j]].size)
        {
          if lcos[i] in memory && memory[lcos[i]].base <= k.kd < memory[lcos[i]].base + memory[lcos[i]].size {
            assert lcos[i] in lcos;
            hit := true;
            break;
          }
        }
        if hit { victims := victims + [k]; }
      }
    }

    /** invalidateOriginalExec: `lcos` is the runtime's list of the executable's
        code objects, if it can be queried.  Every record of a kernel in their
        memory is erased, each with its resources released once; the others stay. */
    method InvalidateOriginalExec(lcos: Option<seq<nat>>, memory: map<nat, Loaded>) returns (victims: seq<Key>)
      modifies this
      ensures lcos.None? ==> byOriginal == old(byOriginal) && log == old(log)
      ensures lcos.Some? ==>
                && (forall k :: k in victims <==> k in old(byOriginal) && Hit(k.kd, lcos.value, memory))
                && (forall i, j :: 0 <= i < j < |victims| ==> victims[i] != victims[j])
                && byOriginal == (map k | k in old(byOriginal) && !Hit(k.kd, lcos.value, memory) :: old(byOriginal)[k])
                && log == old(log) + AllReleases(old(byOriginal), victims)
                && |log| == |old(log)| + Pieces(old(byOriginal), victims)
                && (forall v :: 0 <= v < |victims| ==> ReleasedInOrder(log[|old(log)|..], old(byOriginal)[victims[v]]))
    {
      if lcos.None? { return []; }
      victims := Victims(lcos.value, memory);
      ghost var records := byOriginal;
      forall v | 0 <= v < |victims| ensures ReleasedInOrder(AllReleases(records, victims), records[victims[v]]) {
        AllReleased(records, victims, v);
      }
      AllReleasesCount(records, victims);
      EraseAll(victims);
      assert log[|old(log)|..] == AllReleases(records, victims);
    }

    /** The loop over the victims. */
    method EraseAll(victims: seq<Key>)
      requires forall k :: k in victims ==> k in byOriginal
      requires forall i, j :: 0 <= i < j < |victims| ==> victims[i] != victims[j]
      modifies this
      ensures byOriginal == Except(old(byOriginal), victims)
      ensures log == old(log) + AllReleases(old(byOriginal), victims)
    {
      for i: nat := 0 to |victims|
        invariant byOriginal == Except(old(byOriginal), victims[..i])
        invariant log == old(log) + AllReleases(old(byOriginal), victims[..i])
      {
        var k := victims[i];
        assert victims[..i + 1][..i] == victims[..i] && victims[..i + 1] == victims[..i] + [k];
        EraseRecord(k);
        ExceptOne(old(byOriginal), victims[..i], k);
      }
      assert victims[..|victims|] == victims;
    }
  }
}
