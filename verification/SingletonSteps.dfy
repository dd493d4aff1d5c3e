/** Every step of the singleton protocol keeps the invariant. */
module SingletonSteps {
  import opened SingletonProtocol
  import opened SingletonInvariant

  ghost predicate SameElsewhere(s: State, s': State, l: Loc) {
    && (forall k :: k != l ==> (k in s'.frames <==> k in s.frames))
    && (forall k :: k != l && k in s.frames ==> s'.frames[k] == s.frames[k])
  }

  /** How the phase of an object may change in a step of the call at `l`. */
  predicate PhaseStep(p: Phase, q: Phase, l: Loc) {
    || p == q
    || (p == Fresh(l) && (q == Published || q == Destructing(l)))
    || (p == Published && q == Retired(l))
    || (p == Retired(l) && q == Destructing(l))
    || (p == Destructing(l) && q == Freed)
  }

  /** A step of the call at `l` that changes `o` only, and whose references to
      `o` change at `drop` and `add` only. */
  ghost predicate StepOn(s: State, s': State, l: Loc, o: Obj, drop: set<Holder>, add: set<Holder>) {
    && s'.backend == s.backend && s'.debug == s.debug
    && SameElsewhere(s, s', l)
    && (forall x :: x != o ==> (x in s'.objs <==> x in s.objs))
    && (forall x :: x != o && x in s.objs ==> s'.objs[x] == s.objs[x])
    && (o in s.objs ==> o in s'.objs && PhaseStep(s.objs[o].phase, s'.objs[o].phase, l))
    && Holders(s', o) == Holders(s, o) - drop + add
    && (forall x :: x != o ==> Holders(s', x) == Holders(s, x))
    && drop <= {SlotRef, OwnRef(l), TmpRef(l)}
  }

  /** What the call at `k` sees of `o` while the call at `l` steps. */
  ghost predicate Steady(s: State, s': State, l: Loc, k: Loc, o: Obj) {
    o in s.objs ==>
      && o in s'.objs
      && PhaseStep(s.objs[o].phase, s'.objs[o].phase, l)
      && (s'.objs[o].phase == Destructing(l) && s.objs[o].phase != Destructing(l) ==>
            OwnRef(k) !in Holders(s, o) && TmpRef(k) !in Holders(s, o))
      && (s.objs[o].phase == Fresh(k) || s.objs[o].phase == Retired(k) ==>
            && Holders(s', o) <= Holders(s, o)
            && Holders(s, o) - Holders(s', o) <= {SlotRef, OwnRef(l), TmpRef(l)})
  }

  lemma OtherRefs(s: State, s': State, l: Loc, k: Loc)
    requires k in s.frames && forall o :: Steady(s, s', l, k, o)
    ensures var f := s.frames[k];
            && (f.own.Some? ==> OwnRef(k) in Holders(s, f.own.value) && Steady(s, s', l, k, f.own.value))
            && (f.tmp.Some? ==> TmpRef(k) in Holders(s, f.tmp.value) && Steady(s, s', l, k, f.tmp.value))
            && (f.ptr.Some? ==> Steady(s, s', l, k, f.ptr.value))
  {
  }

  lemma OtherOk(s: State, s': State, l: Loc, k: Loc)
    requires k != l && k in s.frames && k in s'.frames && s'.frames[k] == s.frames[k] && FrameOk(s, k)
    requires var f := s.frames[k];
             && (f.own.Some? ==> OwnRef(k) in Holders(s, f.own.value) && Steady(s, s', l, k, f.own.value))
             && (f.tmp.Some? ==> TmpRef(k) in Holders(s, f.tmp.value) && Steady(s, s', l, k, f.tmp.value))
             && (f.ptr.Some? ==> Steady(s, s', l, k, f.ptr.value))
    requires s'.slot != s.slot ==> !HoldsShared(s.frames[k].pc) && !HoldsExclusive(s.frames[k].pc)
    requires s.writer == OwnedBy(k) ==> s'.writer == OwnedBy(k)
    requires k in s.readers ==> k in s'.readers
    ensures FrameOk(s', k)
  {
  }

  lemma FramesKept(s: State, s': State, l: Loc, o: Obj, drop: set<Holder>, add: set<Holder>)
    requires FramesOk(s) && LockOk(s) && StepOn(s, s', l, o, drop, add)
    requires add != {} && o in s.objs ==>
               s.objs[o].phase == Published || s.objs[o].phase == Fresh(l) || s.objs[o].phase == Retired(l)
    requires o in s.objs && s'.objs[o].phase != s.objs[o].phase && s'.objs[o].phase == Destructing(l) ==>
               Holders(s, o) <= {OwnRef(l), TmpRef(l)}
    requires s'.slot != s.slot && s.backend.Intrusive? ==> s.writer == OwnedBy(l)
    requires forall k :: k != l ==> (s.writer == OwnedBy(k) ==> s'.writer == OwnedBy(k)) && (k in s.readers ==> k in s'.readers)
    requires l in s'.frames ==> FrameOk(s', l)
    ensures FramesOk(s')
  {
    forall k | k in s'.frames ensures FrameOk(s', k) {
      if k != l {
        assert FrameOk(s, k);
        forall x ensures Steady(s, s', l, k, x) {}
        OtherRefs(s, s', l, k);
        OtherOk(s, s', l, k);
      }
    }
  }

  lemma ObjSame(s: State, s': State, l: Loc, x: Obj)
    requires x in s.objs && x in s'.objs && s'.objs[x] == s.objs[x] && ObjOk(s, x)
    requires SameElsewhere(s, s', l) && Holders(s', x) == Holders(s, x)
    requires s'.slot == Some(x) <==> s.slot == Some(x)
    requires OwnedAt(s, x, l) ==> OwnedAt(s', x, l)
    ensures ObjOk(s', x)
  {
  }

  lemma ObjsKept(s: State, s': State, l: Loc, o: Obj, drop: set<Holder>, add: set<Holder>)
    requires ObjsOk(s) && StepOn(s, s', l, o, drop, add)
    requires o in s'.objs ==> ObjOk(s', o)
    requires s'.slot.Some? ==> s'.slot.value in s'.objs
    requires forall x :: x != o && OwnedAt(s, x, l) ==> OwnedAt(s', x, l)
    requires forall x :: x != o ==> (s'.slot == Some(x) <==> s.slot == Some(x))
    ensures ObjsOk(s')
  {
    forall x | x in s'.objs ensures ObjOk(s', x) {
      if x != o {
        assert ObjOk(s, x);
        ObjSame(s, s', l, x);
      }
    }
  }

  // ----- the lock, the call stacks, the callback depth and the debug guard -----

  predicate Top(s: State, l: Loc) {
    l in s.frames && Above(l) !in s.frames
  }

  /** The call at `l` goes on as `f`, or has left when `f` returns. */
  predicate Goes(s: State, l: Loc, f: Frame) {
    if f.pc == Return then l !in s.frames else l in s.frames && s.frames[l] == f
  }

  /** The call at `l` starts, goes on as `f`, or leaves if `f` returns; the lock
      passes as the positions before and after the step demand. */
  ghost predicate Shell(s: State, s': State, l: Loc, f: Frame) {
    && (Top(s, l) || (CanCall(s, l) && Above(l) !in s.frames))
    && SameElsewhere(s, s', l) && s'.backend == s.backend && s'.debug == s.debug
    && Goes(s', l, f)
    && s'.writer == (if HoldsExclusive(f.pc) then OwnedBy(l) else if s.writer == OwnedBy(l) then Unowned else s.writer)
    && s'.readers == (if HoldsShared(f.pc) then s.readers + {l} else s.readers - {l})
    && (HoldsExclusive(f.pc) ==> s.backend.Intrusive? && (Free(s) || s.writer == OwnedBy(l)))
    && (HoldsShared(f.pc) ==> s.backend.Intrusive? && s.writer == Unowned)
  }

  predicate IsRunning(s: State, l: Loc) {
    l in s.frames && s.frames[l].pc == WRunning
  }

  predicate IsInDestroy(s: State, l: Loc) {
    l in s.frames && InDestroy(s.frames[l].pc)
  }

  lemma LockKept(s: State, s': State, l: Loc, f: Frame)
    requires LockOk(s) && Shell(s, s', l, f)
    ensures LockOk(s')
  {
  }

  lemma StackKept(s: State, s': State, l: Loc, f: Frame)
    requires StackOk(s) && Shell(s, s', l, f)
    ensures StackOk(s')
  {
    forall k | k in s'.frames ensures OnStack(s', k) {
      if k.i > 0 {
        assert k in s.frames ==> OnStack(s, k);
        assert Loc(k.t, k.i - 1) == l ==> k == Above(l);
      }
    }
  }

  lemma DepthKept(s: State, s': State, l: Loc, f: Frame)
    requires DepthOk(s) && Shell(s, s', l, f) && s'.depth == s.depth && (f.pc == WRunning <==> IsRunning(s, l))
    ensures DepthOk(s')
  {
    forall t ensures Depth(s', t) == |Running(s', t)| {
      assert Running(s', t) == Running(s, t);
    }
  }

  lemma NoneAbove(s: State, l: Loc, k: Loc)
    requires StackOk(s) && Above(l) !in s.frames && k in s.frames && k.t == l.t
    ensures k.i <= l.i
    decreases k.i
  {
    if k.i > l.i {
      assert OnStack(s, k);
      if k.i > l.i + 1 {
        NoneAbove(s, l, Loc(k.t, k.i - 1));
      }
    }
  }

  lemma GuardKept(s: State, s': State, l: Loc, f: Frame)
    requires StackOk(s) && GuardOk(s) && Shell(s, s', l, f) && (InDestroy(f.pc) ==> IsInDestroy(s, l))
    ensures GuardOk(s')
  {
    if s.debug {
      forall m, k | m in s'.frames && InDestroy(s'.frames[m].pc) && k in Running(s', m.t) ensures m.i < k.i {
        if k == l {
          NoneAbove(s, l, m);
          assert m != l;
        } else {
          assert k in Running(s, m.t);
        }
      }
    }
  }

  /** A step of the call at `l` that neither enters nor leaves a callback nor
      starts to destroy. */
  ghost predicate Quiet(s: State, s': State, l: Loc, f: Frame) {
    && s'.depth == s.depth && (f.pc == WRunning <==> IsRunning(s, l)) && (InDestroy(f.pc) ==> IsInDestroy(s, l))
  }

  lemma ShellKept(s: State, s': State, l: Loc, f: Frame)
    requires ShellOk(s) && Shell(s, s', l, f) && Quiet(s, s', l, f)
    ensures ShellOk(s')
  {
    LockKept(s, s', l, f);
    StackKept(s, s', l, f);
    DepthKept(s, s', l, f);
    GuardKept(s, s', l, f);
  }

  // ----- the kinds of step -----

  predicate Owns(pc: Pc) {
    RoleOf(pc) == Maker || RoleOf(pc) == Drainer
  }

  function OwnOf(s: State, l: Loc): Ref {
    if l in s.frames then s.frames[l].own else None
  }

  function TmpOf(s: State, l: Loc): Ref {
    if l in s.frames then s.frames[l].tmp else None
  }

  /** The object the call at `l` owns, if any, is still owned by `f`, unless it is `but`. */
  predicate OwnedKept(s: State, l: Loc, f: Frame, but: Ref)
    requires l in s.frames
  {
    var e := s.frames[l];
    && (Owns(e.pc) && e.own.Some? && e.own != but ==> Owns(f.pc) && f.own == e.own)
    && (e.pc == CBuild && e.ptr != but ==> Owns(f.pc) && f.own == e.ptr)
    && (e.pc == Dtor ==> e.ptr == but)
  }

  lemma OwnedStays(s: State, s': State, l: Loc, f: Frame, but: Ref)
    requires l in s.frames && OwnedKept(s, l, f, but)
    requires Goes(s', l, f)
    ensures forall x: Obj :: Some(x) != but && OwnedAt(s, x, l) ==> OwnedAt(s', x, l)
  {
  }

  /** No retain, no release and no move of a reference. */
  lemma PlainRefs(s: State, s': State, l: Loc)
    requires SameElsewhere(s, s', l) && s'.slot == s.slot
    requires OwnOf(s', l) == OwnOf(s, l) && TmpOf(s', l) == TmpOf(s, l)
    ensures forall o :: Holders(s', o) == Holders(s, o)
  {
    forall h ensures RefAt(s', h) == RefAt(s, h) {
      match h
      case SlotRef =>
      case OwnRef(k) =>
      case TmpRef(k) =>
    }
    forall o ensures Holders(s', o) == Holders(s, o) {
      Changed(s, s', o, {}, {});
    }
  }

  lemma PlainObjs(s: State, s': State, l: Loc, f: Frame)
    requires ObjsOk(s) && Shell(s, s', l, f) && s'.objs == s.objs && s'.slot == s.slot
    requires forall o :: Holders(s', o) == Holders(s, o)
    requires l in s.frames && OwnedKept(s, l, f, None)
    ensures ObjsOk(s')
  {
    OwnedStays(s, s', l, f, None);
    forall x | x in s'.objs ensures ObjOk(s', x) {
      assert ObjOk(s, x);
      ObjSame(s, s', l, x);
    }
  }

  lemma FrameSame(s: State, s': State, l: Loc, f: Frame, k: Loc)
    requires Shell(s, s', l, f) && s'.objs == s.objs && s'.slot == s.slot && k != l && k in s.frames && FrameOk(s, k)
    requires forall o :: Holders(s', o) == Holders(s, o)
    ensures FrameOk(s', k)
  {
  }

  lemma PlainFrames(s: State, s': State, l: Loc, f: Frame)
    requires FramesOk(s) && Shell(s, s', l, f) && s'.objs == s.objs && s'.slot == s.slot
    requires forall o :: Holders(s', o) == Holders(s, o)
    requires f.pc != Return ==> FrameOk(s', l)
    ensures FramesOk(s')
  {
    forall k | k in s'.frames ensures FrameOk(s', k) {
      if k != l {
        assert FrameOk(s, k);
        FrameSame(s, s', l, f, k);
      }
    }
  }

  lemma PlainKept(s: State, s': State, l: Loc, f: Frame)
    requires Inv(s) && Shell(s, s', l, f) && l in s.frames && s'.objs == s.objs && s'.slot == s.slot && Quiet(s, s', l, f)
    requires OwnOf(s', l) == OwnOf(s, l) && TmpOf(s', l) == TmpOf(s, l)
    requires OwnedKept(s, l, f, None)
    requires f.pc != Return ==> FrameOk(s', l)
    ensures Inv(s')
  {
    ShellKept(s, s', l, f);
    PlainRefs(s, s', l);
    assert ObjsOk(s') by { PlainObjs(s, s', l, f); }
    assert FramesOk(s') by { PlainFrames(s, s', l, f); }
  }

  /** Only the position of the call at `l` changes, or the call leaves. */
  lemma MoveKept(s: State, s': State, l: Loc, f: Frame)
    requires Inv(s) && Top(s, l) && Alike(s, l, f) && s' == s.(frames := s'.frames)
    requires SameElsewhere(s, s', l) && Goes(s', l, f) && OwnedKept(s, l, f, None)
    requires OwnOf(s', l) == s.frames[l].own && TmpOf(s', l) == s.frames[l].tmp
    requires f.pc != Return ==> FrameOk(s', l)
    ensures Inv(s')
  {
    assert Shell(s, s', l, f) by { FrameIs(s, l); AlikeShell(s, s', l, f); }
    PlainKept(s, s', l, f);
  }

  /** The call at `l` gives the exclusive lock back and goes on as `f`. */
  ghost predicate Unlocks(s: State, s': State, l: Loc, f: Frame) {
    && Top(s, l) && HoldsExclusive(s.frames[l].pc) && s.writer == OwnedBy(l)
    && IsUnlocked(f.pc) && (InDestroy(f.pc) ==> InDestroy(s.frames[l].pc))
    && s' == s.(writer := Unowned, frames := s'.frames)
    && SameElsewhere(s, s', l) && Goes(s', l, f)
  }

  lemma UnlocksShell(s: State, s': State, l: Loc, f: Frame)
    requires LockOk(s) && Unlocks(s, s', l, f)
    ensures Shell(s, s', l, f) && Quiet(s, s', l, f)
  {
    assert s.readers == s.readers - {l};
  }

  lemma UnlocksKept(s: State, s': State, l: Loc, f: Frame)
    requires Inv(s) && Unlocks(s, s', l, f) && OwnedKept(s, l, f, None)
    requires OwnOf(s', l) == s.frames[l].own && TmpOf(s', l) == s.frames[l].tmp
    requires f.pc != Return ==> FrameOk(s', l)
    ensures Inv(s')
  {
    UnlocksShell(s, s', l, f);
    PlainKept(s, s', l, f);
  }

  /** The references to `o` go from `drop` to `add`. */
  ghost predicate RefsMove(s: State, s': State, o: Obj, drop: set<Holder>, add: set<Holder>) {
    && (forall h :: h !in drop && h !in add ==> RefAt(s', h) == RefAt(s, h))
    && (forall h :: h in drop ==> RefAt(s, h) == Some(o) && RefAt(s', h) == None)
    && (forall h :: h in add ==> RefAt(s, h) == None && RefAt(s', h) == Some(o))
  }

  /** A step of the call at `l` that retains, releases or moves a reference to `o`. */
  ghost predicate ObjStep(s: State, s': State, l: Loc, f: Frame, o: Obj, drop: set<Holder>, add: set<Holder>) {
    && Shell(s, s', l, f) && Quiet(s, s', l, f)
    && o in s.objs && o in s'.objs
    && s'.objs == s.objs[o := s'.objs[o]]
    && s'.objs[o].count == s.objs[o].count - |drop| + |add|
    && PhaseStep(s.objs[o].phase, s'.objs[o].phase, l)
    && RefsMove(s, s', o, drop, add)
    && drop <= {SlotRef, OwnRef(l), TmpRef(l)}
    && (s.slot != s'.slot ==> (s.backend.Intrusive? ==> s.writer == OwnedBy(l)))
    && (s.slot != s'.slot ==> (s.slot == None && s'.slot == Some(o)) || (s.slot == Some(o) && s'.slot == None))
    && (s'.slot == Some(o) <==> s'.objs[o].phase == Published)
    && (add != {} ==> s.objs[o].phase == Published || s.objs[o].phase == Fresh(l))
  }

  /** `o` still names its owner, and is destroyed exactly when `drop` held its last references. */
  predicate OwnerKept(s: State, s': State, o: Obj, drop: set<Holder>)
    requires o in s.objs && o in s'.objs
  {
    match s'.objs[o].phase
    case Fresh(m) => OwnedAt(s', o, m)
    case Published => true
    case Retired(m) => OwnedAt(s', o, m)
    case Destructing(m) => OwnedAt(s', o, m) && s'.objs[o].count == 0 && s.objs[o].phase != Destructing(m)
    case Freed => false
  }

  lemma ObjStepOn(s: State, s': State, l: Loc, f: Frame, o: Obj, drop: set<Holder>, add: set<Holder>)
    requires ObjsOk(s) && ObjStep(s, s', l, f, o, drop, add)
    ensures StepOn(s, s', l, o, drop, add)
    ensures s'.objs[o].count == |Holders(s', o)|
  {
    Changed(s, s', o, drop, add);
    assert ObjOk(s, o);
  }

  lemma ObjStepObjs(s: State, s': State, l: Loc, f: Frame, o: Obj, drop: set<Holder>, add: set<Holder>)
    requires ObjsOk(s) && ObjStep(s, s', l, f, o, drop, add) && OwnerKept(s, s', o, drop)
    requires StepOn(s, s', l, o, drop, add) && s'.objs[o].count == |Holders(s', o)|
    requires l in s.frames && OwnedKept(s, l, f, Some(o))
    ensures ObjsOk(s')
  {
    OwnedStays(s, s', l, f, Some(o));
    ObjsKept(s, s', l, o, drop, add);
  }

  /** A destroyed object was named by locals of the call only. */
  lemma LastOnes(s: State, s': State, l: Loc, f: Frame, o: Obj, drop: set<Holder>, add: set<Holder>)
    requires ObjStep(s, s', l, f, o, drop, add) && OwnerKept(s, s', o, drop)
    requires StepOn(s, s', l, o, drop, add) && s'.objs[o].count == |Holders(s', o)|
    requires s'.objs[o].phase == Destructing(l) && s.slot != Some(o)
    ensures Holders(s, o) <= {OwnRef(l), TmpRef(l)}
  {
    HoldersAre(s, o);
    assert Holders(s', o) == {};
    forall h | h in Holders(s, o) ensures h in drop {}
  }

  lemma ObjStepFrames(s: State, s': State, l: Loc, f: Frame, o: Obj, drop: set<Holder>, add: set<Holder>)
    requires FramesOk(s) && LockOk(s) && ObjStep(s, s', l, f, o, drop, add)
    requires StepOn(s, s', l, o, drop, add)
    requires s'.objs[o].phase != s.objs[o].phase && s'.objs[o].phase == Destructing(l) ==> Holders(s, o) <= {OwnRef(l), TmpRef(l)}
    requires l in s'.frames ==> FrameOk(s', l)
    ensures FramesOk(s')
  {
    FramesKept(s, s', l, o, drop, add);
  }

  lemma ObjStepKept(s: State, s': State, l: Loc, f: Frame, o: Obj, drop: set<Holder>, add: set<Holder>)
    requires Inv(s) && ObjStep(s, s', l, f, o, drop, add) && OwnerKept(s, s', o, drop)
    requires l in s.frames && OwnedKept(s, l, f, Some(o))
    requires l in s'.frames ==> FrameOk(s', l)
    ensures Inv(s')
  {
    ShellKept(s, s', l, f);
    ObjStepOn(s, s', l, f, o, drop, add);
    ObjStepObjs(s, s', l, f, o, drop, add);
    if s'.objs[o].phase != s.objs[o].phase && s'.objs[o].phase == Destructing(l) {
      assert ObjOk(s, o);
      LastOnes(s, s', l, f, o, drop, add);
    }
    ObjStepFrames(s, s', l, f, o, drop, add);
  }

  predicate Reseated(before: Ref, after: Ref, o: Obj, dropped: bool, added: bool) {
    if dropped then before == Some(o) && after == None
    else if added then before == None && after == Some(o)
    else before == after
  }

  /** Only the slot and the locals of `l` need to be looked at. */
  lemma RefsMoveIs(s: State, s': State, l: Loc, o: Obj, drop: set<Holder>, add: set<Holder>)
    requires SameElsewhere(s, s', l)
    requires forall h :: h in drop || h in add ==> h == SlotRef || h == OwnRef(l) || h == TmpRef(l)
    requires forall h :: h in drop ==> h !in add
    requires Reseated(s.slot, s'.slot, o, SlotRef in drop, SlotRef in add)
    requires Reseated(OwnOf(s, l), OwnOf(s', l), o, OwnRef(l) in drop, OwnRef(l) in add)
    requires Reseated(TmpOf(s, l), TmpOf(s', l), o, TmpRef(l) in drop, TmpRef(l) in add)
    ensures RefsMove(s, s', o, drop, add)
  {
    forall h | h !in drop && h !in add ensures RefAt(s', h) == RefAt(s, h) {
      match h
      case SlotRef =>
      case OwnRef(k) =>
      case TmpRef(k) =>
    }
  }

  /** `f` and the call at `l` stand alike towards the lock, the callback and the destroyers. */
  predicate Alike(s: State, l: Loc, f: Frame)
    requires l in s.frames
  {
    && (HoldsShared(f.pc) <==> HoldsShared(s.frames[l].pc))
    && (HoldsExclusive(f.pc) <==> HoldsExclusive(s.frames[l].pc))
    && (f.pc == WRunning <==> s.frames[l].pc == WRunning)
    && (InDestroy(f.pc) ==> InDestroy(s.frames[l].pc))
  }

  /** Outside the lock and the callback. */
  predicate IsUnlocked(pc: Pc) {
    !HoldsShared(pc) && !HoldsExclusive(pc) && pc != WRunning
  }

  lemma OnlyOne<T>(a: set<T>, x: T)
    requires x in a && |a| <= 1
    ensures a == {x}
  {
    assert |a - {x}| == |a| - 1;
  }

  /** The call holds the lock as its position says. */
  predicate Claims(s: State, l: Loc)
    requires l in s.frames
  {
    && (HoldsExclusive(s.frames[l].pc) ==> s.writer == OwnedBy(l))
    && (HoldsShared(s.frames[l].pc) ==> l in s.readers)
  }

  lemma AlikeLock(s: State, l: Loc, f: Frame)
    requires LockOk(s) && l in s.frames && Claims(s, l) && Alike(s, l, f)
    ensures s.writer == (if HoldsExclusive(f.pc) then OwnedBy(l) else if s.writer == OwnedBy(l) then Unowned else s.writer)
    ensures s.readers == (if HoldsShared(f.pc) then s.readers + {l} else s.readers - {l})
    ensures HoldsExclusive(f.pc) ==> s.backend.Intrusive? && s.writer == OwnedBy(l)
    ensures HoldsShared(f.pc) ==> s.backend.Intrusive? && s.writer == Unowned
  {
  }

  lemma AlikeShell(s: State, s': State, l: Loc, f: Frame)
    requires LockOk(s) && Top(s, l) && Claims(s, l) && Alike(s, l, f)
    requires s'.backend == s.backend && s'.debug == s.debug && s'.writer == s.writer && s'.readers == s.readers
    requires SameElsewhere(s, s', l) && Goes(s', l, f)
    ensures Shell(s, s', l, f)
  {
    AlikeLock(s, l, f);
  }

  /** A reference to `o` is retained into the local `h` of the call at `l`. */
  predicate Retains(s: State, s': State, l: Loc, f: Frame, o: Obj, h: Holder) {
    && Top(s, l) && Alike(s, l, f) && f.pc != Return
    && o in s.objs && (s.objs[o].phase == Published || s.objs[o].phase == Fresh(l))
    && s' == s.(objs := s.objs[o := s.objs[o].(count := s.objs[o].count + 1)], frames := s.frames[l := f])
    && (h == OwnRef(l) || h == TmpRef(l))
    && Reseated(s.frames[l].own, f.own, o, false, h == OwnRef(l))
    && Reseated(s.frames[l].tmp, f.tmp, o, false, h == TmpRef(l))
    && OwnedKept(s, l, f, Some(o))
    && (s.objs[o].phase == Fresh(l) ==> Owns(f.pc) && f.own == Some(o))
  }

  lemma RetainStep(s: State, s': State, l: Loc, f: Frame, o: Obj, h: Holder)
    requires Inv(s) && Retains(s, s', l, f, o, h)
    ensures ObjStep(s, s', l, f, o, {}, {h}) && OwnerKept(s, s', o, {})
  {
    assert FrameOk(s, l) && ObjOk(s, o);
    AlikeShell(s, s', l, f);
    RefsMoveIs(s, s', l, o, {}, {h});
  }

  lemma RetainKept(s: State, s': State, l: Loc, f: Frame, o: Obj, h: Holder)
    requires Inv(s) && Retains(s, s', l, f, o, h)
    requires FrameOk(s', l)
    ensures Inv(s')
  {
    RetainStep(s, s', l, f, o, h);
    ObjStepKept(s, s', l, f, o, {}, {h});
  }

  /** A reference to `o` is dropped from the local `h`, and others remain. */
  ghost predicate Drops(s: State, s': State, l: Loc, f: Frame, o: Obj, h: Holder) {
    && Top(s, l) && Alike(s, l, f) && SameElsewhere(s, s', l) && Goes(s', l, f)
    && InUse(s, Some(o)) && s.objs[o].phase != Retired(l)
    && s' == s.(objs := s.objs[o := s.objs[o].(count := s.objs[o].count - 1)], frames := s'.frames)
    && (h == OwnRef(l) || h == TmpRef(l))
    && Reseated(s.frames[l].own, OwnOf(s', l), o, h == OwnRef(l), false)
    && Reseated(s.frames[l].tmp, TmpOf(s', l), o, h == TmpRef(l), false)
    && OwnedKept(s, l, f, Some(o))
  }

  lemma DropShell(s: State, s': State, l: Loc, f: Frame, o: Obj, h: Holder)
    requires LockOk(s) && FramesOk(s) && Drops(s, s', l, f, o, h)
    ensures Shell(s, s', l, f) && Quiet(s, s', l, f)
  {
    assert FrameOk(s, l);
    AlikeShell(s, s', l, f);
  }

  lemma DropRefs(s: State, s': State, l: Loc, f: Frame, o: Obj, h: Holder)
    requires Drops(s, s', l, f, o, h)
    ensures RefsMove(s, s', o, {h}, {})
  {
    RefsMoveIs(s, s', l, o, {h}, {});
  }

  lemma DropStep(s: State, s': State, l: Loc, f: Frame, o: Obj, h: Holder)
    requires Inv(s) && Drops(s, s', l, f, o, h)
    ensures ObjStep(s, s', l, f, o, {h}, {}) && OwnerKept(s, s', o, {h})
  {
    DropShell(s, s', l, f, o, h);
    DropRefs(s, s', l, f, o, h);
    DropOwner(s, s', l, f, o, h);
  }

  lemma DropOwner(s: State, s': State, l: Loc, f: Frame, o: Obj, h: Holder)
    requires ObjsOk(s) && Drops(s, s', l, f, o, h)
    ensures OwnerKept(s, s', o, {h}) && (s.slot == Some(o) <==> s'.objs[o].phase == Published)
  {
    assert ObjOk(s, o);
  }

  lemma DropKept(s: State, s': State, l: Loc, f: Frame, o: Obj, h: Holder)
    requires Inv(s) && Drops(s, s', l, f, o, h)
    requires f.pc != Return ==> FrameOk(s', l)
    ensures Inv(s')
  {
    DropStep(s, s', l, f, o, h);
    ObjStepKept(s, s', l, f, o, {h}, {});
  }

  /** The call at `l` drops the last reference to `o` and runs its destructor. */
  predicate Destroys(s: State, s': State, l: Loc, o: Obj, next: Pc) {
    && Top(s, l) && IsUnlocked(s.frames[l].pc) && s.frames[l].own == Some(o) && s.frames[l].tmp == None
    && o in s.objs && (s.objs[o].phase == Fresh(l) || s.objs[o].phase == Retired(l))
    && s.objs[o].count == 1 && (next == Return || next == CFatal) && Owns(s.frames[l].pc)
    && s' == s.(objs := s.objs[o := ObjState(0, Destructing(l))],
                frames := s.frames[l := Frame(Dtor, None, None, Some(o), next)])
  }

  lemma DestroysShell(s: State, s': State, l: Loc, o: Obj, next: Pc)
    requires LockOk(s) && Destroys(s, s', l, o, next)
    ensures var f := s'.frames[l]; Shell(s, s', l, f) && Quiet(s, s', l, f)
  {
    AlikeShell(s, s', l, s'.frames[l]);
  }

  lemma DestroysRefs(s: State, s': State, l: Loc, o: Obj, next: Pc)
    requires Destroys(s, s', l, o, next)
    ensures RefsMove(s, s', o, {OwnRef(l)}, {})
  {
    RefsMoveIs(s, s', l, o, {OwnRef(l)}, {});
  }

  lemma DestroysOwner(s: State, s': State, l: Loc, o: Obj, next: Pc)
    requires ObjsOk(s) && Destroys(s, s', l, o, next)
    ensures OwnerKept(s, s', o, {OwnRef(l)}) && s.slot != Some(o) && Holders(s, o) == {OwnRef(l)}
  {
    assert ObjOk(s, o);
    OnlyOne(Holders(s, o), OwnRef(l));
  }

  lemma DestroysStep(s: State, s': State, l: Loc, o: Obj, next: Pc)
    requires LockOk(s) && ObjsOk(s) && Destroys(s, s', l, o, next)
    ensures ObjStep(s, s', l, Frame(Dtor, None, None, Some(o), next), o, {OwnRef(l)}, {})
  {
    DestroysShell(s, s', l, o, next);
    DestroysRefs(s, s', l, o, next);
    DestroysOwner(s, s', l, o, next);
  }

  lemma DtorOk(s: State, l: Loc, o: Obj, next: Pc)
    requires l in s.frames && s.frames[l] == Frame(Dtor, None, None, Some(o), next) && (next == Return || next == CFatal)
    requires HasPhase(s, Some(o), Destructing(l))
    ensures FrameOk(s, l)
  {
  }

  lemma FreeKept(s: State, s': State, l: Loc, o: Obj, next: Pc)
    requires Inv(s) && Destroys(s, s', l, o, next)
    ensures Inv(s')
  {
    var f := Frame(Dtor, None, None, Some(o), next);
    DestroysStep(s, s', l, o, next);
    DestroysOwner(s, s', l, o, next);
    DtorOk(s', l, o, next);
    ObjStepKept(s, s', l, f, o, {OwnRef(l)}, {});
  }

  // ----- withInstance -----

  lemma LockShared(s: State, l: Loc)
    requires Inv(s) && Top(s, l) && s.frames[l].pc == WStart && s.backend.Intrusive? && s.writer == Unowned
    ensures Inv(WithStep(s, l))
  {
    assert FrameOk(s, l);
    PlainKept(s, WithStep(s, l), l, At(WShared, None));
  }

  lemma ReadSlot(s: State, l: Loc)
    requires Inv(s) && Top(s, l) && s.frames[l].pc == WShared
    ensures Inv(WithStep(s, l))
  {
    assert FrameOk(s, l);
    PlainKept(s, WithStep(s, l), l, At(WRead, None).(ptr := s.slot));
  }

  lemma UnlockShared(s: State, l: Loc)
    requires Inv(s) && Top(s, l) && s.frames[l].pc == WRetained
    ensures Inv(WithStep(s, l))
  {
    assert FrameOk(s, l);
    PlainKept(s, WithStep(s, l), l, At(WHeld, s.frames[l].own));
  }

  /** A call that holds nothing returns. */
  lemma NoInstance(s: State, s': State, l: Loc)
    requires Inv(s) && Top(s, l) && s.frames[l].pc == WHeld && s.frames[l].own == None
    requires s' == Leave(s, l)
    ensures Inv(s')
  {
    assert FrameOk(s, l);
    MoveKept(s, s', l, At(Return, None));
  }

  lemma LoadRetains(s: State, s': State, l: Loc, o: Obj)
    requires Top(s, l) && s.frames[l].pc == WStart && FrameOk(s, l) && HasPhase(s, Some(o), Published)
    requires s' == s.(objs := s.objs[o := s.objs[o].(count := s.objs[o].count + 1)], frames := s.frames[l := At(WHeld, Some(o))])
    ensures Retains(s, s', l, At(WHeld, Some(o)), o, OwnRef(l)) && FrameOk(s', l)
  {
  }

  lemma AtomicLoad(s: State, l: Loc)
    requires Inv(s) && Top(s, l) && s.frames[l].pc == WStart && s.backend.SharedPtr? && s.slot.Some?
    ensures Inv(WithStep(s, l))
  {
    var o := s.slot.value;
    FrameIs(s, l);
    assert HasPhase(s, Some(o), Published) by { assert ObjOk(s, o); }
    LoadRetains(s, WithStep(s, l), l, o);
    RetainKept(s, WithStep(s, l), l, At(WHeld, Some(o)), o, OwnRef(l));
  }

  lemma AtomicLoadNone(s: State, l: Loc)
    requires Inv(s) && Top(s, l) && s.frames[l].pc == WStart && s.backend.SharedPtr? && s.slot.None?
    ensures Inv(WithStep(s, l))
  {
    assert FrameOk(s, l);
    PlainKept(s, WithStep(s, l), l, At(WHeld, None));
  }

  lemma RetainRead(s: State, l: Loc)
    requires Inv(s) && Top(s, l) && s.frames[l].pc == WRead && s.frames[l].ptr.Some?
    ensures Inv(WithStep(s, l))
  {
    assert FrameOk(s, l) && ObjOk(s, s.frames[l].ptr.value);
    RetainKept(s, WithStep(s, l), l, At(WRetained, s.frames[l].ptr), s.frames[l].ptr.value, OwnRef(l));
  }

  lemma RetainReadNone(s: State, l: Loc)
    requires Inv(s) && Top(s, l) && s.frames[l].pc == WRead && s.frames[l].ptr.None?
    ensures Inv(WithStep(s, l))
  {
    assert FrameOk(s, l);
    PlainKept(s, WithStep(s, l), l, At(WRetained, None));
  }

  lemma RunningElsewhere(s: State, s': State, l: Loc, t: nat)
    requires SameElsewhere(s, s', l) && t != l.t
    ensures Running(s', t) == Running(s, t)
  {
  }

  lemma RunningGains(s: State, s': State, l: Loc)
    requires SameElsewhere(s, s', l) && !IsRunning(s, l) && IsRunning(s', l)
    ensures |Running(s', l.t)| == |Running(s, l.t)| + 1
  {
    assert Running(s', l.t) == Running(s, l.t) + {l} && l !in Running(s, l.t);
  }

  lemma RunningLoses(s: State, s': State, l: Loc)
    requires SameElsewhere(s, s', l) && IsRunning(s, l) && !IsRunning(s', l)
    ensures |Running(s', l.t)| == |Running(s, l.t)| - 1
  {
    assert Running(s', l.t) == Running(s, l.t) - {l} && l in Running(s, l.t);
  }

  lemma DepthMoves(s: State, s': State, l: Loc, d: int)
    requires DepthOk(s) && SameElsewhere(s, s', l) && s'.depth == s.depth[l.t := Depth(s, l.t) + d]
    requires |Running(s', l.t)| == |Running(s, l.t)| + d
    ensures DepthOk(s')
  {
    forall t ensures Depth(s', t) == |Running(s', t)| {
      if t != l.t {
        RunningElsewhere(s, s', l, t);
        assert Depth(s', t) == Depth(s, t);
      } else {
        assert Depth(s, t) == |Running(s, t)|;
      }
    }
  }

  lemma CallbackKept(s: State, s': State, l: Loc, f: Frame)
    requires Inv(s) && Shell(s, s', l, f) && l in s.frames && s'.objs == s.objs && s'.slot == s.slot
    requires !InDestroy(f.pc) && OwnedKept(s, l, f, None)
    requires OwnOf(s', l) == OwnOf(s, l) && TmpOf(s', l) == TmpOf(s, l)
    requires f.pc != Return && FrameOk(s', l)
    ensures LockOk(s') && StackOk(s') && GuardOk(s') && FramesOk(s') && ObjsOk(s')
  {
    assert LockOk(s') by { LockKept(s, s', l, f); }
    assert StackOk(s') by { StackKept(s, s', l, f); }
    assert GuardOk(s') by { GuardKept(s, s', l, f); }
    PlainRefs(s, s', l);
    assert ObjsOk(s') by { PlainObjs(s, s', l, f); }
    assert FramesOk(s') by { PlainFrames(s, s', l, f); }
  }

  /** The call at `l` enters or leaves its callback, on the object that it holds. */
  ghost predicate PassesCallback(s: State, s': State, l: Loc, f: Frame) {
    && Top(s, l) && s.frames[l].own.Some? && f == At(f.pc, s.frames[l].own)
    && ((s.frames[l].pc == WHeld && f.pc == WRunning) || (s.frames[l].pc == WRunning && f.pc == WDrop))
    && s' == s.(depth := s'.depth, frames := s.frames[l := f])
  }

  lemma PassesShell(s: State, s': State, l: Loc, f: Frame)
    requires LockOk(s) && PassesCallback(s, s', l, f) && FrameOk(s, l)
    ensures Shell(s, s', l, f)
  {
    assert s'.readers == s.readers - {l};
  }

  lemma PassesFrame(s: State, s': State, l: Loc, f: Frame)
    requires PassesCallback(s, s', l, f) && FrameOk(s, l)
    ensures FrameOk(s', l) && OwnedKept(s, l, f, None) && OwnOf(s', l) == OwnOf(s, l) && TmpOf(s', l) == TmpOf(s, l)
  {
  }

  lemma PassesKept(s: State, s': State, l: Loc, f: Frame)
    requires Inv(s) && PassesCallback(s, s', l, f)
    ensures LockOk(s') && StackOk(s') && GuardOk(s') && FramesOk(s') && ObjsOk(s')
  {
    FrameIs(s, l);
    PassesShell(s, s', l, f);
    PassesFrame(s, s', l, f);
    CallbackKept(s, s', l, f);
  }

  lemma EnterCallback(s: State, l: Loc)
    requires Inv(s) && Top(s, l) && s.frames[l].pc == WHeld && s.frames[l].own.Some?
    ensures Inv(WithStep(s, l))
  {
    var s' := WithStep(s, l);
    RunningGains(s, s', l);
    DepthMoves(s, s', l, 1);
    PassesKept(s, s', l, At(WRunning, s.frames[l].own));
  }

  lemma LeaveCallback(s: State, l: Loc)
    requires Inv(s) && Top(s, l) && s.frames[l].pc == WRunning
    ensures Inv(WithStep(s, l))
  {
    var s' := WithStep(s, l);
    FrameIs(s, l);
    RunningLoses(s, s', l);
    DepthMoves(s, s', l, -1);
    PassesKept(s, s', l, At(WDrop, s.frames[l].own));
  }

  /** A call that only uses `o` never drops the last reference: the slot or
      the destroyer still holds the object. */
  lemma OthersHold(s: State, l: Loc, o: Obj, h: Holder)
    requires Inv(s) && l in s.frames && InUse(s, Some(o)) && RefAt(s, h) == Some(o)
    requires (h == OwnRef(l) && RoleOf(s.frames[l].pc) == User) || h == TmpRef(l)
    ensures s.objs[o].count >= 2 && s.objs[o].phase != Retired(l)
  {
    assert ObjOk(s, o) && FrameOk(s, l);
    var k := if s.objs[o].phase == Published then SlotRef else OwnRef(s.objs[o].phase.at);
    HoldersAre(s, o);
    assert RefAt(s, k) == Some(o) && k != h by {
      if s.objs[o].phase.Retired? {
        assert FrameOk(s, s.objs[o].phase.at);
      }
    }
    assert |Holders(s, o) - {h}| == |Holders(s, o)| - 1 && k in Holders(s, o) - {h};
  }

  lemma ReleaseShared(s: State, l: Loc, o: Obj, f: Frame)
    requires o in s.objs && s.objs[o].count >= 2
    ensures Release(s, l, Some(o), f)
         == s.(objs := s.objs[o := s.objs[o].(count := s.objs[o].count - 1)], frames := Continue(s, l, f).frames)
  {
  }

  lemma ReleaseLast(s: State, l: Loc, o: Obj, f: Frame)
    requires o in s.objs && s.objs[o].count == 1
    ensures Release(s, l, Some(o), f)
         == s.(objs := s.objs[o := ObjState(0, Destructing(l))],
               frames := s.frames[l := f.(pc := Dtor, ptr := Some(o), next := f.pc)])
  {
  }

  /** A call that only uses `o` drops its reference and returns. */
  lemma DropAndReturn(s: State, s': State, l: Loc, o: Obj)
    requires Inv(s) && Top(s, l) && s.frames[l].own == Some(o)
    requires s.frames[l].pc == WDrop || s.frames[l].pc == CWonDrop
    requires s' == Release(s, l, Some(o), At(Return, None))
    ensures Inv(s') && s'.frames == s.frames - {l}
  {
    assert FrameOk(s, l);
    OthersHold(s, l, o, OwnRef(l));
    ReleaseShared(s, l, o, At(Return, None));
    LeaveKept(s, s', l, o);
  }

  lemma LeftElsewhere(s: State, s': State, l: Loc)
    requires s'.frames == s.frames - {l}
    ensures SameElsewhere(s, s', l) && l !in s'.frames
  {
  }

  lemma LeavesOwned(s: State, l: Loc, o: Obj)
    requires Top(s, l) && (s.frames[l].pc == WDrop || s.frames[l].pc == CWonDrop)
    ensures Alike(s, l, At(Return, None)) && OwnedKept(s, l, At(Return, None), Some(o))
  {
    assert RoleOf(s.frames[l].pc) == User;
  }

  lemma LeaveReseats(s: State, s': State, l: Loc, o: Obj)
    requires l in s.frames && s.frames[l].own == Some(o) && s.frames[l].tmp == None && l !in s'.frames
    ensures Reseated(s.frames[l].own, OwnOf(s', l), o, true, false) && Reseated(s.frames[l].tmp, TmpOf(s', l), o, false, false)
  {
  }

  lemma LeaveDrops(s: State, s': State, l: Loc, o: Obj)
    requires Top(s, l) && s.frames[l].own == Some(o) && s.frames[l].tmp == None
    requires Alike(s, l, At(Return, None)) && OwnedKept(s, l, At(Return, None), Some(o))
    requires InUse(s, Some(o)) && s.objs[o].phase != Retired(l) && SameElsewhere(s, s', l) && l !in s'.frames
    requires s' == s.(objs := s.objs[o := s.objs[o].(count := s.objs[o].count - 1)], frames := s'.frames)
    ensures Drops(s, s', l, At(Return, None), o, OwnRef(l))
  {
    LeaveReseats(s, s', l, o);
    assert OwnRef(l) != TmpRef(l);
  }

  lemma LeaveKept(s: State, s': State, l: Loc, o: Obj)
    requires Inv(s) && Top(s, l) && (s.frames[l].pc == WDrop || s.frames[l].pc == CWonDrop)
    requires s.frames[l].own == Some(o) && s.frames[l].tmp == None
    requires InUse(s, Some(o)) && s.objs[o].phase != Retired(l)
    requires s' == s.(objs := s.objs[o := s.objs[o].(count := s.objs[o].count - 1)], frames := s.frames - {l})
    ensures Inv(s')
  {
    LeftElsewhere(s, s', l);
    LeavesOwned(s, l, o);
    LeaveDrops(s, s', l, o);
    DropKept(s, s', l, At(Return, None), o, OwnRef(l));
  }

  lemma DropHeld(s: State, l: Loc)
    requires Inv(s) && Top(s, l) && s.frames[l].pc == WDrop
    ensures Inv(WithStep(s, l)) && WithStep(s, l).frames == s.frames - {l}
  {
    assert FrameOk(s, l);
    DropAndReturn(s, WithStep(s, l), l, s.frames[l].own.value);
  }

  // ----- createInstance -----

  lemma AdoptRetains(s: State, s': State, l: Loc, o: Obj)
    requires Top(s, l) && s.frames[l].pc == CBuild && s.frames[l].ptr == Some(o) && o in s.objs && FrameOk(s, l)
    requires s' == s.(objs := s.objs[o := s.objs[o].(count := s.objs[o].count + 1)], frames := s.frames[l := At(CNew, Some(o))])
    ensures Retains(s, s', l, At(CNew, Some(o)), o, OwnRef(l)) && FrameOk(s', l)
  {
  }

  lemma Adopt(s: State, l: Loc)
    requires Inv(s) && Top(s, l) && s.frames[l].pc == CBuild
    ensures Inv(CreateStep(s, l))
  {
    FrameIs(s, l);
    var o := s.frames[l].ptr.value;
    AdoptRetains(s, CreateStep(s, l), l, o);
    RetainKept(s, CreateStep(s, l), l, At(CNew, Some(o)), o, OwnRef(l));
  }

  lemma LockToPublish(s: State, l: Loc)
    requires Inv(s) && Top(s, l) && s.frames[l].pc == CNew && s.backend.Intrusive? && Free(s)
    ensures Inv(CreateStep(s, l))
  {
    assert FrameOk(s, l);
    PlainKept(s, CreateStep(s, l), l, At(CExcl, s.frames[l].own));
  }

  lemma SeeFull(s: State, l: Loc)
    requires Inv(s) && Top(s, l) && s.frames[l].pc == CExcl && s.slot != None
    ensures Inv(CreateStep(s, l))
  {
    assert FrameOk(s, l);
    PlainKept(s, CreateStep(s, l), l, At(CLost, s.frames[l].own));
  }

  lemma CopyNew(s: State, l: Loc)
    requires Inv(s) && Top(s, l) && s.frames[l].pc == CExcl && s.slot == None
    ensures Inv(CreateStep(s, l))
  {
    assert FrameOk(s, l);
    var o := s.frames[l].own;
    RetainKept(s, CreateStep(s, l), l, At(CCopy, o).(tmp := o), o.value, TmpRef(l));
  }

  /** The copy at `l` goes into the empty slot. */
  predicate SwapsIn(s: State, s': State, l: Loc, o: Obj) {
    && Top(s, l) && s.frames[l].pc == CCopy && s.frames[l].own == Some(o) && s.frames[l].tmp == Some(o) && s.slot == None
    && HasPhase(s, Some(o), Fresh(l))
    && s' == s.(objs := s.objs[o := s.objs[o].(phase := Published)], slot := Some(o), frames := s.frames[l := At(CStored, Some(o))])
  }

  lemma SwapInShell(s: State, s': State, l: Loc, o: Obj)
    requires LockOk(s) && SwapsIn(s, s', l, o) && Claims(s, l)
    ensures Shell(s, s', l, At(CStored, Some(o))) && Quiet(s, s', l, At(CStored, Some(o)))
  {
    AlikeShell(s, s', l, At(CStored, Some(o)));
  }

  lemma SwapInRefs(s: State, s': State, l: Loc, o: Obj)
    requires SwapsIn(s, s', l, o)
    ensures RefsMove(s, s', o, {TmpRef(l)}, {SlotRef})
  {
    RefsMoveIs(s, s', l, o, {TmpRef(l)}, {SlotRef});
  }

  lemma SwapInKept(s: State, s': State, l: Loc, o: Obj)
    requires Inv(s) && SwapsIn(s, s', l, o) && FrameOk(s, l)
    ensures Inv(s')
  {
    SwapInShell(s, s', l, o);
    SwapInRefs(s, s', l, o);
    ObjStepKept(s, s', l, At(CStored, Some(o)), o, {TmpRef(l)}, {SlotRef});
  }

  /** The copy is swapped into the empty slot. */
  lemma SwapIn(s: State, l: Loc)
    requires Inv(s) && Top(s, l) && s.frames[l].pc == CCopy
    ensures Inv(CreateStep(s, l))
  {
    FrameIs(s, l);
    SwapInKept(s, CreateStep(s, l), l, s.frames[l].own.value);
  }

  /** The compare-exchange stores a copy of `New` into the empty slot. */
  lemma PublishKept(s: State, s': State, l: Loc, o: Obj)
    requires Inv(s) && Top(s, l) && s.frames[l].pc == CNew && s.frames[l].own == Some(o) && s.backend.SharedPtr? && s.slot == None
    requires HasPhase(s, Some(o), Fresh(l))
    requires s' == s.(objs := s.objs[o := ObjState(s.objs[o].count + 1, Published)], slot := Some(o),
                      frames := s.frames[l := At(CWonDrop, Some(o))])
    ensures Inv(s')
  {
    var f := At(CWonDrop, Some(o));
    assert FrameOk(s, l);
    AlikeShell(s, s', l, f);
    RefsMoveIs(s, s', l, o, {}, {SlotRef});
    ObjStepKept(s, s', l, f, o, {}, {SlotRef});
  }

  lemma ExchangeIn(s: State, l: Loc)
    requires Inv(s) && Top(s, l) && s.frames[l].pc == CNew && s.backend.SharedPtr? && s.slot == None
    ensures Inv(CreateStep(s, l))
  {
    assert FrameOk(s, l);
    PublishKept(s, CreateStep(s, l), l, s.frames[l].own.value);
  }

  lemma UnlockIs(s: State, s': State, l: Loc, f: Frame)
    requires s.backend.Intrusive? && Top(s, l) && FrameOk(s, l) && (s.frames[l].pc == CStored || s.frames[l].pc == CLost)
    requires f == At(if s.frames[l].pc == CStored then CWonDrop else CLostDrop, s.frames[l].own) && s' == CreateStep(s, l)
    ensures Unlocks(s, s', l, f) && OwnedKept(s, l, f, None) && FrameOk(s', l)
  {
  }

  lemma UnlockCreate(s: State, l: Loc)
    requires Inv(s) && Top(s, l) && (s.frames[l].pc == CStored || s.frames[l].pc == CLost)
    ensures Inv(CreateStep(s, l))
  {
    var f := At(if s.frames[l].pc == CStored then CWonDrop else CLostDrop, s.frames[l].own);
    FrameIs(s, l);
    UnlockIs(s, CreateStep(s, l), l, f);
    UnlocksKept(s, CreateStep(s, l), l, f);
  }

  lemma ExchangeRetains(s: State, s': State, l: Loc, w: Obj)
    requires Top(s, l) && s.frames[l].pc == CNew && s.frames[l].tmp == None && HasPhase(s, Some(w), Published)
    requires s' == s.(objs := s.objs[w := s.objs[w].(count := s.objs[w].count + 1)],
                      frames := s.frames[l := At(CExpected, s.frames[l].own).(tmp := Some(w))])
    ensures Retains(s, s', l, s'.frames[l], w, TmpRef(l))
  {
  }

  lemma ExchangeFrame(s: State, s': State, l: Loc, w: Obj)
    requires Top(s, l) && s.frames[l].pc == CNew && FrameOk(s, l) && HasPhase(s, Some(w), Published)
    requires s' == s.(objs := s.objs[w := s.objs[w].(count := s.objs[w].count + 1)],
                      frames := s.frames[l := At(CExpected, s.frames[l].own).(tmp := Some(w))])
    ensures FrameOk(s', l)
  {
  }

  /** The failed compare-exchange leaves a reference to the winner in `Expected`. */
  lemma ExchangeFails(s: State, l: Loc)
    requires Inv(s) && Top(s, l) && s.frames[l].pc == CNew && s.backend.SharedPtr? && s.slot.Some?
    ensures Inv(CreateStep(s, l))
  {
    var s', w := CreateStep(s, l), s.slot.value;
    FrameIs(s, l);
    assert ObjOk(s, w);
    ExchangeRetains(s, s', l, w);
    ExchangeFrame(s, s', l, w);
    RetainKept(s, s', l, s'.frames[l], w, TmpRef(l));
  }

  lemma ExpectedDrops(s: State, s': State, l: Loc, w: Obj, f: Frame)
    requires Top(s, l) && s.frames[l].pc == CExpected && s.frames[l].tmp == Some(w) && FrameOk(s, l)
    requires InUse(s, Some(w)) && s.objs[w].phase != Retired(l) && f == At(CLostDrop, s.frames[l].own)
    requires s' == s.(objs := s.objs[w := s.objs[w].(count := s.objs[w].count - 1)], frames := s.frames[l := f])
    ensures Drops(s, s', l, f, w, TmpRef(l)) && FrameOk(s', l)
  {
  }

  lemma DropExpected(s: State, l: Loc)
    requires Inv(s) && Top(s, l) && s.frames[l].pc == CExpected
    ensures Inv(CreateStep(s, l)) && CreateStep(s, l).frames == s.frames[l := At(CLostDrop, s.frames[l].own)]
  {
    FrameIs(s, l);
    var w, f := s.frames[l].tmp.value, At(CLostDrop, s.frames[l].own);
    OthersHold(s, l, w, TmpRef(l));
    ReleaseShared(s, l, w, f);
    ExpectedDrops(s, CreateStep(s, l), l, w, f);
    DropKept(s, CreateStep(s, l), l, f, w, TmpRef(l));
  }

  lemma DropWon(s: State, l: Loc)
    requires Inv(s) && Top(s, l) && s.frames[l].pc == CWonDrop
    ensures Inv(CreateStep(s, l)) && CreateStep(s, l).frames == s.frames - {l}
  {
    assert FrameOk(s, l);
    DropAndReturn(s, CreateStep(s, l), l, s.frames[l].own.value);
  }

  lemma FrameIs(s: State, k: Loc)
    requires FramesOk(s) && k in s.frames
    ensures FrameOk(s, k)
  {
  }

  /** Only its maker holds an object that was never published. */
  lemma MakerHolds(s: State, l: Loc, o: Obj)
    requires Inv(s) && l in s.frames && s.frames[l].own == Some(o) && s.frames[l].tmp == None
    requires HasPhase(s, Some(o), Fresh(l))
    ensures Holders(s, o) == {OwnRef(l)} && s.objs[o].count == 1
  {
    assert ObjOk(s, o);
    HoldersAre(s, o);
    forall h | h in Holders(s, o) ensures h == OwnRef(l) {
      match h
      case SlotRef =>
      case OwnRef(k) => FrameIs(s, k);
      case TmpRef(k) => FrameIs(s, k);
    }
    assert Holders(s, o) == {OwnRef(l)};
  }

  lemma DropLost(s: State, l: Loc)
    requires Inv(s) && Top(s, l) && s.frames[l].pc == CLostDrop
    ensures Inv(CreateStep(s, l))
    ensures CreateStep(s, l).frames == s.frames[l := Frame(Dtor, None, None, s.frames[l].own, CFatal)]
  {
    assert FrameOk(s, l);
    var o := s.frames[l].own.value;
    MakerHolds(s, l, o);
    ReleaseLast(s, l, o, At(CFatal, None));
    FreeKept(s, CreateStep(s, l), l, o, CFatal);
  }

  // ----- destroyInstance -----

  lemma LockToUnpublish(s: State, l: Loc)
    requires Inv(s) && Top(s, l) && s.frames[l].pc == DStart && s.backend.Intrusive? && Free(s)
    ensures Inv(DestroyStep(s, l))
  {
    assert FrameOk(s, l);
    PlainKept(s, DestroyStep(s, l), l, At(DExcl, None));
  }

  lemma NothingToSwap(s: State, s': State, l: Loc)
    requires Inv(s) && Top(s, l) && s.slot == None && s.frames[l].pc == DExcl
    requires s' == Set(s, l, At(DSwapped, None))
    ensures Inv(s')
  {
    FrameIs(s, l);
    MoveKept(s, s', l, At(DSwapped, None));
  }

  lemma NothingToExchange(s: State, s': State, l: Loc)
    requires Inv(s) && Top(s, l) && s.slot == None && s.frames[l].pc == DStart
    requires s' == Leave(s, l)
    ensures Inv(s')
  {
    LeftElsewhere(s, s', l);
    assert s.frames[l].own == None && s.frames[l].tmp == None && Claims(s, l) by { FrameIs(s, l); }
    MoveKept(s, s', l, At(Return, None));
  }

  lemma NothingToDestroy(s: State, l: Loc)
    requires Inv(s) && Top(s, l) && s.slot == None
    requires s.frames[l].pc == DExcl || (s.frames[l].pc == DStart && s.backend.SharedPtr?)
    ensures Inv(DestroyStep(s, l))
  {
    if s.frames[l].pc == DExcl {
      NothingToSwap(s, DestroyStep(s, l), l);
    } else {
      NothingToExchange(s, DestroyStep(s, l), l);
    }
  }

  predicate Takes(s: State, s': State, l: Loc, o: Obj, pc: Pc) {
    && Top(s, l) && s.slot == Some(o)
    && (if pc == DSwapped then s.frames[l].pc == DExcl else pc == DDrain && s.frames[l].pc == DStart && s.backend.SharedPtr?)
    && o in s.objs && s' == s.(objs := s.objs[o := s.objs[o].(phase := Retired(l))], slot := None,
                               frames := s.frames[l := At(pc, Some(o))])
  }

  lemma TakeShell(s: State, s': State, l: Loc, o: Obj, pc: Pc)
    requires LockOk(s) && Takes(s, s', l, o, pc) && FrameOk(s, l)
    ensures Shell(s, s', l, At(pc, Some(o)))
  {
    AlikeShell(s, s', l, At(pc, Some(o)));
  }

  lemma TakeRefs(s: State, s': State, l: Loc, o: Obj, pc: Pc)
    requires Takes(s, s', l, o, pc) && FrameOk(s, l)
    ensures RefsMove(s, s', o, {SlotRef}, {OwnRef(l)})
  {
    RefsMoveIs(s, s', l, o, {SlotRef}, {OwnRef(l)});
  }

  lemma TakeStep(s: State, s': State, l: Loc, o: Obj, pc: Pc)
    requires Inv(s) && Takes(s, s', l, o, pc)
    ensures ObjStep(s, s', l, At(pc, Some(o)), o, {SlotRef}, {OwnRef(l)}) && OwnerKept(s, s', o, {SlotRef})
  {
    FrameIs(s, l);
    TakeShell(s, s', l, o, pc);
    TakeRefs(s, s', l, o, pc);
    TakeOwner(s, s', l, o, pc);
  }

  lemma TakeOwner(s: State, s': State, l: Loc, o: Obj, pc: Pc)
    requires ObjsOk(s) && LockOk(s) && Takes(s, s', l, o, pc) && FrameOk(s, l)
    ensures OwnerKept(s, s', o, {SlotRef}) && s.objs[o].phase == Published
    ensures s.backend.Intrusive? ==> s.writer == OwnedBy(l)
    ensures s'.depth == s.depth && Quiet(s, s', l, At(pc, Some(o)))
  {
    assert ObjOk(s, o);
  }

  /** The slot's reference moves into the local of the call at `l`. */
  lemma TakeFromSlot(s: State, s': State, l: Loc, o: Obj, pc: Pc)
    requires Inv(s) && Takes(s, s', l, o, pc)
    ensures Inv(s')
  {
    TakeStep(s, s', l, o, pc);
    ObjStepKept(s, s', l, At(pc, Some(o)), o, {SlotRef}, {OwnRef(l)});
  }

  lemma SwapOut(s: State, l: Loc)
    requires Inv(s) && Top(s, l) && s.slot.Some? && s.frames[l].pc == DExcl
    ensures Inv(DestroyStep(s, l))
  {
    TakeFromSlot(s, DestroyStep(s, l), l, s.slot.value, DSwapped);
  }

  lemma ExchangeOut(s: State, l: Loc)
    requires Inv(s) && Top(s, l) && s.slot.Some? && s.frames[l].pc == DStart && s.backend.SharedPtr?
    ensures Inv(DestroyStep(s, l))
  {
    TakeFromSlot(s, DestroyStep(s, l), l, s.slot.value, DDrain);
  }

  lemma UnlockDestroy(s: State, l: Loc)
    requires Inv(s) && Top(s, l) && s.frames[l].pc == DSwapped
    ensures Inv(DestroyStep(s, l))
  {
    FrameIs(s, l);
    var own := s.frames[l].own;
    UnlocksKept(s, DestroyStep(s, l), l, At(if own == None then Return else DDrain, own));
  }

  /** A count of 1 read by the destroyer means that its own reference is the only one. */
  lemma OnlyDoomed(s: State, l: Loc, o: Obj)
    requires ObjsOk(s) && o in s.objs && s.objs[o].count <= 1
    requires l in s.frames && s.frames[l].own == Some(o)
    ensures Holders(s, o) == {OwnRef(l)}
  {
    assert ObjOk(s, o);
    OnlyOne(Holders(s, o), OwnRef(l));
  }

  lemma ReadyFrame(s: State, s': State, l: Loc, o: Obj)
    requires Top(s, l) && s.frames[l].pc == DDrain && s.frames[l].own == Some(o) && FrameOk(s, l) && Holders(s, o) == {OwnRef(l)}
    requires s' == Set(s, l, At(DReady, Some(o)))
    ensures FrameOk(s', l)
  {
    assert Holders(s', o) == Holders(s, o) by { PlainRefs(s, s', l); }
  }

  lemma ReadyKept(s: State, s': State, l: Loc, o: Obj)
    requires Inv(s) && Top(s, l) && s.frames[l].pc == DDrain && s.frames[l].own == Some(o) && Holders(s, o) == {OwnRef(l)}
    requires s' == Set(s, l, At(DReady, Some(o)))
    ensures Inv(s')
  {
    FrameIs(s, l);
    ReadyFrame(s, s', l, o);
    MoveKept(s, s', l, At(DReady, Some(o)));
  }

  lemma CountRead(s: State, l: Loc)
    requires Inv(s) && Top(s, l) && s.frames[l].pc == DDrain
    ensures Inv(DestroyStep(s, l))
  {
    assert FrameOk(s, l);
    var o := s.frames[l].own.value;
    if s.objs[o].count <= 1 {
      OnlyDoomed(s, l, o);
      ReadyKept(s, DestroyStep(s, l), l, o);
    }
  }

  lemma ResetDoomed(s: State, l: Loc)
    requires Inv(s) && Top(s, l) && s.frames[l].pc == DReady
    ensures Inv(DestroyStep(s, l))
    ensures DestroyStep(s, l).frames == s.frames[l := Frame(Dtor, None, None, s.frames[l].own, Return)]
  {
    assert FrameOk(s, l);
    var o := s.frames[l].own.value;
    assert ObjOk(s, o);
    ReleaseLast(s, l, o, At(Return, None));
    FreeKept(s, DestroyStep(s, l), l, o, Return);
  }

  // ----- destructors and new calls -----

  /** The destructor of `o` at `l` is over; the call goes on as `f`. */
  ghost predicate Ends(s: State, s': State, l: Loc, o: Obj, f: Frame) {
    && Top(s, l) && s.frames[l].pc == Dtor && s.frames[l].ptr == Some(o) && HasPhase(s, Some(o), Destructing(l))
    && f == At(f.pc, None) && RoleOf(f.pc) == Idle && IsUnlocked(f.pc)
    && SameElsewhere(s, s', l) && Goes(s', l, f)
    && s' == s.(objs := s.objs[o := s.objs[o].(phase := Freed)], frames := s'.frames)
  }

  lemma EndsAlike(s: State, s': State, l: Loc, o: Obj, f: Frame)
    requires Ends(s, s', l, o, f) && !InDestroy(f.pc)
    ensures Alike(s, l, f) && Quiet(s, s', l, f)
  {
  }

  lemma EndsShell(s: State, s': State, l: Loc, o: Obj, f: Frame)
    requires LockOk(s) && Ends(s, s', l, o, f) && !InDestroy(f.pc)
    ensures Shell(s, s', l, f) && Quiet(s, s', l, f)
  {
    EndsAlike(s, s', l, o, f);
    AlikeShell(s, s', l, f);
  }

  lemma EndsHolders(s: State, s': State, l: Loc, f: Frame)
    requires l in s.frames && s.frames[l].own == None && s.frames[l].tmp == None && f == At(f.pc, None)
    requires SameElsewhere(s, s', l) && Goes(s', l, f) && s'.slot == s.slot
    ensures forall x :: Holders(s', x) == Holders(s, x)
  {
    PlainRefs(s, s', l);
  }

  lemma EndsRefs(s: State, s': State, l: Loc, o: Obj, f: Frame)
    requires Ends(s, s', l, o, f) && forall x :: Holders(s', x) == Holders(s, x)
    ensures StepOn(s, s', l, o, {}, {})
  {
  }

  lemma EndsObj(s: State, s': State, o: Obj)
    requires o in s.objs && ObjOk(s, o) && s.objs[o].phase.Destructing?
    requires o in s'.objs && s'.objs[o] == s.objs[o].(phase := Freed)
    requires s'.slot == s.slot && Holders(s', o) == Holders(s, o)
    ensures ObjOk(s', o)
  {
  }

  lemma EndsOwned(s: State, l: Loc, o: Obj)
    requires l in s.frames && s.frames[l].pc == Dtor && s.frames[l].own == None && s.frames[l].ptr == Some(o)
    ensures forall x: Obj :: x != o ==> !OwnedAt(s, x, l)
  {
  }

  lemma EndsFrames(s: State, s': State, l: Loc, o: Obj, f: Frame)
    requires FramesOk(s) && LockOk(s) && Ends(s, s', l, o, f) && StepOn(s, s', l, o, {}, {})
    requires f.pc != Return ==> FrameOk(s', l)
    ensures FramesOk(s')
  {
    FramesKept(s, s', l, o, {}, {});
  }

  lemma EndsObjs(s: State, s': State, l: Loc, o: Obj, f: Frame)
    requires ObjsOk(s) && Ends(s, s', l, o, f) && StepOn(s, s', l, o, {}, {}) && Holders(s', o) == Holders(s, o)
    requires s.frames[l].own == None
    ensures ObjsOk(s')
  {
    assert ObjOk(s, o);
    EndsObj(s, s', o);
    EndsOwned(s, l, o);
    ObjsKept(s, s', l, o, {}, {});
  }

  lemma EndsRest(s: State, s': State, l: Loc, o: Obj, f: Frame)
    requires FramesOk(s) && ObjsOk(s) && LockOk(s) && Ends(s, s', l, o, f) && s.frames[l].own == None && s.frames[l].tmp == None
    requires f.pc != Return ==> FrameOk(s', l)
    ensures FramesOk(s') && ObjsOk(s')
  {
    EndsHolders(s, s', l, f);
    EndsRefs(s, s', l, o, f);
    EndsObjs(s, s', l, o, f);
    EndsFrames(s, s', l, o, f);
  }

  lemma EndsKept(s: State, s': State, l: Loc, o: Obj, f: Frame)
    requires Inv(s) && Ends(s, s', l, o, f) && s.frames[l].own == None && s.frames[l].tmp == None && !InDestroy(f.pc)
    requires f.pc != Return ==> FrameOk(s', l)
    ensures Inv(s')
  {
    assert ShellOk(s') by {
      EndsShell(s, s', l, o, f);
      ShellKept(s, s', l, f);
    }
    EndsRest(s, s', l, o, f);
  }

  /** The call at `l` runs a destructor and owns nothing. */
  predicate InDtor(s: State, l: Loc, o: Obj) {
    && Top(s, l) && s.frames[l].pc == Dtor && s.frames[l].ptr == Some(o) && HasPhase(s, Some(o), Destructing(l))
    && s.frames[l].own == None && s.frames[l].tmp == None && (s.frames[l].next == Return || s.frames[l].next == CFatal)
  }

  lemma InDtorIs(s: State, l: Loc) returns (o: Obj)
    requires FramesOk(s) && Top(s, l) && s.frames[l].pc == Dtor
    ensures InDtor(s, l, o)
  {
    FrameIs(s, l);
    o := s.frames[l].ptr.value;
  }

  lemma EndsIs(s: State, s': State, l: Loc, o: Obj, f: Frame)
    requires InDtor(s, l, o) && f == At(s.frames[l].next, None) && s' == DtorStep(s, l)
    ensures Ends(s, s', l, o, f)
  {
  }

  lemma FatalOk(s: State, l: Loc)
    requires l in s.frames && s.frames[l] == At(CFatal, None)
    ensures FrameOk(s, l)
  {
  }

  lemma EndDtor(s: State, l: Loc)
    requires Inv(s) && Top(s, l) && s.frames[l].pc == Dtor
    ensures Inv(DtorStep(s, l))
  {
    var o := InDtorIs(s, l);
    DtorKept(s, DtorStep(s, l), l, o);
  }

  lemma DtorKept(s: State, s': State, l: Loc, o: Obj)
    requires Inv(s) && InDtor(s, l, o) && s' == DtorStep(s, l)
    ensures Inv(s')
  {
    EndsIs(s, s', l, o, At(s.frames[l].next, None));
    DtorEnds(s, s', l, o, At(s.frames[l].next, None));
  }

  lemma DtorEnds(s: State, s': State, l: Loc, o: Obj, f: Frame)
    requires Inv(s) && InDtor(s, l, o) && Ends(s, s', l, o, f) && f == At(s.frames[l].next, None)
    ensures Inv(s')
  {
    if f.pc == CFatal { FatalOk(s', l); }
    EndsKept(s, s', l, o, f);
  }

  lemma NewLock(s: State, l: Loc)
    requires LockOk(s) && l !in s.frames
    ensures s.writer != OwnedBy(l) && s.readers == s.readers - {l}
  {
    assert l !in s.readers;
  }

  lemma NoneOnTop(s: State, l: Loc)
    requires StackOk(s) && l !in s.frames
    ensures Above(l) !in s.frames
  {
    assert Above(l) in s.frames ==> OnStack(s, Above(l));
  }

  predicate IsFirstFrame(f: Frame) {
    || f == At(WStart, None) || f == At(DStart, None) || f == At(DAssert, None)
    || (f.pc == CBuild && f == At(CBuild, None).(ptr := f.ptr))
  }

  lemma NewShell(s: State, s': State, l: Loc, f: Frame)
    requires LockOk(s) && StackOk(s) && CanCall(s, l) && IsFirstFrame(f)
    requires s' == Set(s.(objs := s'.objs), l, f)
    ensures Above(l) !in s.frames && Shell(s, s', l, f)
  {
    NewLock(s, l);
    NoneOnTop(s, l);
  }

  lemma NewHolders(s: State, s': State, l: Loc, f: Frame)
    requires l !in s.frames && IsFirstFrame(f) && s' == Set(s.(objs := s'.objs), l, f)
    ensures forall o :: Holders(s', o) == Holders(s, o)
  {
    PlainRefs(s, s', l);
  }

  lemma BeginWithKeeps(s: State, l: Loc)
    requires Inv(s) && CanCall(s, l)
    ensures Inv(Set(s, l, At(WStart, None)))
  {
    var s', f := Set(s, l, At(WStart, None)), At(WStart, None);
    NewShell(s, s', l, f);
    NewHolders(s, s', l, f);
    NewCallKept(s, s', l, f);
    assert GuardOk(s') by { GuardKept(s, s', l, f); }
  }

  lemma NewCallKept(s: State, s': State, l: Loc, f: Frame)
    requires Inv(s) && Shell(s, s', l, f) && l !in s.frames && s'.objs == s.objs && s'.slot == s.slot && s'.depth == s.depth
    requires f.pc != Return && f.pc != WRunning && FrameOk(s', l)
    requires forall o :: Holders(s', o) == Holders(s, o)
    ensures LockOk(s') && StackOk(s') && DepthOk(s') && FramesOk(s') && ObjsOk(s')
  {
    assert LockOk(s') by { LockKept(s, s', l, f); }
    assert StackOk(s') by { StackKept(s, s', l, f); }
    assert DepthOk(s') by { DepthKept(s, s', l, f); }
    assert FramesOk(s') by { PlainFrames(s, s', l, f); }
    forall o | o in s'.objs ensures ObjOk(s', o) {
      assert ObjOk(s, o);
      ObjSame(s, s', l, o);
    }
  }

  /** A debug build lets a thread destroy only outside all of its callbacks. */
  lemma NewDestroyGuard(s: State, s': State, l: Loc)
    requires GuardOk(s) && DepthOk(s) && l !in s.frames && (s.debug ==> Depth(s, l.t) == 0)
    requires s' == Set(s, l, At(DStart, None))
    ensures GuardOk(s')
  {
    if s.debug {
      assert |Running(s, l.t)| == 0;
      forall m, k | m in s'.frames && InDestroy(s'.frames[m].pc) && k in Running(s', m.t) ensures m.i < k.i {
        assert k in Running(s, m.t);
      }
    }
  }

  lemma BeginDestroyGuard(s: State, s': State, l: Loc, f: Frame)
    requires Inv(s) && CanCall(s, l) && Shell(s, s', l, f) && s' == Set(s, l, f)
    requires f == At(if s.debug && Depth(s, l.t) != 0 then DAssert else DStart, None)
    ensures GuardOk(s')
  {
    if f.pc == DStart {
      NewDestroyGuard(s, s', l);
    } else {
      GuardKept(s, s', l, f);
    }
  }

  lemma BeginDestroyKeeps(s: State, l: Loc)
    requires Inv(s) && CanCall(s, l)
    ensures Inv(Apply(s, BeginDestroy(l)))
  {
    var f := At(if s.debug && Depth(s, l.t) != 0 then DAssert else DStart, None);
    var s' := Set(s, l, f);
    NewShell(s, s', l, f);
    NewHolders(s, s', l, f);
    NewCallKept(s, s', l, f);
    BeginDestroyGuard(s, s', l, f);
  }

  lemma FreshUnheld(s: State, o: Obj)
    requires FramesOk(s) && ObjsOk(s) && o !in s.objs
    ensures Holders(s, o) == {}
  {
    HoldersAre(s, o);
    forall h ensures h !in Holders(s, o) {
      if h in Holders(s, o) {
        match h
        case SlotRef =>
        case OwnRef(k) => FrameIs(s, k);
        case TmpRef(k) => FrameIs(s, k);
      }
    }
  }

  lemma NewObject(s: State, s': State, l: Loc, o: Obj)
    requires l !in s.frames && o !in s.objs && s.slot != Some(o) && Holders(s, o) == {}
    requires s' == Set(s.(objs := s.objs[o := ObjState(0, Fresh(l))]), l, At(CBuild, None).(ptr := Some(o)))
    requires forall x :: Holders(s', x) == Holders(s, x)
    ensures StepOn(s, s', l, o, {}, {}) && ObjOk(s', o) && FrameOk(s', l)
  {
  }

  lemma BeginCreateKeeps(s: State, l: Loc, o: Obj)
    requires Inv(s) && CanCall(s, l) && o !in s.objs
    ensures Inv(Apply(s, BeginCreate(l, o)))
  {
    var f := At(CBuild, None).(ptr := Some(o));
    var s' := Set(s.(objs := s.objs[o := ObjState(0, Fresh(l))]), l, f);
    NewShell(s, s', l, f);
    NewHolders(s, s', l, f);
    FreshUnheld(s, o);
    NewObject(s, s', l, o);
    ShellKept(s, s', l, f);
    assert ObjsOk(s') by { ObjsKept(s, s', l, o, {}, {}); }
    assert FramesOk(s') by { FramesKept(s, s', l, o, {}, {}); }
  }

  // ----- all steps -----

  /** The step of the call at `l`, by the operation it belongs to. */
  lemma GoIs(s: State, l: Loc, s': State)
    requires Enabled(s, Go(l)) && s' == Apply(s, Go(l))
    ensures s' == if s.frames[l].pc == Dtor then DtorStep(s, l)
                  else if InWith(s.frames[l].pc) then WithStep(s, l)
                  else if InDestroy(s.frames[l].pc) then DestroyStep(s, l)
                  else CreateStep(s, l)
  {
  }

  // ----- what some steps do, as updates of the state -----

  lemma AdoptIs(s: State, l: Loc, o: Obj)
    requires l in s.frames && s.frames[l].pc == CBuild && s.frames[l].ptr == Some(o) && o in s.objs
    ensures CreateStep(s, l) == Continue(s.(objs := s.objs[o := s.objs[o].(count := s.objs[o].count + 1)]), l, At(CNew, Some(o)))
  {
  }

  lemma SwapInIs(s: State, l: Loc, o: Obj)
    requires l in s.frames && s.frames[l].pc == CCopy && s.frames[l].own == Some(o) && s.frames[l].tmp == Some(o) && o in s.objs
    ensures CreateStep(s, l) == Continue(s.(objs := s.objs[o := s.objs[o].(phase := Published)], slot := Some(o)), l, At(CStored, Some(o)))
  {
  }

  lemma ExchangeInIs(s: State, l: Loc, o: Obj)
    requires l in s.frames && s.frames[l].pc == CNew && s.frames[l].own == Some(o) && o in s.objs && s.backend.SharedPtr? && s.slot == None
    ensures CreateStep(s, l) == Continue(s.(objs := s.objs[o := ObjState(s.objs[o].count + 1, Published)], slot := Some(o)), l, At(CWonDrop, Some(o)))
  {
  }

  lemma DtorIs(s: State, l: Loc, o: Obj)
    requires l in s.frames && s.frames[l].pc == Dtor && s.frames[l].ptr == Some(o) && o in s.objs
    requires s.frames[l].own == None && s.frames[l].tmp == None
    ensures DtorStep(s, l) == Continue(s.(objs := s.objs[o := s.objs[o].(phase := Freed)]), l, At(s.frames[l].next, None))
  {
  }

  lemma WithKeeps(s: State, l: Loc)
    requires Inv(s) && Enabled(s, Go(l)) && InWith(s.frames[l].pc)
    ensures Inv(WithStep(s, l))
  {
    match s.frames[l].pc
    case WStart =>
      if s.backend.Intrusive? { LockShared(s, l); }
      else if s.slot.Some? { AtomicLoad(s, l); }
      else { AtomicLoadNone(s, l); }
    case WShared => ReadSlot(s, l);
    case WRead => if s.frames[l].ptr.Some? { RetainRead(s, l); } else { RetainReadNone(s, l); }
    case WRetained => UnlockShared(s, l);
    case WHeld => if s.frames[l].own.Some? { EnterCallback(s, l); } else { NoInstance(s, WithStep(s, l), l); }
    case WRunning => LeaveCallback(s, l);
    case WDrop => DropHeld(s, l);
  }

  lemma DestroyKeeps(s: State, l: Loc)
    requires Inv(s) && Enabled(s, Go(l)) && InDestroy(s.frames[l].pc)
    ensures Inv(DestroyStep(s, l))
  {
    match s.frames[l].pc
    case DStart =>
      if s.backend.Intrusive? { LockToUnpublish(s, l); }
      else if s.slot.Some? { ExchangeOut(s, l); }
      else { NothingToDestroy(s, l); }
    case DExcl => if s.slot.Some? { SwapOut(s, l); } else { NothingToDestroy(s, l); }
    case DSwapped => UnlockDestroy(s, l);
    case DDrain => CountRead(s, l);
    case DReady => ResetDoomed(s, l);
  }

  lemma CreateKeeps(s: State, l: Loc)
    requires Inv(s) && Enabled(s, Go(l))
    ensures Inv(CreateStep(s, l))
  {
    match s.frames[l].pc
    case CBuild => Adopt(s, l);
    case CNew =>
      if s.backend.Intrusive? { LockToPublish(s, l); }
      else if s.slot.Some? { ExchangeFails(s, l); }
      else { ExchangeIn(s, l); }
    case CExcl => if s.slot.Some? { SeeFull(s, l); } else { CopyNew(s, l); }
    case CCopy => SwapIn(s, l);
    case CStored => UnlockCreate(s, l);
    case CLost => UnlockCreate(s, l);
    case CExpected => DropExpected(s, l);
    case CWonDrop => DropWon(s, l);
    case CLostDrop => DropLost(s, l);
    case _ =>
  }

  lemma StepKeeps(s: State, step: Step)
    requires Inv(s) && Enabled(s, step)
    ensures Inv(Apply(s, step))
  {
    match step
    case BeginWith(l) => BeginWithKeeps(s, l);
    case BeginCreate(l, o) => BeginCreateKeeps(s, l, o);
    case BeginDestroy(l) => BeginDestroyKeeps(s, l);
    case Go(l) =>
      if s.frames[l].pc == Dtor { EndDtor(s, l); }
      else if InWith(s.frames[l].pc) { WithKeeps(s, l); }
      else if InDestroy(s.frames[l].pc) { DestroyKeeps(s, l); }
      else { CreateKeeps(s, l); }
  }
}
