/** What holds over whole runs of the singleton protocol: references, lifetimes
    and the return of destroyInstance. */
module SingletonSafety {
  import Common
  import opened SingletonProtocol
  import opened SingletonInvariant
  import opened SingletonSteps

  lemma {:induction false} RunKeeps(states: seq<State>, steps: seq<Step>, k: nat)
    requires IsRun(states, steps) && k < |states|
    ensures Inv(states[k])
  {
    if k == 0 {
      InitInv(states[0]);
    } else {
      RunKeeps(states, steps, k - 1);
      StepKeeps(states[k - 1], steps[k - 1]);
    }
  }

  /** In every reachable state the stored count of every object is the number of
      references that name it. */
  lemma CountIsReferences(states: seq<State>, steps: seq<Step>, k: nat, o: Obj)
    requires IsRun(states, steps) && k < |states| && o in states[k].objs
    ensures states[k].objs[o].count == |Holders(states[k], o)|
  {
    RunKeeps(states, steps, k);
    assert ObjOk(states[k], o);
  }

  // ----- references are gained from the slot or from the maker only -----

  lemma WithRefs(s: State, l: Loc)
    requires FramesOk(s) && Top(s, l) && InWith(s.frames[l].pc)
    ensures var s' := WithStep(s, l);
            && SameElsewhere(s, s', l) && s'.slot == s.slot && TmpOf(s', l) == None
            && (OwnOf(s', l) == None || OwnOf(s', l) == s.slot || OwnOf(s', l) == OwnOf(s, l))
  {
    assert FrameOk(s, l);
  }

  ghost predicate CreateGains(s: State, s': State, l: Loc)
    requires l in s.frames
  {
    && SameElsewhere(s, s', l)
    && (s'.slot == s.slot || HasPhase(s, s'.slot, Fresh(l)))
    && (OwnOf(s', l) == None || HasPhase(s, OwnOf(s', l), Fresh(l)) || OwnOf(s', l) == OwnOf(s, l))
    && (TmpOf(s', l) == None || HasPhase(s, TmpOf(s', l), Fresh(l)) || TmpOf(s', l) == s.slot || TmpOf(s', l) == TmpOf(s, l))
  }

  lemma ReleaseRefs(s: State, l: Loc, r: Ref, f: Frame)
    requires l in s.frames
    ensures SameElsewhere(s, Release(s, l, r, f), l) && Release(s, l, r, f).slot == s.slot
    ensures OwnOf(Release(s, l, r, f), l) == f.own || OwnOf(Release(s, l, r, f), l) == None
    ensures TmpOf(Release(s, l, r, f), l) == f.tmp || TmpOf(Release(s, l, r, f), l) == None
  {
  }

  lemma CreateRefs(s: State, l: Loc)
    requires FramesOk(s) && Top(s, l)
    ensures CreateGains(s, CreateStep(s, l), l)
  {
    assert FrameOk(s, l);
    var f := s.frames[l];
    match f.pc
    case CExpected => ReleaseRefs(s, l, f.tmp, At(CLostDrop, f.own));
    case CWonDrop => ReleaseRefs(s, l, f.own, At(Return, None));
    case CLostDrop => ReleaseRefs(s, l, f.own, At(CFatal, None));
    case _ =>
  }

  lemma DestroyRefs(s: State, l: Loc)
    requires FramesOk(s) && Top(s, l) && InDestroy(s.frames[l].pc)
    ensures var s' := DestroyStep(s, l);
            && SameElsewhere(s, s', l) && (s'.slot == s.slot || s'.slot == None) && TmpOf(s', l) == None
            && (OwnOf(s', l) == None || OwnOf(s', l) == s.slot || OwnOf(s', l) == OwnOf(s, l))
  {
    FrameIs(s, l);
    if s.frames[l].pc == DReady {
      ReleaseRefs(s, l, s.frames[l].own, At(Return, None));
    }
  }

  /** A step gains a reference to `o` only by copying or taking it from the slot,
      or because `o` is not published yet and the step belongs to its maker. */
  lemma GainedFromSlotOrMaker(s: State, step: Step, h: Holder, o: Obj)
    requires Inv(s) && Enabled(s, step) && RefAt(Apply(s, step), h) == Some(o) != RefAt(s, h)
    ensures s.slot == Some(o) || HasPhase(s, Some(o), Fresh(step.l))
  {
    if step.Go? && s.frames[step.l].pc != Dtor {
      if InWith(s.frames[step.l].pc) {
        WithRefs(s, step.l);
      } else if InDestroy(s.frames[step.l].pc) {
        DestroyRefs(s, step.l);
      } else {
        CreateRefs(s, step.l);
      }
    }
  }

  // ----- the life of an object -----

  /** An object only advances, whoever steps. */
  ghost predicate Advances(s: State, s': State, l: Loc) {
    forall o :: o in s.objs ==> o in s'.objs && PhaseStep(s.objs[o].phase, s'.objs[o].phase, l)
  }

  /** The reference that the call at `l` is about to release. */
  function Released(f: Frame): Ref {
    match f.pc
    case WDrop => f.own
    case CExpected => f.tmp
    case CWonDrop => f.own
    case CLostDrop => f.own
    case DReady => f.own
    case _ => None
  }

  /** A release is the last one exactly in the destroyer's reset and after a
      losing publication; leaving withInstance never frees. */
  lemma LastRelease(s: State, l: Loc, o: Obj)
    requires Inv(s) && l in s.frames && Released(s.frames[l]) == Some(o)
    ensures o in s.objs && s.objs[o].count >= 1
    ensures s.objs[o].count == 1 <==> s.frames[l].pc == CLostDrop || s.frames[l].pc == DReady
    ensures s.objs[o].count == 1 ==>
              s.objs[o].phase == if s.frames[l].pc == DReady then Retired(l) else Fresh(l)
    ensures s.objs[o].count > 1 ==> InUse(s, Some(o))
  {
    assert FrameOk(s, l);
    if s.frames[l].pc == CLostDrop {
      MakerHolds(s, l, o);
    } else if s.frames[l].pc == DReady {
      assert ObjOk(s, o);
    } else {
      OthersHold(s, l, o, if s.frames[l].pc == CExpected then TmpRef(l) else OwnRef(l));
    }
  }

  lemma ReleaseAdvances(s: State, l: Loc, o: Obj, f: Frame)
    requires Inv(s) && l in s.frames && Released(s.frames[l]) == Some(o)
    ensures Advances(s, Release(s, l, Some(o), f), l)
  {
    LastRelease(s, l, o);
    if s.objs[o].count == 1 {
      ReleaseLast(s, l, o, f);
    } else {
      ReleaseShared(s, l, o, f);
    }
  }

  lemma WithAdvances(s: State, l: Loc)
    requires Inv(s) && Top(s, l) && InWith(s.frames[l].pc)
    ensures Advances(s, WithStep(s, l), l)
  {
    assert FrameOk(s, l);
    if s.frames[l].pc == WDrop {
      ReleaseAdvances(s, l, s.frames[l].own.value, At(Return, None));
    }
  }

  lemma CreateAdvances(s: State, l: Loc)
    requires Inv(s) && Top(s, l)
    ensures Advances(s, CreateStep(s, l), l)
  {
    assert FrameOk(s, l);
    match s.frames[l].pc
    case CExpected => ReleaseAdvances(s, l, s.frames[l].tmp.value, At(CLostDrop, s.frames[l].own));
    case CWonDrop => ReleaseAdvances(s, l, s.frames[l].own.value, At(Return, None));
    case CLostDrop => ReleaseAdvances(s, l, s.frames[l].own.value, At(CFatal, None));
    case _ =>
  }

  /** `s` with `o` removed from the slot by the call at `l`, now at `pc`. */
  predicate Swapped(s: State, s': State, l: Loc, o: Obj, pc: Pc) {
    && o in s.objs
    && s' == s.(objs := s.objs[o := s.objs[o].(phase := Retired(l))], slot := None, frames := s.frames[l := At(pc, Some(o))])
  }

  lemma SwapIs(s: State, l: Loc, o: Obj)
    requires l in s.frames && s.slot == Some(o) && o in s.objs
    requires s.frames[l].pc == DExcl || (s.frames[l].pc == DStart && s.backend.SharedPtr?)
    ensures Swapped(s, DestroyStep(s, l), l, o, if s.frames[l].pc == DExcl then DSwapped else DDrain)
  {
  }

  lemma SwapAdvances(s: State, s': State, l: Loc, o: Obj, pc: Pc)
    requires Swapped(s, s', l, o, pc) && s.objs[o].phase.Published?
    ensures Advances(s, s', l)
  {
  }

  lemma SlotIsPublished(s: State)
    requires ObjsOk(s) && s.slot.Some?
    ensures HasPhase(s, s.slot, Published)
  {
    assert ObjOk(s, s.slot.value);
  }

  lemma DestroyKeepsObjects(s: State, l: Loc)
    requires l in s.frames && InDestroy(s.frames[l].pc) && s.frames[l].pc != DReady
    requires s.frames[l].pc == DExcl || (s.frames[l].pc == DStart && s.backend.SharedPtr?) ==> s.slot.None?
    ensures DestroyStep(s, l).objs == s.objs
  {
  }

  lemma DestroyAdvances(s: State, l: Loc)
    requires Inv(s) && Top(s, l) && InDestroy(s.frames[l].pc)
    ensures Advances(s, DestroyStep(s, l), l)
  {
    var pc := s.frames[l].pc;
    if pc == DReady {
      FrameIs(s, l);
      ReleaseAdvances(s, l, s.frames[l].own.value, At(Return, None));
    } else if s.slot.Some? && (pc == DExcl || (pc == DStart && s.backend.SharedPtr?)) {
      SlotIsPublished(s);
      SwapIs(s, l, s.slot.value);
      SwapAdvances(s, DestroyStep(s, l), l, s.slot.value, if pc == DExcl then DSwapped else DDrain);
    } else {
      DestroyKeepsObjects(s, l);
    }
  }

  lemma StepAdvances(s: State, step: Step)
    requires Inv(s) && Enabled(s, step)
    ensures Advances(s, Apply(s, step), step.l)
  {
    if step.Go? {
      if s.frames[step.l].pc == Dtor {
        assert FrameOk(s, step.l);
      } else if InWith(s.frames[step.l].pc) {
        WithAdvances(s, step.l);
      } else if InDestroy(s.frames[step.l].pc) {
        DestroyAdvances(s, step.l);
      } else {
        CreateAdvances(s, step.l);
      }
    }
  }

  // ----- after unpublish -----

  /** Removed from the slot by the call at `m`. */
  predicate RemovedBy(s: State, o: Obj, m: Loc) {
    o in s.objs && (s.objs[o].phase == Retired(m) || s.objs[o].phase == Destructing(m) || s.objs[o].phase == Freed)
  }

  lemma RemovedStays(s: State, step: Step, o: Obj, m: Loc)
    requires Inv(s) && Enabled(s, step) && RemovedBy(s, o, m)
    ensures RemovedBy(Apply(s, step), o, m)
  {
    var s' := Apply(s, step);
    assert Advances(s, s', step.l) by { StepAdvances(s, step); }
    assert PhaseStep(s.objs[o].phase, s'.objs[o].phase, step.l);
  }

  lemma {:induction false} RetiredStays(states: seq<State>, steps: seq<Step>, i: nat, j: nat, o: Obj, m: Loc)
    requires IsRun(states, steps) && i <= j < |states| && RemovedBy(states[i], o, m)
    ensures RemovedBy(states[j], o, m)
  {
    if i < j {
      RetiredStays(states, steps, i, j - 1, o, m);
      RunKeeps(states, steps, j - 1);
      RemovedStays(states[j - 1], steps[j - 1], o, m);
    }
  }

  lemma {:induction false} HoldersShrink(states: seq<State>, steps: seq<Step>, i: nat, j: nat, o: Obj, m: Loc)
    requires IsRun(states, steps) && i <= j < |states| && RemovedBy(states[i], o, m)
    ensures Holders(states[j], o) <= Holders(states[i], o)
  {
    if i < j {
      HoldersShrink(states, steps, i, j - 1, o, m);
      RetiredStays(states, steps, i, j - 1, o, m);
      NoGain(states, steps, j - 1, o);
    }
  }

  /** Once an object has left the slot, no call gains a reference to it and its
      count never rises, in any continuation of the run. */
  lemma NoReferenceAfterUnpublish(states: seq<State>, steps: seq<Step>, i: nat, j: nat, o: Obj, m: Loc)
    requires IsRun(states, steps) && i <= j < |states| && HasPhase(states[i], Some(o), Retired(m))
    ensures Holders(states[j], o) <= Holders(states[i], o)
    ensures o in states[j].objs && states[j].objs[o].count <= states[i].objs[o].count
  {
    RetiredStays(states, steps, i, j, o, m);
    HoldersShrink(states, steps, i, j, o, m);
    CountIsReferences(states, steps, i, o);
    CountIsReferences(states, steps, j, o);
    Common.SubsetCardinality(Holders(states[j], o), Holders(states[i], o));
  }

  lemma NoGainStep(s: State, step: Step, s': State, o: Obj)
    requires Inv(s) && Next(s, step, s')
    requires o in s.objs && !s.objs[o].phase.Published? && !s.objs[o].phase.Fresh?
    ensures Holders(s', o) <= Holders(s, o)
  {
    HoldersAre(s, o);
    HoldersAre(s', o);
    assert s.slot != Some(o) by { assert ObjOk(s, o); }
    forall h | h in Holders(s', o) ensures h in Holders(s, o) {
      if RefAt(s, h) != Some(o) {
        GainedFromSlotOrMaker(s, step, h, o);
      }
    }
  }

  lemma NoGain(states: seq<State>, steps: seq<Step>, k: nat, o: Obj)
    requires IsRun(states, steps) && k < |steps|
    requires o in states[k].objs && !states[k].objs[o].phase.Published? && !states[k].objs[o].phase.Fresh?
    ensures Holders(states[k + 1], o) <= Holders(states[k], o)
  {
    RunKeeps(states, steps, k);
    NoGainStep(states[k], steps[k], states[k + 1], o);
  }

  lemma ReadyIsAlone(s: State, l: Loc, o: Obj)
    requires FramesOk(s) && l in s.frames && s.frames[l].pc == DReady && s.frames[l].own == Some(o)
    ensures Holders(s, o) == {OwnRef(l)} && HasPhase(s, Some(o), Retired(l))
  {
    FrameIs(s, l);
  }

  lemma DrainHolds(s: State, l: Loc, o: Obj)
    requires ObjsOk(s) && FramesOk(s) && HasPhase(s, Some(o), Retired(l))
    ensures OwnRef(l) in Holders(s, o) && s.objs[o].count == |Holders(s, o)|
  {
    assert ObjOk(s, o);
    FrameIs(s, l);
  }

  /** A use count of 1, once read by the destroyer, stays 1 until the destroyer's
      own reset, whatever the other threads do. */
  lemma CountOfOneIsStable(states: seq<State>, steps: seq<Step>, i: nat, j: nat, l: Loc, o: Obj)
    requires IsRun(states, steps) && i <= j < |states|
    requires l in states[i].frames && states[i].frames[l].pc == DReady && states[i].frames[l].own == Some(o)
    requires HasPhase(states[j], Some(o), Retired(l))
    ensures Holders(states[j], o) == {OwnRef(l)} && states[j].objs[o].count == 1
  {
    RunKeeps(states, steps, i);
    RunKeeps(states, steps, j);
    ReadyIsAlone(states[i], l, o);
    HoldersShrink(states, steps, i, j, o, l);
    DrainHolds(states[j], l, o);
  }

  /** When the destructor of an object runs, no callback is running on it and
      nothing refers to it. */
  lemma DestructorRunsAlone(states: seq<State>, steps: seq<Step>, k: nat, o: Obj, l: Loc)
    requires IsRun(states, steps) && k < |states| && o in states[k].objs && l in states[k].frames
    requires states[k].objs[o].phase.Destructing? || states[k].objs[o].phase.Freed?
    ensures states[k].frames[l].own != Some(o) && states[k].frames[l].tmp != Some(o) && states[k].slot != Some(o)
    ensures states[k].objs[o].count == 0
  {
    RunKeeps(states, steps, k);
    assert ObjOk(states[k], o);
    HoldersAre(states[k], o);
    assert RefAt(states[k], OwnRef(l)) != Some(o) && RefAt(states[k], TmpRef(l)) != Some(o) && RefAt(states[k], SlotRef) != Some(o);
  }

  /** The destroyInstance call at `l` is draining `o` or running its destructor. */
  predicate StillDestroying(s: State, l: Loc, o: Obj) {
    && l in s.frames
    && ((s.frames[l].own == Some(o) && InDestroy(s.frames[l].pc)) || (s.frames[l].ptr == Some(o) && s.frames[l].pc == Dtor))
  }

  /** destroyInstance goes on past its drain only when its object is gone: until
      the object is freed, the call is still draining or running its destructor. */
  lemma DestroyReturnsAfterFree(states: seq<State>, steps: seq<Step>, i: nat, j: nat, l: Loc, o: Obj)
    requires IsRun(states, steps) && i <= j < |states|
    requires l in states[i].frames && InDestroy(states[i].frames[l].pc) && states[i].frames[l].own == Some(o)
    ensures HasPhase(states[j], Some(o), Freed) || StillDestroying(states[j], l, o)
  {
    RunKeeps(states, steps, i);
    assert FrameOk(states[i], l);
    RetiredStays(states, steps, i, j, o, l);
    RunKeeps(states, steps, j);
    RemovedIsDestroying(states[j], o, l);
  }

  lemma RemovedIsDestroying(s: State, o: Obj, l: Loc)
    requires Inv(s) && RemovedBy(s, o, l)
    ensures HasPhase(s, Some(o), Freed) || StillDestroying(s, l, o)
  {
    assert ObjOk(s, o);
    assert l in s.frames ==> FrameOk(s, l);
  }

  // ----- the end of an object -----

  /** An object starts its destruction in exactly one step of a run: the release
      that takes its count from 1 to 0, in the reset of the destroyInstance that
      removed it or in the createInstance that failed to publish it. */
  lemma FreeingRelease(states: seq<State>, steps: seq<Step>, k: nat, o: Obj)
    requires IsRun(states, steps) && k < |steps| && o in states[k].objs && o in states[k + 1].objs
    requires !states[k].objs[o].phase.Destructing? && states[k + 1].objs[o].phase.Destructing?
    ensures states[k].objs[o].count == 1 && states[k + 1].objs[o].count == 0 && steps[k].Go?
    ensures var l := steps[k].l;
            l in states[k].frames && Released(states[k].frames[l]) == Some(o)
            && states[k].objs[o].phase == if states[k].frames[l].pc == DReady then Retired(l) else Fresh(l)
  {
    var s, step := states[k], steps[k];
    RunKeeps(states, steps, k);
    RunKeeps(states, steps, k + 1);
    DestructingCount(states[k + 1], o);
    OnlyGoFrees(s, step, states[k + 1], o);
    FreesOnlyReleased(s, step.l, o);
    LastRelease(s, step.l, o);
  }

  lemma DestructingCount(s: State, o: Obj)
    requires ObjsOk(s) && o in s.objs && s.objs[o].phase.Destructing?
    ensures s.objs[o].count == 0
  {
    assert ObjOk(s, o);
  }

  lemma OnlyGoFrees(s: State, step: Step, s': State, o: Obj)
    requires Next(s, step, s') && Frees(s, s', o)
    ensures step.Go?
  {
  }

  predicate Frees(s: State, s': State, o: Obj) {
    && o in s.objs && !s.objs[o].phase.Destructing?
    && o in s'.objs && s'.objs[o].phase.Destructing?
  }

  lemma ReleaseFrees(s: State, l: Loc, r: Ref, f: Frame, o: Obj)
    requires Frees(s, Release(s, l, r, f), o)
    ensures r == Some(o) && s.objs[o].count == 1
  {
  }

  lemma WithFrees(s: State, l: Loc, o: Obj)
    requires l in s.frames && InWith(s.frames[l].pc) && Frees(s, WithStep(s, l), o)
    ensures Released(s.frames[l]) == Some(o) && s.objs[o].count == 1
  {
    if s.frames[l].pc == WDrop { ReleaseFrees(s, l, s.frames[l].own, At(Return, None), o); }
  }

  lemma CreateFrees(s: State, l: Loc, o: Obj)
    requires l in s.frames && Frees(s, CreateStep(s, l), o)
    ensures Released(s.frames[l]) == Some(o) && s.objs[o].count == 1
  {
    var f := s.frames[l];
    match f.pc
    case CExpected => ReleaseFrees(s, l, f.tmp, At(CLostDrop, f.own), o);
    case CWonDrop => ReleaseFrees(s, l, f.own, At(Return, None), o);
    case CLostDrop => ReleaseFrees(s, l, f.own, At(CFatal, None), o);
    case _ =>
  }

  lemma DestroyFrees(s: State, l: Loc, o: Obj)
    requires l in s.frames && InDestroy(s.frames[l].pc) && Frees(s, DestroyStep(s, l), o)
    ensures Released(s.frames[l]) == Some(o) && s.objs[o].count == 1
  {
    if s.frames[l].pc == DReady { ReleaseFrees(s, l, s.frames[l].own, At(Return, None), o); }
  }

  lemma FreesOnlyReleased(s: State, l: Loc, o: Obj)
    requires Enabled(s, Go(l)) && Frees(s, Apply(s, Go(l)), o)
    ensures Released(s.frames[l]) == Some(o) && s.objs[o].count == 1
  {
    if s.frames[l].pc != Dtor {
      if InWith(s.frames[l].pc) { WithFrees(s, l, o); }
      else if InDestroy(s.frames[l].pc) { DestroyFrees(s, l, o); }
      else { CreateFrees(s, l, o); }
    }
  }

  lemma {:induction false} EndIsFinal(states: seq<State>, steps: seq<Step>, i: nat, j: nat, o: Obj)
    requires IsRun(states, steps) && i <= j < |states| && o in states[i].objs
    requires states[i].objs[o].phase.Destructing? || states[i].objs[o].phase.Freed?
    ensures o in states[j].objs
    ensures states[j].objs[o].phase == states[i].objs[o].phase || states[j].objs[o].phase == Freed
  {
    if i < j {
      EndIsFinal(states, steps, i, j - 1, o);
      RunKeeps(states, steps, j - 1);
      StepAdvances(states[j - 1], steps[j - 1]);
    }
  }

  /** No run frees an object twice. */
  lemma FreedOnce(states: seq<State>, steps: seq<Step>, i: nat, j: nat, o: Obj)
    requires IsRun(states, steps) && i < |steps| && j < |steps|
    requires o in states[i].objs && o in states[i + 1].objs && o in states[j].objs && o in states[j + 1].objs
    requires !states[i].objs[o].phase.Destructing? && states[i + 1].objs[o].phase.Destructing?
    requires !states[j].objs[o].phase.Destructing? && states[j + 1].objs[o].phase.Destructing?
    ensures i == j
  {
    if i < j {
      EndIsFinal(states, steps, i + 1, j, o);
      EndIsFinal(states, steps, i + 1, j + 1, o);
      EndIsFinal(states, steps, j, j + 1, o);
    } else if j < i {
      EndIsFinal(states, steps, j + 1, i, o);
      EndIsFinal(states, steps, j + 1, i + 1, o);
      EndIsFinal(states, steps, i, i + 1, o);
    }
  }

  /** The destruction of `o` starts with step `k`. */
  predicate StartsEnd(states: seq<State>, k: nat, o: Obj) {
    && k + 1 < |states| && o in states[k].objs && o in states[k + 1].objs
    && !states[k].objs[o].phase.Destructing? && states[k + 1].objs[o].phase.Destructing?
  }

  /** An object that is neither in the slot nor owned by a pending call is freed. */
  lemma NothingLeaks(s: State, o: Obj)
    requires ObjsOk(s) && o in s.objs && s.slot != Some(o) && forall l :: !OwnedAt(s, o, l)
    ensures s.objs[o].phase == Freed
  {
    assert ObjOk(s, o);
  }

  lemma {:induction false} EndWasStarted(states: seq<State>, steps: seq<Step>, j: nat, o: Obj) returns (k: nat)
    requires IsRun(states, steps) && j < |states| && o in states[j].objs
    requires states[j].objs[o].phase.Destructing? || states[j].objs[o].phase.Freed?
    ensures k < j && StartsEnd(states, k, o)
  {
    if j == 0 {
      assert false;
    }
    k := j - 1;
    RunKeeps(states, steps, k);
    EndsFromBefore(states[k], steps[k], states[j], o);
    if states[k].objs[o].phase.Destructing? || states[k].objs[o].phase.Freed? {
      k := EndWasStarted(states, steps, k, o);
    }
  }

  lemma EndsFromBefore(s: State, step: Step, s': State, o: Obj)
    requires Inv(s) && Next(s, step, s') && o in s'.objs && (s'.objs[o].phase.Destructing? || s'.objs[o].phase.Freed?)
    ensures o in s.objs && (s'.objs[o].phase.Freed? ==> s.objs[o].phase.Destructing? || s.objs[o].phase.Freed?)
  {
    NothingBornDead(s, step, s', o);
    assert Advances(s, s', step.l) by { StepAdvances(s, step); }
    assert PhaseStep(s.objs[o].phase, s'.objs[o].phase, step.l);
  }

  lemma ReleaseKeys(s: State, l: Loc, r: Ref, f: Frame)
    ensures Release(s, l, r, f).objs.Keys == s.objs.Keys
  {
  }

  lemma WithKeys(s: State, l: Loc)
    requires l in s.frames
    ensures WithStep(s, l).objs.Keys == s.objs.Keys
  {
    if s.frames[l].pc == WDrop { ReleaseKeys(s, l, s.frames[l].own, At(Return, None)); }
  }

  lemma CreateKeys(s: State, l: Loc)
    requires l in s.frames
    ensures CreateStep(s, l).objs.Keys == s.objs.Keys
  {
    var f := s.frames[l];
    match f.pc
    case CExpected => ReleaseKeys(s, l, f.tmp, At(CLostDrop, f.own));
    case CWonDrop => ReleaseKeys(s, l, f.own, At(Return, None));
    case CLostDrop => ReleaseKeys(s, l, f.own, At(CFatal, None));
    case _ =>
  }

  lemma DestroyKeys(s: State, l: Loc)
    requires l in s.frames
    ensures DestroyStep(s, l).objs.Keys == s.objs.Keys
  {
    if s.frames[l].pc == DReady { ReleaseKeys(s, l, s.frames[l].own, At(Return, None)); }
  }

  lemma NothingBornDead(s: State, step: Step, s': State, o: Obj)
    requires Next(s, step, s') && o in s'.objs && !s'.objs[o].phase.Fresh?
    ensures o in s.objs
  {
    if step.Go? {
      GoIs(s, step.l, s');
      WithKeys(s, step.l);
      CreateKeys(s, step.l);
      DestroyKeys(s, step.l);
    }
  }

  /** Every object that a run leaves neither in the slot nor with a pending call,
      such as every unpublished object once no call is pending, has been destroyed
      exactly once, and its destructor has ended. */
  lemma FreedExactlyOnce(states: seq<State>, steps: seq<Step>, o: Obj)
    requires IsRun(states, steps) && o in states[|steps|].objs && states[|steps|].slot != Some(o)
    requires forall l :: !OwnedAt(states[|steps|], o, l)
    ensures states[|steps|].objs[o].phase == Freed
    ensures exists k :: StartsEnd(states, k, o) && forall j :: StartsEnd(states, j, o) ==> j == k
  {
    RunKeeps(states, steps, |steps|);
    NothingLeaks(states[|steps|], o);
    var k := EndWasStarted(states, steps, |steps|, o);
    forall j | StartsEnd(states, j, o) ensures j == k {
      FreedOnce(states, steps, j, k, o);
    }
  }

  /** The objects whose memory the next step of a call reads or writes: counts,
      and the object itself at callback and constructor boundaries. */
  function Touched(s: State, l: Loc): set<Obj>
    requires l in s.frames
  {
    var f := s.frames[l];
    match f.pc
    case WStart => if s.backend.SharedPtr? then Objs(s.slot) else {}
    case WRead => Objs(f.ptr)
    case CBuild => Objs(f.ptr)
    case CNew => Objs(f.own) + (if s.backend.SharedPtr? then Objs(s.slot) else {})
    case Dtor => Objs(f.ptr)
    case _ => Objs(f.own) + Objs(f.tmp)
  }

  function Objs(r: Ref): set<Obj> {
    if r.Some? then {r.value} else {}
  }

  predicate Alive(s: State, o: Obj) {
    o in s.objs && s.objs[o].phase != Freed && !s.objs[o].phase.Destructing?
  }

  lemma LocalsAlive(s: State, l: Loc)
    requires FramesOk(s) && l in s.frames
    ensures var f := s.frames[l];
            && (f.own.Some? ==> Alive(s, f.own.value)) && (f.tmp.Some? ==> Alive(s, f.tmp.value))
            && (f.pc == CBuild ==> f.ptr.Some? && Alive(s, f.ptr.value))
  {
    FrameIs(s, l);
  }

  lemma SlotAlive(s: State)
    requires ObjsOk(s)
    ensures s.slot.Some? ==> Alive(s, s.slot.value)
  {
    assert s.slot.Some? ==> ObjOk(s, s.slot.value);
  }

  /** No step touches a freed object, and only the destroying call touches one
      whose destructor runs. */
  lemma NeverTouchedAfterFree(states: seq<State>, steps: seq<Step>, k: nat, l: Loc, o: Obj)
    requires IsRun(states, steps) && k < |states| && Enabled(states[k], Go(l)) && o in Touched(states[k], l)
    ensures o in states[k].objs && states[k].objs[o].phase != Freed
    ensures states[k].objs[o].phase.Destructing? ==>
              states[k].objs[o].phase.at == l && states[k].frames[l].pc == Dtor
  {
    RunKeeps(states, steps, k);
    TouchedAlive(states[k], l, o);
  }

  lemma TouchedAlive(s: State, l: Loc, o: Obj)
    requires FramesOk(s) && ObjsOk(s) && l in s.frames && o in Touched(s, l)
    ensures Alive(s, o) || (s.frames[l].pc == Dtor && HasPhase(s, Some(o), Destructing(l)))
  {
    FrameIs(s, l);
    LocalsAlive(s, l);
    SlotAlive(s);
  }

  lemma OthersStillHold(s: State, l: Loc, o: Obj)
    requires Inv(s) && l in s.frames && InUse(s, Some(o)) && s.frames[l].own == Some(o) && RoleOf(s.frames[l].pc) == User
    ensures s.objs[o].count >= 2
  {
    OthersHold(s, l, o, OwnRef(l));
  }

  // ----- publication -----

  /** An object that is not published yet is referenced by its maker's locals only. */
  lemma UnpublishedIsPrivate(states: seq<State>, steps: seq<Step>, k: nat, o: Obj, h: Holder)
    requires IsRun(states, steps) && k < |states| && o in states[k].objs && states[k].objs[o].phase.Fresh?
    requires RefAt(states[k], h) == Some(o)
    ensures h == OwnRef(states[k].objs[o].phase.at) || h == TmpRef(states[k].objs[o].phase.at)
  {
    RunKeeps(states, steps, k);
    assert ObjOk(states[k], o);
    match h
    case SlotRef =>
    case OwnRef(m) => FrameIs(states[k], m);
    case TmpRef(m) => FrameIs(states[k], m);
  }

  /** `o` lost its publication at `l`, and is being dropped or already gone. */
  predicate Loser(s: State, l: Loc, o: Obj) {
    && o in s.objs
    && (s.objs[o].phase == Destructing(l) || s.objs[o].phase == Freed
        || (s.objs[o].phase == Fresh(l) && l in s.frames && s.frames[l].own == Some(o)
            && (s.frames[l].pc == CLost || s.frames[l].pc == CExpected || s.frames[l].pc == CLostDrop)))
  }

  lemma StepElsewhere(s: State, step: Step)
    requires Inv(s) && Enabled(s, step)
    ensures SameElsewhere(s, Apply(s, step), step.l)
  {
    if step.Go? && s.frames[step.l].pc != Dtor {
      if InWith(s.frames[step.l].pc) {
        WithRefs(s, step.l);
      } else if InDestroy(s.frames[step.l].pc) {
        DestroyRefs(s, step.l);
      } else {
        CreateRefs(s, step.l);
      }
    }
  }

  lemma LoserSteps(s: State, l: Loc, o: Obj)
    requires Inv(s) && Top(s, l) && Loser(s, l, o) && s.objs[o].phase == Fresh(l)
    ensures CreateStep(s, l).slot == s.slot && Loser(CreateStep(s, l), l, o)
  {
    assert FrameOk(s, l);
    if s.frames[l].pc == CExpected {
      DropExpected(s, l);
    } else if s.frames[l].pc == CLostDrop {
      MakerHolds(s, l, o);
    }
  }

  lemma LoserStays(s: State, step: Step, s': State, l: Loc, o: Obj)
    requires Inv(s) && Enabled(s, step) && s' == Apply(s, step) && Loser(s, l, o)
    ensures Loser(s', l, o)
  {
    if step.l == l && s.objs[o].phase == Fresh(l) {
      LoserSteps(s, l, o);
    } else {
      assert Advances(s, s', step.l) by { StepAdvances(s, step); }
      assert SameElsewhere(s, s', step.l) by { StepElsewhere(s, step); }
    }
  }

  lemma LoserIsHidden(s: State, l: Loc, o: Obj)
    requires ObjsOk(s) && Loser(s, l, o)
    ensures s.slot != Some(o)
  {
    assert ObjOk(s, o);
  }

  lemma {:induction false} LoserForever(states: seq<State>, steps: seq<Step>, i: nat, j: nat, l: Loc, o: Obj)
    requires IsRun(states, steps) && i <= j < |states| && Loser(states[i], l, o)
    ensures Loser(states[j], l, o)
  {
    if i < j {
      LoserForever(states, steps, i, j - 1, l, o);
      RunKeeps(states, steps, j - 1);
      LoserStays(states[j - 1], steps[j - 1], states[j], l, o);
    }
  }

  /** When the maker of a losing object reports its failure or is gone, it has
      freed the object. */
  lemma LoserIsFreed(s: State, l: Loc, o: Obj)
    requires Inv(s) && Loser(s, l, o) && (l in s.frames ==> s.frames[l].pc == CFatal)
    ensures s.objs[o].phase == Freed
  {
    assert ObjOk(s, o);
  }

  /** A publication that loses leaves the slot as it is: its object is never
      published, only its maker's call destroys it, and that call does not report
      "Called createInstance() twice." before the object is freed. */
  lemma LosingPublication(states: seq<State>, steps: seq<Step>, i: nat, j: nat, l: Loc, o: Obj)
    requires IsRun(states, steps) && i <= j < |states| && Loser(states[i], l, o)
    ensures Loser(states[j], l, o) && states[j].slot != Some(o)
    ensures states[j].objs[o].phase.Destructing? ==> l in states[j].frames && states[j].frames[l].pc == Dtor
    ensures (l in states[j].frames ==> states[j].frames[l].pc == CFatal) ==> states[j].objs[o].phase == Freed
  {
    LoserForever(states, steps, i, j, l, o);
    RunKeeps(states, steps, j);
    LoserIsHidden(states[j], l, o);
    if states[j].objs[o].phase.Destructing? {
      DestroyedBy(states[j], l, o);
    }
    if l in states[j].frames ==> states[j].frames[l].pc == CFatal {
      LoserIsFreed(states[j], l, o);
    }
  }

  lemma DestroyedBy(s: State, l: Loc, o: Obj)
    requires Inv(s) && HasPhase(s, Some(o), Destructing(l))
    ensures l in s.frames && s.frames[l].pc == Dtor
  {
    assert ObjOk(s, o);
    FrameIs(s, l);
  }

  /** The createInstance call at `l` has lost its publication. */
  predicate HasLost(s: State, l: Loc) {
    && l in s.frames
    && (s.frames[l].pc == CLost || s.frames[l].pc == CExpected || s.frames[l].pc == CLostDrop || s.frames[l].pc == CFatal
        || (s.frames[l].pc == Dtor && s.frames[l].next == CFatal))
  }

  lemma LosesOn(s: State, l: Loc, r: Ref)
    ensures HasLost(Release(s, l, r, At(CFatal, None)), l)
  {
  }

  lemma HasLostSteps(s: State, l: Loc)
    requires Inv(s) && Enabled(s, Go(l)) && HasLost(s, l)
    ensures HasLost(Apply(s, Go(l)), l)
  {
    GoIs(s, l, Apply(s, Go(l)));
    if s.frames[l].pc == CExpected {
      DropExpected(s, l);
    } else if s.frames[l].pc == CLostDrop {
      LosesOn(s, l, s.frames[l].own);
    }
  }

  lemma HasLostNext(s: State, step: Step, s': State, l: Loc)
    requires Inv(s) && Next(s, step, s') && HasLost(s, l)
    ensures HasLost(s', l)
  {
    if step == Go(l) {
      HasLostSteps(s, l);
    } else {
      StepElsewhere(s, step);
    }
  }

  lemma HasLostInRun(states: seq<State>, steps: seq<Step>, k: nat, l: Loc)
    requires IsRun(states, steps) && k < |steps| && HasLost(states[k], l)
    ensures HasLost(states[k + 1], l)
  {
    RunKeeps(states, steps, k);
    HasLostNext(states[k], steps[k], states[k + 1], l);
  }

  /** A createInstance call that has lost its publication never returns. */
  lemma {:induction false} LostNeverReturns(states: seq<State>, steps: seq<Step>, i: nat, j: nat, l: Loc)
    requires IsRun(states, steps) && i <= j < |states| && HasLost(states[i], l)
    ensures HasLost(states[j], l)
  {
    if i < j {
      LostNeverReturns(states, steps, i, j - 1, l);
      HasLostInRun(states, steps, j - 1, l);
    }
  }

  // ----- an empty slot -----

  /** The withInstance call at `l` has seen no instance. */
  predicate SeesNothing(s: State, l: Loc) {
    l in s.frames ==>
      && s.frames[l].own == None && s.frames[l].ptr == None
      && (s.frames[l].pc == WStart || s.frames[l].pc == WShared || s.frames[l].pc == WRead
          || s.frames[l].pc == WRetained || s.frames[l].pc == WHeld)
  }

  lemma NothingToSee(s: State, step: Step, l: Loc)
    requires Inv(s) && Enabled(s, step) && SeesNothing(s, l) && l in s.frames && s.slot == None
    ensures SeesNothing(Apply(s, step), l)
  {
    assert FrameOk(s, l);
    if step.l != l {
      StepElsewhere(s, step);
    }
  }

  /** While the slot stays empty, a withInstance call that starts returns without
      running its callback: wrappers forward to the functions they wrap. */
  lemma {:induction false} NoCallbackWhileEmpty(states: seq<State>, steps: seq<Step>, i: nat, j: nat, l: Loc)
    requires IsRun(states, steps) && i < j < |states| && steps[i] == BeginWith(l)
    requires forall k :: i <= k < j ==> states[k].slot == None
    requires forall k :: i < k < j ==> l in states[k].frames
    ensures SeesNothing(states[j], l)
  {
    if i + 1 < j {
      NoCallbackWhileEmpty(states, steps, i, j - 1, l);
      RunKeeps(states, steps, j - 1);
      NothingToSee(states[j - 1], steps[j - 1], l);
    }
  }

  /** An empty slot stays empty until a createInstance call publishes. */
  lemma SlotFilledByPublication(s: State, step: Step)
    requires Inv(s) && Enabled(s, step) && s.slot == None && Apply(s, step).slot.Some?
    ensures step.Go? && HasPhase(s, Apply(s, step).slot, Fresh(step.l))
    ensures s.frames[step.l].pc == if s.backend.Intrusive? then CCopy else CNew
  {
    var l := step.l;
    if step.Go? && s.frames[l].pc != Dtor {
      if InWith(s.frames[l].pc) { WithRefs(s, l); }
      else if InDestroy(s.frames[l].pc) { DestroyRefs(s, l); }
      else { CreateRefs(s, l); PublishesFrom(s, l); }
    }
  }

  lemma PublishesFrom(s: State, l: Loc)
    requires FramesOk(s) && Top(s, l) && LockOk(s) && s.slot == None && CreateStep(s, l).slot.Some?
    ensures s.frames[l].pc == if s.backend.Intrusive? then CCopy else CNew
  {
    assert FrameOk(s, l);
  }
}
