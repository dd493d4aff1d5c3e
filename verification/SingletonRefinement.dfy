/** The intrusive backend, whose slot is read and replaced under a reader/writer
    lock, refines the shared_ptr backend, whose slot is atomic: every
    interleaved run of the first is a run of the second with the same published
    objects, callbacks, constructors, destructors and failures. */
module SingletonRefinement {
  import opened SingletonProtocol
  import opened SingletonInvariant
  import opened SingletonSteps
  import opened SingletonSafety
  import SingletonProgress

  /** The atomic call that a lock-guarded call stands for. */
  function AbsFrame(f: Frame): Frame {
    match f.pc
    case WShared => At(WStart, None)
    case WRead => At(WHeld, f.ptr)          // the load takes effect when the slot is read
    case WRetained => At(WHeld, f.own)
    case CExcl => At(CNew, f.own)
    case CCopy => At(CNew, f.own)           // the publication when the copy is swapped in
    case CStored => At(CWonDrop, f.own)
    case CLost => At(CLostDrop, f.own)
    case DExcl => At(DStart, None)
    case DSwapped => if f.own == None then At(DStart, None) else At(DDrain, f.own)
    case CBuild => At(CBuild, None).(ptr := f.ptr)
    case CExpected => At(CExpected, f.own).(tmp := f.tmp)
    case Dtor => Frame(Dtor, None, None, f.ptr, f.next)
    case _ => At(f.pc, f.own)
  }

  ghost function AbsFrames(frames: map<Loc, Frame>): map<Loc, Frame> {
    map l | l in frames :: AbsFrame(frames[l])
  }

  ghost function Sketch(s: State): State {
    State(SharedPtr, s.debug, s.slot, Unowned, {}, s.depth, s.objs, AbsFrames(s.frames))
  }

  /** The atomic state: no lock, and every count is again the number of references. */
  ghost function Abs(s: State): State {
    Sketch(s).(objs := map o | o in s.objs :: ObjState(|Holders(Sketch(s), o)|, s.objs[o].phase))
  }

  lemma AbsHolders(s: State, o: Obj)
    ensures Holders(Abs(s), o) == Holders(Sketch(s), o)
  {
  }

  /** Outside the slot the two backends hold the same references. */
  lemma SameHolders(s: State, o: Obj)
    requires Inv(s) && o in s.objs && !s.objs[o].phase.Published?
    ensures Holders(Abs(s), o) <= Holders(s, o)
    ensures !s.objs[o].phase.Fresh? ==> Holders(Abs(s), o) == Holders(s, o)
  {
    HoldersAre(s, o);
    HoldersAre(Abs(s), o);
    assert ObjOk(s, o);
    forall h ensures RefAt(Abs(s), h) == Some(o) ==> RefAt(s, h) == Some(o) {
      AbsRef(s, h, o);
    }
    if !s.objs[o].phase.Fresh? {
      forall h ensures RefAt(s, h) == Some(o) ==> RefAt(Abs(s), h) == Some(o) {
        AbsRef(s, h, o);
      }
    }
  }

  lemma AbsRef(s: State, h: Holder, o: Obj)
    requires Inv(s) && o in s.objs && s.slot != Some(o)
    ensures RefAt(Abs(s), h) == Some(o) ==> RefAt(s, h) == Some(o)
    ensures !s.objs[o].phase.Fresh? && RefAt(s, h) == Some(o) ==> RefAt(Abs(s), h) == Some(o)
  {
    match h
    case SlotRef =>
    case OwnRef(l) => if l in s.frames { FrameIs(s, l); AbsLocals(s, l); }
    case TmpRef(l) => if l in s.frames { FrameIs(s, l); AbsLocals(s, l); }
  }

  /** What changes in the locals: a pointer read from the slot already counts,
      and the copy made for the slot does not count yet. */
  lemma AbsLocals(s: State, l: Loc)
    requires l in s.frames && FrameOk(s, l)
    ensures var f, g := s.frames[l], AbsFrame(s.frames[l]);
            && g.own == (if f.pc == WRead then s.slot else f.own)
            && g.tmp == (if f.pc == CCopy then None else f.tmp)
            && (f.pc == CCopy ==> HasPhase(s, f.tmp, Fresh(l)))
  {
  }

  // ----- the atomic state satisfies the invariant -----

  lemma AbsStackOk(s: State)
    requires StackOk(s)
    ensures StackOk(Abs(s))
  {
    var a := Abs(s);
    forall l | l in a.frames ensures OnStack(a, l) {
      assert OnStack(s, l);
    }
  }

  lemma AbsRunning(s: State, t: nat)
    ensures Running(Abs(s), t) == Running(s, t)
  {
    var a := Abs(s);
    forall l ensures l in Running(a, t) <==> l in Running(s, t) {
      assert l in s.frames ==> (AbsFrame(s.frames[l]).pc == WRunning <==> s.frames[l].pc == WRunning);
    }
  }

  lemma AbsShellOk(s: State)
    requires ShellOk(s)
    ensures ShellOk(Abs(s))
  {
    var a := Abs(s);
    AbsStackOk(s);
    forall t ensures Depth(a, t) == |Running(a, t)| && Running(a, t) == Running(s, t) {
      AbsRunning(s, t);
    }
  }

  /** `a` has the slot and the phases of `s`. */
  ghost predicate SameHistory(a: State, s: State) {
    && a.slot == s.slot && a.objs.Keys == s.objs.Keys
    && (forall o :: o in s.objs ==> a.objs[o].phase == s.objs[o].phase)
  }

  lemma AbsHistory(s: State)
    ensures var a := Abs(s); SameHistory(a, s) && a.writer == Unowned && a.readers == {} && a.frames == AbsFrames(s.frames)
  {
  }

  /** The references that a constructor and a finished drain speak of. */
  ghost predicate HoldsAlone(s: State, f: Frame, l: Loc) {
    && (f.pc == CBuild && f.ptr.Some? ==> Holders(s, f.ptr.value) == {})
    && (f.pc == DReady && f.own.Some? ==> Holders(s, f.own.value) == {OwnRef(l)})
  }

  lemma AbsAlone(s: State, l: Loc)
    requires Inv(s) && l in s.frames
    ensures HoldsAlone(Abs(s), s.frames[l], l)
  {
    var f := s.frames[l];
    FrameIs(s, l);
    if f.pc == CBuild {
      SameHolders(s, f.ptr.value);
    } else if f.pc == DReady {
      SameHolders(s, f.own.value);
    }
  }

  ghost predicate Pictures(a: State, s: State, l: Loc) {
    && l in s.frames && l in a.frames && a.frames[l] == AbsFrame(s.frames[l])
    && SameHistory(a, s) && a.writer == Unowned && a.readers == {}
  }

  lemma AbsShape(f: Frame)
    requires ShapeOk(f)
    ensures var g := AbsFrame(f); ShapeOk(g) && !HoldsShared(g.pc) && !HoldsExclusive(g.pc) && g.pc != WRead && g.pc != CCopy && g.pc != DSwapped
  {
  }

  lemma AbsUser(s: State, a: State, l: Loc)
    requires Pictures(a, s, l) && FrameOk(s, l)
    requires s.slot.Some? ==> HasPhase(s, s.slot, Published)
    ensures var g := a.frames[l]; RoleOf(g.pc) == User && g.own.Some? ==> InUse(a, g.own)
  {
  }

  lemma AbsOwner(s: State, a: State, l: Loc)
    requires Pictures(a, s, l) && FrameOk(s, l)
    ensures var g := a.frames[l];
            && (RoleOf(g.pc) == Maker ==> HasPhase(a, g.own, Fresh(l)))
            && (RoleOf(g.pc) == Drainer && g.own.Some? ==> HasPhase(a, g.own, Retired(l)))
  {
  }

  lemma AbsLocalsOk(s: State, a: State, l: Loc)
    requires Pictures(a, s, l) && FrameOk(s, l)
    ensures var g := a.frames[l];
            && (g.pc == CExpected ==> InUse(a, g.tmp))
            && (g.pc == CBuild ==> HasPhase(a, g.ptr, Fresh(l)))
            && (g.pc == Dtor ==> HasPhase(a, g.ptr, Destructing(l)))
  {
  }

  lemma AbsAloneOk(f: Frame)
    ensures var g := AbsFrame(f);
            && (g.pc == CBuild ==> f.pc == CBuild && g.ptr == f.ptr)
            && (g.pc == DReady ==> f.pc == DReady && g.own == f.own)
  {
  }

  lemma AbsFrameOk(s: State, l: Loc)
    requires Inv(s) && l in s.frames
    ensures FrameOk(Abs(s), l)
  {
    FrameIs(s, l);
    assert s.slot.Some? ==> ObjOk(s, s.slot.value);
    var a := Abs(s);
    AbsHistory(s);
    AbsAlone(s, l);
    AbsAloneOk(s.frames[l]);
    AbsShape(s.frames[l]);
    AbsUser(s, a, l);
    AbsOwner(s, a, l);
    AbsLocalsOk(s, a, l);
  }

  lemma AbsObjOk(s: State, o: Obj)
    requires Inv(s) && o in s.objs
    ensures ObjOk(Abs(s), o)
  {
    assert ObjOk(s, o);
    AbsHolders(s, o);
    if !s.objs[o].phase.Published? {
      SameHolders(s, o);
      AbsOwned(s, o);
    }
  }

  lemma AbsOwned(s: State, o: Obj)
    requires FramesOk(s)
    ensures forall l :: OwnedAt(s, o, l) ==> OwnedAt(Abs(s), o, l)
  {
  }

  lemma AbsInv(s: State)
    requires Inv(s)
    ensures Inv(Abs(s))
  {
    var a := Abs(s);
    AbsShellOk(s);
    forall l | l in a.frames ensures FrameOk(a, l) { AbsFrameOk(s, l); }
    forall o | o in a.objs ensures ObjOk(a, o) { AbsObjOk(s, o); }
  }

  // ----- one step -----

  /** `a` is the atomic state of `s`, counts aside. */
  ghost predicate Matches(a: State, s: State) {
    a.backend == SharedPtr && a.debug == s.debug && a.depth == s.depth && SameHistory(a, s) && a.frames == AbsFrames(s.frames)
  }

  lemma MatchingCount(a: State, s: State, o: Obj)
    requires ObjsOk(a) && Matches(a, s) && o in s.objs
    ensures a.objs[o] == ObjState(|Holders(Sketch(s), o)|, s.objs[o].phase)
  {
    assert ObjOk(a, o);
    assert Holders(a, o) == Holders(Sketch(s), o);
  }

  lemma MatchingObjs(a: State, s: State)
    requires ObjsOk(a) && Matches(a, s)
    ensures a.objs == Abs(s).objs
  {
    forall o | o in s.objs ensures a.objs[o] == ObjState(|Holders(Sketch(s), o)|, s.objs[o].phase) {
      MatchingCount(a, s, o);
    }
  }

  /** Counts follow from the references, so matching states are equal. */
  lemma MatchesIsAbs(a: State, s: State)
    requires Inv(a) && Matches(a, s)
    ensures a == Abs(s)
  {
    MatchingObjs(a, s);
    assert Free(a);
  }

  /** The atomic steps that a step of the lock-guarded slot stands for. */
  function Mimic(s: State, step: Step): seq<Step> {
    if !step.Go? || step.l !in s.frames then [step] else
      match s.frames[step.l].pc
      case WStart => []
      case WRead => []
      case WRetained => []
      case CNew => []
      case CExcl => if s.slot == None then [] else [step, step]   // the exchange fails and drops `Expected`
      case CStored => []
      case CLost => []
      case DStart => []
      case DExcl => if s.slot == None then [] else [step]
      case DSwapped => if s.frames[step.l].own == None then [step] else []
      case _ => [step]
  }

  predicate EnabledAll(s: State, steps: seq<Step>)
    decreases |steps|
  {
    steps == [] || (Enabled(s, steps[0]) && EnabledAll(Apply(s, steps[0]), steps[1..]))
  }

  function ApplyAll(s: State, steps: seq<Step>): State
    requires EnabledAll(s, steps)
    decreases |steps|
  {
    if steps == [] then s else ApplyAll(Apply(s, steps[0]), steps[1..])
  }

  /** A step that an atomic observer does not see. */
  predicate Unseen(s: State, s': State, l: Loc) {
    && l in s.frames && l in s'.frames && AbsFrame(s'.frames[l]) == AbsFrame(s.frames[l])
    && s'.slot == s.slot && s'.depth == s.depth && s'.debug == s.debug
  }

  lemma StutterCreate(s: State, l: Loc)
    requires s.backend.Intrusive? && Top(s, l) && FrameOk(s, l)
    requires var pc := s.frames[l].pc; pc == CNew || (pc == CExcl && s.slot == None) || pc == CStored || pc == CLost
    ensures Unseen(s, CreateStep(s, l), l)
  {
  }

  lemma StutterWith(s: State, l: Loc)
    requires s.backend.Intrusive? && Top(s, l) && FrameOk(s, l)
    requires s.frames[l].pc == WStart || s.frames[l].pc == WRead || s.frames[l].pc == WRetained
    ensures Unseen(s, WithStep(s, l), l)
  {
  }

  /** Taking or passing the lock and retaining what was read are no steps of the atomic slot. */
  lemma StutterFrame(s: State, l: Loc)
    requires FramesOk(s) && s.backend.Intrusive? && Enabled(s, Go(l)) && Mimic(s, Go(l)) == []
    ensures Unseen(s, Apply(s, Go(l)), l)
  {
    FrameIs(s, l);
    if InWith(s.frames[l].pc) {
      StutterWith(s, l);
    } else if !InDestroy(s.frames[l].pc) {
      StutterCreate(s, l);
    }
  }

  lemma StutterHistory(s: State, l: Loc)
    requires Inv(s) && s.backend.Intrusive? && Enabled(s, Go(l)) && Mimic(s, Go(l)) == []
    ensures SameHistory(s, Apply(s, Go(l)))
  {
    FrameIs(s, l);
  }

  lemma UnseenMatches(s: State, s': State, l: Loc)
    requires Unseen(s, s', l) && SameHistory(s, s') && SameElsewhere(s, s', l)
    ensures Matches(Abs(s), s')
  {
    AbsHistory(s);
    assert AbsFrames(s.frames) == AbsFrames(s'.frames);
  }

  lemma Stutters(s: State, l: Loc, s': State)
    requires Inv(s) && s.backend.Intrusive? && Enabled(s, Go(l)) && Mimic(s, Go(l)) == [] && s' == Apply(s, Go(l))
    ensures Matches(Abs(s), s')
  {
    StutterFrame(s, l);
    StutterHistory(s, l);
    StepElsewhere(s, Go(l));
    UnseenMatches(s, s', l);
  }

  /** The calls at `l` in `s` and in its atomic state `a` go on alike, as `f`. */
  ghost predicate GoAlike(s: State, s': State, a: State, a': State, l: Loc, f: Frame) {
    && Goes(s', l, f) && Goes(a', l, AbsFrame(f)) && SameHistory(a', s')
    && a'.depth == s'.depth && a'.debug == s'.debug && a'.backend == SharedPtr
  }

  lemma FollowsFrames(s: State, s': State, a: State, a': State, l: Loc, f: Frame)
    requires a.frames == AbsFrames(s.frames) && SameElsewhere(s, s', l) && SameElsewhere(a, a', l)
    requires Goes(s', l, f) && Goes(a', l, AbsFrame(f))
    ensures a'.frames == AbsFrames(s'.frames)
  {
    forall k ensures k in a'.frames <==> k in s'.frames {}
    forall k | k in s'.frames ensures a'.frames[k] == AbsFrame(s'.frames[k]) {}
  }

  /** What the atomic state of a call at `l` is, without looking at its counts. */
  ghost predicate IsPicture(a: State, s: State, l: Loc) {
    && Matches(a, s) && s.backend.Intrusive? && Top(s, l) && Top(a, l) && FrameOk(s, l)
    && a.frames[l] == AbsFrame(s.frames[l])
  }

  /** The calls at `l` change one object alike, and the slot, and go on. */
  lemma TouchAlike(s: State, s': State, a: State, a': State, l: Loc, o: Obj, m: int, n: int, p: Phase, slot: Ref, f: Frame)
    requires SameHistory(a, s) && a.depth == s.depth && a.debug == s.debug && a.backend == SharedPtr && o in s.objs
    requires s' == Continue(s.(objs := s.objs[o := ObjState(m, p)], slot := slot), l, f)
    requires a' == Continue(a.(objs := a.objs[o := ObjState(n, p)], slot := slot), l, AbsFrame(f))
    ensures GoAlike(s, s', a, a', l, f)
  {
    assert f.pc == Return <==> AbsFrame(f).pc == Return;
  }

  lemma FollowRead(s: State, a: State, l: Loc)
    requires IsPicture(a, s, l) && s.frames[l].pc == WShared
    ensures GoAlike(s, WithStep(s, l), a, WithStep(a, l), l, At(WRead, None).(ptr := s.slot))
  {
  }

  lemma FollowEnter(s: State, a: State, l: Loc)
    requires IsPicture(a, s, l) && s.frames[l].pc == WHeld
    ensures GoAlike(s, WithStep(s, l), a, WithStep(a, l), l, At(if s.frames[l].own == None then Return else WRunning, s.frames[l].own))
  {
  }

  lemma FollowLeave(s: State, a: State, l: Loc)
    requires IsPicture(a, s, l) && s.frames[l].pc == WRunning
    ensures GoAlike(s, WithStep(s, l), a, WithStep(a, l), l, At(WDrop, s.frames[l].own))
  {
  }

  lemma FollowAdopt(s: State, a: State, l: Loc)
    requires IsPicture(a, s, l) && s.frames[l].pc == CBuild
    ensures GoAlike(s, CreateStep(s, l), a, CreateStep(a, l), l, At(CNew, s.frames[l].ptr))
  {
    var o := s.frames[l].ptr.value;
    AdoptIs(s, l, o);
    AdoptIs(a, l, o);
    TouchAlike(s, CreateStep(s, l), a, CreateStep(a, l), l, o,
               s.objs[o].count + 1, a.objs[o].count + 1, s.objs[o].phase, s.slot, At(CNew, Some(o)));
  }

  /** A copy of the call's object `o` is about to be put into the empty slot. */
  predicate AboutToPublish(s: State, a: State, l: Loc, o: Obj) {
    && l in s.frames && s.frames[l].pc == CCopy && s.frames[l].own == Some(o) && s.frames[l].tmp == Some(o)
    && l in a.frames && a.frames[l].pc == CNew && a.frames[l].own == Some(o)
    && o in s.objs && o in a.objs && a.slot == None && a.backend == SharedPtr
  }

  lemma PublishReady(s: State, a: State, l: Loc)
    requires IsPicture(a, s, l) && s.frames[l].pc == CCopy
    ensures s.frames[l].own.Some? && AboutToPublish(s, a, l, s.frames[l].own.value)
  {
  }

  lemma PublishAlike(s: State, a: State, l: Loc, o: Obj)
    requires AboutToPublish(s, a, l, o) && SameHistory(a, s) && a.depth == s.depth && a.debug == s.debug
    ensures GoAlike(s, CreateStep(s, l), a, CreateStep(a, l), l, At(CStored, Some(o)))
  {
    SwapInIs(s, l, o);
    ExchangeInIs(a, l, o);
    TouchAlike(s, CreateStep(s, l), a, CreateStep(a, l), l, o,
               s.objs[o].count, a.objs[o].count + 1, Published, Some(o), At(CStored, Some(o)));
  }

  lemma FollowPublish(s: State, a: State, l: Loc)
    requires IsPicture(a, s, l) && s.frames[l].pc == CCopy
    ensures GoAlike(s, CreateStep(s, l), a, CreateStep(a, l), l, At(CStored, s.frames[l].own))
  {
    PublishReady(s, a, l);
    PublishAlike(s, a, l, s.frames[l].own.value);
  }

  lemma SwapAlike(s: State, s': State, a: State, a': State, l: Loc, o: Obj)
    requires SameHistory(a, s) && a.depth == s.depth && a.debug == s.debug && a.backend == SharedPtr
    requires Swapped(s, s', l, o, DSwapped) && Swapped(a, a', l, o, DDrain)
    ensures GoAlike(s, s', a, a', l, At(DSwapped, Some(o)))
  {
    TouchAlike(s, s', a, a', l, o, s.objs[o].count, a.objs[o].count, Retired(l), None, At(DSwapped, Some(o)));
  }

  lemma FollowSwap(s: State, a: State, l: Loc, o: Obj)
    requires IsPicture(a, s, l) && s.frames[l].pc == DExcl && s.slot == Some(o) && o in s.objs
    ensures GoAlike(s, DestroyStep(s, l), a, DestroyStep(a, l), l, At(DSwapped, s.slot))
  {
    SwapIs(s, l, o);
    SwapIs(a, l, o);
    SwapAlike(s, DestroyStep(s, l), a, DestroyStep(a, l), l, o);
  }

  lemma FollowNothing(s: State, a: State, l: Loc)
    requires IsPicture(a, s, l) && s.frames[l].pc == DSwapped && s.frames[l].own == None
    ensures GoAlike(s, DestroyStep(s, l), a, DestroyStep(a, l), l, At(Return, None))
  {
  }

  lemma FollowDtor(s: State, a: State, l: Loc)
    requires IsPicture(a, s, l) && s.frames[l].pc == Dtor
    ensures GoAlike(s, DtorStep(s, l), a, DtorStep(a, l), l, At(s.frames[l].next, None))
  {
    var o := s.frames[l].ptr.value;
    DtorIs(s, l, o);
    DtorIs(a, l, o);
    TouchAlike(s, DtorStep(s, l), a, DtorStep(a, l), l, o,
               s.objs[o].count, a.objs[o].count, Freed, s.slot, At(s.frames[l].next, None));
  }

  lemma FollowShared(s: State, a: State, l: Loc, o: Obj, f: Frame)
    requires SameHistory(a, s) && a.depth == s.depth && a.debug == s.debug && a.backend == SharedPtr
    requires SameCounts(s, a, o, false) && (f == At(Return, None) || f == At(CLostDrop, f.own))
    ensures GoAlike(s, Release(s, l, Some(o), f), a, Release(a, l, Some(o), f), l, f)
  {
    ReleaseShared(s, l, o, f);
    ReleaseShared(a, l, o, f);
    TouchAlike(s, Release(s, l, Some(o), f), a, Release(a, l, Some(o), f), l, o,
               s.objs[o].count - 1, a.objs[o].count - 1, s.objs[o].phase, s.slot, f);
  }

  lemma FollowLast(s: State, a: State, l: Loc, o: Obj, f: Frame)
    requires IsPicture(a, s, l) && o in s.objs && s.objs[o].count == 1 && o in a.objs && a.objs[o].count == 1
    requires f == At(Return, None) || f == At(CFatal, None)
    ensures GoAlike(s, Release(s, l, Some(o), f), a, Release(a, l, Some(o), f), l, Frame(Dtor, None, None, Some(o), f.pc))
  {
    ReleaseLast(s, l, o, f);
    ReleaseLast(a, l, o, f);
    var g := Frame(Dtor, None, None, Some(o), f.pc);
    assert AbsFrame(g) == g;
    assert SameHistory(Release(a, l, Some(o), f), Release(s, l, Some(o), f));
  }

  /** Where a call goes on after the release it is about to make, unless the release is the last. */
  function AfterRelease(f: Frame): Frame {
    match f.pc
    case CExpected => At(CLostDrop, f.own)
    case CLostDrop => At(CFatal, None)
    case _ => At(Return, None)
  }

  lemma ReleaseIs(s: State, l: Loc)
    requires Enabled(s, Go(l)) && Released(s.frames[l]).Some?
    ensures Apply(s, Go(l)) == Release(s, l, Released(s.frames[l]), AfterRelease(s.frames[l]))
  {
  }

  /** The same releases are the last ones. */
  predicate SameCounts(s: State, a: State, o: Obj, last: bool) {
    && o in s.objs && o in a.objs
    && (if last then s.objs[o].count == 1 && a.objs[o].count == 1 else s.objs[o].count >= 2 && a.objs[o].count >= 2)
  }

  lemma ReleasesAgree(s: State, a: State, l: Loc, o: Obj)
    requires Inv(s) && Inv(a) && IsPicture(a, s, l) && Released(s.frames[l]) == Some(o)
    ensures SameCounts(s, a, o, s.frames[l].pc == CLostDrop || s.frames[l].pc == DReady)
  {
    assert Released(a.frames[l]) == Some(o) && a.frames[l].pc == s.frames[l].pc;
    LastRelease(s, l, o);
    LastRelease(a, l, o);
  }

  lemma FollowRelease(s: State, a: State, l: Loc) returns (f: Frame)
    requires Inv(s) && Inv(a) && IsPicture(a, s, l) && Released(s.frames[l]).Some?
    requires Enabled(s, Go(l)) && Enabled(a, Go(l))
    ensures GoAlike(s, Apply(s, Go(l)), a, Apply(a, Go(l)), l, f)
  {
    var o := Released(s.frames[l]).value;
    ReleasesAgree(s, a, l, o);
    ReleaseIs(s, l);
    ReleaseIs(a, l);
    f := AfterRelease(s.frames[l]);
    if s.objs[o].count == 1 {
      FollowLast(s, a, l, o, f);
      f := Frame(Dtor, None, None, Some(o), f.pc);
    } else {
      FollowShared(s, a, l, o, f);
    }
  }

  lemma DrainIs(s: State, l: Loc, o: Obj)
    requires l in s.frames && s.frames[l].pc == DDrain && s.frames[l].own == Some(o) && o in s.objs
    ensures DestroyStep(s, l) == if s.objs[o].count > 1 then s else Set(s, l, At(DReady, Some(o)))
  {
  }

  lemma FollowDrain(s: State, a: State, l: Loc, o: Obj)
    requires IsPicture(a, s, l) && s.frames[l].pc == DDrain && s.frames[l].own == Some(o)
    requires o in s.objs && o in a.objs && a.objs[o].count == s.objs[o].count
    ensures GoAlike(s, DestroyStep(s, l), a, DestroyStep(a, l), l, if s.objs[o].count > 1 then s.frames[l] else At(DReady, Some(o)))
  {
    DrainIs(s, l, o);
    DrainIs(a, l, o);
    DrainPicture(s, a, l, o);
  }

  lemma DrainPicture(s: State, a: State, l: Loc, o: Obj)
    requires IsPicture(a, s, l) && s.frames[l].pc == DDrain && s.frames[l].own == Some(o)
    ensures GoAlike(s, s, a, a, l, s.frames[l])
    ensures GoAlike(s, Set(s, l, At(DReady, Some(o))), a, Set(a, l, At(DReady, Some(o))), l, At(DReady, Some(o)))
  {
  }

  lemma Joins(s: State, s': State, a: State, a': State, l: Loc, f: Frame)
    requires Matches(a, s) && GoAlike(s, s', a, a', l, f) && SameElsewhere(s, s', l) && SameElsewhere(a, a', l)
    ensures Matches(a', s')
  {
    FollowsFrames(s, s', a, a', l, f);
  }

  lemma PictureOf(s: State, l: Loc)
    requires Inv(s) && s.backend.Intrusive? && Top(s, l)
    ensures IsPicture(Abs(s), s, l)
  {
    FrameIs(s, l);
    AbsHistory(s);
  }

  lemma FollowDestroy(s: State, a: State, l: Loc) returns (f: Frame)
    requires IsPicture(a, s, l) && InDestroy(s.frames[l].pc) && Released(s.frames[l]).None?
    requires Enabled(s, Go(l)) && Enabled(a, Go(l)) && Mimic(s, Go(l)) == [Go(l)]
    requires s.slot.Some? ==> s.slot.value in s.objs
    requires forall o :: s.frames[l].pc == DDrain && s.frames[l].own == Some(o) ==> SameCount(s, a, o)
    ensures GoAlike(s, DestroyStep(s, l), a, DestroyStep(a, l), l, f)
  {
    var g := s.frames[l];
    match g.pc
    case DExcl => f := At(DSwapped, s.slot); FollowSwap(s, a, l, s.slot.value);
    case DSwapped => f := At(Return, None); FollowNothing(s, a, l);
    case DDrain =>
      var o := g.own.value;
      f := if s.objs[o].count > 1 then g else At(DReady, Some(o));
      FollowDrain(s, a, l, o);
  }

  lemma FollowWith(s: State, a: State, l: Loc) returns (f: Frame)
    requires IsPicture(a, s, l) && InWith(s.frames[l].pc) && Released(s.frames[l]).None?
    requires Enabled(s, Go(l)) && Enabled(a, Go(l)) && Mimic(s, Go(l)) == [Go(l)]
    ensures GoAlike(s, WithStep(s, l), a, WithStep(a, l), l, f)
  {
    var g := s.frames[l];
    match g.pc
    case WShared => f := At(WRead, None).(ptr := s.slot); FollowRead(s, a, l);
    case WHeld => f := At(if g.own == None then Return else WRunning, g.own); FollowEnter(s, a, l);
    case WRunning => f := At(WDrop, g.own); FollowLeave(s, a, l);
  }

  lemma FollowCreate(s: State, a: State, l: Loc) returns (f: Frame)
    requires IsPicture(a, s, l) && (s.frames[l].pc == CBuild || s.frames[l].pc == CCopy)
    ensures GoAlike(s, CreateStep(s, l), a, CreateStep(a, l), l, f)
  {
    if s.frames[l].pc == CBuild {
      f := At(CNew, s.frames[l].ptr);
      FollowAdopt(s, a, l);
    } else {
      f := At(CStored, s.frames[l].own);
      FollowPublish(s, a, l);
    }
  }

  lemma SameKind(f: Frame)
    ensures var g := AbsFrame(f);
            (f.pc == Dtor <==> g.pc == Dtor) && (InWith(f.pc) <==> InWith(g.pc)) && (InDestroy(f.pc) <==> InDestroy(g.pc))
  {
  }

  lemma SeenSteps(s: State, l: Loc)
    requires Enabled(s, Go(l)) && Mimic(s, Go(l)) == [Go(l)] && Released(s.frames[l]).None?
    requires s.frames[l].pc != Dtor && !InWith(s.frames[l].pc) && !InDestroy(s.frames[l].pc) && ShapeOk(s.frames[l])
    ensures s.frames[l].pc == CBuild || s.frames[l].pc == CCopy
  {
    assert |[Go(l), Go(l)]| == 2;
  }

  /** A call whose next step the atomic slot takes too. */
  lemma FollowOther(s: State, a: State, l: Loc, s': State, a': State) returns (f: Frame)
    requires IsPicture(a, s, l) && Released(s.frames[l]).None?
    requires Enabled(s, Go(l)) && Enabled(a, Go(l)) && Mimic(s, Go(l)) == [Go(l)]
    requires s' == Apply(s, Go(l)) && a' == Apply(a, Go(l))
    requires s.slot.Some? ==> s.slot.value in s.objs
    requires forall o :: s.frames[l].pc == DDrain && s.frames[l].own == Some(o) ==> SameCount(s, a, o)
    ensures GoAlike(s, s', a, a', l, f)
  {
    GoIs(s, l, s');
    GoIs(a, l, a');
    SameKind(s.frames[l]);
    if s.frames[l].pc == Dtor {
      f := At(s.frames[l].next, None);
      FollowDtor(s, a, l);
    } else if InWith(s.frames[l].pc) {
      f := FollowWith(s, a, l);
    } else if InDestroy(s.frames[l].pc) {
      f := FollowDestroy(s, a, l);
    } else {
      SeenSteps(s, l);
      f := FollowCreate(s, a, l);
    }
  }

  predicate SameCount(s: State, a: State, o: Obj) {
    o in s.objs && o in a.objs && a.objs[o].count == s.objs[o].count
  }

  lemma AbsCount(s: State, o: Obj)
    requires o in s.objs
    ensures o in Abs(s).objs && Abs(s).objs[o].count == |Holders(Abs(s), o)|
  {
    AbsHolders(s, o);
  }

  lemma DrainedObject(s: State, l: Loc, o: Obj)
    requires FramesOk(s) && ObjsOk(s) && l in s.frames && s.frames[l].pc == DDrain && s.frames[l].own == Some(o)
    ensures o in s.objs && s.objs[o].phase == Retired(l) && s.objs[o].count == |Holders(s, o)|
  {
    FrameIs(s, l);
    assert ObjOk(s, o);
  }

  lemma DrainsAlike(s: State, l: Loc, o: Obj)
    requires Inv(s) && l in s.frames && s.frames[l].pc == DDrain && s.frames[l].own == Some(o)
    ensures SameCount(s, Abs(s), o)
  {
    DrainedObject(s, l, o);
    AbsCount(s, o);
    SameHolders(s, o);
  }

  lemma FollowGo(s: State, a: State, l: Loc, s': State, a': State) returns (f: Frame)
    requires Inv(s) && Inv(a) && IsPicture(a, s, l) && Enabled(s, Go(l)) && Enabled(a, Go(l)) && Mimic(s, Go(l)) == [Go(l)]
    requires s' == Apply(s, Go(l)) && a' == Apply(a, Go(l))
    requires forall o :: s.frames[l].pc == DDrain && s.frames[l].own == Some(o) ==> SameCount(s, a, o)
    ensures GoAlike(s, s', a, a', l, f)
  {
    if Released(s.frames[l]).Some? {
      f := FollowRelease(s, a, l);
    } else {
      f := FollowOther(s, a, l, s', a');
    }
  }

  lemma PictureMoves(s: State, a: State, l: Loc)
    requires IsPicture(a, s, l) && Enabled(s, Go(l)) && Mimic(s, Go(l)) == [Go(l)]
    ensures Enabled(a, Go(l))
  {
    SameKind(s.frames[l]);
  }

  lemma FollowJoins(s: State, a: State, l: Loc, s': State, a': State)
    requires Inv(s) && Inv(a) && IsPicture(a, s, l) && Next(s, Go(l), s') && Next(a, Go(l), a') && Mimic(s, Go(l)) == [Go(l)]
    requires forall o :: s.frames[l].pc == DDrain && s.frames[l].own == Some(o) ==> SameCount(s, a, o)
    ensures Matches(a', s')
  {
    var f := FollowGo(s, a, l, s', a');
    StepElsewhere(s, Go(l));
    StepElsewhere(a, Go(l));
    Joins(s, s', a, a', l, f);
  }

  lemma Follows(s: State, l: Loc)
    requires Inv(s) && s.backend.Intrusive? && Enabled(s, Go(l)) && Mimic(s, Go(l)) == [Go(l)]
    ensures Enabled(Abs(s), Go(l)) && Matches(Apply(Abs(s), Go(l)), Apply(s, Go(l)))
  {
    var a := Abs(s);
    AbsInv(s);
    PictureOf(s, l);
    PictureMoves(s, a, l);
    forall o | s.frames[l].pc == DDrain && s.frames[l].own == Some(o) ensures SameCount(s, a, o) { DrainsAlike(s, l, o); }
    FollowJoins(s, a, l, Apply(s, Go(l)), Apply(a, Go(l)));
  }

  /** `a` after its failed exchange, which retains the winner `w`. */
  predicate LosesTo(a: State, a1: State, l: Loc, w: Obj) {
    && l in a.frames && w in a.objs
    && a1 == a.(objs := a.objs[w := a.objs[w].(count := a.objs[w].count + 1)],
                frames := a.frames[l := At(CExpected, a.frames[l].own).(tmp := Some(w))])
  }

  lemma LosesIs(a: State, l: Loc)
    requires ObjsOk(a) && a.backend.SharedPtr? && Top(a, l) && a.frames[l].pc == CNew && a.slot.Some?
    ensures LosesTo(a, CreateStep(a, l), l, a.slot.value)
  {
  }

  lemma LostExchange(a: State, l: Loc)
    requires Inv(a) && a.backend.SharedPtr? && Top(a, l) && a.frames[l].pc == CNew && a.slot.Some?
    ensures LosesTo(a, CreateStep(a, l), l, a.slot.value) && Inv(CreateStep(a, l)) && Enabled(CreateStep(a, l), Go(l))
  {
    ExchangeFails(a, l);
    LosesIs(a, l);
  }

  lemma LostExpected(a1: State, l: Loc, w: Obj)
    requires Inv(a1) && Top(a1, l) && a1.frames[l].pc == CExpected && a1.frames[l].tmp == Some(w)
    ensures w in a1.objs && Inv(CreateStep(a1, l))
    ensures CreateStep(a1, l) == a1.(objs := a1.objs[w := a1.objs[w].(count := a1.objs[w].count - 1)],
                                     frames := a1.frames[l := At(CLostDrop, a1.frames[l].own)])
  {
    LastRelease(a1, l, w);
    ReleaseShared(a1, l, w, At(CLostDrop, a1.frames[l].own));
    DropExpected(a1, l);
  }

  lemma LostTwice(a: State, l: Loc)
    requires Inv(a) && a.backend.SharedPtr? && Top(a, l) && a.frames[l].pc == CNew && a.slot.Some?
    ensures Enabled(CreateStep(a, l), Go(l)) && l in CreateStep(a, l).frames
    ensures var a2 := CreateStep(CreateStep(a, l), l);
            && Inv(a2) && a2 == a.(objs := a2.objs, frames := a2.frames) && SameHistory(a2, a)
            && a2.frames == a.frames[l := At(CLostDrop, a.frames[l].own)]
  {
    LostExchange(a, l);
    LostExpected(CreateStep(a, l), l, a.slot.value);
  }

  /** A lost publication: the atomic exchange fails, leaves the winner in
      `Expected`, and drops that reference again. */
  lemma FollowLost(s: State, a: State, l: Loc)
    requires Inv(a) && IsPicture(a, s, l) && s.frames[l].pc == CExcl && s.slot.Some?
    ensures Enabled(a, Go(l)) && Enabled(CreateStep(a, l), Go(l)) && l in CreateStep(a, l).frames
    ensures Inv(CreateStep(CreateStep(a, l), l)) && Matches(CreateStep(CreateStep(a, l), l), CreateStep(s, l))
  {
    LostTwice(a, l);
    LostIsSet(s, l);
    LostMatches(s, CreateStep(s, l), a, CreateStep(CreateStep(a, l), l), l, s.frames[l].own);
  }

  lemma LostMatches(s: State, s': State, a: State, a2: State, l: Loc, own: Ref)
    requires Matches(a, s) && l in s.frames && s' == Set(s, l, At(CLost, own))
    requires a2 == a.(objs := a2.objs, frames := a2.frames) && SameHistory(a2, a)
    requires a2.frames == a.frames[l := At(CLostDrop, own)]
    ensures Matches(a2, s')
  {
    FollowsFrames(s, s', a, a2, l, At(CLost, own));
  }

  lemma LostIsSet(s: State, l: Loc)
    requires l in s.frames && s.frames[l].pc == CExcl && s.slot.Some?
    ensures CreateStep(s, l) == Set(s, l, At(CLost, s.frames[l].own))
  {
  }

  /** A call that starts as `f`. */
  lemma Starts(s: State, s': State, a: State, a': State, l: Loc, f: Frame)
    requires Matches(a, s) && AbsFrame(f) == f && f.pc != Return && SameHistory(a', s')
    requires s' == Set(s.(objs := s'.objs), l, f) && a' == Set(a.(objs := a'.objs), l, f)
    ensures Matches(a', s')
  {
    FollowsFrames(s, s', a, a', l, f);
  }

  lemma Begins(s: State, a: State, step: Step)
    requires Matches(a, s) && Enabled(s, step) && !step.Go?
    ensures Enabled(a, step) && Matches(Apply(a, step), Apply(s, step))
  {
    CallsAlike(s, a, step.l);
    match step
    case BeginWith(l) => Starts(s, Apply(s, step), a, Apply(a, step), l, At(WStart, None));
    case BeginCreate(l, o) => Starts(s, Apply(s, step), a, Apply(a, step), l, At(CBuild, None).(ptr := Some(o)));
    case BeginDestroy(l) =>
      Starts(s, Apply(s, step), a, Apply(a, step), l, At(if s.debug && Depth(s, l.t) != 0 then DAssert else DStart, None));
  }

  lemma CallsAlike(s: State, a: State, l: Loc)
    requires Matches(a, s) && CanCall(s, l)
    ensures CanCall(a, l)
  {
  }

  // ----- the refinement -----

  lemma OneStep(a: State, step: Step)
    requires Enabled(a, step)
    ensures EnabledAll(a, [step]) && ApplyAll(a, [step]) == Apply(a, step)
  {
    assert [step][1..] == [];
  }

  lemma TwoSteps(a: State, step: Step)
    requires Enabled(a, step) && Enabled(Apply(a, step), step)
    ensures EnabledAll(a, [step, step]) && ApplyAll(a, [step, step]) == Apply(Apply(a, step), step)
  {
    OneStep(Apply(a, step), step);
    assert [step, step][1..] == [step];
  }

  lemma LostSteps(s: State, a: State, l: Loc)
    requires Inv(a) && IsPicture(a, s, l) && s.frames[l].pc == CExcl && s.slot.Some?
    ensures EnabledAll(a, [Go(l), Go(l)])
    ensures var a2 := ApplyAll(a, [Go(l), Go(l)]); Inv(a2) && Matches(a2, CreateStep(s, l))
  {
    FollowLost(s, a, l);
    LostIs(s, a, l);
    TwoSteps(a, Go(l));
  }

  lemma CreateIs(a: State, l: Loc)
    requires Enabled(a, Go(l)) && (a.frames[l].pc == CNew || a.frames[l].pc == CExpected)
    ensures Apply(a, Go(l)) == CreateStep(a, l)
  {
  }

  lemma LostIs(s: State, a: State, l: Loc)
    requires Inv(a) && IsPicture(a, s, l) && s.frames[l].pc == CExcl && s.slot.Some?
    requires Enabled(a, Go(l)) && Enabled(CreateStep(a, l), Go(l))
    ensures Apply(a, Go(l)) == CreateStep(a, l)
    ensures Apply(CreateStep(a, l), Go(l)) == CreateStep(CreateStep(a, l), l)
  {
    var a1 := CreateStep(a, l);
    LosesIs(a, l);
    CreateIs(a, l);
    CreateIs(a1, l);
  }

  /** `steps` lead from `a` to `b`. */
  predicate Leads(a: State, steps: seq<Step>, b: State) {
    EnabledAll(a, steps) && ApplyAll(a, steps) == b
  }

  lemma StutterRefines(s: State, l: Loc)
    requires Inv(s) && s.backend.Intrusive? && Enabled(s, Go(l)) && Mimic(s, Go(l)) == []
    ensures Leads(Abs(s), [], Abs(Apply(s, Go(l))))
  {
    AbsInv(s);
    Stutters(s, l, Apply(s, Go(l)));
    MatchesIsAbs(Abs(s), Apply(s, Go(l)));
  }

  lemma FollowRefines(s: State, step: Step)
    requires Inv(s) && s.backend.Intrusive? && Enabled(s, step) && Mimic(s, step) == [step]
    ensures Leads(Abs(s), [step], Abs(Apply(s, step)))
  {
    var a := Abs(s);
    AbsInv(s);
    if step.Go? { Follows(s, step.l); } else { AbsHistory(s); Begins(s, a, step); }
    StepKeeps(a, step);
    MatchesIsAbs(Apply(a, step), Apply(s, step));
    OneStep(a, step);
  }

  lemma LostRefines(s: State, l: Loc)
    requires Inv(s) && s.backend.Intrusive? && Enabled(s, Go(l)) && s.frames[l].pc == CExcl && s.slot.Some?
    ensures Leads(Abs(s), [Go(l), Go(l)], Abs(CreateStep(s, l)))
  {
    AbsInv(s);
    PictureOf(s, l);
    LostSteps(s, Abs(s), l);
    MatchesIsAbs(ApplyAll(Abs(s), [Go(l), Go(l)]), CreateStep(s, l));
  }

  predicate LosesPublication(s: State, step: Step) {
    step.Go? && step.l in s.frames && s.frames[step.l].pc == CExcl && s.slot.Some?
  }

  lemma MimicIs(s: State, step: Step)
    requires Enabled(s, step)
    ensures Mimic(s, step) == (if LosesPublication(s, step) then [step, step] else Mimic(s, step))
    ensures !LosesPublication(s, step) ==> (Mimic(s, step) == [] && step.Go?) || Mimic(s, step) == [step]
    ensures LosesPublication(s, step) ==> Apply(s, step) == CreateStep(s, step.l)
  {
  }

  /** Every step of the lock-guarded backend is none, one or two steps of the
      atomic backend between the states they stand for. */
  lemma StepRefines(s: State, step: Step, s': State)
    requires Inv(s) && s.backend.Intrusive? && Enabled(s, step) && s' == Apply(s, step)
    ensures Leads(Abs(s), Mimic(s, step), Abs(s'))
  {
    MimicIs(s, step);
    if LosesPublication(s, step) {
      LostRefines(s, step.l);
    } else if Mimic(s, step) == [step] {
      FollowRefines(s, step);
    } else {
      StutterRefines(s, step.l);
    }
  }

  lemma LeadsOn(a: State, m: seq<Step>, b: State) returns (a1: State)
    requires Leads(a, m, b) && m != []
    ensures Enabled(a, m[0]) && a1 == Apply(a, m[0]) && Leads(a1, m[1..], b)
  {
    a1 := Apply(a, m[0]);
  }

  lemma RunExtended(run: seq<State>, steps: seq<Step>, step: Step, a1: State)
    requires IsRun(run, steps) && Enabled(run[|steps|], step) && a1 == Apply(run[|steps|], step)
    ensures IsRun(run + [a1], steps + [step])
  {
  }

  lemma {:induction false} RunOn(run: seq<State>, steps: seq<Step>, m: seq<Step>, b: State) returns (longer: seq<State>)
    requires IsRun(run, steps) && Leads(run[|steps|], m, b)
    ensures IsRun(longer, steps + m) && longer[..|run|] == run && longer[|steps + m|] == b
    decreases |m|
  {
    if m == [] {
      longer := run;
      assert steps + m == steps;
    } else {
      var a1 := LeadsOn(run[|steps|], m, b);
      RunExtended(run, steps, m[0], a1);
      longer := RunOn(run + [a1], steps + [m[0]], m[1..], b);
      assert steps + [m[0]] + m[1..] == steps + m;
      assert longer[..|run|] == longer[..|run + [a1]|][..|run|];
    }
  }

  lemma InitRefines(s: State)
    requires Init(s)
    ensures Init(Abs(s))
  {
  }

  /** After `at[k]` steps of its own the atomic run is where the other is after `k`. */
  ghost predicate InStep(states: seq<State>, atomic: seq<State>, at: seq<nat>, k: nat)
    requires k < |states| && k < |at|
  {
    at[k] < |atomic| && atomic[at[k]] == Abs(states[k])
  }

  /** Step `k` stands for the atomic steps from `at[k]` to `at[k + 1]`. */
  ghost predicate StandsFor(states: seq<State>, steps: seq<Step>, moves: seq<Step>, at: seq<nat>, k: nat)
    requires k < |steps| && k < |states| && k + 1 < |at|
  {
    at[k] <= at[k + 1] <= |moves| && moves[at[k]..at[k + 1]] == Mimic(states[k], steps[k])
  }

  ghost predicate Refines(states: seq<State>, steps: seq<Step>, atomic: seq<State>, moves: seq<Step>, at: seq<nat>)
    requires |states| == |steps| + 1
  {
    && IsRun(atomic, moves) && |at| == |states| && at[0] == 0 && at[|steps|] == |moves|
    && (forall k :: 0 <= k < |states| ==> InStep(states, atomic, at, k))
    && (forall k :: 0 <= k < |steps| ==> StandsFor(states, steps, moves, at, k))
  }

  lemma RunPrefix(states: seq<State>, steps: seq<Step>, n: nat)
    requires IsRun(states, steps) && n <= |steps|
    ensures IsRun(states[..n + 1], steps[..n])
  {
  }

  lemma Extended(states: seq<State>, steps: seq<Step>, n: nat,
                 before: seq<State>, movesBefore: seq<Step>, atBefore: seq<nat>, m: seq<Step>, atomic: seq<State>)
    requires |states| == |steps| + 1 && n + 1 == |steps|
    requires Refines(states[..n + 1], steps[..n], before, movesBefore, atBefore)
    requires m == Mimic(states[n], steps[n]) && IsRun(atomic, movesBefore + m)
    requires atomic[..|before|] == before && atomic[|movesBefore + m|] == Abs(states[n + 1])
    ensures Refines(states, steps, atomic, movesBefore + m, atBefore + [|movesBefore + m|])
  {
    var moves := movesBefore + m;
    var at := atBefore + [|moves|];
    forall k | 0 <= k < |states| ensures InStep(states, atomic, at, k) {
      if k <= n {
        assert InStep(states[..n + 1], before, atBefore, k);
        assert atomic[..|before|][at[k]] == before[at[k]];
      }
    }
    forall k | 0 <= k < |steps| ensures StandsFor(states, steps, moves, at, k) {
      if k < n {
        assert StandsFor(states[..n + 1], steps[..n], movesBefore, atBefore, k);
        assert moves[at[k]..at[k + 1]] == movesBefore[at[k]..at[k + 1]];
      } else {
        assert moves[at[n]..at[n + 1]] == m;
      }
    }
  }

  /** Every run over the lock-guarded slot is a run over an atomic slot. */
  lemma {:induction false} RunRefines(states: seq<State>, steps: seq<Step>)
      returns (atomic: seq<State>, moves: seq<Step>, at: seq<nat>)
    requires IsRun(states, steps) && states[0].backend.Intrusive?
    ensures Refines(states, steps, atomic, moves, at)
  {
    if steps == [] {
      InitRefines(states[0]);
      atomic, moves, at := [Abs(states[0])], [], [0];
    } else {
      var n := |steps| - 1;
      RunPrefix(states, steps, n);
      atomic, moves, at := RunRefines(states[..n + 1], steps[..n]);
      assert InStep(states[..n + 1], atomic, at, n);
      RunKeeps(states, steps, n);
      SameBackend(states, steps, n);
      StepRefines(states[n], steps[n], states[n + 1]);
      var m := Mimic(states[n], steps[n]);
      var all := RunOn(atomic, moves, m, Abs(states[n + 1]));
      Extended(states, steps, n, atomic, moves, at, m, all);
      atomic, moves, at := all, moves + m, at + [|moves + m|];
    }
  }

  lemma {:induction false} SameBackend(states: seq<State>, steps: seq<Step>, k: nat)
    requires IsRun(states, steps) && k < |states|
    ensures states[k].backend == states[0].backend
  {
    if k > 0 {
      SameBackend(states, steps, k - 1);
      StepBackend(states[k - 1], steps[k - 1]);
    }
  }

  lemma StepBackend(s: State, step: Step)
    requires Enabled(s, step)
    ensures Apply(s, step).backend == s.backend
  {
    if step.Go? { SingletonProgress.StepBuild(s, step.l); }
  }

  /** What user code and the process see of a call. */
  predicate LooksSame(f: Frame, g: Frame) {
    && (InWith(f.pc) <==> InWith(g.pc)) && (InDestroy(f.pc) <==> InDestroy(g.pc))
    && (Nestable(f) || f.pc == CFatal || f.pc == DAssert || Nestable(g) || g.pc == CFatal || g.pc == DAssert ==> f.pc == g.pc)
    && (f.pc == WRunning ==> g.own == f.own) && (f.pc == CBuild || f.pc == Dtor ==> g.ptr == f.ptr)
  }

  lemma FrameLooksSame(f: Frame)
    ensures LooksSame(f, AbsFrame(f))
  {
  }

  /** User code and the process cannot tell the two runs apart: the slot, the
      life of every object, and every running constructor, callback and
      destructor, failed call and pending call are the same. */
  lemma SameForUsers(s: State)
    ensures Abs(s).slot == s.slot && Abs(s).depth == s.depth && Abs(s).objs.Keys == s.objs.Keys
    ensures forall o :: o in s.objs ==> Abs(s).objs[o].phase == s.objs[o].phase
    ensures Abs(s).frames.Keys == s.frames.Keys
    ensures forall l :: l in s.frames ==> LooksSame(s.frames[l], Abs(s).frames[l])
  {
    forall l | l in s.frames ensures LooksSame(s.frames[l], Abs(s).frames[l]) {
      FrameLooksSame(s.frames[l]);
    }
  }
}
