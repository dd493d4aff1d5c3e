/** What one call of the singleton's operations does from beginning to end when no
    other call steps in between, in either backend and from every state that can
    be reached; when a call has to wait; and when the debug assertion fails. */
module SingletonCalls {
  import opened SingletonProtocol
  import opened SingletonInvariant
  import opened SingletonSteps
  import opened SingletonSafety

  ghost predicate StepAt(path: seq<State>, l: Loc, k: nat)
    requires k + 1 < |path|
  {
    Next(path[k], Go(l), path[k + 1])
  }

  ghost predicate IsPath(path: seq<State>, l: Loc) {
    forall k {:trigger StepAt(path, l, k)} :: 0 <= k < |path| - 1 ==> StepAt(path, l, k)
  }

  /** `n` steps of the call at `l` lead from `s` to `s'`. */
  ghost predicate GoesOn(s: State, l: Loc, n: nat, s': State) {
    exists path {:trigger IsPath(path, l)} :: |path| == n + 1 && path[0] == s && path[n] == s' && IsPath(path, l)
  }

  lemma Here(s: State, l: Loc)
    ensures GoesOn(s, l, 0, s)
  {
    assert IsPath([s], l);
  }

  lemma OneStep(s: State, l: Loc, s': State)
    requires Next(s, Go(l), s')
    ensures GoesOn(s, l, 1, s')
  {
    assert IsPath([s, s'], l) by { assert StepAt([s, s'], l, 0); }
  }

  lemma Joined(p: seq<State>, q: seq<State>, l: Loc)
    requires IsPath(p, l) && IsPath(q, l) && p != [] && q != [] && p[|p| - 1] == q[0]
    ensures IsPath(p + q[1..], l)
  {
    var r := p + q[1..];
    forall k | 0 <= k < |r| - 1 ensures StepAt(r, l, k) {
      if k < |p| - 1 {
        assert StepAt(p, l, k);
      } else {
        assert StepAt(q, l, k - (|p| - 1));
        assert r[k] == q[k - (|p| - 1)] && r[k + 1] == q[k - (|p| - 1) + 1];
      }
    }
  }

  lemma Then(s: State, l: Loc, n: nat, m: State, k: nat, s': State)
    requires GoesOn(s, l, n, m) && GoesOn(m, l, k, s')
    ensures GoesOn(s, l, n + k, s')
  {
    var p :| |p| == n + 1 && p[0] == s && p[n] == m && IsPath(p, l);
    var q :| |q| == k + 1 && q[0] == m && q[k] == s' && IsPath(q, l);
    Joined(p, q, l);
    assert (p + q[1..])[n + k] == s';
  }

  /** One step, and then `n` more. */
  lemma OneMore(s: State, l: Loc, s1: State, n: nat, s': State)
    requires GoesOn(s, l, 1, s1) && GoesOn(s1, l, n, s')
    ensures GoesOn(s, l, n + 1, s')
  {
    Then(s, l, 1, s1, n, s');
  }

  /** A call may begin at `l` while nobody holds the lock. */
  ghost predicate Idle(s: State, l: Loc) {
    Inv(s) && CanCall(s, l) && Free(s)
  }

  lemma IdleIs(s: State, l: Loc)
    requires Idle(s, l)
    ensures l !in s.frames && Above(l) !in s.frames
  {
    NoneOnTop(s, l);
  }

  lemma FramesReset(frames: map<Loc, Frame>, l: Loc, f: Frame, g: Frame)
    ensures frames[l := f][l := g] == frames[l := g]
    ensures l !in frames ==> frames[l := f] - {l} == frames
  {
  }

  predicate Vacant(b: State, l: Loc) {
    l !in b.frames && Above(l) !in b.frames
  }

  lemma SlotCount(s: State, o: Obj)
    requires ObjsOk(s) && s.slot == Some(o)
    ensures o in s.objs && s.objs[o].count >= 1 && s.objs[o].phase == Published
  {
    assert ObjOk(s, o);
    HoldersAre(s, o);
    assert SlotRef in Holders(s, o);
  }

  // ----- withInstance -----

  /** `s` with one more reference to `o`. */
  function Retained(s: State, o: Obj): State
    requires o in s.objs
  {
    s.(objs := s.objs[o := s.objs[o].(count := s.objs[o].count + 1)])
  }

  function Deepened(s: State, t: nat, d: int): State {
    s.(depth := s.depth[t := Depth(s, t) + d])
  }

  lemma LoadsShared(b: State, l: Loc)
    requires Vacant(b, l) && b.backend.SharedPtr? && (b.slot.Some? ==> b.slot.value in b.objs)
    ensures GoesOn(Set(b, l, At(WStart, None)), l, 1,
                   Set(if b.slot.Some? then Retained(b, b.slot.value) else b, l, At(WHeld, b.slot)))
  {
    FramesReset(b.frames, l, At(WStart, None), At(WHeld, b.slot));
    OneStep(Set(b, l, At(WStart, None)), l,
            Set(if b.slot.Some? then Retained(b, b.slot.value) else b, l, At(WHeld, b.slot)));
  }

  lemma TakesLock(b: State, l: Loc)
    requires Vacant(b, l) && b.backend.Intrusive? && Free(b)
    ensures GoesOn(Set(b, l, At(WStart, None)), l, 1,
                   Set(b.(readers := {l}), l, At(WShared, None)))
  {
    FramesReset(b.frames, l, At(WStart, None), At(WShared, None));
    assert b.readers + {l} == {l};
    OneStep(Set(b, l, At(WStart, None)), l,
            Set(b.(readers := {l}), l, At(WShared, None)));
  }

  lemma ReadsSlot(b: State, l: Loc)
    requires Vacant(b, l)
    ensures GoesOn(Set(b, l, At(WShared, None)), l, 1,
                   Set(b, l, At(WRead, None).(ptr := b.slot)))
  {
    FramesReset(b.frames, l, At(WShared, None), At(WRead, None).(ptr := b.slot));
    OneStep(Set(b, l, At(WShared, None)), l,
            Set(b, l, At(WRead, None).(ptr := b.slot)));
  }

  lemma RetainsRead(b: State, l: Loc, r: Ref)
    requires Vacant(b, l) && (r.Some? ==> r.value in b.objs)
    ensures GoesOn(Set(b, l, At(WRead, None).(ptr := r)), l, 1,
                   Set(if r.Some? then Retained(b, r.value) else b, l, At(WRetained, r)))
  {
    FramesReset(b.frames, l, At(WRead, None).(ptr := r), At(WRetained, r));
    OneStep(Set(b, l, At(WRead, None).(ptr := r)), l,
            Set(if r.Some? then Retained(b, r.value) else b, l, At(WRetained, r)));
  }

  lemma DropsLock(b: State, l: Loc, r: Ref)
    requires Vacant(b, l) && b.readers == {}
    ensures GoesOn(Set(b.(readers := {l}), l, At(WRetained, r)), l, 1,
                   Set(b, l, At(WHeld, r)))
  {
    FramesReset(b.frames, l, At(WRetained, r), At(WHeld, r));
    assert {l} - {l} == {};
    OneStep(Set(b.(readers := {l}), l, At(WRetained, r)), l,
            Set(b, l, At(WHeld, r)));
  }

  lemma EntersCallback(b: State, l: Loc, o: Obj)
    requires Vacant(b, l)
    ensures GoesOn(Set(b, l, At(WHeld, Some(o))), l, 1,
                   Set(Deepened(b, l.t, 1), l, At(WRunning, Some(o))))
  {
    FramesReset(b.frames, l, At(WHeld, Some(o)), At(WRunning, Some(o)));
    OneStep(Set(b, l, At(WHeld, Some(o))), l,
            Set(Deepened(b, l.t, 1), l, At(WRunning, Some(o))));
  }

  lemma FindsNothing(b: State, l: Loc)
    requires Vacant(b, l)
    ensures GoesOn(Set(b, l, At(WHeld, None)), l, 1,
                   b)
  {
    FramesReset(b.frames, l, At(WHeld, None), At(WHeld, None));
    OneStep(Set(b, l, At(WHeld, None)), l,
            b);
  }

  lemma LeavesCallback(b: State, l: Loc, o: Obj)
    requires Vacant(b, l)
    ensures GoesOn(Set(b, l, At(WRunning, Some(o))), l, 1,
                   Set(Deepened(b, l.t, -1), l, At(WDrop, Some(o))))
  {
    FramesReset(b.frames, l, At(WRunning, Some(o)), At(WDrop, Some(o)));
    OneStep(Set(b, l, At(WRunning, Some(o))), l,
            Set(Deepened(b, l.t, -1), l, At(WDrop, Some(o))));
  }

  lemma DropsHeld(b: State, l: Loc, o: Obj)
    requires Vacant(b, l) && o in b.objs && b.objs[o].count >= 1
    ensures GoesOn(Set(Retained(b, o), l, At(WDrop, Some(o))), l, 1,
                   b)
  {
    var s := Set(Retained(b, o), l, At(WDrop, Some(o)));
    ReleaseShared(s, l, o, At(Return, None));
    FramesReset(b.frames, l, At(WDrop, Some(o)), At(WDrop, Some(o)));
    assert Retained(b, o).objs[o := b.objs[o]] == b.objs;
    assert b.objs[o].(count := b.objs[o].count) == b.objs[o];
    OneStep(Set(Retained(b, o), l, At(WDrop, Some(o))), l,
            b);
  }

  /** The callback of a call at `l` runs on `o`, begun from `s`. */
  function Inside(s: State, l: Loc, o: Obj): State
    requires o in s.objs
  {
    Set(Deepened(Retained(s, o), l.t, 1), l, At(WRunning, Some(o)))
  }

  /** `s` with the slot's reference loaded. */
  function Loaded(s: State): State {
    if s.slot.Some? && s.slot.value in s.objs then Retained(s, s.slot.value) else s
  }

  lemma LoadsUnderLock(s: State, l: Loc)
    requires s.slot.Some? ==> s.slot.value in s.objs
    ensures (if s.slot.Some? then Retained(s.(readers := {l}), s.slot.value) else s.(readers := {l})) == Loaded(s).(readers := {l})
  {
  }

  lemma HoldsAfterLock(s: State, l: Loc, r: Ref, n: nat, s': State)
    requires Vacant(s, l) && s.readers == {} && GoesOn(Set(s, l, At(WHeld, r)), l, n, s')
    ensures GoesOn(Set(s.(readers := {l}), l, At(WRetained, r)), l, n + 1, s')
  {
    DropsLock(s, l, r);
    OneMore(Set(s.(readers := {l}), l, At(WRetained, r)), l, Set(s, l, At(WHeld, r)), n, s');
  }

  lemma HoldsAfterRead(b: State, l: Loc, n: nat, s': State)
    requires Vacant(b, l) && (b.slot.Some? ==> b.slot.value in b.objs)
    requires GoesOn(Set(if b.slot.Some? then Retained(b, b.slot.value) else b, l, At(WRetained, b.slot)), l, n, s')
    ensures GoesOn(Set(b, l, At(WRead, None).(ptr := b.slot)), l, n + 1, s')
  {
    RetainsRead(b, l, b.slot);
    OneMore(Set(b, l, At(WRead, None).(ptr := b.slot)), l, Set(if b.slot.Some? then Retained(b, b.slot.value) else b, l, At(WRetained, b.slot)), n, s');
  }

  lemma HoldsFromLock(b: State, l: Loc, n: nat, s': State)
    requires Vacant(b, l) && GoesOn(Set(b, l, At(WRead, None).(ptr := b.slot)), l, n, s')
    ensures GoesOn(Set(b, l, At(WShared, None)), l, n + 1, s')
  {
    ReadsSlot(b, l);
    OneMore(Set(b, l, At(WShared, None)), l, Set(b, l, At(WRead, None).(ptr := b.slot)), n, s');
  }

  lemma LoadsLocked(s: State, l: Loc, n: nat, s': State)
    requires Vacant(s, l) && Free(s) && s.backend.Intrusive? && (s.slot.Some? ==> s.slot.value in s.objs)
    requires GoesOn(Set(Loaded(s), l, At(WHeld, s.slot)), l, n, s')
    ensures GoesOn(Set(s, l, At(WStart, None)), l, n + 4, s')
  {
    var b := s.(readers := {l});
    HoldsAfterLock(Loaded(s), l, s.slot, n, s');
    LoadsUnderLock(s, l);
    HoldsAfterRead(b, l, n + 1, s');
    HoldsFromLock(b, l, n + 2, s');
    TakesLock(s, l);
    OneMore(Set(s, l, At(WStart, None)), l, Set(b, l, At(WShared, None)), n + 3, s');
  }

  lemma ReachesHeld(s: State, l: Loc, n: nat, s': State)
    requires Vacant(s, l) && Free(s) && (s.slot.Some? ==> s.slot.value in s.objs)
    requires GoesOn(Set(Loaded(s), l, At(WHeld, s.slot)), l, n, s')
    ensures GoesOn(Set(s, l, At(WStart, None)), l, n + if s.backend.SharedPtr? then 1 else 4, s')
  {
    if s.backend.SharedPtr? {
      LoadsShared(s, l);
      OneMore(Set(s, l, At(WStart, None)), l, Set(Loaded(s), l, At(WHeld, s.slot)), n, s');
    } else {
      LoadsLocked(s, l, n, s');
    }
  }

  /** With an instance published, withInstance runs its callback on it, with one
      more reference and one more level of depth, and afterwards leaves everything
      as it was. */
  lemma WithInstanceRuns(s: State, l: Loc, o: Obj)
    requires Idle(s, l) && s.slot == Some(o)
    ensures o in s.objs
    ensures GoesOn(Apply(s, BeginWith(l)), l, if s.backend.SharedPtr? then 2 else 5, Inside(s, l, o))
    ensures GoesOn(Inside(s, l, o), l, 2, Deepened(s, l.t, 0))
  {
    IdleIs(s, l);
    SlotCount(s, o);
    var held, inside := Set(Retained(s, o), l, At(WHeld, Some(o))), Inside(s, l, o);
    EntersCallback(Retained(s, o), l, o);
    Here(inside, l);
    OneMore(held, l, inside, 0, inside);
    ReachesHeld(s, l, 1, inside);
    LeavesInstance(s, l, o, Retained(Deepened(s, l.t, 0), o), Deepened(s, l.t, 0));
  }

  lemma DepthBack(s: State, t: nat, o: Obj)
    requires o in s.objs
    ensures Deepened(Deepened(Retained(s, o), t, 1), t, -1) == Retained(Deepened(s, t, 0), o)
  {
    assert s.depth[t := Depth(s, t) + 1][t := Depth(s, t)] == s.depth[t := Depth(s, t)];
  }

  lemma LeavesInstance(s: State, l: Loc, o: Obj, held: State, after: State)
    requires Vacant(s, l) && o in s.objs && s.objs[o].count >= 1
    requires after == Deepened(s, l.t, 0) && held == Retained(after, o)
    ensures GoesOn(Inside(s, l, o), l, 2, after)
  {
    LeavesCallback(Deepened(Retained(s, o), l.t, 1), l, o);
    DepthBack(s, l.t, o);
    DropsHeld(after, l, o);
    Here(after, l);
    OneMore(Set(held, l, At(WDrop, Some(o))), l, after, 0, after);
    OneMore(Inside(s, l, o), l, Set(held, l, At(WDrop, Some(o))), 1, after);
  }

  /** Without one it returns and changes nothing. */
  lemma WithInstanceFindsNone(s: State, l: Loc)
    requires Idle(s, l) && s.slot == None
    ensures GoesOn(Apply(s, BeginWith(l)), l, if s.backend.SharedPtr? then 2 else 5, s)
  {
    IdleIs(s, l);
    FindsNothing(s, l);
    Here(s, l);
    OneMore(Set(s, l, At(WHeld, None)), l, s, 0, s);
    ReachesHeld(s, l, 1, s);
  }

  // ----- createInstance -----

  /** `s` with the object `o` at this point of its life. */
  function With(s: State, o: Obj, count: int, p: Phase): State {
    s.(objs := s.objs[o := ObjState(count, p)])
  }

  function Locked(s: State, l: Loc): State {
    s.(writer := OwnedBy(l))
  }

  lemma Builds(b: State, l: Loc, o: Obj)
    requires Vacant(b, l)
    ensures GoesOn(Set(With(b, o, 0, Fresh(l)), l, At(CBuild, None).(ptr := Some(o))), l, 1,
                   Set(With(b, o, 1, Fresh(l)), l, At(CNew, Some(o))))
  {
    AdoptIs(Set(With(b, o, 0, Fresh(l)), l, At(CBuild, None).(ptr := Some(o))), l, o);
    FramesReset(b.frames, l, At(CBuild, None).(ptr := Some(o)), At(CNew, Some(o)));
    OneStep(Set(With(b, o, 0, Fresh(l)), l, At(CBuild, None).(ptr := Some(o))), l,
            Set(With(b, o, 1, Fresh(l)), l, At(CNew, Some(o))));
  }

  lemma Exchanges(b: State, l: Loc, o: Obj)
    requires Vacant(b, l) && b.backend.SharedPtr? && b.slot == None
    ensures GoesOn(Set(With(b, o, 1, Fresh(l)), l, At(CNew, Some(o))), l, 1,
                   Set(With(b, o, 2, Published).(slot := Some(o)), l, At(CWonDrop, Some(o))))
  {
    ExchangeInIs(Set(With(b, o, 1, Fresh(l)), l, At(CNew, Some(o))), l, o);
    FramesReset(b.frames, l, At(CNew, Some(o)), At(CWonDrop, Some(o)));
    OneStep(Set(With(b, o, 1, Fresh(l)), l, At(CNew, Some(o))), l,
            Set(With(b, o, 2, Published).(slot := Some(o)), l, At(CWonDrop, Some(o))));
  }

  lemma LocksToCreate(b: State, l: Loc, r: Ref)
    requires Vacant(b, l) && b.backend.Intrusive? && Free(b)
    ensures GoesOn(Set(b, l, At(CNew, r)), l, 1,
                   Set(Locked(b, l), l, At(CExcl, r)))
  {
    FramesReset(b.frames, l, At(CNew, r), At(CExcl, r));
    OneStep(Set(b, l, At(CNew, r)), l,
            Set(Locked(b, l), l, At(CExcl, r)));
  }

  lemma Copies(b: State, l: Loc, o: Obj)
    requires Vacant(b, l) && b.slot == None
    ensures GoesOn(Set(With(b, o, 1, Fresh(l)), l, At(CExcl, Some(o))), l, 1,
                   Set(With(b, o, 2, Fresh(l)), l, At(CCopy, Some(o)).(tmp := Some(o))))
  {
    FramesReset(b.frames, l, At(CExcl, Some(o)), At(CCopy, Some(o)).(tmp := Some(o)));
    OneStep(Set(With(b, o, 1, Fresh(l)), l, At(CExcl, Some(o))), l,
            Set(With(b, o, 2, Fresh(l)), l, At(CCopy, Some(o)).(tmp := Some(o))));
  }

  lemma SwapsIn(b: State, l: Loc, o: Obj)
    requires Vacant(b, l)
    ensures GoesOn(Set(With(b, o, 2, Fresh(l)), l, At(CCopy, Some(o)).(tmp := Some(o))), l, 1,
                   Set(With(b, o, 2, Published).(slot := Some(o)), l, At(CStored, Some(o))))
  {
    SwapInIs(Set(With(b, o, 2, Fresh(l)), l, At(CCopy, Some(o)).(tmp := Some(o))), l, o);
    FramesReset(b.frames, l, At(CCopy, Some(o)).(tmp := Some(o)), At(CStored, Some(o)));
    OneStep(Set(With(b, o, 2, Fresh(l)), l, At(CCopy, Some(o)).(tmp := Some(o))), l,
            Set(With(b, o, 2, Published).(slot := Some(o)), l, At(CStored, Some(o))));
  }

  lemma UnlocksCreate(b: State, l: Loc, pc: Pc, r: Ref)
    requires Vacant(b, l) && b.writer == Unowned && (pc == CStored || pc == CLost)
    ensures GoesOn(Set(Locked(b, l), l, At(pc, r)), l, 1,
                   Set(b, l, At(if pc == CStored then CWonDrop else CLostDrop, r)))
  {
    FramesReset(b.frames, l, At(pc, r), At(if pc == CStored then CWonDrop else CLostDrop, r));
    OneStep(Set(Locked(b, l), l, At(pc, r)), l,
            Set(b, l, At(if pc == CStored then CWonDrop else CLostDrop, r)));
  }

  lemma DropsWon(b: State, l: Loc, o: Obj)
    requires Vacant(b, l)
    ensures GoesOn(Set(With(b, o, 2, Published), l, At(CWonDrop, Some(o))), l, 1,
                   With(b, o, 1, Published))
  {
    ReleaseShared(Set(With(b, o, 2, Published), l, At(CWonDrop, Some(o))), l, o, At(Return, None));
    FramesReset(b.frames, l, At(CWonDrop, Some(o)), At(CWonDrop, Some(o)));
    OneStep(Set(With(b, o, 2, Published), l, At(CWonDrop, Some(o))), l,
            With(b, o, 1, Published));
  }

  /** Over an empty slot, createInstance publishes the object that it has made,
      with the slot's reference as the only one, and returns. */
  lemma CreatePublishes(s: State, l: Loc, o: Obj)
    requires Idle(s, l) && s.slot == None && o !in s.objs
    ensures GoesOn(Apply(s, BeginCreate(l, o)), l, if s.backend.SharedPtr? then 3 else 6, With(s, o, 1, Published).(slot := Some(o)))
  {
    IdleIs(s, l);
    var won := s.(slot := Some(o));
    var end := With(won, o, 1, Published);
    var began, made, dropping := Set(With(s, o, 0, Fresh(l)), l, At(CBuild, None).(ptr := Some(o))),
      Set(With(s, o, 1, Fresh(l)), l, At(CNew, Some(o))), Set(With(won, o, 2, Published), l, At(CWonDrop, Some(o)));
    Builds(s, l, o);
    DropsWon(won, l, o);
    Here(end, l);
    OneMore(dropping, l, end, 0, end);
    if s.backend.SharedPtr? {
      Exchanges(s, l, o);
      OneMore(made, l, dropping, 1, end);
      OneMore(began, l, made, 2, end);
    } else {
      PublishesLocked(s, l, o, end);
      OneMore(began, l, made, 5, end);
    }
  }

  lemma PublishesLocked(s: State, l: Loc, o: Obj, end: State)
    requires Vacant(s, l) && s.backend.Intrusive? && Free(s) && s.slot == None
    requires GoesOn(Set(With(s.(slot := Some(o)), o, 2, Published), l, At(CWonDrop, Some(o))), l, 1, end)
    ensures GoesOn(Set(With(s, o, 1, Fresh(l)), l, At(CNew, Some(o))), l, 5, end)
  {
    var b, won := Locked(s, l), With(s.(slot := Some(o)), o, 2, Published);
    LocksToCreate(With(s, o, 1, Fresh(l)), l, Some(o));
    Copies(b, l, o);
    SwapsIn(b, l, o);
    UnlocksCreate(won, l, CStored, Some(o));
    OneMore(Set(Locked(won, l), l, At(CStored, Some(o))), l, Set(won, l, At(CWonDrop, Some(o))), 1, end);
    OneMore(Set(With(b, o, 2, Fresh(l)), l, At(CCopy, Some(o)).(tmp := Some(o))), l, Set(Locked(won, l), l, At(CStored, Some(o))), 2, end);
    OneMore(Set(With(b, o, 1, Fresh(l)), l, At(CExcl, Some(o))), l, Set(With(b, o, 2, Fresh(l)), l, At(CCopy, Some(o)).(tmp := Some(o))), 3, end);
    OneMore(Set(With(s, o, 1, Fresh(l)), l, At(CNew, Some(o))), l, Set(With(b, o, 1, Fresh(l)), l, At(CExcl, Some(o))), 4, end);
  }

  lemma ExchangeLoses(b: State, l: Loc, o: Obj, w: Obj)
    requires Vacant(b, l) && b.backend.SharedPtr? && b.slot == Some(w) && w in b.objs
    ensures GoesOn(Set(b, l, At(CNew, Some(o))), l, 1,
                   Set(Retained(b, w), l, At(CExpected, Some(o)).(tmp := Some(w))))
  {
    FramesReset(b.frames, l, At(CNew, Some(o)), At(CExpected, Some(o)).(tmp := Some(w)));
    OneStep(Set(b, l, At(CNew, Some(o))), l,
            Set(Retained(b, w), l, At(CExpected, Some(o)).(tmp := Some(w))));
  }

  lemma DropsWinner(b: State, l: Loc, o: Obj, w: Obj)
    requires Vacant(b, l) && w in b.objs && b.objs[w].count >= 1
    ensures GoesOn(Set(Retained(b, w), l, At(CExpected, Some(o)).(tmp := Some(w))), l, 1,
                   Set(b, l, At(CLostDrop, Some(o))))
  {
    var f, g := At(CExpected, Some(o)).(tmp := Some(w)), At(CLostDrop, Some(o));
    ReleaseShared(Set(Retained(b, w), l, f), l, w, g);
    FramesReset(b.frames, l, f, g);
    assert b.objs[w].(count := b.objs[w].count) == b.objs[w];
    assert Retained(b, w).objs[w := b.objs[w]] == b.objs;
    OneStep(Set(Retained(b, w), l, At(CExpected, Some(o)).(tmp := Some(w))), l,
            Set(b, l, At(CLostDrop, Some(o))));
  }

  lemma SeesFull(b: State, l: Loc, r: Ref)
    requires Vacant(b, l) && b.slot != None
    ensures GoesOn(Set(b, l, At(CExcl, r)), l, 1,
                   Set(b, l, At(CLost, r)))
  {
    FramesReset(b.frames, l, At(CExcl, r), At(CLost, r));
    OneStep(Set(b, l, At(CExcl, r)), l,
            Set(b, l, At(CLost, r)));
  }

  lemma DestroysLost(b: State, l: Loc, o: Obj)
    requires Vacant(b, l)
    ensures GoesOn(Set(With(b, o, 1, Fresh(l)), l, At(CLostDrop, Some(o))), l, 1,
                   Set(With(b, o, 0, Destructing(l)), l, Frame(Dtor, None, None, Some(o), CFatal)))
  {
    ReleaseLast(Set(With(b, o, 1, Fresh(l)), l, At(CLostDrop, Some(o))), l, o, At(CFatal, None));
    FramesReset(b.frames, l, At(CLostDrop, Some(o)), Frame(Dtor, None, None, Some(o), CFatal));
    OneStep(Set(With(b, o, 1, Fresh(l)), l, At(CLostDrop, Some(o))), l,
            Set(With(b, o, 0, Destructing(l)), l, Frame(Dtor, None, None, Some(o), CFatal)));
  }

  lemma EndsDestructor(b: State, l: Loc, o: Obj, next: Pc)
    requires Vacant(b, l)
    ensures GoesOn(Set(With(b, o, 0, Destructing(l)), l, Frame(Dtor, None, None, Some(o), next)), l, 1,
                   if next == Return then With(b, o, 0, Freed) else Set(With(b, o, 0, Freed), l, At(next, None)))
  {
    DtorIs(Set(With(b, o, 0, Destructing(l)), l, Frame(Dtor, None, None, Some(o), next)), l, o);
    FramesReset(b.frames, l, Frame(Dtor, None, None, Some(o), next), At(next, None));
    OneStep(Set(With(b, o, 0, Destructing(l)), l, Frame(Dtor, None, None, Some(o), next)), l,
            if next == Return then With(b, o, 0, Freed) else Set(With(b, o, 0, Freed), l, At(next, None)));
  }

  lemma LosesShared(b: State, l: Loc, o: Obj, w: Obj, n: nat, s': State)
    requires Vacant(b, l) && b.backend.SharedPtr? && b.slot == Some(w) && w in b.objs && b.objs[w].count >= 1
    requires GoesOn(Set(b, l, At(CLostDrop, Some(o))), l, n, s')
    ensures GoesOn(Set(b, l, At(CNew, Some(o))), l, n + 2, s')
  {
    var expected := Set(Retained(b, w), l, At(CExpected, Some(o)).(tmp := Some(w)));
    ExchangeLoses(b, l, o, w);
    DropsWinner(b, l, o, w);
    OneMore(expected, l, Set(b, l, At(CLostDrop, Some(o))), n, s');
    OneMore(Set(b, l, At(CNew, Some(o))), l, expected, n + 1, s');
  }

  lemma LosesLocked(b: State, l: Loc, o: Obj, n: nat, s': State)
    requires Vacant(b, l) && b.backend.Intrusive? && Free(b) && b.slot != None
    requires GoesOn(Set(b, l, At(CLostDrop, Some(o))), l, n, s')
    ensures GoesOn(Set(b, l, At(CNew, Some(o))), l, n + 3, s')
  {
    var excl, lost := Set(Locked(b, l), l, At(CExcl, Some(o))), Set(Locked(b, l), l, At(CLost, Some(o)));
    LocksToCreate(b, l, Some(o));
    SeesFull(Locked(b, l), l, Some(o));
    UnlocksCreate(b, l, CLost, Some(o));
    OneMore(lost, l, Set(b, l, At(CLostDrop, Some(o))), n, s');
    OneMore(excl, l, lost, n + 1, s');
    OneMore(Set(b, l, At(CNew, Some(o))), l, excl, n + 2, s');
  }

  lemma LostEnds(s: State, l: Loc, o: Obj)
    requires Vacant(s, l)
    ensures GoesOn(Set(With(s, o, 1, Fresh(l)), l, At(CLostDrop, Some(o))), l, 2, Set(With(s, o, 0, Freed), l, At(CFatal, None)))
  {
    DestroysLost(s, l, o);
    EndsDestructor(s, l, o, CFatal);
    OneMore(Set(With(s, o, 1, Fresh(l)), l, At(CLostDrop, Some(o))), l,
            Set(With(s, o, 0, Destructing(l)), l, Frame(Dtor, None, None, Some(o), CFatal)), 1, Set(With(s, o, 0, Freed), l, At(CFatal, None)));
  }

  /** Over a full slot, createInstance destroys the object that it has made and
      ends in "Called createInstance() twice.": it never returns, and leaves the
      published instance and its count alone. */
  lemma CreateFails(s: State, l: Loc, o: Obj, w: Obj)
    requires Idle(s, l) && s.slot == Some(w) && o !in s.objs
    ensures var end := Set(With(s, o, 0, Freed), l, At(CFatal, None));
            && GoesOn(Apply(s, BeginCreate(l, o)), l, if s.backend.SharedPtr? then 5 else 6, end)
            && !Enabled(end, Go(l))
  {
    IdleIs(s, l);
    SlotCount(s, w);
    CreateLoses(s, With(s, o, 1, Fresh(l)), l, o, w);
  }

  lemma CreateLoses(s: State, b: State, l: Loc, o: Obj, w: Obj)
    requires Vacant(s, l) && Free(s) && s.slot == Some(w) && w in s.objs && s.objs[w].count >= 1 && o !in s.objs && b == With(s, o, 1, Fresh(l))
    ensures GoesOn(Set(With(s, o, 0, Fresh(l)), l, At(CBuild, None).(ptr := Some(o))), l, if s.backend.SharedPtr? then 5 else 6,
                   Set(With(s, o, 0, Freed), l, At(CFatal, None)))
  {
    var end := Set(With(s, o, 0, Freed), l, At(CFatal, None));
    LostEnds(s, l, o);
    if s.backend.SharedPtr? {
      LosesShared(b, l, o, w, 2, end);
    } else {
      LosesLocked(b, l, o, 2, end);
    }
    Builds(s, l, o);
    OneMore(Set(With(s, o, 0, Fresh(l)), l, At(CBuild, None).(ptr := Some(o))), l, Set(b, l, At(CNew, Some(o))),
            if s.backend.SharedPtr? then 4 else 5, end);
  }

  // ----- destroyInstance -----

  /** The call of destroyInstance fails the debug assertion at entry if and only if
      it is made in a debug build from inside a callback of its own thread, and
      otherwise goes on. */
  lemma DestroyStarts(s: State, l: Loc)
    requires Inv(s) && Enabled(s, BeginDestroy(l))
    ensures Apply(s, BeginDestroy(l)) == Set(s, l, At(if s.debug && Running(s, l.t) != {} then DAssert else DStart, None))
    ensures !Enabled(Set(s, l, At(DAssert, None)), Go(l))
  {
    assert Depth(s, l.t) == |Running(s, l.t)|;
    assert Running(s, l.t) == {} <==> |Running(s, l.t)| == 0;
  }

  /** The same over runs. */
  lemma AssertsIff(states: seq<State>, steps: seq<Step>, k: nat, l: Loc)
    requires IsRun(states, steps) && k < |steps| && steps[k] == BeginDestroy(l)
    ensures l in states[k + 1].frames
    ensures states[k + 1].frames[l].pc == DAssert <==> states[k].debug && Running(states[k], l.t) != {}
    ensures states[k + 1].frames[l].pc != DAssert ==> states[k + 1].frames[l].pc == DStart
  {
    RunKeeps(states, steps, k);
    DestroyStarts(states[k], l);
  }

  lemma ExchangesOut(b: State, l: Loc, o: Obj)
    requires Vacant(b, l) && b.backend.SharedPtr? && b.slot == Some(o) && o in b.objs
    ensures GoesOn(Set(b, l, At(DStart, None)), l, 1,
                   Set(With(b, o, b.objs[o].count, Retired(l)).(slot := None), l, At(DDrain, Some(o))))
  {
    SwapIs(Set(b, l, At(DStart, None)), l, o);
    FramesReset(b.frames, l, At(DStart, None), At(DDrain, Some(o)));
    OneStep(Set(b, l, At(DStart, None)), l,
            Set(With(b, o, b.objs[o].count, Retired(l)).(slot := None), l, At(DDrain, Some(o))));
  }

  lemma LocksToDestroy(b: State, l: Loc)
    requires Vacant(b, l) && b.backend.Intrusive? && Free(b)
    ensures GoesOn(Set(b, l, At(DStart, None)), l, 1,
                   Set(Locked(b, l), l, At(DExcl, None)))
  {
    FramesReset(b.frames, l, At(DStart, None), At(DExcl, None));
    OneStep(Set(b, l, At(DStart, None)), l,
            Set(Locked(b, l), l, At(DExcl, None)));
  }

  lemma SwapsOut(b: State, l: Loc, o: Obj)
    requires Vacant(b, l) && b.slot == Some(o) && o in b.objs
    ensures GoesOn(Set(b, l, At(DExcl, None)), l, 1,
                   Set(With(b, o, b.objs[o].count, Retired(l)).(slot := None), l, At(DSwapped, Some(o))))
  {
    SwapIs(Set(b, l, At(DExcl, None)), l, o);
    FramesReset(b.frames, l, At(DExcl, None), At(DSwapped, Some(o)));
    OneStep(Set(b, l, At(DExcl, None)), l,
            Set(With(b, o, b.objs[o].count, Retired(l)).(slot := None), l, At(DSwapped, Some(o))));
  }

  lemma UnlocksToDrain(b: State, l: Loc, o: Obj)
    requires Vacant(b, l) && b.writer == Unowned
    ensures GoesOn(Set(Locked(b, l), l, At(DSwapped, Some(o))), l, 1,
                   Set(b, l, At(DDrain, Some(o))))
  {
    FramesReset(b.frames, l, At(DSwapped, Some(o)), At(DDrain, Some(o)));
    OneStep(Set(Locked(b, l), l, At(DSwapped, Some(o))), l,
            Set(b, l, At(DDrain, Some(o))));
  }

  /** The state in which the call at `l` has emptied the slot of `o` and drains it. */
  function Draining(s: State, l: Loc, o: Obj): State
    requires o in s.objs
  {
    Set(With(s, o, s.objs[o].count, Retired(l)).(slot := None), l, At(DDrain, Some(o)))
  }

  lemma SwapsUnderLock(s: State, l: Loc, o: Obj)
    requires o in s.objs
    ensures With(Locked(s, l), o, s.objs[o].count, Retired(l)).(slot := None) == Locked(With(s, o, s.objs[o].count, Retired(l)).(slot := None), l)
  {
  }

  lemma DrainsAfterLock(out: State, l: Loc, o: Obj, n: nat, s': State)
    requires Vacant(out, l) && out.writer == Unowned && GoesOn(Set(out, l, At(DDrain, Some(o))), l, n, s')
    ensures GoesOn(Set(Locked(out, l), l, At(DSwapped, Some(o))), l, n + 1, s')
  {
    UnlocksToDrain(out, l, o);
    OneMore(Set(Locked(out, l), l, At(DSwapped, Some(o))), l, Set(out, l, At(DDrain, Some(o))), n, s');
  }

  lemma DrainsFromLock(b: State, l: Loc, o: Obj, n: nat, s': State)
    requires Vacant(b, l) && b.slot == Some(o) && o in b.objs
    requires GoesOn(Set(With(b, o, b.objs[o].count, Retired(l)).(slot := None), l, At(DSwapped, Some(o))), l, n, s')
    ensures GoesOn(Set(b, l, At(DExcl, None)), l, n + 1, s')
  {
    SwapsOut(b, l, o);
    OneMore(Set(b, l, At(DExcl, None)), l, Set(With(b, o, b.objs[o].count, Retired(l)).(slot := None), l, At(DSwapped, Some(o))), n, s');
  }

  lemma DrainsLocked(s: State, l: Loc, o: Obj, out: State, n: nat, s': State)
    requires Vacant(s, l) && Free(s) && s.backend.Intrusive? && s.slot == Some(o) && o in s.objs
    requires out == With(s, o, s.objs[o].count, Retired(l)).(slot := None) && GoesOn(Set(out, l, At(DDrain, Some(o))), l, n, s')
    ensures GoesOn(Set(s, l, At(DStart, None)), l, n + 3, s')
  {
    DrainsAfterLock(out, l, o, n, s');
    SwapsUnderLock(s, l, o);
    DrainsFromLock(Locked(s, l), l, o, n + 1, s');
    LocksToDestroy(s, l);
    OneMore(Set(s, l, At(DStart, None)), l, Set(Locked(s, l), l, At(DExcl, None)), n + 2, s');
  }

  lemma DrainsShared(s: State, l: Loc, o: Obj, drain: State, n: nat, s': State)
    requires Vacant(s, l) && s.backend.SharedPtr? && s.slot == Some(o) && o in s.objs
    requires drain == Draining(s, l, o) && GoesOn(drain, l, n, s')
    ensures GoesOn(Set(s, l, At(DStart, None)), l, n + 1, s')
  {
    ExchangesOut(s, l, o);
    OneMore(Set(s, l, At(DStart, None)), l, drain, n, s');
  }

  lemma ReachesDrain(s: State, l: Loc, o: Obj, drain: State, n: nat, s': State)
    requires Vacant(s, l) && Free(s) && s.slot == Some(o) && o in s.objs && drain == Draining(s, l, o) && GoesOn(drain, l, n, s')
    ensures GoesOn(Set(s, l, At(DStart, None)), l, n + if s.backend.SharedPtr? then 1 else 3, s')
  {
    if s.backend.SharedPtr? {
      DrainsShared(s, l, o, drain, n, s');
    } else {
      DrainsLocked(s, l, o, With(s, o, s.objs[o].count, Retired(l)).(slot := None), n, s');
    }
  }

  lemma BeginsDestroy(s: State, l: Loc)
    requires Idle(s, l) && !(s.debug && Running(s, l.t) != {})
    ensures Apply(s, BeginDestroy(l)) == Set(s, l, At(DStart, None))
  {
    DestroyStarts(s, l);
  }

  /** destroyInstance empties the slot at once, whoever else holds the instance,
      unless a debug build calls it from inside a callback of its own thread. */
  lemma DestroyEmpties(s: State, l: Loc, o: Obj)
    requires Idle(s, l) && s.slot == Some(o) && !(s.debug && Running(s, l.t) != {})
    ensures o in s.objs && Draining(s, l, o).slot == None
    ensures GoesOn(Apply(s, BeginDestroy(l)), l, if s.backend.SharedPtr? then 1 else 3, Draining(s, l, o))
  {
    IdleIs(s, l);
    SlotCount(s, o);
    BeginsDestroy(s, l);
    Drained(s, l, o, Draining(s, l, o));
  }

  lemma Drained(s: State, l: Loc, o: Obj, drain: State)
    requires Vacant(s, l) && Free(s) && s.slot == Some(o) && o in s.objs && drain == Draining(s, l, o)
    ensures GoesOn(Set(s, l, At(DStart, None)), l, if s.backend.SharedPtr? then 1 else 3, drain)
  {
    Here(drain, l);
    ReachesDrain(s, l, o, drain, 0, drain);
  }

  /** While others hold it, the drain reads the count and changes nothing; */
  lemma DrainWaits(s: State, l: Loc, o: Obj)
    requires Vacant(s, l) && o in s.objs && s.objs[o].count > 1
    ensures Next(Draining(s, l, o), Go(l), Draining(s, l, o))
  {
    DrainIs(Draining(s, l, o), l, o);
  }

  lemma DrainIs(s: State, l: Loc, o: Obj)
    requires l in s.frames && s.frames[l].pc == DDrain && s.frames[l].own == Some(o) && o in s.objs
    ensures DestroyStep(s, l) == if s.objs[o].count > 1 then s else Set(s, l, At(DReady, Some(o)))
  {
  }

  lemma DrainEnds(b: State, l: Loc, o: Obj)
    requires Vacant(b, l)
    ensures GoesOn(Set(With(b, o, 1, Retired(l)), l, At(DDrain, Some(o))), l, 1,
                   Set(With(b, o, 1, Retired(l)), l, At(DReady, Some(o))))
  {
    DrainIs(Set(With(b, o, 1, Retired(l)), l, At(DDrain, Some(o))), l, o);
    FramesReset(b.frames, l, At(DDrain, Some(o)), At(DReady, Some(o)));
    OneStep(Set(With(b, o, 1, Retired(l)), l, At(DDrain, Some(o))), l,
            Set(With(b, o, 1, Retired(l)), l, At(DReady, Some(o))));
  }

  lemma Resets(b: State, l: Loc, o: Obj)
    requires Vacant(b, l)
    ensures GoesOn(Set(With(b, o, 1, Retired(l)), l, At(DReady, Some(o))), l, 1,
                   Set(With(b, o, 0, Destructing(l)), l, Frame(Dtor, None, None, Some(o), Return)))
  {
    ReleaseLast(Set(With(b, o, 1, Retired(l)), l, At(DReady, Some(o))), l, o, At(Return, None));
    FramesReset(b.frames, l, At(DReady, Some(o)), Frame(Dtor, None, None, Some(o), Return));
    OneStep(Set(With(b, o, 1, Retired(l)), l, At(DReady, Some(o))), l,
            Set(With(b, o, 0, Destructing(l)), l, Frame(Dtor, None, None, Some(o), Return)));
  }

  /** and with no other reference destroyInstance destroys the instance and
      returns, leaving an empty slot. */
  lemma DestroyFrees(s: State, l: Loc, o: Obj)
    requires Idle(s, l) && s.slot == Some(o) && !(s.debug && Running(s, l.t) != {})
    requires o in s.objs && s.objs[o].count == 1
    ensures GoesOn(Apply(s, BeginDestroy(l)), l, if s.backend.SharedPtr? then 4 else 6, With(s, o, 0, Freed).(slot := None))
  {
    IdleIs(s, l);
    DestroyStarts(s, l);
    var b := s.(slot := None);
    var ready, dying, end := Set(With(b, o, 1, Retired(l)), l, At(DReady, Some(o))),
      Set(With(b, o, 0, Destructing(l)), l, Frame(Dtor, None, None, Some(o), Return)), With(b, o, 0, Freed);
    DrainEnds(b, l, o);
    Resets(b, l, o);
    EndsDestructor(b, l, o, Return);
    Here(end, l);
    OneMore(dying, l, end, 0, end);
    OneMore(ready, l, dying, 1, end);
    OneMore(Draining(s, l, o), l, ready, 2, end);
    ReachesDrain(s, l, o, Draining(s, l, o), 3, end);
  }

  lemma FindsEmpty(b: State, l: Loc)
    requires Vacant(b, l) && b.backend.SharedPtr? && b.slot == None
    ensures GoesOn(Set(b, l, At(DStart, None)), l, 1,
                   b)
  {
    FramesReset(b.frames, l, At(DStart, None), At(DStart, None));
    OneStep(Set(b, l, At(DStart, None)), l,
            b);
  }

  lemma SwapsNothing(b: State, l: Loc)
    requires Vacant(b, l) && b.slot == None
    ensures GoesOn(Set(b, l, At(DExcl, None)), l, 1,
                   Set(b, l, At(DSwapped, None)))
  {
    FramesReset(b.frames, l, At(DExcl, None), At(DSwapped, None));
    OneStep(Set(b, l, At(DExcl, None)), l,
            Set(b, l, At(DSwapped, None)));
  }

  lemma UnlocksNothing(b: State, l: Loc)
    requires Vacant(b, l) && b.writer == Unowned
    ensures GoesOn(Set(Locked(b, l), l, At(DSwapped, None)), l, 1,
                   b)
  {
    FramesReset(b.frames, l, At(DSwapped, None), At(DSwapped, None));
    OneStep(Set(Locked(b, l), l, At(DSwapped, None)), l,
            b);
  }

  /** Over an empty slot destroyInstance returns and changes nothing. */
  lemma DestroyFindsNone(s: State, l: Loc)
    requires Idle(s, l) && s.slot == None && !(s.debug && Running(s, l.t) != {})
    ensures GoesOn(Apply(s, BeginDestroy(l)), l, if s.backend.SharedPtr? then 1 else 3, s)
  {
    IdleIs(s, l);
    DestroyStarts(s, l);
    var start, b := Set(s, l, At(DStart, None)), Locked(s, l);
    if s.backend.SharedPtr? {
      FindsEmpty(s, l);
      Here(s, l);
    OneMore(start, l, s, 0, s);
    } else {
      LocksToDestroy(s, l);
      SwapsNothing(b, l);
      UnlocksNothing(s, l);
      Here(s, l);
    OneMore(Set(b, l, At(DSwapped, None)), l, s, 0, s);
      OneMore(Set(b, l, At(DExcl, None)), l, Set(b, l, At(DSwapped, None)), 1, s);
      OneMore(start, l, Set(b, l, At(DExcl, None)), 2, s);
    }
  }

  // ----- waiting for the lock -----

  ghost predicate SomeHolds(s: State, shared: bool) {
    exists k :: k in s.frames && (if shared then HoldsShared(s.frames[k].pc) else HoldsExclusive(s.frames[k].pc))
  }

  /** The innermost call of a thread has to wait for the lock if and only if the
      slot is lock-guarded and it is a reader while some call writes, or a writer
      while some call reads or writes; readers do not keep each other waiting. */
  lemma BlockedIff(s: State, l: Loc)
    requires Inv(s) && Top(s, l) && s.frames[l].pc != CFatal && s.frames[l].pc != DAssert
    ensures !Enabled(s, Go(l)) <==>
              && s.backend.Intrusive?
              && ((s.frames[l].pc == WStart && SomeHolds(s, false))
                  || ((s.frames[l].pc == CNew || s.frames[l].pc == DStart) && (SomeHolds(s, false) || SomeHolds(s, true))))
  {
    LockIsHeld(s);
    FrameIs(s, l);
  }

  lemma LockIsHeld(s: State)
    requires Inv(s)
    ensures s.writer != Unowned <==> SomeHolds(s, false)
    ensures s.readers != {} <==> SomeHolds(s, true)
  {
    if k :| k in s.frames && HoldsExclusive(s.frames[k].pc) { FrameIs(s, k); }
    if k :| k in s.frames && HoldsShared(s.frames[k].pc) { FrameIs(s, k); }
  }
}
