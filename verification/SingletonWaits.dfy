/** Exactly when every call of the singleton protocol returns.  A drain waits for
    callbacks on its object, a callback for the calls made from it, and those
    may drain other objects; the order of publication keeps these waits from
    forming a cycle, unless a thread waits for itself. */
module SingletonWaits {
  import Common
  import opened SingletonProtocol
  import opened SingletonInvariant
  import opened SingletonSteps
  import opened SingletonSafety
  import opened SingletonProgress

  // ----- the order of publication -----

  /** `o` is in the slot after `j` steps. */
  predicate InSlot(states: seq<State>, j: nat, o: Obj) {
    j < |states| && states[j].slot == Some(o)
  }

  ghost predicate Seen(states: seq<State>, k: nat, o: Obj) {
    exists j: nat :: j <= k && InSlot(states, j, o)
  }

  /** `o` was in the slot no later than some time at which `o2` was. */
  ghost predicate Ordered(states: seq<State>, k: nat, o: Obj, o2: Obj) {
    exists i: nat, j: nat :: i <= j <= k && InSlot(states, i, o) && InSlot(states, j, o2)
  }

  predicate Uses(s: State, l: Loc, o: Obj) {
    l in s.frames && InWith(s.frames[l].pc) && s.frames[l].own == Some(o)
  }

  predicate Drains(s: State, l: Loc, o: Obj) {
    l in s.frames && InDestroy(s.frames[l].pc) && s.frames[l].own == Some(o)
  }

  predicate Below(k: Loc, l: Loc) {
    k.t == l.t && k.i < l.i
  }

  /** Every object that a withInstance call holds has been in the slot. */
  lemma {:induction false} UsedWasSeen(states: seq<State>, steps: seq<Step>, k: nat, l: Loc, o: Obj)
    requires IsRun(states, steps) && k < |states| && Uses(states[k], l, o)
    ensures Seen(states, k, o)
  {
    if k > 0 {
      RunKeeps(states, steps, k - 1);
      UseComesFrom(states[k - 1], steps[k - 1], states[k], l, o);
      if states[k - 1].slot == Some(o) {
        assert InSlot(states, k - 1, o);
      } else {
        UsedWasSeen(states, steps, k - 1, l, o);
      }
    }
  }

  lemma UseComesFrom(s: State, step: Step, s': State, l: Loc, o: Obj)
    requires Inv(s) && Next(s, step, s') && Uses(s', l, o)
    ensures s.slot == Some(o) || Uses(s, l, o)
  {
    if step.l != l {
      StepElsewhere(s, step);
    } else if step.Go? {
      OwnComesFrom(s, l, s');
    }
  }

  /** No call turns into another operation, but for the destructors it runs. */
  lemma SameOperation(s: State, l: Loc, s': State)
    requires FramesOk(s) && Next(s, Go(l), s') && l in s'.frames
    ensures InWith(s'.frames[l].pc) ==> InWith(s.frames[l].pc)
    ensures InDestroy(s'.frames[l].pc) ==> InDestroy(s.frames[l].pc)
  {
    GoIs(s, l, s');
    if s.frames[l].pc == Dtor {
      FrameIs(s, l);
    } else if InWith(s.frames[l].pc) {
      StaysWith(s, l);
    } else if InDestroy(s.frames[l].pc) {
      StaysDestroy(s, l);
    } else {
      StaysCreate(s, l);
    }
  }

  lemma StaysWith(s: State, l: Loc)
    requires Top(s, l) && InWith(s.frames[l].pc)
    ensures l in WithStep(s, l).frames ==> !InDestroy(WithStep(s, l).frames[l].pc)
  {
  }

  lemma StaysDestroy(s: State, l: Loc)
    requires Top(s, l) && InDestroy(s.frames[l].pc)
    ensures l in DestroyStep(s, l).frames ==> !InWith(DestroyStep(s, l).frames[l].pc)
  {
  }

  lemma ReleaseStays(s: State, l: Loc, r: Ref, f: Frame)
    requires !InWith(f.pc) && !InDestroy(f.pc)
    ensures l in Release(s, l, r, f).frames ==> !InWith(Release(s, l, r, f).frames[l].pc) && !InDestroy(Release(s, l, r, f).frames[l].pc)
  {
  }

  lemma StaysCreate(s: State, l: Loc)
    requires Top(s, l) && !InWith(s.frames[l].pc) && !InDestroy(s.frames[l].pc)
    ensures l in CreateStep(s, l).frames ==> !InWith(CreateStep(s, l).frames[l].pc) && !InDestroy(CreateStep(s, l).frames[l].pc)
  {
    var f := s.frames[l];
    match f.pc
    case CExpected => ReleaseStays(s, l, f.tmp, At(CLostDrop, f.own));
    case CWonDrop => ReleaseStays(s, l, f.own, At(Return, None));
    case CLostDrop => ReleaseStays(s, l, f.own, At(CFatal, None));
    case _ =>
  }

  /** A withInstance call takes its object from the slot only. */
  lemma OwnComesFrom(s: State, l: Loc, s': State)
    requires Inv(s) && Next(s, Go(l), s') && l in s'.frames && InWith(s'.frames[l].pc)
    ensures InWith(s.frames[l].pc)
    ensures s'.frames[l].own == None || s'.frames[l].own == s.slot || s'.frames[l].own == s.frames[l].own
  {
    SameOperation(s, l, s');
    WithRefs(s, l);
  }

  /** A drain takes its object from the slot only. */
  lemma DrainComesFrom(s: State, step: Step, s': State, l: Loc, o: Obj)
    requires Inv(s) && Next(s, step, s') && Drains(s', l, o)
    ensures Drains(s, l, o) || (step == Go(l) && s.slot == Some(o))
  {
    if step.l != l {
      StepElsewhere(s, step);
    } else if step.Go? {
      SameOperation(s, l, s');
      DestroyRefs(s, l);
    }
  }

  /** A call below another one of its thread does not take the step. */
  lemma BelowWaits(s: State, step: Step, s': State, l: Loc, n: Loc)
    requires Inv(s) && Next(s, step, s') && Below(l, n) && l in s'.frames && n in s'.frames
    ensures step.l == l ==> !step.Go?
    ensures step.l != l ==> l in s.frames && s'.frames[l] == s.frames[l]
  {
    StepElsewhere(s, step);
    if step == Go(l) {
      NoneAbove(s, l, n);
    }
  }

  /** How a drain comes to stand above a callback of its own thread: it is the
      drain that takes its object while the callback already runs. */
  lemma PairComesFrom(s: State, step: Step, s': State, l: Loc, n: Loc, o: Obj, o2: Obj)
    requires Inv(s) && Next(s, step, s') && Below(l, n) && Uses(s', l, o) && Drains(s', n, o2)
    ensures Uses(s, l, o)
    ensures Drains(s, n, o2) || (step == Go(n) && s.slot == Some(o2))
  {
    BelowWaits(s, step, s', l, n);
    if step.l == l {
      BeginsEmpty(s, step, s');
    }
    DrainComesFrom(s, step, s', n, o2);
  }

  lemma BeginsEmpty(s: State, step: Step, s': State)
    requires Next(s, step, s') && !step.Go?
    ensures step.l in s'.frames && s'.frames[step.l].own == None
  {
  }

  /** What a callback holds was in the slot before what a drain made from it holds. */
  lemma {:induction false} CallbackIsOlder(states: seq<State>, steps: seq<Step>, k: nat, l: Loc, n: Loc, o: Obj, o2: Obj)
    requires IsRun(states, steps) && k < |states| && Below(l, n) && Uses(states[k], l, o) && Drains(states[k], n, o2)
    ensures Ordered(states, k, o, o2)
  {
    if k > 0 {
      RunKeeps(states, steps, k - 1);
      PairComesFrom(states[k - 1], steps[k - 1], states[k], l, n, o, o2);
      if Drains(states[k - 1], n, o2) {
        CallbackIsOlder(states, steps, k - 1, l, n, o, o2);
        OrderedLater(states, k - 1, k, o, o2);
      } else {
        UsedWasSeen(states, steps, k - 1, l, o);
        var i: nat :| i <= k - 1 && InSlot(states, i, o);
        assert InSlot(states, k - 1, o2);
      }
    }
  }

  lemma OrderedLater(states: seq<State>, k: nat, m: nat, o: Obj, o2: Obj)
    requires k <= m && Ordered(states, k, o, o2)
    ensures Ordered(states, m, o, o2)
  {
  }

  // ----- an object is in the slot during one stretch of time -----

  lemma PublishedStays(s: State, step: Step, s': State, o: Obj)
    requires Inv(s) && Next(s, step, s') && o in s.objs && s.objs[o].phase.Published?
    ensures o in s'.objs && (s'.objs[o].phase.Published? || RemovedBy(s', o, step.l))
  {
    assert Advances(s, s', step.l) by { StepAdvances(s, step); }
    assert PhaseStep(s.objs[o].phase, s'.objs[o].phase, step.l);
  }

  lemma PublishedLeaves(s: State, step: Step, s': State, o: Obj)
    requires Inv(s) && Inv(s') && Next(s, step, s') && s.slot == Some(o)
    ensures s'.slot == Some(o) || RemovedBy(s', o, step.l)
  {
    assert ObjOk(s, o);
    PublishedStays(s, step, s', o);
    assert ObjOk(s', o);
  }

  lemma RemovedIsOut(s: State, o: Obj, m: Loc)
    requires ObjsOk(s) && RemovedBy(s, o, m)
    ensures s.slot != Some(o)
  {
    assert ObjOk(s, o);
  }

  lemma StaysOrLeaves(s: State, step: Step, s': State, o: Obj, m: Loc) returns (m': Loc)
    requires Inv(s) && Inv(s') && Next(s, step, s') && (s.slot == Some(o) || RemovedBy(s, o, m))
    ensures s'.slot == Some(o) || RemovedBy(s', o, m')
  {
    if s.slot == Some(o) {
      m' := step.l;
      PublishedLeaves(s, step, s', o);
    } else {
      m' := m;
      RemovedStays(s, step, o, m);
    }
  }

  lemma {:induction false} StillPublished(states: seq<State>, steps: seq<Step>, q: nat, i: nat, o: Obj) returns (m: Loc)
    requires IsRun(states, steps) && q <= i < |states| && InSlot(states, q, o)
    ensures states[i].slot == Some(o) || RemovedBy(states[i], o, m)
  {
    m := Loc(0, 0);
    if q < i {
      m := StillPublished(states, steps, q, i - 1, o);
      RunKeeps(states, steps, i - 1);
      RunKeeps(states, steps, i);
      m := StaysOrLeaves(states[i - 1], steps[i - 1], states[i], o, m);
    }
  }

  /** Between two times in the slot, an object never left it. */
  lemma NeverBack(states: seq<State>, steps: seq<Step>, q: nat, i: nat, j: nat, o: Obj)
    requires IsRun(states, steps) && q <= i <= j && InSlot(states, q, o) && InSlot(states, j, o)
    ensures InSlot(states, i, o)
  {
    var m := StillPublished(states, steps, q, i, o);
    if states[i].slot != Some(o) {
      RetiredStays(states, steps, i, j, o, m);
      RunKeeps(states, steps, j);
      RemovedIsOut(states[j], o, m);
    }
  }

  /** The first time that `o` is in the slot. */
  ghost function First(states: seq<State>, k: nat, o: Obj): (j: nat)
    requires Seen(states, k, o)
    ensures j <= k && InSlot(states, j, o) && forall i: nat :: i < j ==> !InSlot(states, i, o)
  {
    if k == 0 || !Seen(states, k - 1, o) then k else First(states, k - 1, o)
  }

  /** Ordered objects were published in this order. */
  lemma OrderedFirst(states: seq<State>, steps: seq<Step>, k: nat, o: Obj, o2: Obj)
    requires IsRun(states, steps) && k < |states| && Ordered(states, k, o, o2) && o != o2
    ensures Seen(states, k, o) && Seen(states, k, o2) && First(states, k, o) < First(states, k, o2)
  {
    var i: nat, j: nat :| i <= j <= k && InSlot(states, i, o) && InSlot(states, j, o2);
    var p, q := First(states, k, o), First(states, k, o2);
    if q <= p {
      assert p <= i;
      NeverBack(states, steps, q, i, j, o2);
    }
  }

  // ----- who waits for whom -----

  /** No call has ended the process and no call can take a step that changes the state. */
  ghost predicate Stuck(s: State) {
    NoneFatal(s) && forall l :: !CanMove(s, l)
  }

  lemma StuckIsFree(s: State)
    requires Inv(s) && Stuck(s)
    ensures Free(s)
  {
    if s.writer.OwnedBy? {
      LockHolderMoves(s, s.writer.holder);
    } else if s.readers != {} {
      var l :| l in s.readers;
      LockHolderMoves(s, l);
    }
  }

  lemma StuckSpins(s: State, n: Loc)
    requires Inv(s) && Stuck(s) && Top(s, n)
    ensures Spinning(s, n) && s.frames[n].own.Some? && Drains(s, n, s.frames[n].own.value)
  {
    StuckIsFree(s);
    FrameIs(s, n);
    if !Spinning(s, n) {
      Moves(s, n);
    }
  }

  /** A drain that waits in a stuck state waits for a callback below another drain. */
  lemma WaitsForCallback(s: State, m: Loc, o: Obj) returns (k: Loc, n: Loc)
    requires Inv(s) && Stuck(s) && Top(s, m) && Drains(s, m, o)
    ensures Uses(s, k, o) && s.frames[k].pc == WRunning && k != m
    ensures Below(k, n) && Top(s, n) && Spinning(s, n) && s.frames[n].own.Some?
    ensures k.t == m.t ==> SelfHeld(s, k, m, o)
  {
    StuckSpins(s, m);
    k := AnotherHolder(s, m, o);
    n := InnermostCall(s, k);
    StuckSpins(s, n);
    FrameIs(s, k);
    assert n != k;
    DownwardClosed(s, n, k.i);
    assert k == Loc(n.t, k.i);
    if k.t == m.t {
      NoneAbove(s, m, k);
    }
  }

  lemma DifferentDrains(s: State, m: Loc, n: Loc, o: Obj, o2: Obj)
    requires FramesOk(s) && Drains(s, m, o) && Drains(s, n, o2) && m != n
    ensures o != o2
  {
    FrameIs(s, m);
    FrameIs(s, n);
  }

  /** Following the waits, each drained object was published after the one
      before, so the chain ends at a thread that waits for itself. */
  lemma {:induction false} WaitsEndAtSelf(states: seq<State>, steps: seq<Step>, m: Loc, o: Obj) returns (k: Loc, l: Loc, x: Obj)
    requires IsRun(states, steps) && Stuck(states[|steps|]) && Top(states[|steps|], m) && Drains(states[|steps|], m, o)
    requires Seen(states, |steps|, o)
    ensures SelfHeld(states[|steps|], k, l, x)
    decreases |steps| - First(states, |steps|, o)
  {
    var e := |steps|;
    var s := states[e];
    RunKeeps(states, steps, e);
    var n;
    k, n := WaitsForCallback(s, m, o);
    if k.t == m.t {
      l, x := m, o;
    } else {
      var o2 := s.frames[n].own.value;
      CallbackIsOlder(states, steps, e, k, n, o, o2);
      DifferentDrains(s, m, n, o, o2);
      OrderedFirst(states, steps, e, o, o2);
      k, l, x := WaitsEndAtSelf(states, steps, n, o2);
    }
  }

  /** At the end of any run without a fatal call, as long as a call is pending,
      some call can move or a thread waits for itself. */
  lemma NoDeadlock(states: seq<State>, steps: seq<Step>, l: Loc)
    requires IsRun(states, steps) && NoneFatal(states[|steps|]) && l in states[|steps|].frames
    ensures (exists n :: CanMove(states[|steps|], n)) || exists k, m, o :: SelfHeld(states[|steps|], k, m, o)
  {
    var e := |steps|;
    var s := states[e];
    RunKeeps(states, steps, e);
    if Stuck(s) {
      var m := InnermostCall(s, l);
      StuckSpins(s, m);
      var o := s.frames[m].own.value;
      var k, n := WaitsForCallback(s, m, o);
      UsedWasSeen(states, steps, e, k, o);
      var x, y, z := WaitsEndAtSelf(states, steps, m, o);
    }
  }

  /** When no call has ended the process and none can move any more, every call
      has returned if and only if no thread drains what its own callback holds. */
  lemma EveryCallReturns(states: seq<State>, steps: seq<Step>)
    requires IsRun(states, steps) && Stuck(states[|steps|])
    ensures states[|steps|].frames == map[] <==> forall k, l, o :: !SelfHeld(states[|steps|], k, l, o)
  {
    var s := states[|steps|];
    if s.frames != map[] {
      var l :| l in s.frames;
      NoDeadlock(states, steps, l);
    }
  }

  /** In a debug build every call has returned. */
  lemma DebugReturns(states: seq<State>, steps: seq<Step>)
    requires IsRun(states, steps) && Stuck(states[|steps|]) && states[|steps|].debug
    ensures states[|steps|].frames == map[]
  {
    forall k, l, o ensures !SelfHeld(states[|steps|], k, l, o) {
      DebugNeverSelfHeld(states, steps, |steps|, k, l, o);
    }
    EveryCallReturns(states, steps);
  }

  // ----- the condition at the call -----

  /** The callback at `k` runs on the instance in the slot. */
  predicate RunsOnSlot(s: State, k: Loc) {
    k in s.frames && s.frames[k].pc == WRunning && s.slot.Some? && s.frames[k].own == s.slot
  }

  /** The step empties the slot. */
  predicate Unpublishes(s: State, step: Step) {
    && step.Go? && step.l in s.frames && s.slot.Some?
    && (s.frames[step.l].pc == DExcl || (s.frames[step.l].pc == DStart && s.backend.SharedPtr?))
  }

  /** A destroyInstance call removes the very instance on which a callback of
      its own thread runs. */
  ghost predicate TakesHeld(s: State, step: Step) {
    Unpublishes(s, step) && exists k :: Below(k, step.l) && RunsOnSlot(s, k)
  }

  lemma DestroyTakes(s: State, n: Loc, o: Obj)
    requires Top(s, n) && InDestroy(s.frames[n].pc) && !Drains(s, n, o) && Drains(DestroyStep(s, n), n, o)
    ensures Unpublishes(s, Go(n)) && s.slot == Some(o)
  {
  }

  lemma TakesIs(s: State, n: Loc, s': State, o: Obj)
    requires FramesOk(s) && Next(s, Go(n), s') && Drains(s', n, o) && !Drains(s, n, o)
    ensures Unpublishes(s, Go(n)) && s.slot == Some(o)
  {
    SameOperation(s, n, s');
    GoIs(s, n, s');
    assert s' == DestroyStep(s, n);
    DestroyTakes(s, n, o);
  }

  lemma CallbackBelow(s: State, l: Loc, n: Loc, o: Obj)
    requires StackOk(s) && Below(l, n) && n in s.frames && Uses(s, l, o)
    ensures s.frames[l].pc == WRunning
  {
    DownwardClosed(s, n, l.i);
    assert l == Loc(n.t, l.i);
  }

  /** A thread that drains what its own callback holds has taken it so. */
  lemma {:induction false} SelfHeldWasTaken(states: seq<State>, steps: seq<Step>, k: nat, l: Loc, n: Loc, o: Obj) returns (j: nat)
    requires IsRun(states, steps) && k < |states| && Below(l, n) && Uses(states[k], l, o) && Drains(states[k], n, o)
    ensures j < k && TakesHeld(states[j], steps[j])
  {
    if k == 0 {
      assert false;
    }
    j := k - 1;
    var s := states[j];
    RunKeeps(states, steps, j);
    PairComesFrom(s, steps[j], states[k], l, n, o, o);
    if Drains(s, n, o) {
      j := SelfHeldWasTaken(states, steps, j, l, n, o);
    } else {
      TakesIs(s, n, states[k], o);
      CallbackBelow(s, l, n, o);
      assert RunsOnSlot(s, l);
    }
  }

  /** The callback at `l` runs on `o`, which a later call of its thread has taken. */
  predicate Trapped(s: State, l: Loc, n: Loc, o: Obj) {
    && Below(l, n) && l in s.frames && s.frames[l].pc == WRunning && s.frames[l].own == Some(o)
    && n in s.frames && s.frames[n].own == Some(o) && (s.frames[n].pc == DSwapped || s.frames[n].pc == DDrain)
  }

  lemma TakingTraps(s: State, step: Step, s': State, l: Loc, o: Obj)
    requires Inv(s) && Next(s, step, s') && Unpublishes(s, step) && s.slot == Some(o) && Below(l, step.l) && RunsOnSlot(s, l)
    ensures Trapped(s', l, step.l, o)
  {
    GoIs(s, step.l, s');
    assert ObjOk(s, o);
    SwapIs(s, step.l, o);
  }

  lemma TrappedStays(s: State, step: Step, s': State, l: Loc, n: Loc, o: Obj)
    requires Inv(s) && Next(s, step, s') && Trapped(s, l, n, o)
    ensures Trapped(s', l, n, o)
  {
    StepElsewhere(s, step);
    if step == Go(l) {
      NoneAbove(s, l, n);
    } else if step == Go(n) {
      TrappedMoves(s, s', l, n, o);
    }
  }

  lemma TrappedMoves(s: State, s': State, l: Loc, n: Loc, o: Obj)
    requires Inv(s) && Next(s, Go(n), s') && Trapped(s, l, n, o)
    ensures n in s'.frames && s'.frames[n].own == Some(o) && s'.frames[n].pc == DDrain
  {
    GoIs(s, n, s');
    if s.frames[n].pc == DDrain {
      SelfHeldCount(s, l, n, o);
    }
  }

  lemma {:induction false} TakenIsForever(states: seq<State>, steps: seq<Step>, j: nat, k: nat, l: Loc, o: Obj)
    requires IsRun(states, steps) && j < k < |states| && Unpublishes(states[j], steps[j]) && states[j].slot == Some(o)
    requires Below(l, steps[j].l) && RunsOnSlot(states[j], l)
    ensures Trapped(states[k], l, steps[j].l, o)
  {
    RunKeeps(states, steps, k - 1);
    if j + 1 == k {
      TakingTraps(states[j], steps[j], states[k], l, o);
    } else {
      TakenIsForever(states, steps, j, k - 1, l, o);
      TrappedStays(states[k - 1], steps[k - 1], states[k], l, steps[j].l, o);
    }
  }

  /** Every call has returned at the end if and only if no destroyInstance call
      has removed an instance on which a callback of its own thread was running. */
  lemma ReturnsIff(states: seq<State>, steps: seq<Step>)
    requires IsRun(states, steps) && Stuck(states[|steps|])
    ensures states[|steps|].frames == map[] <==> forall j :: 0 <= j < |steps| ==> !TakesHeld(states[j], steps[j])
  {
    var s := states[|steps|];
    if s.frames != map[] {
      EveryCallReturns(states, steps);
      var k, l, o :| SelfHeld(s, k, l, o);
      var j := SelfHeldWasTaken(states, steps, |steps|, k, l, o);
    } else if j :| 0 <= j < |steps| && TakesHeld(states[j], steps[j]) {
      var k :| Below(k, steps[j].l) && RunsOnSlot(states[j], k);
      TakenIsForever(states, steps, j, |steps|, k, states[j].slot.value);
    }
  }

  function StepsOf(at: seq<Loc>): seq<Step> {
    seq(|at|, k requires 0 <= k < |at| => Go(at[k]))
  }

  lemma ExtendedAt(states: seq<State>, steps: seq<Step>, path: seq<State>, at: seq<Loc>, j: nat)
    requires |states| == |steps| + 1 && |path| == |at| + 1 && path[0] == states[|steps|] && j < |steps| + |at|
    ensures var all, moves, n := states + path[1..], steps + StepsOf(at), |steps|;
            if j < n then all[j] == states[j] && moves[j] == steps[j] && all[j + 1] == states[j + 1]
            else all[j] == path[j - n] && moves[j] == Go(at[j - n]) && all[j + 1] == path[j - n + 1]
  {
  }

  /** A stretch of steps of pending calls extends the run it starts from. */
  lemma StretchExtendsRun(states: seq<State>, steps: seq<Step>, path: seq<State>, at: seq<Loc>)
    requires IsRun(states, steps) && IsStretch(path, at) && path[0] == states[|steps|]
    ensures IsRun(states + path[1..], steps + StepsOf(at))
  {
    var all, moves, n := states + path[1..], steps + StepsOf(at), |steps|;
    forall j {:trigger moves[j]} | 0 <= j < |moves| ensures Next(all[j], moves[j], all[j + 1]) {
      ExtendedAt(states, steps, path, at, j);
      if j < n {
        assert Next(states[j], steps[j], states[j + 1]);
      } else {
        assert MovesTo(path[j - n], at[j - n], path[j - n + 1]);
      }
    }
  }

  /** So for any schedule of the calls that are pending after a run: it has at
      most `Work` steps, and if it ends where no call can move and none has ended
      the process, every call has returned if and only if neither the run nor the
      schedule has removed an instance held by a callback of the same thread. */
  lemma ScheduleReturnsIff(states: seq<State>, steps: seq<Step>, path: seq<State>, at: seq<Loc>)
    requires IsRun(states, steps) && IsStretch(path, at) && path[0] == states[|steps|]
    ensures |at| <= Work(path[0])
    ensures Stuck(path[|at|]) ==>
              (path[|at|].frames == map[] <==>
                 && (forall j :: 0 <= j < |steps| ==> !TakesHeld(states[j], steps[j]))
                 && (forall k :: 0 <= k < |at| ==> !TakesHeld(path[k], Go(at[k]))))
  {
    RunKeeps(states, steps, |steps|);
    WorkBoundsSchedules(path, at);
    if Stuck(path[|at|]) {
      var all, moves := states + path[1..], steps + StepsOf(at);
      StretchExtendsRun(states, steps, path, at);
      assert all[|moves|] == path[|at|];
      ReturnsIff(all, moves);
      TakesHeldInParts(states, steps, path, at);
    }
  }

  lemma TakesHeldAt(states: seq<State>, steps: seq<Step>, path: seq<State>, at: seq<Loc>, j: nat)
    requires |states| == |steps| + 1 && |path| == |at| + 1 && path[0] == states[|steps|] && j < |steps| + |at|
    ensures TakesHeld((states + path[1..])[j], (steps + StepsOf(at))[j]) <==>
              if j < |steps| then TakesHeld(states[j], steps[j]) else TakesHeld(path[j - |steps|], Go(at[j - |steps|]))
  {
    ExtendedAt(states, steps, path, at, j);
  }

  lemma TakesHeldInParts(states: seq<State>, steps: seq<Step>, path: seq<State>, at: seq<Loc>)
    requires |states| == |steps| + 1 && |path| == |at| + 1 && path[0] == states[|steps|]
    ensures var all, moves := states + path[1..], steps + StepsOf(at);
            (forall j :: 0 <= j < |moves| ==> !TakesHeld(all[j], moves[j])) <==>
              && (forall j :: 0 <= j < |steps| ==> !TakesHeld(states[j], steps[j]))
              && (forall k :: 0 <= k < |at| ==> !TakesHeld(path[k], Go(at[k])))
  {
    var all, moves, n := states + path[1..], steps + StepsOf(at), |steps|;
    if j :| 0 <= j < n && TakesHeld(states[j], steps[j]) {
      TakesHeldAt(states, steps, path, at, j);
      assert TakesHeld(all[j], moves[j]);
    } else if k :| 0 <= k < |at| && TakesHeld(path[k], Go(at[k])) {
      TakesHeldAt(states, steps, path, at, n + k);
      assert TakesHeld(all[n + k], moves[n + k]);
    } else {
      forall j | 0 <= j < |moves| ensures !TakesHeld(all[j], moves[j]) {
        TakesHeldAt(states, steps, path, at, j);
      }
    }
  }
}
