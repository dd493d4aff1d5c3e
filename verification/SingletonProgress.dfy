/** Why a call of the singleton protocol may not return: a thread that destroys
    the object its own callback holds waits forever; which other calls can move;
    and how much work the pending calls have left. */
module SingletonProgress {
  import Common
  import opened SingletonProtocol
  import opened SingletonInvariant
  import opened SingletonSteps
  import opened SingletonSafety

  // ----- destroying an object from inside a callback on it -----

  /** The callback at `k` runs on `o`, and a later call `l` of the same thread drains `o`. */
  predicate SelfHeld(s: State, k: Loc, l: Loc, o: Obj) {
    && k.t == l.t && k.i < l.i && k in s.frames && l in s.frames
    && s.frames[k].pc == WRunning && s.frames[k].own == Some(o)
    && s.frames[l].pc == DDrain && s.frames[l].own == Some(o)
  }

  lemma SelfHeldCount(s: State, k: Loc, l: Loc, o: Obj)
    requires Inv(s) && SelfHeld(s, k, l, o)
    ensures o in s.objs && s.objs[o].count > 1
  {
    assert FrameOk(s, l) && ObjOk(s, o);
    HoldersAre(s, o);
    assert OwnRef(k) in Holders(s, o) && OwnRef(l) in Holders(s, o);
    Common.SubsetCardinality({OwnRef(k), OwnRef(l)}, Holders(s, o));
  }

  lemma SelfHeldStays(s: State, step: Step, k: Loc, l: Loc, o: Obj)
    requires Inv(s) && Enabled(s, step) && SelfHeld(s, k, l, o)
    ensures SelfHeld(Apply(s, step), k, l, o)
  {
    SelfHeldCount(s, k, l, o);
    StepElsewhere(s, step);
    if step == Go(k) {
      NoneAbove(s, k, l);
    }
  }

  /** Calling destroyInstance from inside a callback on the instance it removes
      never returns: in every continuation of the run the count stays above 1
      and the call keeps draining. */
  lemma {:induction false} SelfHeldForever(states: seq<State>, steps: seq<Step>, i: nat, j: nat, k: Loc, l: Loc, o: Obj)
    requires IsRun(states, steps) && i <= j < |states| && SelfHeld(states[i], k, l, o)
    ensures SelfHeld(states[j], k, l, o) && Count(states[j], Some(o)) > 1
  {
    if i < j {
      SelfHeldForever(states, steps, i, j - 1, k, l, o);
      RunKeeps(states, steps, j - 1);
      SelfHeldStays(states[j - 1], steps[j - 1], k, l, o);
    }
    RunKeeps(states, steps, j);
    SelfHeldCount(states[j], k, l, o);
  }

  /** The depth counter of a thread is the number of its running callbacks, so
      the assertion at entry rules the hang out in debug builds. */
  lemma DebugNeverSelfHeld(states: seq<State>, steps: seq<Step>, j: nat, k: Loc, l: Loc, o: Obj)
    requires IsRun(states, steps) && j < |states| && states[j].debug
    ensures Depth(states[j], l.t) == |Running(states[j], l.t)|
    ensures !SelfHeld(states[j], k, l, o)
  {
    RunKeeps(states, steps, j);
    assert SelfHeld(states[j], k, l, o) ==> k in Running(states[j], l.t);
  }

  /** A release build, shared_ptr backend, with object 0 and no other. */
  function Alone(slot: Ref, depth: map<nat, int>, o: ObjState, frames: map<Loc, Frame>): State {
    State(SharedPtr, false, slot, Unowned, {}, depth, map[0 := o], frames)
  }

  lemma MakesInstance(s0: State, s1: State, s2: State, l: Loc)
    requires l == Loc(0, 0) && s0 == State(SharedPtr, false, None, Unowned, {}, map[], map[], map[])
    requires s1 == Alone(None, map[], ObjState(0, Fresh(l)), map[l := At(CBuild, None).(ptr := Some(0))])
    requires s2 == Alone(None, map[], ObjState(1, Fresh(l)), map[l := At(CNew, Some(0))])
    ensures Next(s0, BeginCreate(l, 0), s1) && Next(s1, Go(l), s2)
  {
  }

  lemma PublishesInstance(s2: State, s3: State, l: Loc)
    requires l == Loc(0, 0) && s2 == Alone(None, map[], ObjState(1, Fresh(l)), map[l := At(CNew, Some(0))])
    requires s3 == Alone(Some(0), map[], ObjState(2, Published), map[l := At(CWonDrop, Some(0))])
    ensures Next(s2, Go(l), s3)
  {
  }

  lemma DropsNew(s3: State, s4: State, l: Loc)
    requires l == Loc(0, 0) && s3 == Alone(Some(0), map[], ObjState(2, Published), map[l := At(CWonDrop, Some(0))])
    requires s4 == Alone(Some(0), map[], ObjState(1, Published), map[])
    ensures Next(s3, Go(l), s4)
  {
    ReleaseShared(s3, l, 0, At(Return, None));
    assert s4.frames == s3.frames - {l};
  }

  lemma EntersCallback(s4: State, s5: State, s6: State, s7: State, l: Loc)
    requires l == Loc(0, 0) && s4 == Alone(Some(0), map[], ObjState(1, Published), map[])
    requires s5 == Alone(Some(0), map[], ObjState(1, Published), map[l := At(WStart, None)])
    requires s6 == Alone(Some(0), map[], ObjState(2, Published), map[l := At(WHeld, Some(0))])
    requires s7 == Alone(Some(0), map[0 := 1], ObjState(2, Published), map[l := At(WRunning, Some(0))])
    ensures Next(s4, BeginWith(l), s5) && Next(s5, Go(l), s6) && Next(s6, Go(l), s7)
  {
  }

  lemma DestroysInside(s7: State, s8: State, s9: State, l: Loc, k: Loc)
    requires l == Loc(0, 0) && k == Loc(0, 1)
    requires s7 == Alone(Some(0), map[0 := 1], ObjState(2, Published), map[l := At(WRunning, Some(0))])
    requires s8 == s7.(frames := s7.frames[k := At(DStart, None)])
    requires s9 == Alone(None, map[0 := 1], ObjState(2, Retired(k)), map[l := At(WRunning, Some(0)), k := At(DDrain, Some(0))])
    ensures Next(s7, BeginDestroy(k), s8) && Next(s8, Go(k), s9)
  {
  }

  lemma ExtendRun(states: seq<State>, steps: seq<Step>, step: Step, s: State)
    requires IsRun(states, steps) && Next(states[|steps|], step, s)
    ensures IsRun(states + [s], steps + [step]) && (states + [s])[|steps| + 1] == s
  {
  }

  /** A release build omits the assertion: this run creates an instance, enters
      a callback on it and destroys it from there, and so never returns. */
  lemma ReleaseBuildHangs() returns (states: seq<State>, steps: seq<Step>)
    ensures IsRun(states, steps) && !states[0].debug
    ensures SelfHeld(states[|steps|], Loc(0, 0), Loc(0, 1), 0)
  {
    var l, k := Loc(0, 0), Loc(0, 1);
    var s0 := State(SharedPtr, false, None, Unowned, {}, map[], map[], map[]);
    var s1 := Alone(None, map[], ObjState(0, Fresh(l)), map[l := At(CBuild, None).(ptr := Some(0))]);
    var s2 := Alone(None, map[], ObjState(1, Fresh(l)), map[l := At(CNew, Some(0))]);
    var s3 := Alone(Some(0), map[], ObjState(2, Published), map[l := At(CWonDrop, Some(0))]);
    var s4 := Alone(Some(0), map[], ObjState(1, Published), map[]);
    var s5 := Alone(Some(0), map[], ObjState(1, Published), map[l := At(WStart, None)]);
    var s6 := Alone(Some(0), map[], ObjState(2, Published), map[l := At(WHeld, Some(0))]);
    var s7 := Alone(Some(0), map[0 := 1], ObjState(2, Published), map[l := At(WRunning, Some(0))]);
    var s8 := s7.(frames := s7.frames[k := At(DStart, None)]);
    var s9 := Alone(None, map[0 := 1], ObjState(2, Retired(k)), map[l := At(WRunning, Some(0)), k := At(DDrain, Some(0))]);
    MakesInstance(s0, s1, s2, l);
    PublishesInstance(s2, s3, l);
    DropsNew(s3, s4, l);
    EntersCallback(s4, s5, s6, s7, l);
    DestroysInside(s7, s8, s9, l, k);
    states, steps := [s0], [];
    ExtendRun(states, steps, BeginCreate(l, 0), s1);
    states, steps := states + [s1], steps + [BeginCreate(l, 0)];
    ExtendRun(states, steps, Go(l), s2);
    states, steps := states + [s2], steps + [Go(l)];
    ExtendRun(states, steps, Go(l), s3);
    states, steps := states + [s3], steps + [Go(l)];
    ExtendRun(states, steps, Go(l), s4);
    states, steps := states + [s4], steps + [Go(l)];
    ExtendRun(states, steps, BeginWith(l), s5);
    states, steps := states + [s5], steps + [BeginWith(l)];
    ExtendRun(states, steps, Go(l), s6);
    states, steps := states + [s6], steps + [Go(l)];
    ExtendRun(states, steps, Go(l), s7);
    states, steps := states + [s7], steps + [Go(l)];
    ExtendRun(states, steps, BeginDestroy(k), s8);
    states, steps := states + [s8], steps + [BeginDestroy(k)];
    ExtendRun(states, steps, Go(k), s9);
    states, steps := states + [s9], steps + [Go(k)];
  }

  /** Leaving withInstance drops exactly that call's reference, so the drain of
      the object comes one step closer to its end. */
  lemma CallbackExitDrops(s: State, l: Loc, o: Obj)
    requires Inv(s) && Top(s, l) && s.frames[l].pc == WDrop && s.frames[l].own == Some(o)
    ensures var s' := Apply(s, Go(l));
            && o in s.objs && o in s'.objs && s'.objs[o].count == s.objs[o].count - 1 >= 1
            && Holders(s', o) == Holders(s, o) - {OwnRef(l)}
  {
    DropHeld(s, l);
    DroppedAlone(s, WithStep(s, l), l, o);
  }

  lemma DroppedAlone(s: State, s': State, l: Loc, o: Obj)
    requires Inv(s) && Top(s, l) && s.frames[l].pc == WDrop && s.frames[l].own == Some(o) && s' == WithStep(s, l)
    ensures o in s.objs && o in s'.objs && s'.objs[o].count == s.objs[o].count - 1 >= 1
    ensures Holders(s', o) == Holders(s, o) - {OwnRef(l)}
  {
    FrameIs(s, l);
    OthersHold(s, l, o, OwnRef(l));
    ReleaseShared(s, l, o, At(Return, None));
    RefsMoveIs(s, s', l, o, {OwnRef(l)}, {});
    Changed(s, s', o, {OwnRef(l)}, {});
  }

  // ----- which calls can move -----

  /** No call has ended the process. */
  predicate NoneFatal(s: State) {
    forall l :: l in s.frames ==> s.frames[l].pc != CFatal && s.frames[l].pc != DAssert
  }

  /** The call at `l` can take a step that changes the state. */
  predicate CanMove(s: State, l: Loc) {
    Enabled(s, Go(l)) && Apply(s, Go(l)) != s
  }

  predicate Spinning(s: State, l: Loc) {
    l in s.frames && s.frames[l].pc == DDrain && Count(s, s.frames[l].own) > 1
  }

  lemma MayGo(s: State, l: Loc)
    requires FramesOk(s) && NoneFatal(s) && Top(s, l)
    requires Free(s) || HoldsShared(s.frames[l].pc) || HoldsExclusive(s.frames[l].pc)
    ensures Enabled(s, Go(l))
  {
    FrameIs(s, l);
  }

  lemma Moves(s: State, l: Loc)
    requires Inv(s) && NoneFatal(s) && Top(s, l) && !Spinning(s, l)
    requires Free(s) || HoldsShared(s.frames[l].pc) || HoldsExclusive(s.frames[l].pc)
    ensures CanMove(s, l)
  {
    MayGo(s, l);
    RankFalls(s, l);
  }

  /** The innermost call of the thread of `l`. */
  lemma InnermostCall(s: State, l: Loc) returns (m: Loc)
    requires StackOk(s) && l in s.frames
    ensures Top(s, m) && m.t == l.t && l.i <= m.i
    decreases |set k | k in s.frames && k.t == l.t && k.i > l.i|
  {
    if Above(l) in s.frames {
      var higher, above := (set k | k in s.frames && k.t == l.t && k.i > l.i + 1), (set k | k in s.frames && k.t == l.t && k.i > l.i);
      assert Above(l) in above && Above(l) !in higher;
      Common.SubsetCardinality(higher, above);
      m := InnermostCall(s, Above(l));
    } else {
      m := l;
    }
  }

  lemma DownwardClosed(s: State, l: Loc, i: nat)
    requires StackOk(s) && l in s.frames && i <= l.i
    ensures Loc(l.t, i) in s.frames && (i < l.i ==> Nestable(s.frames[Loc(l.t, i)]))
    decreases l.i - i
  {
    if i < l.i {
      DownwardClosed(s, l, i + 1);
      assert OnStack(s, Loc(l.t, i + 1));
    } else {
      assert l == Loc(l.t, i);
    }
  }

  lemma Second<T>(a: set<T>, x: T) returns (y: T)
    requires |a| > 1
    ensures y in a && y != x
  {
    assert |a - {x}| >= |a| - 1;
    assert a - {x} != {};
    y :| y in a - {x};
  }

  /** While a drain reads more than 1, some other call holds the object. */
  lemma AnotherHolder(s: State, m: Loc, o: Obj) returns (k: Loc)
    requires Inv(s) && Spinning(s, m) && s.frames[m].own == Some(o)
    ensures k in s.frames && k != m
    ensures s.frames[k].pc == CExpected || (RoleOf(s.frames[k].pc) == User && s.frames[k].own == Some(o))
  {
    k := AnotherHolding(s, m, o);
    OtherIsUser(s, m, k, o);
  }

  lemma OtherIsUser(s: State, m: Loc, k: Loc, o: Obj)
    requires FramesOk(s) && m in s.frames && s.frames[m].pc == DDrain && s.frames[m].own == Some(o)
    requires k != m && Holding(s, k, o)
    ensures s.frames[k].pc == CExpected || (RoleOf(s.frames[k].pc) == User && s.frames[k].own == Some(o))
  {
    FrameIs(s, m);
    FrameIs(s, k);
  }

  /** The lock is held only outside user code, so its holder can go on. */
  lemma LockHolderMoves(s: State, n: Loc)
    requires Inv(s) && NoneFatal(s) && (s.writer == OwnedBy(n) || n in s.readers)
    ensures CanMove(s, n)
  {
    assert n in s.frames && (HoldsShared(s.frames[n].pc) || HoldsExclusive(s.frames[n].pc));
    assert Above(n) in s.frames ==> OnStack(s, Above(n));
    Moves(s, n);
  }

  // ----- the work left bounds every schedule -----

  /** The most steps a call at `pc` can still take on its own. */
  function Rank(pc: Pc): nat {
    match pc
    case WStart => 8 case WShared => 7 case WRead => 6 case WRetained => 5
    case WHeld => 4 case WRunning => 3 case WDrop => 2
    case CBuild => 7 case CNew => 6 case CExcl => 5 case CCopy => 4 case CStored => 3
    case CLost => 3 case CExpected => 3 case CWonDrop => 2 case CLostDrop => 2
    case DStart => 6 case DExcl => 5 case DSwapped => 4 case DDrain => 3 case DReady => 2
    case Dtor => 1
    case CFatal => 0 case DAssert => 0 case Return => 0
  }

  datatype Token = Token(l: Loc, n: nat)

  ghost function Tokens(s: State): set<Token> {
    set l, n | l in s.frames && 0 <= n < Rank(s.frames[l].pc) :: Token(l, n)
  }

  ghost function Work(s: State): nat {
    |Tokens(s)|
  }

  predicate Lower(s: State, s': State, l: Loc)
    requires l in s.frames
  {
    l in s'.frames ==> Rank(s'.frames[l].pc) < Rank(s.frames[l].pc)
  }

  lemma WithRank(s: State, l: Loc)
    requires Top(s, l) && InWith(s.frames[l].pc)
    ensures Lower(s, WithStep(s, l), l)
  {
    var f := s.frames[l];
    if f.pc == WDrop {
      ReleaseRank(s, l, f.own, At(Return, None));
    }
  }

  lemma ReleaseRank(s: State, l: Loc, r: Ref, f: Frame)
    requires l in s.frames && Rank(f.pc) < Rank(s.frames[l].pc) && 1 < Rank(s.frames[l].pc)
    ensures Lower(s, Release(s, l, r, f), l)
  {
  }

  lemma CreateRank(s: State, l: Loc)
    requires Top(s, l) && !InWith(s.frames[l].pc) && !InDestroy(s.frames[l].pc) && 1 < Rank(s.frames[l].pc)
    ensures Lower(s, CreateStep(s, l), l)
  {
    var f := s.frames[l];
    match f.pc
    case CExpected => ReleaseRank(s, l, f.tmp, At(CLostDrop, f.own));
    case CWonDrop => ReleaseRank(s, l, f.own, At(Return, None));
    case CLostDrop => ReleaseRank(s, l, f.own, At(CFatal, None));
    case _ =>
  }

  lemma DestroyRank(s: State, l: Loc)
    requires Top(s, l) && InDestroy(s.frames[l].pc) && !Spinning(s, l)
    ensures Lower(s, DestroyStep(s, l), l)
  {
    var f := s.frames[l];
    if f.pc == DReady {
      ReleaseRank(s, l, f.own, At(Return, None));
    }
  }

  lemma DtorRank(s: State, l: Loc)
    requires l in s.frames && s.frames[l].pc == Dtor && ShapeOk(s.frames[l])
    ensures Lower(s, DtorStep(s, l), l)
  {
  }

  lemma RankFalls(s: State, l: Loc)
    requires FramesOk(s) && Enabled(s, Go(l)) && !Spinning(s, l)
    ensures Lower(s, Apply(s, Go(l)), l)
  {
    GoIs(s, l, Apply(s, Go(l)));
    if s.frames[l].pc == Dtor {
      FrameIs(s, l);
      DtorRank(s, l);
    } else if InWith(s.frames[l].pc) {
      WithRank(s, l);
    } else if InDestroy(s.frames[l].pc) {
      DestroyRank(s, l);
    } else {
      CreateRank(s, l);
    }
  }

  lemma RankDrops(s: State, l: Loc)
    requires Inv(s) && CanMove(s, l)
    ensures Lower(s, Apply(s, Go(l)), l)
  {
    RankFalls(s, l);
  }

  lemma WorkDrops(s: State, l: Loc)
    requires Inv(s) && CanMove(s, l)
    ensures Work(Apply(s, Go(l))) < Work(s)
  {
    var s' := Apply(s, Go(l));
    RankDrops(s, l);
    StepElsewhere(s, Go(l));
    var r := Rank(s.frames[l].pc);
    assert Token(l, if l in s'.frames then Rank(s'.frames[l].pc) else r - 1) in Tokens(s) - Tokens(s');
    Common.SubsetCardinality(Tokens(s'), Tokens(s));
  }

  /** The call at `l` takes a step that changes the state. */
  predicate MovesTo(s: State, l: Loc, s': State) {
    CanMove(s, l) && s' == Apply(s, Go(l))
  }

  /** A stretch of execution in which pending calls take steps that change the
      state and no new call starts. */
  ghost predicate IsStretch(path: seq<State>, at: seq<Loc>) {
    && |path| == |at| + 1
    && forall k {:trigger at[k]} :: 0 <= k < |at| ==> MovesTo(path[k], at[k], path[k + 1])
  }

  /** However the threads are scheduled, such a stretch has at most `Work` steps. */
  lemma {:induction false} WorkBoundsSchedules(path: seq<State>, at: seq<Loc>)
    requires IsStretch(path, at) && Inv(path[0])
    ensures |at| <= Work(path[0]) && Inv(path[|at|])
  {
    if at != [] {
      StretchTail(path, at);
      StretchStep(path[0], at[0], path[1]);
      WorkBoundsSchedules(path[1..], at[1..]);
    }
  }

  lemma StretchTail(path: seq<State>, at: seq<Loc>)
    requires IsStretch(path, at) && at != []
    ensures MovesTo(path[0], at[0], path[1]) && IsStretch(path[1..], at[1..])
  {
    forall k {:trigger at[1..][k]} | 0 <= k < |at[1..]| ensures MovesTo(path[1..][k], at[1..][k], path[1..][k + 1]) {
      assert MovesTo(path[k + 1], at[k + 1], path[k + 2]);
    }
  }

  lemma StretchStep(s: State, l: Loc, s': State)
    requires Inv(s) && MovesTo(s, l, s')
    ensures Inv(s') && Work(s') < Work(s)
  {
    WorkDrops(s, l);
    StepKeeps(s, Go(l));
  }

  // ----- a drain ends although new calls keep starting -----

  predicate Holding(s: State, l: Loc, o: Obj) {
    l in s.frames && (s.frames[l].own == Some(o) || s.frames[l].tmp == Some(o))
  }

  /** The work left to the calls that hold `o`. */
  ghost function HolderTokens(s: State, o: Obj): set<Token> {
    set l, n | l in s.frames && Holding(s, l, o) && 0 <= n < Rank(s.frames[l].pc) :: Token(l, n)
  }

  /** A step of a call that holds `o` and that changes the state. */
  predicate HolderSteps(s: State, step: Step, s': State, o: Obj) {
    step.Go? && Holding(s, step.l, o) && s' != s
  }

  lemma HeldBefore(s: State, s': State, l: Loc, o: Obj)
    requires Holders(s', o) <= Holders(s, o) && Holding(s', l, o)
    ensures Holding(s, l, o)
  {
    HoldersAre(s, o);
    HoldersAre(s', o);
    assert RefAt(s', OwnRef(l)) == Some(o) || RefAt(s', TmpRef(l)) == Some(o);
  }

  lemma HolderWorkDrops(s: State, step: Step, s': State, o: Obj)
    requires Inv(s) && Next(s, step, s')
    requires o in s.objs && !s.objs[o].phase.Published? && !s.objs[o].phase.Fresh?
    ensures |HolderTokens(s', o)| + (if HolderSteps(s, step, s', o) then 1 else 0) <= |HolderTokens(s, o)|
  {
    NoGainStep(s, step, s', o);
    StepElsewhere(s, step);
    forall l, n | Token(l, n) in HolderTokens(s', o) ensures Token(l, n) in HolderTokens(s, o) {
      HeldBefore(s, s', l, o);
      if l == step.l && s' != s {
        HolderMoves(s, step, s', o);
      }
    }
    if HolderSteps(s, step, s', o) {
      HolderMoves(s, step, s', o);
      var l := step.l;
      var r := Rank(s.frames[l].pc);
      assert Token(l, if l in s'.frames then Rank(s'.frames[l].pc) else r - 1) in HolderTokens(s, o) - HolderTokens(s', o);
    }
    Common.SubsetCardinality(HolderTokens(s', o), HolderTokens(s, o));
  }

  lemma HolderMoves(s: State, step: Step, s': State, o: Obj)
    requires Inv(s) && Next(s, step, s') && step.l in s.frames && s' != s
    ensures step.Go? && 0 < Rank(s.frames[step.l].pc) && Lower(s, s', step.l)
  {
    RankDrops(s, step.l);
  }

  /** How many of the steps from `i` to `j` are taken by calls that hold `o`. */
  function CountHolderSteps(states: seq<State>, steps: seq<Step>, i: nat, j: nat, o: Obj): nat
    requires i <= j < |states| && j <= |steps|
  {
    if i == j then 0
    else CountHolderSteps(states, steps, i, j - 1, o) + (if HolderSteps(states[j - 1], steps[j - 1], states[j], o) then 1 else 0)
  }

  lemma DrainSteps(states: seq<State>, steps: seq<Step>, k: nat, o: Obj, m: Loc)
    requires IsRun(states, steps) && k < |steps| && RemovedBy(states[k], o, m)
    ensures |HolderTokens(states[k + 1], o)| + (if HolderSteps(states[k], steps[k], states[k + 1], o) then 1 else 0)
            <= |HolderTokens(states[k], o)|
  {
    RunKeeps(states, steps, k);
    HolderWorkDrops(states[k], steps[k], states[k + 1], o);
  }

  /** Once an object has left the slot, the calls that hold it take no more steps
      than the work they had left then, whatever other calls start meanwhile. */
  lemma {:induction false} DrainIsBounded(states: seq<State>, steps: seq<Step>, i: nat, j: nat, o: Obj, m: Loc)
    requires IsRun(states, steps) && i <= j < |states| && RemovedBy(states[i], o, m)
    ensures CountHolderSteps(states, steps, i, j, o) + |HolderTokens(states[j], o)| <= |HolderTokens(states[i], o)|
  {
    if i < j {
      DrainIsBounded(states, steps, i, j - 1, o, m);
      RetiredStays(states, steps, i, j - 1, o, m);
      DrainSteps(states, steps, j - 1, o, m);
    }
  }

  /** And when no other call holds the object any more, the drain goes on. */
  lemma DrainIsOver(s: State, l: Loc, o: Obj)
    requires Inv(s) && NoneFatal(s) && Top(s, l) && s.frames[l].pc == DDrain && s.frames[l].own == Some(o)
    requires forall k :: k != l ==> !Holding(s, k, o)
    ensures CanMove(s, l)
  {
    if Spinning(s, l) {
      var k := AnotherHolding(s, l, o);
    } else {
      DrainMoves(s, l);
    }
  }

  lemma AnotherHolding(s: State, l: Loc, o: Obj) returns (k: Loc)
    requires Inv(s) && Spinning(s, l) && s.frames[l].own == Some(o)
    ensures k != l && Holding(s, k, o)
  {
    DrainedIs(s, l, o);
    HoldersAre(s, o);
    var h := Second(Holders(s, o), OwnRef(l));
    match h
    case SlotRef =>
    case OwnRef(n) => k := n;
    case TmpRef(n) => k := n;
  }

  lemma DrainedIs(s: State, l: Loc, o: Obj)
    requires FramesOk(s) && ObjsOk(s) && Spinning(s, l) && s.frames[l].own == Some(o)
    ensures s.slot != Some(o) && s.frames[l].tmp == None && |Holders(s, o)| > 1
  {
    FrameIs(s, l);
    assert ObjOk(s, o);
  }

  lemma DrainMoves(s: State, l: Loc)
    requires Top(s, l) && s.frames[l].pc == DDrain && !Spinning(s, l)
    ensures CanMove(s, l)
  {
    assert DestroyStep(s, l).frames[l].pc == DReady;
  }

  lemma ReleaseBuild(s: State, l: Loc, r: Ref, f: Frame)
    ensures Release(s, l, r, f).debug == s.debug && Release(s, l, r, f).backend == s.backend
  {
  }

  /** No step changes the build or the backend. */
  lemma StepBuild(s: State, l: Loc)
    requires Enabled(s, Go(l))
    ensures Apply(s, Go(l)).debug == s.debug && Apply(s, Go(l)).backend == s.backend
  {
    GoIs(s, l, Apply(s, Go(l)));
    var f := s.frames[l];
    match f.pc
    case WDrop => ReleaseBuild(s, l, f.own, At(Return, None));
    case CExpected => ReleaseBuild(s, l, f.tmp, At(CLostDrop, f.own));
    case CWonDrop => ReleaseBuild(s, l, f.own, At(Return, None));
    case CLostDrop => ReleaseBuild(s, l, f.own, At(CFatal, None));
    case DReady => ReleaseBuild(s, l, f.own, At(Return, None));
    case _ =>
  }
}
