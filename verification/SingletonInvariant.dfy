/** What every reachable state of the singleton protocol keeps: counts are the
    numbers of references, the lock is held by exactly the calls that claim it,
    and every call agrees with the history of the objects it holds. */
module SingletonInvariant {
  import opened SingletonProtocol

  /** The places an owning pointer can live: the slot and two locals of a call. */
  datatype Holder = SlotRef | OwnRef(l: Loc) | TmpRef(l: Loc)

  function RefAt(s: State, h: Holder): Ref {
    match h
    case SlotRef => s.slot
    case OwnRef(l) => if l in s.frames then s.frames[l].own else None
    case TmpRef(l) => if l in s.frames then s.frames[l].tmp else None
  }

  /** All references naming `o`. */
  ghost function Holders(s: State, o: Obj): set<Holder> {
    (if s.slot == Some(o) then {SlotRef} else {})
    + (set l | l in s.frames && s.frames[l].own == Some(o) :: OwnRef(l))
    + (set l | l in s.frames && s.frames[l].tmp == Some(o) :: TmpRef(l))
  }

  lemma HoldersAre(s: State, o: Obj)
    ensures forall h :: h in Holders(s, o) <==> RefAt(s, h) == Some(o)
  {
    forall h ensures h in Holders(s, o) <==> RefAt(s, h) == Some(o) {
      match h
      case SlotRef =>
      case OwnRef(l) =>
      case TmpRef(l) =>
    }
  }

  predicate HoldsShared(pc: Pc) {
    pc == WShared || pc == WRead || pc == WRetained
  }

  predicate HoldsExclusive(pc: Pc) {
    || pc == CExcl || pc == CCopy || pc == CStored || pc == CLost
    || pc == DExcl || pc == DSwapped
  }

  /** What `own` is to a call at `pc`. */
  datatype Role = Idle | User | Maker | Drainer

  function RoleOf(pc: Pc): Role {
    match pc
    case WRetained => User
    case WHeld => User
    case WRunning => User
    case WDrop => User
    case CStored => User
    case CWonDrop => User
    case CNew => Maker
    case CExcl => Maker
    case CCopy => Maker
    case CLost => Maker
    case CExpected => Maker
    case CLostDrop => Maker
    case DSwapped => Drainer
    case DDrain => Drainer
    case DReady => Drainer
    case _ => Idle
  }

  /** The calls of thread `t` whose callback is running. */
  ghost function Running(s: State, t: nat): set<Loc> {
    set l | l in s.frames && l.t == t && s.frames[l].pc == WRunning
  }

  predicate HasPhase(s: State, o: Ref, p: Phase) {
    o.Some? && o.value in s.objs && s.objs[o.value].phase == p
  }

  /** Published, or removed from the slot and not yet released by its destroyer. */
  predicate InUse(s: State, o: Ref) {
    o.Some? && o.value in s.objs && (s.objs[o.value].phase.Published? || s.objs[o.value].phase.Retired?)
  }

  /** Which locals are set at each position. */
  predicate ShapeOk(f: Frame) {
    && (RoleOf(f.pc) == Idle ==> f.own == None)
    && (RoleOf(f.pc) != Idle && f.pc != WRetained && f.pc != WHeld && f.pc != DSwapped ==> f.own.Some?)
    && (f.pc != CCopy && f.pc != CExpected ==> f.tmp == None)
    && (f.pc == CCopy ==> f.tmp == f.own)
    && (f.pc == CExpected ==> f.tmp.Some?)
    && (f.pc == Dtor ==> f.next == Return || f.next == CFatal)
    && f.pc != Return
  }

  ghost predicate FrameOk(s: State, l: Loc)
    requires l in s.frames
  {
    var f := s.frames[l];
    && ShapeOk(f)
    && (HoldsExclusive(f.pc) ==> s.writer == OwnedBy(l))
    && (HoldsShared(f.pc) ==> l in s.readers)
    && (RoleOf(f.pc) == User && f.own.Some? ==> InUse(s, f.own))
    && (RoleOf(f.pc) == Maker ==> HasPhase(s, f.own, Fresh(l)))
    && (RoleOf(f.pc) == Drainer && f.own.Some? ==> HasPhase(s, f.own, Retired(l)))
    && (f.pc == CExpected ==> InUse(s, f.tmp))
    && (f.pc == CCopy || f.pc == DSwapped ==> s.slot == None)
    && (f.pc == WRead ==> f.ptr == s.slot)
    && (f.pc == CBuild ==> HasPhase(s, f.ptr, Fresh(l)) && Holders(s, f.ptr.value) == {})
    && (f.pc == Dtor ==> HasPhase(s, f.ptr, Destructing(l)))
    && (f.pc == DReady ==> Holders(s, f.own.value) == {OwnRef(l)})
  }

  /** The call that owns an object in a phase that names one. */
  predicate OwnedAt(s: State, o: Obj, l: Loc) {
    && l in s.frames
    && ((s.frames[l].own == Some(o) && (RoleOf(s.frames[l].pc) == Maker || RoleOf(s.frames[l].pc) == Drainer))
        || (s.frames[l].ptr == Some(o) && (s.frames[l].pc == CBuild || s.frames[l].pc == Dtor)))
  }

  ghost predicate ObjOk(s: State, o: Obj)
    requires o in s.objs
  {
    && s.objs[o].count == |Holders(s, o)|
    && (s.slot == Some(o) <==> s.objs[o].phase == Published)
    && match s.objs[o].phase {
         case Fresh(l) => OwnedAt(s, o, l)
         case Published => true
         case Retired(l) => OwnedAt(s, o, l)
         case Destructing(l) => OwnedAt(s, o, l) && Holders(s, o) == {}
         case Freed => Holders(s, o) == {}
       }
  }

  predicate LockOk(s: State) {
    && (s.writer.OwnedBy? ==> s.readers == {} && s.writer.holder in s.frames && HoldsExclusive(s.frames[s.writer.holder].pc))
    && (forall l :: l in s.readers ==> l in s.frames && HoldsShared(s.frames[l].pc))
    && (s.backend.SharedPtr? ==> Free(s))
  }

  /** Only the innermost call of a thread is outside user code. */
  predicate OnStack(s: State, l: Loc) {
    l.i > 0 ==> Loc(l.t, l.i - 1) in s.frames && Nestable(s.frames[Loc(l.t, l.i - 1)])
  }

  predicate StackOk(s: State) {
    forall l {:trigger OnStack(s, l)} :: l in s.frames ==> OnStack(s, l)
  }

  ghost predicate DepthOk(s: State) {
    forall t :: Depth(s, t) == |Running(s, t)|
  }

  /** No destroyInstance call runs inside one of its own thread's callbacks. */
  ghost predicate GuardOk(s: State) {
    s.debug ==>
      forall l, k :: l in s.frames && InDestroy(s.frames[l].pc) && k in Running(s, l.t) ==> l.i < k.i
  }

  ghost predicate FramesOk(s: State) {
    forall l {:trigger FrameOk(s, l)} :: l in s.frames ==> FrameOk(s, l)
  }

  ghost predicate ObjsOk(s: State) {
    && (s.slot.Some? ==> s.slot.value in s.objs)
    && forall o {:trigger ObjOk(s, o)} :: o in s.objs ==> ObjOk(s, o)
  }

  /** The part of the invariant that does not speak of objects. */
  ghost predicate ShellOk(s: State) {
    LockOk(s) && StackOk(s) && DepthOk(s) && GuardOk(s)
  }

  ghost predicate Inv(s: State) {
    ShellOk(s) && FramesOk(s) && ObjsOk(s)
  }

  lemma InitInv(s: State)
    requires Init(s)
    ensures Inv(s)
  {
    forall t ensures Depth(s, t) == |Running(s, t)| {
      assert Running(s, t) == {};
    }
  }

  // ----- how one step changes the references -----

  /** `a` and `b` collect where `f` and `g` give `o`; they differ at `drop` and `add` only. */
  lemma Rehung(f: Holder -> Ref, g: Holder -> Ref, o: Obj,
               a: set<Holder>, b: set<Holder>, drop: set<Holder>, add: set<Holder>)
    requires forall h :: h in a <==> f(h) == Some(o)
    requires forall h :: h in b <==> g(h) == Some(o)
    requires forall h :: h !in drop && h !in add ==> g(h) == f(h)
    requires forall h :: h in drop ==> f(h) == Some(o) && g(h) != Some(o)
    requires forall h :: h in add ==> f(h) != Some(o) && g(h) == Some(o)
    ensures b == a - drop + add && |b| == |a| - |drop| + |add|
  {
    assert b == a - drop + add;
    assert drop <= a;
    assert a == (a - drop) + drop;
    assert (a - drop) !! add;
  }

  lemma Others(f: Holder -> Ref, g: Holder -> Ref, x: Obj,
               a: set<Holder>, b: set<Holder>, changed: set<Holder>)
    requires forall h :: h in a <==> f(h) == Some(x)
    requires forall h :: h in b <==> g(h) == Some(x)
    requires forall h :: h !in changed ==> g(h) == f(h)
    requires forall h :: h in changed ==> f(h) != Some(x) && g(h) != Some(x)
    ensures a == b
  {
  }

  lemma Changed(s: State, s': State, o: Obj, drop: set<Holder>, add: set<Holder>)
    requires forall h :: h !in drop && h !in add ==> RefAt(s', h) == RefAt(s, h)
    requires forall h :: h in drop ==> RefAt(s, h) == Some(o) && RefAt(s', h) == None
    requires forall h :: h in add ==> RefAt(s, h) == None && RefAt(s', h) == Some(o)
    ensures Holders(s', o) == Holders(s, o) - drop + add
    ensures |Holders(s', o)| == |Holders(s, o)| - |drop| + |add|
    ensures forall x :: x != o ==> Holders(s', x) == Holders(s, x)
  {
    var f, g := h => RefAt(s, h), h => RefAt(s', h);
    HoldersAre(s, o);
    HoldersAre(s', o);
    Rehung(f, g, o, Holders(s, o), Holders(s', o), drop, add);
    forall x | x != o ensures Holders(s', x) == Holders(s, x) {
      HoldersAre(s, x);
      HoldersAre(s', x);
      Others(f, g, x, Holders(s, x), Holders(s', x), drop + add);
    }
  }
}
