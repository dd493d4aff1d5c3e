/** The reference-counted singleton of include/luthier/Common/Singleton.h as a
    transition system.

    Any number of threads run nested calls of withInstance, createInstance and
    destroyInstance.  Every lock acquire and release, slot read, retain,
    release, swap, compare-exchange, count read and callback entry and exit is
    one step; atomics are sequentially consistent.  Both storage backends share
    the public operations, so one machine models both and `backend` selects how
    loadInstance, publish and unpublish run. */
module SingletonProtocol {

  /** The identity of a constructed object; an identity is never reused. */
  type Obj = nat

  /** An owning or raw pointer to an object, or null. */
  datatype Ref = None | Some(value: Obj)

  datatype Backend = SharedPtr | Intrusive

  /** A call record: the `i`-th nested call of thread `t`. */
  datatype Loc = Loc(t: nat, i: nat)

  function Above(l: Loc): Loc {
    Loc(l.t, l.i + 1)
  }

  /** The exclusive owner of the lock. */
  datatype Owner = Unowned | OwnedBy(holder: Loc)

  /** Where a call is. */
  datatype Pc =
      // withInstance
    | WStart      // about to load the slot
    | WShared     // shared lock held, slot not read
    | WRead       // pointer read, not yet retained
    | WRetained   // retained, shared lock still held
    | WHeld       // `Held` is complete
    | WRunning    // inside the callback
    | WDrop       // callback left, `Held` not yet released
      // createInstance
    | CBuild      // inside the constructor
    | CNew        // `New` adopted the object
    | CExcl       // exclusive lock held
    | CCopy       // slot seen empty, by-value copy of `New` made
    | CStored     // copy swapped into the slot, lock held
    | CLost       // slot seen full, lock held
    | CExpected   // failed compare-exchange, `Expected` holds the winner
    | CWonDrop    // published, `New` not yet released
    | CLostDrop   // not published, `New` not yet released
    | CFatal      // "Called createInstance() twice."
      // destroyInstance
    | DStart      // about to empty the slot
    | DExcl       // exclusive lock held
    | DSwapped    // slot emptied into `Old`, lock held
    | DDrain      // reading the use count of `Doomed`
    | DReady      // a count of 1 was read
    | DAssert     // the debug assertion failed
      // inside the destructor that a release of this call runs
    | Dtor
    | Return

  /** A call: its position and its locals.  `own` is the `Ref` local (`Held`,
      `New`, `Old`, `Doomed`), `tmp` a second owning temporary (the by-value
      argument of the slot's assignment, or `Expected`), `ptr` a raw pointer
      (the one just read, the object under construction or destruction) and
      `next` what follows a destructor. */
  datatype Frame = Frame(pc: Pc, own: Ref, tmp: Ref, ptr: Ref, next: Pc)

  function At(pc: Pc, own: Ref): Frame {
    Frame(pc, own, None, None, Return)
  }

  /** How far an object has come.  Only `count` below is a field of the real
      object; the phase records history and no step's guard reads it. */
  datatype Phase =
    | Fresh(at: Loc)         // under construction, or built and not published
    | Published              // in the slot
    | Retired(at: Loc)       // removed from the slot by the destroyInstance at `at`
    | Destructing(at: Loc)   // its destructor runs at `at`
    | Freed

  datatype ObjState = ObjState(count: int, phase: Phase)

  datatype State = State(
    backend: Backend,
    debug: bool,              // whether NDEBUG is undefined
    slot: Ref,
    writer: Owner,      // exclusive owner of liveMutex
    readers: set<Loc>,        // shared owners of liveMutex
    depth: map<nat, int>,     // WithInstanceDepth of each thread
    objs: map<Obj, ObjState>,
    frames: map<Loc, Frame>)

  /** A thread enters a call, or the call at `l` takes its next step. */
  datatype Step =
    | BeginWith(l: Loc)
    | BeginCreate(l: Loc, o: Obj)
    | BeginDestroy(l: Loc)
    | Go(l: Loc)

  predicate Init(s: State) {
    s == State(s.backend, s.debug, None, Unowned, {}, map[], map[], map[])
  }

  function Depth(s: State, t: nat): int {
    if t in s.depth then s.depth[t] else 0
  }

  /** User code runs here, so further calls may be made from it. */
  predicate Nestable(f: Frame) {
    f.pc == WRunning || f.pc == CBuild || f.pc == Dtor
  }

  predicate CanCall(s: State, l: Loc) {
    && l !in s.frames
    && (l.i == 0 || (Loc(l.t, l.i - 1) in s.frames && Nestable(s.frames[Loc(l.t, l.i - 1)])))
  }

  predicate Free(s: State) {
    s.writer == Unowned && s.readers == {}
  }

  predicate Enabled(s: State, step: Step) {
    match step
    case BeginWith(l) => CanCall(s, l)
    case BeginCreate(l, o) => CanCall(s, l) && o !in s.objs
    case BeginDestroy(l) => CanCall(s, l)
    case Go(l) =>
      && l in s.frames
      && Above(l) !in s.frames
      && match s.frames[l].pc {
           case WStart => s.backend.Intrusive? ==> s.writer == Unowned
           case CNew => s.backend.Intrusive? ==> Free(s)
           case DStart => s.backend.Intrusive? ==> Free(s)
           case CFatal => false
           case DAssert => false
           case Return => false
           case _ => true
         }
  }

  function Set(s: State, l: Loc, f: Frame): State {
    s.(frames := s.frames[l := f])
  }

  function Leave(s: State, l: Loc): State {
    s.(frames := s.frames - {l})
  }

  function Continue(s: State, l: Loc, f: Frame): State {
    if f.pc == Return then Leave(s, l) else Set(s, l, f)
  }

  function Count(s: State, o: Ref): int {
    if o.Some? && o.value in s.objs then s.objs[o.value].count else 0
  }

  /** `n` more references to the object `o`, if there is one. */
  function AddRef(s: State, o: Ref, n: int): State {
    if o.Some? && o.value in s.objs
    then s.(objs := s.objs[o.value := s.objs[o.value].(count := s.objs[o.value].count + n)])
    else s
  }

  function Enter(s: State, o: Ref, p: Phase): State {
    if o.Some? && o.value in s.objs
    then s.(objs := s.objs[o.value := s.objs[o.value].(phase := p)])
    else s
  }

  /** `release()`: decrement, and destroy the object when the count reaches 0;
      the call goes on as `f`. */
  function Release(s: State, l: Loc, o: Ref, f: Frame): State {
    var s1 := AddRef(s, o, -1);
    if Count(s1, o) == 0
    then Set(Enter(s1, o, Destructing(l)), l, f.(pc := Dtor, ptr := o, next := f.pc))
    else Continue(s1, l, f)
  }

  /** The next step of the withInstance call at `l`. */
  function WithStep(s: State, l: Loc): State
    requires l in s.frames
  {
    var f := s.frames[l];
    match f.pc
    case WStart =>
      if s.backend.SharedPtr? then Set(AddRef(s, s.slot, 1), l, At(WHeld, s.slot))
      else Set(s.(readers := s.readers + {l}), l, At(WShared, None))
    case WShared => Set(s, l, At(WRead, None).(ptr := s.slot))
    case WRead => Set(AddRef(s, f.ptr, 1), l, At(WRetained, f.ptr))
    case WRetained => Set(s.(readers := s.readers - {l}), l, At(WHeld, f.own))
    case WHeld =>
      if f.own == None then Leave(s, l)   // "no instance": the callback is not run
      else Set(s.(depth := s.depth[l.t := Depth(s, l.t) + 1]), l, At(WRunning, f.own))
    case WRunning => Set(s.(depth := s.depth[l.t := Depth(s, l.t) - 1]), l, At(WDrop, f.own))
    case WDrop => Release(s, l, f.own, At(Return, None))
    case _ => s
  }

  /** The next step of the createInstance call at `l`. */
  function CreateStep(s: State, l: Loc): State
    requires l in s.frames
  {
    var f := s.frames[l];
    match f.pc
    case CBuild => Set(AddRef(s, f.ptr, 1), l, At(CNew, f.ptr))
    case CNew =>
      if s.backend.Intrusive? then Set(s.(writer := OwnedBy(l)), l, At(CExcl, f.own))
      else if s.slot == None
      then Set(Enter(AddRef(s, f.own, 1), f.own, Published).(slot := f.own), l, At(CWonDrop, f.own))
      else Set(AddRef(s, s.slot, 1), l, At(CExpected, f.own).(tmp := s.slot))
    case CExcl =>
      if s.slot != None then Set(s, l, At(CLost, f.own))
      else Set(AddRef(s, f.own, 1), l, At(CCopy, f.own).(tmp := f.own))
    case CCopy => Set(Enter(s, f.own, Published).(slot := f.tmp), l, At(CStored, f.own))
    case CStored => Set(s.(writer := Unowned), l, At(CWonDrop, f.own))
    case CLost => Set(s.(writer := Unowned), l, At(CLostDrop, f.own))
    case CExpected => Release(s, l, f.tmp, At(CLostDrop, f.own))
    case CWonDrop => Release(s, l, f.own, At(Return, None))
    case CLostDrop => Release(s, l, f.own, At(CFatal, None))
    case _ => s
  }

  /** The next step of the destroyInstance call at `l`. */
  function DestroyStep(s: State, l: Loc): State
    requires l in s.frames
  {
    var f := s.frames[l];
    match f.pc
    case DStart =>
      if s.backend.Intrusive? then Set(s.(writer := OwnedBy(l)), l, At(DExcl, None))
      else if s.slot == None then Leave(s, l)
      else Set(Enter(s, s.slot, Retired(l)).(slot := None), l, At(DDrain, s.slot))
    case DExcl => Set(Enter(s, s.slot, Retired(l)).(slot := None), l, At(DSwapped, s.slot))
    case DSwapped =>
      if f.own == None then Leave(s.(writer := Unowned), l)
      else Set(s.(writer := Unowned), l, At(DDrain, f.own))
    case DDrain => if Count(s, f.own) > 1 then s else Set(s, l, At(DReady, f.own))
    case DReady => Release(s, l, f.own, At(Return, None))
    case _ => s
  }

  /** The destructor at `l` ends and the object is gone. */
  function DtorStep(s: State, l: Loc): State
    requires l in s.frames
  {
    var f := s.frames[l];
    Continue(Enter(s, f.ptr, Freed), l, f.(pc := f.next, ptr := None, next := Return))
  }

  predicate InWith(pc: Pc) {
    || pc == WStart || pc == WShared || pc == WRead || pc == WRetained
    || pc == WHeld || pc == WRunning || pc == WDrop
  }

  predicate InDestroy(pc: Pc) {
    pc == DStart || pc == DExcl || pc == DSwapped || pc == DDrain || pc == DReady
  }

  function Apply(s: State, step: Step): State
    requires Enabled(s, step)
  {
    match step
    case BeginWith(l) => Set(s, l, At(WStart, None))
    case BeginCreate(l, o) =>
      Set(s.(objs := s.objs[o := ObjState(0, Fresh(l))]), l, At(CBuild, None).(ptr := Some(o)))
    case BeginDestroy(l) =>
      // the assertion at entry exists in debug builds only
      Set(s, l, At(if s.debug && Depth(s, l.t) != 0 then DAssert else DStart, None))
    case Go(l) =>
      if s.frames[l].pc == Dtor then DtorStep(s, l)
      else if InWith(s.frames[l].pc) then WithStep(s, l)
      else if InDestroy(s.frames[l].pc) then DestroyStep(s, l)
      else CreateStep(s, l)
  }

  predicate Next(s: State, step: Step, s': State) {
    Enabled(s, step) && s' == Apply(s, step)
  }

  /** `states[0]` is initial and `steps[k]` leads from `states[k]` to `states[k + 1]`. */
  ghost predicate IsRun(states: seq<State>, steps: seq<Step>) {
    && |states| == |steps| + 1
    && Init(states[0])
    && forall k {:trigger steps[k]} :: 0 <= k < |steps| ==> Next(states[k], steps[k], states[k + 1])
  }
}
