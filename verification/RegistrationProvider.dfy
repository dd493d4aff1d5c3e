/** The life of a callback provider registered with rocprofiler-sdk,
    include/luthier/Rocprofiler/ApiTableRegistrationCallbackProvider.h. */
module RegistrationProvider {
  import opened Common

  /** What a destructor or a callback ends with. */
  datatype Outcome = Completes | EndsProcess

  /** The arguments of the registration callback: the kind of table, and whether
      each table pointer is set; no array at all is `None`. */
  datatype Registration = Registration(kind: nat, count: nat, tables: Option<seq<bool>>)

  /** The array, if there is one, has `count` elements. */
  predicate Consistent(r: Registration) {
    r.tables.Some? ==> |r.tables.value| == r.count
  }

  /** The destructor's decision: an unregistered provider may always go, a
      registered one when rocprofiler-sdk is finalizing or the host has aborted. */
  function DestructorOutcome(registered: bool, finalized: Result<bool>, hostAborted: bool): Outcome {
    if !registered then Completes
    else if finalized == Error then EndsProcess
    else if finalized.value || hostAborted then Completes
    else EndsProcess
  }

  class Provider {
    const kind: nat
    const count: nat
    var successfullyRegistered: bool
    var wasRegistrationInvoked: bool
    /** For each run of the user's callback, whether it was the first. */
    var runs: seq<bool>

    /** Every run is recorded, and only the first one sees the flag unset. */
    ghost predicate Valid()
      reads this
    {
      && (wasRegistrationInvoked <==> runs != [])
      && forall i :: 0 <= i < |runs| ==> (runs[i] <==> i == 0)
    }

    /** `accepted` is the answer of rocprofiler-sdk to the registration. */
    constructor (kind: nat, count: nat, accepted: bool)
      ensures Valid() && this.kind == kind && this.count == count
      ensures successfullyRegistered == accepted && runs == []
    {
      this.kind, this.count := kind, count;
      successfullyRegistered, wasRegistrationInvoked, runs := accepted, false, [];
    }

    /** apiRegistrationCallback: the user's callback runs, and the flag is set
        after it, exactly when the arguments pass every check. */
    method ApiRegistrationCallback(r: Registration) returns (outcome: Outcome)
      requires Valid() && Consistent(r)
      modifies this
      ensures Valid() && successfullyRegistered == old(successfullyRegistered)
      ensures outcome == Completes <==>
                r.count == count && r.kind == kind && r.tables.Some? && forall i :: 0 <= i < |r.tables.value| ==> r.tables.value[i]
      ensures outcome == Completes ==> wasRegistrationInvoked && |runs| == |old(runs)| + 1
      ensures outcome == EndsProcess ==> runs == old(runs)
    {
      if r.count != count || r.kind != kind || r.tables.None? { return EndsProcess; }
      for i: nat := 0 to r.count
        invariant forall j :: 0 <= j < i ==> r.tables.value[j]
      {
        if !r.tables.value[i] { return EndsProcess; }
      }
      runs := runs + [!wasRegistrationInvoked];
      wasRegistrationInvoked := true;
      return Completes;
    }

    /** The destructor: an unregistered provider always goes, whatever
        rocprofiler-sdk's state; a registered one goes once finalization has
        begun or the host has aborted, and never on an unknown status. */
    method Destroy(finalized: Result<bool>, hostAborted: bool) returns (outcome: Outcome)
      ensures !successfullyRegistered ==> outcome == Completes
      ensures successfullyRegistered && finalized == Error ==> outcome == EndsProcess
      ensures successfullyRegistered && finalized.Ok? ==> (outcome == Completes <==> finalized.value || hostAborted)
      ensures outcome == DestructorOutcome(successfullyRegistered, finalized, hostAborted)   // the step of the runs below
    {
      if !successfullyRegistered { return Completes; }
      if finalized == Error { return EndsProcess; }
      if finalized.value { return Completes; }
      if hostAborted { return Completes; }
      return EndsProcess;
    }
  }

  // ----- runs of the process -----

  /** rocprofiler-sdk's append-only list of callbacks and its finalization, the
      flag of the terminate handler, the providers, and whether the process has
      ended. */
  datatype State = State(
    listed: seq<nat>, finalized: bool, aborted: bool,
    alive: map<nat, bool>,        // live providers, and whether they registered
    seen: set<nat>,               // all providers so far
    ended: bool)

  datatype Step =
    | Construct(id: nat, accepted: bool)
    | Fire(ok: bool)              // a table is registered: every listed callback runs; `ok` if its arguments pass
    | Finalize
    | Terminate                   // std::terminate: the handler records the abort
    | Destroy(id: nat, known: bool)  // `known` if the finalization query succeeds

  const START: State := State([], false, false, map[], {}, false)

  predicate Enabled(s: State, step: Step) {
    && !s.ended
    && match step
       case Construct(id, accepted) => id !in s.seen
       case Fire(ok) => !s.finalized     // ignored once finalization has begun
       case Destroy(id, known) => id in s.alive
       case _ => true
  }

  function Apply(s: State, step: Step): State
    requires Enabled(s, step)
  {
    match step
    case Construct(id, accepted) =>
      s.(seen := s.seen + {id}, alive := s.alive[id := accepted], listed := if accepted then s.listed + [id] else s.listed)
    case Fire(ok) => s.(ended := s.listed != [] && !ok)
    case Finalize => s.(finalized := true)
    case Terminate => s.(aborted := true)
    case Destroy(id, known) =>
      (match DestructorOutcome(s.alive[id], if known then Ok(s.finalized) else Error, s.aborted)
       case Completes => s.(alive := s.alive - {id})
       case EndsProcess => s.(ended := true))
  }

  ghost predicate IsRun(states: seq<State>, steps: seq<Step>) {
    && |states| == |steps| + 1 && states[0] == START
    && forall k {:trigger steps[k]} :: 0 <= k < |steps| ==> Enabled(states[k], steps[k]) && states[k + 1] == Apply(states[k], steps[k])
  }

  /** A callback fired now would touch a destroyed provider. */
  ghost predicate Dangling(s: State) {
    exists id :: id in s.listed && id !in s.alive
  }

  ghost predicate Inv(s: State) {
    && (forall id :: id in s.listed ==> id in s.seen)
    && (forall id :: id in s.alive ==> id in s.seen)
    && (forall id :: id in s.alive && s.alive[id] ==> id in s.listed)
    && (forall id :: id in s.listed && id in s.alive ==> s.alive[id])
    && (Dangling(s) ==> s.finalized || s.aborted)
  }

  lemma StepKeeps(s: State, step: Step)
    requires Inv(s) && Enabled(s, step)
    ensures Inv(Apply(s, step))
    ensures s.finalized ==> Apply(s, step).finalized
    ensures Apply(s, step).aborted ==> s.aborted || step == Terminate
  {
    var s' := Apply(s, step);
    if Dangling(s') {
      var id :| id in s'.listed && id !in s'.alive;
      assert id in s.listed && id !in s.alive ==> Dangling(s);
    }
  }

  /** What ends the process: destroying a registered provider on an unknown status,
      or neither during finalization nor after an abort; and a registration with
      arguments that do not pass, if any callback is listed. */
  lemma EndsIff(s: State, step: Step)
    requires Enabled(s, step)
    ensures Apply(s, step).ended <==>
              || (step.Destroy? && s.alive[step.id] && !(step.known && (s.finalized || s.aborted)))
              || (step.Fire? && !step.ok && |s.listed| > 0)
  {
  }

  lemma {:induction false} RunKeeps(states: seq<State>, steps: seq<Step>, k: nat)
    requires IsRun(states, steps) && k < |states|
    ensures Inv(states[k]) && (states[k].aborted ==> exists j :: 0 <= j < k && steps[j] == Terminate)
  {
    if k > 0 {
      RunKeeps(states, steps, k - 1);
      StepKeeps(states[k - 1], steps[k - 1]);
      assert states[k].aborted && !states[k - 1].aborted ==> steps[k - 1] == Terminate;
    }
  }

  /** Unless the host has called std::terminate before, no callback ever fires on
      a destroyed provider. */
  lemma NeverFiresOnDestroyed(states: seq<State>, steps: seq<Step>, k: nat)
    requires IsRun(states, steps) && k < |steps| && steps[k].Fire?
    requires forall j :: 0 <= j < k ==> steps[j] != Terminate
    ensures !Dangling(states[k])
  {
    RunKeeps(states, steps, k);
  }

  /** After a terminate the destructor lets a listed provider go while
      rocprofiler-sdk can still fire: this run calls into a destroyed provider. */
  lemma TerminateLeavesDangling() returns (states: seq<State>, steps: seq<Step>)
    ensures IsRun(states, steps) && |steps| == 4 && steps[3] == Fire(true) && Dangling(states[3])
  {
    var s1 := Apply(START, Construct(0, true));
    var s2 := Apply(s1, Terminate);
    var s3 := Apply(s2, Destroy(0, true));
    states := [START, s1, s2, s3, Apply(s3, Fire(true))];
    steps := [Construct(0, true), Terminate, Destroy(0, true), Fire(true)];
    assert 0 in s3.listed && 0 !in s3.alive;
  }

  /** Step `j` destroys a registered provider, with a known status, while
      rocprofiler-sdk is finalizing or after the host has aborted. */
  predicate LetsGo(states: seq<State>, steps: seq<Step>, j: nat)
    requires j < |steps| && j < |states|
  {
    && steps[j].Destroy? && steps[j].id in states[j].alive && states[j].alive[steps[j].id]
    && steps[j].known && (states[j].finalized || states[j].aborted)
  }

  /** A listed provider is gone exactly when an earlier step let it go. */
  lemma {:induction false} DanglingIffLetGo(states: seq<State>, steps: seq<Step>, k: nat)
    requires IsRun(states, steps) && k < |states|
    ensures Dangling(states[k]) <==> exists j :: 0 <= j < k && LetsGo(states, steps, j)
  {
    if k > 0 {
      DanglingIffLetGo(states, steps, k - 1);
      RunKeeps(states, steps, k - 1);
      var s, s', step := states[k - 1], states[k], steps[k - 1];
      if Dangling(s) {
        var id :| id in s.listed && id !in s.alive;
        assert id in s'.listed && id !in s'.alive;
      } else if LetsGo(states, steps, k - 1) {
        assert step.id in s'.listed && step.id !in s'.alive;
      }
    }
  }

  /** Exactly when a callback reaches a destroyed provider: an earlier step let a
      registered provider go, and that step came after a terminate. */
  lemma DanglingFireIff(states: seq<State>, steps: seq<Step>, k: nat)
    requires IsRun(states, steps) && k < |steps| && steps[k].Fire?
    ensures Dangling(states[k]) <==> exists j :: 0 <= j < k && LetsGo(states, steps, j) && states[j].aborted
  {
    DanglingIffLetGo(states, steps, k);
    if Dangling(states[k]) {
      var j :| 0 <= j < k && LetsGo(states, steps, j);
      if states[j].finalized { FinalizedStays(states, steps, j, k); }
      assert states[j].aborted;
    }
  }

  lemma StepKeepsFinalized(s: State, step: Step)
    requires Enabled(s, step) && s.finalized
    ensures Apply(s, step).finalized
  {
  }

  lemma {:induction false} FinalizedStays(states: seq<State>, steps: seq<Step>, j: nat, k: nat)
    requires IsRun(states, steps) && j <= k < |states| && states[j].finalized
    ensures states[k].finalized
  {
    if j < k {
      FinalizedStays(states, steps, j, k - 1);
      StepKeepsFinalized(states[k - 1], steps[k - 1]);
    }
  }

  /** A registered provider that is let go in a run without a terminate so far is
      let go for good: no callback ever fires again. */
  lemma LetGoIsFinal(states: seq<State>, steps: seq<Step>, j: nat, k: nat)
    requires IsRun(states, steps) && j < k < |steps| && LetsGo(states, steps, j)
    requires forall i :: 0 <= i < j ==> steps[i] != Terminate
    ensures !steps[k].Fire?
  {
    RunKeeps(states, steps, j);
    FinalizedStays(states, steps, j, k);
  }
}
