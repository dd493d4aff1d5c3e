/** The calls of withInstance that the API-table wrappers make, placed in a run of
    the singleton protocol: whether a wrapper finds the tool is decided by the
    run, include/luthier/Common/Singleton.h:224-284. */
module WrapperCalls {
  import P = SingletonProtocol
  import I = SingletonInvariant
  import S = SingletonSafety
  import K = SingletonSteps
  import N = SingletonWaits

  /** The call at `l` that starts with step `start` and has its answer after `at` steps. */
  datatype Call = Call(start: nat, at: nat, l: P.Loc)

  /** The withInstance call at `l` has its reference, or none, and now decides. */
  predicate Decides(s: P.State, l: P.Loc) {
    l in s.frames && s.frames[l].pc == P.WHeld
  }

  /** `c` is a call of the run. */
  ghost predicate IsCall(states: seq<P.State>, steps: seq<P.Step>, c: Call) {
    && P.IsRun(states, steps) && c.start < c.at < |states| && steps[c.start] == P.BeginWith(c.l)
    && (forall k :: c.start < k <= c.at ==> c.l in states[k].frames)
    && Decides(states[c.at], c.l)
  }

  /** The call finds an instance, and the wrapper's callback runs on it. */
  predicate Found(states: seq<P.State>, c: Call)
    requires c.at < |states| && Decides(states[c.at], c.l)
  {
    states[c.at].frames[c.l].own.Some?
  }

  /** An instance is published from the start of the call to its answer. */
  ghost predicate PublishedThroughout(states: seq<P.State>, c: Call)
    requires c.at < |states|
  {
    forall k :: c.start <= k <= c.at ==> states[k].slot.Some?
  }

  /** No instance is published from the start of the call to its answer. */
  ghost predicate EmptyThroughout(states: seq<P.State>, c: Call)
    requires c.at < |states|
  {
    forall k :: c.start <= k <= c.at ==> states[k].slot == P.None
  }

  // ----- while an instance is published -----

  /** The call at `l` has not looked at the slot yet or has seen an instance. */
  predicate SeesInstance(s: P.State, l: P.Loc) {
    l in s.frames ==>
      match s.frames[l].pc
      case WStart => true
      case WShared => true
      case WRead => s.frames[l].ptr.Some?
      case WRetained => s.frames[l].own.Some?
      case WHeld => s.frames[l].own.Some?
      case _ => true
  }

  lemma SeesNext(s: P.State, step: P.Step, s': P.State, l: P.Loc)
    requires I.Inv(s) && P.Next(s, step, s') && s.slot.Some? && SeesInstance(s, l)
    requires l in s.frames
    ensures SeesInstance(s', l)
  {
    if step.l != l {
      S.StepElsewhere(s, step);
    } else {
      SeesOwnStep(s, s', l);
    }
  }

  lemma SeesOwnStep(s: P.State, s': P.State, l: P.Loc)
    requires I.Inv(s) && P.Next(s, P.Go(l), s') && s.slot.Some? && SeesInstance(s, l)
    ensures SeesInstance(s', l)
  {
    if l in s'.frames && P.InWith(s'.frames[l].pc) {
      N.SameOperation(s, l, s');
      K.GoIs(s, l, s');
      SeesWithStep(s, l);
    }
  }

  lemma SeesWithStep(s: P.State, l: P.Loc)
    requires K.Top(s, l) && P.InWith(s.frames[l].pc) && s.slot.Some? && SeesInstance(s, l)
    ensures SeesInstance(P.WithStep(s, l), l)
  {
  }

  lemma {:induction false} SeesSoFar(states: seq<P.State>, steps: seq<P.Step>, c: Call, k: nat)
    requires IsCall(states, steps, c) && c.start < k <= c.at
    requires forall j :: c.start <= j < k ==> states[j].slot.Some?
    ensures SeesInstance(states[k], c.l)
  {
    S.RunKeeps(states, steps, k - 1);
    assert P.Next(states[k - 1], steps[k - 1], states[k]);
    if c.start + 1 < k {
      SeesSoFar(states, steps, c, k - 1);
      SeesNext(states[k - 1], steps[k - 1], states[k], c.l);
    }
  }

  /** A call during which an instance stays published finds one. */
  lemma FoundWhilePublished(states: seq<P.State>, steps: seq<P.Step>, c: Call)
    requires IsCall(states, steps, c) && PublishedThroughout(states, c)
    ensures Found(states, c)
  {
    SeesSoFar(states, steps, c, c.at);
  }

  // ----- while no instance is published -----

  /** A call during which no instance is published finds none, so its wrapper only forwards. */
  lemma ForwardsWhileEmpty(states: seq<P.State>, steps: seq<P.Step>, c: Call)
    requires IsCall(states, steps, c) && EmptyThroughout(states, c)
    ensures !Found(states, c)
  {
    S.NoCallbackWhileEmpty(states, steps, c.start, c.at, c.l);
  }

  /** The step stores a new instance in the slot. */
  predicate Publishes(s: P.State, step: P.Step) {
    && step.Go? && step.l in s.frames
    && s.frames[step.l].pc == if s.backend.Intrusive? then P.CCopy else P.CNew
  }

  lemma StaysEmpty(s: P.State, step: P.Step, s': P.State)
    requires I.Inv(s) && P.Next(s, step, s') && s.slot == P.None && !Publishes(s, step)
    ensures s'.slot == P.None
  {
    if s'.slot.Some? { S.SlotFilledByPublication(s, step); }
  }

  /** Step `u` unpublishes, and no call publishes again before step `p`. */
  ghost predicate BetweenPublications(states: seq<P.State>, steps: seq<P.Step>, u: nat, p: nat)
    requires |states| == |steps| + 1
  {
    && u < p <= |steps| && N.Unpublishes(states[u], steps[u])
    && forall k {:trigger steps[k]} :: u < k < p ==> !Publishes(states[k], steps[k])
  }

  lemma UnpublishingEmpties(s: P.State, step: P.Step, s': P.State)
    requires I.Inv(s) && P.Next(s, step, s') && N.Unpublishes(s, step)
    ensures s'.slot == P.None
  {
    var o := s.slot.value;
    assert I.ObjOk(s, o);
    K.GoIs(s, step.l, s');
    S.SwapIs(s, step.l, o);
  }

  /** From the step that unpublishes until the next publication the slot is empty. */
  lemma {:induction false} EmptyUntilPublished(states: seq<P.State>, steps: seq<P.Step>, u: nat, p: nat, k: nat)
    requires P.IsRun(states, steps) && BetweenPublications(states, steps, u, p) && u < k <= p
    ensures states[k].slot == P.None
  {
    S.RunKeeps(states, steps, k - 1);
    assert P.Next(states[k - 1], steps[k - 1], states[k]);
    if k == u + 1 {
      UnpublishingEmpties(states[u], steps[u], states[k]);
    } else {
      EmptyUntilPublished(states, steps, u, p, k - 1);
      StaysEmpty(states[k - 1], steps[k - 1], states[k]);
    }
  }

  /** So every call in that time finds no instance. */
  lemma ForwardsBetweenPublications(states: seq<P.State>, steps: seq<P.Step>, u: nat, p: nat, c: Call)
    requires IsCall(states, steps, c) && BetweenPublications(states, steps, u, p) && u < c.start && c.at <= p
    ensures EmptyThroughout(states, c) && !Found(states, c)
  {
    forall k | c.start <= k <= c.at ensures states[k].slot == P.None {
      EmptyUntilPublished(states, steps, u, p, k);
    }
    ForwardsWhileEmpty(states, steps, c);
  }

  /** A wrapper that finds an instance works on one that is alive: published, or
      unpublished and kept alive by this very call. */
  lemma FindsLive(states: seq<P.State>, steps: seq<P.Step>, c: Call)
    requires IsCall(states, steps, c) && Found(states, c)
    ensures I.InUse(states[c.at], states[c.at].frames[c.l].own)
    ensures states[c.at].objs[states[c.at].frames[c.l].own.value].count >= 2
  {
    S.RunKeeps(states, steps, c.at);
    K.FrameIs(states[c.at], c.l);
    S.OthersStillHold(states[c.at], c.l, states[c.at].frames[c.l].own.value);
  }
}
