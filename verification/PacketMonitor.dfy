/** Interception of queue creation and of packet batches,
    include/luthier/HSATooling/PacketMonitorTrait.h:58-127. */
module PacketMonitor {
  import opened Common
  import P = SingletonProtocol
  import W = WrapperCalls

  datatype Status = Success | InvalidQueue | OtherError

  /** The runtime's answers to the calls of one queue creation: the application's
      own call, the first registration, and then the destruction, the creation of
      an intercept queue and the second registration. */
  datatype Answers = Answers(create: Status, queue: nat, register: Status,
                             destroy: Status, intercept: Status, replacement: nat, again: Status)

  /** A call's status and, through its out-parameter, the queue; or the process ends. */
  datatype Outcome = Fatal | Returned(status: Status, queue: Option<nat>)

  datatype Batch = Batch(queue: nat, packets: seq<nat>)

  /** The batches that reached the tool, and those that the handler passed to the writer. */
  datatype Traffic = Traffic(onPackets: seq<Batch>, written: seq<seq<nat>>)

  class Monitor {
    var queues: set<nat>                 // the live queues of the runtime
    var handlers: map<nat, seq<nat>>     // per queue, the data its handlers are called with
    var onPackets: seq<Batch>
    var written: seq<seq<nat>>

    ghost predicate Valid()
      reads this
    {
      handlers.Keys == queues
    }

    ghost function Seen(): Traffic
      reads this
    {
      Traffic(onPackets, written)
    }

    constructor ()
      ensures Valid() && queues == {} && handlers == map[] && Seen() == Traffic([], [])
    {
      queues, handlers, onPackets, written := {}, map[], [], [];
    }

    /** hsa_queue_create and hsa_amd_queue_intercept_create, on success. */
    method Add(q: nat)
      modifies this`queues, this`handlers
      ensures queues == old(queues) + {q} && handlers == old(handlers)[q := []]
    {
      queues, handlers := queues + {q}, handlers[q := []];
    }

    /** hsa_queue_destroy, on success. */
    method Remove(q: nat)
      modifies this`queues, this`handlers
      ensures queues == old(queues) - {q} && handlers == old(handlers) - {q}
    {
      queues, handlers := queues - {q}, handlers - {q};
    }

    /** hsa_amd_queue_intercept_register, on success. */
    method AddHandler(q: nat, data: nat)
      requires q in handlers
      modifies this`handlers
      ensures handlers == old(handlers)[q := old(handlers)[q] + [data]]
    {
      handlers := handlers[q := handlers[q] + [data]];
    }

    /** The callback of hsaQueueCreateWrapper, on the queue that was just created. */
    method Intercept(a: Answers) returns (r: Outcome)
      requires Valid() && a.queue in queues && handlers[a.queue] == []
      requires a.replacement !in queues
      modifies this`queues, this`handlers
      ensures Valid()
      ensures a.register == Success ==>
                r == Returned(Success, Some(a.queue)) && handlers == old(handlers)[a.queue := [a.queue]]
      ensures a.register == InvalidQueue && a.destroy == Success && a.intercept == Success && a.again == Success ==>
                r == Returned(Success, Some(a.replacement)) && handlers == (old(handlers) - {a.queue})[a.replacement := [a.replacement]]
      ensures a.register == InvalidQueue && (a.destroy != Success || a.intercept != Success || a.again != Success) ==> r == Fatal
      ensures a.register == OtherError ==> r == Fatal
    {
      match a.register
      case Success =>
        AddHandler(a.queue, a.queue);
        assert [] + [a.queue] == [a.queue];
        return Returned(Success, Some(a.queue));
      case InvalidQueue =>
        if a.destroy != Success { return Fatal; }
        Remove(a.queue);
        if a.intercept != Success { return Fatal; }
        Add(a.replacement);
        if a.again != Success { return Fatal; }
        AddHandler(a.replacement, a.replacement);
        assert [] + [a.replacement] == [a.replacement];
        return Returned(Success, Some(a.replacement));
      case OtherError => return Fatal;
    }

    /** hsaQueueCreateWrapper, whose withInstance call is `c` of the run.  If it
        finds an instance, the application gains exactly one queue, on which the
        handler is registered once, whichever queue it is; if not, the call is
        the runtime's own. */
    method QueueCreate(states: seq<P.State>, ghost steps: seq<P.Step>, c: W.Call, a: Answers) returns (r: Outcome)
      requires W.IsCall(states, steps, c)
      requires Valid() && a.queue !in queues && a.replacement !in queues && a.replacement != a.queue
      modifies this`queues, this`handlers
      ensures Valid()
      ensures a.create != Success ==> r == Returned(a.create, None) && handlers == old(handlers)
      ensures a.create == Success && !W.Found(states, c) ==>
                r == Returned(Success, Some(a.queue)) && handlers == old(handlers)[a.queue := []]
      ensures a.create == Success && W.Found(states, c) && a.register == Success ==>
                r == Returned(Success, Some(a.queue)) && handlers == old(handlers)[a.queue := [a.queue]]
      ensures a.create == Success && W.Found(states, c) && a.register == InvalidQueue && a.destroy == Success && a.intercept == Success && a.again == Success ==>
                r == Returned(Success, Some(a.replacement)) && handlers == old(handlers)[a.replacement := [a.replacement]]
      ensures a.create == Success && W.Found(states, c) && a.register == InvalidQueue && (a.destroy != Success || a.intercept != Success || a.again != Success) ==> r == Fatal
      ensures a.create == Success && W.Found(states, c) && a.register == OtherError ==> r == Fatal
      ensures r.Returned? && r.queue.Some? ==> queues == old(queues) + {r.queue.value}
      ensures (W.PublishedThroughout(states, c) ==> W.Found(states, c)) && (W.EmptyThroughout(states, c) ==> !W.Found(states, c))
    {
      if W.EmptyThroughout(states, c) { W.ForwardsWhileEmpty(states, steps, c); }
      if W.PublishedThroughout(states, c) { W.FoundWhilePublished(states, steps, c); }
      if a.create != Success { return Returned(a.create, None); }
      Add(a.queue);
      r := Returned(Success, Some(a.queue));
      if W.Found(states, c) {
        r := Intercept(a);
        assert old(handlers)[a.queue := []] - {a.queue} == old(handlers);
        assert old(handlers)[a.queue := []][a.queue := [a.queue]] == old(handlers)[a.queue := [a.queue]];
      }
    }

    /** interceptQueuePacketHandler, whose withInstance call is `c` of the run:
        every batch reaches exactly one of the tool and the writer, unchanged.
        `data` is null only if the registration passed null. */
    method HandlePackets(states: seq<P.State>, ghost steps: seq<P.Step>, c: W.Call, data: Option<nat>, packets: seq<nat>)
        returns (fatal: bool)
      requires W.IsCall(states, steps, c)
      modifies this`onPackets, this`written
      ensures Seen() == Delivered(states, old(Seen()), Handled(c, data, packets))
      ensures fatal <==> W.Found(states, c) && data.None?
      ensures !W.Found(states, c) ==> Seen() == Traffic(old(onPackets), old(written) + [packets])
      ensures W.Found(states, c) ==>
                Seen() == Traffic(old(onPackets) + (if data.Some? then [Batch(data.value, packets)] else []), old(written))
      ensures W.EmptyThroughout(states, c) ==> Seen() == Traffic(old(onPackets), old(written) + [packets])
      ensures W.PublishedThroughout(states, c) && data.Some? ==>
                !fatal && Seen() == Traffic(old(onPackets) + [Batch(data.value, packets)], old(written))
      ensures !fatal ==> (onPackets == old(onPackets)) != (written == old(written))
    {
      if W.EmptyThroughout(states, c) { W.ForwardsWhileEmpty(states, steps, c); }
      if W.PublishedThroughout(states, c) { W.FoundWhilePublished(states, steps, c); }
      if W.Found(states, c) {
        if data.None? { return true; }
        onPackets := onPackets + [Batch(data.value, packets)];
      } else {
        written := written + [packets];
      }
      return false;
    }
  }

  // ----- all the batches of a run -----

  /** A call of the packet handler. */
  datatype Handled = Handled(call: W.Call, data: Option<nat>, packets: seq<nat>)

  /** Where one batch goes. */
  function Delivered(states: seq<P.State>, t: Traffic, h: Handled): Traffic
    requires h.call.at < |states| && W.Decides(states[h.call.at], h.call.l)
  {
    if !W.Found(states, h.call) then t.(written := t.written + [h.packets])
    else if h.data.None? then t
    else t.(onPackets := t.onPackets + [Batch(h.data.value, h.packets)])
  }

  ghost predicate AreCalls(states: seq<P.State>, steps: seq<P.Step>, hs: seq<Handled>) {
    P.IsRun(states, steps) && forall i :: 0 <= i < |hs| ==> W.IsCall(states, steps, hs[i].call)
  }

  ghost function DeliveredAll(states: seq<P.State>, steps: seq<P.Step>, t: Traffic, hs: seq<Handled>): Traffic
    requires AreCalls(states, steps, hs)
  {
    if hs == [] then t
    else Delivered(states, DeliveredAll(states, steps, t, hs[..|hs| - 1]), hs[|hs| - 1])
  }

  function Packets(hs: seq<Handled>): seq<seq<nat>> {
    if hs == [] then [] else Packets(hs[..|hs| - 1]) + [hs[|hs| - 1].packets]
  }

  function Batches(hs: seq<Handled>): seq<Batch>
    requires forall i :: 0 <= i < |hs| ==> hs[i].data.Some?
  {
    if hs == [] then [] else Batches(hs[..|hs| - 1]) + [Batch(hs[|hs| - 1].data.value, hs[|hs| - 1].packets)]
  }

  /** Every batch that is handled between an unpublication and the next
      publication is written through, unchanged, once and in order, and none
      reaches the tool. */
  lemma {:induction false} WrittenBetweenPublications(states: seq<P.State>, steps: seq<P.Step>, u: nat, p: nat, t: Traffic, hs: seq<Handled>)
    requires AreCalls(states, steps, hs) && W.BetweenPublications(states, steps, u, p)
    requires forall i :: 0 <= i < |hs| ==> u < hs[i].call.start && hs[i].call.at <= p
    ensures DeliveredAll(states, steps, t, hs) == Traffic(t.onPackets, t.written + Packets(hs))
  {
    if hs != [] {
      WrittenBetweenPublications(states, steps, u, p, t, hs[..|hs| - 1]);
      W.ForwardsBetweenPublications(states, steps, u, p, hs[|hs| - 1].call);
    }
  }

  /** Every batch that is handled while an instance stays published reaches the
      tool, unchanged, once and in order, and none is written through. */
  lemma {:induction false} SeenWhilePublished(states: seq<P.State>, steps: seq<P.Step>, t: Traffic, hs: seq<Handled>)
    requires AreCalls(states, steps, hs)
    requires forall i :: 0 <= i < |hs| ==> hs[i].data.Some? && W.PublishedThroughout(states, hs[i].call)
    ensures DeliveredAll(states, steps, t, hs) == Traffic(t.onPackets + Batches(hs), t.written)
  {
    if hs != [] {
      SeenWhilePublished(states, steps, t, hs[..|hs| - 1]);
      W.FoundWhilePublished(states, steps, hs[|hs| - 1].call);
    }
  }

  /** Whenever the tool comes and goes, no batch is lost or doubled. */
  lemma {:induction false} NoBatchLost(states: seq<P.State>, steps: seq<P.Step>, t: Traffic, hs: seq<Handled>)
    requires AreCalls(states, steps, hs) && forall i :: 0 <= i < |hs| ==> hs[i].data.Some?
    ensures var r := DeliveredAll(states, steps, t, hs);
            && |r.onPackets| + |r.written| == |t.onPackets| + |t.written| + |hs|
            && t.onPackets <= r.onPackets && t.written <= r.written
  {
    if hs != [] {
      NoBatchLost(states, steps, t, hs[..|hs| - 1]);
    }
  }
}
