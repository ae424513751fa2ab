/** The session object (client/session.go, client/send.go, client/timer_queue.go): its queues, maps and handlers. */
module Session {
  import opened EgressQueue
  import opened SessionSpec
  import PQ = PriorityQueue
  import opened Wrappers

  class Session {
    var clock: nat
    var messages: map<MsgId, Message>
    const egressQueue: Queue<MsgId>
    const priq: PQ.PriorityQueue<MsgId>
    var ops: seq<MsgId>
    var surbs: map<SurbId, MsgId>
    var armed: Option<nat>
    var log: seq<LogEntry>

    ghost predicate Valid()
      reads this, egressQueue, egressQueue.content, priq
    {
      && egressQueue.Valid() && priq.Valid()
    }

    ghost function Contents(): State
      requires Valid()
      reads this, egressQueue, egressQueue.content, priq
    {
      State(clock, messages, egressQueue.Contents(), ops, surbs, multiset(priq.heap), armed, log)
    }

    constructor ()
      ensures Valid() && Contents() == Start
      ensures fresh(egressQueue) && fresh(egressQueue.content) && fresh(priq)
    {
      clock, messages, ops, surbs, armed, log := 0, map[], [], map[], None, [];
      egressQueue := new Queue(0);
      priq := new PQ.PriorityQueue();
    }

    /** SendReliableMessage, SendUnreliableMessage and their blocking forms; an error if the egress queue is full. */
    method Send(m: MsgId, reliable: bool, blocking: bool) returns (ok: bool)
      requires Valid()
      modifies this, egressQueue, egressQueue.content
      ensures Valid() && Contents() == Submit(old(Contents()), m, reliable, blocking)
      ensures ok <==> |old(Contents()).egress| < MAX_EGRESS_QUEUE_SIZE
    {
      ok := egressQueue.Push(m);
      if ok {
        messages := messages[m := Message(reliable, blocking, false, 0, 0, None, 0, 0)];
      }
    }

    /** The fields of the message that a transmission sets. */
    method Stamp(m: MsgId, o: Outcome) returns (msg: Message)
      requires m in messages
      ensures msg == AfterSend(messages[m], clock, o)
    {
      msg := messages[m].(surb := Some(o.surb));
      if o.sent {
        msg := msg.(sentAt := clock);
        msg := msg.(replyEta := ReplyTime(o.eta, msg.retransmissions));
        if msg.reliable {
          msg := msg.(priority := msg.sentAt + msg.replyEta + o.eta);
        }
      }
    }

    /** doSend */
    method Transmit(m: MsgId, o: Outcome)
      requires Valid() && m in messages
      modifies this, priq
      ensures Valid() && Contents() == DoSend(old(Contents()), m, o)
    {
      hide AfterSend;
      var msg := Stamp(m, o);
      messages := messages[m := msg];
      if o.sent {
        surbs := surbs[o.surb := m];
        if msg.reliable {
          priq.Enqueue(msg.priority, m);
        }
        log := log + [Sent(m, o.surb, clock, o.eta, msg.priority)];
      } else {
        log := log + [Ended(m, Unsent)];
      }
    }

    /** sendNext; an empty queue is a fatal error. */
    method SendHead(o: Outcome) returns (fatal: bool)
      requires Valid() && forall m | m in Contents().egress :: m in messages
      modifies this, egressQueue, egressQueue.content, priq
      ensures Valid() && (fatal <==> old(Contents()).egress == [])
      ensures Contents() == if fatal then old(Contents()) else SendNext(old(Contents()), o)
    {
      hide DoSend;
      var m := egressQueue.Peek();
      if m.None? {
        return true;
      }
      assert m.value in Contents().egress;
      Transmit(m.value, o);
      var _ := egressQueue.Pop();
      fatal := false;
    }

    /** sendLoopDecoy */
    method SendLoopDecoy(m: MsgId, o: Outcome)
      requires Valid()
      modifies this, priq
      ensures Valid() && Contents() == SendDecoy(old(Contents()), m, o)
    {
      hide DoSend;
      messages := messages[m := Message(false, false, true, 0, 0, None, 0, 0)];
      Transmit(m, o);
    }

    /** Push */
    method Reschedule(m: MsgId)
      requires Valid() && m in messages
      modifies this
      ensures Valid() && Contents() == Push(old(Contents()), m)
    {
      var surb := messages[m].surb;
      if surb.Some? && surb.value in surbs {
        surbs := surbs - {surb.value};
        ops := ops + [m];
      }
    }

    /** forward: some entry of least priority, if there is any. */
    method ForwardHead() returns (ghost e: Option<Entry>)
      requires Valid() && forall f | f in Contents().timer :: f.value in messages
      modifies this, priq
      ensures Valid() && (e.None? <==> old(Contents()).timer == multiset{})
      ensures e.None? ==> Contents() == old(Contents())
      ensures e.Some? ==> Least(old(Contents()).timer, e.value) && Contents() == Forward(old(Contents()), e.value)
    {
      var r := priq.Dequeue();
      e := r;
      if r.Some? {
        Reschedule(r.value.value);
      }
    }

    /** One turn of the timer worker: forward the head of the queue if its time has come, or set the alarm for it. */
    method PollTimer() returns (ghost e: Option<Entry>)
      requires Valid() && forall f | f in Contents().timer :: f.value in messages
      modifies this, priq
      ensures Valid() && (e.None? <==> old(Contents()).timer == multiset{})
      ensures e.None? ==> Contents() == old(Contents())
      ensures e.Some? ==> Least(old(Contents()).timer, e.value) && Contents() == Poll(old(Contents()), e.value)
    {
      var head := priq.Peek();
      if head.None? {
        return None;
      }
      if head.value.priority < clock {
        e := ForwardHead();
      } else {
        armed := Some(head.value.priority);
        e := head;
      }
    }

    /** The alarm goes off. */
    method Alarm() returns (ghost e: Option<Entry>)
      requires Valid() && forall f | f in Contents().timer :: f.value in messages
      modifies this, priq
      ensures Valid() && (e.None? <==> old(Contents()).timer == multiset{})
      ensures e.Some? ==>
                Least(old(Contents()).timer, e.value) && Contents() == Forward(old(Contents()).(armed := None), e.value)
    {
      armed := None;
      e := ForwardHead();
    }

    /** doRetransmit, on the operation taken from the channel; a full egress queue drops the message. */
    method SendAgain()
      requires Valid() && ops != [] && ops[0] in messages
      modifies this, egressQueue, egressQueue.content
      ensures Valid() && Contents() == Retransmit(old(Contents()))
    {
      var m := ops[0];
      ops := ops[1..];
      messages := messages[m := messages[m].(retransmissions := messages[m].retransmissions + 1)];
      var ok := egressQueue.Push(m);
      if !ok {
        log := log + [Ended(m, Crowded)];
      }
    }

    /** onACK */
    method Acknowledge(surb: SurbId, usable: bool)
      requires Valid()
      modifies this
      ensures Valid() && Contents() == OnAck(old(Contents()), surb, usable)
    {
      if surb in surbs {
        var m := surbs[surb];
        surbs := surbs - {surb};
        log := log + [Ended(m, if usable then Answered else Discarded)];
      }
    }

    /** garbageCollect: every entry of the SURB map is looked at once. */
    method GarbageCollect() returns (ghost order: seq<SurbId>)
      requires Valid() && forall k | k in surbs :: surbs[k] in messages
      modifies this
      ensures Valid() && (forall k :: k in old(surbs) <==> k in order) && |order| == |old(surbs).Keys|
      ensures CollectAll(old(Contents()), order).Some? && Contents() == CollectAll(old(Contents()), order).value
    {
      order := [];
      var keys := surbs.Keys;
      while keys != {}
        invariant Valid() && messages == old(messages) && clock == old(clock)
        invariant forall k | k in surbs :: surbs[k] in messages
        invariant keys <= surbs.Keys && |order| + |keys| == |old(surbs).Keys|
        invariant forall k :: k in old(surbs) <==> k in order || k in keys
        invariant CollectAll(old(Contents()), order) == Some(Contents())
        decreases |keys|
      {
        var k :| k in keys;
        keys := keys - {k};
        CollectOneMore(old(Contents()), order, k);
        order := order + [k];
        var m := surbs[k];
        if clock > messages[m].sentAt + messages[m].replyEta + ROUND_TRIP_TIME_SLOP {
          surbs := surbs - {k};
          log := log + [Ended(m, Collected)];
        }
      }
    }
  }

  /** The collector on the given entries in turn. */
  function CollectAll(s: State, order: seq<SurbId>): Option<State> {
    if order == [] then Some(s)
    else
      var k, rest := order[|order| - 1], CollectAll(s, order[..|order| - 1]);
      if rest.Some? && k in rest.value.surbs && rest.value.surbs[k] in rest.value.messages then Some(Collect(rest.value, k))
      else None
  }

  lemma CollectOneMore(s: State, order: seq<SurbId>, k: SurbId)
    ensures var rest := CollectAll(s, order);
            CollectAll(s, order + [k]) ==
            if rest.Some? && k in rest.value.surbs && rest.value.surbs[k] in rest.value.messages
            then Some(Collect(rest.value, k)) else None
  {
    assert (order + [k])[..|order|] == order;
  }
}
