/** Why a message ends, and how its deadlines grow. */
module SessionDeadlines {
  import opened EgressQueue
  import opened SessionSpec
  import opened SessionRun
  import PQ = PriorityQueue
  import opened Wrappers

  // ---------------------------------------------------------------- why a message ends

  ghost predicate Room(s: State) { |s.egress| <= MAX_EGRESS_QUEUE_SIZE }

  lemma StepRoom(s: State, ev: Event)
    requires Room(s) && Enabled(s, ev)
    ensures Room(Step(s, ev))
  {
    hide Fresh, Least;
  }

  lemma {:induction false} RunRoom(states: seq<State>, events: seq<Event>, i: nat)
    requires Run(states, events) && i < |states|
    ensures Room(states[i])
  {
    hide Room, Step, Enabled;
    if i > 0 {
      RunRoom(states, events, i - 1);
      assert Enabled(states[i - 1], events[i - 1]) && states[i] == Step(states[i - 1], events[i - 1]);
      StepRoom(states[i - 1], events[i - 1]);
    } else {
      StartRoom();
    }
  }

  lemma StartRoom()
    ensures Room(Start)
  {}

  /** What ends a message: a reply to its SURB, usable or not; a transmission that failed; an egress queue that was full when it
      was to be sent again; a collector that found its SURB entry too old. */
  ghost predicate Cause(s: State, ev: Event, m: MsgId, fate: Fate) {
    match fate
    case Answered => ev.AckEvent? && ev.usable && ev.surb in s.surbs && s.surbs[ev.surb] == m
    case Discarded => ev.AckEvent? && !ev.usable && ev.surb in s.surbs && s.surbs[ev.surb] == m
    case Unsent => (ev.SendNextEvent? && s.egress != [] && s.egress[0] == m && !ev.o.sent)
                   || (ev.DecoyEvent? && ev.m == m && !ev.o.sent)
    case Crowded => ev.RetransmitEvent? && s.ops != [] && s.ops[0] == m && |s.egress| == MAX_EGRESS_QUEUE_SIZE
    case Collected => ev.CollectEvent? && ev.surb in s.surbs && s.surbs[ev.surb] == m && m in s.messages
                      && s.clock > s.messages[m].sentAt + s.messages[m].replyEta + 60_000_000_000
  }

  lemma StepEndsIff(s: State, ev: Event, m: MsgId, fate: Fate)
    requires Room(s) && Enabled(s, ev)
    ensures Step(s, ev).log == s.log + [Ended(m, fate)] <==> Cause(s, ev, m, fate)
  {
    hide Fresh, Least, AfterSend;
    var log := Step(s, ev).log;
    if |log| > |s.log| {
      assert log[|s.log|] == (s.log + [log[|s.log|]])[|s.log|];
    }
  }

  /** In every run a step logs that a message has ended, and how, exactly when it is the cause of that. */
  lemma EndsIff(states: seq<State>, events: seq<Event>, i: nat, m: MsgId, fate: Fate)
    requires Run(states, events) && i < |events|
    ensures states[i + 1].log == states[i].log + [Ended(m, fate)] <==> Cause(states[i], events[i], m, fate)
  {
    hide Room, Step, Enabled, Cause;
    RunRoom(states, events, i);
    assert Enabled(states[i], events[i]) && states[i + 1] == Step(states[i], events[i]);
    StepEndsIff(states[i], events[i], m, fate);
  }

  // ---------------------------------------------------------------- deadlines

  /** How often the message was sent, according to the log. */
  function TimesSent(log: seq<LogEntry>, m: MsgId): nat {
    if log == [] then 0
    else TimesSent(log[..|log| - 1], m) + (if log[|log| - 1].Sent? && log[|log| - 1].msg == m then 1 else 0)
  }

  lemma TimesSentNext(log: seq<LogEntry>, x: LogEntry, m: MsgId)
    ensures TimesSent(log + [x], m) == TimesSent(log, m) + (if x.Sent? && x.msg == m then 1 else 0)
  {
    assert (log + [x])[..|log|] == log;
  }

  lemma {:induction false} NeverSent(log: seq<LogEntry>, m: MsgId)
    requires forall x | x in log :: x.msg != m
    ensures TimesSent(log, m) == 0
  {
    if log != [] {
      var rest := log[..|log| - 1];
      assert forall x | x in rest :: x in log;
      assert log[|log| - 1] in log;
      NeverSent(rest, m);
    }
  }

  /** A message in the egress queue has been retransmitted as often as it was sent; one that waits or is pending once less. */
  ghost predicate CountedFor(s: State, m: MsgId)
    requires m in s.messages
  {
    && (m in s.egress ==> TimesSent(s.log, m) == s.messages[m].retransmissions)
    && (m in s.ops || Waiting(s, m) ==> TimesSent(s.log, m) == s.messages[m].retransmissions + 1)
  }

  ghost predicate Counted(s: State) { forall m | m in s.messages :: CountedFor(s, m) }

  /** The k-th transmission of a reliable message, counting from 0, is due again k + 2 round trip times after it was made; others
      are never due again. */
  ghost predicate BacksOffAt(s: State, k: nat)
    requires k < |s.log|
  {
    var x := s.log[k];
    x.Sent? && x.msg in s.messages ==>
      x.deadline == if s.messages[x.msg].reliable then x.at + x.eta * (2 + TimesSent(s.log[..k], x.msg)) else 0
  }

  /** A message that is not reliable has no deadline. */
  ghost predicate Unscheduled(s: State) {
    forall m | m in s.messages && !s.messages[m].reliable :: s.messages[m].priority == 0
  }

  lemma StepUnscheduled(s: State, ev: Event)
    requires Unscheduled(s) && Enabled(s, ev)
    ensures Unscheduled(Step(s, ev))
  {
    hide Fresh, Least, Expired, ReplyTime;
  }

  ghost predicate BacksOff(s: State) { forall k: nat | k < |s.log| :: BacksOffAt(s, k) }

  /** The log and the reliability of every logged message stay. */
  lemma BackOffStays(s: State, t: State)
    requires Known(s) && BacksOff(s) && s.log <= t.log
    requires forall m | m in s.messages :: m in t.messages && t.messages[m].reliable == s.messages[m].reliable
    ensures forall k: nat | k < |s.log| :: BacksOffAt(t, k)
  {
    forall k: nat | k < |s.log| ensures BacksOffAt(t, k) {
      assert BacksOffAt(s, k) && t.log[..k] == s.log[..k] && t.log[k] == s.log[k] && s.log[k] in s.log;
    }
  }

  lemma CountedNoLive(s: State, m: MsgId)
    requires m in s.messages && m !in s.egress && m !in s.ops && !Waiting(s, m)
    ensures CountedFor(s, m)
  {}

  /** Nothing is sent and no message gets to another place, but by leaving or by moving from the SURB map to the operations. */
  lemma CountedStays(s: State, t: State)
    requires Known(s) && Counted(s)
    requires t.messages == s.messages
    requires t.log == s.log || (|t.log| == |s.log| + 1 && t.log[..|s.log|] == s.log && t.log[|s.log|].Ended?)
    requires (forall m | m in t.egress :: m in s.egress)
    requires (forall m | m in t.ops || Waiting(t, m) :: m in s.ops || Waiting(s, m))
    ensures Counted(t)
  {
    forall m | m in t.messages ensures CountedFor(t, m) {
      assert CountedFor(s, m);
      assert TimesSent(t.log, m) == TimesSent(s.log, m) by {
        if t.log != s.log {
          assert t.log == s.log + [t.log[|s.log|]];
          TimesSentNext(s.log, t.log[|s.log|], m);
        }
      }
    }
  }

  lemma SubmitCounted(s: State, m: MsgId, reliable: bool, blocking: bool)
    requires Inv(s) && Counted(s) && m !in s.messages
    ensures Counted(Submit(s, m, reliable, blocking))
  {
    hide Queues, Surbs, Timer, Scheduled, Armed, Logged, Fates;
    var t := Submit(s, m, reliable, blocking);
    NeverSent(s.log, m);
    forall n | n in t.messages ensures CountedFor(t, n) {
      if n in s.messages {
        assert CountedFor(s, n);
      }
    }
  }

  /** A transmission of a message that waits nowhere. */
  lemma SendCounted(s: State, m: MsgId, o: Outcome)
    requires Known(s) && m in s.messages && m !in s.egress && m !in s.ops && !Waiting(s, m)
    requires TimesSent(s.log, m) == s.messages[m].retransmissions && o.surb !in s.surbs
    requires forall n | n in s.messages && n != m :: CountedFor(s, n)
    ensures Counted(DoSend(s, m, o))
  {
    var t := DoSend(s, m, o);
    forall n | n in t.messages ensures CountedFor(t, n) {
      TimesSentNext(s.log, t.log[|s.log|], n);
      if n != m {
        assert CountedFor(s, n);
        assert Waiting(t, n) ==> Waiting(s, n);
      }
    }
  }

  lemma FreshNotInMap(s: State, surb: SurbId)
    requires Known(s) && Surbs(s) && Fresh(s.log, surb)
    ensures surb !in s.surbs
  {}

  lemma NextCounted(s: State, o: Outcome)
    requires Inv(s) && Counted(s) && s.egress != [] && s.egress[0] in s.messages && Fresh(s.log, o.surb)
    ensures Counted(SendNext(s, o))
  {
    var m, t := s.egress[0], s.(egress := s.egress[1..]);
    FreshNotInMap(s, o.surb);
    TakeFromEgress(s);
    NotLive(t, m);
    hide Queues, Surbs, Timer, Scheduled, Armed, Logged, Fates, Fresh, FatesBut;
    assert m in s.egress && CountedFor(s, m);
    forall n | n in t.messages && n != m ensures CountedFor(t, n) { assert CountedFor(s, n); }
    SendCounted(t, m, o);
  }

  lemma DecoyCounted(s: State, m: MsgId, o: Outcome)
    requires Inv(s) && Counted(s) && m !in s.messages && Fresh(s.log, o.surb)
    ensures Counted(SendDecoy(s, m, o))
  {
    var msg := Message(false, false, true, 0, 0, None, 0, 0);
    var t := s.(messages := s.messages[m := msg]);
    FreshNotInMap(s, o.surb);
    NeverSent(s.log, m);
    NewInHand(s, m, msg);
    NotLive(t, m);
    hide Queues, Surbs, Timer, Scheduled, Armed, Logged, Fates, Fresh, FatesBut;
    forall n | n in t.messages && n != m ensures CountedFor(t, n) { assert CountedFor(s, n); }
    SendCounted(t, m, o);
  }

  lemma RetransmittedCount(s: State, n: MsgId)
    requires s.ops != [] && s.ops[0] in s.messages && n in s.messages && CountedFor(s, n)
    requires var m := s.ops[0]; m !in s.ops[1..] && m !in s.egress && !Waiting(s, m)
    ensures n in Retransmit(s).messages && CountedFor(Retransmit(s), n)
  {
    var u := Retransmit(s);
    TimesSentNext(s.log, Ended(s.ops[0], Crowded), n);
    assert Waiting(u, n) ==> Waiting(s, n);
    assert n in u.ops ==> n in s.ops;
  }

  lemma RetransmitCounted(s: State)
    requires Inv(s) && Counted(s) && s.ops != [] && s.ops[0] in s.messages
    ensures Counted(Retransmit(s))
  {
    var m, t := s.ops[0], s.(ops := s.ops[1..]);
    TakeFromOps(s);
    NotLive(t, m);
    hide Inv, Core, InHand, FatesBut, CountedFor;
    assert Waiting(s, m) ==> Waiting(t, m);
    forall n | n in s.messages ensures CountedFor(Retransmit(s), n) {
      RetransmittedCount(s, n);
    }
  }

  lemma OnAckCounted(s: State, surb: SurbId, usable: bool)
    requires Known(s) && Counted(s)
    ensures Counted(OnAck(s, surb, usable))
  {
    if surb in s.surbs {
      CountedStays(s, OnAck(s, surb, usable));
    }
  }

  lemma CollectCounted(s: State, surb: SurbId)
    requires Known(s) && Counted(s) && surb in s.surbs && s.surbs[surb] in s.messages
    ensures Counted(Collect(s, surb))
  {
    hide Expired;
    if Expired(s.messages[s.surbs[surb]], s.clock) {
      CountedStays(s, Collect(s, surb));
    }
  }

  lemma ForwardCounted(s: State, e: Entry)
    requires Places(s) && Counted(s) && e in s.timer
    ensures Counted(Forward(s, e))
  {
    EntryOwner(s, e);
    hide Queues, Surbs, Timer, Scheduled, Armed;
    var t := Forward(s, e);
    forall m | m in t.ops || Waiting(t, m) ensures m in s.ops || Waiting(s, m) {}
    CountedStays(s, t);
  }

  lemma QuietCounted(s: State, t: State)
    requires Known(s) && Counted(s) && t == s.(clock := t.clock, armed := t.armed)
    ensures Counted(t)
  {
    CountedStays(s, t);
  }

  lemma StepCounted(s: State, ev: Event)
    requires Inv(s) && Counted(s) && Enabled(s, ev)
    ensures Counted(Step(s, ev))
  {
    hide Counted, Queues, Surbs, Timer, Scheduled, Armed, Logged, Fates, Fresh, Submit, SendNext, SendDecoy, Retransmit, OnAck,
         Collect, Forward;
    match ev
    case SubmitEvent(m, reliable, blocking) => SubmitCounted(s, m, reliable, blocking);
    case SendNextEvent(o) => NextCounted(s, o);
    case DecoyEvent(m, o) => DecoyCounted(s, m, o);
    case RetransmitEvent => RetransmitCounted(s);
    case AckEvent(surb, usable) => OnAckCounted(s, surb, usable);
    case CollectEvent(surb) => CollectCounted(s, surb);
    case PollEvent(e) =>
      if e.priority < s.clock {
        ForwardCounted(s, e);
      } else {
        QuietCounted(s, Step(s, ev));
      }
    case AlarmEvent(e) =>
      Disarmed(s);
      QuietCounted(s, s.(armed := None));
      ForwardCounted(s.(armed := None), e);
    case WakeEvent => QuietCounted(s, Step(s, ev));
    case TickEvent(_) => QuietCounted(s, Step(s, ev));
  }

  lemma Disarmed(s: State)
    requires Inv(s)
    ensures Inv(s.(armed := None))
  {
    QuietInv(s, s.(armed := None));
  }

  // ---- the deadlines that were logged

  lemma SentBacksOff(s: State, m: MsgId, o: Outcome)
    requires Known(s) && BacksOff(s) && m in s.messages && TimesSent(s.log, m) == s.messages[m].retransmissions
    requires !s.messages[m].reliable ==> s.messages[m].priority == 0
    ensures BacksOff(DoSend(s, m, o))
  {
    var t := DoSend(s, m, o);
    BackOffStays(s, t);
    assert t.log[..|s.log|] == s.log;
    forall k: nat | k < |t.log| ensures BacksOffAt(t, k) {
      if k == |s.log| {
        Distribute(o.eta, s.messages[m].retransmissions);
      }
    }
  }

  lemma Distribute(eta: nat, r: nat)
    ensures ReplyTime(eta, r) + eta == eta * (2 + r)
  {}

  /** A step that sends nothing. */
  lemma UnsentBacksOff(s: State, t: State)
    requires Known(s) && BacksOff(s) && s.log <= t.log
    requires forall m | m in s.messages :: m in t.messages && t.messages[m].reliable == s.messages[m].reliable
    requires forall k: nat | |s.log| <= k < |t.log| :: t.log[k].Ended?
    ensures BacksOff(t)
  {
    BackOffStays(s, t);
  }

  lemma QuietSteps(s: State, ev: Event)
    requires Enabled(s, ev) && !ev.SendNextEvent? && !ev.DecoyEvent?
    ensures var t := Step(s, ev);
            && s.log <= t.log && (forall k: nat | |s.log| <= k < |t.log| :: t.log[k].Ended?)
            && forall m | m in s.messages :: m in t.messages && t.messages[m].reliable == s.messages[m].reliable
  {
    hide Fresh, Least, Expired;
    match ev
    case SubmitEvent(_, _, _) =>
    case RetransmitEvent =>
    case AckEvent(_, _) =>
    case CollectEvent(_) =>
    case PollEvent(_) =>
    case AlarmEvent(_) =>
    case WakeEvent =>
    case TickEvent(_) =>
  }

  lemma StepBacksOff(s: State, ev: Event)
    requires Inv(s) && Counted(s) && BacksOff(s) && Unscheduled(s) && Enabled(s, ev)
    ensures BacksOff(Step(s, ev))
  {
    hide Queues, Surbs, Timer, Scheduled, Armed, Logged, Fates, Fresh, Least, BacksOff, DoSend, Waiting;
    match ev
    case SendNextEvent(o) =>
      assert s.egress[0] in s.egress && CountedFor(s, s.egress[0]);
      SentBacksOff(s, s.egress[0], o);
      SameLog(DoSend(s, s.egress[0], o), Step(s, ev));
    case DecoyEvent(m, o) =>
      var t := s.(messages := s.messages[m := Message(false, false, true, 0, 0, None, 0, 0)]);
      NeverSent(s.log, m);
      UnsentBacksOff(s, t);
      SentBacksOff(t, m, o);
    case _ =>
      QuietSteps(s, ev);
      UnsentBacksOff(s, Step(s, ev));
  }

  lemma SameLog(s: State, t: State)
    requires BacksOff(s) && t.log == s.log && t.messages == s.messages
    ensures BacksOff(t)
  {
    forall k: nat | k < |t.log| ensures BacksOffAt(t, k) { assert BacksOffAt(s, k); }
  }

  lemma {:induction false} RunCounted(states: seq<State>, events: seq<Event>, i: nat)
    requires Run(states, events) && i < |states|
    ensures Counted(states[i]) && BacksOff(states[i]) && Unscheduled(states[i])
  {
    hide Inv, Step, Enabled, Counted, BacksOff, Unscheduled;
    if i == 0 {
      StartCounted();
    } else {
      RunCounted(states, events, i - 1);
      RunInv(states, events, i - 1);
      assert Enabled(states[i - 1], events[i - 1]) && states[i] == Step(states[i - 1], events[i - 1]);
      StepCounted(states[i - 1], events[i - 1]);
      StepBacksOff(states[i - 1], events[i - 1]);
      StepUnscheduled(states[i - 1], events[i - 1]);
    }
  }

  lemma StartCounted()
    ensures Counted(Start) && BacksOff(Start) && Unscheduled(Start)
  {}

  /** In every run the transmissions of a reliable message back off: the first is due again two round trip times after it was
      made, and each later one a round trip time later than the one before. */
  lemma BacksOffInEveryRun(states: seq<State>, events: seq<Event>, i: nat, k: nat)
    requires Run(states, events) && i < |states| && k < |states[i].log| && states[i].log[k].Sent?
    ensures var s := states[i]; var x := s.log[k];
            && x.msg in s.messages
            && x.deadline == if s.messages[x.msg].reliable then x.at + x.eta * (2 + TimesSent(s.log[..k], x.msg)) else 0
  {
    RunInv(states, events, i);
    RunCounted(states, events, i);
    hide Run, Queues, Surbs, Timer, Scheduled, Armed, Logged, Fates, Counted;
    assert states[i].log[k] in states[i].log;
    assert BacksOffAt(states[i], k);
  }
}
