/** The collector of SURB entries (garbageCollect in client/session.go) against the timer: when it takes the entry of a
    reliable message, the message is lost. */
module SessionCollect {
  import opened EgressQueue
  import opened SessionSpec
  import opened SessionRun
  import PQ = PriorityQueue
  import opened Wrappers

  // ---------------------------------------------------------------- what an entry records

  /** The message is as the transmission x left it. */
  ghost predicate Stamped(msg: Message, x: LogEntry)
    requires x.Sent?
  {
    msg.sentAt == x.at && (msg.reliable ==> msg.priority == x.deadline == x.at + msg.replyEta + x.eta)
  }

  /** A waiting message is as its last transmission, the one with its SURB identifier, left it. */
  ghost predicate Stamps(s: State) {
    forall k, x | k in s.surbs && s.surbs[k] in s.messages && x in s.log && x.Sent? && x.surb == k ::
      x.msg == s.surbs[k] && Stamped(s.messages[s.surbs[k]], x)
  }

  /** Every entry of the SURB map was there before, with the same message, and nothing was sent. */
  ghost predicate Undisturbed(s: State, t: State) {
    && (forall k | k in t.surbs && t.surbs[k] in t.messages ::
          k in s.surbs && s.surbs[k] == t.surbs[k] && t.surbs[k] in s.messages
          && t.messages[t.surbs[k]] == s.messages[t.surbs[k]])
    && forall x | x in t.log && x.Sent? :: x in s.log
  }

  lemma UndisturbedStamps(s: State, t: State)
    requires Stamps(s) && Undisturbed(s, t)
    ensures Stamps(t)
  {}

  lemma NotFresh(log: seq<LogEntry>, x: LogEntry)
    requires x in log && x.Sent?
    ensures !Fresh(log, x.surb)
  {}

  /** A message that does not wait is sent. */
  lemma SendStamps(s: State, m: MsgId, o: Outcome)
    requires Stamps(s) && Known(s) && Surbs(s) && m in s.messages && !Waiting(s, m) && Fresh(s.log, o.surb)
    ensures Stamps(DoSend(s, m, o))
  {
    hide Fresh;
    var t := DoSend(s, m, o);
    forall k, x | k in t.surbs && t.surbs[k] in t.messages && x in t.log && x.Sent? && x.surb == k
      ensures x.msg == t.surbs[k] && Stamped(t.messages[t.surbs[k]], x)
    {
      if x in s.log {
        NotFresh(s.log, x);
        assert k in s.surbs && s.surbs[k] != m;
      }
    }
  }

  lemma NextStamps(s: State, o: Outcome)
    requires Inv(s) && Stamps(s) && s.egress != [] && s.egress[0] in s.messages && Fresh(s.log, o.surb)
    ensures Stamps(SendNext(s, o))
  {
    hide Queues, Timer, Scheduled, Armed, Logged, Fates, Fresh, DoSend, Stamps;
    var m := s.egress[0];
    assert m in s.egress;
    SendStamps(s, m, o);
    UndisturbedStamps(DoSend(s, m, o), SendNext(s, o));
  }

  lemma DecoyStamps(s: State, m: MsgId, o: Outcome)
    requires Inv(s) && Stamps(s) && m !in s.messages && Fresh(s.log, o.surb)
    ensures Stamps(SendDecoy(s, m, o))
  {
    hide Queues, Timer, Scheduled, Armed, Logged, Fates, Fresh, DoSend, Stamps;
    var t := s.(messages := s.messages[m := Message(false, false, true, 0, 0, None, 0, 0)]);
    UndisturbedStamps(s, t);
    SendStamps(t, m, o);
  }

  /** A message taken from the pending operations does not wait. */
  lemma RetransmitUndisturbed(s: State)
    requires Known(s) && Surbs(s) && s.ops != [] && s.ops[0] in s.messages
    ensures Undisturbed(s, Retransmit(s))
  {
    hide Fresh;
    assert s.ops[0] in s.ops;
  }

  lemma SubmitUndisturbed(s: State, m: MsgId, reliable: bool, blocking: bool)
    requires Known(s) && m !in s.messages
    ensures Undisturbed(s, Submit(s, m, reliable, blocking))
  {}

  lemma EndUndisturbed(s: State, k: SurbId, m: MsgId, fate: Fate)
    requires Known(s)
    ensures Undisturbed(s, s.(surbs := s.surbs - {k}, log := s.log + [Ended(m, fate)]))
  {}

  lemma ForwardUndisturbed(s: State, e: Entry)
    requires Known(s) && e.value in s.messages
    ensures Undisturbed(s, Forward(s, e))
  {}

  lemma QuietUndisturbed(s: State, t: State)
    requires Known(s) && t == s.(clock := t.clock, armed := t.armed)
    ensures Undisturbed(s, t)
  {}

  lemma StepStamps(s: State, ev: Event)
    requires Inv(s) && Stamps(s) && Enabled(s, ev)
    ensures Stamps(Step(s, ev))
  {
    hide Queues, Surbs, Timer, Scheduled, Armed, Logged, Fates, Fresh, Least, Stamps, Undisturbed, Submit, SendNext, SendDecoy,
         Retransmit, OnAck, Collect, Poll, Forward;
    match ev
    case SendNextEvent(o) => NextStamps(s, o);
    case DecoyEvent(m, o) => DecoyStamps(s, m, o);
    case RetransmitEvent =>
      RetransmitUndisturbed(s);
      UndisturbedStamps(s, Step(s, ev));
    case SubmitEvent(m, reliable, blocking) =>
      SubmitUndisturbed(s, m, reliable, blocking);
      UndisturbedStamps(s, Step(s, ev));
    case AckEvent(surb, usable) => AckStamps(s, surb, usable);
    case CollectEvent(surb) => CollectStamps(s, surb);
    case PollEvent(e) => PollStamps(s, e);
    case AlarmEvent(e) =>
      QuietUndisturbed(s, s.(armed := None));
      UndisturbedStamps(s, s.(armed := None));
      ForwardUndisturbed(s.(armed := None), e);
      UndisturbedStamps(s.(armed := None), Step(s, ev));
    case WakeEvent =>
      QuietUndisturbed(s, Step(s, ev));
      UndisturbedStamps(s, Step(s, ev));
    case TickEvent(_) =>
      QuietUndisturbed(s, Step(s, ev));
      UndisturbedStamps(s, Step(s, ev));
  }

  lemma AckStamps(s: State, surb: SurbId, usable: bool)
    requires Known(s) && Stamps(s)
    ensures Stamps(OnAck(s, surb, usable))
  {
    hide Known, Stamps, Undisturbed;
    if surb in s.surbs {
      EndUndisturbed(s, surb, s.surbs[surb], if usable then Answered else Discarded);
      UndisturbedStamps(s, OnAck(s, surb, usable));
    }
  }

  lemma CollectStamps(s: State, surb: SurbId)
    requires Known(s) && Stamps(s) && surb in s.surbs && s.surbs[surb] in s.messages
    ensures Stamps(Collect(s, surb))
  {
    hide Known, Stamps, Undisturbed, Expired;
    EndUndisturbed(s, surb, s.surbs[surb], Collected);
    if Expired(s.messages[s.surbs[surb]], s.clock) {
      UndisturbedStamps(s, Collect(s, surb));
    }
  }

  lemma PollStamps(s: State, e: Entry)
    requires Known(s) && Stamps(s) && e.value in s.messages
    ensures Stamps(Poll(s, e))
  {
    hide Known, Stamps, Undisturbed, Forward;
    if e.priority < s.clock {
      ForwardUndisturbed(s, e);
    } else {
      QuietUndisturbed(s, Poll(s, e));
    }
    UndisturbedStamps(s, Poll(s, e));
  }

  lemma {:induction false} RunStamps(states: seq<State>, events: seq<Event>, i: nat)
    requires Run(states, events) && i < |states|
    ensures Stamps(states[i])
  {
    hide Inv, Step, Enabled;
    if i > 0 {
      RunStamps(states, events, i - 1);
      RunInv(states, events, i - 1);
      assert Enabled(states[i - 1], events[i - 1]) && states[i] == Step(states[i - 1], events[i - 1]);
      StepStamps(states[i - 1], events[i - 1]);
    }
  }

  // ---------------------------------------------------------------- when the collector takes an entry

  /** In state s the collector takes the entry of the reliable message that the transmission x sent. */
  ghost predicate Takes(s: State, x: LogEntry) {
    && x in s.log && x.Sent? && x.surb in s.surbs && s.surbs[x.surb] in s.messages
    && s.messages[s.surbs[x.surb]].reliable && Collect(s, x.surb) != s
  }

  /** In every run, when the collector takes the entry of a reliable message, the message still has its timer entry, and
      either that entry is overdue or the round trip time estimate exceeds the collector's slop. */
  lemma TakenOverdueOrSlow(states: seq<State>, events: seq<Event>, i: nat, x: LogEntry)
    requires Run(states, events) && i < |states| && Takes(states[i], x)
    ensures PQ.Entry(x.msg, x.deadline) in states[i].timer
    ensures x.deadline < states[i].clock || x.eta > ROUND_TRIP_TIME_SLOP
    ensures Collect(states[i], x.surb).log == states[i].log + [Ended(x.msg, Collected)]
  {
    RunInv(states, events, i);
    RunStamps(states, events, i);
    hide Run, Queues, Surbs, Timer, Armed, Logged, Fates;
  }

  // ---------------------------------------------------------------- the message is lost

  lemma StepLog(s: State, ev: Event)
    requires Enabled(s, ev)
    ensures s.log <= Step(s, ev).log && forall m | m in s.messages :: m in Step(s, ev).messages
  {
    hide Fresh, Least;
  }

  lemma {:induction false} LogGrows(states: seq<State>, events: seq<Event>, i: nat, j: nat)
    requires Run(states, events) && i <= j < |states|
    ensures states[i].log <= states[j].log && forall m | m in states[i].messages :: m in states[j].messages
    decreases j
  {
    hide Step, Enabled;
    if i < j {
      LogGrows(states, events, i, j - 1);
      assert Enabled(states[j - 1], events[j - 1]) && states[j] == Step(states[j - 1], events[j - 1]);
      StepLog(states[j - 1], events[j - 1]);
    }
  }

  /** In every run a message whose end is logged, by the collector or otherwise, is never in a queue or waiting again,
      and nothing more is logged of it: it is not sent again, nor is it answered. */
  lemma LostForGood(states: seq<State>, events: seq<Event>, i: nat, j: nat, x: LogEntry)
    requires Run(states, events) && i <= j < |states| && x in states[i].log && x.Ended?
    ensures x.msg in states[j].messages && Copies(states[j], x.msg) == 0
    ensures states[i].log <= states[j].log
    ensures forall k :: |states[i].log| <= k < |states[j].log| ==> states[j].log[k].msg != x.msg
  {
    hide Step, Enabled, Copies, Inv;
    LogGrows(states, events, i, j);
    RunInv(states, events, j);
    var a :| 0 <= a < |states[i].log| && states[i].log[a] == x;
    assert states[j].log[a] == x && x in states[j].log && HasEnded(states[j].log, x.msg);
    EndedKnown(states[j], x);
    OnePlace(states, events, j, x.msg);
    NothingAfter(states[j], a);
  }

  lemma EndedKnown(s: State, x: LogEntry)
    requires Inv(s) && x in s.log
    ensures x.msg in s.messages
  {
    hide Queues, Surbs, Timer, Scheduled, Armed, Logged, Fates;
  }

  lemma NothingAfter(s: State, a: nat)
    requires Inv(s) && a < |s.log| && s.log[a].Ended?
    ensures forall k :: a < k < |s.log| ==> s.log[k].msg != s.log[a].msg
  {
    hide Places, Spaced, Due, Fates;
  }

  /** A reliable message whose entry the collector takes is lost: in every continuation of the run it is never sent. */
  lemma TakenIsLost(states: seq<State>, events: seq<Event>, i: nat, j: nat, x: LogEntry)
    requires Run(states, events) && i < j < |states| && Takes(states[i], x) && events[i] == CollectEvent(x.surb)
    ensures Copies(states[j], x.msg) == 0
    ensures forall k :: |states[i].log| <= k < |states[j].log| && states[j].log[k].Sent? ==> states[j].log[k].msg != x.msg
  {
    hide Collect, Copies;
    TakenOverdueOrSlow(states, events, i, x);
    assert states[i + 1] == Step(states[i], events[i]) == Collect(states[i], x.surb);
    var n := |states[i].log|;
    assert states[i + 1].log[n] == Ended(x.msg, Collected);
    LostForGood(states, events, i + 1, j, Ended(x.msg, Collected));
    assert states[j].log[n] == states[i + 1].log[n];
  }

  // ---------------------------------------------------------------- both cases happen

  /** A run that sends one reliable message, waits, and calls the collector. */
  ghost function Waited(eta: nat, wait: nat): seq<Event> {
    [SubmitEvent(0, true, false), SendNextEvent(Outcome(0, true, eta)), TickEvent(wait)]
  }

  ghost function SentMessage(eta: nat): Message { Message(true, false, false, 0, eta, Some(0), 2 * eta, 0) }

  ghost function WaitedStates(eta: nat, wait: nat): seq<State> {
    var queued := Start.(messages := map[0 := Message(true, false, false, 0, 0, None, 0, 0)], egress := [0]);
    var sent := Start.(messages := map[0 := SentMessage(eta)], surbs := map[0 := 0],
                       timer := multiset{PQ.Entry(0, 2 * eta)}, log := [Sent(0, 0, 0, eta, 2 * eta)]);
    [Start, queued, sent, sent.(clock := wait)]
  }

  lemma WaitedIsRun(eta: nat, wait: nat)
    ensures Run(WaitedStates(eta, wait), Waited(eta, wait))
  {
    var states, events := WaitedStates(eta, wait), Waited(eta, wait);
    assert states[1] == Step(states[0], events[0]);
    assert Enabled(states[1], events[1]);
    assert states[2] == Step(states[1], events[1]) by {
      assert AfterSend(states[1].messages[0], 0, Outcome(0, true, eta)) == SentMessage(eta);
      assert states[1].egress[1..] == [];
    }
    assert states[3] == Step(states[2], events[2]);
  }

  /** The end of the run has the collector take the entry of a message sent with this estimate before it is overdue. */
  ghost predicate TakenEarly(states: seq<State>, events: seq<Event>, eta: nat) {
    Run(states, events) && exists x :: Takes(states[|events|], x) && x.eta == eta && states[|events|].clock <= x.deadline
  }

  /** The collector can pre-empt the retransmission of a message before its time if and only if the round trip time
      estimate of its transmission exceeds the collector's slop. */
  lemma TakenEarlyIff(eta: nat)
    ensures (exists states: seq<State>, events: seq<Event> :: TakenEarly(states, events, eta)) <==> eta > ROUND_TRIP_TIME_SLOP
  {
    if eta > ROUND_TRIP_TIME_SLOP {
      WaitedIsRun(eta, 2 * eta);
      var states, events := WaitedStates(eta, 2 * eta), Waited(eta, 2 * eta);
      assert Takes(states[3], Sent(0, 0, 0, eta, 2 * eta));
      assert TakenEarly(states, events, eta);
    }
    forall states: seq<State>, events: seq<Event> | TakenEarly(states, events, eta) ensures eta > ROUND_TRIP_TIME_SLOP {
      hide Run, Takes;
      var x :| Takes(states[|events|], x) && x.eta == eta && states[|events|].clock <= x.deadline;
      TakenOverdueOrSlow(states, events, |events|, x);
    }
  }

  /** And once it is overdue, whatever the estimate, the collector can still get to it before the timer does. */
  lemma TakenOverdue(eta: nat)
    ensures exists states: seq<State>, events: seq<Event>, x :: Run(states, events) && Takes(states[|events|], x)
                                                                && x.eta == eta && x.deadline < states[|events|].clock
  {
    var wait := 2 * eta + ROUND_TRIP_TIME_SLOP + 1;
    WaitedIsRun(eta, wait);
    var states, events := WaitedStates(eta, wait), Waited(eta, wait);
    var x := Sent(0, 0, 0, eta, 2 * eta);
    assert Run(states, events) && Takes(states[|events|], x);
  }
}
