/** Reliable delivery in a client session (client/send.go, client/session.go, client/timer_queue.go): what each
    handler does to the queues, and what holds in every run. Handlers are atomic steps; messages are named by their
    identifiers; the times read from the clock never decrease. */
module SessionSpec {
  import opened EgressQueue
  import PQ = PriorityQueue
  import opened Wrappers

  type MsgId = nat
  type SurbId = nat
  type Entry = PQ.Entry<MsgId>

  /** Nanoseconds. */
  const ROUND_TRIP_TIME_SLOP := 60_000_000_000

  datatype Message = Message(reliable: bool, blocking: bool, decoy: bool, sentAt: nat, replyEta: nat,
                             surb: Option<SurbId>, priority: nat, retransmissions: nat)

  /** How the session is done with a message: the reply was handed over, sending failed, the egress queue was full
      when it was to be sent again, its SURB entry was collected, or a reply came that could not be used. */
  datatype Fate = Answered | Unsent | Crowded | Collected | Discarded

  /** A transmission is logged with its round trip time estimate and the time at which the message is to be sent again. */
  datatype LogEntry =
    | Sent(msg: MsgId, surb: SurbId, at: nat, eta: nat, deadline: nat)
    | Ended(msg: MsgId, fate: Fate)

  datatype State = State(clock: nat, messages: map<MsgId, Message>, egress: seq<MsgId>, ops: seq<MsgId>,
                         surbs: map<SurbId, MsgId>, timer: multiset<Entry>, armed: Option<nat>, log: seq<LogEntry>)

  const Start := State(0, map[], [], [], map[], multiset{}, None, [])

  /** What the network layer makes of a transmission: its SURB identifier, whether it went out, the round trip time. */
  datatype Outcome = Outcome(surb: SurbId, sent: bool, eta: nat)

  // ---------------------------------------------------------------- handlers

  /** SendReliableMessage and SendUnreliableMessage, blocking or not. */
  function Submit(s: State, m: MsgId, reliable: bool, blocking: bool): State {
    if |s.egress| >= MAX_EGRESS_QUEUE_SIZE then s
    else s.(messages := s.messages[m := Message(reliable, blocking, false, 0, 0, None, 0, 0)], egress := s.egress + [m])
  }

  /** The time allowed for a reply grows with each retransmission. */
  function ReplyTime(eta: nat, retransmissions: nat): nat { eta * (1 + retransmissions) }

  /** The message after a transmission. */
  function AfterSend(msg: Message, now: nat, o: Outcome): Message {
    if !o.sent then msg.(surb := Some(o.surb))
    else
      var replyEta := ReplyTime(o.eta, msg.retransmissions);
      msg.(surb := Some(o.surb), sentAt := now, replyEta := replyEta,
           priority := if msg.reliable then now + replyEta + o.eta else msg.priority)
  }

  /** doSend, for messages with a SURB. */
  function DoSend(s: State, m: MsgId, o: Outcome): State
    requires m in s.messages
  {
    var msg := AfterSend(s.messages[m], s.clock, o);
    var t := s.(messages := s.messages[m := msg]);
    if !o.sent then t.(log := t.log + [Ended(m, Unsent)])
    else
      t.(surbs := t.surbs[o.surb := m],
         timer := if msg.reliable then t.timer + multiset{PQ.Entry(m, msg.priority)} else t.timer,
         log := t.log + [Sent(m, o.surb, s.clock, o.eta, msg.priority)])
  }

  /** sendNext: the head of the egress queue is sent and popped. */
  function SendNext(s: State, o: Outcome): State
    requires s.egress != [] && s.egress[0] in s.messages
  {
    DoSend(s, s.egress[0], o).(egress := s.egress[1..])
  }

  /** sendLoopDecoy */
  function SendDecoy(s: State, m: MsgId, o: Outcome): State {
    DoSend(s.(messages := s.messages[m := Message(false, false, true, 0, 0, None, 0, 0)]), m, o)
  }

  /** Push, which the timer queue calls with a message whose time has come. */
  function Push(s: State, m: MsgId): State
    requires m in s.messages
  {
    var surb := s.messages[m].surb;
    if surb.Some? && surb.value in s.surbs then s.(surbs := s.surbs - {surb.value}, ops := s.ops + [m]) else s
  }

  /** forward: the entry e leaves the timer queue and is pushed. */
  function Forward(s: State, e: Entry): State
    requires e.value in s.messages
  {
    Push(s.(timer := s.timer - multiset{e}), e.value)
  }

  /** doRetransmit, on the first pending operation. */
  function Retransmit(s: State): State
    requires s.ops != [] && s.ops[0] in s.messages
  {
    var m := s.ops[0];
    var msg := s.messages[m];
    var t := s.(messages := s.messages[m := msg.(retransmissions := msg.retransmissions + 1)], ops := s.ops[1..]);
    if |s.egress| < MAX_EGRESS_QUEUE_SIZE then t.(egress := t.egress + [m]) else t.(log := t.log + [Ended(m, Crowded)])
  }

  /** onACK; `usable` if the reply decrypts to a payload of the right size and, for a blocking send, is waited for. */
  function OnAck(s: State, surb: SurbId, usable: bool): State {
    if surb !in s.surbs then s
    else
      var m := s.surbs[surb];
      s.(surbs := s.surbs - {surb}, log := s.log + [Ended(m, if usable then Answered else Discarded)])
  }

  predicate Expired(msg: Message, now: nat) { now > msg.sentAt + msg.replyEta + ROUND_TRIP_TIME_SLOP }

  /** garbageCollect, on one entry of the SURB map. */
  function Collect(s: State, surb: SurbId): State
    requires surb in s.surbs && s.surbs[surb] in s.messages
  {
    var m := s.surbs[surb];
    if Expired(s.messages[m], s.clock) then s.(surbs := s.surbs - {surb}, log := s.log + [Ended(m, Collected)]) else s
  }

  // ---------------------------------------------------------------- runs

  /** The timer worker polls the head of its queue, is woken by its alarm, or is woken by a push. An entry is given
      where the worker looks at the queue: some entry of least priority. */
  datatype Event =
    | SubmitEvent(m: MsgId, reliable: bool, blocking: bool)
    | SendNextEvent(o: Outcome)
    | DecoyEvent(m: MsgId, o: Outcome)
    | RetransmitEvent
    | AckEvent(surb: SurbId, usable: bool)
    | CollectEvent(surb: SurbId)
    | PollEvent(e: Entry)
    | AlarmEvent(e: Entry)
    | WakeEvent
    | TickEvent(elapsed: nat)

  /** No message was sent with this SURB identifier before. */
  ghost predicate Fresh(log: seq<LogEntry>, surb: SurbId) {
    forall i :: 0 <= i < |log| && log[i].Sent? ==> log[i].surb != surb
  }

  ghost predicate Least(timer: multiset<Entry>, e: Entry) {
    e in timer && forall f | f in timer :: e.priority <= f.priority
  }

  /** Identifiers are fresh; a handler runs when there is something for it to handle. */
  ghost predicate Enabled(s: State, ev: Event) {
    match ev
    case SubmitEvent(m, _, _) => m !in s.messages
    case SendNextEvent(o) => s.egress != [] && s.egress[0] in s.messages && Fresh(s.log, o.surb)
    case DecoyEvent(m, o) => m !in s.messages && Fresh(s.log, o.surb)
    case RetransmitEvent => s.ops != [] && s.ops[0] in s.messages
    case AckEvent(_, _) => true
    case CollectEvent(surb) => surb in s.surbs && s.surbs[surb] in s.messages
    case PollEvent(e) => s.armed.None? && Least(s.timer, e) && e.value in s.messages
    case AlarmEvent(e) => s.armed.Some? && s.armed.value <= s.clock && Least(s.timer, e) && e.value in s.messages
    case WakeEvent => true
    case TickEvent(_) => true
  }

  /** What the timer worker does with the head of its queue: forward it, or set the alarm. */
  function Poll(s: State, e: Entry): State
    requires e.value in s.messages
  {
    if e.priority < s.clock then Forward(s, e) else s.(armed := Some(e.priority))
  }

  ghost function Step(s: State, ev: Event): State
    requires Enabled(s, ev)
  {
    match ev
    case SubmitEvent(m, reliable, blocking) => Submit(s, m, reliable, blocking)
    case SendNextEvent(o) => SendNext(s, o)
    case DecoyEvent(m, o) => SendDecoy(s, m, o)
    case RetransmitEvent => Retransmit(s)
    case AckEvent(surb, usable) => OnAck(s, surb, usable)
    case CollectEvent(surb) => Collect(s, surb)
    case PollEvent(e) => Poll(s, e)
    case AlarmEvent(e) => Forward(s.(armed := None), e)
    case WakeEvent => s.(armed := None)
    case TickEvent(elapsed) => s.(clock := s.clock + elapsed)
  }

  /** The states a run goes through. */
  ghost predicate Run(states: seq<State>, events: seq<Event>) {
    && |states| == |events| + 1 && states[0] == Start
    && forall i :: 0 <= i < |events| ==> Enabled(states[i], events[i]) && states[i + 1] == Step(states[i], events[i])
  }
}
