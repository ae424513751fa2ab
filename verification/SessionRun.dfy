/** What holds in every run of a session: a message is in one place, on one timer, is sent again only when its time
    has come and nothing was heard of it, and is answered at most once. */
module SessionRun {
  import opened EgressQueue
  import opened SessionSpec
  import PQ = PriorityQueue
  import opened Wrappers

  // ---------------------------------------------------------------- the invariant

  ghost predicate NoDuplicates(q: seq<MsgId>) {
    forall i, j :: 0 <= i < j < |q| ==> q[i] != q[j]
  }

  ghost predicate Known(s: State) {
    && (forall m | m in s.egress :: m in s.messages)
    && (forall m | m in s.ops :: m in s.messages)
    && (forall k | k in s.surbs :: s.surbs[k] in s.messages)
    && (forall e | e in s.timer :: e.value in s.messages)
    && (forall x | x in s.log :: x.msg in s.messages)
  }

  ghost predicate Queues(s: State) {
    && NoDuplicates(s.egress) && NoDuplicates(s.ops)
    && forall m | m in s.egress :: m !in s.ops
  }

  /** A SURB entry is the current one of its message, which is in no queue. */
  ghost predicate Surbs(s: State)
    requires Known(s)
  {
    forall k | k in s.surbs ::
      var m := s.surbs[k];
      s.messages[m].surb == Some(k) && m !in s.egress && m !in s.ops && !Fresh(s.log, k)
  }

  /** The SURB identifier of the message is used up, and if it is in the map, it is there for this message. */
  ghost predicate OwnSurb(s: State, m: MsgId)
    requires m in s.messages
  {
    var surb := s.messages[m].surb;
    surb.Some? && !Fresh(s.log, surb.value) && (surb.value in s.surbs ==> s.surbs[surb.value] == m)
  }

  /** A timer entry is that of a reliable message in no queue, at its current deadline. */
  ghost predicate Timer(s: State)
    requires Known(s)
  {
    forall e | e in s.timer ::
      var msg := s.messages[e.value];
      && s.timer[e] == 1 && msg.priority == e.priority && msg.reliable
      && e.value !in s.egress && e.value !in s.ops && OwnSurb(s, e.value)
  }

  /** A reliable message that waits for its reply is on the timer. */
  ghost predicate Scheduled(s: State)
    requires Known(s)
  {
    forall k | k in s.surbs ::
      var m := s.surbs[k];
      s.messages[m].reliable ==> PQ.Entry(m, s.messages[m].priority) in s.timer
  }

  /** Nothing is logged of a message after its end. */
  ghost predicate EndsLast(log: seq<LogEntry>) {
    forall i, j :: 0 <= i < j < |log| && log[i].Ended? ==> log[j].msg != log[i].msg
  }

  /** Two transmissions of a message are at least its deadline apart. */
  ghost predicate Spaced(log: seq<LogEntry>) {
    forall i, j :: 0 <= i < j < |log| && log[i].Sent? && log[j].Sent? && log[i].msg == log[j].msg ==>
      log[i].deadline <= log[j].at
  }

  /** What was sent of a message in a queue is due, and the message is reliable. */
  ghost predicate DueFor(s: State, m: MsgId)
    requires m in s.messages
  {
    forall x | x in s.log && x.Sent? && x.msg == m :: x.deadline <= s.clock && s.messages[m].reliable
  }

  ghost predicate Due(s: State)
    requires Known(s)
  {
    && (forall m | m in s.egress :: DueFor(s, m))
    && (forall m | m in s.ops :: DueFor(s, m))
    && (forall e, x | e in s.timer && x in s.log && x.Sent? && x.msg == e.value :: x.deadline <= e.priority)
  }

  ghost predicate Armed(s: State) {
    s.armed.Some? ==> exists e :: e in s.timer && e.priority <= s.armed.value
  }

  ghost predicate HasEnded(log: seq<LogEntry>, m: MsgId) {
    exists x :: x in log && x.Ended? && x.msg == m
  }

  /** The message waits for a reply. */
  ghost predicate Waiting(s: State, m: MsgId) {
    exists k :: k in s.surbs && s.surbs[k] == m
  }

  ghost predicate Live(s: State, m: MsgId) {
    m in s.egress || m in s.ops || Waiting(s, m)
  }

  /** Where messages are. */
  ghost predicate Places(s: State) {
    Known(s) && Queues(s) && Surbs(s) && Timer(s) && Scheduled(s) && Armed(s)
  }

  /** What was logged. */
  ghost predicate Logged(s: State)
    requires Known(s)
  {
    EndsLast(s.log) && Spaced(s.log) && Due(s)
  }

  ghost predicate Core(s: State) {
    Places(s) && Logged(s)
  }

  /** A message is alive exactly until its end is logged. */
  ghost predicate Fates(s: State) {
    forall m | m in s.messages :: Live(s, m) <==> !HasEnded(s.log, m)
  }

  ghost predicate Inv(s: State) {
    Core(s) && Fates(s)
  }

  // ---------------------------------------------------------------- one message in hand

  /** The invariant with message m in the hands of a handler: nowhere, and not ended. */
  ghost predicate InHand(s: State, m: MsgId) {
    Core(s) && m in s.messages && FatesBut(s, m)
  }

  ghost predicate FatesBut(s: State, m: MsgId) {
    && !Live(s, m) && !HasEnded(s.log, m)
    && forall n | n in s.messages && n != m :: Live(s, n) <==> !HasEnded(s.log, n)
  }

  ghost predicate OffTimer(s: State, m: MsgId) {
    forall e | e in s.timer :: e.value != m
  }

  // ---- the message leaves the hand

  lemma FreshGrows(log: seq<LogEntry>, x: LogEntry)
    ensures forall k :: !Fresh(log, k) ==> !Fresh(log + [x], k)
  {
    forall k | !Fresh(log, k) ensures !Fresh(log + [x], k) {
      var i :| 0 <= i < |log| && log[i].Sent? && log[i].surb == k;
      assert (log + [x])[i] == log[i];
    }
  }

  lemma EndsLastGrows(log: seq<LogEntry>, x: LogEntry)
    requires EndsLast(log) && !HasEnded(log, x.msg)
    ensures EndsLast(log + [x])
  {
    forall i | 0 <= i < |log| && log[i].Ended? ensures log[i].msg != x.msg {
      assert log[i] in log;
    }
  }

  lemma HasEndedGrows(log: seq<LogEntry>, x: LogEntry, m: MsgId)
    ensures HasEnded(log + [x], m) <==> HasEnded(log, m) || (x.Ended? && x.msg == m)
  {
    if HasEnded(log, m) {
      var y :| y in log && y.Ended? && y.msg == m;
      assert y in log + [x];
    } else if x.Ended? && x.msg == m {
      assert x in log + [x];
    }
  }

  lemma EndInHand(s: State, m: MsgId, fate: Fate)
    requires InHand(s, m)
    ensures Inv(s.(log := s.log + [Ended(m, fate)]))
  {
    hide Queues, Surbs, Timer, Scheduled, Armed, Logged, Fates, FatesBut;
    EndPlaces(s, m, fate);
    EndLogged(s, m, fate);
    EndFates(s, m, fate);
  }

  lemma EndPlaces(s: State, m: MsgId, fate: Fate)
    requires Places(s) && m in s.messages
    ensures Places(s.(log := s.log + [Ended(m, fate)]))
  {
    FreshGrows(s.log, Ended(m, fate));
    hide Fresh;
  }

  lemma EndLogged(s: State, m: MsgId, fate: Fate)
    requires Known(s) && Logged(s) && m in s.messages && FatesBut(s, m)
    ensures Known(s.(log := s.log + [Ended(m, fate)])) && Logged(s.(log := s.log + [Ended(m, fate)]))
  {
    EndsLastGrows(s.log, Ended(m, fate));
    hide EndsLast, HasEnded;
  }

  lemma EndFates(s: State, m: MsgId, fate: Fate)
    requires FatesBut(s, m)
    ensures Fates(s.(log := s.log + [Ended(m, fate)]))
  {
    hide HasEnded;
    forall n ensures HasEnded(s.log + [Ended(m, fate)], n) <==> HasEnded(s.log, n) || n == m {
      HasEndedGrows(s.log, Ended(m, fate), n);
    }
  }

  lemma EnqueueInHand(s: State, m: MsgId)
    requires InHand(s, m) && OffTimer(s, m) && DueFor(s, m)
    ensures Inv(s.(egress := s.egress + [m]))
  {
    hide Logged, HasEnded, Fresh;
    var t := s.(egress := s.egress + [m]);
    assert Places(t);
    hide Queues, Surbs, Timer, Scheduled, Armed;
    assert Logged(t) by { EnqueueLogged(s, m); }
  }

  lemma EnqueueLogged(s: State, m: MsgId)
    requires Known(s) && Logged(s) && m in s.messages && DueFor(s, m)
    ensures Known(s.(egress := s.egress + [m])) && Logged(s.(egress := s.egress + [m]))
  {
    hide EndsLast, Spaced;
    var t := s.(egress := s.egress + [m]);
    forall n | n in t.egress ensures DueFor(t, n) { assert DueFor(s, n); }
    forall n | n in t.ops ensures DueFor(t, n) { assert DueFor(s, n); }
  }

  lemma OperateInHand(s: State, m: MsgId)
    requires InHand(s, m) && OffTimer(s, m) && DueFor(s, m)
    ensures Inv(s.(ops := s.ops + [m]))
  {
    hide Logged, HasEnded, Fresh;
    var t := s.(ops := s.ops + [m]);
    assert Places(t);
    hide Queues, Surbs, Timer, Scheduled, Armed;
    assert Logged(t) by { OperateLogged(s, m); }
  }

  lemma OperateLogged(s: State, m: MsgId)
    requires Known(s) && Logged(s) && m in s.messages && DueFor(s, m)
    ensures Known(s.(ops := s.ops + [m])) && Logged(s.(ops := s.ops + [m]))
  {
    hide EndsLast, Spaced;
    var t := s.(ops := s.ops + [m]);
    forall n | n in t.egress ensures DueFor(t, n) { assert DueFor(s, n); }
    forall n | n in t.ops ensures DueFor(t, n) { assert DueFor(s, n); }
  }

  /** A transmission. */
  lemma SendInHand(s: State, m: MsgId, o: Outcome)
    requires InHand(s, m) && OffTimer(s, m) && DueFor(s, m) && Fresh(s.log, o.surb)
    ensures Inv(DoSend(s, m, o))
  {
    var t := s.(messages := s.messages[m := AfterSend(s.messages[m], s.clock, o)]);
    ChangeInHand(s, m, AfterSend(s.messages[m], s.clock, o));
    if o.sent {
      AttachInHand(t, m, o.surb, o.eta);
    } else {
      EndInHand(t, m, Unsent);
    }
  }

  /** The message was sent: it waits for a reply, on the timer if it is reliable. */
  function Attach(s: State, m: MsgId, surb: SurbId, eta: nat): State
    requires m in s.messages
  {
    var msg := s.messages[m];
    s.(surbs := s.surbs[surb := m],
       timer := if msg.reliable then s.timer + multiset{PQ.Entry(m, msg.priority)} else s.timer,
       log := s.log + [Sent(m, surb, s.clock, eta, msg.priority)])
  }

  ghost predicate Attachable(s: State, m: MsgId, surb: SurbId) {
    && InHand(s, m) && OffTimer(s, m) && DueFor(s, m) && Fresh(s.log, surb)
    && s.messages[m].surb == Some(surb) && (s.messages[m].reliable ==> s.clock <= s.messages[m].priority)
  }

  lemma AttachInHand(s: State, m: MsgId, surb: SurbId, eta: nat)
    requires Attachable(s, m, surb)
    ensures Inv(Attach(s, m, surb, eta))
  {
    AttachPlaces(s, m, surb, eta);
    AttachLogged(s, m, surb, eta);
    AttachFates(s, m, surb, eta);
    hide Queues, Surbs, Timer, Scheduled, Armed, Logged, Fates, FatesBut;
  }

  lemma AttachPlaces(s: State, m: MsgId, surb: SurbId, eta: nat)
    requires Attachable(s, m, surb)
    ensures Places(Attach(s, m, surb, eta))
  {
    hide Logged, FatesBut, DueFor, Surbs, Timer, Scheduled, Armed, Queues, Fresh;
    NotLive(s, m);
    AttachSurbs(s, m, surb, eta);
    AttachTimer(s, m, surb, eta);
    AttachRest(s, m, surb, eta);
  }

  lemma AttachRest(s: State, m: MsgId, surb: SurbId, eta: nat)
    requires Known(s) && Queues(s) && Scheduled(s) && Armed(s) && m in s.messages
    ensures var t := Attach(s, m, surb, eta); Known(t) && Queues(t) && Scheduled(t) && Armed(t)
  {
    hide NoDuplicates;
    var t := Attach(s, m, surb, eta);
    if s.armed.Some? {
      var e :| e in s.timer && e.priority <= s.armed.value;
      assert e in t.timer;
    }
  }

  lemma NotLive(s: State, m: MsgId)
    requires FatesBut(s, m)
    ensures m !in s.egress && m !in s.ops && !Waiting(s, m) && !HasEnded(s.log, m)
  {}

  lemma NewSurb(s: State, m: MsgId, surb: SurbId, eta: nat)
    requires Known(s) && Surbs(s) && Fresh(s.log, surb) && m in s.messages
    ensures surb !in s.surbs && !Fresh(Attach(s, m, surb, eta).log, surb)
    ensures forall k :: !Fresh(s.log, k) ==> !Fresh(Attach(s, m, surb, eta).log, k)
  {
    var x := Sent(m, surb, s.clock, eta, s.messages[m].priority);
    var t := Attach(s, m, surb, eta);
    assert t.log[|s.log|] == x;
    FreshGrows(s.log, x);
  }

  lemma AttachSurbs(s: State, m: MsgId, surb: SurbId, eta: nat)
    requires Known(s) && Surbs(s) && Fresh(s.log, surb) && m in s.messages && s.messages[m].surb == Some(surb)
    requires m !in s.egress && m !in s.ops
    ensures Known(Attach(s, m, surb, eta)) && Surbs(Attach(s, m, surb, eta))
  {
    NewSurb(s, m, surb, eta);
    hide Fresh;
  }

  lemma AttachTimer(s: State, m: MsgId, surb: SurbId, eta: nat)
    requires Known(s) && Surbs(s) && Timer(s) && Fresh(s.log, surb) && m in s.messages && s.messages[m].surb == Some(surb)
    requires m !in s.egress && m !in s.ops && OffTimer(s, m)
    ensures Known(Attach(s, m, surb, eta)) && Timer(Attach(s, m, surb, eta))
  {
    NewSurb(s, m, surb, eta);
    var t := Attach(s, m, surb, eta);
    forall e | e in t.timer && e.value != m ensures e in s.timer && t.timer[e] == 1 && OwnSurb(t, e.value) {
      assert e in s.timer && OwnSurb(s, e.value);
      assert s.messages[e.value].surb != Some(surb);
    }
    hide Fresh;
    forall e | e in t.timer && e.value == m ensures e == PQ.Entry(m, s.messages[m].priority) && t.timer[e] == 1 {
      assert e !in s.timer;
    }
  }

  lemma AttachLogged(s: State, m: MsgId, surb: SurbId, eta: nat)
    requires Attachable(s, m, surb)
    ensures Known(Attach(s, m, surb, eta)) && Logged(Attach(s, m, surb, eta))
  {
    hide Surbs, Timer, Scheduled, Armed, Fresh, FatesBut, Queues, EndsLast, Spaced, HasEnded, DueFor, Due;
    var x := Sent(m, surb, s.clock, eta, s.messages[m].priority);
    var t := Attach(s, m, surb, eta);
    NotLive(s, m);
    EndsLastGrows(s.log, x);
    SpacedGrows(s, x);
    assert Known(t);
    AttachDue(s, m, surb, eta);
  }

  lemma AttachDue(s: State, m: MsgId, surb: SurbId, eta: nat)
    requires Known(s) && Due(s) && m in s.messages && m !in s.egress && m !in s.ops && OffTimer(s, m) && DueFor(s, m)
    requires s.messages[m].reliable ==> s.clock <= s.messages[m].priority
    requires Known(Attach(s, m, surb, eta))
    ensures Due(Attach(s, m, surb, eta))
  {
    var t := Attach(s, m, surb, eta);
    forall n | n in t.egress ensures DueFor(t, n) { assert DueFor(s, n); }
    forall n | n in t.ops ensures DueFor(t, n) { assert DueFor(s, n); }
    forall e, y | e in t.timer && y in t.log && y.Sent? && y.msg == e.value ensures y.deadline <= e.priority {
      assert e in s.timer || e == PQ.Entry(m, s.messages[m].priority);
    }
  }

  lemma SpacedGrows(s: State, x: LogEntry)
    requires Spaced(s.log) && x.Sent? && x.msg in s.messages && DueFor(s, x.msg) && x.at == s.clock
    ensures Spaced(s.log + [x])
  {
    forall i | 0 <= i < |s.log| && s.log[i].Sent? && s.log[i].msg == x.msg ensures s.log[i].deadline <= x.at {
      assert s.log[i] in s.log;
    }
  }

  lemma AttachFates(s: State, m: MsgId, surb: SurbId, eta: nat)
    requires Attachable(s, m, surb)
    ensures Fates(Attach(s, m, surb, eta))
  {
    var x := Sent(m, surb, s.clock, eta, s.messages[m].priority);
    var t := Attach(s, m, surb, eta);
    assert surb !in s.surbs by { hide HasEnded, Logged; }
    hide HasEnded, Places, Logged;
    forall n ensures HasEnded(t.log, n) <==> HasEnded(s.log, n) { HasEndedGrows(s.log, x, n); }
    assert t.surbs[surb] == m && Waiting(t, m);
    forall n | n in s.messages && n != m ensures Waiting(t, n) <==> Waiting(s, n) {
      if Waiting(s, n) {
        var k :| k in s.surbs && s.surbs[k] == n;
        assert k in t.surbs && t.surbs[k] == n;
      }
    }
  }

  /** The handler may change the message in its hand, off the timer. */
  lemma ChangeInHand(s: State, m: MsgId, msg: Message)
    requires InHand(s, m) && OffTimer(s, m) && DueFor(s, m) && msg.reliable == s.messages[m].reliable
    ensures var t := s.(messages := s.messages[m := msg]); InHand(t, m) && OffTimer(t, m) && DueFor(t, m)
  {
    hide Queues, Surbs, Timer, Scheduled, Armed, Logged, HasEnded;
    var t := s.(messages := s.messages[m := msg]);
    NotLive(s, m);
    ChangePlaces(s, m, msg);
    ChangeLogged(s, m, msg);
    assert forall n :: Live(t, n) <==> Live(s, n);
    hide Live;
  }

  lemma ChangePlaces(s: State, m: MsgId, msg: Message)
    requires Places(s) && OffTimer(s, m) && m in s.messages && !Waiting(s, m)
    ensures Places(s.(messages := s.messages[m := msg]))
  {
    hide Fresh;
  }

  lemma ChangeLogged(s: State, m: MsgId, msg: Message)
    requires Known(s) && Logged(s) && m in s.messages && msg.reliable == s.messages[m].reliable
    ensures var t := s.(messages := s.messages[m := msg]); Known(t) && Logged(t)
  {
    hide EndsLast, Spaced;
    var t := s.(messages := s.messages[m := msg]);
    forall n | n in t.egress ensures DueFor(t, n) { assert DueFor(s, n); }
    forall n | n in t.ops ensures DueFor(t, n) { assert DueFor(s, n); }
  }

  // ---- the message comes to hand

  lemma TakeFromEgress(s: State)
    requires Inv(s) && s.egress != []
    ensures var m := s.egress[0]; var t := s.(egress := s.egress[1..]); InHand(t, m) && OffTimer(t, m) && DueFor(t, m)
  {
    var m := s.egress[0];
    var t := s.(egress := s.egress[1..]);
    EgressPlaces(s);
    hide Queues, Surbs, Timer, Scheduled, Armed, EndsLast, Spaced, HasEnded;
    assert m in s.egress && forall n | n in t.egress :: n in s.egress;
    KeepLogged(s, t);
    HeadTaken(s.egress);
    assert DueFor(s, m);
    TakenFates(s, t, m);
  }

  lemma EgressPlaces(s: State)
    requires Places(s) && s.egress != []
    ensures var m := s.egress[0]; var t := s.(egress := s.egress[1..]); Places(t) && OffTimer(t, m) && !Live(t, m)
  {
    hide Fresh;
    var m := s.egress[0];
    var t := s.(egress := s.egress[1..]);
    assert m in s.egress && forall n | n in t.egress :: n in s.egress;
    assert m !in t.egress;
  }

  lemma OpsPlaces(s: State)
    requires Places(s) && s.ops != []
    ensures var m := s.ops[0]; var t := s.(ops := s.ops[1..]); Places(t) && OffTimer(t, m) && !Live(t, m)
  {
    hide Fresh;
    var m := s.ops[0];
    var t := s.(ops := s.ops[1..]);
    assert m in s.ops && forall n | n in t.ops :: n in s.ops;
    assert m !in t.ops;
  }

  lemma TakenFates(s: State, t: State, m: MsgId)
    requires Fates(s) && Live(s, m) && !Live(t, m) && m in s.messages && t.messages == s.messages && t.log == s.log
    requires forall n | n != m :: Live(t, n) <==> Live(s, n)
    ensures FatesBut(t, m)
  {
    hide Live, HasEnded;
  }

  lemma HeadTaken(q: seq<MsgId>)
    requires q != []
    ensures forall n | n != q[0] :: n in q <==> n in q[1..]
  {
    assert q == [q[0]] + q[1..];
  }

  /** The log stays as it was when queues and timer shrink. */
  lemma KeepLogged(s: State, t: State)
    requires Known(s) && Logged(s) && Known(t) && t.log == s.log && t.messages == s.messages && t.clock == s.clock
    requires (forall n | n in t.egress :: n in s.egress) && (forall n | n in t.ops :: n in s.ops) && t.timer <= s.timer
    ensures Logged(t)
  {
    hide EndsLast, Spaced;
    forall n | n in t.egress ensures DueFor(t, n) { assert DueFor(s, n); }
    forall n | n in t.ops ensures DueFor(t, n) { assert DueFor(s, n); }
    assert forall e | e in t.timer :: e in s.timer;
  }

  lemma TakeFromOps(s: State)
    requires Inv(s) && s.ops != []
    ensures var m := s.ops[0]; var t := s.(ops := s.ops[1..]); InHand(t, m) && OffTimer(t, m) && DueFor(t, m)
  {
    var m := s.ops[0];
    var t := s.(ops := s.ops[1..]);
    OpsPlaces(s);
    hide Queues, Surbs, Timer, Scheduled, Armed, EndsLast, Spaced, HasEnded;
    assert m in s.ops && forall n | n in t.ops :: n in s.ops;
    KeepLogged(s, t);
    HeadTaken(s.ops);
    assert DueFor(s, m);
    TakenFates(s, t, m);
  }

  lemma TakeFromSurbs(s: State, k: SurbId)
    requires Inv(s) && k in s.surbs
    ensures InHand(s.(surbs := s.surbs - {k}), s.surbs[k])
  {
    var m := s.surbs[k];
    var t := s.(surbs := s.surbs - {k});
    SurbPlaces(s, k);
    hide Queues, Surbs, Timer, Scheduled, Armed, EndsLast, Spaced, HasEnded;
    KeepLogged(s, t);
    assert Waiting(s, m);
    OthersWait(s, k);
    TakenFates(s, t, m);
  }

  lemma SurbPlaces(s: State, k: SurbId)
    requires Places(s) && k in s.surbs
    ensures var m := s.surbs[k]; var t := s.(surbs := s.surbs - {k}); Places(t) && !Live(t, m)
  {
    hide Fresh;
    var t := s.(surbs := s.surbs - {k});
    forall j | j in t.surbs ensures t.surbs[j] != s.surbs[k] {
      assert s.messages[s.surbs[j]].surb == Some(j);
    }
  }

  lemma OthersWait(s: State, k: SurbId)
    requires k in s.surbs
    ensures var t := s.(surbs := s.surbs - {k}); forall n | n != s.surbs[k] :: Live(t, n) <==> Live(s, n)
  {
    var t := s.(surbs := s.surbs - {k});
    forall n | n != s.surbs[k] ensures Waiting(t, n) <==> Waiting(s, n) {
      if Waiting(s, n) {
        var j :| j in s.surbs && s.surbs[j] == n;
        assert j in t.surbs && t.surbs[j] == n;
      }
    }
  }

  /** An entry whose message does not wait leaves the timer. */
  lemma RemoveEntry(s: State, e: Entry)
    requires Core(s) && e in s.timer && s.armed.None? && !Waiting(s, e.value)
    ensures Core(s.(timer := s.timer - multiset{e})) && OffTimer(s.(timer := s.timer - multiset{e}), e.value)
  {
    var t := s.(timer := s.timer - multiset{e});
    RemovePlaces(s, e);
    hide EndsLast, Spaced, Queues, Surbs, Timer, Scheduled, Armed;
    KeepLogged(s, t);
  }

  lemma RemovePlaces(s: State, e: Entry)
    requires Places(s) && e in s.timer && s.armed.None? && !Waiting(s, e.value)
    ensures Places(s.(timer := s.timer - multiset{e})) && OffTimer(s.(timer := s.timer - multiset{e}), e.value)
  {
    hide OwnSurb, Fresh;
    var t := s.(timer := s.timer - multiset{e});
    forall m ensures m in s.messages ==> OwnSurb(t, m) == OwnSurb(s, m) { OwnSurbKept(s, t, m); }
    forall f | f in t.timer ensures f in s.timer && f.value != e.value && t.timer[f] == s.timer[f] {}
    assert Timer(t);
    assert Scheduled(t);
  }

  lemma OwnSurbKept(s: State, t: State, m: MsgId)
    requires t.messages == s.messages && t.log == s.log && t.surbs == s.surbs
    ensures m in s.messages ==> OwnSurb(t, m) == OwnSurb(s, m)
  {}

  /** What was sent of a message on the timer is due when its entry is. */
  lemma EntryDue(s: State, e: Entry)
    requires Core(s) && e in s.timer && e.priority <= s.clock
    ensures DueFor(s, e.value)
  {
    hide EndsLast, Spaced, Queues, Surbs, Scheduled, Armed;
  }

  lemma NewInHand(s: State, m: MsgId, msg: Message)
    requires Inv(s) && m !in s.messages
    ensures var t := s.(messages := s.messages[m := msg]); InHand(t, m) && OffTimer(t, m) && DueFor(t, m)
  {
    var t := s.(messages := s.messages[m := msg]);
    NewPlaces(s, m, msg);
    NewLogged(s, m, msg);
    hide Queues, Surbs, Timer, Scheduled, Armed, Logged;
    assert !HasEnded(s.log, m);
    assert forall n :: Live(t, n) <==> Live(s, n);
    hide Live, HasEnded;
  }

  lemma NewPlaces(s: State, m: MsgId, msg: Message)
    requires Places(s) && m !in s.messages
    ensures var t := s.(messages := s.messages[m := msg]); Places(t) && OffTimer(t, m) && !Live(t, m)
  {
    hide Fresh;
  }

  lemma NewLogged(s: State, m: MsgId, msg: Message)
    requires Known(s) && Logged(s) && m !in s.messages
    ensures var t := s.(messages := s.messages[m := msg]); Known(t) && Logged(t)
  {
    hide EndsLast, Spaced;
    var t := s.(messages := s.messages[m := msg]);
    forall n | n in t.egress ensures DueFor(t, n) { assert DueFor(s, n); }
    forall n | n in t.ops ensures DueFor(t, n) { assert DueFor(s, n); }
  }

  // ---------------------------------------------------------------- every step keeps the invariant

  lemma SubmitInv(s: State, m: MsgId, reliable: bool, blocking: bool)
    requires Inv(s) && m !in s.messages
    ensures Inv(Submit(s, m, reliable, blocking))
  {
    hide Inv, InHand, DueFor;
    if |s.egress| < MAX_EGRESS_QUEUE_SIZE {
      var msg := Message(reliable, blocking, false, 0, 0, None, 0, 0);
      NewInHand(s, m, msg);
      EnqueueInHand(s.(messages := s.messages[m := msg]), m);
    }
  }

  lemma SendNextInv(s: State, o: Outcome)
    requires Inv(s) && s.egress != [] && s.egress[0] in s.messages && Fresh(s.log, o.surb)
    ensures Inv(SendNext(s, o))
  {
    hide Inv, InHand, DueFor, Fresh, AfterSend;
    TakeFromEgress(s);
    SendInHand(s.(egress := s.egress[1..]), s.egress[0], o);
  }

  lemma DecoyInv(s: State, m: MsgId, o: Outcome)
    requires Inv(s) && m !in s.messages && Fresh(s.log, o.surb)
    ensures Inv(SendDecoy(s, m, o))
  {
    hide Inv, InHand, DueFor, Fresh, DoSend;
    var msg := Message(false, false, true, 0, 0, None, 0, 0);
    NewInHand(s, m, msg);
    SendInHand(s.(messages := s.messages[m := msg]), m, o);
  }

  lemma RetransmitInv(s: State)
    requires Inv(s) && s.ops != [] && s.ops[0] in s.messages
    ensures Inv(Retransmit(s))
  {
    hide Inv, InHand, DueFor;
    var m := s.ops[0];
    var t := s.(ops := s.ops[1..]);
    var msg := s.messages[m].(retransmissions := s.messages[m].retransmissions + 1);
    TakeFromOps(s);
    ChangeInHand(t, m, msg);
    var u := t.(messages := t.messages[m := msg]);
    if |s.egress| < MAX_EGRESS_QUEUE_SIZE {
      EnqueueInHand(u, m);
    } else {
      EndInHand(u, m, Crowded);
    }
  }

  lemma AckInv(s: State, surb: SurbId, usable: bool)
    requires Inv(s)
    ensures Inv(OnAck(s, surb, usable))
  {
    hide Inv, InHand;
    if surb in s.surbs {
      TakeFromSurbs(s, surb);
      EndInHand(s.(surbs := s.surbs - {surb}), s.surbs[surb], if usable then Answered else Discarded);
    }
  }

  lemma CollectInv(s: State, surb: SurbId)
    requires Inv(s) && surb in s.surbs && s.surbs[surb] in s.messages
    ensures Inv(Collect(s, surb))
  {
    hide Inv, InHand, Expired;
    if Expired(s.messages[s.surbs[surb]], s.clock) {
      TakeFromSurbs(s, surb);
      EndInHand(s.(surbs := s.surbs - {surb}), s.surbs[surb], Collected);
    }
  }

  lemma ForwardInv(s: State, e: Entry)
    requires Inv(s) && e in s.timer && e.value in s.messages && s.armed.None? && e.priority <= s.clock
    ensures Inv(Forward(s, e))
  {
    hide Queues, Surbs, Timer, Scheduled, Armed, Logged, Fates, DueFor, Waiting;
    EntryOwner(s, e);
    var surb := s.messages[e.value].surb;
    if surb.value in s.surbs {
      ForwardWaiting(s, e, surb.value);
    } else {
      RemoveEntry(s, e);
      TimerIsNoPlace(s, s.(timer := s.timer - multiset{e}), e.value);
    }
  }

  lemma ForwardWaiting(s: State, e: Entry, k: SurbId)
    requires Inv(s) && e in s.timer && s.armed.None? && e.priority <= s.clock && k in s.surbs && s.surbs[k] == e.value
    ensures Inv(s.(surbs := s.surbs - {k}, timer := s.timer - multiset{e}, ops := s.ops + [e.value]))
  {
    var t := s.(surbs := s.surbs - {k});
    var u := t.(timer := t.timer - multiset{e});
    EntryDue(s, e);
    TakeFromSurbs(s, k);
    NotLive(t, e.value);
    hide Places, Logged, Fates, FatesBut;
    RemoveEntry(t, e);
    TimerIsNoPlace(t, u, e.value);
    OperateInHand(u, e.value);
  }

  lemma TimerIsNoPlace(s: State, t: State, m: MsgId)
    requires t == s.(timer := t.timer)
    ensures (Fates(s) ==> Fates(t)) && (FatesBut(s, m) ==> FatesBut(t, m))
  {
    hide HasEnded;
    assert forall n :: Live(t, n) <==> Live(s, n);
    hide Live;
  }

  lemma EntryOwner(s: State, e: Entry)
    requires Places(s) && e in s.timer
    ensures var surb := s.messages[e.value].surb;
            surb.Some? && if surb.value in s.surbs then s.surbs[surb.value] == e.value else !Waiting(s, e.value)
  {
    hide Fresh;
  }

  /** Time passes, or the alarm is set or cleared. */
  lemma QuietInv(s: State, t: State)
    requires Inv(s) && s.clock <= t.clock && t == s.(clock := t.clock, armed := t.armed) && Armed(t)
    ensures Inv(t)
  {
    QuietPlaces(s, t);
    QuietLogged(s, t);
    hide Queues, Surbs, Timer, Scheduled, Armed, Logged, HasEnded;
    assert forall n :: Live(t, n) <==> Live(s, n);
    hide Live;
  }

  lemma QuietPlaces(s: State, t: State)
    requires Places(s) && t == s.(clock := t.clock, armed := t.armed) && Armed(t)
    ensures Places(t)
  {
    hide OwnSurb, Fresh, Armed;
    forall m ensures m in s.messages ==> OwnSurb(t, m) == OwnSurb(s, m) { OwnSurbKept(s, t, m); }
  }

  lemma QuietLogged(s: State, t: State)
    requires Known(s) && Known(t) && Logged(s) && s.clock <= t.clock && t == s.(clock := t.clock, armed := t.armed)
    ensures Logged(t)
  {
    hide EndsLast, Spaced;
    forall n | n in t.egress ensures DueFor(t, n) { assert DueFor(s, n); }
    forall n | n in t.ops ensures DueFor(t, n) { assert DueFor(s, n); }
  }

  /** The alarm does not go off before the head of the queue is due. */
  lemma AlarmDue(s: State, e: Entry)
    requires Armed(s) && s.armed.Some? && s.armed.value <= s.clock && Least(s.timer, e)
    ensures e.priority <= s.clock
  {}

  lemma StepInv(s: State, ev: Event)
    requires Inv(s) && Enabled(s, ev)
    ensures Inv(Step(s, ev))
  {
    hide Queues, Surbs, Timer, Scheduled, Logged, Fates, Fresh, Forward, DoSend, SendNext, Retransmit, OnAck, Collect;
    match ev
    case SubmitEvent(m, reliable, blocking) => SubmitInv(s, m, reliable, blocking);
    case SendNextEvent(o) => SendNextInv(s, o);
    case DecoyEvent(m, o) => DecoyInv(s, m, o);
    case RetransmitEvent => RetransmitInv(s);
    case AckEvent(surb, usable) => AckInv(s, surb, usable);
    case CollectEvent(surb) => CollectInv(s, surb);
    case PollEvent(e) =>
      if e.priority < s.clock {
        ForwardInv(s, e);
      } else {
        QuietInv(s, s.(armed := Some(e.priority)));
      }
    case AlarmEvent(e) =>
      AlarmDue(s, e);
      QuietInv(s, s.(armed := None));
      ForwardInv(s.(armed := None), e);
    case WakeEvent => QuietInv(s, s.(armed := None));
    case TickEvent(elapsed) => QuietInv(s, s.(clock := s.clock + elapsed));
  }

  lemma {:induction false} RunInv(states: seq<State>, events: seq<Event>, i: nat)
    requires Run(states, events) && i < |states|
    ensures Inv(states[i])
  {
    hide Inv, Step, Enabled;
    if i == 0 {
      StartInv();
    } else {
      RunInv(states, events, i - 1);
      assert Enabled(states[i - 1], events[i - 1]) && states[i] == Step(states[i - 1], events[i - 1]);
      StepInv(states[i - 1], events[i - 1]);
    }
  }

  lemma StartInv()
    ensures Inv(Start)
  {}

  // ---------------------------------------------------------------- theorems

  ghost function SurbsOf(s: State, m: MsgId): set<SurbId> {
    set k | k in s.surbs && s.surbs[k] == m
  }

  /** In how many places a message is: the egress queue, the pending operations, the SURB map. */
  ghost function Copies(s: State, m: MsgId): nat {
    multiset(s.egress)[m] + multiset(s.ops)[m] + |SurbsOf(s, m)|
  }

  lemma CountNoDuplicates(q: seq<MsgId>, m: MsgId)
    requires NoDuplicates(q)
    ensures multiset(q)[m] == if m in q then 1 else 0
  {
    if m in q {
      var i :| 0 <= i < |q| && q[i] == m;
      assert q == q[..i] + [m] + q[i + 1..];
      assert m !in q[..i] && m !in q[i + 1..];
    }
  }

  lemma CountSurbs(s: State, m: MsgId)
    requires Places(s)
    ensures |SurbsOf(s, m)| == if Waiting(s, m) then 1 else 0
  {
    hide Queues, Timer, Scheduled, Armed, Fresh;
    if Waiting(s, m) {
      var k :| k in s.surbs && s.surbs[k] == m;
      assert forall j | j in SurbsOf(s, m) :: s.messages[s.surbs[j]].surb == Some(j);
      assert SurbsOf(s, m) == {k};
    } else {
      assert SurbsOf(s, m) == {};
    }
  }

  /** In every state of every run a message is in exactly one place until its end is logged, and then in none. */
  lemma OnePlace(states: seq<State>, events: seq<Event>, i: nat, m: MsgId)
    requires Run(states, events) && i < |states| && m in states[i].messages
    ensures Copies(states[i], m) == if HasEnded(states[i].log, m) then 0 else 1
  {
    var s := states[i];
    RunInv(states, events, i);
    hide HasEnded, Logged, Timer, Scheduled, Armed, Fresh, Run, NoDuplicates;
    CountNoDuplicates(s.egress, m);
    CountNoDuplicates(s.ops, m);
    CountSurbs(s, m);
    assert Live(s, m) <==> !HasEnded(s.log, m);
    if Waiting(s, m) {
      var k :| k in s.surbs && s.surbs[k] == m;
      assert m !in s.egress && m !in s.ops;
    }
  }

  /** In every state of every run a message has at most one timer entry. */
  lemma OneTimerEntry(states: seq<State>, events: seq<Event>, i: nat, e: Entry, f: Entry)
    requires Run(states, events) && i < |states| && e in states[i].timer && f in states[i].timer && e.value == f.value
    ensures e == f && states[i].timer[e] == 1
  {
    RunInv(states, events, i);
    hide Logged, Fates, Fresh, Run, Queues, Surbs, Scheduled, Armed, OwnSurb;
  }

  /** In every run a message is sent again only when the deadline of every earlier transmission has passed, and
      nothing happens to it after its end; so it is never sent after it was answered, and answered at most once. */
  lemma SentWhenDue(states: seq<State>, events: seq<Event>, i: nat, a: nat, b: nat)
    requires Run(states, events) && i < |states| && a < b < |states[i].log|
    requires states[i].log[a].msg == states[i].log[b].msg
    ensures states[i].log[a].Sent? && (states[i].log[b].Sent? ==> states[i].log[a].deadline <= states[i].log[b].at)
  {
    RunInv(states, events, i);
    hide Places, Fates, Run, Due;
  }

  /** Only reliable messages are sent again. */
  lemma ResentIsReliable(states: seq<State>, events: seq<Event>, i: nat, m: MsgId, x: LogEntry)
    requires Run(states, events) && i < |states| && x in states[i].log && x.Sent? && x.msg == m
    requires m in states[i].egress || m in states[i].ops
    ensures m in states[i].messages && states[i].messages[m].reliable && x.deadline <= states[i].clock
  {
    RunInv(states, events, i);
    hide Queues, Surbs, Timer, Scheduled, Armed, Fates, EndsLast, Spaced, Run;
    assert DueFor(states[i], m);
  }
}
