/** Every message that is alive can still be sent. */
module SessionResend {
  import opened EgressQueue
  import opened SessionSpec
  import opened SessionRun
  import PQ = PriorityQueue
  import opened Wrappers

  // ---------------------------------------------------------------- continuations

  ghost predicate Continues(s: State, events: seq<Event>, t: State)
    decreases |events|
  {
    if events == [] then t == s else Enabled(s, events[0]) && Continues(Step(s, events[0]), events[1..], t)
  }

  /** From s the session can get to t, and no message is lost on the way: whatever is logged is a transmission. */
  ghost predicate Leads(s: State, t: State) {
    && (exists events :: Continues(s, events, t))
    && s.log <= t.log && forall k: nat | |s.log| <= k < |t.log| :: t.log[k].Sent?
  }

  lemma {:induction false} ContinuesJoin(s: State, a: seq<Event>, t: State, b: seq<Event>, u: State)
    requires Continues(s, a, t) && Continues(t, b, u)
    ensures Continues(s, a + b, u)
    decreases |a|
  {
    hide Enabled, Step;
    if a == [] {
      assert a + b == b;
    } else {
      ContinuesJoin(Step(s, a[0]), a[1..], t, b, u);
      assert (a + b)[1..] == a[1..] + b;
    }
  }

  lemma LeadsJoin(s: State, t: State, u: State)
    requires Leads(s, t) && Leads(t, u)
    ensures Leads(s, u)
  {
    hide Continues;
    var a :| Continues(s, a, t);
    var b :| Continues(t, b, u);
    ContinuesJoin(s, a, t, b, u);
  }

  lemma LeadsSame(s: State)
    ensures Leads(s, s)
  {
    assert Continues(s, [], s);
  }

  lemma LeadsStep(s: State, ev: Event)
    requires Inv(s) && Enabled(s, ev)
    requires var t := Step(s, ev); s.log <= t.log && forall k: nat | |s.log| <= k < |t.log| :: t.log[k].Sent?
    ensures Leads(s, Step(s, ev)) && Inv(Step(s, ev))
  {
    hide Inv, Enabled, Step;
    StepInv(s, ev);
    assert [ev][1..] == [];
    assert Continues(Step(s, ev), [], Step(s, ev));
    assert Continues(s, [ev], Step(s, ev));
  }

  lemma {:induction false} FreshSurb(log: seq<LogEntry>) returns (surb: SurbId)
    ensures forall i :: 0 <= i < |log| && log[i].Sent? ==> log[i].surb < surb
    ensures Fresh(log, surb)
  {
    if log == [] {
      surb := 0;
    } else {
      var n := |log| - 1;
      surb := FreshSurb(log[..n]);
      assert forall i :: 0 <= i < n ==> log[..n][i] == log[i];
      if log[n].Sent? && log[n].surb >= surb {
        surb := log[n].surb + 1;
      }
    }
  }

  // ---------------------------------------------------------------- sending what is queued

  /** The message was sent between s and t. */
  ghost predicate SentBetween(s: State, t: State, m: MsgId) {
    exists k: nat :: |s.log| <= k < |t.log| && t.log[k].Sent? && t.log[k].msg == m && t.log[k].at >= s.clock
  }

  /** What waits in s still waits in t, as it was; timer entries that are new are not due before the time of s; time and alarm
      stand still. */
  ghost predicate Steady(s: State, t: State) {
    && t.clock == s.clock && t.armed == s.armed
    && (forall k | k in s.surbs && s.surbs[k] in s.messages :: k in t.surbs && t.surbs[k] == s.surbs[k]
          && s.surbs[k] in t.messages && t.messages[s.surbs[k]] == s.messages[s.surbs[k]])
    && (forall e | e in t.timer :: e in s.timer || e.priority >= s.clock)
  }

  lemma SteadyJoin(s: State, t: State, u: State)
    requires Steady(s, t) && Steady(t, u)
    ensures Steady(s, u)
  {}

  lemma SentJoins(s: State, t: State, u: State, m: MsgId)
    requires Leads(s, t) && Leads(t, u) && s.clock <= t.clock
    ensures SentBetween(s, t, m) || SentBetween(t, u, m) ==> SentBetween(s, u, m)
  {
    hide Continues;
    if SentBetween(s, t, m) {
      var k: nat :| |s.log| <= k < |t.log| && t.log[k].Sent? && t.log[k].msg == m && t.log[k].at >= s.clock;
      assert u.log[k] == t.log[k];
    } else if SentBetween(t, u, m) {
      var k: nat :| |t.log| <= k < |u.log| && u.log[k].Sent? && u.log[k].msg == m && u.log[k].at >= t.clock;
      assert |s.log| <= k;
    }
  }

  lemma EgressHead(s: State)
    requires Inv(s) && s.egress != []
    ensures s.egress[0] in s.messages && !Waiting(s, s.egress[0])
  {
    hide Queues, Timer, Scheduled, Armed, Logged, Fates, Fresh;
    assert s.egress[0] in s.egress;
  }

  lemma OpsHead(s: State)
    requires Inv(s) && s.ops != []
    ensures s.ops[0] in s.messages && !Waiting(s, s.ops[0])
  {
    hide Queues, Timer, Scheduled, Armed, Logged, Fates, Fresh;
    assert s.ops[0] in s.ops;
  }

  lemma SurbIsNew(s: State, surb: SurbId)
    requires Inv(s) && Fresh(s.log, surb)
    ensures surb !in s.surbs
  {
    hide Queues, Timer, Scheduled, Armed, Logged, Fates;
  }

  lemma SendSteady(s: State, m: MsgId, o: Outcome)
    requires m in s.messages && !Waiting(s, m) && o.surb !in s.surbs && o.sent
    ensures var t := DoSend(s, m, o);
            && Steady(s, t) && t.egress == s.egress && t.ops == s.ops
            && exists x: LogEntry :: t.log == s.log + [x] && x.Sent? && x.msg == m && x.at == s.clock
  {
    var t := DoSend(s, m, o);
    assert t.log == s.log + [Sent(m, o.surb, s.clock, o.eta, t.messages[m].priority)];
  }

  lemma EgressDropped(s: State, t: State)
    requires Steady(s, t)
    ensures forall q :: Steady(s, t.(egress := q))
  {}

  /** The head of the egress queue is sent, with any round trip time. */
  lemma SendsHead(s: State, eta: nat) returns (t: State)
    requires Inv(s) && s.egress != []
    ensures Inv(t) && Leads(s, t) && Steady(s, t) && SentBetween(s, t, s.egress[0])
    ensures t.egress == s.egress[1..] && t.ops == s.ops
  {
    hide Inv, Steady, DoSend, Fresh, Waiting, Continues;
    var m := s.egress[0];
    var surb := FreshSurb(s.log);
    var o := Outcome(surb, true, eta);
    EgressHead(s);
    SurbIsNew(s, surb);
    SendSteady(s, m, o);
    EgressDropped(s, DoSend(s, m, o));
    var x :| DoSend(s, m, o).log == s.log + [x] && x.Sent? && x.msg == m && x.at == s.clock;
    t := Step(s, SendNextEvent(o));
    assert t.log[|s.log|] == x;
    LeadsStep(s, SendNextEvent(o));
  }

  lemma {:induction false} SendsQueue(s: State, eta: nat) returns (t: State)
    requires Inv(s)
    ensures Inv(t) && Leads(s, t) && Steady(s, t) && t.egress == [] && t.ops == s.ops
    ensures forall m | m in s.egress :: SentBetween(s, t, m)
    decreases |s.egress|
  {
    hide Inv, Leads, Steady, SentBetween;
    if s.egress == [] {
      LeadsSame(s);
      SteadySame(s);
      t := s;
    } else {
      var u := SendsHead(s, eta);
      t := SendsQueue(u, eta);
      LeadsJoin(s, u, t);
      SteadyJoin(s, u, t);
      forall m | m in s.egress ensures SentBetween(s, t, m) {
        assert s.egress == [s.egress[0]] + s.egress[1..];
        SteadyClock(s, u);
        SentJoins(s, u, t, m);
      }
    }
  }

  lemma SteadySame(s: State)
    ensures Steady(s, s)
  {}

  lemma SteadyClock(s: State, t: State)
    requires Steady(s, t)
    ensures t.clock == s.clock && t.armed == s.armed
  {}

  lemma RetransmitSteady(s: State)
    requires s.ops != [] && s.ops[0] in s.messages && !Waiting(s, s.ops[0]) && s.egress == []
    ensures var t := Retransmit(s); Steady(s, t) && t.log == s.log && t.egress == [s.ops[0]] && t.ops == s.ops[1..]
  {}

  /** The first pending operation is queued again and sent. */
  lemma ResendsFirst(s: State, eta: nat) returns (t: State)
    requires Inv(s) && s.egress == [] && s.ops != []
    ensures Inv(t) && Leads(s, t) && Steady(s, t) && SentBetween(s, t, s.ops[0])
    ensures t.egress == [] && t.ops == s.ops[1..]
  {
    hide Inv, Leads, Steady, SentBetween, Retransmit, Waiting;
    var m := s.ops[0];
    OpsHead(s);
    RetransmitSteady(s);
    LeadsStep(s, RetransmitEvent);
    var u := Step(s, RetransmitEvent);
    t := SendsHead(u, eta);
    LeadsJoin(s, u, t);
    SteadyJoin(s, u, t);
    SteadyClock(s, u);
    SentJoins(s, u, t, m);
  }

  lemma {:induction false} ResendsPending(s: State, eta: nat) returns (t: State)
    requires Inv(s) && s.egress == []
    ensures Inv(t) && Leads(s, t) && Steady(s, t) && t.egress == [] && t.ops == []
    ensures forall m | m in s.ops :: SentBetween(s, t, m)
    decreases |s.ops|
  {
    hide Inv, Leads, Steady, SentBetween;
    if s.ops == [] {
      LeadsSame(s);
      SteadySame(s);
      t := s;
    } else {
      var u := ResendsFirst(s, eta);
      t := ResendsPending(u, eta);
      LeadsJoin(s, u, t);
      SteadyJoin(s, u, t);
      forall m | m in s.ops ensures SentBetween(s, t, m) {
        assert s.ops == [s.ops[0]] + s.ops[1..];
        SteadyClock(s, u);
        SentJoins(s, u, t, m);
      }
    }
  }

  /** Everything that is queued or pending is sent. */
  lemma Settles(s: State, eta: nat) returns (t: State)
    requires Inv(s)
    ensures Inv(t) && Leads(s, t) && Steady(s, t) && t.egress == [] && t.ops == []
    ensures forall m | m in s.egress || m in s.ops :: SentBetween(s, t, m)
  {
    hide Inv, Leads, Steady, SentBetween;
    var u := SendsQueue(s, eta);
    t := ResendsPending(u, eta);
    LeadsJoin(s, u, t);
    SteadyJoin(s, u, t);
    SteadyClock(s, u);
    forall m | m in s.egress || m in s.ops ensures SentBetween(s, t, m) {
      SentJoins(s, u, t, m);
    }
  }

  // ---------------------------------------------------------------- the timer's turn

  lemma {:induction false} LeastExists(timer: multiset<Entry>, f: Entry) returns (e: Entry)
    requires f in timer
    ensures Least(timer, e) && e.priority <= f.priority
    decreases f.priority
  {
    if g :| g in timer && g.priority < f.priority {
      e := LeastExists(timer, g);
    } else {
      e := f;
    }
  }

  /** The message waits for its reply, on the timer until then. */
  ghost predicate Awaits(s: State, m: MsgId, k: SurbId, due: nat) {
    && k in s.surbs && s.surbs[k] == m && m in s.messages && s.messages[m].reliable && s.messages[m].surb == Some(k)
    && s.messages[m].priority == due && PQ.Entry(m, due) in s.timer
  }

  lemma WaitingAwaits(s: State, m: MsgId)
    requires Inv(s) && m in s.messages && s.messages[m].reliable && Waiting(s, m)
    ensures exists k :: Awaits(s, m, k, s.messages[m].priority)
  {
    hide Queues, Timer, Armed, Logged, Fates, Fresh;
    var k :| k in s.surbs && s.surbs[k] == m;
    assert Awaits(s, m, k, s.messages[m].priority);
  }

  lemma SteadyAwaits(s: State, t: State, m: MsgId, k: SurbId, due: nat)
    requires Inv(t) && Steady(s, t) && Awaits(s, m, k, due)
    ensures Awaits(t, m, k, due)
  {
    hide Queues, Surbs, Timer, Armed, Logged, Fates;
  }

  /** The timer entries that are due no later than the given time. */
  ghost function DueBy(s: State, due: nat): set<Entry> { set e | e in s.timer && e.priority <= due }

  lemma EntryKnown(s: State, e: Entry)
    requires Inv(s) && e in s.timer
    ensures e.value in s.messages
  {
    hide Queues, Surbs, Timer, Scheduled, Armed, Logged, Fates;
  }

  /** A due head of the timer queue is forwarded. */
  lemma Forwards(s: State, e: Entry)
    requires Inv(s) && e.value in s.messages && s.armed.None? && Least(s.timer, e) && e.priority < s.clock
    ensures Leads(s, Forward(s, e)) && Inv(Forward(s, e)) && Forward(s, e).log == s.log && Forward(s, e).egress == s.egress
    ensures Forward(s, e).armed.None? && Forward(s, e).clock == s.clock
    ensures Forward(s, e).ops == s.ops || Forward(s, e).ops == s.ops + [e.value]
  {
    hide Queues, Surbs, Timer, Scheduled, Armed, Logged, Fates;
    assert Enabled(s, PollEvent(e)) && Step(s, PollEvent(e)) == Forward(s, e);
    LeadsStep(s, PollEvent(e));
  }

  /** The entry that comes first is that of the message: the message becomes a pending operation. */
  lemma OwnTurn(s: State, m: MsgId, k: SurbId, due: nat)
    requires Awaits(s, m, k, due)
    ensures Forward(s, PQ.Entry(m, due)).ops == s.ops + [m]
  {}

  /** The entry of another message comes first. */
  lemma OtherTurn(s: State, e: Entry, m: MsgId, k: SurbId, due: nat)
    requires Inv(s) && Awaits(s, m, k, due) && e in s.timer && e.value != m
    ensures Awaits(Forward(s, e), m, k, due)
    ensures e !in Forward(s, e).timer && forall f | f in Forward(s, e).timer :: f in s.timer
  {
    hide Queues, Scheduled, Armed, Logged, Fates, Fresh;
  }

  lemma SoleEntry(s: State, e: Entry, m: MsgId, k: SurbId, due: nat)
    requires Inv(s) && Awaits(s, m, k, due) && e in s.timer && e.value == m
    ensures e == PQ.Entry(m, due)
  {
    hide Queues, Surbs, Scheduled, Armed, Logged, Fates, OwnSurb;
  }

  lemma FewerDue(s: State, t: State, u: State, e: Entry, due: nat)
    requires e in s.timer && e.priority <= due < s.clock && e !in t.timer && (forall f | f in t.timer :: f in s.timer)
    requires Steady(t, u) && t.clock == s.clock
    ensures |DueBy(u, due)| < |DueBy(s, due)|
  {
    assert DueBy(u, due) <= DueBy(s, due) - {e};
    assert |DueBy(s, due) - {e}| == |DueBy(s, due)| - 1;
    SubsetSize(DueBy(u, due), DueBy(s, due) - {e});
  }

  lemma {:induction false} SubsetSize<T>(a: set<T>, b: set<T>)
    requires a <= b
    ensures |a| <= |b|
    decreases |a|
  {
    if a != {} {
      var x :| x in a;
      SubsetSize(a - {x}, b - {x});
    }
  }

  /** A message whose time has come is sent again, when the entries before it have had their turn. */
  lemma {:induction false} TurnComes(s: State, m: MsgId, k: SurbId, due: nat, eta: nat) returns (t: State)
    requires Inv(s) && s.egress == [] && s.ops == [] && s.armed.None? && Awaits(s, m, k, due) && due < s.clock
    ensures Inv(t) && Leads(s, t) && SentBetween(s, t, m)
    decreases |DueBy(s, due)|
  {
    hide Inv, Leads, Steady, SentBetween, Forward, DueBy;
    var e := LeastExists(s.timer, PQ.Entry(m, due));
    EntryKnown(s, e);
    Forwards(s, e);
    var u := Forward(s, e);
    var v := ResendsPending(u, eta);
    LeadsJoin(s, u, v);
    SteadyClock(u, v);
    if e.value == m {
      SoleEntry(s, e, m, k, due);
      OwnTurn(s, m, k, due);
      assert m in u.ops;
      SentJoins(s, u, v, m);
      t := v;
    } else {
      OtherTurn(s, e, m, k, due);
      SteadyAwaits(u, v, m, k, due);
      FewerDue(s, u, v, e, due);
      t := TurnComes(v, m, k, due, eta);
      LeadsJoin(s, v, t);
      SentJoins(s, v, t, m);
    }
  }

  /** The alarm is cleared and time passes. */
  lemma Waits(s: State, elapsed: nat) returns (t: State)
    requires Inv(s)
    ensures Inv(t) && Leads(s, t) && t == s.(armed := None, clock := s.clock + elapsed)
  {
    hide Inv, Leads;
    LeadsStep(s, WakeEvent);
    var u := Step(s, WakeEvent);
    LeadsStep(u, TickEvent(elapsed));
    t := Step(u, TickEvent(elapsed));
    LeadsJoin(s, u, t);
  }

  /** From every state that meets the invariant a reliable message that waits for its reply can be sent again, after its time has
      come, without any message being lost. */
  lemma WaitingIsResent(s: State, m: MsgId, eta: nat) returns (t: State)
    requires Inv(s) && m in s.messages && s.messages[m].reliable && Waiting(s, m)
    ensures Leads(s, t)
    ensures exists i: nat :: |s.log| <= i < |t.log| && t.log[i].Sent? && t.log[i].msg == m && t.log[i].at > s.messages[m].priority
  {
    var due := s.messages[m].priority;
    WaitingAwaits(s, m);
    var k :| Awaits(s, m, k, due);
    hide Inv, Leads, Steady, Awaits, SentBetween;
    var u := Settles(s, eta);
    SteadyAwaits(s, u, m, k, due);
    var v := Waits(u, due + 1);
    SameAwaits(u, v, m, k, due);
    t := TurnComes(v, m, k, due, eta);
    LeadsJoin(u, v, t);
    LeadsJoin(s, u, t);
    LeadsJoin(s, u, v);
    LoggedLater(s, v, t, m);
  }

  lemma SameAwaits(s: State, t: State, m: MsgId, k: SurbId, due: nat)
    requires Awaits(s, m, k, due) && t == s.(armed := t.armed, clock := t.clock)
    ensures Awaits(t, m, k, due)
  {}

  lemma LoggedLater(s: State, v: State, t: State, m: MsgId)
    requires Leads(s, v) && SentBetween(v, t, m)
    ensures exists i: nat :: |s.log| <= i < |t.log| && t.log[i].Sent? && t.log[i].msg == m && t.log[i].at >= v.clock
  {}

  // ---------------------------------------------------------------- theorems

  /** From every state of every run in which a reliable message waits for its reply there is a continuation that loses no message
      and in which it is sent again, not before the deadline of any of its earlier transmissions. */
  lemma ResentInEveryRun(states: seq<State>, events: seq<Event>, m: MsgId, eta: nat) returns (t: State)
    requires Run(states, events) && Waiting(states[|events|], m)
    requires var s := states[|events|]; m in s.messages && s.messages[m].reliable
    ensures var s := states[|events|];
            && Leads(s, t)
            && exists i: nat :: && |s.log| <= i < |t.log| && t.log[i].Sent? && t.log[i].msg == m
                                && forall x | x in s.log && x.Sent? && x.msg == m :: x.deadline <= t.log[i].at
  {
    var s := states[|events|];
    RunInv(states, events, |events|);
    hide Run, Leads;
    t := WaitingIsResent(s, m, eta);
    EarlierDue(s, m);
  }

  lemma EarlierDue(s: State, m: MsgId)
    requires Inv(s) && m in s.messages && s.messages[m].reliable && Waiting(s, m)
    ensures forall x | x in s.log && x.Sent? && x.msg == m :: x.deadline <= s.messages[m].priority
  {
    hide Queues, Surbs, Timer, Armed, EndsLast, Spaced, Fates;
    var k :| k in s.surbs && s.surbs[k] == m;
    assert PQ.Entry(m, s.messages[m].priority) in s.timer;
  }

  /** From every state of every run in which a message is in the egress queue or a pending operation there is a continuation that
      loses no message and in which it is sent. */
  lemma SentInEveryRun(states: seq<State>, events: seq<Event>, m: MsgId, eta: nat) returns (t: State)
    requires Run(states, events) && (m in states[|events|].egress || m in states[|events|].ops)
    ensures Leads(states[|events|], t) && SentBetween(states[|events|], t, m)
  {
    RunInv(states, events, |events|);
    hide Run, Leads, Inv;
    t := Settles(states[|events|], eta);
  }

  /** In every run a message that is submitted is queued, with what was asked for it, exactly when there is room for it. */
  lemma SubmittedIsQueuedIff(states: seq<State>, events: seq<Event>, i: nat)
    requires Run(states, events) && i < |events| && events[i].SubmitEvent?
    ensures var m, s, t := events[i].m, states[i], states[i + 1];
            && (m in t.messages <==> |s.egress| < MAX_EGRESS_QUEUE_SIZE)
            && (m in t.messages ==>
                  && t.egress == s.egress + [m]
                  && t.messages[m].reliable == events[i].reliable && t.messages[m].blocking == events[i].blocking)
  {
    assert Enabled(states[i], events[i]) && states[i + 1] == Step(states[i], events[i]);
  }

  /** The states that the worker goes through when it polls a head that is not due, waits, and is woken by its alarm. */
  ghost predicate AlarmRun(s: State, e: Entry, u: State, v: State, t: State) {
    && Enabled(s, PollEvent(e)) && u == Step(s, PollEvent(e))
    && Enabled(u, TickEvent(if s.clock <= e.priority then e.priority - s.clock else 0))
    && v == Step(u, TickEvent(if s.clock <= e.priority then e.priority - s.clock else 0))
    && Enabled(v, AlarmEvent(e)) && t == Step(v, AlarmEvent(e))
  }

  /** In every run, when the head of the timer queue is not due yet, the worker's alarm makes its message a pending operation, at
      the time at which it is due. */
  lemma AlarmBringsItsHead(states: seq<State>, events: seq<Event>, e: Entry) returns (u: State, v: State, t: State)
    requires Run(states, events)
    requires var s := states[|events|]; s.armed.None? && Least(s.timer, e) && s.clock <= e.priority && Waiting(s, e.value)
    ensures var s := states[|events|];
            AlarmRun(s, e, u, v, t) && t.clock == e.priority && t.ops == s.ops + [e.value] && e !in t.timer
  {
    var s := states[|events|];
    RunInv(states, events, |events|);
    hide Run, Inv, Waiting, AlarmRun, Forward;
    EntryKnown(s, e);
    WaitingSurb(s, e);
    u := s.(armed := Some(e.priority));
    v := u.(clock := e.priority);
    t := Forward(v.(armed := None), e);
    AlarmSteps(s, e);
    ForwardsWaiting(v.(armed := None), e);
  }

  lemma AlarmSteps(s: State, e: Entry)
    requires s.armed.None? && Least(s.timer, e) && e.value in s.messages && s.clock <= e.priority
    ensures var u := s.(armed := Some(e.priority));
            var v := u.(clock := e.priority);
            AlarmRun(s, e, u, v, Forward(v.(armed := None), e))
  {
    hide Forward, Least, Fresh;
    var u := s.(armed := Some(e.priority));
    assert Step(s, PollEvent(e)) == u;
  }

  lemma ForwardsWaiting(s: State, e: Entry)
    requires e.value in s.messages && s.timer[e] == 1
    requires var surb := s.messages[e.value].surb; surb.Some? && surb.value in s.surbs
    ensures var t := Forward(s, e); t.clock == s.clock && t.ops == s.ops + [e.value] && e !in t.timer
  {}

  lemma WaitingSurb(s: State, e: Entry)
    requires Inv(s) && e in s.timer && e.value in s.messages && Waiting(s, e.value)
    ensures var surb := s.messages[e.value].surb; surb.Some? && surb.value in s.surbs && s.timer[e] == 1
  {
    hide Queues, Scheduled, Armed, Logged, Fates, Fresh, OwnSurb;
    var k :| k in s.surbs && s.surbs[k] == e.value;
  }
}
