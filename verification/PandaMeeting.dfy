/** From every state of every run of the PANDA exchange the two clients can still finish, unless their messages clash. */
module PandaMeeting {
  import opened Octets
  import opened PandaServer
  import opened PandaKx
  import opened PandaRun
  import opened Wrappers

  // ---------------------------------------------------------------- what progress leaves behind

  ghost predicate Complete(w: World, tag: Tag) {
    tag in w.postings && w.postings[tag].b != []
  }

  /** What a client with this snapshot gets from the second exchange: a shared key whose first two octets are zero is refused. */
  function Outcome(e: Setting, i: nat, kx: KeyExchange): Result<Blob, Error>
    requires i < 2 == |e.kxBytes|
  {
    if |kx.sharedKey| == 32 && (kx.sharedKey[0] != 0 || kx.sharedKey[1] != 0) then Success(e.kxBytes[1 - i]) else Failure(ZeroKey)
  }

  ghost predicate Answers(w: World) {
    forall r | r in w.replies && r.response.status.Received2? :: Complete(w, r.post.tag)
  }

  /** A client that is beyond an exchange left a complete posting there; none gives up. */
  ghost predicate Traces(e: Setting, w: World, i: nat)
    requires i < 2 == |e.kxBytes| == |w.clients|
  {
    var c := w.clients[i];
    && (c.saved.status.Exchange2? ==> Complete(w, e.Meeting1()))
    && match c.process
       case Publishing(kx) => kx.status.Exchange2? ==> Complete(w, e.Meeting1())
       case Finished(result) => c.saved.status.Exchange2? && Complete(w, e.Meeting2()) && result == Outcome(e, i, c.saved)
       case Abandoned(_) => false
       case _ => true
  }

  ghost predicate Ledger(e: Setting, w: World) {
    |e.kxBytes| == 2 == |w.clients| && Answers(w) && Traces(e, w, 0) && Traces(e, w, 1)
  }

  /** What was complete stays so. */
  ghost predicate Keeps(w: World, t: World) {
    forall tag :: Complete(w, tag) ==> Complete(t, tag)
  }

  lemma TracesKept(e: Setting, w: World, t: World, i: nat)
    requires |e.kxBytes| == 2 == |w.clients| == |t.clients| && i < 2 && t.clients[i] == w.clients[i]
    requires Keeps(w, t) && Traces(e, w, i)
    ensures Traces(e, t, i)
  {
    hide Complete;
  }

  lemma ServeLedger(e: Setting, w: World, p: Posted)
    requires Inv(e, w) && Ledger(e, w) && p in w.posts
    ensures Ledger(e, Step(e, w, ServeEvent(p)))
  {
    hide ClientOk, MessageAt;
    var t := Step(e, w, ServeEvent(p));
    assert PostOk(e, w, p);
    MessagesNotEmpty(e, w, p.from, p.tag);
    assert Keeps(w, t);
    forall r | r in t.replies && r.response.status.Received2? ensures Complete(t, r.post.tag) {
      assert r in w.replies ==> Complete(w, r.post.tag);
    }
    TracesKept(e, w, t, 0);
    TracesKept(e, w, t, 1);
  }

  /** A step that changes one client only. */
  lemma ClientLedger(e: Setting, w: World, i: nat, c: Client)
    requires Ledger(e, w) && i < 2 && Traces(e, w.(clients := w.clients[i := c]), i)
    ensures Ledger(e, w.(clients := w.clients[i := c]))
  {
    hide Traces, Complete;
    var t := w.(clients := w.clients[i := c]);
    assert Keeps(w, t) by { assert forall tag :: Complete(w, tag) == Complete(t, tag) by { SamePostings(w, t); } }
    assert Answers(t) by { SamePostings(w, t); }
    TracesKept(e, w, t, Peer(i));
  }

  lemma SamePostings(w: World, t: World)
    requires t.postings == w.postings
    ensures forall tag :: Complete(w, tag) == Complete(t, tag)
  {}

  /** A good response to a poll in the second exchange yields the outcome. */
  lemma OpensToOutcome(e: Setting, w: World, i: nat, message: Blob)
    requires Inv(e, w) && i < 2 && w.clients[i].process.Polling?
    requires var kx := w.clients[i].process.kx;
             kx.status.Exchange2? && MessageAt(e, w.clients[Peer(i)].saved, TagOf(kx)) == Some(message)
    ensures Opened(e.suite, w.clients[i].process.kx, message) == Outcome(e, i, w.clients[i].saved)
  {
    hide NetworkOk, Second, First;
    var kx, peer := w.clients[i].process.kx, w.clients[Peer(i)].saved;
    assert ClientOk(e, w, i) && ClientOk(e, w, Peer(i));
    assert message == peer.message2 && MadeSecond(e, kx, peer) && MadeSecond(e, peer, kx);
    OpensPeer(e.suite, kx, peer);
  }

  /** Meeting places of a polling client. */
  lemma PollsAt(e: Setting, w: World, i: nat)
    requires Inv(e, w) && i < 2 && w.clients[i].process.Polling?
    ensures var kx := w.clients[i].process.kx;
            && kx == w.clients[i].saved && !kx.status.Init?
            && TagOf(kx) == (if kx.status.Exchange1? then e.Meeting1() else e.Meeting2())
            && MessageAt(e, kx, TagOf(kx)) == Some(MessageOf(kx))
  {
    hide NetworkOk, First, Second;
    assert ClientOk(e, w, i);
  }

  lemma ReplyLedger(e: Setting, w: World, reply: Replied, filler: Blob, nonce: Blob)
    requires Inv(e, w) && Ledger(e, w) && Enabled(e, w, ReplyEvent(reply, filler, nonce))
    ensures Ledger(e, Step(e, w, ReplyEvent(reply, filler, nonce)))
  {
    hide MessageAt, ClientOk, Complete;
    var i := reply.post.from;
    var kx, r := w.clients[i].process.kx, reply.response;
    assert PostOk(e, w, reply.post) && ResponseOk(e, w, reply.post, r);
    PollsAt(e, w, i);
    var p := OnResponse(e.suite, kx, r, filler, nonce);
    var t := WithProcess(w, i, p);
    assert Traces(e, w, i);
    SamePostings(w, t);
    if Decide(Answer(r)).Some? {
      assert r.status == Received2 && Complete(w, reply.post.tag);
      if kx.status.Exchange1? {
        MeetOk(e, w, i, r.message, filler, nonce);
      } else {
        OpensToOutcome(e, w, i, r.message);
      }
    }
    hide Met, Opened;
    ClientLedger(e, w, i, w.clients[i].(process := p));
  }

  lemma PublishLedger(e: Setting, w: World, i: nat)
    requires Inv(e, w) && Ledger(e, w) && i < 2 && w.clients[i].process.Publishing?
    ensures var kx := w.clients[i].process.kx; Ledger(e, w.(clients := w.clients[i := Client(Serialised(kx), Polling(kx))]))
  {
    hide NetworkOk, ClientOk, Complete;
    var kx := w.clients[i].process.kx;
    var t := w.(clients := w.clients[i := Client(Serialised(kx), Polling(kx))]);
    assert Traces(e, w, i);
    SamePostings(w, t);
    ClientLedger(e, w, i, Client(Serialised(kx), Polling(kx)));
  }

  lemma StepLedger(e: Setting, w: World, ev: Event)
    requires Inv(e, w) && Ledger(e, w) && Enabled(e, w, ev)
    ensures Ledger(e, Step(e, w, ev))
  {
    hide Inv, Met, Opened, Derived, Handle, Complete;
    match ev
    case CrashEvent(i) =>
      SamePostings(w, Step(e, w, ev));
      ClientLedger(e, w, i, w.clients[i].(process := Down));
    case RestartEvent(i) =>
      SamePostings(w, Step(e, w, ev));
      ClientLedger(e, w, i, w.clients[i].(process := Resume(w.clients[i].saved)));
    case DeriveEvent(i, filler) =>
      SamePostings(w, Step(e, w, ev));
      ClientLedger(e, w, i, Step(e, w, ev).clients[i]);
    case PublishEvent(i) => PublishLedger(e, w, i);
    case PostEvent(i) =>
      SamePostings(w, Step(e, w, ev));
      TracesKept(e, w, Step(e, w, ev), 0);
      TracesKept(e, w, Step(e, w, ev), 1);
    case ServeEvent(post) => ServeLedger(e, w, post);
    case ReplyEvent(reply, filler, nonce) => ReplyLedger(e, w, reply, filler, nonce);
  }

  /** What every state of every run meets. */
  ghost predicate Good(e: Setting, w: World) {
    Inv(e, w) && Ledger(e, w)
  }

  lemma StepGood(e: Setting, w: World, ev: Event)
    requires Good(e, w) && Enabled(e, w, ev)
    ensures Good(e, Step(e, w, ev))
  {
    hide Inv, Ledger, Enabled, Step;
    StepInv(e, w, ev);
    StepLedger(e, w, ev);
  }

  lemma {:induction false} RunGood(e: Setting, worlds: seq<World>, events: seq<Event>, i: nat)
    requires Run(e, worlds, events) && i < |worlds|
    ensures Good(e, worlds[i])
  {
    hide Good, Enabled, Step;
    if i == 0 {
      StartGood(e, worlds[0]);
    } else {
      RunGood(e, worlds, events, i - 1);
      assert Enabled(e, worlds[i - 1], events[i - 1]) && worlds[i] == Step(e, worlds[i - 1], events[i - 1]);
      StepGood(e, worlds[i - 1], events[i - 1]);
    }
  }

  lemma StartGood(e: Setting, w: World)
    requires e.Valid() && Start(e, w)
    ensures Good(e, w)
  {
    hide Inv;
    StartInv(e, w);
  }

  // ---------------------------------------------------------------- continuations

  /** From w the events, none of them a crash, lead to t. */
  ghost predicate Continues(e: Setting, w: World, events: seq<Event>, t: World)
    decreases |events|
  {
    if events == [] then t == w
    else
      Enabled(e, w, events[0]) && !events[0].CrashEvent? && Continues(e, Step(e, w, events[0]), events[1..], t)
  }

  ghost predicate Reaches(e: Setting, w: World, t: World) {
    exists events :: Continues(e, w, events, t)
  }

  lemma {:induction false} ContinuesJoin(e: Setting, w: World, a: seq<Event>, t: World, b: seq<Event>, u: World)
    requires Continues(e, w, a, t) && Continues(e, t, b, u)
    ensures Continues(e, w, a + b, u)
    decreases |a|
  {
    hide Enabled, Step;
    if a == [] {
      assert a + b == b;
    } else {
      ContinuesJoin(e, Step(e, w, a[0]), a[1..], t, b, u);
      assert (a + b)[1..] == a[1..] + b;
    }
  }

  lemma ReachesJoin(e: Setting, w: World, t: World, u: World)
    requires Reaches(e, w, t) && Reaches(e, t, u)
    ensures Reaches(e, w, u)
  {
    hide Continues;
    var a :| Continues(e, w, a, t);
    var b :| Continues(e, t, b, u);
    ContinuesJoin(e, w, a, t, b, u);
  }

  lemma ReachesSame(e: Setting, w: World)
    ensures Reaches(e, w, w)
  {
    assert Continues(e, w, [], w);
  }

  /** One more step. */
  lemma ReachesStep(e: Setting, w: World, t: World, ev: Event)
    requires Reaches(e, w, t) && Good(e, t) && Enabled(e, t, ev) && !ev.CrashEvent?
    ensures Reaches(e, w, Step(e, t, ev)) && Good(e, Step(e, t, ev))
  {
    hide Enabled, Step, Good;
    StepGood(e, t, ev);
    assert Continues(e, Step(e, t, ev), [], Step(e, t, ev));
    assert [ev][1..] == [];
    assert Continues(e, t, [ev], Step(e, t, ev));
    ReachesJoin(e, w, t, Step(e, t, ev));
  }

  lemma {:induction false} ContinuesGood(e: Setting, w: World, events: seq<Event>, t: World)
    requires Good(e, w) && Continues(e, w, events, t)
    ensures Good(e, t) && (Clash(w) ==> Clash(t))
    decreases |events|
  {
    hide Enabled, Step, Good, Clash;
    if events != [] {
      StepGood(e, w, events[0]);
      StepClash(e, w, events[0]);
      ContinuesGood(e, Step(e, w, events[0]), events[1..], t);
    }
  }

  // ---------------------------------------------------------------- clashes

  /** The key exchange a client is at, published or not. */
  function Current(c: Client): KeyExchange { if c.process.Publishing? then c.process.kx else c.saved }

  ghost predicate SameFirst(a: KeyExchange, b: KeyExchange) {
    !a.status.Init? && !b.status.Init? && a.message1 == b.message1
  }

  ghost predicate SameSecond(a: KeyExchange, b: KeyExchange) {
    a.status.Exchange2? && b.status.Exchange2? && a.message2 == b.message2
  }

  /** The two clients have the same message for a meeting place, which takes it for one post. */
  ghost predicate Clash(w: World) {
    && |w.clients| == 2
    && var a, b := Current(w.clients[0]), Current(w.clients[1]);
    SameFirst(a, b) || SameSecond(a, b)
  }

  /** A message that was made stays as it is. */
  ghost predicate Grows(a: KeyExchange, b: KeyExchange) {
    && (!a.status.Init? ==> !b.status.Init? && b.message1 == a.message1)
    && (a.status.Exchange2? ==> b.status.Exchange2? && b.message2 == a.message2)
  }

  lemma StepGrows(e: Setting, w: World, ev: Event, i: nat)
    requires Good(e, w) && Enabled(e, w, ev) && !ev.CrashEvent? && i < 2
    ensures var t := Step(e, w, ev); |t.clients| == 2 && Grows(Current(w.clients[i]), Current(t.clients[i]))
  {
    hide NetworkOk, SavedOk, Handle, Opened, First, Second, Ledger;
    assert ClientOk(e, w, i);
  }

  lemma StepClash(e: Setting, w: World, ev: Event)
    requires Good(e, w) && Enabled(e, w, ev) && !ev.CrashEvent?
    ensures Clash(w) ==> Clash(Step(e, w, ev))
  {
    hide Good, Enabled, Step, Current;
    StepGrows(e, w, ev, 0);
    StepGrows(e, w, ev, 1);
  }

  /** A complete posting holds two different messages, those of the two clients. */
  lemma CompleteDiffer(e: Setting, w: World, tag: Tag)
    requires Inv(e, w) && Complete(w, tag)
    ensures var a, b := MessageAt(e, w.clients[0].saved, tag), MessageAt(e, w.clients[1].saved, tag);
            a.Some? && b.Some? && a != b
  {
    hide ClientOk, MessageAt;
    assert PostingOk(e, w, tag, w.postings[tag]);
  }

  /** Both clients are at their end with the same shared key of 32 octets: if its first two octets are zero, both refused it, and
      otherwise each has the other's bytes. */
  ghost predicate Done(e: Setting, w: World) {
    && |w.clients| == 2 == |e.kxBytes|
    && var key := w.clients[0].saved.sharedKey;
    && w.clients[1].saved.sharedKey == key && |key| == 32
    && if key[0] == 0 && key[1] == 0
       then w.clients[0].process == Finished(Failure(ZeroKey)) && w.clients[1].process == Finished(Failure(ZeroKey))
       else w.clients[0].process == Finished(Success(e.kxBytes[1])) && w.clients[1].process == Finished(Success(e.kxBytes[0]))
  }

  lemma DoneDoesNotClash(e: Setting, w: World)
    requires Good(e, w) && Done(e, w)
    ensures !Clash(w)
  {
    hide ClientOk, NetworkOk;
    assert Traces(e, w, 0) && Traces(e, w, 1);
    CompleteDiffer(e, w, e.Meeting1());
    CompleteDiffer(e, w, e.Meeting2());
  }

  // ---------------------------------------------------------------- messages that do not clash

  function Filled(n: nat, x: Octet): (b: Blob)
    ensures |b| == n
  {
    seq(n, _ => x)
  }

  /** One of two fillers makes the first message differ from m. */
  lemma FreshFirst(e: Setting, kx: KeyExchange, m: Blob) returns (filler: Blob)
    requires e.Valid()
    ensures |filler| == e.padding - KEY_LENGTH && Derived(e.suite, kx, filler).message1 != m
  {
    assert |e.kxBytes[0]| < 0x1_0000_0000;
    var zeros, ones := Filled(e.padding - KEY_LENGTH, 0), Filled(e.padding - KEY_LENGTH, 1);
    var a, b := Derived(e.suite, kx, zeros).message1, Derived(e.suite, kx, ones).message1;
    assert a[|a| - 1] == 0 && b[|b| - 1] == 1 && |a| == |b|;
    filler := if a != m then zeros else ones;
  }

  /** One of two nonces makes the second message differ from m. */
  lemma FreshSecond(e: Setting, kx: KeyExchange, reply: Blob, m: Blob) returns (nonce: Blob)
    requires |reply| >= KEY_LENGTH
    ensures |nonce| == NONCE_LENGTH && Met(e.suite, kx, reply, [], nonce).Success?
            && Met(e.suite, kx, reply, [], nonce).value.message2 != m
  {
    var zeros, ones := Filled(NONCE_LENGTH, 0), Filled(NONCE_LENGTH, 1);
    var a, b := Met(e.suite, kx, reply, [], zeros).value.message2, Met(e.suite, kx, reply, [], ones).value.message2;
    assert a[0] == 0 && b[0] == 1;
    nonce := if a != m then zeros else ones;
  }

  // ---------------------------------------------------------------- one client's progress

  /** The client polls or is at its end; it has published its first message. */
  ghost predicate Up(w: World, i: nat)
    requires i < |w.clients|
  {
    (w.clients[i].process.Polling? || w.clients[i].process.Finished?) && !w.clients[i].saved.status.Init?
  }

  /** Good progress from w: no clash, and the other client is as it was. */
  ghost predicate Onward(e: Setting, w: World, t: World, i: nat)
    requires i < 2
  {
    && Good(e, t) && Reaches(e, w, t) && !Clash(t)
    && |w.clients| == 2 == |t.clients| && t.clients[Peer(i)] == w.clients[Peer(i)]
  }

  lemma PublishOnward(e: Setting, w: World, t: World, i: nat) returns (u: World)
    requires i < 2 && Onward(e, w, t, i) && t.clients[i].process.Publishing?
    ensures Onward(e, w, u, i) && Up(u, i) && u.clients[i].process.Polling?
    ensures u.clients[i].saved == t.clients[i].process.kx
  {
    hide NetworkOk, Ledger, SavedOk, First, Second, Reaches;
    assert ClientOk(e, t, i);
    ReachesStep(e, w, t, PublishEvent(i));
    u := Step(e, t, PublishEvent(i));
    assert Current(u.clients[i]) == Current(t.clients[i]);
  }

  lemma DeriveOnward(e: Setting, w: World, t: World, i: nat) returns (u: World)
    requires i < 2 && Onward(e, w, t, i) && t.clients[i].process.Started?
    ensures Onward(e, w, u, i) && Up(u, i)
  {
    hide NetworkOk, Ledger, SavedOk, First, Second, Reaches;
    assert ClientOk(e, t, i);
    var filler := FreshFirst(e, t.clients[i].process.kx, Current(t.clients[Peer(i)]).message1);
    ReachesStep(e, w, t, DeriveEvent(i, filler));
    var v := Step(e, t, DeriveEvent(i, filler));
    assert Current(v.clients[Peer(i)]) == Current(t.clients[Peer(i)]);
    assert Onward(e, w, v, i);
    u := PublishOnward(e, w, v, i);
  }

  lemma RestartOnward(e: Setting, w: World, i: nat) returns (u: World)
    requires i < 2 && Onward(e, w, w, i) && w.clients[i].process.Down?
    ensures Onward(e, w, u, i) && Up(u, i)
  {
    hide NetworkOk, Ledger, ClientOk, Reaches;
    ReachesStep(e, w, w, RestartEvent(i));
    u := Step(e, w, RestartEvent(i));
    assert Current(u.clients[i]) == Current(w.clients[i]) && Current(u.clients[Peer(i)]) == Current(w.clients[Peer(i)]);
    if u.clients[i].process.Started? {
      u := DeriveOnward(e, w, u, i);
    }
  }

  /** Client i is brought to polling, or is at its end already. */
  lemma ComesUp(e: Setting, w: World, i: nat) returns (u: World)
    requires i < 2 && Good(e, w) && !Clash(w)
    ensures Onward(e, w, u, i) && Up(u, i)
  {
    hide NetworkOk, Clash, SavedOk, Reaches, First, Second;
    ReachesSame(e, w);
    assert ClientOk(e, w, i) && Traces(e, w, i);
    match w.clients[i].process
    case Down => u := RestartOnward(e, w, i);
    case Started(_) => u := DeriveOnward(e, w, w, i);
    case Publishing(_) => u := PublishOnward(e, w, w, i);
    case Polling(_) => u := w;
    case Finished(_) => u := w;
  }

  // ---------------------------------------------------------------- at a meeting place

  function PostOf(w: World, i: nat): Posted
    requires i < |w.clients| && w.clients[i].process.Polling?
  {
    var kx := w.clients[i].process.kx;
    Posted(i, TagOf(kx), MessageOf(kx))
  }

  /** Client i posts, and the meeting place serves the post. */
  lemma PostAndServe(e: Setting, w: World, i: nat) returns (t: World)
    requires Good(e, w) && i < 2 && w.clients[i].process.Polling?
    ensures Good(e, t) && Reaches(e, w, t) && t.clients == w.clients
    ensures var (postings, r) := Handle(w.postings, Post(PostOf(w, i).tag, PostOf(w, i).message), false);
            t.postings == postings && r.Some? && Replied(PostOf(w, i), r.value) in t.replies
  {
    hide Inv, Answers, Traces, Handle, Reaches;
    ReachesSame(e, w);
    ReachesStep(e, w, w, PostEvent(i));
    var u := Step(e, w, PostEvent(i));
    assert PostOf(w, i) in u.posts;
    ServeOk(e, u, PostOf(w, i));
    ReachesStep(e, w, u, ServeEvent(PostOf(w, i)));
    t := Step(e, u, ServeEvent(PostOf(w, i)));
  }

  /** The posting under the tag holds the messages of both clients, or the one of i's peer. */
  ghost predicate PeerPosted(e: Setting, w: World, i: nat, tag: Tag)
    requires i < 2 == |w.clients|
  {
    tag in w.postings && MessageAt(e, w.clients[Peer(i)].saved, tag).Some?
    && var m := MessageAt(e, w.clients[Peer(i)].saved, tag).value;
    m == w.postings[tag].a || m == w.postings[tag].b
  }

  /** The peer's message gets to the meeting place at which i polls, if it was not there. */
  lemma PeerPosts(e: Setting, w: World, i: nat) returns (t: World)
    requires Good(e, w) && i < 2 && w.clients[i].process.Polling? && Up(w, Peer(i))
    requires var kx := w.clients[i].process.kx; kx.status.Exchange2? ==> w.clients[Peer(i)].saved.status.Exchange2?
    ensures Good(e, t) && Reaches(e, w, t) && t.clients == w.clients
    ensures PeerPosted(e, t, i, PostOf(w, i).tag)
  {
    hide ClientOk, NetworkOk, Reaches, Handle;
    var j := Peer(i);
    var kx := w.clients[i].process.kx;
    PollsAt(e, w, i);
    assert Traces(e, w, j);
    if Complete(w, TagOf(kx)) {
      ReachesSame(e, w);
      CompleteHoldsBoth(e, w, i, TagOf(kx));
      t := w;
    } else {
      PollsAt(e, w, j);
      assert PostOf(w, j).tag == TagOf(kx);
      t := PostAndServe(e, w, j);
      PostedIsHeld(e, w, j);
    }
  }

  lemma CompleteHoldsBoth(e: Setting, w: World, i: nat, tag: Tag)
    requires Inv(e, w) && i < 2 && Complete(w, tag)
    ensures PeerPosted(e, w, i, tag)
  {
    hide ClientOk, MessageAt;
    assert PostingOk(e, w, tag, w.postings[tag]);
  }

  lemma PostedIsHeld(e: Setting, w: World, j: nat)
    requires Inv(e, w) && j < 2 && w.clients[j].process.Polling?
    requires MessageAt(e, w.clients[j].saved, PostOf(w, j).tag) == Some(PostOf(w, j).message)
    ensures var tag, m := PostOf(w, j).tag, PostOf(w, j).message;
            var postings := Handle(w.postings, Post(tag, m), false).0;
            tag in postings && (m == postings[tag].a || m == postings[tag].b)
  {
    hide ClientOk, MessageAt;
    var tag := PostOf(w, j).tag;
    if tag in w.postings {
      assert PostingOk(e, w, tag, w.postings[tag]);
    }
  }

  lemma TellsOther(s: Postings, tag: Tag, mine: Blob, other: Blob)
    requires tag in s && mine != other && |mine| > 0 && |other| > 0
    requires var p := s[tag]; p == Posting(mine, other) || p == Posting(other, mine) || p == Posting(other, [])
    ensures Handle(s, Post(tag, mine), false).1 == Some(Response(Received2, other))
  {}

  /** A posting that holds the message of client i's peer. */
  lemma HoldsOther(e: Setting, w: World, i: nat, tag: Tag, mine: Blob, other: Blob)
    requires |w.clients| == 2 && i < 2 && tag in w.postings && PostingOk(e, w, tag, w.postings[tag])
    requires MessageAt(e, w.clients[i].saved, tag) == Some(mine) && |mine| > 0
    requires MessageAt(e, w.clients[Peer(i)].saved, tag) == Some(other) && |other| > 0 && mine != other
    requires other == w.postings[tag].a || other == w.postings[tag].b
    ensures var p := w.postings[tag]; p == Posting(mine, other) || p == Posting(other, mine) || p == Posting(other, [])
  {
    hide MessageAt;
  }

  /** Client i posts where its peer posted a different message, and is told it. */
  lemma Told(e: Setting, w: World, i: nat)
    requires Inv(e, w) && i < 2 && w.clients[i].process.Polling? && PeerPosted(e, w, i, PostOf(w, i).tag)
    requires var other := MessageAt(e, w.clients[Peer(i)].saved, PostOf(w, i).tag); other.value != PostOf(w, i).message
    ensures var tag, m := PostOf(w, i).tag, PostOf(w, i).message;
            Handle(w.postings, Post(tag, m), false).1
            == Some(Response(Received2, MessageAt(e, w.clients[Peer(i)].saved, tag).value))
  {
    hide ClientOk, MessageAt, Handle, PostingOk;
    var tag, mine := PostOf(w, i).tag, PostOf(w, i).message;
    var other := MessageAt(e, w.clients[Peer(i)].saved, tag).value;
    PollsAt(e, w, i);
    MessagesNotEmpty(e, w, i, tag);
    MessagesNotEmpty(e, w, Peer(i), tag);
    HoldsOther(e, w, i, tag, mine, other);
    TellsOther(w.postings, tag, mine, other);
  }

  /** Client i, polling where its peer has a different message to post, is brought before a response with that message. */
  lemma GetsReply(e: Setting, w: World, i: nat) returns (t: World)
    requires Good(e, w) && i < 2 && w.clients[i].process.Polling? && Up(w, Peer(i)) && !Clash(w)
    requires var kx := w.clients[i].process.kx; kx.status.Exchange2? ==> w.clients[Peer(i)].saved.status.Exchange2?
    ensures Good(e, t) && Reaches(e, w, t) && t.clients == w.clients
    ensures var other := MessageAt(e, w.clients[Peer(i)].saved, PostOf(w, i).tag);
            && other.Some? && |other.value| > 0 && Replied(PostOf(w, i), Response(Received2, other.value)) in t.replies
  {
    hide ClientOk, NetworkOk, Ledger, Reaches, Handle;
    var u := PeerPosts(e, w, i);
    PollsAt(e, w, i);
    Told(e, u, i);
    MessagesNotEmpty(e, w, Peer(i), PostOf(w, i).tag);
    t := PostAndServe(e, u, i);
    ReachesJoin(e, w, u, t);
  }

  /** The first exchange of client i. */
  lemma Meets(e: Setting, w: World, i: nat) returns (u: World)
    requires Good(e, w) && i < 2 && Up(w, 0) && Up(w, 1) && !Clash(w)
    requires w.clients[i].saved.status.Exchange1?
    ensures Onward(e, w, u, i) && Up(u, i) && u.clients[i].saved.status.Exchange2?
  {
    hide ClientOk, NetworkOk, Ledger, Reaches;
    MustPoll(e, w, i);
    PollsAt(e, w, i);
    var peer := w.clients[Peer(i)];
    var kx := w.clients[i].process.kx;
    var t := GetsReply(e, w, i);
    FirstIsLong(e, w, Peer(i));
    var nonce := FreshSecond(e, kx, peer.saved.message1, peer.saved.message2);
    var reply := Replied(PostOf(w, i), Response(Received2, peer.saved.message1));
    var ev := ReplyEvent(reply, [], nonce);
    ReachesStep(e, w, t, ev);
    var v := Step(e, t, ev);
    assert v.clients[i].process == Publishing(Met(e.suite, kx, peer.saved.message1, [], nonce).value.(status := Exchange2));
    hide Met;
    assert Current(v.clients[Peer(i)]) == peer.saved && !Clash(v);
    u := PublishOnward(e, w, v, i);
  }

  lemma MustPoll(e: Setting, w: World, i: nat)
    requires Good(e, w) && i < 2 && Up(w, i) && w.clients[i].saved.status.Exchange1?
    ensures w.clients[i].process.Polling?
  {
    hide Inv, Complete;
    assert Traces(e, w, i);
  }

  lemma FirstIsLong(e: Setting, w: World, i: nat)
    requires Inv(e, w) && i < 2 && !w.clients[i].saved.status.Init?
    ensures |w.clients[i].saved.message1| >= KEY_LENGTH
  {
    hide NetworkOk, Second, ProcessOk;
    assert ClientOk(e, w, i);
  }

  /** The second exchange of client i. */
  lemma Opens(e: Setting, w: World, i: nat) returns (u: World)
    requires Good(e, w) && i < 2 && Up(w, 0) && Up(w, 1) && !Clash(w)
    requires w.clients[0].saved.status.Exchange2? && w.clients[1].saved.status.Exchange2?
    ensures Onward(e, w, u, i) && u.clients[i].saved == w.clients[i].saved
    ensures u.clients[i].process == Finished(Outcome(e, i, u.clients[i].saved))
  {
    hide ClientOk, NetworkOk, Reaches;
    assert Traces(e, w, i);
    if w.clients[i].process.Finished? {
      ReachesSame(e, w);
      u := w;
    } else {
      PollsAt(e, w, i);
      var kx := w.clients[i].process.kx;
      var t := GetsReply(e, w, i);
      hide Ledger;
      var message := MessageAt(e, w.clients[Peer(i)].saved, TagOf(kx)).value;
      OpensToOutcome(e, w, i, message);
      var ev := ReplyEvent(Replied(PostOf(w, i), Response(Received2, message)), [], Filled(NONCE_LENGTH, 0));
      ReachesStep(e, w, t, ev);
      hide Opened, MessageAt;
      u := Step(e, t, ev);
      assert Current(u.clients[Peer(i)]) == Current(w.clients[Peer(i)]) && Current(u.clients[i]) == Current(w.clients[i]);
    }
  }

  // ---------------------------------------------------------------- both clients

  lemma BothUp(e: Setting, w: World) returns (t: World)
    requires Good(e, w) && !Clash(w)
    ensures Good(e, t) && Reaches(e, w, t) && !Clash(t) && Up(t, 0) && Up(t, 1)
  {
    hide Inv, Answers, Traces, Clash, Reaches;
    var u := ComesUp(e, w, 0);
    t := ComesUp(e, u, 1);
    ReachesJoin(e, w, u, t);
  }

  lemma MeetsIfNeeded(e: Setting, w: World, i: nat) returns (u: World)
    requires Good(e, w) && i < 2 && Up(w, 0) && Up(w, 1) && !Clash(w)
    ensures Onward(e, w, u, i) && Up(u, i) && u.clients[i].saved.status.Exchange2?
  {
    hide Inv, Answers, Traces, Clash, Reaches;
    if w.clients[i].saved.status.Exchange2? {
      ReachesSame(e, w);
      u := w;
    } else {
      u := Meets(e, w, i);
    }
  }

  lemma BothMet(e: Setting, w: World) returns (t: World)
    requires Good(e, w) && !Clash(w) && Up(w, 0) && Up(w, 1)
    ensures Good(e, t) && Reaches(e, w, t) && !Clash(t) && Up(t, 0) && Up(t, 1)
    ensures t.clients[0].saved.status.Exchange2? && t.clients[1].saved.status.Exchange2?
  {
    hide Inv, Answers, Traces, Clash, Reaches;
    var u := MeetsIfNeeded(e, w, 0);
    t := MeetsIfNeeded(e, u, 1);
    ReachesJoin(e, w, u, t);
  }

  lemma BothDone(e: Setting, w: World) returns (t: World)
    requires Good(e, w) && !Clash(w) && Up(w, 0) && Up(w, 1)
    requires w.clients[0].saved.status.Exchange2? && w.clients[1].saved.status.Exchange2?
    ensures Reaches(e, w, t) && Done(e, t)
  {
    hide Inv, Answers, Traces, Clash, Reaches;
    var u := Opens(e, w, 0);
    t := Opens(e, u, 1);
    ReachesJoin(e, w, u, t);
    SharedKeys(e, w);
  }

  lemma SharedKeys(e: Setting, w: World)
    requires Inv(e, w) && w.clients[0].saved.status.Exchange2? && w.clients[1].saved.status.Exchange2?
    ensures w.clients[0].saved.sharedKey == w.clients[1].saved.sharedKey && |w.clients[0].saved.sharedKey| == 32
  {
    hide NetworkOk, ProcessOk;
    assert ClientOk(e, w, 0) && ClientOk(e, w, 1);
  }

  /** From every state of every run, whatever stage each client is at, there is a continuation without a crash in which
      both clients finish with the peer's bytes (or both refuse a shared key that begins with two zeros), if and only if
      they have not made the same message for a meeting place. */
  lemma MeetingCompletesIff(e: Setting, worlds: seq<World>, events: seq<Event>, i: nat)
    requires Run(e, worlds, events) && i < |worlds|
    ensures (exists t :: Reaches(e, worlds[i], t) && Done(e, t)) <==> !Clash(worlds[i])
  {
    var w := worlds[i];
    RunGood(e, worlds, events, i);
    hide Run, Good, Clash, Done;
    if !Clash(w) {
      var t := BothUp(e, w);
      var u := BothMet(e, t);
      var v := BothDone(e, u);
      ReachesJoin(e, t, u, v);
      ReachesJoin(e, w, t, v);
    }
    forall t | Reaches(e, w, t) && Done(e, t) ensures !Clash(w) {
      var after :| Continues(e, w, after, t);
      ContinuesGood(e, w, after, t);
      DoneDoesNotClash(e, t);
    }
  }

  /** Clients that drew the same random bytes do clash. */
  lemma ClashCanHappen(e: Setting, dhPrivate: Blob)
    requires e.Valid()
    ensures exists worlds: seq<World>, events: seq<Event> :: Run(e, worlds, events) && Clash(worlds[|events|])
  {
    hide Derived;
    assert |e.kxBytes[0]| < 0x1_0000_0000 && |e.kxBytes[1]| < 0x1_0000_0000;
    var a := New(e.padding, e.secret, e.random, e.kxBytes[0], dhPrivate).value;
    var b := New(e.padding, e.secret, e.random, e.kxBytes[1], dhPrivate).value;
    var filler := Filled(e.padding - KEY_LENGTH, 0);
    var w := World(map[], [Client(Serialised(a), Started(a)), Client(Serialised(b), Started(b))], {}, {});
    var u := Step(e, w, DeriveEvent(0, filler));
    var t := Step(e, u, DeriveEvent(1, filler));
    var worlds, events := [w, u, t], [DeriveEvent(0, filler), DeriveEvent(1, filler)];
    assert Run(e, worlds, events);
    SameDerived(e, a, b, filler);
    assert Clash(worlds[|events|]);
  }

  lemma SameDerived(e: Setting, a: KeyExchange, b: KeyExchange, filler: Blob)
    requires a.sharedSecret == b.sharedSecret && a.sharedRandom == b.sharedRandom && a.dhPrivate == b.dhPrivate
    ensures Derived(e.suite, a, filler).message1 == Derived(e.suite, b, filler).message1
  {}
}
