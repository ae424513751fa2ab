/** Two clients and a meeting place: what holds in every run of the PANDA exchange, across crashes and restarts from the
    last published snapshot, when no posting expires. */
module PandaRun {
  import opened Octets
  import opened PandaServer
  import opened PandaKx
  import opened Wrappers

  /** What the two clients have in common, and the bytes each wants the other to have. */
  datatype Setting = Setting(suite: Suite, padding: nat, secret: Blob, random: Blob, kxBytes: seq<Blob>)
  {
    function Key(): Blob { suite.kdf(secret, random).0 }
    function Meeting1(): Blob { suite.kdf(secret, random).1 }
    function Meeting2(): Blob { suite.kdf(secret, random).2 }

    ghost predicate Valid() {
      && suite.Laws() && |kxBytes| == 2 && |random| == 32 && Meeting1() != Meeting2()
      && forall i :: 0 <= i < 2 ==> |kxBytes[i]| < 0x1_0000_0000 && NONCE_LENGTH + 4 + |kxBytes[i]| + OVERHEAD <= padding
    }
  }

  /** Where a client's run is: not running; before deriving; with a new snapshot to publish; polling a meeting place;
      or at its end. */
  datatype Process =
    | Down
    | Started(kx: KeyExchange)
    | Publishing(kx: KeyExchange)
    | Polling(kx: KeyExchange)
    | Finished(result: Result<Blob, Error>)
    | Abandoned(error: ExchangeError)

  /** A client: its last published snapshot, and its process. */
  datatype Client = Client(saved: KeyExchange, process: Process)

  /** A post in the network, and a response to a post. */
  datatype Posted = Posted(from: nat, tag: Tag, message: Blob)
  datatype Replied = Replied(post: Posted, response: Response)

  datatype World = World(postings: Postings, clients: seq<Client>, posts: set<Posted>, replies: set<Replied>)

  datatype Event =
    | CrashEvent(i: nat)
    | RestartEvent(i: nat)
    | DeriveEvent(i: nat, filler: Blob)
    | PublishEvent(i: nat)
    | PostEvent(i: nat)
    | ServeEvent(post: Posted)
    | ReplyEvent(reply: Replied, filler: Blob, nonce: Blob)

  function Peer(i: nat): nat
    requires i < 2
  {
    1 - i
  }

  /** The meeting place and the message of the exchange a key exchange is in. */
  function TagOf(kx: KeyExchange): Tag { if kx.status.Exchange1? then kx.meeting1 else kx.meeting2 }
  function MessageOf(kx: KeyExchange): Blob { if kx.status.Exchange1? then kx.message1 else kx.message2 }

  ghost predicate Enabled(e: Setting, w: World, ev: Event) {
    && |w.clients| == 2
    && match ev
       case CrashEvent(i) => i < 2
       case RestartEvent(i) => i < 2 && w.clients[i].process.Down?
       case DeriveEvent(i, filler) => i < 2 && w.clients[i].process.Started? && |filler| == e.padding - KEY_LENGTH
       case PublishEvent(i) => i < 2 && w.clients[i].process.Publishing?
       case PostEvent(i) => i < 2 && w.clients[i].process.Polling?
       case ServeEvent(post) => post in w.posts
       case ReplyEvent(reply, filler, nonce) =>
         && reply in w.replies && reply.post.from < 2 && |nonce| == NONCE_LENGTH
         && var p := w.clients[reply.post.from].process;
         p.Polling? && reply.post.tag == TagOf(p.kx) && reply.post.message == MessageOf(p.kx)
  }

  /** UnmarshalKeyExchange and the start of Run. */
  function Resume(saved: KeyExchange): Process {
    if saved.status.Init? then Started(saved) else Polling(saved)
  }

  /** What Run does with a response to its poll. */
  function OnResponse(c: Suite, kx: KeyExchange, response: Response, filler: Blob, nonce: Blob): Process {
    match Decide(Answer(response))
    case None => Polling(kx)
    case Some(Failure(error)) => Abandoned(error)
    case Some(Success(message)) =>
      if kx.status.Exchange1? then
        match Met(c, kx, message, filler, nonce)
        case Failure(error) => Finished(Failure(error))
        case Success(met) => Publishing(met.(status := Exchange2))
      else Finished(Opened(c, kx, message))
  }

  function WithProcess(w: World, i: nat, p: Process): World
    requires i < |w.clients|
  {
    w.(clients := w.clients[i := w.clients[i].(process := p)])
  }

  ghost function Step(e: Setting, w: World, ev: Event): World
    requires Enabled(e, w, ev)
  {
    match ev
    case CrashEvent(i) => WithProcess(w, i, Down)
    case RestartEvent(i) => WithProcess(w, i, Resume(w.clients[i].saved))
    case DeriveEvent(i, filler) =>
      WithProcess(w, i, Publishing(Derived(e.suite, w.clients[i].process.kx, filler).(status := Exchange1)))
    case PublishEvent(i) =>
      var kx := w.clients[i].process.kx;
      w.(clients := w.clients[i := Client(Serialised(kx), Polling(kx))])
    case PostEvent(i) =>
      var kx := w.clients[i].process.kx;
      w.(posts := w.posts + {Posted(i, TagOf(kx), MessageOf(kx))})
    case ServeEvent(post) =>
      var (postings, response) := Handle(w.postings, Post(post.tag, post.message), false);
      if response.None? then w.(postings := postings)
      else w.(postings := postings, replies := w.replies + {Replied(post, response.value)})
    case ReplyEvent(reply, filler, nonce) =>
      var i := reply.post.from;
      WithProcess(w, i, OnResponse(e.suite, w.clients[i].process.kx, reply.response, filler, nonce))
  }

  /** Both clients have made a key exchange and published it. */
  ghost predicate Start(e: Setting, w: World) {
    && w.postings == map[] && w.posts == {} && w.replies == {} && |w.clients| == 2 && |e.kxBytes| == 2
    && forall i :: 0 <= i < 2 ==>
      && w.clients[i].process.Started?
      && New(e.padding, e.secret, e.random, e.kxBytes[i], w.clients[i].process.kx.dhPrivate) == Success(w.clients[i].process.kx)
      && w.clients[i].saved == Serialised(w.clients[i].process.kx)
  }

  ghost predicate Run(e: Setting, worlds: seq<World>, events: seq<Event>) {
    && e.Valid() && |worlds| == |events| + 1 && Start(e, worlds[0])
    && forall i :: 0 <= i < |events| ==>
      Enabled(e, worlds[i], events[i]) && worlds[i + 1] == Step(e, worlds[i], events[i])
  }

  // ---------------------------------------------------------------- the invariant

  ghost predicate Inputs(e: Setting, i: nat, kx: KeyExchange)
    requires i < |e.kxBytes|
  {
    kx.sharedSecret == e.secret && kx.sharedRandom == e.random && kx.kxBytes == e.kxBytes[i]
  }

  ghost predicate MadeFirst(e: Setting, kx: KeyExchange) {
    kx.key == e.Key() && kx.meeting1 == e.Meeting1() && kx.meeting2 == e.Meeting2() && First(e.suite, kx)
  }

  /** The second message was made with the peer's published key. */
  ghost predicate MadeSecond(e: Setting, kx: KeyExchange, peer: KeyExchange) {
    !peer.status.Init? && Second(e.suite, kx, peer.dhPrivate)
  }

  ghost predicate SavedOk(e: Setting, i: nat, saved: KeyExchange, peer: KeyExchange)
    requires i < |e.kxBytes|
  {
    && Inputs(e, i, saved)
    && (!saved.status.Init? ==> MadeFirst(e, saved))
    && (saved.status.Exchange2? ==> MadeSecond(e, saved, peer))
  }

  ghost predicate ProcessOk(e: Setting, i: nat, p: Process, saved: KeyExchange, peer: KeyExchange)
    requires i < 2 == |e.kxBytes|
  {
    match p
    case Down => true
    case Abandoned(error) => error != Contended
    case Started(kx) => Inputs(e, i, kx) && kx.status.Init? && saved.status.Init?
    case Publishing(kx) =>
      && Inputs(e, i, kx) && MadeFirst(e, kx)
      && if kx.status.Exchange1? then saved.status.Init?
         else kx.status.Exchange2? && saved.status.Exchange1? && kx.dhPrivate == saved.dhPrivate
              && kx.message1 == saved.message1 && MadeSecond(e, kx, peer)
    case Polling(kx) => kx == saved && !kx.status.Init?
    case Finished(result) => result.Success? ==> result.value == e.kxBytes[Peer(i)]
  }

  ghost predicate ClientOk(e: Setting, w: World, i: nat)
    requires |w.clients| == 2 == |e.kxBytes| && i < 2
  {
    && SavedOk(e, i, w.clients[i].saved, w.clients[Peer(i)].saved)
    && ProcessOk(e, i, w.clients[i].process, w.clients[i].saved, w.clients[Peer(i)].saved)
  }

  /** The one message a client may post under a tag: that of its published snapshot. */
  ghost function MessageAt(e: Setting, saved: KeyExchange, tag: Tag): Option<Blob> {
    if tag == e.Meeting1() && !saved.status.Init? then Some(saved.message1)
    else if tag == e.Meeting2() && saved.status.Exchange2? then Some(saved.message2)
    else None
  }

  ghost predicate PostOk(e: Setting, w: World, p: Posted)
    requires |w.clients| == 2
  {
    p.from < 2 && MessageAt(e, w.clients[p.from].saved, p.tag) == Some(p.message)
  }

  /** A posting holds the message of client i and, if it is complete, that of its peer. */
  ghost predicate HeldFor(e: Setting, w: World, tag: Tag, p: Posting, i: nat)
    requires |w.clients| == 2 && i < 2
  {
    && MessageAt(e, w.clients[i].saved, tag) == Some(p.a)
    && (p.b == [] || (MessageAt(e, w.clients[Peer(i)].saved, tag) == Some(p.b) && p.a != p.b))
  }

  ghost predicate PostingOk(e: Setting, w: World, tag: Tag, p: Posting)
    requires |w.clients| == 2
  {
    HeldFor(e, w, tag, p, 0) || HeldFor(e, w, tag, p, 1)
  }

  /** A response gives the peer's message, or none yet; it never reports contention. */
  ghost predicate ResponseOk(e: Setting, w: World, p: Posted, r: Response)
    requires |w.clients| == 2 && p.from < 2
  {
    match r.status
    case Received1 => r.message == []
    case RequestRecorded => r.message == []
    case Received2 => MessageAt(e, w.clients[Peer(p.from)].saved, p.tag) == Some(r.message)
    case _ => false
  }

  ghost predicate NetworkOk(e: Setting, w: World)
    requires |w.clients| == 2
  {
    && (forall p | p in w.posts :: PostOk(e, w, p))
    && (forall tag | tag in w.postings :: PostingOk(e, w, tag, w.postings[tag]))
    && (forall r | r in w.replies :: PostOk(e, w, r.post) && ResponseOk(e, w, r.post, r.response))
  }

  ghost predicate Inv(e: Setting, w: World) {
    && e.Valid() && |w.clients| == 2
    && ClientOk(e, w, 0) && ClientOk(e, w, 1)
    && NetworkOk(e, w)
  }

  /** What was published stays so. */
  ghost predicate Extends(e: Setting, w: World, t: World)
    requires |w.clients| == 2 == |t.clients|
  {
    forall i, tag :: 0 <= i < 2 && MessageAt(e, w.clients[i].saved, tag).Some? ==>
      MessageAt(e, t.clients[i].saved, tag) == MessageAt(e, w.clients[i].saved, tag)
  }

  lemma NetworkExtends(e: Setting, w: World, t: World)
    requires |w.clients| == 2 == |t.clients| && NetworkOk(e, w) && Extends(e, w, t)
    requires t.posts == w.posts && t.postings == w.postings && t.replies == w.replies
    ensures NetworkOk(e, t)
  {
    hide MessageAt;
    forall p | p in t.posts ensures PostOk(e, t, p) { assert PostOk(e, w, p); }
    forall tag | tag in t.postings ensures PostingOk(e, t, tag, t.postings[tag]) {
      assert PostingOk(e, w, tag, w.postings[tag]);
    }
    forall r | r in t.replies ensures PostOk(e, t, r.post) && ResponseOk(e, t, r.post, r.response) {
      assert PostOk(e, w, r.post) && ResponseOk(e, w, r.post, r.response);
    }
  }

  lemma StartInv(e: Setting, w: World)
    requires e.Valid() && Start(e, w)
    ensures Inv(e, w)
  {}

  /** A step that changes one client's process only. */
  lemma ProcessInv(e: Setting, w: World, i: nat, p: Process)
    requires Inv(e, w) && i < 2
    requires ProcessOk(e, i, p, w.clients[i].saved, w.clients[Peer(i)].saved)
    ensures Inv(e, WithProcess(w, i, p))
  {
    hide MessageAt, SavedOk, ProcessOk;
    var t := WithProcess(w, i, p);
    assert t.clients[Peer(i)] == w.clients[Peer(i)] && t.clients[i].saved == w.clients[i].saved;
    assert Extends(e, w, t);
    NetworkExtends(e, w, t);
  }

  lemma DeriveInv(e: Setting, w: World, i: nat, filler: Blob)
    requires Inv(e, w) && i < 2 && w.clients[i].process.Started?
    ensures Inv(e, WithProcess(w, i, Publishing(Derived(e.suite, w.clients[i].process.kx, filler).(status := Exchange1))))
  {
    hide NetworkOk, SavedOk;
    var kx := w.clients[i].process.kx;
    var d := Derived(e.suite, kx, filler).(status := Exchange1);
    assert ProcessOk(e, i, w.clients[i].process, w.clients[i].saved, w.clients[Peer(i)].saved);
    DerivedIsFirst(e.suite, kx, filler);
    assert First(e.suite, d) by { assert First(e.suite, Derived(e.suite, kx, filler)); }
    ProcessInv(e, w, i, Publishing(d));
  }

  lemma RestartInv(e: Setting, w: World, i: nat)
    requires Inv(e, w) && i < 2
    ensures Inv(e, WithProcess(w, i, Resume(w.clients[i].saved)))
  {
    hide NetworkOk;
    assert ClientOk(e, w, i);
    ProcessInv(e, w, i, Resume(w.clients[i].saved));
  }

  /** Publishing adds a message to what the client may post, and takes none away. */
  lemma PublishExtends(e: Setting, saved: KeyExchange, kx: KeyExchange)
    requires saved.status.Init? || (saved.status.Exchange1? && !kx.status.Init? && kx.message1 == saved.message1)
    ensures forall tag :: MessageAt(e, saved, tag).Some? ==> MessageAt(e, kx, tag) == MessageAt(e, saved, tag)
  {}

  lemma PublishInv(e: Setting, w: World, i: nat)
    requires Inv(e, w) && i < 2 && w.clients[i].process.Publishing?
    ensures var kx := w.clients[i].process.kx; Inv(e, w.(clients := w.clients[i := Client(Serialised(kx), Polling(kx))]))
  {
    var kx, saved, j := w.clients[i].process.kx, w.clients[i].saved, Peer(i);
    var t := w.(clients := w.clients[i := Client(Serialised(kx), Polling(kx))]);
    assert ClientOk(e, w, i) && ClientOk(e, w, j);
    PublishExtends(e, saved, kx);
    assert Extends(e, w, t) by { hide NetworkOk, SavedOk, First, Second; }
    NetworkExtends(e, w, t);
    assert ClientOk(e, t, i) by { hide NetworkOk, First, Second, MessageAt; }
    assert ClientOk(e, t, j) by { hide NetworkOk, First, Second, MessageAt; }
  }

  lemma PostInv(e: Setting, w: World, i: nat)
    requires Inv(e, w) && i < 2 && w.clients[i].process.Polling?
    ensures var kx := w.clients[i].process.kx;
            Inv(e, w.(posts := w.posts + {Posted(i, TagOf(kx), MessageOf(kx))}))
  {
    hide First, Second;
    var kx := w.clients[i].process.kx;
    var p := Posted(i, TagOf(kx), MessageOf(kx));
    assert ClientOk(e, w, i);
    assert PostOk(e, w, p);
    hide SavedOk, ProcessOk, MessageAt;
    var t := w.(posts := w.posts + {p});
    forall q | q in t.posts ensures PostOk(e, t, q) { assert PostOk(e, w, q); }
    forall tag | tag in t.postings ensures PostingOk(e, t, tag, t.postings[tag]) {
      assert PostingOk(e, w, tag, w.postings[tag]);
    }
    forall r | r in t.replies ensures PostOk(e, t, r.post) && ResponseOk(e, t, r.post, r.response) {
      assert PostOk(e, w, r.post) && ResponseOk(e, w, r.post, r.response);
    }
  }

  lemma MessagesNotEmpty(e: Setting, w: World, i: nat, tag: Tag)
    requires Inv(e, w) && i < 2
    ensures MessageAt(e, w.clients[i].saved, tag).Some? ==> |MessageAt(e, w.clients[i].saved, tag).value| > 0
  {
    hide NetworkOk, ProcessOk;
    assert ClientOk(e, w, i);
    SecondNotEmpty(e, w.clients[i].saved, w.clients[Peer(i)].saved);
    hide Second;
  }

  lemma SecondNotEmpty(e: Setting, kx: KeyExchange, peer: KeyExchange)
    ensures MadeSecond(e, kx, peer) ==> |kx.message2| > 0
  {}

  /** The server on a post of one of the two clients. */
  lemma ServeOk(e: Setting, w: World, p: Posted)
    requires Inv(e, w) && p in w.posts
    ensures var (postings, r) := Handle(w.postings, Post(p.tag, p.message), false);
            && r.Some? && ResponseOk(e, w, p, r.value)
            && p.tag in postings && PostingOk(e, w, p.tag, postings[p.tag])
            && postings == w.postings[p.tag := postings[p.tag]]
  {
    assert PostOk(e, w, p);
    MessagesNotEmpty(e, w, 0, p.tag);
    MessagesNotEmpty(e, w, 1, p.tag);
    hide MessageAt, ClientOk;
    if p.tag in w.postings {
      assert PostingOk(e, w, p.tag, w.postings[p.tag]);
    } else {
      assert HeldFor(e, w, p.tag, Posting(p.message, []), p.from);
    }
  }

  lemma ServeInv(e: Setting, w: World, p: Posted)
    requires Inv(e, w) && p in w.posts
    ensures Inv(e, Step(e, w, ServeEvent(p)))
  {
    ServeOk(e, w, p);
    hide Handle, MessageAt, SavedOk, ProcessOk;
    var t := Step(e, w, ServeEvent(p));
    assert PostOk(e, w, p);
    forall q | q in t.posts ensures PostOk(e, t, q) { assert PostOk(e, w, q); }
    forall tag | tag in t.postings ensures PostingOk(e, t, tag, t.postings[tag]) {
      if tag != p.tag {
        assert PostingOk(e, w, tag, w.postings[tag]);
      }
    }
    forall r | r in t.replies ensures PostOk(e, t, r.post) && ResponseOk(e, t, r.post, r.response) {
      assert r in w.replies ==> PostOk(e, w, r.post) && ResponseOk(e, w, r.post, r.response);
    }
  }

  /** The first exchange, on a good response. */
  lemma MeetOk(e: Setting, w: World, i: nat, message: Blob, filler: Blob, nonce: Blob)
    requires Inv(e, w) && i < 2 && w.clients[i].process.Polling? && |nonce| == NONCE_LENGTH
    requires var kx := w.clients[i].process.kx;
             kx.status.Exchange1? && MessageAt(e, w.clients[Peer(i)].saved, TagOf(kx)) == Some(message)
    ensures var met := Met(e.suite, w.clients[i].process.kx, message, filler, nonce);
            && met.Success?
            && ProcessOk(e, i, Publishing(met.value.(status := Exchange2)), w.clients[i].saved, w.clients[Peer(i)].saved)
  {
    hide NetworkOk, Second, First;
    var kx, peer := w.clients[i].process.kx, w.clients[Peer(i)].saved;
    assert ClientOk(e, w, i) && ClientOk(e, w, Peer(i));
    assert message == peer.message1 && MadeFirst(e, peer) && MadeFirst(e, kx);
    MetIsSecond(e.suite, kx, peer, filler, nonce);
    var met := Met(e.suite, kx, message, filler, nonce).value;
    StatusIsIrrelevant(e.suite, kx, met, Exchange2, peer.dhPrivate);
  }

  lemma StatusIsIrrelevant(c: Suite, kx: KeyExchange, met: KeyExchange, status: PandaKx.Status, peer: Blob)
    requires met.dhPrivate == kx.dhPrivate && met.key == kx.key && met.message1 == kx.message1
    ensures First(c, kx) ==> First(c, met.(status := status))
    ensures Second(c, met, peer) ==> Second(c, met.(status := status), peer)
  {
    if Second(c, met, peer) {
      var nonce, filler :| |nonce| == NONCE_LENGTH
                           && met.message2 == nonce + c.seal(met.sharedKey, nonce, Padded(met.kxBytes, filler));
      var t := met.(status := status);
      assert t.message2 == nonce + c.seal(t.sharedKey, nonce, Padded(t.kxBytes, filler));
    }
  }

  /** The second exchange, on a good response. */
  lemma OpenOk(e: Setting, w: World, i: nat, message: Blob)
    requires Inv(e, w) && i < 2 && w.clients[i].process.Polling?
    requires var kx := w.clients[i].process.kx;
             kx.status.Exchange2? && MessageAt(e, w.clients[Peer(i)].saved, TagOf(kx)) == Some(message)
    ensures var r := Opened(e.suite, w.clients[i].process.kx, message);
            r.Success? ==> r.value == e.kxBytes[Peer(i)]
  {
    hide NetworkOk, Second, First;
    var kx, peer := w.clients[i].process.kx, w.clients[Peer(i)].saved;
    assert ClientOk(e, w, i) && ClientOk(e, w, Peer(i));
    assert message == peer.message2 && MadeSecond(e, kx, peer) && MadeSecond(e, peer, kx);
    OpensPeer(e.suite, kx, peer);
  }

  lemma ReplyInv(e: Setting, w: World, reply: Replied, filler: Blob, nonce: Blob)
    requires Inv(e, w) && Enabled(e, w, ReplyEvent(reply, filler, nonce))
    ensures Inv(e, Step(e, w, ReplyEvent(reply, filler, nonce)))
  {
    var i := reply.post.from;
    var kx, r := w.clients[i].process.kx, reply.response;
    assert PostOk(e, w, reply.post) && ResponseOk(e, w, reply.post, r);
    assert ClientOk(e, w, i);
    if Decide(Answer(r)).Some? {
      assert r.status == Received2;
      if kx.status.Exchange1? {
        MeetOk(e, w, i, r.message, filler, nonce);
      } else {
        OpenOk(e, w, i, r.message);
      }
    }
    hide NetworkOk, SavedOk, MessageAt, Met, Opened, MadeFirst, MadeSecond;
    assert ProcessOk(e, i, OnResponse(e.suite, kx, r, filler, nonce), w.clients[i].saved, w.clients[Peer(i)].saved);
    ProcessInv(e, w, i, OnResponse(e.suite, kx, r, filler, nonce));
  }

  lemma StepInv(e: Setting, w: World, ev: Event)
    requires Inv(e, w) && Enabled(e, w, ev)
    ensures Inv(e, Step(e, w, ev))
  {
    hide NetworkOk, SavedOk, MessageAt, ClientOk, Met, Opened, Derived, Handle;
    match ev
    case CrashEvent(i) => ProcessInv(e, w, i, Down);
    case RestartEvent(i) => RestartInv(e, w, i);
    case DeriveEvent(i, filler) => DeriveInv(e, w, i, filler);
    case PublishEvent(i) => PublishInv(e, w, i);
    case PostEvent(i) => PostInv(e, w, i);
    case ServeEvent(post) => ServeInv(e, w, post);
    case ReplyEvent(reply, filler, nonce) => ReplyInv(e, w, reply, filler, nonce);
  }

  lemma {:induction false} RunInv(e: Setting, worlds: seq<World>, events: seq<Event>, i: nat)
    requires Run(e, worlds, events) && i < |worlds|
    ensures Inv(e, worlds[i])
  {
    hide Inv, Enabled, Step, Start;
    if i == 0 {
      StartInv(e, worlds[0]);
    } else {
      RunInv(e, worlds, events, i - 1);
      assert Enabled(e, worlds[i - 1], events[i - 1]) && worlds[i] == Step(e, worlds[i - 1], events[i - 1]);
      StepInv(e, worlds[i - 1], events[i - 1]);
    }
  }

  // ---------------------------------------------------------------- theorems

  /** In every run a client posts at most one message under a tag, however often it was restarted. */
  lemma OneMessagePerTag(e: Setting, worlds: seq<World>, events: seq<Event>, i: nat, p: Posted, q: Posted)
    requires Run(e, worlds, events) && i < |worlds| && p in worlds[i].posts && q in worlds[i].posts
    requires p.from == q.from && p.tag == q.tag
    ensures p == q
  {
    RunInv(e, worlds, events, i);
    hide Run;
    assert PostOk(e, worlds[i], p) && PostOk(e, worlds[i], q);
  }

  /** In every run no response reports that a tag is contended, and no client gives up for it. */
  lemma NeverContended(e: Setting, worlds: seq<World>, events: seq<Event>, i: nat, r: Replied, c: nat)
    requires Run(e, worlds, events) && i < |worlds| && r in worlds[i].replies && c < 2
    ensures r.response.status != TagContended
    ensures |worlds[i].clients| == 2 && worlds[i].clients[c].process != Abandoned(Contended)
  {
    RunInv(e, worlds, events, i);
    hide Run;
    assert ResponseOk(e, worlds[i], r.post, r.response);
    assert ClientOk(e, worlds[i], c);
  }

  /** In every run a result of the exchange is exactly the peer's bytes. */
  lemma ResultIsPeers(e: Setting, worlds: seq<World>, events: seq<Event>, i: nat, c: nat)
    requires Run(e, worlds, events) && i < |worlds| && c < 2 && |worlds[i].clients| == 2
    requires worlds[i].clients[c].process.Finished? && worlds[i].clients[c].process.result.Success?
    ensures worlds[i].clients[c].process.result.value == e.kxBytes[Peer(c)]
  {
    RunInv(e, worlds, events, i);
    hide Run;
    assert ClientOk(e, worlds[i], c);
  }
}
