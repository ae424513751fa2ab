/** The spool reader of catshadow/client.go (sendReadInbox and the read branch of handleReply) against the spool
    server of memspool/server/spool.go, over a network that loses, repeats and reorders. */
module SpoolReader {
  import opened Bytes
  import opened SpoolStore
  import opened Wrappers

  /** The identifier the session gives to a request. */
  type RequestId = nat

  /** SpoolResponse */
  datatype Reply = Reply(messageId: nat, ok: bool, message: Bytes)

  /** What decrypting the tip of the spool came to. */
  datatype Decryption = Decrypted | TrialDecryptionFailed | OtherFailure

  /** The reader: its read offset, the requests it remembers, and the entries it has advanced past. */
  datatype Client = Client(readOffset: nat, sendMap: map<RequestId, nat>, passed: seq<(nat, Bytes)>)

  const NewClient := Client(1, map[], [])

  // ---------------------------------------------------------------- handlers

  /** sendReadInbox */
  function SendRead(c: Client, id: RequestId): Client {
    c.(sendMap := c.sendMap[id := c.readOffset])
  }

  /** IncrementOffset; the offset is an unsigned 32-bit integer. */
  function Advance(c: Client, r: Reply): Client {
    c.(readOffset := (c.readOffset + 1) % ID_LIMIT, passed := c.passed + [(r.messageId, r.message)])
  }

  /** A reply to a message that was not requested yet, on which the client panics. */
  predicate Panics(c: Client, id: RequestId, r: Reply) {
    id in c.sendMap && r.ok && r.messageId > c.readOffset
  }

  /** handleReply. The request is not forgotten: the deferred deletion uses the address of the identifier as its key. */
  function HandleReply(c: Client, id: RequestId, r: Reply, d: Decryption, pending: bool): Client {
    if id !in c.sendMap || !r.ok || r.messageId != c.readOffset || (d.TrialDecryptionFailed? && pending) then c
    else Advance(c, r)
  }

  /** HandleSpoolRequest, for reads with a valid signature. */
  function Serve(sp: MemSpool, messageId: nat): Reply {
    match Get(sp, messageId)
    case None => Reply(messageId, false, [])
    case Some(payload) => Reply(messageId, true, payload)
  }

  // ---------------------------------------------------------------- runs

  datatype World = World(spool: MemSpool, client: Client, requests: set<(RequestId, nat)>, replies: set<(RequestId, Reply)>)

  datatype Event =
    | AppendEvent(message: Bytes)
    | RestartEvent
    | ReadEvent(id: RequestId)
    | ServeEvent(id: RequestId, messageId: nat)
    | ReceiveEvent(id: RequestId, reply: Reply, d: Decryption, pending: bool)

  /** Requests and replies in the network may be handled any number of times, in any order; a restart of the server
      leaves the spool with every entry written back. */
  ghost predicate Enabled(w: World, ev: Event) {
    match ev
    case AppendEvent(_) => w.spool.current + 2 < ID_LIMIT
    case RestartEvent => true
    case ReadEvent(id) => id !in w.client.sendMap
    case ServeEvent(id, messageId) => (id, messageId) in w.requests
    case ReceiveEvent(id, reply, _, _) => (id, reply) in w.replies
  }

  ghost function Step(w: World, ev: Event): World {
    match ev
    case AppendEvent(message) => w.(spool := Append(w.spool, message))
    case RestartEvent => w.(spool := Clean(w.spool))
    case ReadEvent(id) => w.(client := SendRead(w.client, id), requests := w.requests + {(id, w.client.readOffset)})
    case ServeEvent(id, messageId) => w.(replies := w.replies + {(id, Serve(w.spool, messageId))})
    case ReceiveEvent(id, reply, d, pending) => w.(client := HandleReply(w.client, id, reply, d, pending))
  }

  ghost function Note(messages: seq<Bytes>, ev: Event): seq<Bytes> {
    if ev.AppendEvent? then messages + [ev.message] else messages
  }

  ghost function Start(key: PublicKey): World {
    World(MemSpool(key, map[], 0), NewClient, {}, {})
  }

  ghost predicate Run(key: PublicKey, worlds: seq<World>, events: seq<Event>) {
    && |worlds| == |events| + 1 && worlds[0] == Start(key)
    && forall i :: 0 <= i < |events| ==> Enabled(worlds[i], events[i]) && worlds[i + 1] == Step(worlds[i], events[i])
  }

  ghost function Appended(events: seq<Event>): seq<Bytes> {
    if events == [] then [] else Note(Appended(events[..|events| - 1]), events[|events| - 1])
  }

  // ---------------------------------------------------------------- the invariant

  /** The client has passed the first messages, each once and in order, and its offset is the next. */
  ghost predicate InStep(c: Client, messages: seq<Bytes>) {
    && |c.passed| <= |messages| && c.readOffset == |c.passed| + 1
    && forall i :: 0 <= i < |c.passed| ==> c.passed[i] == (i + 1, messages[i])
  }

  ghost predicate Truthful(r: Reply, offset: nat, messages: seq<Bytes>) {
    r.messageId <= offset && (r.ok ==> 1 <= r.messageId <= |messages| && r.message == messages[r.messageId - 1])
  }

  ghost predicate Inv(w: World, messages: seq<Bytes>) {
    && Holds(w.spool, messages) && |messages| + 1 < ID_LIMIT && InStep(w.client, messages)
    && (forall q | q in w.requests :: q.1 <= w.client.readOffset)
    && (forall r | r in w.replies :: Truthful(r.1, w.client.readOffset, messages))
  }

  lemma StepInv(w: World, messages: seq<Bytes>, ev: Event)
    requires Inv(w, messages) && Enabled(w, ev)
    ensures Inv(Step(w, ev), Note(messages, ev))
  {
    match ev
    case AppendEvent(message) =>
      AppendHolds(w.spool, messages, message);
      hide Holds, Append;
    case RestartEvent =>
      CleanHolds(w.spool, messages);
      hide Holds, Clean;
    case ReadEvent(id) =>
      hide Holds;
    case ServeEvent(id, messageId) =>
      assert (id, messageId) in w.requests;
      assert Truthful(Serve(w.spool, messageId), w.client.readOffset, messages);
      hide Holds;
    case ReceiveEvent(id, reply, d, pending) =>
      assert Truthful((id, reply).1, w.client.readOffset, messages);
      assert |messages| + 1 < ID_LIMIT;
      hide Holds;
  }

  lemma {:induction false} RunInv(key: PublicKey, worlds: seq<World>, events: seq<Event>, i: nat)
    requires Run(key, worlds, events) && i < |worlds|
    ensures Inv(worlds[i], Appended(events[..i]))
  {
    hide Step, Enabled, Note;
    if i == 0 {
      assert events[..0] == [];
    } else {
      hide Inv;
      RunInv(key, worlds, events, i - 1);
      assert Enabled(worlds[i - 1], events[i - 1]) && worlds[i] == Step(worlds[i - 1], events[i - 1]);
      assert events[..i][..i - 1] == events[..i - 1] && events[..i][i - 1] == events[i - 1];
      StepInv(worlds[i - 1], Appended(events[..i - 1]), events[i - 1]);
    }
  }

  // ---------------------------------------------------------------- theorems

  /** In every run the client passes entries 1, 2, 3, ... once each and in order, with the messages that were appended,
      and its offset is one past the last, at most one past the server's count. */
  lemma PassesInOrder(key: PublicKey, worlds: seq<World>, events: seq<Event>, i: nat)
    requires Run(key, worlds, events) && i < |worlds|
    ensures var c := worlds[i].client; var messages := Appended(events[..i]);
            && c.readOffset == |c.passed| + 1 <= |messages| + 1 == worlds[i].spool.current + 1
            && forall j :: 0 <= j < |c.passed| ==> c.passed[j] == (j + 1, messages[j])
  {
    RunInv(key, worlds, events, i);
    hide Run, Appended;
  }

  /** In no run does a reply come for a message that was not requested yet. */
  lemma NeverPanics(key: PublicKey, worlds: seq<World>, events: seq<Event>, i: nat, id: RequestId, r: Reply)
    requires Run(key, worlds, events) && i < |worlds| && (id, r) in worlds[i].replies
    ensures !Panics(worlds[i].client, id, r)
  {
    RunInv(key, worlds, events, i);
    assert Truthful((id, r).1, worlds[i].client.readOffset, Appended(events[..i]));
  }

  lemma ExtendRun(key: PublicKey, worlds: seq<World>, events: seq<Event>, ev: Event)
    requires Run(key, worlds, events) && Enabled(worlds[|events|], ev)
    ensures Run(key, worlds + [Step(worlds[|events|], ev)], events + [ev])
    ensures !ev.AppendEvent? ==> Appended(events + [ev]) == Appended(events)
  {
    hide Enabled, Step;
    assert (events + [ev])[..|events|] == events;
  }

  /** The messages in the spool that the client has not passed. */
  ghost function Unread(w: World): int { w.spool.current + 1 - w.client.readOffset }

  ghost function ReplyTo(w: World, id: RequestId, d: Decryption, pending: bool): Event {
    ReceiveEvent(id, Serve(w.spool, w.client.readOffset), d, pending)
  }

  lemma RoundTrip(w: World, messages: seq<Bytes>, id: RequestId, d: Decryption, pending: bool)
    requires Inv(w, messages) && Unread(w) > 0 && id !in w.client.sendMap && !(d.TrialDecryptionFailed? && pending)
    ensures var a, b, c := ReadEvent(id), ServeEvent(id, w.client.readOffset), ReplyTo(w, id, d, pending);
            var u := Step(w, a);
            var v := Step(u, b);
            var t := Step(v, c);
            && Enabled(w, a) && Enabled(u, b) && Enabled(v, c)
            && |w.client.passed| < |messages| && t.client.readOffset == w.client.readOffset + 1
            && t.client.passed == w.client.passed + [(w.client.readOffset, messages[|w.client.passed|])]
            && t.spool == w.spool
  {
    assert Serve(w.spool, w.client.readOffset) == Reply(w.client.readOffset, true, messages[|w.client.passed|]);
    hide Serve, Holds;
  }

  /** From every state of every run with unread messages: a read, its service and the receipt of the reply, unless that is
      held back for a pending key exchange, advance the client by one, past the next message. */
  lemma ReadAdvances(key: PublicKey, worlds: seq<World>, events: seq<Event>, id: RequestId, d: Decryption, pending: bool)
    returns (ws: seq<World>, evs: seq<Event>)
    requires Run(key, worlds, events)
    requires var w := worlds[|events|]; Unread(w) > 0 && id !in w.client.sendMap && !(d.TrialDecryptionFailed? && pending)
    ensures |ws| == |evs| == 3 && Run(key, worlds + ws, events + evs) && Appended(events + evs) == Appended(events)
    ensures evs[0] == ReadEvent(id) && evs[1].ServeEvent? && evs[2].ReceiveEvent? && evs[2].d == d && evs[2].pending == pending
    ensures var c := worlds[|events|].client;
            && |c.passed| < |Appended(events)| && ws[2].client.readOffset == c.readOffset + 1
            && ws[2].client.passed == c.passed + [(c.readOffset, Appended(events)[|c.passed|])]
    ensures Unread(ws[2]) == Unread(worlds[|events|]) - 1
  {
    var n, w := |events|, worlds[|events|];
    RunInv(key, worlds, events, n);
    assert events[..n] == events;
    RoundTrip(w, Appended(events), id, d, pending);
    hide Run, Appended, Inv, Enabled, Step;
    var a, b, c := ReadEvent(id), ServeEvent(id, w.client.readOffset), ReplyTo(w, id, d, pending);
    var u := Step(w, a);
    var v := Step(u, b);
    ExtendRun(key, worlds, events, a);
    ExtendRun(key, worlds + [u], events + [a], b);
    ExtendRun(key, worlds + [u] + [v], events + [a] + [b], c);
    ws, evs := [u, v, Step(v, c)], [a, b, c];
    assert worlds + [u] + [v] + [Step(v, c)] == worlds + ws && events + [a] + [b] + [c] == events + evs;
  }

  /** In every run a reply that cannot be decrypted while a key exchange is pending is held back: nothing changes, and the message
      is still the next to be read. */
  lemma HeldBackIsKept(key: PublicKey, worlds: seq<World>, events: seq<Event>, id: RequestId, reply: Reply)
    requires Run(key, worlds, events) && (id, reply) in worlds[|events|].replies
    ensures var ev := ReceiveEvent(id, reply, TrialDecryptionFailed, true);
            Run(key, worlds + [worlds[|events|]], events + [ev]) && Unread(worlds[|events|]) >= 0
  {
    var w, ev := worlds[|events|], ReceiveEvent(id, reply, TrialDecryptionFailed, true);
    PassesInOrder(key, worlds, events, |events|);
    assert Step(w, ev) == w;
    ExtendRun(key, worlds, events, ev);
  }

  lemma {:induction false} FreshId(used: set<RequestId>) returns (id: RequestId)
    ensures forall k | k in used :: k < id
    decreases |used|
  {
    if used == {} {
      id := 0;
    } else {
      var k :| k in used;
      var rest := FreshId(used - {k});
      id := if k < rest then rest else k + 1;
      assert forall j | j in used :: j == k || j in used - {k};
    }
  }

  /** From every state of every run the client can catch up: the run goes on, with no message appended, to a state in which
      it has passed every message that was appended, once and in order. */
  lemma {:induction false} CatchesUp(key: PublicKey, worlds: seq<World>, events: seq<Event>)
    returns (ws: seq<World>, evs: seq<Event>)
    requires Run(key, worlds, events)
    ensures |ws| == |evs| && Run(key, worlds + ws, events + evs) && Appended(events + evs) == Appended(events)
    ensures var c := (worlds + ws)[|events + evs|].client; var messages := Appended(events);
            |c.passed| == |messages| && forall i :: 0 <= i < |messages| ==> c.passed[i] == (i + 1, messages[i])
    decreases Unread(worlds[|events|])
  {
    var n, w := |events|, worlds[|events|];
    PassesInOrder(key, worlds, events, n);
    assert events[..n] == events;
    if Unread(w) == 0 {
      ws, evs := [], [];
      assert worlds + [] == worlds && events + [] == events;
    } else {
      hide Run, Appended, Step;
      var id := FreshId(w.client.sendMap.Keys);
      var us, fs := ReadAdvances(key, worlds, events, id, Decrypted, false);
      var vs, gs := CatchesUp(key, worlds + us, events + fs);
      ws, evs := us + vs, fs + gs;
      assert (worlds + us) + vs == worlds + ws && (events + fs) + gs == events + evs;
    }
  }

  // ---------------------------------------------------------------- the object

  class Reader {
    var readOffset: nat
    var sendMap: map<RequestId, nat>
    var passed: seq<(nat, Bytes)>

    ghost function Contents(): Client
      reads this
    {
      Client(readOffset, sendMap, passed)
    }

    /** NewSpoolReadDescriptor */
    constructor ()
      ensures Contents() == NewClient
    {
      readOffset, sendMap, passed := 1, map[], [];
    }

    method SendReadInbox(id: RequestId) returns (sequence: nat)
      modifies this
      ensures Contents() == SendRead(old(Contents()), id) && sequence == old(readOffset)
    {
      sequence := readOffset;
      sendMap := sendMap[id := sequence];
    }

    method OnReply(id: RequestId, r: Reply, d: Decryption, pending: bool) returns (panicked: bool)
      modifies this
      ensures Contents() == HandleReply(old(Contents()), id, r, d, pending)
      ensures panicked <==> Panics(old(Contents()), id, r)
    {
      panicked := false;
      if id in sendMap {
        if !r.ok {
          return;
        }
        if r.messageId < readOffset {
          return;
        } else if r.messageId == readOffset {
          match d {
            case TrialDecryptionFailed =>
              if pending {
                return;
              }
            case Decrypted =>
            case OtherFailure =>
          }
          readOffset := (readOffset + 1) % ID_LIMIT;
          passed := passed + [(r.messageId, r.message)];
        } else {
          panicked := true;
        }
      }
    }
  }
}
