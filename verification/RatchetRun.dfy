/** Two honest sides and a network that loses, delays, reorders and duplicates: what every run keeps. */
module RatchetRun {
  import opened RatchetTerms
  import opened DoubleRatchet
  import opened RatchetReplay
  import opened RatchetHistory
  import opened RatchetParty
  import opened Wrappers

  datatype World = World(h: History, bob: Party, alice: Party)
  {
    function P(d: nat): Party { if d == 0 then bob else alice }

    function With(d: nat, p: Party): World { if d == 0 then this.(bob := p) else this.(alice := p) }
  }

  ghost predicate NoneEmpty(h: History) {
    forall t, n :: 0 <= t < |h.sent| && 0 <= n < |h.sent[t]| ==> h.sent[t][n].body != ""
  }

  /** The invariant: both sides match the history; the side that opened the latest epoch is in it, and the other side is in
      it too or exactly one ratchet step behind. */
  ghost predicate Inv(w: World) {
    && NoneEmpty(w.h)
    && Matched(w.h, 0, w.bob) && Matched(w.h, 1, w.alice)
    && var last := |w.h.privs| - 1;
       w.P(last % 2).epoch == last && last - 1 <= w.P(1 - last % 2).epoch <= last
  }

  /** Side d encrypts a letter. */
  ghost function Sends(w: World, d: nat, drawn: Secret, letter: Letter): World
    requires w.P(d).epoch < |w.h.sent|
  {
    var p := w.P(d);
    var s' := Encrypted(p.st, drawn, letter.nonce, letter.body).0;
    if p.st.ratchet then w.(h := w.h.Open(drawn, letter)).With(d, p.(st := s', epoch := p.epoch + 1))
    else w.(h := w.h.Append(p.epoch, letter)).With(d, p.(st := s'))
  }

  lemma TurnedIsLast(w: World, d: nat)
    requires Inv(w) && d < 2 && w.P(d).st.ratchet
    ensures w.P(d).epoch == |w.h.privs| - 1 && d == 1 - w.P(d).epoch % 2
    ensures w.P(1 - d).epoch == w.P(d).epoch
  {}

  lemma NoneEmptyAppend(h: History, t: nat, letter: Letter)
    requires NoneEmpty(h) && t < |h.sent| && letter.body != ""
    ensures NoneEmpty(h.Append(t, letter))
  {}

  lemma ContinueInv(w: World, d: nat, drawn: Secret, letter: Letter)
    requires Inv(w) && d < 2 && letter.body != "" && !w.P(d).st.ratchet
    ensures Inv(Sends(w, d, drawn, letter))
  {
    hide Sending, Turned, Receiving, SavedOk, Encrypted, History.Material, History.HeaderKeyAt, History.ChainAt, NoneEmpty;
    var p := w.P(d);
    SendingParity(w.h, d, p);
    NoneEmptyAppend(w.h, p.epoch, letter);
    PartyContinues(w.h, d, p, drawn, letter);
    AppendExtends(w.h, p.epoch, letter);
    HistoryMatched(w.h, 1 - d, w.P(1 - d), w.h.Append(p.epoch, letter));
  }

  lemma OpenInv(w: World, d: nat, drawn: Secret, letter: Letter)
    requires Inv(w) && d < 2 && letter.body != "" && w.P(d).st.ratchet
    ensures Inv(Sends(w, d, drawn, letter))
  {
    hide Sending, Turned, Receiving, SavedOk, Encrypted, History.Material, History.HeaderKeyAt, History.ChainAt;
    var p := w.P(d);
    TurnedIsLast(w, d);
    PartyOpens(w.h, d, p, drawn, letter);
    OpenExtends(w.h, drawn, letter);
    HistoryMatched(w.h, 1 - d, w.P(1 - d), w.h.Open(drawn, letter));
  }

  ghost predicate Deliverable(w: World, d: nat, t: nat, n: nat) {
    d < 2 && t % 2 != d && t < |w.h.sent| && n < |w.h.sent[t]|
  }

  /** Messages of the other side are at most one epoch ahead. */
  lemma OneAhead(w: World, d: nat, t: nat, n: nat)
    requires Inv(w) && Deliverable(w, d, t, n)
    ensures var p := w.P(d); t > RecvEpoch(d, p.epoch) ==> p.epoch % 2 == d && t == p.epoch + 1
  {
    hide NoneEmpty, SavedOk, Sending, Turned, Receiving;
    assert |w.h.sent| == |w.h.privs| && w.P(d).epoch < |w.h.privs|;
    hide Matched;
    EpochAhead(|w.h.privs| - 1, w.P(d).epoch, d, t);
  }

  /** The epoch of a side is the last one, or the one before if the last is the other side's. */
  lemma EpochAhead(last: nat, e: nat, d: nat, t: nat)
    requires d < 2 && t % 2 != d && t <= last && last - 1 <= e <= last && (last % 2 == d ==> e == last)
    ensures t > RecvEpoch(d, e) ==> e % 2 == d && t == e + 1
  {}

  /** Message (t, n) is found among the saved keys. */
  ghost predicate Hits(s: State, ct: Ciphertext, pick: Option<nat>)
    requires Found(s, ct, pick) && ct.Sealed?
  {
    pick.Some? && ct.header.num in s.saved[pick.value].keys
  }

  lemma HitIsBehind(w: World, d: nat, t: nat, n: nat, pick: Option<nat>)
    requires Inv(w) && Deliverable(w, d, t, n) && Found(w.P(d).st, w.h.Wire(t, n), pick)
    requires Hits(w.P(d).st, w.h.Wire(t, n), pick)
    ensures !NotBehind(w.h, d, w.P(d), t, n)
  {
    hide History.Material, History.HeaderKeyAt;
    EntryEpoch(w.h, d, w.P(d), w.P(d).st.saved[pick.value], t);
  }

  /** Under which of the receiver's header keys a message opens. */
  lemma HeaderBranch(w: World, d: nat, t: nat, n: nat)
    requires Inv(w) && Deliverable(w, d, t, n)
    ensures var s, ct, r := w.P(d).st, w.h.Wire(t, n), RecvEpoch(d, w.P(d).epoch);
            && (ct.HeaderOpens(s.recvHeaderKey) && s.recvHeaderKey != Zero <==> t == r)
            && (t != r ==> (ct.HeaderOpens(s.nextRecvHeaderKey) <==> t > r))
            && (t > r ==> !s.ratchet)
  {
    hide History.Material, History.HeaderKeyAt, SavedOk, Sending, Turned, NoneEmpty, History.ChainAt, History.MessageKeyAt;
    var p := w.P(d);
    var r := RecvEpoch(d, p.epoch);
    OneAhead(w, d, t, n);
    SendingParity(w.h, d, p);
    HeaderKeyNotZero(w.h, t);
    RecvParity(d, p.epoch, t);
    if r >= 0 {
      SameHeaderKey(w.h, t, r);
    }
    SameHeaderKey(w.h, t, r + 2);
  }

  lemma RecvParity(d: nat, e: nat, t: nat)
    requires d < 2 && t % 2 != d
    ensures RecvEpoch(d, e) % 2 == t % 2 && -1 <= RecvEpoch(d, e) <= e
  {}

  lemma SameHeaderKey(h: History, t: nat, r: nat)
    requires h.Shaped() && t < |h.privs| + 2 && r < |h.privs| + 2 && t % 2 == r % 2
    ensures h.HeaderKeyAt(t) == h.HeaderKeyAt(r) <==> t == r
  {
    hide History.HeaderKeyAt;
    if h.HeaderKeyAt(t) == h.HeaderKeyAt(r) {
      HeaderKeyInjective(h, t, r);
    }
  }

  /** Which branch of Decrypt a message that is not found among the saved keys takes. */
  lemma FreshBranch(w: World, d: nat, t: nat, n: nat)
    requires Inv(w) && Deliverable(w, d, t, n)
    ensures var s, ct, r := w.P(d).st, w.h.Wire(t, n), RecvEpoch(d, w.P(d).epoch);
            DecryptFresh(s, ct) == if t == r then DecryptCurrent(s, ct)
                                   else if t < r then (s, Err(CannotDecrypt))
                                   else DecryptNext(s, ct)
  {
    hide Inv, DecryptCurrent, DecryptNext, History.Wire;
    HeaderBranch(w, d, t, n);
  }

  lemma HeaderKeyNotZero(h: History, t: nat)
    requires t < |h.privs| + 2
    ensures h.HeaderKeyAt(t) != Zero
  {}

  /** Message (t, n) reaches side d; pick is where the search of its saved keys ends. */
  ghost function Receives(w: World, d: nat, t: nat, n: nat, pick: Option<nat>): World
    requires w.h.Shaped() && Deliverable(w, d, t, n) && Found(w.P(d).st, w.h.Wire(t, n), pick)
  {
    var p := w.P(d);
    var (s', r) := Decrypted(p.st, w.h.Wire(t, n), pick);
    w.With(d, Party(s', if s'.ratchet && !p.st.ratchet then p.epoch + 1 else p.epoch,
                    if r.Ok? then p.accepted + {(t, n)} else p.accepted))
  }

  /** What a delivery must do, whatever the order in which saved keys are searched: a message found there, or not behind the
      counter and within the limit, is decrypted to its plaintext, and was not accepted before; anything else is refused and
      changes nothing. In every case the receiver still matches the history. */
  ghost predicate ReceiveOk(w: World, d: nat, t: nat, n: nat, pick: Option<nat>)
    requires Inv(w) && Deliverable(w, d, t, n) && Found(w.P(d).st, w.h.Wire(t, n), pick)
  {
    var p, p' := w.P(d), Receives(w, d, t, n, pick).P(d);
    var (s', r) := Decrypted(p.st, w.h.Wire(t, n), pick);
    && (if Hits(p.st, w.h.Wire(t, n), pick) || (NotBehind(w.h, d, p, t, n) && WithinLimit(w.h, d, p, t, n))
        then r == Ok(w.h.sent[t][n].body) && (t, n) !in p.accepted
        else r.Err? && p' == p)
    && Matched(w.h, d, p')
    && (p'.epoch == p.epoch || (p'.epoch == p.epoch + 1 == t && p.epoch % 2 == d))
  }

  lemma ReceiveHit(w: World, d: nat, t: nat, n: nat, pick: Option<nat>)
    requires Inv(w) && Deliverable(w, d, t, n) && Found(w.P(d).st, w.h.Wire(t, n), pick)
    requires Hits(w.P(d).st, w.h.Wire(t, n), pick)
    ensures ReceiveOk(w, d, t, n, pick)
  {
    hide History.Material, History.HeaderKeyAt, History.ChainAt, History.MessageKeyAt, SavedOk, DropSaved, DecryptFresh;
    SavedAccepts(w.h, d, w.P(d), t, n, pick.value);
    DropKeeps(w.P(d).st, pick.value, n);
  }

  lemma ReceiveCurrent(w: World, d: nat, t: nat, n: nat, pick: Option<nat>)
    requires Inv(w) && Deliverable(w, d, t, n) && Found(w.P(d).st, w.h.Wire(t, n), pick)
    requires !Hits(w.P(d).st, w.h.Wire(t, n), pick) && t == RecvEpoch(d, w.P(d).epoch)
    ensures ReceiveOk(w, d, t, n, pick)
  {
    hide History.Material, History.HeaderKeyAt, History.ChainAt, History.MessageKeyAt, SavedOk, DecryptCurrent, DecryptNext,
         Sending, Turned, Receiving, DecryptFresh;
    var p, ct := w.P(d), w.h.Wire(t, n);
    FreshBranch(w, d, t, n);
    NotAccepted(w.h, d, p, t);
    CurrentMatched(w.h, d, p, t, n);
    CurrentKeepsRatchet(p.st, ct);
  }

  lemma ReceiveNext(w: World, d: nat, t: nat, n: nat, pick: Option<nat>)
    requires Inv(w) && Deliverable(w, d, t, n) && Found(w.P(d).st, w.h.Wire(t, n), pick)
    requires !Hits(w.P(d).st, w.h.Wire(t, n), pick) && t > RecvEpoch(d, w.P(d).epoch) && !Spoils(w.h, d, w.P(d), t, n)
    ensures ReceiveOk(w, d, t, n, pick)
  {
    hide History.Material, History.HeaderKeyAt, History.ChainAt, History.MessageKeyAt, SavedOk, DecryptCurrent, DecryptNext,
         Sending, Turned, Receiving, DecryptFresh, TurnedState;
    var p, ct := w.P(d), w.h.Wire(t, n);
    FreshBranch(w, d, t, n);
    OneAhead(w, d, t, n);
    SendingParity(w.h, d, p);
    NotAccepted(w.h, d, p, t);
    NextDecrypts(w.h, d, p, t, n);
    if WithinLimit(w.h, d, p, t, n) {
      NextMatched(w.h, d, p, t, n);
      NextTurns(p.st, ct);
    }
  }

  lemma ReceiveResult(w: World, d: nat, t: nat, n: nat, pick: Option<nat>)
    requires Inv(w) && Deliverable(w, d, t, n) && Found(w.P(d).st, w.h.Wire(t, n), pick)
    requires !Spoils(w.h, d, w.P(d), t, n)
    ensures ReceiveOk(w, d, t, n, pick)
  {
    hide ReceiveOk, SavedOk, Sending, Turned, Receiving;
    if Hits(w.P(d).st, w.h.Wire(t, n), pick) {
      ReceiveHit(w, d, t, n, pick);
    } else if t == RecvEpoch(d, w.P(d).epoch) {
      ReceiveCurrent(w, d, t, n, pick);
    } else if t > RecvEpoch(d, w.P(d).epoch) {
      ReceiveNext(w, d, t, n, pick);
    } else {
      ReceiveStale(w, d, t, n, pick);
    }
  }

  lemma ReceiveStale(w: World, d: nat, t: nat, n: nat, pick: Option<nat>)
    requires Inv(w) && Deliverable(w, d, t, n) && Found(w.P(d).st, w.h.Wire(t, n), pick)
    requires !Hits(w.P(d).st, w.h.Wire(t, n), pick) && t < RecvEpoch(d, w.P(d).epoch)
    ensures ReceiveOk(w, d, t, n, pick)
  {
    hide History.Material, History.HeaderKeyAt, History.ChainAt, History.MessageKeyAt, SavedOk, DecryptFresh,
         Sending, Turned, Receiving;
    FreshBranch(w, d, t, n);
  }

  lemma DropKeeps(s: State, id: nat, n: nat)
    requires id in s.saved
    ensures DropSaved(s, id, n) == s.(saved := DropSaved(s, id, n).saved)
  {}

  lemma CurrentKeepsRatchet(s: State, ct: Ciphertext)
    requires ct.Sealed?
    ensures DecryptCurrent(s, ct).0.ratchet == s.ratchet
  {}

  lemma NextTurns(s: State, ct: Ciphertext)
    requires ct.Sealed? && DecryptNext(s, ct).1.Ok?
    ensures DecryptNext(s, ct).0.ratchet
  {}

  lemma ReceiveInv(w: World, d: nat, t: nat, n: nat, pick: Option<nat>)
    requires Inv(w) && Deliverable(w, d, t, n) && Found(w.P(d).st, w.h.Wire(t, n), pick)
    requires !Spoils(w.h, d, w.P(d), t, n)
    ensures Inv(Receives(w, d, t, n, pick))
  {
    hide SavedOk, Sending, Turned, Receiving, Decrypted;
    ReceiveResult(w, d, t, n, pick);
  }

  // ---------------------------------------------------------------- runs

  datatype Event = Say(d: nat, drawn: Secret, letter: Letter) | Deliver(d: nat, t: nat, n: nat, pick: Option<nat>)

  /** Any side may send a non-empty message while its counter lasts; any message ever sent may be delivered to the other side,
      any number of times, in any order, and with any outcome of the search among saved keys. */
  ghost predicate Possible(w: World, ev: Event) {
    && w.h.Shaped()
    && match ev
       case Say(d, drawn, letter) =>
         d < 2 && w.P(d).epoch < |w.h.sent| && letter.body != "" && (w.P(d).st.ratchet || w.P(d).st.sendCount < UINT32_MAX)
       case Deliver(d, t, n, pick) =>
         Deliverable(w, d, t, n) && Found(w.P(d).st, w.h.Wire(t, n), pick)
  }

  /** What is possible, as long as it does not spoil the receiver. */
  ghost predicate Enabled(w: World, ev: Event) {
    Possible(w, ev) && (ev.Deliver? ==> !Spoils(w.h, ev.d, w.P(ev.d), ev.t, ev.n))
  }

  ghost function Apply(w: World, ev: Event): World
    requires Possible(w, ev)
  {
    match ev
    case Say(d, drawn, letter) => Sends(w, d, drawn, letter)
    case Deliver(d, t, n, pick) => Receives(w, d, t, n, pick)
  }

  ghost predicate IsRun(w: World, events: seq<Event>)
    decreases |events|
  {
    events == [] || (Enabled(w, events[0]) && IsRun(Apply(w, events[0]), events[1..]))
  }

  ghost function Final(w: World, events: seq<Event>): World
    requires IsRun(w, events)
    decreases |events|
  {
    if events == [] then w else Final(Apply(w, events[0]), events[1..])
  }

  lemma StepInv(w: World, ev: Event)
    requires Inv(w) && Enabled(w, ev)
    ensures Inv(Apply(w, ev))
  {
    hide SavedOk, Sending, Turned, Receiving, Sends, Receives, Spoils, NoneEmpty;
    match ev
    case Say(d, drawn, letter) =>
      if w.P(d).st.ratchet {
        OpenInv(w, d, drawn, letter);
      } else {
        ContinueInv(w, d, drawn, letter);
      }
    case Deliver(d, t, n, pick) =>
      ReceiveInv(w, d, t, n, pick);
  }

  /** Every run keeps the two sides matched. */
  lemma {:induction false} RunInv(w: World, events: seq<Event>)
    requires Inv(w) && IsRun(w, events)
    ensures Inv(Final(w, events))
    decreases |events|
  {
    hide Inv, Possible, Apply;
    if events != [] {
      StepInv(w, events[0]);
      RunInv(Apply(w, events[0]), events[1..]);
    }
  }

  /** The sides after they have completed their key exchange with each other. */
  ghost predicate Exchanged(kxA: (Secret, Secret), kxB: (Secret, Secret), w: World) {
    && kxA.0.ec < kxB.0.ec
    && w.alice == Party(Complete(Fresh(), kxA.0, kxA.1, KeyExchange(PublicOf(kxB.0), PublicOf(kxB.1))).0, 0, {})
    && w.bob == Party(Complete(Fresh(), kxB.0, kxB.1, KeyExchange(PublicOf(kxA.0), PublicOf(kxA.1))).0, 0, {})
    && w.h == History(RatchetTerms.Exchanged(Agree(kxA.0.ec, kxB.0.ec), Agree(kxA.0.pq, kxB.0.pq)), [kxB.1], [[]])
  }

  lemma ExchangeInv(kxA: (Secret, Secret), kxB: (Secret, Secret), w: World)
    requires Exchanged(kxA, kxB, w)
    ensures Inv(w)
  {
    AgreeCommutes(kxA.0.ec, kxB.0.ec);
    AgreeCommutes(kxA.0.pq, kxB.0.pq);
  }

  /** In every run of two ratchets that completed their exchange with each other, the keys of both sides stay those of the
      history, at most one side has its ratchet flag set, and the sides are at most one ratchet step apart. */
  lemma RatchetsStayInStep(kxA: (Secret, Secret), kxB: (Secret, Secret), w: World, events: seq<Event>)
    requires Exchanged(kxA, kxB, w) && IsRun(w, events)
    ensures var v := Final(w, events);
            && Inv(v)
            && !(v.alice.st.ratchet && v.bob.st.ratchet)
            && v.alice.epoch - 1 <= v.bob.epoch <= v.alice.epoch + 1
  {
    hide SavedOk, Sending, Turned, Receiving, Exchanged, Final, IsRun, NoneEmpty;
    ExchangeInv(kxA, kxB, w);
    RunInv(w, events);
    var v := Final(w, events);
    SendingParity(v.h, 0, v.bob);
    SendingParity(v.h, 1, v.alice);
  }

  /** At the end of every such run, a message that is not behind its receiver's counter (and would not spoil the receiver) is
      decrypted to its plaintext if and only if it is within the limit; one that is behind is decrypted only if its key was
      saved, and then only if it was not accepted before. */
  lemma DeliveryInEveryRun(kxA: (Secret, Secret), kxB: (Secret, Secret), w: World, events: seq<Event>,
                           d: nat, t: nat, n: nat, pick: Option<nat>)
    requires Exchanged(kxA, kxB, w) && IsRun(w, events)
    requires Enabled(Final(w, events), Deliver(d, t, n, pick))
    ensures var v := Final(w, events);
            var r := Decrypted(v.P(d).st, v.h.Wire(t, n), pick).1;
            && (NotBehind(v.h, d, v.P(d), t, n) ==> (r.Ok? <==> WithinLimit(v.h, d, v.P(d), t, n)))
            && (r.Ok? ==> r.value == v.h.sent[t][n].body && (t, n) !in v.P(d).accepted)
  {
    hide SavedOk, Sending, Turned, Receiving, Exchanged, Final, IsRun, NoneEmpty, Decrypted, WithinLimit, NotBehind;
    ExchangeInv(kxA, kxB, w);
    RunInv(w, events);
    var v := Final(w, events);
    ReceiveResult(v, d, t, n, pick);
    if Hits(v.P(d).st, v.h.Wire(t, n), pick) {
      HitIsBehind(v, d, t, n, pick);
    }
  }

  /** At the end of every such run, each saved key is the right key of a message of the other side that was passed over and
      never accepted, and no message number is saved twice for one header key. */
  lemma SavedKeysInEveryRun(kxA: (Secret, Secret), kxB: (Secret, Secret), w: World, events: seq<Event>,
                            d: nat, id: nat, n: nat)
    requires Exchanged(kxA, kxB, w) && IsRun(w, events) && d < 2 && IsSaved(Final(w, events).P(d).st.saved, id, n)
    ensures var v := Final(w, events); var saved := v.P(d).st.saved;
            && (exists t: nat :: t < |v.h.privs| && t % 2 != d && saved[id].headerKey == v.h.HeaderKeyAt(t)
                            && saved[id].keys[n] == v.h.MessageKeyAt(t, n) && (t, n) !in v.P(d).accepted)
            && (forall id': nat :: IsSaved(saved, id', n) && saved[id'].headerKey == saved[id].headerKey ==> id' == id)
  {
    hide Sending, Turned, Receiving, Exchanged, Final, IsRun, NoneEmpty, SavedOk;
    ExchangeInv(kxA, kxB, w);
    RunInv(w, events);
    SavedEntry(Final(w, events).h, d, Final(w, events).P(d), id, n);
  }

  lemma SavedEntry(h: History, d: nat, p: Party, id: nat, n: nat)
    requires h.Shaped() && d < 2 && SavedOk(h, d, p) && IsSaved(p.st.saved, id, n)
    ensures exists t: nat :: t < |h.privs| && t % 2 != d && p.st.saved[id].headerKey == h.HeaderKeyAt(t)
                             && p.st.saved[id].keys[n] == h.MessageKeyAt(t, n) && (t, n) !in p.accepted
    ensures forall id': nat :: IsSaved(p.st.saved, id', n) && p.st.saved[id'].headerKey == p.st.saved[id].headerKey ==>
                                 id' == id
  {
    hide History.HeaderKeyAt, History.MessageKeyAt;
    var t: nat :| EntryOk(h, d, p, p.st.saved[id], t);
    assert p.st.saved[id].keys[n] == h.MessageKeyAt(t, n) && (t, n) !in p.accepted;
    forall id': nat | IsSaved(p.st.saved, id', n) && p.st.saved[id'].headerKey == p.st.saved[id].headerKey ensures id' == id {
      assert TwiceSaved(p.st.saved, id', id, n);
    }
  }
}
