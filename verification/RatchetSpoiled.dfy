/** The delivery that the runs of RatchetRun leave out: it can happen, and what it costs in every run that follows. */
module RatchetSpoiled {
  import opened RatchetTerms
  import opened DoubleRatchet
  import Replay = RatchetReplay
  import opened RatchetHistory
  import opened RatchetParty
  import opened RatchetRun
  import opened Wrappers

  // ---------------------------------------------------------------- a root key nobody else has

  function SwapRoot(s: State, root: Key): State { s.(rootKey := root) }

  function SwapParty(p: Party, root: Key): Party { p.(st := SwapRoot(p.st, root)) }

  /** The world in which side d still had the root key of its epoch. */
  ghost function Healed(w: World, d: nat): World
    requires w.P(d).epoch < |w.h.privs|
  {
    w.With(d, SwapParty(w.P(d), w.h.Root(w.P(d).epoch)))
  }

  /** Side d is one step behind the other side's epoch, and has nothing wrong with it but its root key, which has absorbed more
      steps than there were. */
  ghost predicate Spoiled(w: World, d: nat) {
    && d < 2 && w.P(d).epoch + 2 == |w.h.privs| && w.P(d).epoch % 2 == d
    && Inv(Healed(w, d)) && Replay.Depth(w.P(d).st.rootKey) > w.P(d).epoch
  }

  lemma EncryptSwaps(s: State, root: Key, drawn: Secret, nonce: nat, msg: Plaintext)
    requires !s.ratchet
    ensures Encrypted(SwapRoot(s, root), drawn, nonce, msg)
            == (SwapRoot(Encrypted(s, drawn, nonce, msg).0, root), Encrypted(s, drawn, nonce, msg).1)
    ensures Encrypted(s, drawn, nonce, msg).0.rootKey == s.rootKey
  {}

  lemma CurrentSwaps(s: State, root: Key, ct: Ciphertext)
    requires ct.Sealed?
    ensures DecryptCurrent(SwapRoot(s, root), ct) == (SwapRoot(DecryptCurrent(s, ct).0, root), DecryptCurrent(s, ct).1)
    ensures DecryptCurrent(s, ct).0.rootKey == s.rootKey
  {}

  // ---------------------------------------------------------------- what goes on as if nothing had happened

  /** No side has its flag set. */
  lemma NoTurn(w: World, d: nat)
    requires Spoiled(w, d)
    ensures !w.P(0).st.ratchet && !w.P(1).st.ratchet && w.P(1 - d).epoch == |w.h.privs| - 1
  {
    hide SavedOk, Sending, Turned, Receiving, NoneEmpty;
    var v := Healed(w, d);
    SendingParity(v.h, d, v.P(d));
    SendingParity(v.h, 1 - d, v.P(1 - d));
  }

  lemma SayKeepsSpoiled(w: World, d: nat, x: nat, drawn: Secret, letter: Letter)
    requires Spoiled(w, d) && Possible(w, Say(x, drawn, letter))
    ensures Spoiled(Sends(w, x, drawn, letter), d)
  {
    hide SavedOk, Sending, Turned, Receiving, NoneEmpty, Inv, Encrypted;
    var v, w' := Healed(w, d), Sends(w, x, drawn, letter);
    NoTurn(w, d);
    EncryptSwaps(w.P(x).st, v.P(x).st.rootKey, drawn, letter.nonce, letter.body);
    SayHeals(w, d, x, drawn, letter);
    ContinueInv(v, x, drawn, letter);
  }

  /** Healing and sending commute. */
  lemma SayHeals(w: World, d: nat, x: nat, drawn: Secret, letter: Letter)
    requires Spoiled(w, d) && Possible(w, Say(x, drawn, letter))
    ensures var w' := Sends(w, x, drawn, letter);
            && w'.P(d).epoch == w.P(d).epoch && |w'.h.privs| == |w.h.privs| && w'.P(d).st.rootKey == w.P(d).st.rootKey
            && Healed(w', d) == Sends(Healed(w, d), x, drawn, letter)
  {
    hide Inv, Encrypted;
    NoTurn(w, d);
    var p, v := w.P(x), Healed(w, d);
    EncryptSwaps(p.st, v.P(x).st.rootKey, drawn, letter.nonce, letter.body);
    AppendExtends(w.h, p.epoch, letter);
    MaterialStable(w.h, w.h.Append(p.epoch, letter), w.P(d).epoch);
  }

  /** A delivery to the other side. */
  lemma OtherKeepsSpoiled(w: World, d: nat, t: nat, n: nat, pick: Option<nat>)
    requires Spoiled(w, d) && Possible(w, Deliver(1 - d, t, n, pick))
    ensures Spoiled(Receives(w, 1 - d, t, n, pick), d)
  {
    hide SavedOk, Sending, Turned, Receiving, NoneEmpty, Decrypted;
    var v := Healed(w, d);
    NoTurn(w, d);
    OneAhead(v, 1 - d, t, n);
    ReceiveResult(v, 1 - d, t, n, pick);
    ReceiveInv(v, 1 - d, t, n, pick);
    assert Healed(Receives(w, 1 - d, t, n, pick), d) == Receives(v, 1 - d, t, n, pick);
  }

  /** A delivery to side d of a message of an epoch it has followed. */
  lemma OldKeepsSpoiled(w: World, d: nat, t: nat, n: nat, pick: Option<nat>)
    requires Spoiled(w, d) && Possible(w, Deliver(d, t, n, pick)) && t + 1 < |w.h.privs|
    ensures Spoiled(Receives(w, d, t, n, pick), d)
  {
    hide SavedOk, Sending, Turned, Receiving, NoneEmpty;
    var v := Healed(w, d);
    NoTurn(w, d);
    OldSwaps(w, d, t, n, pick);
    ReceiveResult(v, d, t, n, pick);
    ReceiveInv(v, d, t, n, pick);
    hide Decrypted;
  }

  /** Unless the message opens under the next header key, decryption does not look at the root key. */
  lemma FreshSwaps(s: State, root: Key, ct: Ciphertext)
    requires ct.Sealed?
    requires (ct.HeaderOpens(s.recvHeaderKey) && s.recvHeaderKey != Zero) || !ct.HeaderOpens(s.nextRecvHeaderKey)
    ensures DecryptFresh(SwapRoot(s, root), ct) == (SwapRoot(DecryptFresh(s, ct).0, root), DecryptFresh(s, ct).1)
    ensures DecryptFresh(s, ct).0.rootKey == s.rootKey && DecryptFresh(s, ct).0.ratchet == s.ratchet
  {
    hide DecryptNext, DecryptCurrent;
    CurrentSwaps(s, root, ct);
    CurrentKeepsRatchet(s, ct);
  }

  lemma DecryptedSwaps(s: State, root: Key, ct: Ciphertext, pick: Option<nat>)
    requires ct.Sealed? && ct.body != "" && Found(s, ct, pick)
    requires (ct.HeaderOpens(s.recvHeaderKey) && s.recvHeaderKey != Zero) || !ct.HeaderOpens(s.nextRecvHeaderKey)
    ensures Found(SwapRoot(s, root), ct, pick)
    ensures Decrypted(SwapRoot(s, root), ct, pick) == (SwapRoot(Decrypted(s, ct, pick).0, root), Decrypted(s, ct, pick).1)
    ensures Decrypted(s, ct, pick).0.rootKey == s.rootKey && Decrypted(s, ct, pick).0.ratchet == s.ratchet
  {
    hide DecryptFresh;
    FreshSwaps(s, root, ct);
  }

  lemma OldSwaps(w: World, d: nat, t: nat, n: nat, pick: Option<nat>)
    requires Spoiled(w, d) && Possible(w, Deliver(d, t, n, pick)) && t + 1 < |w.h.privs|
    ensures var s, ct := w.P(d).st, w.h.Wire(t, n); var root := w.h.Root(w.P(d).epoch);
            && Found(SwapRoot(s, root), ct, pick)
            && Decrypted(SwapRoot(s, root), ct, pick) == (SwapRoot(Decrypted(s, ct, pick).0, root), Decrypted(s, ct, pick).1)
            && Decrypted(s, ct, pick).0.rootKey == s.rootKey && Decrypted(s, ct, pick).0.ratchet == s.ratchet
  {
    hide SavedOk, Sending, Turned, Receiving, Decrypted;
    var v, s, ct := Healed(w, d), w.P(d).st, w.h.Wire(t, n);
    assert ct.Sealed? && ct.body != "";
    hide NoneEmpty;
    HeaderBranch(v, d, t, n);
    hide Inv;
    DecryptedSwaps(s, w.h.Root(w.P(d).epoch), ct, pick);
  }

  // ---------------------------------------------------------------- what is lost

  /** From a root key that has absorbed too many steps no right message key is derived; each try makes it worse. */
  lemma NextFails(s: State, ct: Ciphertext)
    requires ct.Sealed? && Replay.Depth(ct.bodyKey) <= Replay.Depth(s.rootKey)
    ensures var (s', r) := DecryptNext(s, ct);
            r.Err? && s' == SwapRoot(s, s'.rootKey) && Replay.Depth(s'.rootKey) >= Replay.Depth(s.rootKey)
  {
    hide Merge, SkippedKeys;
    var h := RootUpdate(s.rootKey, s.sendRatchetPrivate, ct.header.public);
    Replay.NextMessageKey(Hmac(h, ChainKey), ct.header.num);
  }

  lemma WireDepth(h: History, t: nat, n: nat)
    requires h.Shaped() && t < |h.sent| && n < |h.sent[t]|
    ensures h.Wire(t, n).Sealed? && Replay.Depth(h.Wire(t, n).bodyKey) == t
  {
    MaterialDepth(h, t);
    Replay.NextMessageKey(Hmac(h.Material(t), ChainKey), n);
  }

  /** A message of the new epoch takes the branch for the next header key. */
  lemma NewBranch(w: World, d: nat, t: nat, n: nat, pick: Option<nat>)
    requires Spoiled(w, d) && Possible(w, Deliver(d, t, n, pick)) && t + 1 == |w.h.privs|
    ensures Decrypted(w.P(d).st, w.h.Wire(t, n), pick) == DecryptNext(w.P(d).st, w.h.Wire(t, n))
  {
    hide SavedOk, Sending, Turned, Receiving, NoneEmpty, DecryptNext, DecryptCurrent;
    var v, s, ct := Healed(w, d), w.P(d).st, w.h.Wire(t, n);
    HeaderBranch(v, d, t, n);
    if Hits(v.P(d).st, ct, pick) {
      HitIsBehind(v, d, t, n, pick);
    }
  }

  lemma NewKeepsSpoiled(w: World, d: nat, t: nat, n: nat, pick: Option<nat>)
    requires Spoiled(w, d) && Possible(w, Deliver(d, t, n, pick)) && t + 1 == |w.h.privs|
    ensures Decrypted(w.P(d).st, w.h.Wire(t, n), pick).1.Err? && Spoiled(Receives(w, d, t, n, pick), d)
  {
    hide Inv, Decrypted, DecryptNext;
    NewBranch(w, d, t, n, pick);
    WireDepth(w.h, t, n);
    NextFails(w.P(d).st, w.h.Wire(t, n));
    assert Healed(Receives(w, d, t, n, pick), d) == Healed(w, d);
  }

  lemma StepKeepsSpoiled(w: World, d: nat, ev: Event)
    requires d < 2 && Spoiled(w, d) && Possible(w, ev)
    ensures Spoiled(Apply(w, ev), d) && |Apply(w, ev).h.privs| == |w.h.privs|
  {
    hide Spoiled, Sends, Receives;
    match ev
    case Say(x, drawn, letter) =>
      SayKeepsSpoiled(w, d, x, drawn, letter);
      SayHeals(w, d, x, drawn, letter);
    case Deliver(x, t, n, pick) =>
      DeliveryKeepsHistory(w, x, t, n, pick);
      if x != d {
        OtherKeepsSpoiled(w, d, t, n, pick);
      } else if t + 1 < |w.h.privs| {
        OldKeepsSpoiled(w, d, t, n, pick);
      } else {
        NewKeepsSpoiled(w, d, t, n, pick);
      }
  }

  lemma DeliveryKeepsHistory(w: World, x: nat, t: nat, n: nat, pick: Option<nat>)
    requires w.h.Shaped() && Deliverable(w, x, t, n) && Found(w.P(x).st, w.h.Wire(t, n), pick)
    ensures Receives(w, x, t, n, pick).h == w.h
  {}

  /** Runs in which anything possible may happen. */
  ghost predicate IsAnyRun(w: World, events: seq<Event>)
    decreases |events|
  {
    events == [] || (Possible(w, events[0]) && IsAnyRun(Apply(w, events[0]), events[1..]))
  }

  ghost function After(w: World, events: seq<Event>): World
    requires IsAnyRun(w, events)
    decreases |events|
  {
    if events == [] then w else After(Apply(w, events[0]), events[1..])
  }

  lemma {:induction false} RunKeepsSpoiled(w: World, d: nat, events: seq<Event>)
    requires d < 2 && Spoiled(w, d) && IsAnyRun(w, events)
    ensures Spoiled(After(w, events), d) && |After(w, events).h.privs| == |w.h.privs|
    decreases |events|
  {
    hide Spoiled, Possible, Apply;
    if events != [] {
      StepKeepsSpoiled(w, d, events[0]);
      RunKeepsSpoiled(Apply(w, events[0]), d, events[1..]);
    }
  }

  /** The delivery itself: it is refused, and the root key is overwritten. */
  lemma SpoilingDelivery(w: World, d: nat, t: nat, n: nat, pick: Option<nat>)
    requires Inv(w) && Possible(w, Deliver(d, t, n, pick)) && Spoils(w.h, d, w.P(d), t, n)
    ensures Decrypted(w.P(d).st, w.h.Wire(t, n), pick).1 == Err(MessageExceedsReorderingLimit)
    ensures Spoiled(Receives(w, d, t, n, pick), d) && t + 1 == |w.h.privs|
  {
    hide SavedOk, Sending, Turned, Receiving, NoneEmpty, DecryptNext, DecryptCurrent, TurnedState, Merge,
         SkippedKeys, History.Material;
    var p, ct := w.P(d), w.h.Wire(t, n);
    OneAhead(w, d, t, n);
    SendingParity(w.h, d, p);
    HeaderBranch(w, d, t, n);
    if Hits(p.st, ct, pick) {
      HitIsBehind(w, d, t, n, pick);
    }
    NextDecrypts(w.h, d, p, t, n);
    MaterialDepth(w.h, t);
    assert Healed(Receives(w, d, t, n, pick), d) == w;
  }

  lemma NoneAccepted(w: World, d: nat, m: nat)
    requires Spoiled(w, d)
    ensures (|w.h.privs| - 1, m) !in w.P(d).accepted
  {
    hide Sending, Turned, Receiving, NoneEmpty;
    var v := Healed(w, d);
    NotAccepted(v.h, d, v.P(d), |w.h.privs| - 1);
  }

  /** What the excluded delivery does, at the end of any run: it is refused, and in no run that follows, whatever happens in
      it, does the receiver ever decrypt a message of the new epoch; before the delivery it would have decrypted any of those
      within the limit. */
  lemma SpoiledReceiver(kxA: (Secret, Secret), kxB: (Secret, Secret), w: World, events: seq<Event>,
                        d: nat, t: nat, n: nat, pick: Option<nat>, later: seq<Event>)
    requires RatchetRun.Exchanged(kxA, kxB, w) && IsRun(w, events)
    requires var v := Final(w, events);
             && Possible(v, Deliver(d, t, n, pick)) && Spoils(v.h, d, v.P(d), t, n)
             && IsAnyRun(Receives(v, d, t, n, pick), later)
    ensures var v := Final(w, events); var u := After(Receives(v, d, t, n, pick), later);
            && Decrypted(v.P(d).st, v.h.Wire(t, n), pick).1 == Err(MessageExceedsReorderingLimit)
            && (forall m: nat :: m <= MAX_MISSING_MESSAGES ==>
                                   DecryptFresh(v.P(d).st, v.h.Wire(t, m)).1 == Ok(v.h.sent[t][m].body))
            && (forall m: nat :: (t, m) !in u.P(d).accepted)
            && (forall m: nat, pick' :: Possible(u, Deliver(d, t, m, pick')) ==>
                                          Decrypted(u.P(d).st, u.h.Wire(t, m), pick').1.Err?)
  {
    hide Inv, Spoiled, RatchetRun.Exchanged, IsRun, Final, IsAnyRun, After, Receives, Decrypted, DecryptFresh, Spoils;
    var v := Final(w, events);
    ExchangeInv(kxA, kxB, w);
    RunInv(w, events);
    SpoilingDelivery(v, d, t, n, pick);
    InTimeDecrypts(v, d, t, n, pick);
    var w1 := Receives(v, d, t, n, pick);
    DeliveryKeepsHistory(v, d, t, n, pick);
    RunKeepsSpoiled(w1, d, later);
    var u := After(w1, later);
    forall m: nat ensures (t, m) !in u.P(d).accepted { NoneAccepted(u, d, m); }
    forall m: nat, pick' | Possible(u, Deliver(d, t, m, pick')) ensures Decrypted(u.P(d).st, u.h.Wire(t, m), pick').1.Err? {
      NewKeepsSpoiled(u, d, t, m, pick');
    }
  }

  /** What the receiver would have decrypted before. */
  lemma InTimeDecrypts(w: World, d: nat, t: nat, n: nat, pick: Option<nat>)
    requires Inv(w) && Possible(w, Deliver(d, t, n, pick)) && Spoils(w.h, d, w.P(d), t, n)
    ensures d < 2 && MAX_MISSING_MESSAGES < |w.h.sent[t]|
    ensures forall m: nat :: m <= MAX_MISSING_MESSAGES ==> DecryptFresh(w.P(d).st, w.h.Wire(t, m)).1 == Ok(w.h.sent[t][m].body)
  {
    hide SavedOk, Sending, Turned, Receiving, NoneEmpty, DecryptNext, DecryptCurrent, DecryptFresh, TurnedState,
         Merge, SkippedKeys;
    OneAhead(w, d, t, n);
    SendingParity(w.h, d, w.P(d));
    forall m: nat | m <= MAX_MISSING_MESSAGES ensures DecryptFresh(w.P(d).st, w.h.Wire(t, m)).1 == Ok(w.h.sent[t][m].body) {
      FreshBranch(w, d, t, m);
      NextDecrypts(w.h, d, w.P(d), t, m);
    }
  }

  // ---------------------------------------------------------------- it can happen

  /** Alice sends k more messages. */
  function Says(drawn: Secret, letter: Letter, k: nat): (events: seq<Event>)
    ensures |events| == k
  {
    if k == 0 then [] else [Say(1, drawn, letter)] + Says(drawn, letter, k - 1)
  }

  /** One more message of Alice's in epoch 1. */
  lemma OneMore(w: World, drawn: Secret, letter: Letter)
    requires Inv(w) && |w.h.privs| == 2 && w.alice.epoch == 1 && letter.body != "" && |w.h.sent[1]| < UINT32_MAX
    ensures var ev := Say(1, drawn, letter);
            && Enabled(w, ev) && Inv(Apply(w, ev))
            && var v := Apply(w, ev);
            v.bob == w.bob && |v.h.privs| == 2 == |v.h.sent| && |v.h.sent[1]| == |w.h.sent[1]| + 1 && v.alice.epoch == 1
  {
    hide SavedOk, Receiving, Turned, NoneEmpty;
    SendingParity(w.h, 1, w.alice);
    assert Enabled(w, Say(1, drawn, letter));
    StepInv(w, Say(1, drawn, letter));
    hide Matched, Inv, Encrypted;
  }

  lemma {:induction false} Chatter(w: World, drawn: Secret, letter: Letter, k: nat)
    requires Inv(w) && |w.h.privs| == 2 && w.alice.epoch == 1 && letter.body != "" && |w.h.sent[1]| + k < UINT32_MAX
    ensures IsRun(w, Says(drawn, letter, k))
    ensures var v := Final(w, Says(drawn, letter, k));
            Inv(v) && v.bob == w.bob && |v.h.privs| == 2 == |v.h.sent| && |v.h.sent[1]| == |w.h.sent[1]| + k
    decreases k
  {
    InvShaped(w);
    hide Inv, Apply, Enabled, Possible;
    if k > 0 {
      OneMore(w, drawn, letter);
      assert Says(drawn, letter, k)[1..] == Says(drawn, letter, k - 1);
      Chatter(Apply(w, Say(1, drawn, letter)), drawn, letter, k - 1);
    }
  }

  /** The first message opens epoch 1. */
  lemma FirstWord(kxA: (Secret, Secret), kxB: (Secret, Secret), w: World, drawn: Secret, letter: Letter)
    requires RatchetRun.Exchanged(kxA, kxB, w) && letter.body != ""
    ensures var ev := Say(1, drawn, letter);
            && Inv(w) && Enabled(w, ev) && Inv(Apply(w, ev))
            && var w1 := Apply(w, ev);
            && w1.alice.epoch == 1 && |w1.h.privs| == 2 == |w1.h.sent| && |w1.h.sent[1]| == 1 && w1.bob == w.bob
            && w.bob.st.saved == map[] && w.bob.st.recvCount == 0 && w.bob.epoch == 0
  {
    ExchangeInv(kxA, kxB, w);
    assert Enabled(w, Say(1, drawn, letter));
    StepInv(w, Say(1, drawn, letter));
    hide Inv, Encrypted;
  }

  /** After every exchange: Alice sends ten messages, and the last of them is the first that Bob sees. */
  lemma SpoilingCanHappen(kxA: (Secret, Secret), kxB: (Secret, Secret), w: World, drawn: Secret, letter: Letter)
    requires RatchetRun.Exchanged(kxA, kxB, w) && letter.body != ""
    ensures var events := Says(drawn, letter, MAX_MISSING_MESSAGES + 2);
            && IsRun(w, events)
            && var v := Final(w, events); var n := MAX_MISSING_MESSAGES + 1;
            && Possible(v, Deliver(0, 1, n, None)) && Spoils(v.h, 0, v.bob, 1, n)
  {
    hide Inv, Encrypted, Complete;
    var ev := Say(1, drawn, letter);
    FirstWord(kxA, kxB, w, drawn, letter);
    var w1 := Apply(w, ev);
    hide RatchetRun.Exchanged;
    Chatter(w1, drawn, letter, MAX_MISSING_MESSAGES + 1);
    assert Says(drawn, letter, MAX_MISSING_MESSAGES + 2)[1..] == Says(drawn, letter, MAX_MISSING_MESSAGES + 1);
    InvShaped(Final(w1, Says(drawn, letter, MAX_MISSING_MESSAGES + 1)));
  }

  lemma InvShaped(w: World)
    requires Inv(w)
    ensures w.h.Shaped() && |w.h.sent| == |w.h.privs|
  {}
}
