/** No key is lost: what a receiver passes over it can still decrypt, in every run; and what the search of the saved keys
    makes of it. */
module RatchetKept {
  import opened RatchetTerms
  import opened DoubleRatchet
  import opened RatchetHistory
  import opened RatchetParty
  import opened RatchetRun
  import opened RatchetSpoiled
  import opened Wrappers

  /** Entry id holds the key of message n of epoch t. */
  ghost predicate Holds(h: History, s: State, id: nat, t: nat, n: nat)
    requires t < |h.privs|
  {
    && id in s.saved && s.saved[id].headerKey == h.HeaderKeyAt(t)
    && n in s.saved[id].keys && s.saved[id].keys[n] == h.MessageKeyAt(t, n)
  }

  ghost predicate HeldFor(h: History, s: State, t: nat, n: nat)
    requires t < |h.privs|
  {
    exists id: nat :: Holds(h, s, id, t, n)
  }

  /** Message (t, n) of the other side lies behind the counter and was not accepted. */
  ghost predicate Missed(h: History, d: nat, p: Party, t: nat, n: nat) {
    t % 2 != d && Passed(h, p.st, RecvEpoch(d, p.epoch), t, n) && (t, n) !in p.accepted
  }

  /** The key of every missed message is saved. */
  ghost predicate Kept(h: History, d: nat, p: Party)
    requires h.Shaped()
  {
    forall t: nat, n: nat | Missed(h, d, p, t, n) :: HeldFor(h, p.st, t, n)
  }

  // ---------------------------------------------------------------- saving and using keys

  /** Saving keys under a new entry keeps those that are there. */
  lemma MergeHolds(h: History, s: State, headerKey: Key, skipped: map<nat, Key>, t: nat, n: nat)
    requires t < |h.privs| && HandedOut(s.saved, s.buffers) && HeldFor(h, s, t, n)
    ensures HeldFor(h, Merge(s, headerKey, skipped), t, n)
  {
    var id: nat :| Holds(h, s, id, t, n);
    assert Holds(h, Merge(s, headerKey, skipped), id, t, n);
  }

  lemma MergeAdds(h: History, s: State, t: nat, skipped: map<nat, Key>, n: nat)
    requires t < |h.privs| && n in skipped && skipped[n] == h.MessageKeyAt(t, n)
    ensures HeldFor(h, Merge(s, h.HeaderKeyAt(t), skipped), t, n)
  {
    hide History.HeaderKeyAt, History.MessageKeyAt;
    assert Holds(h, Merge(s, h.HeaderKeyAt(t), skipped), s.buffers, t, n);
  }

  lemma MergeHandsOut(s: State, headerKey: Key, skipped: map<nat, Key>)
    requires HandedOut(s.saved, s.buffers)
    ensures HandedOut(Merge(s, headerKey, skipped).saved, Merge(s, headerKey, skipped).buffers)
  {}

  /** Using up one key keeps the others. */
  lemma DropHolds(h: History, s: State, id: nat, num: nat, t: nat, n: nat)
    requires t < |h.privs| && id in s.saved && HeldFor(h, s, t, n)
    requires s.saved[id].headerKey == h.HeaderKeyAt(t) ==> n != num
    ensures HeldFor(h, DropSaved(s, id, num), t, n)
  {
    hide History.HeaderKeyAt, History.MessageKeyAt;
    var i: nat :| Holds(h, s, i, t, n);
    if i == id {
      assert n in s.saved[id].keys - {num};
    }
    assert Holds(h, DropSaved(s, id, num), i, t, n);
  }

  // ---------------------------------------------------------------- every step

  lemma HitKept(w: World, d: nat, t: nat, n: nat, pick: Option<nat>)
    requires Inv(w) && Deliverable(w, d, t, n) && Found(w.P(d).st, w.h.Wire(t, n), pick) && Kept(w.h, d, w.P(d))
    requires Hits(w.P(d).st, w.h.Wire(t, n), pick)
    ensures Kept(w.h, d, Receives(w, d, t, n, pick).P(d))
  {
    hide History.Material, History.HeaderKeyAt, History.ChainAt, History.MessageKeyAt, SavedOk, DecryptFresh, HeldFor;
    var h, p, id := w.h, w.P(d), pick.value;
    SavedAccepts(h, d, p, t, n, id);
    DropKeeps(p.st, id, n);
    hide DropSaved;
    var p' := Receives(w, d, t, n, pick).P(d);
    forall t': nat, n': nat | Missed(h, d, p', t', n') ensures HeldFor(h, p'.st, t', n') {
      assert Missed(h, d, p, t', n');
      if h.HeaderKeyAt(t') == h.HeaderKeyAt(t) {
        HeaderKeyInjective(h, t', t);
      }
      DropHolds(h, p.st, id, n, t', n');
    }
  }

  lemma CurrentKept(h: History, d: nat, p: Party, t: nat, n: nat)
    requires Matched(h, d, p) && t == RecvEpoch(d, p.epoch) && n < |h.sent[t]| && Kept(h, d, p)
    requires p.st.recvCount <= n <= p.st.recvCount + MAX_MISSING_MESSAGES
    ensures Kept(h, d, p.(st := DecryptCurrent(p.st, h.Wire(t, n)).0, accepted := p.accepted + {(t, n)}))
  {
    hide History.HeaderKeyAt, History.Material, Merge, HeldFor, SkippedKeys;
    var s, from := p.st, p.st.recvCount;
    ChainFrom(h, t, from, n - from);
    ChainFrom(h, t, from, n - from + 1);
    SkippedAre(h, t, from, n);
    var skipped := SkippedKeys(s.recvChainKey, from, n);
    var s1 := s.(recvChainKey := h.ChainAt(t, n + 1), recvCount := n + 1);
    var p' := p.(st := DecryptCurrent(p.st, h.Wire(t, n)).0, accepted := p.accepted + {(t, n)});
    assert p'.st == Merge(s1, h.HeaderKeyAt(t), skipped);
    MergeKeeps(s1, h.HeaderKeyAt(t), skipped);
    forall t': nat, n': nat | Missed(h, d, p', t', n') ensures HeldFor(h, p'.st, t', n') {
      if t' == t && n' >= from {
        assert n' in skipped;
        MergeAdds(h, s1, t, skipped, n');
      } else {
        assert Missed(h, d, p, t', n');
        SameSaved(h, s, s1, t', n');
        MergeHolds(h, s1, h.HeaderKeyAt(t), skipped, t', n');
      }
    }
  }

  lemma SameSaved(h: History, s: State, s': State, t: nat, n: nat)
    requires t < |h.privs| && s'.saved == s.saved && HeldFor(h, s, t, n)
    ensures HeldFor(h, s', t, n)
  {
    hide History.HeaderKeyAt, History.MessageKeyAt;
    var id: nat :| Holds(h, s, id, t, n);
    assert Holds(h, s', id, t, n);
  }

  /** A key that is saved, or skipped on the old or the new chain, is saved once both are merged. */
  lemma MergedTwice(h: History, s: State, headerKey: Key, left: map<nat, Key>, t: nat, skipped: map<nat, Key>, t': nat, n': nat)
    requires t < |h.privs| && t' < |h.privs| && HandedOut(s.saved, s.buffers)
    requires || HeldFor(h, s, t', n')
             || (headerKey == h.HeaderKeyAt(t') && n' in left && left[n'] == h.MessageKeyAt(t', n'))
             || (t' == t && n' in skipped && skipped[n'] == h.MessageKeyAt(t, n'))
    ensures HeldFor(h, Merge(Merge(s, headerKey, left), h.HeaderKeyAt(t), skipped), t', n')
  {
    hide Merge, HeldFor, HandedOut, History.HeaderKeyAt, History.MessageKeyAt;
    var s' := Merge(s, headerKey, left);
    MergeHandsOut(s, headerKey, left);
    if t' == t && n' in skipped && skipped[n'] == h.MessageKeyAt(t, n') {
      MergeAdds(h, s', t, skipped, n');
    } else {
      if HeldFor(h, s, t', n') {
        MergeHolds(h, s, headerKey, left, t', n');
      } else {
        MergeAdds(h, s, t', left, n');
      }
      MergeHolds(h, s', h.HeaderKeyAt(t), skipped, t', n');
    }
  }

  lemma NextMerges(h: History, d: nat, p: Party, t: nat, n: nat)
    requires Matched(h, d, p) && p.epoch % 2 == d && t == p.epoch + 1 < |h.sent| && n < |h.sent[t]|
    requires Outstanding(h, p, t) <= MAX_MISSING_MESSAGES && n <= MAX_MISSING_MESSAGES
    ensures h.Shaped() && t < |h.privs|
    ensures var s, r, s2 := p.st, p.epoch - 1, TurnedState(h, p.st, t, n);
            var left, skipped := SkippedKeys(s.recvChainKey, s.recvCount, h.Prev(t)), SkippedKeys(h.ChainAt(t, 0), 0, n);
            && DecryptNext(s, h.Wire(t, n)).0 == Merge(Merge(s2, s.recvHeaderKey, left), h.HeaderKeyAt(t), skipped)
            && DecryptNext(s, h.Wire(t, n)).0.recvCount == n + 1 && HandedOut(s2.saved, s2.buffers) && s2.saved == s.saved
            && (forall k: nat | k < n :: k in skipped && skipped[k] == h.MessageKeyAt(t, k))
            && (r >= 0 ==> && s.recvHeaderKey == h.HeaderKeyAt(r) && h.Prev(t) == |h.sent[r]|
                           && forall k: nat | s.recvCount <= k < h.Prev(t) :: k in left && left[k] == h.MessageKeyAt(r, k))
  {
    WireSealed(h, t, n);
    hide SavedOk, SkippedKeys, History.Material, DecryptNext, Merge, HandedOut, History.HeaderKeyAt, History.MessageKeyAt,
         History.ChainAt, History.Wire, Sending, Turned;
    var s, r, s2 := p.st, p.epoch - 1, TurnedState(h, p.st, t, n);
    var left, skipped := SkippedKeys(s.recvChainKey, s.recvCount, h.Prev(t)), SkippedKeys(h.ChainAt(t, 0), 0, n);
    NextDecrypts(h, d, p, t, n);
    SavedHandsOut(h, d, p);
    MergeKeeps(s2, s.recvHeaderKey, left);
    MergeKeeps(Merge(s2, s.recvHeaderKey, left), h.HeaderKeyAt(t), skipped);
    SkippedAre(h, t, 0, n);
    if r >= 0 {
      SkippedAre(h, r, s.recvCount, h.Prev(t));
    }
  }

  lemma NextMissed(h: History, d: nat, p: Party, s': State, t: nat, n: nat, t': nat, n': nat)
    requires p.epoch % 2 == d && t == p.epoch + 1 && s'.recvCount == n + 1
    requires Missed(h, d, Party(s', t, p.accepted + {(t, n)}), t', n')
    ensures t' < |h.sent| && n' < |h.sent[t']|
    ensures (t' == t && n' < n) || (t' == p.epoch - 1 && p.st.recvCount <= n') || Missed(h, d, p, t', n')
  {
    var p' := Party(s', t, p.accepted + {(t, n)});
    assert t' == t && n' == n ==> (t', n') in p'.accepted;
    assert (t', n') in p.accepted ==> (t', n') in p'.accepted;
  }

  lemma KeptHolds(h: History, d: nat, p: Party, t: nat, n: nat)
    requires h.Shaped() && Kept(h, d, p) && Missed(h, d, p, t, n)
    ensures HeldFor(h, p.st, t, n)
  {}

  lemma NextKeptAt(h: History, d: nat, p: Party, t: nat, n: nat, t': nat, n': nat)
    requires Matched(h, d, p) && p.epoch % 2 == d && t == p.epoch + 1 < |h.sent| && n < |h.sent[t]| && Kept(h, d, p)
    requires Outstanding(h, p, t) <= MAX_MISSING_MESSAGES && n <= MAX_MISSING_MESSAGES
    requires Missed(h, d, Party(DecryptNext(p.st, h.Wire(t, n)).0, t, p.accepted + {(t, n)}), t', n')
    ensures t' < |h.privs| && HeldFor(h, DecryptNext(p.st, h.Wire(t, n)).0, t', n')
  {
    hide Matched, Kept, SkippedKeys, DecryptNext, Merge, HeldFor, HandedOut, Missed, History.HeaderKeyAt, History.MessageKeyAt,
         History.ChainAt, History.Wire, TurnedState, Outstanding;
    NextMerges(h, d, p, t, n);
    WireHeader(h, t, n);
    NextMissed(h, d, p, DecryptNext(p.st, h.Wire(t, n)).0, t, n, t', n');
    var s, s2 := p.st, TurnedState(h, p.st, t, n);
    var left, skipped := SkippedKeys(s.recvChainKey, s.recvCount, h.Prev(t)), SkippedKeys(h.ChainAt(t, 0), 0, n);
    if Missed(h, d, p, t', n') {
      KeptHolds(h, d, p, t', n');
      SameSaved(h, s, s2, t', n');
    } else if t' == t {
      assert skipped[n'] == h.MessageKeyAt(t, n');
    } else {
      assert left[n'] == h.MessageKeyAt(t', n');
    }
    MergedTwice(h, s2, s.recvHeaderKey, left, t, skipped, t', n');
  }

  /** Going on to the next epoch saves what was left on the old chain and what is skipped on the new one. */
  lemma NextKept(h: History, d: nat, p: Party, t: nat, n: nat)
    requires Matched(h, d, p) && p.epoch % 2 == d && t == p.epoch + 1 < |h.sent| && n < |h.sent[t]| && Kept(h, d, p)
    requires Outstanding(h, p, t) <= MAX_MISSING_MESSAGES && n <= MAX_MISSING_MESSAGES
    ensures Kept(h, d, Party(DecryptNext(p.st, h.Wire(t, n)).0, t, p.accepted + {(t, n)}))
  {
    var s' := DecryptNext(p.st, h.Wire(t, n)).0;
    forall t': nat, n': nat | Missed(h, d, Party(s', t, p.accepted + {(t, n)}), t', n') ensures HeldFor(h, s', t', n') {
      NextKeptAt(h, d, p, t, n, t', n');
    }
  }

  lemma SavedHandsOut(h: History, d: nat, p: Party)
    requires h.Shaped() && SavedOk(h, d, p)
    ensures HandedOut(p.st.saved, p.st.buffers)
  {}

  /** A message that is not found among the saved keys goes on to the chains. */
  lemma FreshReceives(w: World, d: nat, t: nat, n: nat, pick: Option<nat>)
    requires Inv(w) && Deliverable(w, d, t, n) && Found(w.P(d).st, w.h.Wire(t, n), pick)
    requires !Hits(w.P(d).st, w.h.Wire(t, n), pick)
    ensures var p, ct := w.P(d), w.h.Wire(t, n);
            && ct.Sealed?
            && var (s', r) := DecryptFresh(p.st, ct);
            Receives(w, d, t, n, pick).P(d) == Party(s', if s'.ratchet && !p.st.ratchet then p.epoch + 1 else p.epoch,
                                                     if r.Ok? then p.accepted + {(t, n)} else p.accepted)
  {
    WireSealed(w.h, t, n);
    hide DecryptFresh, Matched, History.Wire;
  }

  lemma InvMatched(w: World, d: nat)
    requires Inv(w) && d < 2
    ensures Matched(w.h, d, w.P(d)) && w.h.Shaped()
  {
    hide Sending, Turned, Receiving, SavedOk;
  }

  lemma CurrentReceives(w: World, d: nat, t: nat, n: nat, pick: Option<nat>)
    requires Inv(w) && Deliverable(w, d, t, n) && Found(w.P(d).st, w.h.Wire(t, n), pick)
    requires !Hits(w.P(d).st, w.h.Wire(t, n), pick) && t == RecvEpoch(d, w.P(d).epoch)
    requires w.P(d).st.recvCount <= n <= w.P(d).st.recvCount + MAX_MISSING_MESSAGES
    ensures var p, ct := w.P(d), w.h.Wire(t, n);
            ct.Sealed? && Receives(w, d, t, n, pick).P(d) == p.(st := DecryptCurrent(p.st, ct).0, accepted := p.accepted + {(t, n)})
  {
    InvMatched(w, d);
    hide Inv, Matched, History.Wire, DecryptCurrent, DecryptFresh, Decrypted, Receives, Found, Hits;
    FreshReceives(w, d, t, n, pick);
    FreshBranch(w, d, t, n);
    CurrentMatched(w.h, d, w.P(d), t, n);
    CurrentKeepsRatchet(w.P(d).st, w.h.Wire(t, n));
  }

  lemma NextReceives(w: World, d: nat, t: nat, n: nat, pick: Option<nat>)
    requires Inv(w) && Deliverable(w, d, t, n) && Found(w.P(d).st, w.h.Wire(t, n), pick)
    requires !Hits(w.P(d).st, w.h.Wire(t, n), pick) && t > RecvEpoch(d, w.P(d).epoch) && WithinLimit(w.h, d, w.P(d), t, n)
    ensures var p, ct := w.P(d), w.h.Wire(t, n);
            && Matched(w.h, d, p) && p.epoch % 2 == d && t == p.epoch + 1
            && ct.Sealed? && Receives(w, d, t, n, pick).P(d) == Party(DecryptNext(p.st, ct).0, t, p.accepted + {(t, n)})
  {
    InvMatched(w, d);
    hide Inv, Matched, History.Wire, DecryptNext, DecryptFresh, Decrypted, Receives, Found, Hits;
    FreshReceives(w, d, t, n, pick);
    FreshBranch(w, d, t, n);
    OneAhead(w, d, t, n);
    SendingParity(w.h, d, w.P(d));
    NextMatched(w.h, d, w.P(d), t, n);
    NextTurns(w.P(d).st, w.h.Wire(t, n));
  }

  /** A refused message changes nothing. */
  lemma RefusedReceives(w: World, d: nat, t: nat, n: nat, pick: Option<nat>)
    requires Inv(w) && Deliverable(w, d, t, n) && Found(w.P(d).st, w.h.Wire(t, n), pick) && !Spoils(w.h, d, w.P(d), t, n)
    requires !Hits(w.P(d).st, w.h.Wire(t, n), pick)
    requires !(NotBehind(w.h, d, w.P(d), t, n) && WithinLimit(w.h, d, w.P(d), t, n))
    ensures Receives(w, d, t, n, pick).P(d) == w.P(d)
  {
    hide Inv, History.Wire, Decrypted, Receives, Found, Hits, NotBehind, WithinLimit, Spoils;
    ReceiveResult(w, d, t, n, pick);
  }

  lemma ReceiveKept(w: World, d: nat, t: nat, n: nat, pick: Option<nat>)
    requires Inv(w) && Deliverable(w, d, t, n) && Found(w.P(d).st, w.h.Wire(t, n), pick) && Kept(w.h, d, w.P(d))
    requires !Spoils(w.h, d, w.P(d), t, n)
    ensures Kept(w.h, d, Receives(w, d, t, n, pick).P(d))
  {
    WireSealed(w.h, t, n);
    InvMatched(w, d);
    hide Inv, Kept, Matched, History.Wire, Receives, Decrypted, DecryptCurrent, DecryptNext, Found, Hits, Spoils;
    var h, p := w.h, w.P(d);
    if Hits(p.st, h.Wire(t, n), pick) {
      HitKept(w, d, t, n, pick);
    } else if !(NotBehind(h, d, p, t, n) && WithinLimit(h, d, p, t, n)) {
      RefusedReceives(w, d, t, n, pick);
    } else if t == RecvEpoch(d, p.epoch) {
      CurrentReceives(w, d, t, n, pick);
      CurrentKept(h, d, p, t, n);
    } else {
      NextReceives(w, d, t, n, pick);
      NextKept(h, d, p, t, n);
    }
  }

  lemma WireSealed(h: History, t: nat, n: nat)
    requires h.Shaped() && t < |h.sent| && n < |h.sent[t]|
    ensures h.Wire(t, n).Sealed? && h.Wire(t, n).header.num == n
  {}

  /** What one side sends is not behind the other's counter. */
  lemma SentAhead(w: World, d: nat, x: nat)
    requires Inv(w) && d < 2 && x == 1 - d && !w.P(x).st.ratchet
    ensures var e, r := w.P(x).epoch, RecvEpoch(d, w.P(d).epoch);
            e >= r && (e == r ==> w.P(d).st.recvCount <= |w.h.sent[e]|)
  {
    hide SavedOk, Sending, Turned, NoneEmpty;
    SendingParity(w.h, x, w.P(x));
  }

  /** The history grows by messages that are not behind the counter. */
  lemma GrowthKept(h: History, h': History, d: nat, p: Party, p': Party)
    requires Extends(h, h') && Kept(h, d, p)
    requires p'.st.saved == p.st.saved && p'.accepted == p.accepted
    requires forall t: nat, n: nat | Missed(h', d, p', t, n) :: Missed(h, d, p, t, n)
    ensures Kept(h', d, p')
  {
    hide History.HeaderKeyAt, History.MessageKeyAt;
    KeysStable(h, h');
    forall t: nat, n: nat | Missed(h', d, p', t, n) ensures HeldFor(h', p'.st, t, n) {
      assert Missed(h, d, p, t, n);
      var id: nat :| Holds(h, p.st, id, t, n);
      assert Holds(h', p'.st, id, t, n);
    }
  }

  lemma EncryptKeepsReceiver(s: State, drawn: Secret, nonce: nat, msg: Plaintext)
    ensures var s' := Encrypted(s, drawn, nonce, msg).0; s'.saved == s.saved && s'.recvCount == s.recvCount
  {}

  /** Appending to an epoch at or past the counter adds nothing missed; nor does opening an epoch. */
  lemma AppendMisses(h: History, e: nat, letter: Letter, d: nat, p: Party, p': Party)
    requires h.Shaped() && e < |h.sent| && p'.accepted == p.accepted && p'.st.recvCount == p.st.recvCount && p'.epoch == p.epoch
    requires e % 2 != d ==> var r := RecvEpoch(d, p.epoch); e >= r && (e == r ==> p.st.recvCount <= |h.sent[e]|)
    ensures forall t: nat, n: nat | Missed(h.Append(e, letter), d, p', t, n) :: Missed(h, d, p, t, n)
  {}

  lemma OpenMisses(h: History, drawn: Secret, letter: Letter, d: nat, p: Party, p': Party)
    requires h.Shaped() && p.epoch < |h.privs| && p'.accepted == p.accepted && p'.st.recvCount == p.st.recvCount
    requires RecvEpoch(d, p'.epoch) == RecvEpoch(d, p.epoch)
    ensures forall t: nat, n: nat | Missed(h.Open(drawn, letter), d, p', t, n) :: Missed(h, d, p, t, n)
  {}

  lemma ContinueKept(w: World, x: nat, drawn: Secret, letter: Letter, d: nat)
    requires Inv(w) && x < 2 && d < 2 && Kept(w.h, d, w.P(d)) && !w.P(x).st.ratchet
    ensures var v := Sends(w, x, drawn, letter); v.h.Shaped() && Kept(v.h, d, v.P(d))
  {
    hide Kept, Missed, SavedOk, Sending, Turned, Receiving, Encrypted, NoneEmpty;
    var v, p := Sends(w, x, drawn, letter), w.P(x);
    EncryptKeepsReceiver(p.st, drawn, letter.nonce, letter.body);
    AppendExtends(w.h, p.epoch, letter);
    SendingParity(w.h, x, p);
    if x != d {
      SentAhead(w, d, x);
    }
    AppendMisses(w.h, p.epoch, letter, d, w.P(d), v.P(d));
    GrowthKept(w.h, v.h, d, w.P(d), v.P(d));
  }

  lemma OpenKept(w: World, x: nat, drawn: Secret, letter: Letter, d: nat)
    requires Inv(w) && x < 2 && d < 2 && Kept(w.h, d, w.P(d)) && w.P(x).st.ratchet
    ensures var v := Sends(w, x, drawn, letter); v.h.Shaped() && Kept(v.h, d, v.P(d))
  {
    hide Kept, Missed, SavedOk, Sending, Turned, Receiving, Encrypted, NoneEmpty;
    var v, p := Sends(w, x, drawn, letter), w.P(x);
    EncryptKeepsReceiver(p.st, drawn, letter.nonce, letter.body);
    OpenExtends(w.h, drawn, letter);
    TurnedIsLast(w, x);
    OpenMisses(w.h, drawn, letter, d, w.P(d), v.P(d));
    GrowthKept(w.h, v.h, d, w.P(d), v.P(d));
  }

  lemma SayKept(w: World, x: nat, drawn: Secret, letter: Letter, d: nat)
    requires Inv(w) && x < 2 && d < 2 && w.P(x).epoch < |w.h.sent| && Kept(w.h, d, w.P(d))
    ensures var v := Sends(w, x, drawn, letter); v.h.Shaped() && Kept(v.h, d, v.P(d))
  {
    hide Kept, Matched, Sends;
    if w.P(x).st.ratchet {
      OpenKept(w, x, drawn, letter, d);
    } else {
      ContinueKept(w, x, drawn, letter, d);
    }
  }

  ghost predicate AllKept(w: World)
    requires w.h.Shaped()
  {
    Kept(w.h, 0, w.bob) && Kept(w.h, 1, w.alice)
  }

  lemma StepKept(w: World, ev: Event)
    requires Inv(w) && Enabled(w, ev) && AllKept(w)
    ensures Inv(Apply(w, ev)) && AllKept(Apply(w, ev))
  {
    hide Kept, Matched, Sends, Decrypted, Spoils, NoneEmpty;
    StepInv(w, ev);
    match ev
    case Say(x, drawn, letter) =>
      SayKept(w, x, drawn, letter, 0);
      SayKept(w, x, drawn, letter, 1);
    case Deliver(d, t, n, pick) =>
      ReceiveKept(w, d, t, n, pick);
  }

  lemma {:induction false} RunKept(w: World, events: seq<Event>)
    requires Inv(w) && AllKept(w) && IsRun(w, events)
    ensures Inv(Final(w, events)) && AllKept(Final(w, events))
    decreases |events|
  {
    hide Inv, Kept, Possible, Apply;
    if events != [] {
      StepKept(w, events[0]);
      RunKept(Apply(w, events[0]), events[1..]);
    }
  }

  lemma ExchangeKept(kxA: (Secret, Secret), kxB: (Secret, Secret), w: World)
    requires RatchetRun.Exchanged(kxA, kxB, w)
    ensures Inv(w) && AllKept(w)
  {
    ExchangeInv(kxA, kxB, w);
    hide Matched;
  }

  // ---------------------------------------------------------------- theorems

  /** At the end of every run, each message of the other side that lies behind the counter and was not accepted has its key among
      the saved ones, under its header key. */
  lemma KeptInEveryRun(kxA: (Secret, Secret), kxB: (Secret, Secret), w: World, events: seq<Event>, d: nat, t: nat, n: nat)
    requires RatchetRun.Exchanged(kxA, kxB, w) && IsRun(w, events)
    requires var v := Final(w, events); Deliverable(v, d, t, n) && !NotBehind(v.h, d, v.P(d), t, n) && (t, n) !in v.P(d).accepted
    ensures var v := Final(w, events); var saved := v.P(d).st.saved;
            t < |v.h.privs| && exists id: nat :: && id in saved && saved[id].headerKey == v.h.HeaderKeyAt(t)
                                                && n in saved[id].keys && saved[id].keys[n] == v.h.MessageKeyAt(t, n)
  {
    hide RatchetRun.Exchanged, IsRun, Final, Matched, History.HeaderKeyAt, History.MessageKeyAt;
    ExchangeKept(kxA, kxB, w);
    RunKept(w, events);
    var v := Final(w, events);
    InvShaped(v);
    hide Inv;
    assert Missed(v.h, d, v.P(d), t, n);
    assert HeldFor(v.h, v.P(d).st, t, n);
  }

  /** The message is decrypted if and only if the search of the saved keys ends at an entry that holds its key; and it can. */
  ghost predicate Searched(s: State, ct: Ciphertext, body: Plaintext)
    requires ct.Sealed?
  {
    && (exists id: nat :: Found(s, ct, Some(id)) && ct.header.num in s.saved[id].keys)
    && forall id: nat | Found(s, ct, Some(id)) ::
         var r := Decrypted(s, ct, Some(id)).1;
         if ct.header.num in s.saved[id].keys then r == Ok(body) else r.Err?
  }

  /** At the end of every run a missed message is decrypted to its plaintext if and only if the search of the saved keys ends at the
      entry that holds its key; and it can. */
  lemma MissedIsDecryptedIff(kxA: (Secret, Secret), kxB: (Secret, Secret), w: World, events: seq<Event>,
                             d: nat, t: nat, n: nat)
    requires RatchetRun.Exchanged(kxA, kxB, w) && IsRun(w, events)
    requires var v := Final(w, events); Deliverable(v, d, t, n) && !NotBehind(v.h, d, v.P(d), t, n) && (t, n) !in v.P(d).accepted
    ensures var v := Final(w, events); v.h.Shaped() && Searched(v.P(d).st, v.h.Wire(t, n), v.h.sent[t][n].body)
  {
    hide RatchetRun.Exchanged, IsRun, Final, Matched, History.HeaderKeyAt, History.MessageKeyAt, Decrypted, NotBehind;
    KeptInEveryRun(kxA, kxB, w, events, d, t, n);
    ExchangeKept(kxA, kxB, w);
    RunKept(w, events);
    var v := Final(w, events);
    InvShaped(v);
    WireHeader(v.h, t, n);
    var s, ct := v.P(d).st, v.h.Wire(t, n);
    var id: nat :| id in s.saved && s.saved[id].headerKey == v.h.HeaderKeyAt(t) && n in s.saved[id].keys;
    assert Found(s, ct, Some(id));
    hide History.Wire;
    forall id: nat | Found(s, ct, Some(id))
      ensures var r := Decrypted(s, ct, Some(id)).1;
              if n in s.saved[id].keys then r == Ok(v.h.sent[t][n].body) else r.Err?
    {
      BehindNotSpoils(v.h, d, v.P(d), t, n);
      ReceiveResult(v, d, t, n, Some(id));
    }
  }

  lemma BehindNotSpoils(h: History, d: nat, p: Party, t: nat, n: nat)
    requires t < |h.sent| && !NotBehind(h, d, p, t, n)
    ensures !Spoils(h, d, p, t, n)
  {}

  lemma WireHeader(h: History, t: nat, n: nat)
    requires h.Shaped() && t < |h.sent| && n < |h.sent[t]|
    ensures var ct := h.Wire(t, n); ct.Sealed? && ct.header.num == n && ct.headerKey == h.HeaderKeyAt(t)
  {}

  /** Only one entry is saved under the header key. */
  ghost predicate OneEntry(s: State, headerKey: Key) {
    forall i: nat, j: nat :: i in s.saved && j in s.saved && s.saved[i].headerKey == headerKey == s.saved[j].headerKey ==> i == j
  }

  /** A missed message is decrypted in whatever order the saved keys are searched if and only if a single entry is saved under its
      header key: the search gives up at the first entry whose header key fits, whether that entry holds the message key or not. */
  lemma AnyOrderIff(kxA: (Secret, Secret), kxB: (Secret, Secret), w: World, events: seq<Event>, d: nat, t: nat, n: nat)
    requires RatchetRun.Exchanged(kxA, kxB, w) && IsRun(w, events)
    requires var v := Final(w, events); Deliverable(v, d, t, n) && !NotBehind(v.h, d, v.P(d), t, n) && (t, n) !in v.P(d).accepted
    ensures var v := Final(w, events);
            && v.h.Shaped() && t < |v.h.privs| && var s, ct := v.P(d).st, v.h.Wire(t, n);
            (forall pick | Found(s, ct, pick) :: Decrypted(s, ct, pick).1 == Ok(v.h.sent[t][n].body)) <==>
            OneEntry(s, v.h.HeaderKeyAt(t))
  {
    hide RatchetRun.Exchanged, IsRun, Final, History.HeaderKeyAt, History.MessageKeyAt, Decrypted, NotBehind, Sending, Turned,
         Receiving, NoneEmpty, SavedOk, Searched, OneEntry, Found;
    MissedIsDecryptedIff(kxA, kxB, w, events, d, t, n);
    ExchangeKept(kxA, kxB, w);
    RunKept(w, events);
    var v := Final(w, events);
    WireHeader(v.h, t, n);
    SavedOnce(v.h, d, v.P(d));
    hide Matched, Inv, AllKept, History.Wire;
    SearchIff(v.P(d).st, v.h.Wire(t, n), v.h.sent[t][n].body);
  }

  lemma SavedOnce(h: History, d: nat, p: Party)
    requires h.Shaped() && SavedOk(h, d, p)
    ensures forall i: nat, j: nat, n: nat | i in p.st.saved && j in p.st.saved ::
              n in p.st.saved[i].keys && n in p.st.saved[j].keys && p.st.saved[i].headerKey == p.st.saved[j].headerKey ==> i == j
  {
    hide EntryOk;
    forall i: nat, j: nat, n: nat | i in p.st.saved && j in p.st.saved && n in p.st.saved[i].keys && n in p.st.saved[j].keys
                                    && p.st.saved[i].headerKey == p.st.saved[j].headerKey
      ensures i == j
    {
      assert TwiceSaved(p.st.saved, i, j, n);
    }
  }

  lemma SearchIff(s: State, ct: Ciphertext, body: Plaintext)
    requires ct.Sealed?
    requires forall i: nat, j: nat, n: nat | i in s.saved && j in s.saved ::
               n in s.saved[i].keys && n in s.saved[j].keys && s.saved[i].headerKey == s.saved[j].headerKey ==> i == j
    requires Searched(s, ct, body)
    ensures (forall pick | Found(s, ct, pick) :: Decrypted(s, ct, pick).1 == Ok(body)) <==> OneEntry(s, ct.headerKey)
  {
    hide Decrypted;
    var id: nat :| Found(s, ct, Some(id)) && ct.header.num in s.saved[id].keys;
    if OneEntry(s, ct.headerKey) {
      forall pick | Found(s, ct, pick) ensures Decrypted(s, ct, pick).1 == Ok(body) {
        assert pick == Some(id);
      }
    } else {
      var i: nat, j: nat :| i in s.saved && j in s.saved && s.saved[i].headerKey == ct.headerKey == s.saved[j].headerKey && i != j;
      var k := if i == id then j else i;
      assert Found(s, ct, Some(k)) && ct.header.num !in s.saved[k].keys;
    }
  }

  // ---------------------------------------------------------------- what is not kept

  /** No entry is without keys. */
  ghost predicate NoneHollow(s: State) {
    forall id | id in s.saved :: s.saved[id].keys != map[]
  }

  lemma MergeNoneHollow(s: State, headerKey: Key, skipped: map<nat, Key>)
    requires NoneHollow(s)
    ensures NoneHollow(Merge(s, headerKey, skipped))
  {}

  lemma DropNoneHollow(s: State, id: nat, num: nat)
    requires NoneHollow(s) && id in s.saved
    ensures NoneHollow(DropSaved(s, id, num))
  {}

  lemma FreshNoneHollow(s: State, ct: Ciphertext)
    requires NoneHollow(s) && ct.Sealed?
    ensures NoneHollow(DecryptFresh(s, ct).0)
  {
    hide Merge, SkippedKeys, NoneHollow;
    SameNoneHollow(s);
    var current := Advance(s.recvChainKey, ct.header.num, s.recvCount);
    if current.Ok? {
      MergeNoneHollow(s.(recvChainKey := current.value.chainKey, recvCount := ct.header.num + 1), s.recvHeaderKey,
                      current.value.skipped);
    }
    var behind := Advance(s.recvChainKey, ct.header.prev, s.recvCount);
    var h := RootUpdate(s.rootKey, s.sendRatchetPrivate, ct.header.public);
    var a := Advance(Hmac(h, ChainKey), ct.header.num, 0);
    if behind.Ok? && a.Ok? {
      var s2 := s.(rootKey := Hmac(h, RootKey), recvChainKey := a.value.chainKey, recvHeaderKey := s.nextRecvHeaderKey,
                   nextRecvHeaderKey := Hmac(h, HeaderKey), sendRatchetPrivate := WIPED,
                   recvRatchetPublic := ct.header.public, recvCount := ct.header.num + 1, ratchet := true);
      MergeNoneHollow(s2, s.recvHeaderKey, behind.value.skipped);
      MergeNoneHollow(Merge(s2, s.recvHeaderKey, behind.value.skipped), s.nextRecvHeaderKey, a.value.skipped);
    }
  }

  lemma SameNoneHollow(s: State)
    requires NoneHollow(s)
    ensures forall t: State :: t.saved == s.saved ==> NoneHollow(t)
  {}

  /** Decryption, of whatever ciphertext, leaves no entry without keys: the last key takes its entry along. */
  lemma DecryptedNoneHollow(s: State, ct: Ciphertext, pick: Option<nat>)
    requires NoneHollow(s) && Found(s, ct, pick)
    ensures NoneHollow(Decrypted(s, ct, pick).0)
  {
    hide DecryptFresh, DropSaved, NoneHollow;
    if ct.Sealed? {
      FreshNoneHollow(s, ct);
      if pick.Some? {
        DropNoneHollow(s, pick.value, ct.header.num);
        FreshNoneHollow(DropSaved(s, pick.value, ct.header.num), ct);
      }
    }
  }

  lemma DroppedIsGone(h: History, d: nat, p: Party, t: nat, n: nat, id: nat)
    requires Matched(h, d, p) && Missed(h, d, p, t, n) && Holds(h, p.st, id, t, n)
    ensures !HeldFor(h, DropSaved(p.st, id, n), t, n)
  {
    hide History.Wire, History.HeaderKeyAt, History.MessageKeyAt, History.Material, History.ChainAt, Sending, Turned;
    var s' := DropSaved(p.st, id, n);
    DropKeeps(p.st, id, n);
    SavedOnce(h, d, p);
    hide SavedOk, Merge;
    forall i: nat ensures !Holds(h, s', i, t, n) {}
  }

  /** A missed message that is not found is behind both receiving chains, whatever is saved. */
  lemma StaleIsRefused(h: History, d: nat, p: Party, s': State, t: nat, n: nat)
    requires Matched(h, d, p) && Missed(h, d, p, t, n) && s' == p.st.(saved := s'.saved)
    ensures DecryptFresh(s', h.Wire(t, n)).0 == s' && DecryptFresh(s', h.Wire(t, n)).1.Err?
  {
    WireHeader(h, t, n);
    hide SavedOk, History.Wire, History.HeaderKeyAt, History.MessageKeyAt, History.Material, History.ChainAt, Sending, Turned;
    var r := RecvEpoch(d, p.epoch);
    RecvParity(d, p.epoch, t);
    SameHeaderKey(h, t, r);
    SameHeaderKey(h, t, r + 2);
  }

  /** A missed message with an empty plaintext is lost: it is refused although its key was saved, and the key is gone. */
  lemma MissedEmptyIsLost(h: History, d: nat, p: Party, t: nat, n: nat, id: nat)
    requires Matched(h, d, p) && Missed(h, d, p, t, n) && Holds(h, p.st, id, t, n) && h.sent[t][n].body == ""
    ensures var ct := h.Wire(t, n);
            && Found(p.st, ct, Some(id))
            && var (s', r) := Decrypted(p.st, ct, Some(id));
            r.Err? && !HeldFor(h, s', t, n)
  {
    WireHeader(h, t, n);
    WireBody(h, t, n);
    DropKeeps(p.st, id, n);
    DroppedIsGone(h, d, p, t, n, id);
    StaleIsRefused(h, d, p, DropSaved(p.st, id, n), t, n);
    hide Matched, Missed, HeldFor, DropSaved, DecryptFresh, History.Wire, History.HeaderKeyAt, History.MessageKeyAt;
  }

  lemma WireBody(h: History, t: nat, n: nat)
    requires h.Shaped() && t < |h.sent| && n < |h.sent[t]|
    ensures var ct := h.Wire(t, n); ct.Sealed? && ct.body == h.sent[t][n].body && ct.BodyOpens(h.MessageKeyAt(t, n))
  {}

  // ---------------------------------------------------------------- a search that ends in the wrong place

  lemma {:induction false} RunsJoin(w: World, a: seq<Event>, b: seq<Event>)
    requires IsRun(w, a) && IsRun(Final(w, a), b)
    ensures IsRun(w, a + b) && Final(w, a + b) == Final(Final(w, a), b)
    decreases |a|
  {
    hide Possible, Apply;
    if a == [] {
      assert a + b == b;
    } else {
      RunsJoin(Apply(w, a[0]), a[1..], b);
      assert (a + b)[1..] == a[1..] + b;
    }
  }

  lemma RunOfOne(w: World, ev: Event)
    requires Enabled(w, ev)
    ensures IsRun(w, [ev]) && Final(w, [ev]) == Apply(w, ev)
  {
    hide Enabled, Apply;
    assert [ev][1..] == [];
  }

  /** Bob, before he has received anything, gets message 1 of epoch 1, and saves the key of message 0. */
  lemma FirstGap(w: World)
    requires Inv(w) && |w.h.privs| == 2 == |w.h.sent| && |w.h.sent[1]| >= 2
    requires w.bob.epoch == 0 && w.bob.st.saved == map[] && w.bob.st.recvCount == 0 && w.bob.st.buffers == 0
    ensures var ev := Deliver(0, 1, 1, None);
            && Enabled(w, ev) && Inv(Apply(w, ev)) && Apply(w, ev).h == w.h
            && var p := Apply(w, ev).bob;
            && p.epoch == 1 && p.st.recvCount == 2 && p.st.buffers == 1 && p.accepted == w.bob.accepted + {(1, 1)}
            && p.st.saved.Keys == {0} && p.st.saved[0].headerKey == w.h.HeaderKeyAt(1) && p.st.saved[0].keys.Keys == {0}
  {
    var ev, p := Deliver(0, 1, 1, None), w.bob;
    WireSealed(w.h, 1, 1);
    InvMatched(w, 0);
    hide Inv, Matched, History.Wire, History.HeaderKeyAt, History.ChainAt, Decrypted, DecryptNext, Receives;
    assert w.h.Prev(1) == 0;
    StepInv(w, ev);
    NextReceives(w, 0, 1, 1, None);
    NextDecrypts(w.h, 0, p, 1, 1);
    ReceivesKeepsHistory(w, 0, 1, 1, None);
    var left, skipped := SkippedKeys(p.st.recvChainKey, 0, 0), SkippedKeys(w.h.ChainAt(1, 0), 0, 1);
    assert left == map[] && skipped.Keys == {0};
  }

  lemma ReceivesKeepsHistory(w: World, d: nat, t: nat, n: nat, pick: Option<nat>)
    requires w.h.Shaped() && Deliverable(w, d, t, n) && Found(w.P(d).st, w.h.Wire(t, n), pick)
    ensures Receives(w, d, t, n, pick).h == w.h
  {
    hide Decrypted;
  }

  /** Then he gets message 3, and saves the key of message 2 under another entry. */
  lemma SecondGap(w: World)
    requires Inv(w) && |w.h.privs| == 2 == |w.h.sent| && |w.h.sent[1]| >= 4
    requires w.bob.epoch == 1 && w.bob.st.recvCount == 2 && w.bob.st.buffers == 1
    requires w.bob.st.saved.Keys == {0} && w.bob.st.saved[0].headerKey == w.h.HeaderKeyAt(1) && w.bob.st.saved[0].keys.Keys == {0}
    ensures var ev := Deliver(0, 1, 3, Some(0));
            && Enabled(w, ev) && Inv(Apply(w, ev)) && Apply(w, ev).h == w.h
            && var p := Apply(w, ev).bob;
            && p.epoch == 1 && p.st.recvCount == 4 && p.accepted == w.bob.accepted + {(1, 3)}
            && p.st.saved.Keys == {0, 1} && p.st.saved[1].headerKey == w.h.HeaderKeyAt(1) && p.st.saved[1].keys.Keys == {2}
  {
    var ev, p := Deliver(0, 1, 3, Some(0)), w.bob;
    WireHeader(w.h, 1, 3);
    InvMatched(w, 0);
    hide Inv, SavedOk, Sending, Turned, History.Wire, History.HeaderKeyAt, History.ChainAt, Decrypted, Receives;
    StepInv(w, ev);
    CurrentReceives(w, 0, 1, 3, Some(0));
    ReceivesKeepsHistory(w, 0, 1, 3, Some(0));
    var skipped := SkippedKeys(p.st.recvChainKey, 2, 3);
    assert skipped.Keys == {2};
    CurrentMatched(w.h, 0, p, 1, 3);
  }

  /** After every exchange: Alice sends four messages, Bob gets the second and then the fourth, and has not seen the first; if
      the search of his saved keys ends at the later of the two entries, he refuses the first. */
  lemma UnluckySearchCanHappen(kxA: (Secret, Secret), kxB: (Secret, Secret), w: World, drawn: Secret, letter: Letter)
    requires RatchetRun.Exchanged(kxA, kxB, w) && letter.body != ""
    ensures var events := Says(drawn, letter, 4) + [Deliver(0, 1, 1, None)] + [Deliver(0, 1, 3, Some(0))];
            && IsRun(w, events)
            && var v := Final(w, events);
            && Possible(v, Deliver(0, 1, 0, Some(1))) && (1, 0) !in v.bob.accepted
            && Decrypted(v.bob.st, v.h.Wire(1, 0), Some(1)).1 == Err(DuplicateOrDelayed)
  {
    hide Inv, Complete, Encrypted, Decrypted, Apply, Possible, Spoils, History.HeaderKeyAt, History.Wire;
    var says := Says(drawn, letter, 4);
    FirstWord(kxA, kxB, w, drawn, letter);
    NoBuffers(kxA, kxB, w);
    Chatter(Apply(w, Say(1, drawn, letter)), drawn, letter, 3);
    assert says[1..] == Says(drawn, letter, 3);
    var w4 := Final(w, says);
    FirstGap(w4);
    var a := Deliver(0, 1, 1, None);
    RunOfOne(w4, a);
    RunsJoin(w, says, [a]);
    var w5 := Final(w, says + [a]);
    SecondGap(w5);
    var b := Deliver(0, 1, 3, Some(0));
    RunOfOne(w5, b);
    RunsJoin(w, says + [a], [b]);
    RefusesFirst(Final(w, says + [a] + [b]));
  }

  lemma NoBuffers(kxA: (Secret, Secret), kxB: (Secret, Secret), w: World)
    requires RatchetRun.Exchanged(kxA, kxB, w)
    ensures w.bob.st.buffers == 0 && w.bob.accepted == {}
  {}

  lemma RefusesFirst(w: World)
    requires Inv(w) && |w.h.privs| == 2 == |w.h.sent| && |w.h.sent[1]| >= 4 && w.bob.epoch == 1 && w.bob.st.recvCount == 4
    requires w.bob.st.saved.Keys == {0, 1} && w.bob.st.saved[1].headerKey == w.h.HeaderKeyAt(1)
    requires w.bob.st.saved[1].keys.Keys == {2}
    ensures Possible(w, Deliver(0, 1, 0, Some(1)))
    ensures Decrypted(w.bob.st, w.h.Wire(1, 0), Some(1)).1 == Err(DuplicateOrDelayed)
  {
    WireHeader(w.h, 1, 0);
    InvMatched(w, 0);
    hide Inv, Matched, History.Wire, History.HeaderKeyAt;
    assert Possible(w, Deliver(0, 1, 0, Some(1)));
    FreshBranch(w, 0, 1, 0);
    hide DecryptFresh;
    assert DecryptCurrent(w.bob.st, w.h.Wire(1, 0)).1 == Err(DuplicateOrDelayed);
  }
}
