/** One honest side of a ratchet, and how each thing it does keeps it in step with the history. */
module RatchetParty {
  import opened RatchetTerms
  import opened DoubleRatchet
  import opened RatchetReplay
  import opened RatchetHistory

  /** One side: its state, the number of ratchet steps its root key has absorbed, and which messages it has accepted. */
  datatype Party = Party(st: State, epoch: nat, accepted: set<(nat, nat)>)

  /** The last epoch side d has received from; -1 if none yet. Side 0 (Bob) sends even epochs, side 1 (Alice) odd ones. */
  function RecvEpoch(d: nat, epoch: nat): int { if epoch % 2 == d then epoch - 1 else epoch }

  /** The side whose turn it is holds the sending half of its epoch. */
  ghost predicate Sending(h: History, s: State, e: nat)
    requires h.Shaped() && e < |h.privs|
  {
    && !s.ratchet
    && s.sendHeaderKey == h.HeaderKeyAt(e) && s.nextSendHeaderKey == h.HeaderKeyAt(e + 2)
    && s.sendChainKey == h.ChainAt(e, |h.sent[e]|) && s.sendCount == |h.sent[e]| && s.prevSendCount == h.Prev(e)
    && s.sendRatchetPrivate == h.privs[e]
  }

  /** A side that has received the other's latest ratchet key will take a ratchet step with its next message. */
  ghost predicate Turned(h: History, s: State, e: nat)
    requires h.Shaped() && e < |h.privs|
  {
    && s.ratchet
    && s.nextSendHeaderKey == h.HeaderKeyAt(e + 1)
    && s.sendCount == (if e >= 1 then |h.sent[e - 1]| else 0)
    && s.recvRatchetPublic == PublicOf(h.privs[e])
  }

  ghost predicate Receiving(h: History, s: State, r: int)
    requires h.Shaped() && -1 <= r < |h.privs|
  {
    && s.nextRecvHeaderKey == h.HeaderKeyAt(r + 2)
    && if r < 0 then s.recvHeaderKey == Zero && s.recvChainKey == Zero && s.recvCount == 0
       else s.recvHeaderKey == h.HeaderKeyAt(r) && s.recvChainKey == h.ChainAt(r, s.recvCount) && s.recvCount <= |h.sent[r]|
  }

  /** Message n of epoch t lies behind the receiver's counter. */
  ghost predicate Passed(h: History, s: State, r: int, t: nat, n: nat) {
    t < |h.sent| && n < |h.sent[t]| && t <= r && (t == r ==> n < s.recvCount)
  }

  /** A saved entry holds right keys of epoch t for messages that were passed but not accepted. */
  ghost predicate EntryOk(h: History, d: nat, p: Party, entry: SavedKeys, t: nat)
    requires h.Shaped()
  {
    && t < |h.privs| && t % 2 != d && entry.headerKey == h.HeaderKeyAt(t)
    && forall n :: n in entry.keys ==>
         entry.keys[n] == h.MessageKeyAt(t, n) && Passed(h, p.st, RecvEpoch(d, p.epoch), t, n) && (t, n) !in p.accepted
  }

  ghost predicate TwiceSaved(saved: map<nat, SavedKeys>, id: nat, id': nat, n: nat) {
    IsSaved(saved, id, n) && IsSaved(saved, id', n) && saved[id].headerKey == saved[id'].headerKey
  }

  ghost predicate SavedOk(h: History, d: nat, p: Party)
    requires h.Shaped()
  {
    && HandedOut(p.st.saved, p.st.buffers)
    && (forall id :: id in p.st.saved ==> exists t :: EntryOk(h, d, p, p.st.saved[id], t))
    && (forall id, id', n :: TwiceSaved(p.st.saved, id, id', n) ==> id == id')
    && (forall t, n :: (t, n) in p.accepted ==> t % 2 != d && Passed(h, p.st, RecvEpoch(d, p.epoch), t, n))
  }

  /** The state of side d agrees with the history. */
  ghost predicate Matched(h: History, d: nat, p: Party) {
    && h.Shaped() && d < 2 && p.epoch < |h.privs|
    && p.st.rootKey == h.Root(p.epoch)
    && Receiving(h, p.st, RecvEpoch(d, p.epoch))
    && (if p.epoch % 2 == d then Sending(h, p.st, p.epoch) else Turned(h, p.st, p.epoch))
    && SavedOk(h, d, p)
  }

  /** Saved keys stay right when the history grows and the receiving side stands still. */
  lemma SavedStable(h: History, d: nat, p: Party, h': History, p': Party)
    requires h.Shaped() && SavedOk(h, d, p) && Extends(h, h')
    requires p'.st.saved == p.st.saved && p'.st.buffers == p.st.buffers && p'.st.recvCount == p.st.recvCount
    requires RecvEpoch(d, p'.epoch) == RecvEpoch(d, p.epoch) && p'.accepted == p.accepted
    ensures SavedOk(h', d, p')
  {
    KeysStable(h, h');
    forall id | id in p.st.saved ensures exists t :: EntryOk(h', d, p', p.st.saved[id], t) {
      var t :| EntryOk(h, d, p, p.st.saved[id], t);
      assert EntryOk(h', d, p', p.st.saved[id], t);
    }
  }

  /** A side is not disturbed by what the other side sends. */
  lemma HistoryMatched(h: History, d: nat, p: Party, h': History)
    requires Matched(h, d, p) && Extends(h, h')
    requires p.epoch % 2 == d ==> |h'.sent[p.epoch]| == |h.sent[p.epoch]| && h'.Prev(p.epoch) == h.Prev(p.epoch)
    requires p.epoch % 2 != d && p.epoch >= 1 ==> |h'.sent[p.epoch - 1]| == |h.sent[p.epoch - 1]|
    ensures Matched(h', d, p)
  {
    hide SavedOk;
    KeysStable(h, h');
    SavedStable(h, d, p, h', p);
  }

  /** Sending in the current turn: the ciphertext is the next message of the epoch. */
  lemma PartyContinues(h: History, d: nat, p: Party, drawn: Secret, letter: Letter)
    requires Matched(h, d, p) && !p.st.ratchet
    ensures var (s', ct) := Encrypted(p.st, drawn, letter.nonce, letter.body);
            var h' := h.Append(p.epoch, letter);
            Matched(h', d, p.(st := s')) && ct == h'.Wire(p.epoch, |h.sent[p.epoch]|)
  {
    hide SavedOk;
    var h' := h.Append(p.epoch, letter);
    AppendExtends(h, p.epoch, letter);
    KeysStable(h, h');
    SavedStable(h, d, p, h', p.(st := Encrypted(p.st, drawn, letter.nonce, letter.body).0));
    ChainFrom(h, p.epoch, |h.sent[p.epoch]|, 1);
  }

  /** Opening a new turn: the ciphertext is the first message of a new epoch. */
  lemma PartyOpens(h: History, d: nat, p: Party, drawn: Secret, letter: Letter)
    requires Matched(h, d, p) && p.st.ratchet && p.epoch == |h.privs| - 1
    ensures var (s', ct) := Encrypted(p.st, drawn, letter.nonce, letter.body);
            var h' := h.Open(drawn, letter);
            Matched(h', d, p.(st := s', epoch := p.epoch + 1)) && ct == h'.Wire(p.epoch + 1, 0)
  {
    hide SavedOk;
    var h' := h.Open(drawn, letter);
    OpenExtends(h, drawn, letter);
    KeysStable(h, h');
    var p' := p.(st := Encrypted(p.st, drawn, letter.nonce, letter.body).0, epoch := p.epoch + 1);
    SavedStable(h, d, p, h', p');
    MaterialStable(h, h', p.epoch);
    assert h'.Material(p.epoch + 1) == RootUpdate(h.Root(p.epoch), drawn, PublicOf(h.privs[p.epoch]));
    assert h'.ChainAt(p.epoch + 1, 1) == Step(h'.ChainAt(p.epoch + 1, 0));
  }

  lemma SendingParity(h: History, d: nat, p: Party)
    requires Matched(h, d, p)
    ensures p.st.ratchet <==> p.epoch % 2 != d
  {}

  // ---------------------------------------------------------------- receiving

  /** The header key tells the epoch of a saved entry. */
  lemma EntryEpoch(h: History, d: nat, p: Party, entry: SavedKeys, t: nat)
    requires h.Shaped() && d < 2 && t < |h.privs| && t % 2 != d && entry.headerKey == h.HeaderKeyAt(t)
    requires exists t' :: EntryOk(h, d, p, entry, t')
    ensures EntryOk(h, d, p, entry, t)
  {
    hide History.HeaderKeyAt;
    var t' :| EntryOk(h, d, p, entry, t');
    HeaderKeyInjective(h, t, t');
  }

  /** Accepting a message from the saved keys. */
  lemma SavedAccepts(h: History, d: nat, p: Party, t: nat, n: nat, id: nat)
    requires h.Shaped() && SavedOk(h, d, p) && d < 2 && t < |h.sent| && n < |h.sent[t]| && t % 2 != d
    requires HasSaved(p.st, h.Wire(t, n), id) && n in p.st.saved[id].keys
    ensures p.st.saved[id].keys[n] == h.MessageKeyAt(t, n) && (t, n) !in p.accepted
    ensures SavedOk(h, d, p.(st := DropSaved(p.st, id, n), accepted := p.accepted + {(t, n)}))
  {
    hide History.HeaderKeyAt, History.MessageKeyAt;
    var p' := p.(st := DropSaved(p.st, id, n), accepted := p.accepted + {(t, n)});
    EntryEpoch(h, d, p, p.st.saved[id], t);
    assert Passed(h, p.st, RecvEpoch(d, p.epoch), t, n);
    assert p.st.saved[id].keys[n] == h.MessageKeyAt(t, n) && (t, n) !in p.accepted;
    forall i | i in p'.st.saved ensures exists t' :: EntryOk(h, d, p', p'.st.saved[i], t') {
      OtherEntries(h, d, p, t, n, id, i);
    }
    hide EntryOk;
    forall i, i', m | TwiceSaved(p'.st.saved, i, i', m) ensures i == i' {
      assert TwiceSaved(p.st.saved, i, i', m);
    }
  }

  lemma OtherEntries(h: History, d: nat, p: Party, t: nat, n: nat, id: nat, i: nat)
    requires h.Shaped() && SavedOk(h, d, p) && d < 2 && t < |h.sent| && n < |h.sent[t]| && t % 2 != d
    requires HasSaved(p.st, h.Wire(t, n), id) && n in p.st.saved[id].keys
    requires i in DropSaved(p.st, id, n).saved
    ensures var p' := p.(st := DropSaved(p.st, id, n), accepted := p.accepted + {(t, n)});
            exists t' :: EntryOk(h, d, p', p'.st.saved[i], t')
  {
    hide History.HeaderKeyAt, History.MessageKeyAt, Passed;
    var p' := p.(st := DropSaved(p.st, id, n), accepted := p.accepted + {(t, n)});
    EntryEpoch(h, d, p, p.st.saved[id], t);
    var t' :| EntryOk(h, d, p, p.st.saved[i], t');
    assert t' == t && n in p.st.saved[i].keys ==> TwiceSaved(p.st.saved, i, id, n);
    assert (t', n) == (t, n) && i != id ==> n !in p.st.saved[i].keys;
    hide SavedOk, TwiceSaved, HasSaved;
    PassedSame(h, p.st, p'.st, RecvEpoch(d, p.epoch), t');
    assert EntryOk(h, d, p', p'.st.saved[i], t');
  }

  lemma PassedSame(h: History, s: State, s': State, r: int, t: nat)
    requires s'.recvCount == s.recvCount
    ensures forall n :: Passed(h, s, r, t, n) == Passed(h, s', r, t, n)
  {}

  /** The receiving side moves on past message (t, n), which it accepts. */
  lemma SavedMoveOn(h: History, d: nat, p: Party, p': Party, t: nat, n: nat)
    requires h.Shaped() && SavedOk(h, d, p) && d < 2 && t % 2 != d
    requires p'.st.saved == p.st.saved && p'.st.buffers == p.st.buffers && p'.accepted == p.accepted + {(t, n)}
    requires var r, r' := RecvEpoch(d, p.epoch), RecvEpoch(d, p'.epoch);
             r' > r || (r' == r && p'.st.recvCount >= p.st.recvCount)
    requires !Passed(h, p.st, RecvEpoch(d, p.epoch), t, n) && Passed(h, p'.st, RecvEpoch(d, p'.epoch), t, n)
    ensures SavedOk(h, d, p')
  {
    forall i | i in p'.st.saved ensures exists t' :: EntryOk(h, d, p', p'.st.saved[i], t') {
      var t' :| EntryOk(h, d, p, p.st.saved[i], t');
      assert EntryOk(h, d, p', p'.st.saved[i], t');
    }
  }

  /** Keys of epoch t that were passed, not accepted, and not saved before may be saved. */
  lemma SaveMore(h: History, d: nat, p: Party, t: nat, skipped: map<nat, Key>)
    requires h.Shaped() && SavedOk(h, d, p) && d < 2 && t < |h.privs| && t % 2 != d
    requires forall n :: n in skipped ==>
               skipped[n] == h.MessageKeyAt(t, n) && Passed(h, p.st, RecvEpoch(d, p.epoch), t, n) && (t, n) !in p.accepted
    requires forall id, n :: IsSaved(p.st.saved, id, n) && p.st.saved[id].headerKey == h.HeaderKeyAt(t) ==> n !in skipped
    ensures SavedOk(h, d, p.(st := Merge(p.st, h.HeaderKeyAt(t), skipped)))
  {
    hide History.HeaderKeyAt, History.MessageKeyAt;
    var p' := p.(st := Merge(p.st, h.HeaderKeyAt(t), skipped));
    if skipped != map[] {
      forall i | i in p'.st.saved ensures exists t' :: EntryOk(h, d, p', p'.st.saved[i], t') {
        if i == p.st.buffers {
          assert EntryOk(h, d, p', p'.st.saved[i], t);
        } else {
          var t' :| EntryOk(h, d, p, p.st.saved[i], t');
          assert EntryOk(h, d, p', p'.st.saved[i], t');
        }
      }
      forall i, i', m | TwiceSaved(p'.st.saved, i, i', m) ensures i == i' {
        assert i == p.st.buffers || IsSaved(p.st.saved, i, m);
        assert i' == p.st.buffers || IsSaved(p.st.saved, i', m);
        assert i == p.st.buffers || i' == p.st.buffers || TwiceSaved(p.st.saved, i, i', m);
      }
    }
  }

  /** A message of the epoch being received. */
  lemma CurrentMatched(h: History, d: nat, p: Party, t: nat, n: nat)
    requires Matched(h, d, p) && t == RecvEpoch(d, p.epoch) && n < |h.sent[t]|
    ensures var (s', r) := DecryptCurrent(p.st, h.Wire(t, n));
            && (r.Ok? <==> p.st.recvCount <= n <= p.st.recvCount + MAX_MISSING_MESSAGES)
            && (r.Ok? ==> r.value == h.sent[t][n].body && Matched(h, d, p.(st := s', accepted := p.accepted + {(t, n)})))
            && (r.Err? ==> s' == p.st)
  {
    hide History.HeaderKeyAt, History.Material, SavedOk, Merge;
    var s, ct, from := p.st, h.Wire(t, n), p.st.recvCount;
    if from <= n <= from + MAX_MISSING_MESSAGES {
      ChainFrom(h, t, from, n - from);
      ChainFrom(h, t, from, n - from + 1);
      var skipped := SkippedKeys(s.recvChainKey, from, n);
      var s1 := s.(recvChainKey := h.ChainAt(t, n + 1), recvCount := n + 1);
      var p1 := p.(st := s1, accepted := p.accepted + {(t, n)});
      SavedMoveOn(h, d, p, p1, t, n);
      SkippedAre(h, t, from, n);
      SkippedNotSaved(h, d, p, t, skipped);
      NotAccepted(h, d, p, t);
      SaveMore(h, d, p1, t, skipped);
      MergeKeeps(s1, h.HeaderKeyAt(t), skipped);
    }
  }

  lemma MergeKeeps(s: State, headerKey: Key, skipped: map<nat, Key>)
    ensures Merge(s, headerKey, skipped)
            == s.(saved := Merge(s, headerKey, skipped).saved, buffers := Merge(s, headerKey, skipped).buffers)
  {}

  lemma SkippedAre(h: History, t: nat, from: nat, num: nat)
    requires t < |h.privs|
    ensures var m := SkippedKeys(h.ChainAt(t, from), from, num); forall n :: n in m ==> m[n] == h.MessageKeyAt(t, n)
  {
    forall n | from <= n < num ensures SkippedKeys(h.ChainAt(t, from), from, num)[n] == h.MessageKeyAt(t, n) {
      ChainFrom(h, t, from, n - from);
    }
  }

  /** Numbers from the receiver's counter on are not saved yet. */
  lemma SkippedNotSaved(h: History, d: nat, p: Party, t: nat, skipped: map<nat, Key>)
    requires h.Shaped() && SavedOk(h, d, p) && d < 2 && t < |h.privs| && t % 2 != d && t >= RecvEpoch(d, p.epoch)
    requires forall n :: n in skipped ==> t > RecvEpoch(d, p.epoch) || n >= p.st.recvCount
    ensures forall id, n :: IsSaved(p.st.saved, id, n) && p.st.saved[id].headerKey == h.HeaderKeyAt(t) ==> n !in skipped
  {
    hide History.HeaderKeyAt;
    forall id, n | IsSaved(p.st.saved, id, n) && p.st.saved[id].headerKey == h.HeaderKeyAt(t) ensures n !in skipped {
      EntryEpoch(h, d, p, p.st.saved[id], t);
    }
  }

  lemma NotAccepted(h: History, d: nat, p: Party, t: nat)
    requires h.Shaped() && SavedOk(h, d, p)
    ensures forall n :: t >= RecvEpoch(d, p.epoch) && (t == RecvEpoch(d, p.epoch) ==> n >= p.st.recvCount) ==>
                          (t, n) !in p.accepted
  {}

  /** The number of messages of the previous turn that the receiver has yet to see. */
  function Outstanding(h: History, p: Party, t: nat): int
    requires t < |h.sent|
  {
    h.Prev(t) - p.st.recvCount
  }

  /** The state after accepting message n of the next epoch, before skipped keys are saved. */
  function TurnedState(h: History, s: State, t: nat, n: nat): State
    requires h.Shaped() && t < |h.privs|
  {
    s.(rootKey := h.Root(t), recvChainKey := h.ChainAt(t, n + 1), recvHeaderKey := s.nextRecvHeaderKey,
       nextRecvHeaderKey := h.HeaderKeyAt(t + 2), sendRatchetPrivate := WIPED,
       recvRatchetPublic := PublicOf(h.privs[t]), recvCount := n + 1, ratchet := true)
  }

  /** What DecryptNext does with message n of the next epoch. */
  lemma NextDecrypts(h: History, d: nat, p: Party, t: nat, n: nat)
    requires Matched(h, d, p) && p.epoch % 2 == d && t == p.epoch + 1 < |h.sent| && n < |h.sent[t]|
    ensures 0 <= Outstanding(h, p, t)
    ensures var s, ct := p.st, h.Wire(t, n);
            DecryptNext(s, ct) ==
            if Outstanding(h, p, t) > MAX_MISSING_MESSAGES then (s, Err(MessageExceedsReorderingLimit))
            else if n > MAX_MISSING_MESSAGES then (s.(rootKey := h.Root(t)), Err(MessageExceedsReorderingLimit))
            else (Merge(Merge(TurnedState(h, s, t, n), s.recvHeaderKey, SkippedKeys(s.recvChainKey, s.recvCount, h.Prev(t))),
                        h.HeaderKeyAt(t), SkippedKeys(h.ChainAt(t, 0), 0, n)),
                  Ok(h.sent[t][n].body))
  {
    hide SavedOk, Merge, SkippedKeys, History.Material;
    MaterialShared(h, t);
    ChainFrom(h, t, 0, n);
    ChainFrom(h, t, 0, n + 1);
    assert h.ChainAt(t, 0) == Hmac(h.Material(t), ChainKey);
    assert h.HeaderKeyAt(t + 2) == Hmac(h.Material(t), HeaderKey);
  }

  /** The receiver's saved keys after it has followed a ratchet step. */
  lemma NextSaved(h: History, d: nat, p: Party, t: nat, n: nat)
    requires Matched(h, d, p) && p.epoch % 2 == d && t == p.epoch + 1 < |h.sent| && n < |h.sent[t]|
    ensures var s := p.st;
            var s2 := TurnedState(h, s, t, n);
            var s3 := Merge(s2, s.recvHeaderKey, SkippedKeys(s.recvChainKey, s.recvCount, h.Prev(t)));
            var s4 := Merge(s3, h.HeaderKeyAt(t), SkippedKeys(h.ChainAt(t, 0), 0, n));
            SavedOk(h, d, Party(s4, t, p.accepted + {(t, n)}))
  {
    hide SavedOk, History.HeaderKeyAt, History.Material, History.MessageKeyAt;
    var s, r := p.st, p.epoch - 1;
    var p2 := Party(TurnedState(h, s, t, n), t, p.accepted + {(t, n)});
    var left := SkippedKeys(s.recvChainKey, s.recvCount, h.Prev(t));
    var skipped := SkippedKeys(h.ChainAt(t, 0), 0, n);
    SavedMoveOn(h, d, p, p2, t, n);
    SkippedNotSaved(h, d, p, t, skipped);
    NotAccepted(h, d, p, t);
    SkippedAre(h, t, 0, n);
    if r >= 0 {
      SkippedAre(h, r, s.recvCount, h.Prev(t));
      SkippedNotSaved(h, d, p, r, left);
      NotAccepted(h, d, p, r);
      SaveMore(h, d, p2, r, left);
      NewEntryDiffers(h, p2, r, t, left, skipped);
    } else {
      assert left == map[];
    }
    SaveMore(h, d, p2.(st := Merge(p2.st, s.recvHeaderKey, left)), t, skipped);
  }

  /** Entries of different epochs do not share a header key. */
  lemma NewEntryDiffers(h: History, p: Party, r: nat, t: nat, left: map<nat, Key>, skipped: map<nat, Key>)
    requires h.Shaped() && r < t < |h.privs| && r % 2 == t % 2
    requires forall id, n :: IsSaved(p.st.saved, id, n) && p.st.saved[id].headerKey == h.HeaderKeyAt(t) ==> n !in skipped
    ensures var saved := Merge(p.st, h.HeaderKeyAt(r), left).saved;
            forall id, n :: IsSaved(saved, id, n) && saved[id].headerKey == h.HeaderKeyAt(t) ==> n !in skipped
  {
    if h.HeaderKeyAt(r) == h.HeaderKeyAt(t) {
      HeaderKeyInjective(h, r, t);
    }
    var saved := Merge(p.st, h.HeaderKeyAt(r), left).saved;
    forall id, n | IsSaved(saved, id, n) && saved[id].headerKey == h.HeaderKeyAt(t) ensures n !in skipped {
      assert IsSaved(p.st.saved, id, n);
    }
  }

  lemma NextMatched(h: History, d: nat, p: Party, t: nat, n: nat)
    requires Matched(h, d, p) && p.epoch % 2 == d && t == p.epoch + 1 < |h.sent| && n < |h.sent[t]|
    requires Outstanding(h, p, t) <= MAX_MISSING_MESSAGES && n <= MAX_MISSING_MESSAGES
    ensures var (s', r) := DecryptNext(p.st, h.Wire(t, n));
            r == Ok(h.sent[t][n].body) && Matched(h, d, Party(s', t, p.accepted + {(t, n)}))
  {
    hide SavedOk, SkippedKeys, History.Material, DecryptNext, Merge;
    NextDecrypts(h, d, p, t, n);
    NextSaved(h, d, p, t, n);
    var s2 := TurnedState(h, p.st, t, n);
    var left := SkippedKeys(p.st.recvChainKey, p.st.recvCount, h.Prev(t));
    MergeKeeps(s2, p.st.recvHeaderKey, left);
    MergeKeeps(Merge(s2, p.st.recvHeaderKey, left), h.HeaderKeyAt(t), SkippedKeys(h.ChainAt(t, 0), 0, n));
  }

  /** Where a message of the other side stands with respect to the receiver's counter. */
  ghost predicate NotBehind(h: History, d: nat, p: Party, t: nat, n: nat) {
    var r := RecvEpoch(d, p.epoch);
    t > r || (t == r && n >= p.st.recvCount)
  }

  /** Not more messages are missing than the receiver keeps track of. */
  ghost predicate WithinLimit(h: History, d: nat, p: Party, t: nat, n: nat)
    requires t < |h.sent|
  {
    if t == RecvEpoch(d, p.epoch) then n - p.st.recvCount <= MAX_MISSING_MESSAGES
    else Outstanding(h, p, t) <= MAX_MISSING_MESSAGES && n <= MAX_MISSING_MESSAGES
  }

  /** The one delivery that spoils a receiver: the first it sees of a new epoch is numbered beyond the limit. */
  ghost predicate Spoils(h: History, d: nat, p: Party, t: nat, n: nat)
    requires t < |h.sent|
  {
    t > RecvEpoch(d, p.epoch) && Outstanding(h, p, t) <= MAX_MISSING_MESSAGES && n > MAX_MISSING_MESSAGES
  }
}
