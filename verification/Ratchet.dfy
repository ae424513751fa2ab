/** The double ratchet of doubleratchet/ratchet.go. */
module DoubleRatchet {
  import opened RatchetTerms
  import opened Wrappers

  const MAX_MISSING_MESSAGES := 8

  datatype Error =
    | RatchetHeaderTooSmall | DuplicateOrDelayed | MessageExceedsReorderingLimit | CorruptMessage | CannotDecrypt
    | NextEncryptedMessageWithoutRatchetFlag | InvalidPQPublicKey | EchoedDHValues | HandshakeAlreadyComplete

  /** Message keys kept for messages that were skipped, under a copy of their header key. */
  datatype SavedKeys = SavedKeys(headerKey: Key, keys: map<nat, Key>)

  /** The state of one side. `saved` is keyed by buffer identity, so several entries may hold equal header keys;
      `buffers` counts the identities handed out. */
  datatype State = State(
    rootKey: Key,
    sendHeaderKey: Key, recvHeaderKey: Key, nextSendHeaderKey: Key, nextRecvHeaderKey: Key,
    sendChainKey: Key, recvChainKey: Key,
    sendCount: nat, recvCount: nat, prevSendCount: nat,
    sendRatchetPrivate: Secret, recvRatchetPublic: Public,
    ratchet: bool,
    saved: map<nat, SavedKeys>, buffers: nat)

  /** The key of the HMAC that an exchange of ratchet keys feeds into the root chain. */
  function RootUpdate(root: Key, priv: Secret, pub: Public): Key {
    Updated(root, Agree(priv.ec, pub.ec), Agree(priv.pq, pub.pq))
  }

  // ---------------------------------------------------------------- key exchange

  datatype KeyExchange = KeyExchange(dh0: Public, dh1: Public)

  const WIPED := Secret(0, 0)
  const NO_PUBLIC := Public(0, 0, true)

  function Fresh(): State {
    State(Zero, Zero, Zero, Zero, Zero, Zero, Zero, 0, 0, 0, WIPED, NO_PUBLIC, false, map[], 0)
  }

  datatype Outcome<+T> = Ok(value: T) | Err(error: Error)

  function AsAlice(s: State, h: Key, theirs: Public): State {
    s.(rootKey := Hmac(h, RootKey), recvHeaderKey := Hmac(h, HeaderKey),
       nextSendHeaderKey := Hmac(h, NextHeaderKey), nextRecvHeaderKey := Hmac(h, NextHeaderKey),
       recvChainKey := Hmac(h, ChainKey), recvRatchetPublic := theirs)
  }

  function AsBob(s: State, h: Key, mine: Secret): State {
    s.(rootKey := Hmac(h, RootKey), sendHeaderKey := Hmac(h, HeaderKey),
       nextRecvHeaderKey := Hmac(h, NextHeaderKey), nextSendHeaderKey := Hmac(h, NextHeaderKey),
       sendChainKey := Hmac(h, ChainKey), sendRatchetPrivate := mine)
  }

  /** completeKeyExchange: the side with the smaller public key is Alice. */
  function Complete(s: State, kx0: Secret, kx1: Secret, theirs: KeyExchange): (State, Outcome<()>) {
    if kx0.ec == theirs.dh0.ec then (s, Err(EchoedDHValues))
    else if !theirs.dh0.pqValid then (s, Err(InvalidPQPublicKey))
    else
      var h := Exchanged(Agree(kx0.ec, theirs.dh0.ec), Agree(kx0.pq, theirs.dh0.pq));
      if kx0.ec < theirs.dh0.ec then
        var s1 := AsAlice(s, h, theirs.dh1);
        if !theirs.dh1.pqValid then (s1, Err(InvalidPQPublicKey)) else (s1.(ratchet := true), Ok(()))
      else (AsBob(s, h, kx1).(ratchet := false), Ok(()))
  }

  /** An exchange is completed exactly when it is not one's own reflected, and every key of the other side that is used is a valid
      one: Bob's second key is used by Alice only. Nothing changes when the first key is refused. */
  lemma CompletedIff(s: State, kx0: Secret, kx1: Secret, theirs: KeyExchange)
    ensures var (s', r) := Complete(s, kx0, kx1, theirs);
            && (r.Ok? <==> theirs.dh0.ec != kx0.ec && theirs.dh0.pqValid && (kx0.ec < theirs.dh0.ec ==> theirs.dh1.pqValid))
            && (r == Err(EchoedDHValues) <==> theirs.dh0.ec == kx0.ec)
            && (theirs.dh0.ec == kx0.ec || !theirs.dh0.pqValid ==> s' == s)
  {}

  // ---------------------------------------------------------------- sending

  /** The ratchet step taken before the first message after a received ratchet key. */
  function SendRatchet(s: State, drawn: Secret): State {
    if !s.ratchet then s
    else
      var h := RootUpdate(s.rootKey, drawn, s.recvRatchetPublic);
      s.(sendRatchetPrivate := drawn, sendHeaderKey := s.nextSendHeaderKey,
         rootKey := Hmac(h, RootKey), nextSendHeaderKey := Hmac(h, HeaderKey), sendChainKey := Hmac(h, ChainKey),
         prevSendCount := s.sendCount, sendCount := 0, ratchet := false)
  }

  function Seal(s: State, nonce: nat, msg: Plaintext): Ciphertext {
    Sealed(s.sendHeaderKey, Header(s.sendCount, s.prevSendCount, PublicOf(s.sendRatchetPrivate), nonce),
           MessageKeyOf(s.sendChainKey), nonce, msg)
  }

  function Encrypted(s: State, drawn: Secret, nonce: nat, msg: Plaintext): (State, Ciphertext) {
    var r := SendRatchet(s, drawn);
    (r.(sendChainKey := Step(r.sendChainKey), sendCount := r.sendCount + 1), Seal(r, nonce, msg))
  }

  // ---------------------------------------------------------------- receiving

  /** What stepping a chain from number `from` to number `num` yields. */
  datatype Advanced = Advanced(chainKey: Key, messageKey: Key, skipped: map<nat, Key>)

  function SkippedKeys(chain: Key, from: nat, num: nat): (m: map<nat, Key>)
    ensures forall n: nat :: n in m <==> from <= n < num
    ensures forall n: nat :: n in m ==> m[n] == MessageKeyOf(Chain(chain, n - from))
  {
    if num <= from then map[]
    else SkippedKeys(chain, from, num - 1)[num - 1 := MessageKeyOf(Chain(chain, num - 1 - from))]
  }

  /** What the loop of saveKeys has, when it comes to message n. */
  ghost predicate DerivedTo(chain: Key, from: nat, num: nat, n: nat, next: Key, last: Key, skipped: map<nat, Key>) {
    && from <= n <= num + 1 && next == Chain(chain, n - from)
    && (n > from ==> last == MessageKeyOf(Chain(chain, n - 1 - from)))
    && skipped == SkippedKeys(chain, from, if n <= num then n else num)
  }

  lemma DerivedNone(chain: Key, from: nat, num: nat)
    requires from <= num
    ensures DerivedTo(chain, from, num, from, chain, Zero, map[])
  {}

  lemma ChainNext(chain: Key, k: nat)
    ensures Chain(chain, k + 1) == Step(Chain(chain, k))
  {}

  lemma SkippedNext(chain: Key, from: nat, n: nat)
    requires from <= n
    ensures SkippedKeys(chain, from, n + 1) == SkippedKeys(chain, from, n)[n := MessageKeyOf(Chain(chain, n - from))]
  {}

  lemma DerivedOne(chain: Key, from: nat, num: nat, n: nat, next: Key, last: Key, skipped: map<nat, Key>)
    requires n <= num && DerivedTo(chain, from, num, n, next, last, skipped)
    ensures DerivedTo(chain, from, num, n + 1, Step(next), MessageKeyOf(next),
                      if n < num then skipped[n := MessageKeyOf(next)] else skipped)
  {
    hide Chain, SkippedKeys, MessageKeyOf, Step;
    ChainNext(chain, n - from);
    SkippedNext(chain, from, n);
  }

  lemma DerivedAll(chain: Key, from: nat, num: nat, next: Key, last: Key, skipped: map<nat, Key>)
    requires num - from <= MAX_MISSING_MESSAGES && DerivedTo(chain, from, num, num + 1, next, last, skipped) && from <= num
    ensures Advance(chain, num, from) == Ok(Advanced(next, last, skipped))
  {}

  /** saveKeys: the key of message num, the chain key behind it, and exactly the keys of the skipped numbers. */
  function Advance(chain: Key, num: nat, from: nat): Outcome<Advanced> {
    if num < from then Err(DuplicateOrDelayed)
    else if num - from > MAX_MISSING_MESSAGES then Err(MessageExceedsReorderingLimit)
    else Ok(Advanced(Chain(chain, num - from + 1), MessageKeyOf(Chain(chain, num - from)), SkippedKeys(chain, from, num)))
  }

  /** Skipped keys are stored under a new buffer holding a copy of the header key; nothing is stored if none were skipped. */
  function Merge(s: State, headerKey: Key, skipped: map<nat, Key>): State {
    if skipped == map[] then s
    else s.(saved := s.saved[s.buffers := SavedKeys(headerKey, skipped)], buffers := s.buffers + 1)
  }

  predicate HandedOut(saved: map<nat, SavedKeys>, buffers: nat) {
    forall id :: id in saved ==> id < buffers
  }

  predicate HasSaved(s: State, ct: Ciphertext, id: nat) {
    id in s.saved && ct.HeaderOpens(s.saved[id].headerKey)
  }

  /** The map is iterated in an arbitrary order, and the search stops at the first entry whose header key opens the
      header: any such entry may be the one found. */
  predicate Found(s: State, ct: Ciphertext, pick: Option<nat>) {
    match pick
    case Some(id) => HasSaved(s, ct, id)
    case None => forall id :: id in s.saved ==> !HasSaved(s, ct, id)
  }

  function DropSaved(s: State, id: nat, num: nat): State
    requires id in s.saved
  {
    var keys := s.saved[id].keys - {num};
    if keys == map[] then s.(saved := s.saved - {id})
    else s.(saved := s.saved[id := s.saved[id].(keys := keys)])
  }

  /** A message under the current receiving header key. */
  function DecryptCurrent(s: State, ct: Ciphertext): (State, Outcome<Plaintext>)
    requires ct.Sealed?
  {
    var a := Advance(s.recvChainKey, ct.header.num, s.recvCount);
    if a.Err? then (s, Err(a.error))
    else if !ct.BodyOpens(a.value.messageKey) then (s, Err(CorruptMessage))
    else
      (Merge(s.(recvChainKey := a.value.chainKey, recvCount := ct.header.num + 1), s.recvHeaderKey, a.value.skipped),
       Ok(ct.body))
  }

  /** A message under the next receiving header key: the other side has taken a ratchet step. */
  function DecryptNext(s: State, ct: Ciphertext): (State, Outcome<Plaintext>)
    requires ct.Sealed?
  {
    var behind := Advance(s.recvChainKey, ct.header.prev, s.recvCount);
    if behind.Err? then (s, Err(behind.error))
    else if !ct.header.public.pqValid then (s, Err(InvalidPQPublicKey))
    else
      var h := RootUpdate(s.rootKey, s.sendRatchetPrivate, ct.header.public);
      var s1 := s.(rootKey := Hmac(h, RootKey));       // overwritten before the remaining checks
      var a := Advance(Hmac(h, ChainKey), ct.header.num, 0);
      if a.Err? then (s1, Err(a.error))
      else if !ct.BodyOpens(a.value.messageKey) then (s1, Err(CorruptMessage))
      else
        var s2 := s1.(recvChainKey := a.value.chainKey, recvHeaderKey := s.nextRecvHeaderKey,
                      nextRecvHeaderKey := Hmac(h, HeaderKey), sendRatchetPrivate := WIPED,
                      recvRatchetPublic := ct.header.public, recvCount := ct.header.num + 1, ratchet := true);
        (Merge(Merge(s2, s.recvHeaderKey, behind.value.skipped), s.nextRecvHeaderKey, a.value.skipped), Ok(ct.body))
  }

  function DecryptFresh(s: State, ct: Ciphertext): (State, Outcome<Plaintext>)
    requires ct.Sealed?
  {
    if ct.HeaderOpens(s.recvHeaderKey) && s.recvHeaderKey != Zero then DecryptCurrent(s, ct)
    else if !ct.HeaderOpens(s.nextRecvHeaderKey) then (s, Err(CannotDecrypt))
    else if s.ratchet then (s, Err(NextEncryptedMessageWithoutRatchetFlag))
    else DecryptNext(s, ct)
  }

  /** Decrypt, when the search of the saved keys ends at pick. An empty plaintext found there counts as nothing found. */
  function Decrypted(s: State, ct: Ciphertext, pick: Option<nat>): (State, Outcome<Plaintext>)
    requires Found(s, ct, pick)
  {
    if ct.TooShort? then (s, Err(RatchetHeaderTooSmall))
    else if pick.None? || ct.header.num !in s.saved[pick.value].keys then DecryptFresh(s, ct)
    else if !ct.BodyOpens(s.saved[pick.value].keys[ct.header.num]) then (s, Err(CorruptMessage))
    else
      var s' := DropSaved(s, pick.value, ct.header.num);
      if ct.body != "" then (s', Ok(ct.body)) else DecryptFresh(s', ct)
  }

  // ---------------------------------------------------------------- the object

  const UINT32_MAX := 0xFFFF_FFFF

  class Ratchet {
    var rootKey: Key
    var sendHeaderKey: Key
    var recvHeaderKey: Key
    var nextSendHeaderKey: Key
    var nextRecvHeaderKey: Key
    var sendChainKey: Key
    var recvChainKey: Key
    var sendCount: nat
    var recvCount: nat
    var prevSendCount: nat
    var sendRatchetPrivate: Secret
    var recvRatchetPublic: Public
    var ratchet: bool
    var saved: map<nat, SavedKeys>
    var buffers: nat
    var kxPrivate: Option<(Secret, Secret)>

    function S(): State
      reads this
    {
      State(rootKey, sendHeaderKey, recvHeaderKey, nextSendHeaderKey, nextRecvHeaderKey, sendChainKey, recvChainKey,
            sendCount, recvCount, prevSendCount, sendRatchetPrivate, recvRatchetPublic, ratchet, saved, buffers)
    }

    /** Saved entries live in buffers that have been handed out, so a new buffer is never already a key of the map. */
    ghost predicate Valid()
      reads this
    {
      HandedOut(saved, buffers)
    }

    constructor (kx0: Secret, kx1: Secret)
      ensures S() == Fresh() && kxPrivate == Some((kx0, kx1)) && Valid()
    {
      rootKey, sendHeaderKey, recvHeaderKey, nextSendHeaderKey, nextRecvHeaderKey := Zero, Zero, Zero, Zero, Zero;
      sendChainKey, recvChainKey, sendCount, recvCount, prevSendCount := Zero, Zero, 0, 0, 0;
      sendRatchetPrivate, recvRatchetPublic, ratchet, saved, buffers := WIPED, NO_PUBLIC, false, map[], 0;
      kxPrivate := Some((kx0, kx1));
    }

    method CreateKeyExchange() returns (r: Outcome<KeyExchange>)
      ensures r == if kxPrivate.None? then Err(HandshakeAlreadyComplete)
                   else Ok(KeyExchange(PublicOf(kxPrivate.value.0), PublicOf(kxPrivate.value.1)))
    {
      if kxPrivate.None? {
        return Err(HandshakeAlreadyComplete);
      }
      return Ok(KeyExchange(PublicOf(kxPrivate.value.0), PublicOf(kxPrivate.value.1)));
    }

    method SetUpAsAlice(h: Key, theirs: Public)
      requires Valid()
      modifies this
      ensures Valid() && S() == AsAlice(old(S()), h, theirs) && kxPrivate == old(kxPrivate)
    {
      rootKey := Hmac(h, RootKey);
      recvHeaderKey := Hmac(h, HeaderKey);
      nextSendHeaderKey := Hmac(h, NextHeaderKey);
      nextRecvHeaderKey := Hmac(h, NextHeaderKey);
      recvChainKey := Hmac(h, ChainKey);
      recvRatchetPublic := theirs;
    }

    method SetUpAsBob(h: Key, mine: Secret)
      requires Valid()
      modifies this
      ensures Valid() && S() == AsBob(old(S()), h, mine) && kxPrivate == old(kxPrivate)
    {
      rootKey := Hmac(h, RootKey);
      sendHeaderKey := Hmac(h, HeaderKey);
      nextRecvHeaderKey := Hmac(h, NextHeaderKey);
      nextSendHeaderKey := Hmac(h, NextHeaderKey);
      sendChainKey := Hmac(h, ChainKey);
      sendRatchetPrivate := mine;
    }

    method CompleteKeyExchange(theirs: KeyExchange) returns (r: Outcome<()>)
      requires Valid()
      modifies this
      ensures Valid()
      ensures if old(kxPrivate).None? then r == Err(HandshakeAlreadyComplete) && S() == old(S())
              else (S(), r) == Complete(old(S()), old(kxPrivate.value.0), old(kxPrivate.value.1), theirs)
      ensures kxPrivate == if r.Ok? then None else old(kxPrivate)
    {
      hide HandedOut, AsAlice, AsBob;
      if kxPrivate.None? {
        return Err(HandshakeAlreadyComplete);
      }
      var kx0, kx1 := kxPrivate.value.0, kxPrivate.value.1;
      if kx0.ec == theirs.dh0.ec {
        return Err(EchoedDHValues);
      }
      var amAlice := kx0.ec < theirs.dh0.ec;
      if !theirs.dh0.pqValid {
        return Err(InvalidPQPublicKey);
      }
      var h := Exchanged(Agree(kx0.ec, theirs.dh0.ec), Agree(kx0.pq, theirs.dh0.pq));
      if amAlice {
        SetUpAsAlice(h, theirs.dh1);
        if !theirs.dh1.pqValid {
          return Err(InvalidPQPublicKey);
        }
      } else {
        SetUpAsBob(h, kx1);
      }
      ratchet := amAlice;
      kxPrivate := None;
      return Ok(());
    }

    /** Encrypt; `drawn` are the ratchet keys drawn if a ratchet step is due. */
    method Encrypt(drawn: Secret, nonce: nat, msg: Plaintext) returns (ct: Ciphertext)
      requires Valid() && (!ratchet ==> sendCount < UINT32_MAX)
      modifies this
      ensures Valid() && (S(), ct) == Encrypted(old(S()), drawn, nonce, msg)
      ensures kxPrivate == old(kxPrivate)
    {
      if ratchet {
        sendRatchetPrivate := drawn;
        sendHeaderKey := nextSendHeaderKey;
        var keyMaterial := RootUpdate(rootKey, sendRatchetPrivate, recvRatchetPublic);
        rootKey := Hmac(keyMaterial, RootKey);
        nextSendHeaderKey := Hmac(keyMaterial, HeaderKey);
        sendChainKey := Hmac(keyMaterial, ChainKey);
        prevSendCount, sendCount := sendCount, 0;
        ratchet := false;
      }
      var messageKey := MessageKeyOf(sendChainKey);
      sendChainKey := Step(sendChainKey);
      var header := Header(sendCount, prevSendCount, PublicOf(sendRatchetPrivate), nonce);
      ct := Sealed(sendHeaderKey, header, messageKey, nonce, msg);
      sendCount := sendCount + 1;
    }

    /** trySavedKeys: Some(r) if it settles the matter, None if the message is to be tried afresh. */
    method TrySavedKeys(ct: Ciphertext) returns (settled: Option<Outcome<Plaintext>>, ghost pick: Option<nat>)
      requires Valid()
      modifies this
      ensures Valid() && kxPrivate == old(kxPrivate)
      ensures Found(old(S()), ct, pick)
      ensures settled.Some? ==> (S(), settled.value) == Decrypted(old(S()), ct, pick)
      ensures settled.None? ==> ct.Sealed? && DecryptFresh(S(), ct) == Decrypted(old(S()), ct, pick)
    {
      pick := None;
      if ct.TooShort? {
        return Some(Err(RatchetHeaderTooSmall)), pick;
      }
      var ids := saved.Keys;
      while ids != {}
        invariant ids <= saved.Keys && S() == old(S()) && kxPrivate == old(kxPrivate)
        invariant forall id :: id in saved && id !in ids ==> !HasSaved(S(), ct, id)
        decreases ids
      {
        var id :| id in ids;
        ids := ids - {id};
        var entry := saved[id];
        if !ct.HeaderOpens(entry.headerKey) {
          continue;
        }
        pick := Some(id);
        var msgNum := ct.header.num;
        if msgNum !in entry.keys {
          return None, pick;
        }
        if !ct.BodyOpens(entry.keys[msgNum]) {
          return Some(Err(CorruptMessage)), pick;
        }
        var messageKeys := entry.keys - {msgNum};
        if messageKeys == map[] {
          saved := saved - {id};
        } else {
          saved := saved[id := entry.(keys := messageKeys)];
        }
        if ct.body != "" {
          return Some(Ok(ct.body)), pick;
        }
        return None, pick;  // Open returns nil for an empty plaintext
      }
      return None, pick;
    }

    /** saveKeys. */
    method SaveKeys(chainKey: Key, messageNum: nat, receivedCount: nat) returns (r: Outcome<Advanced>)
      requires messageNum < UINT32_MAX
      ensures r == Advance(chainKey, messageNum, receivedCount)
    {
      if messageNum < receivedCount {
        return Err(DuplicateOrDelayed);
      }
      if messageNum - receivedCount > MAX_MISSING_MESSAGES {
        return Err(MessageExceedsReorderingLimit);
      }
      hide DerivedTo, Advance, Chain, SkippedKeys, MessageKeyOf, Step;
      DerivedNone(chainKey, receivedCount, messageNum);
      var provisionalChainKey := chainKey;
      var messageKey := Zero;
      var messageKeys: map<nat, Key> := map[];
      for n := receivedCount to messageNum + 1
        invariant DerivedTo(chainKey, receivedCount, messageNum, n, provisionalChainKey, messageKey, messageKeys)
      {
        DerivedOne(chainKey, receivedCount, messageNum, n, provisionalChainKey, messageKey, messageKeys);
        messageKey := MessageKeyOf(provisionalChainKey);
        provisionalChainKey := Step(provisionalChainKey);
        if n < messageNum {
          messageKeys := messageKeys[n := messageKey];
        }
      }
      DerivedAll(chainKey, receivedCount, messageNum, provisionalChainKey, messageKey, messageKeys);
      return Ok(Advanced(provisionalChainKey, messageKey, messageKeys));
    }

    /** mergeSavedKeys: the header key of the new keys sits in a new buffer, so the map cannot hold it yet. */
    method MergeSavedKeys(headerKey: Key, skipped: map<nat, Key>)
      requires Valid()
      modifies this
      ensures Valid() && S() == Merge(old(S()), headerKey, skipped) && kxPrivate == old(kxPrivate)
    {
      if skipped != map[] {
        var hkey := buffers;
        buffers := buffers + 1;
        assert hkey !in saved;
        saved := saved[hkey := SavedKeys(headerKey, skipped)];
      }
    }

    /** The first half of Decrypt's work on a fresh message: the current receiving chain. */
    method DecryptOnCurrentChain(ct: Ciphertext) returns (r: Outcome<Plaintext>)
      requires Valid() && ct.Sealed? && ct.header.num < UINT32_MAX
      modifies this
      ensures Valid() && (S(), r) == DecryptCurrent(old(S()), ct) && kxPrivate == old(kxPrivate)
    {
      hide HandedOut, Advance, Merge;
      var a := SaveKeys(recvChainKey, ct.header.num, recvCount);
      if a.Err? {
        return Err(a.error);
      }
      if !ct.BodyOpens(a.value.messageKey) {
        return Err(CorruptMessage);
      }
      recvChainKey := a.value.chainKey;
      recvCount := ct.header.num + 1;
      MergeSavedKeys(recvHeaderKey, a.value.skipped);
      return Ok(ct.body);
    }

    /** The second half: the other side has taken a ratchet step. */
    method DecryptOnNextChain(ct: Ciphertext) returns (r: Outcome<Plaintext>)
      requires Valid() && ct.Sealed? && ct.header.num < UINT32_MAX && ct.header.prev < UINT32_MAX
      modifies this
      ensures Valid() && (S(), r) == DecryptNext(old(S()), ct) && kxPrivate == old(kxPrivate)
    {
      hide HandedOut, Advance, Merge;
      var behind := SaveKeys(recvChainKey, ct.header.prev, recvCount);
      if behind.Err? {
        return Err(behind.error);
      }
      if !ct.header.public.pqValid {
        return Err(InvalidPQPublicKey);
      }
      var keyMaterial := RootUpdate(rootKey, sendRatchetPrivate, ct.header.public);
      rootKey := Hmac(keyMaterial, RootKey);
      var chainKey := Hmac(keyMaterial, ChainKey);
      var a := SaveKeys(chainKey, ct.header.num, 0);
      if a.Err? {
        return Err(a.error);
      }
      if !ct.BodyOpens(a.value.messageKey) {
        return Err(CorruptMessage);
      }
      var oldHeaderKey, newHeaderKey := recvHeaderKey, nextRecvHeaderKey;
      recvChainKey := a.value.chainKey;
      recvHeaderKey := newHeaderKey;
      nextRecvHeaderKey := Hmac(keyMaterial, HeaderKey);
      sendRatchetPrivate := WIPED;
      recvRatchetPublic := ct.header.public;
      recvCount := ct.header.num + 1;
      ratchet := true;
      MergeSavedKeys(oldHeaderKey, behind.value.skipped);
      MergeSavedKeys(newHeaderKey, a.value.skipped);
      return Ok(ct.body);
    }

    method Decrypt(ct: Ciphertext) returns (r: Outcome<Plaintext>, ghost pick: Option<nat>)
      requires Valid() && (ct.Sealed? ==> ct.header.num < UINT32_MAX && ct.header.prev < UINT32_MAX)
      modifies this
      ensures Valid() && Found(old(S()), ct, pick) && (S(), r) == Decrypted(old(S()), ct, pick)
      ensures kxPrivate == old(kxPrivate)
    {
      hide HandedOut, Found, Decrypted, DecryptCurrent, DecryptNext;
      var settled;
      settled, pick := TrySavedKeys(ct);
      if settled.Some? {
        return settled.value, pick;
      }
      if ct.HeaderOpens(recvHeaderKey) && recvHeaderKey != Zero {
        r := DecryptOnCurrentChain(ct);
      } else if !ct.HeaderOpens(nextRecvHeaderKey) {
        r := Err(CannotDecrypt);
      } else if ratchet {
        r := Err(NextEncryptedMessageWithoutRatchetFlag);
      } else {
        r := DecryptOnNextChain(ct);
      }
    }
  }
}
