/** No message key is ever used twice by a receiver, whatever it is sent and in whatever order its saved keys are searched. */
module RatchetReplay {
  import opened RatchetTerms
  import opened DoubleRatchet
  import opened Wrappers

  /** How many root updates a key depends on. */
  function Depth(k: Key): nat {
    match k
    case Zero => 0
    case Exchanged(_, _) => 0
    case Updated(root, _, _) => 1 + Depth(root)
    case Hmac(key, _) => Depth(key)
  }

  /** The key a chain started from, and the number of steps taken since. */
  function Base(k: Key): Key {
    if k.Hmac? && k.purpose == ChainStep then Base(k.key) else k
  }

  function Steps(k: Key): nat {
    if k.Hmac? && k.purpose == ChainStep then Steps(k.key) + 1 else 0
  }

  lemma {:induction false} ChainPosition(c: Key, n: nat)
    ensures Base(Chain(c, n)) == Base(c) && Steps(Chain(c, n)) == Steps(c) + n && Depth(Chain(c, n)) == Depth(c)
  {
    if n > 0 {
      ChainPosition(c, n - 1);
    }
  }

  lemma {:induction false} BaseDepth(k: Key)
    ensures Depth(Base(k)) == Depth(k)
  {
    if k.Hmac? && k.purpose == ChainStep {
      BaseDepth(k.key);
    }
  }

  /** k is a message key of an abandoned chain, or lies behind the receiving chain's present position. */
  ghost predicate Behind(k: Key, root: Key, chain: Key) {
    && k.Hmac? && k.purpose == MessageKey
    && Depth(k) <= Depth(root)
    && (Base(k.key) == Base(chain) ==> Steps(k.key) < Steps(chain))
  }

  ghost predicate IsSaved(saved: map<nat, SavedKeys>, id: nat, n: nat) {
    id in saved && n in saved[id].keys
  }

  ghost function SavedKey(saved: map<nat, SavedKeys>, id: nat, n: nat): Key
    requires IsSaved(saved, id, n)
  {
    saved[id].keys[n]
  }

  /** Spent and saved message keys are all different and all behind the receiving chain. */
  ghost predicate Inv(s: State, spent: set<Key>) {
    && HandedOut(s.saved, s.buffers)
    && Depth(s.recvChainKey) <= Depth(s.rootKey)
    && (forall k :: k in spent ==> Behind(k, s.rootKey, s.recvChainKey))
    && (forall id, n :: IsSaved(s.saved, id, n) ==>
          Behind(SavedKey(s.saved, id, n), s.rootKey, s.recvChainKey) && SavedKey(s.saved, id, n) !in spent)
    && (forall id, n, id', n' ::
          IsSaved(s.saved, id, n) && IsSaved(s.saved, id', n') && SavedKey(s.saved, id, n) == SavedKey(s.saved, id', n') ==>
            id == id' && n == n')
  }

  lemma InitInv(s: State)
    requires s.saved == map[] && Depth(s.recvChainKey) <= Depth(s.rootKey)
    ensures Inv(s, {})
  {}

  /** Keys that may be added to the saved ones. */
  ghost predicate Addable(s: State, spent: set<Key>, m: map<nat, Key>) {
    && (forall n :: n in m ==> Behind(m[n], s.rootKey, s.recvChainKey) && m[n] !in spent)
    && (forall n, n' :: n in m && n' in m && m[n] == m[n'] ==> n == n')
    && (forall n, id, n' :: n in m && IsSaved(s.saved, id, n') ==> m[n] != SavedKey(s.saved, id, n'))
  }

  lemma MergeInv(s: State, spent: set<Key>, headerKey: Key, m: map<nat, Key>)
    requires Inv(s, spent) && Addable(s, spent, m)
    ensures Inv(Merge(s, headerKey, m), spent)
  {
    hide Behind;
    var s' := Merge(s, headerKey, m);
    if m != map[] {
      assert forall id, n :: IsSaved(s'.saved, id, n) ==>
                               if id == s.buffers then n in m && SavedKey(s'.saved, id, n) == m[n]
                               else IsSaved(s.saved, id, n) && SavedKey(s'.saved, id, n) == SavedKey(s.saved, id, n);
    }
  }

  /** The keys skipped on a chain sit at consecutive positions of it. */
  lemma SkippedPositions(c: Key, from: nat, num: nat, n: nat)
    requires from <= n < num
    ensures var k := SkippedKeys(c, from, num)[n];
            k.Hmac? && k.purpose == MessageKey && Base(k.key) == Base(c) && Steps(k.key) == Steps(c) + (n - from)
                && Depth(k) == Depth(c)
  {
    ChainPosition(c, n - from);
  }

  lemma DropInv(s: State, spent: set<Key>, id: nat, n: nat)
    requires Inv(s, spent) && IsSaved(s.saved, id, n)
    ensures Inv(DropSaved(s, id, n), spent + {SavedKey(s.saved, id, n)})
  {
    hide Behind;
    var s' := DropSaved(s, id, n);
    assert forall i, m :: IsSaved(s'.saved, i, m) ==>
                            && IsSaved(s.saved, i, m) && SavedKey(s'.saved, i, m) == SavedKey(s.saved, i, m)
                            && (i != id || m != n);
  }

  /** The root key and the receiving chain only move so that what was behind stays behind. */
  ghost predicate Moves(root: Key, chain: Key, root': Key, chain': Key) {
    && Depth(chain') <= Depth(root')
    && forall k :: Behind(k, root, chain) ==> Behind(k, root', chain')
  }

  lemma ChainMoves(root: Key, chain: Key, n: nat)
    requires Depth(chain) <= Depth(root)
    ensures Moves(root, chain, root, Chain(chain, n))
  {
    ChainPosition(chain, n);
  }

  /** A chain that starts from a deeper key abandons everything before it. */
  lemma NewChainMoves(root: Key, chain: Key, root': Key, chain': Key, n: nat)
    requires Depth(root) < Depth(chain') <= Depth(root')
    ensures Moves(root, chain, root', Chain(chain', n))
  {
    ChainPosition(chain', n);
    BaseDepth(chain');
    forall k | Behind(k, root, chain) ensures Behind(k, root', Chain(chain', n)) {
      BaseDepth(k.key);
    }
  }

  lemma MoveInv(s: State, spent: set<Key>, s': State)
    requires Inv(s, spent) && Moves(s.rootKey, s.recvChainKey, s'.rootKey, s'.recvChainKey)
    requires s'.saved == s.saved && s'.buffers == s.buffers
    ensures Inv(s', spent)
  {
    hide Behind;
  }

  lemma SpendInv(s: State, spent: set<Key>, k: Key)
    requires Inv(s, spent) && Behind(k, s.rootKey, s.recvChainKey)
    requires forall id, n :: IsSaved(s.saved, id, n) ==> SavedKey(s.saved, id, n) != k
    ensures Inv(s, spent + {k})
  {
    hide Behind;
  }

  /** Keys at or beyond the chain's position are neither spent nor saved. */
  lemma AheadIsNew(s: State, spent: set<Key>, k: Key)
    requires Inv(s, spent) && !Behind(k, s.rootKey, s.recvChainKey)
    ensures k !in spent
    ensures forall id, n :: IsSaved(s.saved, id, n) ==> SavedKey(s.saved, id, n) != k
  {
    hide Behind;
  }

  /** k is one of the next len message keys of chain c. */
  ghost predicate InRange(k: Key, c: Key, len: nat) {
    k.Hmac? && k.purpose == MessageKey && Base(k.key) == Base(c) && Steps(c) <= Steps(k.key) < Steps(c) + len
  }

  /** None of them has been spent or saved. */
  ghost predicate Clear(s: State, spent: set<Key>, c: Key, len: nat) {
    && (forall k :: k in spent ==> !InRange(k, c, len))
    && (forall id, n :: IsSaved(s.saved, id, n) ==> !InRange(SavedKey(s.saved, id, n), c, len))
  }

  /** The keys skipped on chain c may be saved once the receiving chain has moved past them. */
  lemma SkippedAddable(s: State, spent: set<Key>, c: Key, from: nat, num: nat)
    requires from <= num && Inv(s, spent) && Clear(s, spent, c, num - from)
    requires Depth(c) <= Depth(s.rootKey)
    requires Base(c) == Base(s.recvChainKey) ==> Steps(c) + (num - from) <= Steps(s.recvChainKey)
    ensures Addable(s, spent, SkippedKeys(c, from, num))
  {
    var m := SkippedKeys(c, from, num);
    forall n | n in m
      ensures InRange(m[n], c, num - from) && Steps(m[n].key) == Steps(c) + (n - from)
      ensures Behind(m[n], s.rootKey, s.recvChainKey)
    {
      SkippedPositions(c, from, num, n);
    }
  }

  lemma NextMessageKey(c: Key, n: nat)
    ensures var k := MessageKeyOf(Chain(c, n));
            k.Hmac? && k.purpose == MessageKey && Base(k.key) == Base(c) && Steps(k.key) == Steps(c) + n && Depth(k) == Depth(c)
  {
    ChainPosition(c, n);
  }

  lemma BehindIsClear(s: State, spent: set<Key>, c: Key, len: nat)
    requires Inv(s, spent)
    requires c == s.recvChainKey || Depth(c) > Depth(s.rootKey)
    ensures Clear(s, spent, c, len)
  {
    forall k | Behind(k, s.rootKey, s.recvChainKey) ensures !InRange(k, c, len) {
      BaseDepth(c);
      BaseDepth(k.key);
    }
  }

  lemma CurrentAccepts(s: State, spent: set<Key>, ct: Ciphertext)
    requires Inv(s, spent) && ct.Sealed? && DecryptCurrent(s, ct).1.Ok?
    ensures ct.bodyKey !in spent
    ensures Inv(DecryptCurrent(s, ct).0, spent + {ct.bodyKey})
  {
    hide Inv, Addable, Clear, Moves;
    var c, from, num := s.recvChainKey, s.recvCount, ct.header.num;
    var s1 := s.(recvChainKey := Chain(c, num - from + 1), recvCount := num + 1);
    NextMessageKey(c, num - from);
    AheadIsNew(s, spent, ct.bodyKey);
    assert Depth(c) <= Depth(s.rootKey) by { InvDepth(s, spent); }
    ChainMoves(s.rootKey, c, num - from + 1);
    ChainPosition(c, num - from + 1);
    MoveInv(s, spent, s1);
    SpendInv(s1, spent, ct.bodyKey);
    BehindIsClear(s, spent, c, num - from);
    ClearAfter(s, s1, spent, ct.bodyKey, c, num - from);
    SkippedAddable(s1, spent + {ct.bodyKey}, c, from, num);
    MergeInv(s1, spent + {ct.bodyKey}, s.recvHeaderKey, SkippedKeys(c, from, num));
  }

  lemma InvDepth(s: State, spent: set<Key>)
    requires Inv(s, spent)
    ensures Depth(s.recvChainKey) <= Depth(s.rootKey)
  {}

  lemma ClearAfter(s: State, s': State, spent: set<Key>, k: Key, c: Key, len: nat)
    requires Clear(s, spent, c, len) && s'.saved == s.saved && !InRange(k, c, len)
    ensures Clear(s', spent + {k}, c, len)
  {}

  /** A ratchet step taken by the other side: both the keys it leaves behind and the keys of the new chain are new. */
  lemma NextAccepts(s: State, spent: set<Key>, ct: Ciphertext)
    requires Inv(s, spent) && ct.Sealed? && DecryptNext(s, ct).1.Ok?
    ensures ct.bodyKey !in spent
    ensures Inv(DecryptNext(s, ct).0, spent + {ct.bodyKey})
  {
    hide Inv, Addable, Clear, Moves;
    var h := RootUpdate(s.rootKey, s.sendRatchetPrivate, ct.header.public);
    var c, num := Hmac(h, ChainKey), ct.header.num;
    var spent' := spent + {ct.bodyKey};
    var s2 := s.(rootKey := Hmac(h, RootKey), recvChainKey := Chain(c, num + 1), recvHeaderKey := s.nextRecvHeaderKey,
                 nextRecvHeaderKey := Hmac(h, HeaderKey), sendRatchetPrivate := WIPED,
                 recvRatchetPublic := ct.header.public, recvCount := num + 1, ratchet := true);
    var left := SkippedKeys(s.recvChainKey, s.recvCount, ct.header.prev);
    var s3 := Merge(s2, s.recvHeaderKey, left);
    InvDepth(s, spent);
    NextMessageKey(c, num);
    AheadIsNew(s, spent, ct.bodyKey);
    NewChainMoves(s.rootKey, s.recvChainKey, s2.rootKey, c, num + 1);
    MoveInv(s, spent, s2);
    ChainPosition(c, num + 1);
    SpendInv(s2, spent, ct.bodyKey);
    LeftAddable(s, s2, spent, ct.bodyKey, ct.header.prev);
    MergeInv(s2, spent', s.recvHeaderKey, left);
    BehindIsClear(s, spent, c, num);
    ClearAfter(s, s2, spent, ct.bodyKey, c, num);
    ShallowOutOfRange(s.recvChainKey, s.recvCount, ct.header.prev, c, num);
    ClearMerged(s2, spent', s.recvHeaderKey, left, c, num);
    SkippedAddable(s3, spent', c, 0, num);
    MergeInv(s3, spent', s.nextRecvHeaderKey, SkippedKeys(c, 0, num));
  }

  /** The keys still missing from the abandoned chain may be saved after the move to a deeper one. */
  lemma LeftAddable(s: State, s': State, spent: set<Key>, k: Key, prev: nat)
    requires Inv(s, spent) && Inv(s', spent + {k}) && s'.saved == s.saved && s.recvCount <= prev
    requires Depth(s.rootKey) < Depth(s'.recvChainKey) <= Depth(s'.rootKey) && Depth(k) > Depth(s.rootKey)
    ensures Addable(s', spent + {k}, SkippedKeys(s.recvChainKey, s.recvCount, prev))
  {
    hide Inv, Addable, Clear;
    var c, len := s.recvChainKey, prev - s.recvCount;
    InvDepth(s, spent);
    BaseDepth(c);
    BaseDepth(s'.recvChainKey);
    BehindIsClear(s, spent, c, len);
    if InRange(k, c, len) {
      BaseDepth(k.key);
    }
    ClearAfter(s, s', spent, k, c, len);
    SkippedAddable(s', spent + {k}, c, s.recvCount, prev);
  }

  lemma ClearMerged(s: State, spent: set<Key>, headerKey: Key, m: map<nat, Key>, c: Key, len: nat)
    requires Clear(s, spent, c, len) && forall n :: n in m ==> !InRange(m[n], c, len)
    ensures Clear(Merge(s, headerKey, m), spent, c, len)
  {
    hide InRange;
    var s' := Merge(s, headerKey, m);
    forall id, n | IsSaved(s'.saved, id, n) ensures !InRange(SavedKey(s'.saved, id, n), c, len) {
      if m != map[] && id == s.buffers {
        assert SavedKey(s'.saved, id, n) == m[n];
      } else {
        assert IsSaved(s.saved, id, n) && SavedKey(s'.saved, id, n) == SavedKey(s.saved, id, n);
      }
    }
  }

  lemma ShallowOutOfRange(shallow: Key, from: nat, num: nat, c: Key, len: nat)
    requires Depth(shallow) < Depth(c)
    ensures var m := SkippedKeys(shallow, from, num); forall n :: n in m ==> !InRange(m[n], c, len)
  {
    var m := SkippedKeys(shallow, from, num);
    forall n | n in m ensures !InRange(m[n], c, len) {
      SkippedPositions(shallow, from, num, n);
      BaseDepth(shallow);
      BaseDepth(c);
    }
  }

  lemma RootMoveInv(s: State, spent: set<Key>, root: Key)
    requires Inv(s, spent) && Depth(s.rootKey) <= Depth(root)
    ensures Inv(s.(rootKey := root), spent)
  {
    MoveInv(s, spent, s.(rootKey := root));
  }

  /** A message tried afresh: if it is accepted its key was never used, and in any case the invariant survives. */
  lemma FreshInv(s: State, spent: set<Key>, ct: Ciphertext)
    requires Inv(s, spent) && ct.Sealed?
    ensures var (s', r) := DecryptFresh(s, ct);
            if r.Ok? then r.value == ct.body && ct.bodyKey !in spent && Inv(s', spent + {ct.bodyKey}) else Inv(s', spent)
  {
    hide Inv, Advance, Merge;
    if ct.HeaderOpens(s.recvHeaderKey) && s.recvHeaderKey != Zero {
      if DecryptCurrent(s, ct).1.Ok? {
        CurrentAccepts(s, spent, ct);
      }
    } else if ct.HeaderOpens(s.nextRecvHeaderKey) && !s.ratchet {
      if DecryptNext(s, ct).1.Ok? {
        NextAccepts(s, spent, ct);
      } else {
        RootMoveInv(s, spent, Hmac(RootUpdate(s.rootKey, s.sendRatchetPrivate, ct.header.public), RootKey));
      }
    }
  }

  /** One call of Decrypt, on any ciphertext: whatever it returns is that ciphertext's plaintext, decrypted with a message
      key that no earlier accepted message used. */
  lemma DecryptInv(s: State, spent: set<Key>, ct: Ciphertext, pick: Option<nat>) returns (spent': set<Key>)
    requires Inv(s, spent) && Found(s, ct, pick)
    ensures var (s', r) := Decrypted(s, ct, pick);
            && Inv(s', spent') && spent <= spent'
            && (r.Ok? ==> ct.Sealed? && r.value == ct.body && ct.bodyKey !in spent && ct.bodyKey in spent')
  {
    hide Inv, DecryptFresh, DropSaved;
    spent' := spent;
    if ct.Sealed? {
      if pick.Some? && ct.header.num in s.saved[pick.value].keys {
        if ct.BodyOpens(s.saved[pick.value].keys[ct.header.num]) {
          SavedIsUnspent(s, spent, pick.value, ct.header.num);
          DropInv(s, spent, pick.value, ct.header.num);
          spent' := spent + {ct.bodyKey};
          if ct.body == "" {
            FreshInv(DropSaved(s, pick.value, ct.header.num), spent', ct);
          }
        }
      } else {
        FreshInv(s, spent, ct);
        if DecryptFresh(s, ct).1.Ok? {
          spent' := spent + {ct.bodyKey};
        }
      }
    }
  }

  lemma SavedIsUnspent(s: State, spent: set<Key>, id: nat, n: nat)
    requires Inv(s, spent) && IsSaved(s.saved, id, n)
    ensures SavedKey(s.saved, id, n) !in spent
  {}

  lemma EncryptInv(s: State, spent: set<Key>, drawn: Secret, nonce: nat, msg: Plaintext)
    requires Inv(s, spent)
    ensures Inv(Encrypted(s, drawn, nonce, msg).0, spent)
  {
    var s' := Encrypted(s, drawn, nonce, msg).0;
    assert Moves(s.rootKey, s.recvChainKey, s'.rootKey, s'.recvChainKey);
    MoveInv(s, spent, s');
  }

  /** What may be asked of a ratchet. */
  datatype Call = Send(drawn: Secret, nonce: nat, msg: Plaintext) | Receive(ct: Ciphertext, pick: Option<nat>)

  ghost predicate Allowed(s: State, call: Call) { call.Receive? ==> Found(s, call.ct, call.pick) }

  ghost function Next(s: State, call: Call): State
    requires Allowed(s, call)
  {
    match call
    case Send(drawn, nonce, msg) => Encrypted(s, drawn, nonce, msg).0
    case Receive(ct, pick) => Decrypted(s, ct, pick).0
  }

  ghost predicate Accepts(s: State, call: Call)
    requires Allowed(s, call)
  {
    call.Receive? && Decrypted(s, call.ct, call.pick).1.Ok?
  }

  ghost predicate IsRun(s: State, calls: seq<Call>)
    decreases |calls|
  {
    calls == [] || (Allowed(s, calls[0]) && IsRun(Next(s, calls[0]), calls[1..]))
  }

  /** The ciphertexts a run accepts, in order. */
  ghost function Accepted(s: State, calls: seq<Call>): seq<Ciphertext>
    requires IsRun(s, calls)
    decreases |calls|
  {
    if calls == [] then []
    else (if Accepts(s, calls[0]) then [calls[0].ct] else []) + Accepted(Next(s, calls[0]), calls[1..])
  }

  /** All sealed, under message keys that are pairwise different and not among the spent ones. */
  ghost predicate KeysUnique(cts: seq<Ciphertext>, spent: set<Key>) {
    && (forall i :: 0 <= i < |cts| ==> cts[i].Sealed? && cts[i].bodyKey !in spent)
    && (forall i, j :: 0 <= i < j < |cts| ==> cts[i].bodyKey != cts[j].bodyKey)
  }

  lemma {:induction false} RunInv(s: State, spent: set<Key>, calls: seq<Call>)
    requires Inv(s, spent) && IsRun(s, calls)
    ensures KeysUnique(Accepted(s, calls), spent)
    decreases |calls|
  {
    hide Inv, Encrypted, Decrypted, Found;
    if calls != [] {
      var spent' := spent;
      match calls[0] {
        case Send(drawn, nonce, msg) => EncryptInv(s, spent, drawn, nonce, msg);
        case Receive(ct, pick) => spent' := DecryptInv(s, spent, ct, pick);
      }
      RunInv(Next(s, calls[0]), spent', calls[1..]);
    }
  }

  /** Over any run of calls on a ratchet that starts without saved keys, with any ciphertexts in any order and any choice
      among saved keys, no two accepted messages were sealed under the same message key: in particular, no message is
      accepted twice. */
  lemma NeverAcceptedTwice(s: State, calls: seq<Call>)
    requires s.saved == map[] && Depth(s.recvChainKey) <= Depth(s.rootKey) && IsRun(s, calls)
    ensures KeysUnique(Accepted(s, calls), {})
  {
    InitInv(s);
    RunInv(s, {}, calls);
  }

  /** A completed key exchange is such a start. */
  lemma ExchangeStartsRun(kx0: Secret, kx1: Secret, theirs: KeyExchange)
    ensures var s := Complete(Fresh(), kx0, kx1, theirs).0;
            s.saved == map[] && Depth(s.recvChainKey) <= Depth(s.rootKey)
  {}

  /** The message is tried afresh, its header opens only under the next header key, no ratchet step of ours is pending, and
      the message count and key in the header pass: from here on the root key is overwritten. */
  ghost predicate Overwrites(s: State, ct: Ciphertext, pick: Option<nat>)
    requires Found(s, ct, pick)
  {
    && ct.Sealed? && (pick.None? || ct.header.num !in s.saved[pick.value].keys)
    && !(ct.HeaderOpens(s.recvHeaderKey) && s.recvHeaderKey != Zero)
    && ct.HeaderOpens(s.nextRecvHeaderKey) && !s.ratchet
    && Advance(s.recvChainKey, ct.header.prev, s.recvCount).Ok? && ct.header.public.pqValid
  }

  /** An empty message opens under a saved key: the key is dropped, but the message is then tried afresh. */
  ghost predicate DropsEmpty(s: State, ct: Ciphertext, pick: Option<nat>)
    requires Found(s, ct, pick)
  {
    && ct.Sealed? && ct.body == "" && pick.Some? && ct.header.num in s.saved[pick.value].keys
    && ct.BodyOpens(s.saved[pick.value].keys[ct.header.num])
  }

  /** A failed Decrypt leaves the state alone exactly when it fails before the root key is overwritten and has not dropped the
      saved key of an empty message. */
  lemma FailureKeepsStateIff(s: State, ct: Ciphertext, pick: Option<nat>)
    requires Found(s, ct, pick) && Decrypted(s, ct, pick).1.Err?
    ensures Decrypted(s, ct, pick).0 == s <==> !Overwrites(s, ct, pick) && !DropsEmpty(s, ct, pick)
  {
    hide Merge;
    if Overwrites(s, ct, pick) {
      var h := RootUpdate(s.rootKey, s.sendRatchetPrivate, ct.header.public);
      assert Depth(Hmac(h, RootKey)) == Depth(s.rootKey) + 1;
    } else if DropsEmpty(s, ct, pick) {
      FailureKeepsSaved(DropSaved(s, pick.value, ct.header.num), ct);
      DroppedIsGone(s, pick.value, ct.header.num);
    }
  }

  /** A message that fails when tried afresh changes nothing but, perhaps, the root key. */
  lemma FailureKeepsSaved(s: State, ct: Ciphertext)
    requires ct.Sealed? && DecryptFresh(s, ct).1.Err?
    ensures DecryptFresh(s, ct).0.saved == s.saved
  {
    hide Merge;
  }

  lemma DroppedIsGone(s: State, id: nat, n: nat)
    requires IsSaved(s.saved, id, n)
    ensures DropSaved(s, id, n).saved != s.saved
  {
    assert !IsSaved(DropSaved(s, id, n).saved, id, n);
  }
}
