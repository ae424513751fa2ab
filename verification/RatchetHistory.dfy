/** What two honest sides of a ratchet have drawn and sent, and the keys that follow from it.
    Epoch t is the t-th sending turn: even epochs are Bob's, odd epochs are Alice's. */
module RatchetHistory {
  import opened RatchetTerms
  import opened DoubleRatchet
  import opened RatchetReplay

  datatype Letter = Letter(nonce: nat, body: Plaintext)

  /** privs[t] is the ratchet key that opens epoch t, sent[t] are the messages of epoch t. */
  datatype History = History(exchange: Key, privs: seq<Secret>, sent: seq<seq<Letter>>)
  {
    ghost predicate Shaped() {
      && exchange.Exchanged?
      && |privs| == |sent| >= 1
    }

    /** The HMAC key of epoch t. */
    function Material(t: nat): Key
      requires t < |privs|
    {
      if t == 0 then exchange else RootUpdate(Hmac(Material(t - 1), RootKey), privs[t], PublicOf(privs[t - 1]))
    }

    function Root(t: nat): Key
      requires t < |privs|
    {
      Hmac(Material(t), RootKey)
    }

    /** The header key of epoch t is fixed two epochs earlier; the first exchange fixes those of epochs 0, 1 and 2. */
    function HeaderKeyAt(t: nat): Key
      requires t < |privs| + 2
    {
      if t == 0 then Hmac(exchange, HeaderKey)
      else if t <= 2 then Hmac(exchange, NextHeaderKey)
      else Hmac(Material(t - 2), HeaderKey)
    }

    function ChainAt(t: nat, n: nat): Key
      requires t < |privs|
    {
      Chain(Hmac(Material(t), ChainKey), n)
    }

    function MessageKeyAt(t: nat, n: nat): Key
      requires t < |privs|
    {
      MessageKeyOf(ChainAt(t, n))
    }

    /** The number of messages the sender of epoch t sent in its previous turn. */
    function Prev(t: nat): nat
      requires t < |sent|
    {
      if t < 2 then 0 else |sent[t - 2]|
    }

    /** The n-th message of epoch t, as it went over the wire. */
    function Wire(t: nat, n: nat): (ct: Ciphertext)
      requires Shaped() && t < |sent| && n < |sent[t]|
    {
      Sealed(HeaderKeyAt(t), Header(n, Prev(t), PublicOf(privs[t]), sent[t][n].nonce),
             MessageKeyAt(t, n), sent[t][n].nonce, sent[t][n].body)
    }

    function Append(t: nat, letter: Letter): History
      requires t < |sent|
    {
      this.(sent := sent[t := sent[t] + [letter]])
    }

    function Open(drawn: Secret, letter: Letter): History {
      this.(privs := privs + [drawn], sent := sent + [[letter]])
    }
  }

  lemma {:induction false} MaterialDepth(h: History, t: nat)
    requires h.Shaped() && t < |h.privs|
    ensures Depth(h.Material(t)) == t
  {
    if t > 0 {
      MaterialDepth(h, t - 1);
    }
  }

  /** Within one direction, every epoch has its own header key. */
  lemma HeaderKeyInjective(h: History, t: nat, t': nat)
    requires h.Shaped() && t < |h.privs| + 2 && t' < |h.privs| + 2 && t % 2 == t' % 2
    requires h.HeaderKeyAt(t) == h.HeaderKeyAt(t')
    ensures t == t'
  {
    hide History.Material;
    if t > 2 {
      MaterialDepth(h, t - 2);
    }
    if t' > 2 {
      MaterialDepth(h, t' - 2);
    }
  }

  /** The receiver of an epoch derives, from its own key and the public key in the header, the sender's material. */
  lemma MaterialShared(h: History, t: nat)
    requires 1 <= t < |h.privs|
    ensures RootUpdate(h.Root(t - 1), h.privs[t - 1], PublicOf(h.privs[t])) == h.Material(t)
  {
    AgreeCommutes(h.privs[t - 1].ec, h.privs[t].ec);
    AgreeCommutes(h.privs[t - 1].pq, h.privs[t].pq);
  }

  /** h' continues h. */
  ghost predicate Extends(h: History, h': History) {
    && h.Shaped() && h'.Shaped()
    && h'.exchange == h.exchange
    && h.privs <= h'.privs
    && forall t :: 0 <= t < |h.sent| ==> h.sent[t] <= h'.sent[t]
  }

  lemma {:induction false} MaterialStable(h: History, h': History, t: nat)
    requires Extends(h, h') && t < |h.privs|
    ensures h'.Material(t) == h.Material(t)
  {
    if t > 0 {
      MaterialStable(h, h', t - 1);
    }
  }

  lemma KeysStable(h: History, h': History)
    requires Extends(h, h')
    ensures forall t :: 0 <= t < |h.privs| ==> h'.Root(t) == h.Root(t)
    ensures forall t :: 0 <= t < |h.privs| + 2 ==> h'.HeaderKeyAt(t) == h.HeaderKeyAt(t)
    ensures forall t, n: nat :: 0 <= t < |h.privs| ==> h'.ChainAt(t, n) == h.ChainAt(t, n)
    ensures forall t, n: nat :: 0 <= t < |h.privs| ==> h'.MessageKeyAt(t, n) == h.MessageKeyAt(t, n)
  {
    hide History.Material;
    forall t | 0 <= t < |h.privs| ensures h'.Material(t) == h.Material(t) {
      MaterialStable(h, h', t);
    }
  }

  lemma AppendExtends(h: History, t: nat, letter: Letter)
    requires h.Shaped() && t < |h.sent|
    ensures Extends(h, h.Append(t, letter))
  {}

  lemma OpenExtends(h: History, drawn: Secret, letter: Letter)
    requires h.Shaped()
    ensures Extends(h, h.Open(drawn, letter))
  {}

  /** The chain position after n - m more steps. */
  lemma ChainFrom(h: History, t: nat, m: nat, n: nat)
    requires t < |h.privs|
    ensures Chain(h.ChainAt(t, m), n) == h.ChainAt(t, m + n)
  {
    ChainAdds(Hmac(h.Material(t), ChainKey), m, n);
  }
}
