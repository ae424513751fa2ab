/** The PANDA key exchange of panda/crypto/panda.go: deriving the meeting places and the first message, making the second
    message from the peer's first, and reading the peer's bytes from its second. Random bytes and the replies of the
    meeting place are inputs. */
module PandaKx {
  import opened Octets
  import opened Wrappers

  const NONCE_LENGTH := 24
  const OVERHEAD := 16
  const KEY_LENGTH := 32

  /** argon2, rijndael, curve25519 and secretbox. */
  datatype Suite = Suite(kdf: (Blob, Blob) -> (Blob, Blob, Blob), encrypt: (Blob, Blob) -> Blob,
                         decrypt: (Blob, Blob) -> Blob, basePoint: Blob -> Blob, multiply: (Blob, Blob) -> Blob,
                         seal: (Blob, Blob, Blob) -> Blob, open: (Blob, Blob, Blob) -> Option<Blob>)
  {
    ghost predicate Laws() {
      && (forall a :: |basePoint(a)| == KEY_LENGTH)
      && (forall a, p :: |multiply(a, p)| == KEY_LENGTH)
      && (forall k, p | |p| == KEY_LENGTH :: |encrypt(k, p)| == KEY_LENGTH)
      && (forall k, p | |p| == KEY_LENGTH :: decrypt(k, encrypt(k, p)) == p)
      && (forall a, b :: multiply(a, basePoint(b)) == multiply(b, basePoint(a)))
      && (forall k, n, m :: |seal(k, n, m)| == |m| + OVERHEAD)
      && (forall k, n, m :: open(k, n, seal(k, n, m)) == Some(m))
    }
  }

  const ToySuite := Suite((s, r) => (Blank(32), Blank(32), [1] + Blank(31)), (k, p) => p, (k, p) => p, a => Blank(32),
                          (a, p) => Blank(32), (k, n, m) => m + Blank(OVERHEAD),
                          (k, n, c) => if |c| < OVERHEAD then None else Some(c[..|c| - OVERHEAD]))

  /** The laws can be met. */
  lemma LawsAreConsistent()
    ensures ToySuite.Laws()
  {}

  datatype Status = Init | Exchange1 | Exchange2

  datatype KeyExchange = KeyExchange(status: Status, sharedSecret: Blob, sharedRandom: Blob, kxBytes: Blob,
                                     dhPrivate: Blob, key: Blob, meeting1: Blob, meeting2: Blob,
                                     message1: Blob, message2: Blob, sharedKey: Blob)

  datatype Error = TooLarge | BadRandom | ReplyTooSmall | ZeroKey | NotAuthentic | Invalid | Truncated

  function New(padding: nat, secret: Blob, random: Blob, kxBytes: Blob, dhPrivate: Blob): Result<KeyExchange, Error> {
    if NONCE_LENGTH + 4 + |kxBytes| + OVERHEAD > padding then Failure(TooLarge)
    else if |random| != 32 then Failure(BadRandom)
    else Success(KeyExchange(Init, secret, random, kxBytes, dhPrivate, Blank(32), Blank(32), Blank(32), [], [], Blank(32)))
  }

  /** updateSerialised, read back: before the first exchange, nothing but the inputs is kept. */
  function Serialised(kx: KeyExchange): KeyExchange {
    if kx.status.Init?
    then kx.(dhPrivate := Blank(32), key := Blank(32), meeting1 := Blank(32), meeting2 := Blank(32), message1 := [],
             message2 := [], sharedKey := Blank(32))
    else kx
  }

  // ---------------------------------------------------------------- the length prefix

  function LittleEndian(n: nat): (b: Blob)
    ensures |b| == 4
  {
    [(n % 256) as Octet, (n / 256 % 256) as Octet, (n / 65536 % 256) as Octet, (n / 16777216 % 256) as Octet]
  }

  function Length(b: Blob): nat
    requires |b| == 4
  {
    b[0] as nat + 256 * b[1] as nat + 65536 * b[2] as nat + 16777216 * b[3] as nat
  }

  lemma LengthRoundTrip(n: nat)
    requires n < 0x1_0000_0000
    ensures Length(LittleEndian(n)) == n
  {
    Digits(n);
  }

  lemma Digits(n: nat)
    requires n < 0x1_0000_0000
    ensures n % 256 + 256 * (n / 256 % 256) + 65536 * (n / 65536 % 256) + 16777216 * (n / 16777216 % 256) == n
  {
    assert n == n % 256 + 256 * (n / 256) && n / 256 == n / 256 % 256 + 256 * (n / 65536);
    assert n / 65536 == n / 65536 % 256 + 256 * (n / 16777216);
  }

  // ---------------------------------------------------------------- the steps of the exchange

  /** derivePassword, with the random filler of the first message. */
  function Derived(c: Suite, kx: KeyExchange, filler: Blob): KeyExchange {
    var (key, meeting1, meeting2) := c.kdf(kx.sharedSecret, kx.sharedRandom);
    kx.(key := key, meeting1 := meeting1, meeting2 := meeting2,
        message1 := c.encrypt(key, c.basePoint(kx.dhPrivate)) + filler)
  }

  /** The plaintext of the second message. */
  function Padded(kxBytes: Blob, filler: Blob): Blob {
    LittleEndian(|kxBytes|) + kxBytes + filler
  }

  /** exchange1, given the reply. */
  function Met(c: Suite, kx: KeyExchange, reply: Blob, filler: Blob, nonce: Blob): Result<KeyExchange, Error> {
    if |reply| < KEY_LENGTH then Failure(ReplyTooSmall)
    else
      var sharedKey := c.multiply(kx.dhPrivate, c.decrypt(kx.key, reply[..KEY_LENGTH]));
      Success(kx.(sharedKey := sharedKey, message2 := nonce + c.seal(sharedKey, nonce, Padded(kx.kxBytes, filler))))
  }

  /** Whether the shared key looks unset. */
  predicate KeyIsZero(key: Blob) {
    |key| >= 2 && key[0] == 0 && key[1] == 0
  }

  function Unpadded(m: Blob): Result<Blob, Error> {
    if |m| < 4 then Failure(Invalid)
    else
      var l := Length(m[..4]);
      if l > |m| - 4 then Failure(Truncated) else Success(m[4..][..l])
  }

  /** exchange2, given the reply. */
  function Opened(c: Suite, kx: KeyExchange, reply: Blob): Result<Blob, Error> {
    if |reply| < NONCE_LENGTH then Failure(ReplyTooSmall)
    else if KeyIsZero(kx.sharedKey) then Failure(ZeroKey)
    else
      match c.open(kx.sharedKey, reply[..NONCE_LENGTH], reply[NONCE_LENGTH..])
      case None => Failure(NotAuthentic)
      case Some(m) => Unpadded(m)
  }

  lemma UnpaddedPadded(kxBytes: Blob, filler: Blob)
    requires |kxBytes| < 0x1_0000_0000
    ensures Unpadded(Padded(kxBytes, filler)) == Success(kxBytes)
  {
    hide LittleEndian, Length;
    var m := Padded(kxBytes, filler);
    LengthRoundTrip(|kxBytes|);
    assert m[..4] == LittleEndian(|kxBytes|);
    assert m[4..] == kxBytes + filler;
  }

  // ---------------------------------------------------------------- sizes and snapshots

  /** An exchange is accepted exactly when the shared random value has 32 octets and some filler brings the second message (a nonce
      of 24 octets and a box with an overhead of 16) to the padded length; bytes that are too many are what is named otherwise. */
  lemma AcceptedIff(padding: nat, secret: Blob, random: Blob, kxBytes: Blob, dhPrivate: Blob)
    ensures var r := New(padding, secret, random, kxBytes, dhPrivate);
            && (r.Success? <==> |random| == 32 && exists filler :: 24 + |Padded(kxBytes, filler)| + 16 == padding)
            && (r == Failure(TooLarge) <==> !exists filler :: 24 + |Padded(kxBytes, filler)| + 16 == padding)
  {
    hide LittleEndian;
    var least := 24 + 4 + |kxBytes| + 16;
    if least <= padding {
      assert 24 + |Padded(kxBytes, Blank(padding - least))| + 16 == padding;
    }
  }

  /** Both messages of an exchange have the padded length. */
  lemma MessagesFill(c: Suite, kx: KeyExchange, padding: nat, filler1: Blob, reply: Blob, filler2: Blob, nonce: Blob)
    requires c.Laws() && |filler1| == padding - 32 && |nonce| == 24 && 24 + 4 + |kx.kxBytes| + |filler2| + 16 == padding
    requires |reply| >= 32
    ensures |Derived(c, kx, filler1).message1| == padding
    ensures Met(c, kx, reply, filler2, nonce).Success? && |Met(c, kx, reply, filler2, nonce).value.message2| == padding
  {
    hide LittleEndian;
    assert |c.basePoint(kx.dhPrivate)| == KEY_LENGTH;
    var sharedKey := c.multiply(kx.dhPrivate, c.decrypt(kx.key, reply[..KEY_LENGTH]));
    assert |c.seal(sharedKey, nonce, Padded(kx.kxBytes, filler2))| == |Padded(kx.kxBytes, filler2)| + OVERHEAD;
  }

  /** A reply that is too short to hold a public key is refused, and only such a reply. */
  lemma MetIff(c: Suite, kx: KeyExchange, reply: Blob, filler: Blob, nonce: Blob)
    ensures Met(c, kx, reply, filler, nonce) == Failure(ReplyTooSmall) <==> |reply| < 32
  {}

  /** The snapshot published before the first exchange says nothing but what the exchange was given: whoever restarts from it does
      so with a private key of zeros, and not with the one that was drawn. Later snapshots are complete. */
  lemma FirstSnapshotForgets(c: Suite, kx: KeyExchange, other: KeyExchange, filler: Blob)
    requires kx.status.Init? && other.status.Init? && other.sharedSecret == kx.sharedSecret
    requires other.sharedRandom == kx.sharedRandom && other.kxBytes == kx.kxBytes
    ensures Serialised(kx) == Serialised(other) && Serialised(kx).status.Init?
    ensures Derived(c, Serialised(kx), filler).message1
            == c.encrypt(c.kdf(kx.sharedSecret, kx.sharedRandom).0, c.basePoint(seq(32, _ => 0))) + filler
  {
    assert Blank(32) == seq(32, _ => 0);
  }

  lemma LaterSnapshotIsWhole(kx: KeyExchange, other: KeyExchange)
    requires !kx.status.Init? && !other.status.Init? && Serialised(kx) == Serialised(other)
    ensures kx == other
  {}

  // ---------------------------------------------------------------- the two sides agree

  /** The first message carries the public key of the private one. */
  ghost predicate First(c: Suite, kx: KeyExchange) {
    && |kx.message1| >= KEY_LENGTH
    && kx.message1[..KEY_LENGTH] == c.encrypt(kx.key, c.basePoint(kx.dhPrivate))
  }

  /** The second message carries the bytes to exchange, under the key shared with the given peer. */
  ghost predicate Second(c: Suite, kx: KeyExchange, peer: Blob) {
    && kx.sharedKey == c.multiply(kx.dhPrivate, c.basePoint(peer))
    && exists nonce, filler :: |nonce| == NONCE_LENGTH
                               && kx.message2 == nonce + c.seal(kx.sharedKey, nonce, Padded(kx.kxBytes, filler))
  }

  lemma DerivedIsFirst(c: Suite, kx: KeyExchange, filler: Blob)
    requires c.Laws()
    ensures First(c, Derived(c, kx, filler))
  {
    var d := Derived(c, kx, filler);
    assert |c.encrypt(d.key, c.basePoint(kx.dhPrivate))| == KEY_LENGTH;
  }

  lemma MetIsSecond(c: Suite, kx: KeyExchange, peer: KeyExchange, filler: Blob, nonce: Blob)
    requires c.Laws() && First(c, peer) && peer.key == kx.key && |nonce| == NONCE_LENGTH
    ensures var r := Met(c, kx, peer.message1, filler, nonce); r.Success? && Second(c, r.value, peer.dhPrivate)
  {
    assert c.decrypt(kx.key, peer.message1[..KEY_LENGTH]) == c.basePoint(peer.dhPrivate);
  }

  /** A side that met its peer reads from the peer's second message exactly the peer's bytes, unless the first two octets of the
      shared key are both zero, which is refused. */
  lemma OpensPeer(c: Suite, kx: KeyExchange, peer: KeyExchange)
    requires c.Laws() && Second(c, kx, peer.dhPrivate) && Second(c, peer, kx.dhPrivate) && |peer.kxBytes| < 0x1_0000_0000
    ensures kx.sharedKey == peer.sharedKey && |kx.sharedKey| == 32
    ensures Opened(c, kx, peer.message2)
            == if kx.sharedKey[0] == 0 && kx.sharedKey[1] == 0 then Failure(ZeroKey) else Success(peer.kxBytes)
  {
    hide Padded, Unpadded;
    var nonce, filler :| |nonce| == NONCE_LENGTH
                         && peer.message2 == nonce + c.seal(peer.sharedKey, nonce, Padded(peer.kxBytes, filler));
    assert kx.sharedKey == peer.sharedKey;
    assert peer.message2[..NONCE_LENGTH] == nonce;
    assert peer.message2[NONCE_LENGTH..] == c.seal(peer.sharedKey, nonce, Padded(peer.kxBytes, filler));
    UnpaddedPadded(peer.kxBytes, filler);
  }

  // ---------------------------------------------------------------- the object

  class Exchanger {
    const suite: Suite
    const padding: nat
    var kx: KeyExchange
    var serialised: KeyExchange

    /** NewKeyExchange, for arguments that pass its checks. */
    constructor (suite: Suite, padding: nat, secret: Blob, random: Blob, kxBytes: Blob, dhPrivate: Blob)
      requires New(padding, secret, random, kxBytes, dhPrivate).Success?
      ensures this.suite == suite && this.padding == padding
      ensures kx == New(padding, secret, random, kxBytes, dhPrivate).value && serialised == Serialised(kx)
    {
      this.suite, this.padding := suite, padding;
      var start := KeyExchange(Init, secret, random, kxBytes, dhPrivate, Blank(32), Blank(32), Blank(32), [], [], Blank(32));
      kx, serialised := start, Serialised(start);
    }

    method UpdateSerialised()
      modifies this
      ensures kx == old(kx) && serialised == Serialised(kx)
    {
      if kx.status.Init? {
        serialised := KeyExchange(Init, kx.sharedSecret, kx.sharedRandom, kx.kxBytes,
                                  Blank(32), Blank(32), Blank(32), Blank(32), [], [], Blank(32));
      } else {
        serialised := kx;
      }
    }

    /** derivePassword, and the new status. */
    method DerivePassword(filler: Blob) returns (r: Result<(), Error>)
      requires |filler| == if KEY_LENGTH < padding then padding - KEY_LENGTH else 0
      modifies this
      ensures r == if KEY_LENGTH > padding then Failure(TooLarge) else Success(())
      ensures r.Success? ==> kx == Derived(suite, old(kx), filler).(status := Exchange1) && serialised == kx
      ensures r.Failure? ==> kx.status == old(kx).status && serialised == old(serialised)
    {
      var (key, meeting1, meeting2) := suite.kdf(kx.sharedSecret, kx.sharedRandom);
      kx := kx.(key := key, meeting1 := meeting1, meeting2 := meeting2);
      var encryptedDHPublic := suite.encrypt(kx.key, suite.basePoint(kx.dhPrivate));
      if KEY_LENGTH > padding {
        return Failure(TooLarge);
      }
      kx := kx.(message1 := encryptedDHPublic + filler);
      kx := kx.(status := Exchange1);
      UpdateSerialised();
      r := Success(());
    }

    /** exchange1 after the meeting place has replied, and the new status. */
    method FirstExchange(reply: Blob, filler: Blob, nonce: Blob) returns (r: Result<(), Error>)
      requires |nonce| == NONCE_LENGTH && |filler| + 4 + |kx.kxBytes| + OVERHEAD + NONCE_LENGTH == padding
      modifies this
      ensures match Met(suite, old(kx), reply, filler, nonce)
              case Failure(e) => r == Failure(e) && kx == old(kx) && serialised == old(serialised)
              case Success(k) => r.Success? && kx == k.(status := Exchange2) && serialised == kx
    {
      if |reply| < KEY_LENGTH {
        return Failure(ReplyTooSmall);
      }
      var peer := suite.decrypt(kx.key, reply[..KEY_LENGTH]);
      kx := kx.(sharedKey := suite.multiply(kx.dhPrivate, peer));
      var padded := LittleEndian(|kx.kxBytes|) + kx.kxBytes + filler;
      kx := kx.(message2 := nonce + suite.seal(kx.sharedKey, nonce, padded));
      kx := kx.(status := Exchange2);
      UpdateSerialised();
      r := Success(());
    }

    /** exchange2 after the meeting place has replied. */
    method SecondExchange(reply: Blob) returns (r: Result<Blob, Error>)
      ensures r == Opened(suite, kx, reply)
    {
      if |reply| < NONCE_LENGTH {
        return Failure(ReplyTooSmall);
      }
      if KeyIsZero(kx.sharedKey) {
        return Failure(ZeroKey);
      }
      var box := suite.open(kx.sharedKey, reply[..NONCE_LENGTH], reply[NONCE_LENGTH..]);
      if box.None? {
        return Failure(NotAuthentic);
      }
      var message := box.value;
      if |message| < 4 {
        return Failure(Invalid);
      }
      var l := Length(message[..4]);
      message := message[4..];
      if l > |message| {
        return Failure(Truncated);
      }
      r := Success(message[..l]);
    }
  }
}
