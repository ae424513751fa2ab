/** Packet geometry and the cryptographic primitives that Sphinx is built from.
    Primitives are values of function type; the algebra they must obey is stated as predicates. */
module SphinxSuite {
  import opened Bytes
  import opened SphinxCommands
  import opened Wrappers

  const AD_LENGTH := 2
  const V0_AD: Bytes := [0x00, 0x00]
  const MAC_KEY_LENGTH := 32
  const STREAM_KEY_LENGTH := 32
  const IV_LENGTH := 16
  const SPRP_KEY_LENGTH := 48
  const KEY_MATERIAL_LENGTH := SPRP_KEY_LENGTH + IV_LENGTH
  const PAYLOAD_TAG_LENGTH := 32

  type MacKey = b: Bytes | |b| == MAC_KEY_LENGTH witness Zeros(MAC_KEY_LENGTH)
  type StreamKey = b: Bytes | |b| == STREAM_KEY_LENGTH witness Zeros(STREAM_KEY_LENGTH)
  type IV = b: Bytes | |b| == IV_LENGTH witness Zeros(IV_LENGTH)
  type SprpKey = b: Bytes | |b| == SPRP_KEY_LENGTH witness Zeros(SPRP_KEY_LENGTH)

  /** The keys one hop shares with the creator of a packet. */
  datatype PacketKeys = PacketKeys(headerMAC: MacKey, headerEncryption: StreamKey, iv: IV,
                                   payloadEncryption: SprpKey, blindingFactor: Bytes)

  datatype Primitives = Primitives(
    mac: (MacKey, Bytes) -> Mac,
    stream: (StreamKey, IV, nat) -> Byte,          // one octet of key stream per position
    sprpEncrypt: (SprpKey, IV, Bytes) -> Bytes,
    sprpDecrypt: (SprpKey, IV, Bytes) -> Bytes,
    hash: Bytes -> Bytes)
  {
    function KeyStream(k: PacketKeys, n: nat): (s: Bytes)
      ensures |s| == n
    {
      seq(n, i requires 0 <= i < n => stream(k.headerEncryption, k.iv, i))
    }

    function Enc(k: PacketKeys, m: Bytes): Bytes { sprpEncrypt(k.payloadEncryption, k.iv, m) }
    function Dec(k: PacketKeys, m: Bytes): Bytes { sprpDecrypt(k.payloadEncryption, k.iv, m) }

    /** The payload cipher is a length-preserving permutation with a two-sided inverse. */
    ghost predicate Laws() {
      && (forall k, v, m :: sprpDecrypt(k, v, sprpEncrypt(k, v, m)) == m)
      && (forall k, v, m :: sprpEncrypt(k, v, sprpDecrypt(k, v, m)) == m)
      && (forall k, v, m :: |sprpEncrypt(k, v, m)| == |m|)
    }

    lemma DecLength(k: PacketKeys, m: Bytes)
      requires Laws()
      ensures |Dec(k, m)| == |m|
    {
      var c := Dec(k, m);
      assert sprpEncrypt(k.payloadEncryption, k.iv, c) == m;
    }
  }

  /** A non-interactive key exchange with blinding. Public keys and shared secrets are group elements. */
  datatype Nike = Nike(
    publicKeySize: nat,
    publicKey: Bytes -> Bytes,
    valid: Bytes -> bool,
    deriveSecret: (Bytes, Bytes) -> Bytes,
    blind: (Bytes, Bytes) -> Bytes,
    kdf: Bytes -> PacketKeys)
  {
    ghost predicate Laws() {
      && (forall x :: valid(publicKey(x)))
      && (forall e :: valid(e) ==> |e| == publicKeySize)
      && (forall x, e :: valid(e) ==> valid(deriveSecret(x, e)))
      && (forall e, b :: valid(e) ==> valid(blind(e, b)))
      && (forall x, y :: deriveSecret(x, publicKey(y)) == deriveSecret(y, publicKey(x)))
      && (forall y, e, b :: valid(e) ==> deriveSecret(y, blind(e, b)) == blind(deriveSecret(y, e), b))
    }
  }

  /** A key encapsulation mechanism; the encapsulator's coins are an explicit argument. */
  datatype Kem = Kem(
    ciphertextSize: nat,
    publicKey: Bytes -> Bytes,
    ciphertext: (Bytes, Bytes) -> Bytes,
    secret: (Bytes, Bytes) -> Bytes,
    decapsulate: (Bytes, Bytes) -> Option<Bytes>,
    kdf: Bytes -> PacketKeys)
  {
    ghost predicate Laws() {
      && (forall pk, coins :: |ciphertext(pk, coins)| == ciphertextSize)
      && (forall sk, coins :: decapsulate(sk, ciphertext(publicKey(sk), coins)) == Some(secret(publicKey(sk), coins)))
    }
  }

  datatype Geometry = Geometry(
    nrHops: nat, headerLength: nat, routingInfoLength: nat, perHop: nat, surbLength: nat,
    payloadTagLength: nat, forwardPayloadLength: nat, nextNodeHopLength: nat)
  {
    /** What header creation and unwrapping rely on, for key material of elementSize bytes per hop. */
    predicate Fits(elementSize: nat) {
      && routingInfoLength == nrHops * perHop
      && headerLength == AD_LENGTH + elementSize + routingInfoLength + MAC_LENGTH
      && surbLength == headerLength + NODE_ID_LENGTH + KEY_MATERIAL_LENGTH
      && nextNodeHopLength == NEXT_NODE_HOP_LENGTH
      && payloadTagLength <= perHop
    }
  }

  function MakeGeometry(elementSize: nat, perHop: nat, forwardPayloadLength: nat, nrHops: nat): Geometry {
    var ri := perHop * nrHops;
    var header := AD_LENGTH + elementSize + ri + MAC_LENGTH;
    Geometry(nrHops, header, ri, perHop, header + NODE_ID_LENGTH + KEY_MATERIAL_LENGTH,
             PAYLOAD_TAG_LENGTH, forwardPayloadLength, NEXT_NODE_HOP_LENGTH)
  }

  /** GeometryFromUserForwardPayloadLength, after the payload length has been settled. */
  function NikeGeometry(nike: Nike, forwardPayloadLength: nat, nrHops: nat): (g: Geometry)
    ensures g.Fits(nike.publicKeySize)
  {
    MakeGeometry(nike.publicKeySize, NEXT_NODE_HOP_LENGTH + SURB_REPLY_LENGTH, forwardPayloadLength, nrHops)
  }

  /** KEMGeometryFromUserForwardPayloadLength: each slot also carries the next hop's ciphertext. */
  function KemGeometry(kem: Kem, forwardPayloadLength: nat, nrHops: nat): (g: Geometry)
    ensures g.Fits(kem.ciphertextSize) && kem.ciphertextSize <= g.perHop
  {
    MakeGeometry(kem.ciphertextSize, NEXT_NODE_HOP_LENGTH + SURB_REPLY_LENGTH + kem.ciphertextSize,
                 forwardPayloadLength, nrHops)
  }

  const TOY_KEYS := PacketKeys(Zeros(MAC_KEY_LENGTH), Zeros(STREAM_KEY_LENGTH), Zeros(IV_LENGTH), Zeros(SPRP_KEY_LENGTH), [0])

  function ToyPrimitives(): Primitives {
    Primitives((k, m) => Zeros(MAC_LENGTH), (k, v, i) => 0, (k, v, m) => m, (k, v, m) => m, m => m)
  }

  function ToyNike(): Nike {
    Nike(1, x => [0], e => e == [0], (x, e) => [0], (e, b) => [0], s => TOY_KEYS)
  }

  function ToyKem(): Kem {
    Kem(1, x => x, (pk, coins) => [0], (pk, coins) => pk, (sk, ct) => Some(sk), s => TOY_KEYS)
  }

  /** The three sets of laws can be met. */
  lemma LawsAreConsistent()
    ensures ToyPrimitives().Laws() && ToyNike().Laws() && ToyKem().Laws()
  {}
}
