/** What goes over the wire, octet by octet, and which reply blocks and replies are refused. */
module SphinxLayout {
  import opened Bytes
  import opened SphinxCommands
  import opened SphinxSuite
  import opened SphinxOnion
  import opened SphinxUnwrap
  import opened SphinxRoute
  import opened SphinxRefusal
  import opened SphinxSurb
  import opened Wrappers

  /** Commands begin with 1, 2, 3 or 128, followed by their fields in order. */
  lemma CommandOctets(id: NodeID, mac: Mac, recipient: RecipientID, surbID: SurbID, d: bv32)
    ensures ToBytes(NextNodeHop(id, mac))[0] == 1 && |ToBytes(NextNodeHop(id, mac))| == 65
    ensures ToBytes(NextNodeHop(id, mac))[1..33] == id && ToBytes(NextNodeHop(id, mac))[33..] == mac
    ensures ToBytes(Recipient(recipient)) == [2] + recipient && |recipient| == 32
    ensures ToBytes(SURBReply(surbID)) == [3] + surbID && |surbID| == 16
    ensures ToBytes(NodeDelay(d))[0] == 0x80 && |ToBytes(NodeDelay(d))| == 5
    ensures ToBytes(NodeDelay(0x01020304)) == [0x80, 1, 2, 3, 4]
  {
    hide DelayBytes;
    assert DelayBytes(0x01020304) == [1, 2, 3, 4] by { DelayOctets(); }
  }

  lemma DelayOctets()
    ensures DelayBytes(0x01020304) == [1, 2, 3, 4]
  {}

  /** A NIKE slot is as long as the longest commands expected of a hop, a surb_reply and the next hop; a KEM slot is that and a
      ciphertext. A delay and the next hop are shorter, and so are a recipient and a surb_reply. */
  lemma SlotsSuffice(nike: Nike, kem: Kem, forwardPayloadLength: nat, nrHops: nat, next: RoutingCommand, surbID: SurbID,
                     recipient: RecipientID, delay: bv32)
    requires next.NextNodeHop?
    ensures var g, h := NikeGeometry(nike, forwardPayloadLength, nrHops), KemGeometry(kem, forwardPayloadLength, nrHops);
            && g.perHop == |Serialize([SURBReply(surbID), next])| == h.perHop - kem.ciphertextSize
            && |Serialize([NodeDelay(delay), next])| < g.perHop
            && |Serialize([Recipient(recipient), SURBReply(surbID)])| < g.perHop
            && g.payloadTagLength == 32 && h.payloadTagLength == 32
            && g.headerLength == 2 + nike.publicKeySize + 82 * nrHops + 32
            && h.headerLength == 2 + kem.ciphertextSize + (82 + kem.ciphertextSize) * nrHops + 32
  {
    SerializeTwo(SURBReply(surbID), next);
    SerializeTwo(NodeDelay(delay), next);
    SerializeTwo(Recipient(recipient), SURBReply(surbID));
  }

  lemma SerializeTwo(a: RoutingCommand, b: RoutingCommand)
    ensures Serialize([a, b]) == ToBytes(a) + ToBytes(b)
  {
    hide ToBytes;
    SerializeAppend([], a);
    SerializeAppend([a], b);
    assert [] + [a] == [a] && [a] + [b] == [a, b] && Serialize([]) == [];
  }

  /** A SURB is the header, the first node and the payload key, in this order; its keys are those of the hops from the last to the
      first and then the payload key. */
  lemma SurbLayout(o: Onion, keyPayload: KeyMaterial, k: nat)
    requires o.Valid() && k < |o.path|
    ensures var surb, n := NewSurb(o, keyPayload), |o.path|;
            && |surb.blob| == o.g.headerLength + 32 + 64 && |surb.keys| == 64 * (n + 1)
            && surb.blob[..o.g.headerLength] == o.Header()
            && surb.blob[o.g.headerLength..o.g.headerLength + 32] == o.path[0].id
            && surb.blob[o.g.headerLength + 32..] == keyPayload && surb.keys[64 * n..] == keyPayload
            && surb.keys[64 * (n - 1 - k)..][..64] == o.layers[k].keys.payloadEncryption + o.layers[k].keys.iv
  {
    hide Onion.Header, KeyBlob, Material, CommandBytes;
    BlobKeys(o.layers, |o.layers|, keyPayload, k);
  }

  lemma {:induction false} BlobKeys(layers: seq<Layer>, m: nat, keyPayload: KeyMaterial, k: nat)
    requires k < m <= |layers|
    ensures var b := KeyBlob(layers, m, keyPayload);
            && b[64 * m..] == keyPayload
            && b[64 * (m - 1 - k)..][..64] == layers[k].keys.payloadEncryption + layers[k].keys.iv
  {
    var b, rest := KeyBlob(layers, m, keyPayload), KeyBlob(layers, m - 1, keyPayload);
    var first := layers[m - 1].keys.payloadEncryption + layers[m - 1].keys.iv;
    assert b == first + rest && |first| == 64;
    hide KeyBlob;
    if k == m - 1 {
      BlobEnd(layers, m - 1, keyPayload);
      assert b[64 * m..] == rest[64 * (m - 1)..];
      assert b[0..][..64] == first;
    } else {
      BlobKeys(layers, m - 1, keyPayload, k);
      assert b[64 * m..] == rest[64 * (m - 1)..];
      assert b[64 * (m - 1 - k)..] == rest[64 * (m - 2 - k)..];
    }
  }

  lemma {:induction false} BlobEnd(layers: seq<Layer>, m: nat, keyPayload: KeyMaterial)
    requires m <= |layers|
    ensures KeyBlob(layers, m, keyPayload)[64 * m..] == keyPayload
  {
    var b := KeyBlob(layers, m, keyPayload);
    if m > 0 {
      BlobEnd(layers, m - 1, keyPayload);
      var first := Material(layers[m - 1].keys);
      assert b == first + KeyBlob(layers, m - 1, keyPayload);
      assert b[64 * m..] == KeyBlob(layers, m - 1, keyPayload)[64 * (m - 1)..];
    }
  }

  /** A reply is refused before it is decrypted exactly for keys that are not whole sets, one at least, or a payload too short for
      the tag; and a reply block exactly for its length. */
  lemma ReplyRefusals(prims: Primitives, g: Geometry, payload: Bytes, keys: Bytes, surb: Bytes)
    requires prims.Laws() && g.surbLength == g.headerLength + NODE_ID_LENGTH + KEY_MATERIAL_LENGTH
    ensures DecryptReply(prims, g, payload, keys) == Failure(InvalidKeys) <==> |keys| == 0 || |keys| % 64 != 0
    ensures DecryptReply(prims, g, payload, keys) == Failure(TruncatedReply) <==>
            |keys| > 0 && |keys| % 64 == 0 && |payload| < g.payloadTagLength
    ensures ReplyPacket(prims, g, surb, payload).None? <==> |surb| != g.headerLength + 32 + 64
  {
    hide Restore, Primitives.Laws, EncWith;
  }

  /** With the keys of a SURB a payload field decrypts to a reply exactly when it is what the path makes of that reply: whoever
      changes the field on the way is found out. */
  lemma TamperedReplyIff(o: Onion, keyPayload: KeyMaterial, b: Bytes, m: Bytes)
    requires o.prims.Laws() && o.Valid()
    ensures DecryptReply(o.prims, o.g, b, NewSurb(o, keyPayload).keys) == Success(m) <==>
            b == Arriving(o, 0, |o.path|, EncWith(o.prims, keyPayload, Zeros(o.g.payloadTagLength) + m))
  {
    hide Primitives.Laws, EncWith, DecWith, Arriving, EncryptFor, KeyBlob, Onion.Header, Restore, CommandBytes, Geometry.Fits;
    var n, keys := |o.path|, NewSurb(o, keyPayload).keys;
    ReplyRestored(o, keyPayload, m);
    var p := EncryptFor(o, 0, b);
    LayersComeOff(o, n, b);
    NothingToEncrypt(o, b);
    RestoreUndoes(o, n, keyPayload, p);
    var r := DecWith(o.prims, keyPayload, p);
    if DecryptReply(o.prims, o.g, b, keys) == Success(m) {
      EncDecWith(o.prims, keyPayload, p);
      RestoreLength(o.prims, keys, b);
      assert r[..o.g.payloadTagLength] == Zeros(o.g.payloadTagLength);
      assert r == Zeros(o.g.payloadTagLength) + m;
    }
  }

  lemma EncDecWith(prims: Primitives, k: KeyMaterial, p: Bytes)
    requires prims.Laws()
    ensures EncWith(prims, k, DecWith(prims, k, p)) == p
  {}
}
