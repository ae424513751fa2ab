/** Single use reply blocks: core/sphinx/surb.go and newKemSURB. */
module SphinxSurb {
  import opened Bytes
  import opened SphinxCommands
  import opened SphinxSuite
  import opened SphinxOnion
  import opened SphinxUnwrap
  import opened SphinxRoute
  import opened SphinxOverflow
  import opened SphinxHeader
  import opened SphinxPacket
  import opened Wrappers

  /** A random SPRP key followed by an IV. */
  type KeyMaterial = b: Bytes | |b| == KEY_MATERIAL_LENGTH witness Zeros(KEY_MATERIAL_LENGTH)

  function Material(keys: PacketKeys): KeyMaterial { keys.payloadEncryption + keys.iv }

  function EncWith(prims: Primitives, k: KeyMaterial, m: Bytes): Bytes {
    prims.sprpEncrypt(k[..SPRP_KEY_LENGTH], k[SPRP_KEY_LENGTH..], m)
  }

  function DecWith(prims: Primitives, k: KeyMaterial, m: Bytes): Bytes {
    prims.sprpDecrypt(k[..SPRP_KEY_LENGTH], k[SPRP_KEY_LENGTH..], m)
  }

  lemma MaterialSplits(keys: PacketKeys)
    ensures Material(keys)[..SPRP_KEY_LENGTH] == keys.payloadEncryption
    ensures Material(keys)[SPRP_KEY_LENGTH..] == keys.iv
  {}

  /** The decryption keys for the first m hops, last hop first, then the recipient's key. */
  function KeyBlob(layers: seq<Layer>, m: nat, keyPayload: KeyMaterial): (k: Bytes)
    requires m <= |layers|
    ensures |k| == (m + 1) * KEY_MATERIAL_LENGTH
  {
    if m == 0 then keyPayload else Material(layers[m - 1].keys) + KeyBlob(layers, m - 1, keyPayload)
  }

  datatype Surb = Surb(blob: Bytes, keys: Bytes)

  function NewSurb(o: Onion, keyPayload: KeyMaterial): (s: Surb)
    requires o.Valid()
    ensures |s.blob| == o.g.surbLength
  {
    Surb(o.Header() + o.path[0].id + keyPayload, KeyBlob(o.layers, |o.layers|, keyPayload))
  }

  /** newNikeSURB and newKemSURB, once the header has been created. */
  method MakeSurb(o: Onion, created: Result<Created, HeaderError>, keyPayload: KeyMaterial)
      returns (r: Result<Surb, HeaderError>)
    requires if |o.path| > o.g.nrHops then created == Failure(InvalidPath) else o.Shaped() && HeaderSpec(o, created)
    ensures |o.path| <= o.g.nrHops && o.Valid() ==> r == Success(NewSurb(o, keyPayload))
    ensures |o.path| > o.g.nrHops ==> r == Failure(InvalidPath)
    ensures |o.path| <= o.g.nrHops && !o.Valid() ==> r.Failure? && r.error.InvalidCommands?
  {
    hide Onion.Header, Geometry.Fits, CommandBytes;
    if created.Failure? {
      return Failure(created.error);
    }
    var sprpKeys := created.value.sprpKeys;
    var k: Bytes := [];
    var i := |o.path|;
    while i > 0
      invariant 0 <= i <= |o.path|
      invariant k + KeyBlob(o.layers, i, keyPayload) == KeyBlob(o.layers, |o.layers|, keyPayload)
    {
      i := i - 1;
      BlobStep(k, o.layers, i, keyPayload);
      k := k + sprpKeys[i].key;
      k := k + sprpKeys[i].iv;
    }
    k := k + keyPayload;
    return Success(Surb(created.value.header + o.path[0].id + keyPayload, k));
  }

  lemma BlobStep(k: Bytes, layers: seq<Layer>, i: nat, keyPayload: KeyMaterial)
    requires i < |layers|
    ensures k + KeyBlob(layers, i + 1, keyPayload)
            == k + layers[i].keys.payloadEncryption + layers[i].keys.iv + KeyBlob(layers, i, keyPayload)
  {
    var key, iv, rest := layers[i].keys.payloadEncryption, layers[i].keys.iv, KeyBlob(layers, i, keyPayload);
    ConcatAssociates(k, key, iv);
    ConcatAssociates(k, key + iv, rest);
    assert KeyBlob(layers, i + 1, keyPayload) == (key + iv) + rest;
  }

  datatype Reply = Reply(pkt: Bytes, nodeID: NodeID)

  /** NewPacketFromSURB: None stands for the truncated SURB error. */
  function ReplyPacket(prims: Primitives, g: Geometry, surb: Bytes, payload: Bytes): Option<Reply>
    requires g.surbLength == g.headerLength + NODE_ID_LENGTH + KEY_MATERIAL_LENGTH
  {
    if |surb| != g.surbLength then None
    else
      var idOff := g.headerLength;
      var keyOff := idOff + NODE_ID_LENGTH;
      Some(Reply(surb[..idOff] + EncWith(prims, surb[keyOff..], Zeros(g.payloadTagLength) + payload), surb[idOff..keyOff]))
  }

  method NewPacketFromSURB(prims: Primitives, g: Geometry, surb: Bytes, payload: Bytes) returns (r: Option<Reply>)
    requires prims.Laws()
    requires g.surbLength == g.headerLength + NODE_ID_LENGTH + KEY_MATERIAL_LENGTH && g.payloadTagLength <= g.perHop
    ensures r == ReplyPacket(prims, g, surb, payload)
  {
    var idOff := g.headerLength;
    var keyOff := idOff + NODE_ID_LENGTH;
    var ivOff := keyOff + SPRP_KEY_LENGTH;
    if |surb| != g.surbLength {
      return None;
    }
    var hdr := surb[..idOff];
    var pkt := hdr + Zeros(g.perHop)[..g.payloadTagLength] + payload;
    var sprpKey: SprpKey, sprpIV: IV := surb[keyOff..ivOff], surb[ivOff..];
    assert surb[keyOff..][..SPRP_KEY_LENGTH] == sprpKey && surb[keyOff..][SPRP_KEY_LENGTH..] == sprpIV;
    assert pkt[|hdr|..] == Zeros(g.payloadTagLength) + payload;
    var b := prims.sprpEncrypt(sprpKey, sprpIV, pkt[|hdr|..]);
    assert pkt[..|hdr|] == hdr;
    pkt := pkt[..|hdr|] + b;
    return Some(Reply(pkt, surb[idOff..keyOff]));
  }

  lemma ReplyFromSurb(o: Onion, keyPayload: KeyMaterial, payload: Bytes)
    requires o.Valid()
    ensures ReplyPacket(o.prims, o.g, NewSurb(o, keyPayload).blob, payload)
            == Some(Reply(o.Header() + EncWith(o.prims, keyPayload, Zeros(o.g.payloadTagLength) + payload), o.path[0].id))
  {
    hide Onion.Header, EncWith;
    var surb := NewSurb(o, keyPayload).blob;
    var idOff := o.g.headerLength;
    assert surb[..idOff] == o.Header();
    assert surb[idOff..idOff + NODE_ID_LENGTH] == o.path[0].id;
    assert surb[idOff + NODE_ID_LENGTH..] == keyPayload;
  }

  datatype SurbError = InvalidKeys | TruncatedReply | InvalidReplyTag

  lemma WithLength(prims: Primitives, k: KeyMaterial, b: Bytes)
    requires prims.Laws()
    ensures |EncWith(prims, k, b)| == |b| && |DecWith(prims, k, b)| == |b|
    ensures EncWith(prims, k, DecWith(prims, k, b)) == b && DecWith(prims, k, EncWith(prims, k, b)) == b
  {
    var key: SprpKey, iv: IV := k[..SPRP_KEY_LENGTH], k[SPRP_KEY_LENGTH..];
    assert prims.sprpEncrypt(key, iv, prims.sprpDecrypt(key, iv, b)) == b;
  }

  /** Undoing the hops' decryptions with all keys but the last, then decrypting with that one. */
  ghost function Restore(prims: Primitives, keys: Bytes, b: Bytes): (r: Bytes)
    requires prims.Laws() && |keys| % KEY_MATERIAL_LENGTH == 0 && |keys| >= KEY_MATERIAL_LENGTH
    ensures |r| == |b|
    decreases |keys|
  {
    var k: KeyMaterial := keys[..KEY_MATERIAL_LENGTH];
    WithLength(prims, k, b);
    if |keys| == KEY_MATERIAL_LENGTH then DecWith(prims, k, b)
    else Restore(prims, keys[KEY_MATERIAL_LENGTH..], EncWith(prims, k, b))
  }

  ghost function DecryptReply(prims: Primitives, g: Geometry, payload: Bytes, keys: Bytes): Result<Bytes, SurbError>
    requires prims.Laws()
  {
    if |keys| % KEY_MATERIAL_LENGTH != 0 || |keys| < KEY_MATERIAL_LENGTH then Failure(InvalidKeys)
    else if |payload| < g.payloadTagLength then Failure(TruncatedReply)
    else
      var b := Restore(prims, keys, payload);
      if !IsZero(b[..g.payloadTagLength]) then Failure(InvalidReplyTag) else Success(b[g.payloadTagLength..])
  }

  /** DecryptSURBPayload; the keys are obliterated whatever happens. */
  method DecryptSURBPayload(prims: Primitives, g: Geometry, payload: Bytes, keys: array<Byte>)
    returns (r: Result<Bytes, SurbError>)
    requires prims.Laws()
    modifies keys
    ensures r == DecryptReply(prims, g, payload, old(keys[..]))
    ensures keys[..] == Zeros(keys.Length)
  {
    hide Primitives.Laws;
    var k := keys[..];
    ghost var blob := k;
    forall i | 0 <= i < keys.Length {
      keys[i] := 0;
    }
    assert keys[..] == Zeros(keys.Length);
    var nrHops := |k| / KEY_MATERIAL_LENGTH;
    if |k| % KEY_MATERIAL_LENGTH != 0 || nrHops < 1 {
      return Failure(InvalidKeys);
    }
    if |payload| < g.payloadTagLength {
      return Failure(TruncatedReply);
    }
    var b := payload;
    for i := 0 to nrHops
      invariant keys[..] == Zeros(keys.Length)
      invariant |k| == (nrHops - i) * KEY_MATERIAL_LENGTH
      invariant i < nrHops ==> Restore(prims, blob, payload) == Restore(prims, k, b)
      invariant i == nrHops ==> Restore(prims, blob, payload) == b
    {
      var sprpKey: SprpKey := k[..SPRP_KEY_LENGTH];
      var sprpIV: IV := k[SPRP_KEY_LENGTH..][..IV_LENGTH];
      MaterialSlices(k);
      k := k[KEY_MATERIAL_LENGTH..];
      if i == nrHops - 1 {
        b := prims.sprpDecrypt(sprpKey, sprpIV, b);
      } else {
        b := prims.sprpEncrypt(sprpKey, sprpIV, b);
      }
    }
    var zero := CtIsZero(b[..g.payloadTagLength]);
    if !zero {
      return Failure(InvalidReplyTag);
    }
    return Success(b[g.payloadTagLength..]);
  }

  lemma MaterialSlices(k: Bytes)
    requires |k| >= KEY_MATERIAL_LENGTH
    ensures k[..KEY_MATERIAL_LENGTH][..SPRP_KEY_LENGTH] == k[..SPRP_KEY_LENGTH]
    ensures k[..KEY_MATERIAL_LENGTH][SPRP_KEY_LENGTH..] == k[SPRP_KEY_LENGTH..][..IV_LENGTH]
  {}

  /** Encrypting with a hop's keys undoes that hop's decryption. */
  lemma UndoHop(prims: Primitives, keys: PacketKeys, p: Bytes)
    requires prims.Laws()
    ensures EncWith(prims, Material(keys), DecryptPayload(prims, keys, p)) == p
  {
    MaterialSplits(keys);
    WithLength(prims, Material(keys), p);
  }

  /** Restoring inverts, hop by hop, what the path did to a payload field. */
  lemma {:induction false} RestoreUndoes(o: Onion, m: nat, keyPayload: KeyMaterial, p: Bytes)
    requires o.prims.Laws() && m <= |o.layers|
    ensures Restore(o.prims, KeyBlob(o.layers, m, keyPayload), Arriving(o, 0, m, p)) == DecWith(o.prims, keyPayload, p)
  {
    hide Primitives.Laws, Material, EncWith, DecWith, DecryptPayload;
    var blob := KeyBlob(o.layers, m, keyPayload);
    if m == 0 {
      assert blob[..KEY_MATERIAL_LENGTH] == keyPayload;
    } else {
      var keys := o.layers[m - 1].keys;
      assert blob[..KEY_MATERIAL_LENGTH] == Material(keys);
      assert blob[KEY_MATERIAL_LENGTH..] == KeyBlob(o.layers, m - 1, keyPayload);
      UndoHop(o.prims, keys, Arriving(o, 0, m - 1, p));
      RestoreUndoes(o, m - 1, keyPayload, p);
    }
  }

  lemma {:induction false} ArrivingLength(o: Onion, m: nat, p: Bytes)
    requires o.prims.Laws() && m <= |o.layers|
    ensures |Arriving(o, 0, m, p)| == |p|
  {
    if m > 0 {
      ArrivingLength(o, m - 1, p);
      o.prims.DecLength(o.layers[m - 1].keys, Arriving(o, 0, m - 1, p));
    }
  }

  lemma RestoredReply(prims: Primitives, g: Geometry, b: Bytes, keys: Bytes, payload: Bytes)
    requires prims.Laws() && |keys| % KEY_MATERIAL_LENGTH == 0 && |keys| >= KEY_MATERIAL_LENGTH
    requires Restore(prims, keys, b) == Zeros(g.payloadTagLength) + payload
    ensures DecryptReply(prims, g, b, keys) == Success(payload)
  {
    hide Primitives.Laws, Restore;
    var m := Zeros(g.payloadTagLength) + payload;
    assert m[..g.payloadTagLength] == Zeros(g.payloadTagLength) && m[g.payloadTagLength..] == payload;
  }

  /** The reply as it comes out of the last hop decrypts to the payload. */
  lemma ReplyRestored(o: Onion, keyPayload: KeyMaterial, payload: Bytes)
    requires o.prims.Laws() && o.Valid()
    ensures var p := EncWith(o.prims, keyPayload, Zeros(o.g.payloadTagLength) + payload);
            DecryptReply(o.prims, o.g, Arriving(o, 0, |o.path|, p), NewSurb(o, keyPayload).keys) == Success(payload)
  {
    hide Primitives.Laws, EncWith, DecWith, Arriving, KeyBlob, Onion.Header, Restore, DecryptReply, CommandBytes, Geometry.Fits;
    var m := Zeros(o.g.payloadTagLength) + payload;
    var p := EncWith(o.prims, keyPayload, m);
    RestoreUndoes(o, |o.path|, keyPayload, p);
    WithLength(o.prims, keyPayload, m);
    RestoredReply(o.prims, o.g, Arriving(o, 0, |o.path|, p), NewSurb(o, keyPayload).keys, payload);
  }

  /** A reply to a SURB leads to the first hop, every hop sees exactly its commands (the last one among them the SURB
      identifier), every hop but the last forwards, and what the last hop hands over decrypts, with the keys from the
      SURB's creation, to the reply's payload. */
  ghost predicate ReplyComesBack(o: Onion, scheme: Scheme, privs: seq<Bytes>, keyPayload: KeyMaterial, payload: Bytes)
    requires o.prims.Laws() && Matches(o, scheme, privs)
  {
    var surb := NewSurb(o, keyPayload);
    var reply := ReplyPacket(o.prims, o.g, surb.blob, payload);
    && reply.Some? && reply.value.nodeID == o.path[0].id
    && ComesBack(o, Traverse(o.prims, o.g, scheme, privs, reply.value.pkt), surb.keys, payload)
  }

  ghost predicate ComesBack(o: Onion, t: seq<Hop>, keys: Bytes, payload: Bytes)
    requires o.prims.Laws() && o.Valid()
  {
    var last := |o.path| - 1;
    && |t| == |o.path|
    && (forall k :: 0 <= k < last ==> t[k].Forwarded? && t[k].cmds == o.HopCommands(k))
    && t[last].Delivered? && t[last].cmds == o.path[last].commands
    && DecryptReply(o.prims, o.g, t[last].payload, keys) == Success(payload)
  }

  /** The last hop passes the payload field on as it is. */
  ghost predicate TagIsSpared(o: Onion)
    requires o.Valid()
  {
    o.g.payloadTagLength == 0 || HasSURBReply(o.path[|o.path| - 1].commands)
  }

  lemma RestoreLength(prims: Primitives, keys: Bytes, b: Bytes)
    requires prims.Laws() && |keys| % KEY_MATERIAL_LENGTH == 0 && |keys| >= KEY_MATERIAL_LENGTH
    ensures |Restore(prims, keys, b)| == |b|
  {}

  /** A last hop that takes the tag off leaves nothing the client could restore. */
  lemma TagIsMissed(o: Onion, b: Bytes, tag: Bytes, keys: Bytes, payload: Bytes)
    requires o.prims.Laws() && o.Valid() && !TagIsSpared(o) && |b| == o.g.payloadTagLength + |payload|
    ensures var h := Terminal(o.g, b, tag, o.path[|o.path| - 1].commands);
            h.Rejected? || DecryptReply(o.prims, o.g, h.payload, keys) != Success(payload)
  {
    hide Primitives.Laws, Restore, HasSURBReply, CommandBytes, Geometry.Fits;
    var h := Terminal(o.g, b, tag, o.path[|o.path| - 1].commands);
    if h.Delivered? && |keys| % KEY_MATERIAL_LENGTH == 0 && |keys| >= KEY_MATERIAL_LENGTH {
      RestoreLength(o.prims, keys, h.payload);
    }
  }

  /** When every hop reads its commands, what comes back depends on the last hop alone. */
  lemma ReachedReply(o: Onion, scheme: Scheme, privs: seq<Bytes>, keyPayload: KeyMaterial, payload: Bytes, p: Bytes)
    requires o.prims.Laws() && Matches(o, scheme, privs) && AllFit(o) && Unrepeated(o)
    requires p == EncWith(o.prims, keyPayload, Zeros(o.g.payloadTagLength) + payload)
    ensures ComesBack(o, Traverse(o.prims, o.g, scheme, privs, o.Header() + p), NewSurb(o, keyPayload).keys, payload)
            <==> TagIsSpared(o)
  {
    hide Primitives.Laws, KeysMeet, CommandsFit, EncWith, Arriving, KeyBlob, Onion.Header, Onion.HopCommands, Traverse,
         NewSurb, SURBReplies, DecryptReply;
    var last := |o.path| - 1;
    var b := Arriving(o, 0, |o.path|, p);
    TraverseAll(o, scheme, privs, p);
    ReplyRestored(o, keyPayload, payload);
    ArrivingLength(o, |o.path|, p);
    WithLength(o.prims, keyPayload, Zeros(o.g.payloadTagLength) + payload);
    if TagIsSpared(o) {
      assert b[..0] == [] && b[0..] == b;
    } else {
      TagIsMissed(o, b, o.prims.hash(o.layers[last].element), NewSurb(o, keyPayload).keys, payload);
    }
  }

  lemma ComesBackSeen(o: Onion, t: seq<Hop>, keys: Bytes, payload: Bytes)
    requires o.prims.Laws() && o.Valid() && ComesBack(o, t, keys, payload)
    ensures SeenFrom(o, 0, t)
  {
    hide DecryptReply, Primitives.Laws;
  }

  lemma LostReply(o: Onion, scheme: Scheme, privs: seq<Bytes>, p: Bytes, keys: Bytes, payload: Bytes)
    requires o.prims.Laws() && Matches(o, scheme, privs) && !(AllFit(o) && Unrepeated(o))
    ensures !ComesBack(o, Traverse(o.prims, o.g, scheme, privs, o.Header() + p), keys, payload)
  {
    hide Primitives.Laws, KeysMeet, CommandsFit, Onion.HopCommands, Onion.Header, Traverse, Outcomes, SURBReplies,
         DecryptReply, SeenFrom, CommandBytes, Geometry.Fits, Onion.PacketAt;
    var t := Traverse(o.prims, o.g, scheme, privs, o.Header() + p);
    PacketIsPacketAt(o, p);
    assert privs[0..] == privs;
    if AllFit(o) {
      var j :| 0 <= j < |o.path| && SURBReplies(o.path[j].commands) > 1;
      TraverseFrom(o, scheme, privs, 0, p);
      RepeatedIsRefused(o, 0, j, p);
    } else {
      var j :| 0 <= j < |o.path| && !CommandsFit(o, j);
      OverflowIsSeen(o, scheme, privs, 0, j, p);
      if ComesBack(o, t, keys, payload) {
        ComesBackSeen(o, t, keys, payload);
      }
    }
  }

  /** SURB round trip, for either scheme: it works exactly when no hop's commands repeat a surb_reply or overflow, and the
      last hop has a surb_reply. */
  lemma SurbRoundTrip(o: Onion, scheme: Scheme, privs: seq<Bytes>, keyPayload: KeyMaterial, payload: Bytes)
    requires o.prims.Laws() && Matches(o, scheme, privs)
    ensures ReplyComesBack(o, scheme, privs, keyPayload, payload) <==> Unrepeated(o) && AllFit(o) && TagIsSpared(o)
  {
    hide Primitives.Laws, KeysMeet, CommandBytes, Geometry.Fits, AllFit, Unrepeated, TagIsSpared, EncWith, KeyBlob,
         Onion.Header, Traverse,
         ReplyPacket, NewSurb, ComesBack;
    var p := EncWith(o.prims, keyPayload, Zeros(o.g.payloadTagLength) + payload);
    ReplyFromSurb(o, keyPayload, payload);
    if Unrepeated(o) && AllFit(o) {
      ReachedReply(o, scheme, privs, keyPayload, payload, p);
    } else {
      LostReply(o, scheme, privs, p, NewSurb(o, keyPayload).keys, payload);
    }
  }
}
