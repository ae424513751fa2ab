/** The two packet formats side by side: their SURBs, and what they deliver along the same path. */
module SphinxReply {
  import opened Bytes
  import opened SphinxCommands
  import opened SphinxSuite
  import opened SphinxOnion
  import opened SphinxUnwrap
  import opened SphinxRoute
  import opened SphinxHeader
  import opened SphinxNike
  import opened SphinxKem
  import opened SphinxSurb
  import opened Wrappers

  /** newNikeSURB */
  method NewNikeSURB(prims: Primitives, nike: Nike, g: Geometry, clientPrivateKey: Bytes, path: seq<PathHop>, junk: Bytes,
                     keyPayload: KeyMaterial)
    returns (r: Result<Surb, HeaderError>)
    requires nike.Laws() && g.Fits(nike.publicKeySize) && path != []
    requires forall i :: 0 <= i < |path| ==> nike.valid(path[i].publicKey)
    requires |path| <= g.nrHops ==> |junk| == (g.nrHops - |path|) * g.perHop
    ensures var o := NikeOnion(prims, nike, g, clientPrivateKey, path, junk);
            if |path| > g.nrHops then r == Failure(InvalidPath)
            else if o.Valid() then r == Success(NewSurb(o, keyPayload))
            else r.Failure? && r.error.InvalidCommands?
  {
    hide Nike.Laws, NikeLayers, Onion.Valid, HeaderSpec, NewSurb;
    var created := CreateHeader(prims, nike, g, clientPrivateKey, path, junk);
    r := MakeSurb(NikeOnion(prims, nike, g, clientPrivateKey, path, junk), created, keyPayload);
  }

  /** newKemSURB */
  method NewKemSURB(prims: Primitives, kem: Kem, g: Geometry, coins: seq<Bytes>, path: seq<PathHop>, junk: Bytes,
                    keyPayload: KeyMaterial)
    returns (r: Result<Surb, HeaderError>)
    requires kem.Laws() && g.Fits(kem.ciphertextSize) && kem.ciphertextSize <= g.perHop && path != []
    requires |coins| == |path|
    requires |path| <= g.nrHops ==> |junk| == (g.nrHops - |path|) * g.perHop
    ensures var o := KemOnion(prims, kem, g, coins, path, junk);
            if |path| > g.nrHops then r == Failure(InvalidPath)
            else if o.Valid() then r == Success(NewSurb(o, keyPayload))
            else r.Failure? && r.error.InvalidCommands?
  {
    hide Kem.Laws, KemLayers, Onion.Valid, HeaderSpec, NewSurb;
    var created := CreateKEMHeader(prims, kem, g, coins, path, junk);
    r := MakeSurb(KemOnion(prims, kem, g, coins, path, junk), created, keyPayload);
  }

  /** A reply to a NIKE SURB comes back as the payload exactly when no hop repeats a surb_reply and the last one has it. */
  lemma NikeSurbRoundTrip(prims: Primitives, nike: Nike, g: Geometry, x: Bytes, path: seq<PathHop>, junk: Bytes,
                          privs: seq<Bytes>, keyPayload: KeyMaterial, payload: Bytes)
    requires prims.Laws() && nike.Laws() && Owns(nike.publicKey, path, privs)
    requires NikeOnion(prims, nike, g, x, path, junk).Valid()
    ensures var o := NikeOnion(prims, nike, g, x, path, junk);
            && Matches(o, NikeScheme(nike), privs)
            && (ReplyComesBack(o, NikeScheme(nike), privs, keyPayload, payload) <==> Unrepeated(o) && TagIsSpared(o))
  {
    hide Matches, AllFit, NikeLayers, Nike.Laws, Primitives.Laws, Unrepeated, ReplyComesBack, TagIsSpared, Owns;
    var o := NikeOnion(prims, nike, g, x, path, junk);
    NikeMatches(o, nike, x, privs);
    SurbRoundTrip(o, NikeScheme(nike), privs, keyPayload, payload);
  }

  /** ... and one to a KEM SURB exactly when, besides, all commands fit before the ciphertext slot. */
  lemma KemSurbRoundTrip(prims: Primitives, kem: Kem, g: Geometry, coins: seq<Bytes>, path: seq<PathHop>, junk: Bytes,
                         privs: seq<Bytes>, keyPayload: KeyMaterial, payload: Bytes)
    requires prims.Laws() && kem.Laws() && |coins| == |path| && Owns(kem.publicKey, path, privs)
    requires KemOnion(prims, kem, g, coins, path, junk).Valid()
    ensures var o := KemOnion(prims, kem, g, coins, path, junk);
            && Matches(o, KemScheme(kem), privs)
            && (ReplyComesBack(o, KemScheme(kem), privs, keyPayload, payload)
                <==> Unrepeated(o) && AllFit(o) && TagIsSpared(o))
  {
    hide Matches, AllFit, KemLayers, Kem.Laws, Primitives.Laws, Unrepeated, ReplyComesBack, TagIsSpared, Owns;
    var o := KemOnion(prims, kem, g, coins, path, junk);
    KemMatches(o, kem, coins, privs);
    SurbRoundTrip(o, KemScheme(kem), privs, keyPayload, payload);
  }

  /** Creation accepts what hops refuse: in the geometry made for any NIKE a last hop may be given two surb_replies. */
  lemma RepeatedIsAccepted(nike: Nike, forwardPayloadLength: nat, nrHops: nat, a: SurbID, b: SurbID)
    ensures var cmds := [SURBReply(a), SURBReply(b)];
            && CommandBytes(NikeGeometry(nike, forwardPayloadLength, nrHops), cmds, true).Success?
            && SURBReplies(cmds) > 1
  {
    var cmds := [SURBReply(a), SURBReply(b)];
    SerializeAppend([], SURBReply(a));
    SerializeAppend([SURBReply(a)], SURBReply(b));
    assert [] + [SURBReply(a)] == [SURBReply(a)] && [SURBReply(a)] + [SURBReply(b)] == cmds;
    assert cmds[..1] == [SURBReply(a)] && Serialize([]) == [];
  }

  /** The same commands, but for the MAC that a next-hop command carries for the next hop. */
  ghost predicate Alike(a: seq<RoutingCommand>, b: seq<RoutingCommand>) {
    |a| == |b| && forall i :: 0 <= i < |a| ==>
      a[i] == b[i] || (a[i].NextNodeHop? && b[i].NextNodeHop? && a[i].id == b[i].id)
  }

  ghost predicate SameRoute(a: seq<PathHop>, b: seq<PathHop>) {
    |a| == |b| && forall i :: 0 <= i < |a| ==> a[i].id == b[i].id && a[i].commands == b[i].commands
  }

  /** Two traces show every hop the same commands and hand over the same payload. */
  ghost predicate SameDelivery(t: seq<Hop>, u: seq<Hop>) {
    && |t| == |u| > 0
    && (forall i :: 0 <= i < |t| ==> !t[i].Rejected? && !u[i].Rejected? && Alike(t[i].cmds, u[i].cmds))
    && t[|t| - 1].Delivered? && u[|u| - 1].Delivered? && t[|t| - 1].payload == u[|u| - 1].payload
  }

  lemma SameAlong(n: Onion, k: Onion, tn: seq<Hop>, tk: seq<Hop>, payload: Bytes)
    requires n.Valid() && k.Valid() && SameRoute(n.path, k.path) && n.g.payloadTagLength == k.g.payloadTagLength
    requires DeliveredAlong(n, tn, payload) && DeliveredAlong(k, tk, payload)
    ensures SameDelivery(tn, tk)
  {
    hide Onion.Blocks, CommandBytes, Geometry.Fits;
    forall i | 0 <= i < |tn| - 1 ensures Alike(tn[i].cmds, tk[i].cmds) {
      assert tn[i].cmds == n.HopCommands(i) && tk[i].cmds == k.HopCommands(i);
    }
  }

  /** Unwrapped hop by hop, a NIKE packet and a KEM packet for the same nodes, commands and payload show every hop the same
      commands and hand over the same payload, when no commands repeat a surb_reply or overflow. */
  lemma FormatsDeliverAlike(prims: Primitives, nike: Nike, kem: Kem, n: Onion, k: Onion, x: Bytes, coins: seq<Bytes>,
                            nikePrivs: seq<Bytes>, kemPrivs: seq<Bytes>, payload: Bytes)
    requires prims.Laws() && nike.Laws() && kem.Laws() && |coins| == |k.path|
    requires n == NikeOnion(prims, nike, n.g, x, n.path, n.junk) && n.Valid() && Owns(nike.publicKey, n.path, nikePrivs)
    requires k == KemOnion(prims, kem, k.g, coins, k.path, k.junk) && k.Valid() && Owns(kem.publicKey, k.path, kemPrivs)
    requires SameRoute(n.path, k.path) && n.g.payloadTagLength == k.g.payloadTagLength
    ensures Unrepeated(k) && AllFit(k) ==>
              SameDelivery(Traverse(prims, n.g, NikeScheme(nike), nikePrivs, NewPacket(n, payload)),
                           Traverse(prims, k.g, KemScheme(kem), kemPrivs, NewPacket(k, payload)))
  {
    hide NikeLayers, KemLayers, AllFit, Traverse, NewPacket, DeliveredAlong, SameDelivery, Nike.Laws, Kem.Laws,
         Primitives.Laws, Owns, SURBReplies, CommandBytes, Geometry.Fits;
    NikeEndToEnd(prims, nike, n.g, x, n.path, n.junk, nikePrivs, payload);
    KemEndToEnd(prims, kem, k.g, coins, k.path, k.junk, kemPrivs, payload);
    if Unrepeated(k) && AllFit(k) {
      SameAlong(n, k, Traverse(prims, n.g, NikeScheme(nike), nikePrivs, NewPacket(n, payload)),
                Traverse(prims, k.g, KemScheme(kem), kemPrivs, NewPacket(k, payload)), payload);
    }
  }
}
