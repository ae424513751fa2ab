/** What a hop accepts and what it refuses, said on the octets of the packet it is handed. */
module SphinxRefusal {
  import opened Bytes
  import opened SphinxCommands
  import opened SphinxSuite
  import opened SphinxOnion
  import opened SphinxUnwrap
  import opened SphinxRoute
  import opened Wrappers

  /** The offset of the MAC in a packet. */
  function MacOffset(g: Geometry, scheme: Scheme): nat { 2 + scheme.ElementSize() + g.routingInfoLength }

  /** Long enough for a header, and of version 0. */
  predicate WellFormed(g: Geometry, pkt: Bytes) {
    |pkt| >= g.headerLength && |pkt| >= 2 && pkt[0] == 0 && pkt[1] == 0
  }

  /** The keys that the hop's private key yields for the key material in the header, if it is usable. */
  ghost predicate Yields(scheme: Scheme, priv: Bytes, element: Bytes, keys: PacketKeys) {
    match scheme
    case NikeScheme(nike) => nike.valid(element) && keys == nike.kdf(nike.deriveSecret(priv, element))
    case KemScheme(kem) => exists s :: kem.decapsulate(priv, element) == Some(s) && keys == kem.kdf(s)
  }

  ghost predicate Usable(scheme: Scheme, priv: Bytes, element: Bytes) {
    exists keys :: Yields(scheme, priv, element, keys)
  }

  /** The header carries the MAC of everything before it. */
  ghost predicate Authentic(prims: Primitives, g: Geometry, scheme: Scheme, pkt: Bytes, keys: PacketKeys)
    requires g.Fits(scheme.ElementSize()) && |pkt| >= g.headerLength
  {
    var macOff := MacOffset(g, scheme);
    pkt[macOff..macOff + 32] == prims.mac(keys.headerMAC, pkt[..macOff])
  }

  lemma FirstOctets(pkt: Bytes)
    requires |pkt| >= 2
    ensures pkt[..AD_LENGTH] == V0_AD <==> pkt[0] == 0 && pkt[1] == 0
  {}

  /** What is refused before any key is derived: exactly short packets and packets of another version; and what is refused
      when a key is to be derived: exactly packets whose key material is unusable. */
  lemma RefusedUnread(prims: Primitives, g: Geometry, scheme: Scheme, priv: Bytes, pkt: Bytes)
    requires g.Fits(scheme.ElementSize()) && scheme.Slot() <= g.perHop
    ensures var h := Unwrap(prims, g, scheme, priv, pkt);
            && (h == Rejected(Truncated, None) <==> |pkt| < g.headerLength)
            && (h == Rejected(UnknownVersion, None) <==> |pkt| >= g.headerLength && !WellFormed(g, pkt))
            && (h == Rejected(BadElement, None) <==>
                WellFormed(g, pkt) && !Usable(scheme, priv, pkt[2..2 + scheme.ElementSize()]))
  {
    hide Scan, Peel, Obey;
    if |pkt| >= g.headerLength {
      FirstOctets(pkt);
      var element := pkt[2..2 + scheme.ElementSize()];
      var agreed := scheme.Agree(priv, element);
      if agreed.Some? {
        assert Yields(scheme, priv, element, agreed.value);
      }
      if agreed.Some? && WellFormed(g, pkt) {
        ObeyedIsRead(g, Scan(Peel(prims, g, agreed.value, Split(g, scheme.ElementSize(), pkt).routingInfo)
                             [..g.perHop - scheme.Slot()], []));
      }
    }
  }

  /** A hop that has read its commands refuses for its commands or its payload only. */
  lemma ObeyedIsRead(g: Geometry, scanned: Result<seq<RoutingCommand>, ScanError>)
    ensures forall tag, next :: var h := Obey(g, scanned, tag, next);
              h.Rejected? ==> h.replayTag == Some(tag) && (h.error.BadCommands? || h.error.TruncatedPayload? || h.error.InvalidTag?)
  {}

  /** A packet with usable key material is refused for its MAC exactly when the MAC is not that of the octets before it; any other
      outcome means that the header is authentic. */
  lemma MacDecides(prims: Primitives, g: Geometry, scheme: Scheme, priv: Bytes, pkt: Bytes, keys: PacketKeys)
    requires g.Fits(scheme.ElementSize()) && scheme.Slot() <= g.perHop && WellFormed(g, pkt)
    requires Yields(scheme, priv, pkt[2..2 + scheme.ElementSize()], keys)
    ensures var h := Unwrap(prims, g, scheme, priv, pkt);
            if Authentic(prims, g, scheme, pkt, keys)
            then !(h.Rejected? && (h.error.Truncated? || h.error.UnknownVersion? || h.error.BadElement? || h.error.MacMismatch?))
            else h == Rejected(MacMismatch, Some(prims.hash(pkt[2..2 + scheme.ElementSize()]))) && Rewritten(h, pkt) == pkt
  {
    hide Scan, Peel, Obey;
    FirstOctets(pkt);
    var p := Split(g, scheme.ElementSize(), pkt);
    var macOff := MacOffset(g, scheme);
    assert pkt[..macOff] == V0_AD + p.element + p.routingInfo;
    assert scheme.Agree(priv, p.element) == Some(keys);
    ObeyedIsRead(g, Scan(Peel(prims, g, keys, p.routingInfo)[..g.perHop - scheme.Slot()], []));
  }

  /** The routing field of the packet, decrypted and extended by a slot. */
  function Opened(prims: Primitives, g: Geometry, scheme: Scheme, pkt: Bytes, keys: PacketKeys): (b: Bytes)
    requires g.Fits(scheme.ElementSize()) && |pkt| >= g.headerLength
    ensures |b| == g.routingInfoLength + g.perHop
  {
    Xor(pkt[2 + scheme.ElementSize()..MacOffset(g, scheme)] + Zeros(g.perHop),
        prims.KeyStream(keys, g.routingInfoLength + g.perHop))
  }

  /** The payload of the packet with one layer of encryption removed. */
  ghost predicate Uncovers(prims: Primitives, g: Geometry, scheme: Scheme, pkt: Bytes, keys: PacketKeys, m: Bytes)
    requires g.Fits(scheme.ElementSize()) && |pkt| >= g.headerLength
  {
    prims.sprpEncrypt(keys.payloadEncryption, keys.iv, m) == pkt[MacOffset(g, scheme) + 32..]
  }

  /** The commands of the hop, as they stand in the slot: printed one after the other, then zeros. */
  ghost predicate InSlot(prims: Primitives, g: Geometry, scheme: Scheme, pkt: Bytes, keys: PacketKeys, cmds: seq<RoutingCommand>)
    requires g.Fits(scheme.ElementSize()) && scheme.Slot() <= g.perHop && |pkt| >= g.headerLength
  {
    var room := g.perHop - scheme.Slot();
    |Serialize(cmds)| <= room && Opened(prims, g, scheme, pkt, keys)[..room] == Serialize(cmds) + Zeros(room - |Serialize(cmds)|)
  }

  /** The offsets of an authentic packet, and its payload without a layer. */
  lemma UnwrapsAuthentic(prims: Primitives, g: Geometry, scheme: Scheme, priv: Bytes, pkt: Bytes, keys: PacketKeys, m: Bytes)
    requires prims.Laws()
    requires g.Fits(scheme.ElementSize()) && scheme.Slot() <= g.perHop && WellFormed(g, pkt)
    requires Yields(scheme, priv, pkt[2..2 + scheme.ElementSize()], keys) && Authentic(prims, g, scheme, pkt, keys)
    requires Uncovers(prims, g, scheme, pkt, keys, m)
    ensures var element, b := pkt[2..2 + scheme.ElementSize()], Opened(prims, g, scheme, pkt, keys);
            Unwrap(prims, g, scheme, priv, pkt)
            == Obey(g, Scan(b[..g.perHop - scheme.Slot()], []), prims.hash(element),
                    Parts(scheme.NextElement(element, keys, b[g.perHop - scheme.Slot()..g.perHop]), b[g.perHop..], [], m))
  {
    hide Scan, Obey;
    FirstOctets(pkt);
    var p := Split(g, scheme.ElementSize(), pkt);
    assert pkt[..MacOffset(g, scheme)] == V0_AD + p.element + p.routingInfo;
    assert |m| == |p.payload|;
    assert DecryptPayload(prims, keys, p.payload) == m;
  }

  lemma ScanInSlot(prims: Primitives, g: Geometry, scheme: Scheme, pkt: Bytes, keys: PacketKeys, cmds: seq<RoutingCommand>)
    requires g.Fits(scheme.ElementSize()) && scheme.Slot() <= g.perHop && |pkt| >= g.headerLength
    requires InSlot(prims, g, scheme, pkt, keys, cmds)
    ensures Scan(Opened(prims, g, scheme, pkt, keys)[..g.perHop - scheme.Slot()], []) == Admit([], cmds)
  {
    hide Scan, Opened, Admit;
    ScanPrinted(cmds, g.perHop - scheme.Slot() - |Serialize(cmds)|, []);
  }

  /** An authentic packet is refused for its commands exactly when its slot does not hold commands, or holds a repeated next hop
      or surb_reply. */
  lemma CommandsDecide(prims: Primitives, g: Geometry, scheme: Scheme, priv: Bytes, pkt: Bytes, keys: PacketKeys, m: Bytes)
    requires prims.Laws()
    requires g.Fits(scheme.ElementSize()) && scheme.Slot() <= g.perHop && WellFormed(g, pkt)
    requires Yields(scheme, priv, pkt[2..2 + scheme.ElementSize()], keys) && Authentic(prims, g, scheme, pkt, keys)
    requires Uncovers(prims, g, scheme, pkt, keys, m)
    ensures var h := Unwrap(prims, g, scheme, priv, pkt);
            h.Rejected? && h.error.BadCommands? <==>
            !exists cmds :: InSlot(prims, g, scheme, pkt, keys, cmds) && NextNodes(cmds) <= 1 && SURBReplies(cmds) <= 1
  {
    hide Scan, Opened, Admit, Serialize, NextNodes, SURBReplies, Terminal;
    UnwrapsAuthentic(prims, g, scheme, priv, pkt, keys, m);
    var slot := Opened(prims, g, scheme, pkt, keys)[..g.perHop - scheme.Slot()];
    forall cmds | InSlot(prims, g, scheme, pkt, keys, cmds) ensures Scan(slot, []) == Admit([], cmds) {
      ScanInSlot(prims, g, scheme, pkt, keys, cmds);
    }
    forall cmds ensures Admit([], cmds).Success? <==> NextNodes(cmds) <= 1 && SURBReplies(cmds) <= 1 {
      NoneSeen();
      AdmitIff([], cmds);
      assert [] + cmds == cmds;
    }
    if Scan(slot, []).Success? {
      var cmds := Scan(slot, []).value;
      ScanIsCanonical(slot, []);
      assert cmds[0..] == cmds;
      assert InSlot(prims, g, scheme, pkt, keys, cmds);
    }
    TerminalError(g);
  }

  lemma NoneSeen()
    ensures NextNodes([]) == 0 && SURBReplies([]) == 0
  {}

  lemma TerminalError(g: Geometry)
    ensures forall m, tag, cmds :: var h := Terminal(g, m, tag, cmds); h.Rejected? ==> !h.error.BadCommands?
  {}

  /** An authentic packet without a next hop is handed to the owner of the hop exactly when its payload, a layer of encryption
      less, is long enough for the tag and begins with zeros, which come off; a surb_reply spares the payload both. */
  lemma PayloadDecides(prims: Primitives, g: Geometry, scheme: Scheme, priv: Bytes, pkt: Bytes, keys: PacketKeys, m: Bytes,
                       cmds: seq<RoutingCommand>)
    requires prims.Laws()
    requires g.Fits(scheme.ElementSize()) && scheme.Slot() <= g.perHop && WellFormed(g, pkt)
    requires Yields(scheme, priv, pkt[2..2 + scheme.ElementSize()], keys) && Authentic(prims, g, scheme, pkt, keys)
    requires Uncovers(prims, g, scheme, pkt, keys, m) && InSlot(prims, g, scheme, pkt, keys, cmds)
    requires NextNodes(cmds) == 0 && SURBReplies(cmds) <= 1
    ensures var h, tag := Unwrap(prims, g, scheme, priv, pkt), prims.hash(pkt[2..2 + scheme.ElementSize()]);
            && Rewritten(h, pkt) == pkt
            && if |m| < g.payloadTagLength then h == Rejected(TruncatedPayload, Some(tag))
               else if SURBReplies(cmds) == 1 then h == Delivered(m, tag, cmds)
               else if forall i :: 0 <= i < g.payloadTagLength ==> m[i] == 0
               then h == Delivered(m[g.payloadTagLength..], tag, cmds)
               else h == Rejected(InvalidTag, Some(tag))
  {
    hide Scan, Opened, Admit, Serialize, NextNodes, SURBReplies, InSlot;
    UnwrapsAuthentic(prims, g, scheme, priv, pkt, keys, m);
    ScanInSlot(prims, g, scheme, pkt, keys, cmds);
    AdmitsAll(cmds);
    CountsPositive(cmds);
    assert FindNextNode(cmds).None?;
    if |m| >= g.payloadTagLength {
      assert IsZero(m[..g.payloadTagLength]) <==> forall i :: 0 <= i < g.payloadTagLength ==> m[i] == 0;
    }
  }

  lemma AdmitsAll(cmds: seq<RoutingCommand>)
    requires NextNodes(cmds) <= 1 && SURBReplies(cmds) <= 1
    ensures Admit([], cmds) == Success(cmds)
  {
    hide Admit;
    AdmitIff([], cmds);
    assert [] + cmds == cmds;
  }

  /** An authentic packet with a next hop leaves as: the version, the key material for the next hop, the rest of the opened routing
      field, the MAC that the next hop command carries, and the payload a layer of encryption less. */
  lemma ForwardsRest(prims: Primitives, g: Geometry, scheme: Scheme, priv: Bytes, pkt: Bytes, keys: PacketKeys, m: Bytes,
                     cmds: seq<RoutingCommand>, k: nat)
    requires prims.Laws()
    requires g.Fits(scheme.ElementSize()) && scheme.Slot() <= g.perHop && WellFormed(g, pkt)
    requires Yields(scheme, priv, pkt[2..2 + scheme.ElementSize()], keys) && Authentic(prims, g, scheme, pkt, keys)
    requires Uncovers(prims, g, scheme, pkt, keys, m) && InSlot(prims, g, scheme, pkt, keys, cmds)
    requires NextNodes(cmds) == 1 && SURBReplies(cmds) <= 1 && k < |cmds| && cmds[k].NextNodeHop?
    ensures var h, b, element := Unwrap(prims, g, scheme, priv, pkt), Opened(prims, g, scheme, pkt, keys),
                                 pkt[2..2 + scheme.ElementSize()];
            var next := match scheme case NikeScheme(nike) => nike.blind(element, keys.blindingFactor)
                        case KemScheme(_) => b[g.perHop - scheme.Slot()..g.perHop];
            && h.Forwarded? && h.tag == prims.hash(element) && h.cmds == cmds
            && Rewritten(h, pkt) == [0, 0] + next + b[g.perHop..] + cmds[k].mac + m
  {
    hide Scan, Opened, Admit, Serialize, NextNodes, SURBReplies, InSlot;
    UnwrapsAuthentic(prims, g, scheme, priv, pkt, keys, m);
    ScanInSlot(prims, g, scheme, pkt, keys, cmds);
    AdmitsAll(cmds);
    OnlyNext(cmds, k);
  }

  lemma {:induction false} OnlyNext(cmds: seq<RoutingCommand>, k: nat)
    requires NextNodes(cmds) == 1 && k < |cmds| && cmds[k].NextNodeHop?
    ensures FindNextNode(cmds) == Some(cmds[k])
  {
    var n := |cmds| - 1;
    if k < n {
      assert cmds[..n][k] == cmds[k];
      CountsPositive(cmds[..n]);
      OnlyNext(cmds[..n], k);
    }
  }

  /** The last hop of a path without a surb_reply delivers exactly the payload fields that the creator could have made, as the
      payloads they were made from: whoever changes the field on the way is found out. */
  lemma TamperedPayloadIff(o: Onion, scheme: Scheme, privs: seq<Bytes>, p: Bytes)
    requires o.prims.Laws() && Matches(o, scheme, privs) && AllFit(o) && Unrepeated(o)
    requires !HasSURBReply(o.path[|o.path| - 1].commands)
    ensures var t, last := Traverse(o.prims, o.g, scheme, privs, o.Header() + p), |o.path| - 1;
            && |t| == |o.path|
            && (t[last].Delivered? <==> exists m :: p == EncryptFor(o, 0, Zeros(o.g.payloadTagLength) + m))
            && (forall m :: p == EncryptFor(o, 0, Zeros(o.g.payloadTagLength) + m) ==> t[last].Delivered? && t[last].payload == m)
  {
    hide KeysMeet, CommandsFit, Onion.Header, Onion.HopCommands, Traverse, SURBReplies, Arriving, EncryptFor, Primitives.Laws,
         CommandBytes, Geometry.Fits;
    TraverseAll(o, scheme, privs, p);
    var n, tagLen := |o.path|, o.g.payloadTagLength;
    var m' := Arriving(o, 0, n, p);
    forall m | p == EncryptFor(o, 0, Zeros(tagLen) + m) ensures m' == Zeros(tagLen) + m {
      LayersComeOff(o, n, Zeros(tagLen) + m);
      NothingToEncrypt(o, Zeros(tagLen) + m);
    }
    LayersGoBack(o, p);
    if |m'| >= tagLen && IsZero(m'[..tagLen]) {
      assert m' == Zeros(tagLen) + m'[tagLen..];
      assert p == EncryptFor(o, 0, Zeros(tagLen) + m'[tagLen..]);
    }
    forall m | m' == Zeros(tagLen) + m ensures m'[..tagLen] == Zeros(tagLen) && m'[tagLen..] == m {}
  }

  lemma NothingToEncrypt(o: Onion, m: Bytes)
    ensures EncryptFor(o, |o.layers|, m) == m
  {}

  /** Encrypted for the first k hops, the innermost layer for hop k - 1. */
  function EncryptTo(o: Onion, k: nat, m: Bytes): Bytes
    requires k <= |o.layers|
  {
    if k == 0 then m else EncryptTo(o, k - 1, o.prims.Enc(o.layers[k - 1].keys, m))
  }

  lemma {:induction false} EncryptBoth(o: Onion, k: nat, m: Bytes)
    requires k <= |o.layers|
    ensures EncryptTo(o, k, EncryptFor(o, k, m)) == EncryptFor(o, 0, m)
  {
    if k > 0 {
      EncryptBoth(o, k - 1, m);
    }
  }

  lemma LayerBack(prims: Primitives, keys: PacketKeys, p: Bytes)
    requires prims.Laws()
    ensures prims.Enc(keys, DecryptPayload(prims, keys, p)) == p
  {}

  lemma {:induction false} EncryptsBack(o: Onion, k: nat, p: Bytes)
    requires o.prims.Laws() && k <= |o.layers|
    ensures EncryptTo(o, k, Arriving(o, 0, k, p)) == p
  {
    if k > 0 {
      EncryptsBack(o, k - 1, p);
      LayerBack(o.prims, o.layers[k - 1].keys, Arriving(o, 0, k - 1, p));
    }
  }

  /** What the hops make of a payload field is what the creator would have encrypted to it. */
  lemma LayersGoBack(o: Onion, p: Bytes)
    requires o.prims.Laws()
    ensures EncryptFor(o, 0, Arriving(o, 0, |o.layers|, p)) == p
  {
    var n := |o.layers|;
    EncryptsBack(o, n, p);
    EncryptBoth(o, n, Arriving(o, 0, n, p));
  }
}
