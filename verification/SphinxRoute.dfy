/** End-to-end behaviour of an onion: what every hop on its path gets, for any payload field. */
module SphinxRoute {
  import opened Bytes
  import opened SphinxCommands
  import opened SphinxSuite
  import opened SphinxOnion
  import opened SphinxUnwrap
  import opened Wrappers

  /** The hop owning private key privs[i] recovers the creator's keys for layer i and passes on the element of layer i+1. */
  ghost predicate KeysMeet(o: Onion, scheme: Scheme, privs: seq<Bytes>)
    requires o.Valid() && |o.layers| == |privs| && scheme.Slot() <= o.elementSize
  {
    && (forall i :: 0 <= i < |privs| ==> scheme.Agree(privs[i], o.layers[i].element) == Some(o.layers[i].keys))
    && (forall i, j :: 0 <= i < j < |privs| && j == i + 1 ==>
          scheme.NextElement(o.layers[i].element, o.layers[i].keys, o.layers[j].element[..scheme.Slot()])
          == o.layers[j].element)
  }

  ghost predicate Matches(o: Onion, scheme: Scheme, privs: seq<Bytes>) {
    && o.Valid() && o.elementSize == scheme.ElementSize() && o.slot == scheme.Slot()
    && |privs| == |o.path|
    && KeysMeet(o, scheme, privs)
  }

  /** Hop i's commands fit before the ciphertext slot. */
  ghost predicate CommandsFit(o: Onion, i: nat)
    requires o.Valid() && i < |o.path|
  {
    |Serialize(o.HopCommands(i))| <= o.g.perHop - o.slot
  }

  function PartsAt(o: Onion, i: nat, payload: Bytes): Parts
    requires o.Valid() && i < |o.path|
  {
    Parts(o.layers[i].element, o.RoutingField(i), o.Blocks(i).mac, payload)
  }

  /** What hop i makes of the packet: its commands are admitted or refused; if admitted, the packet goes on
      to hop i+1, or is delivered. */
  function Outcome(o: Onion, i: nat, payload: Bytes): Hop
    requires o.Valid() && i < |o.path|
  {
    var tag := o.prims.hash(o.layers[i].element);
    var plain := DecryptPayload(o.prims, o.layers[i].keys, payload);
    var admitted := Admit([], o.HopCommands(i));
    if admitted.Failure? then Rejected(BadCommands(admitted.error), Some(tag))
    else if i < |o.path| - 1 then Forwarded(PartsAt(o, i + 1, plain), tag, o.HopCommands(i))
    else Terminal(o.g, plain, tag, o.HopCommands(i))
  }

  lemma SlotHoldsCommands(o: Onion, i: nat)
    requires o.Valid() && i < |o.path| && CommandsFit(o, i)
    ensures var b := Serialize(o.HopCommands(i));
            o.Fragment(i)[..o.g.perHop - o.slot] == b + Zeros(o.g.perHop - o.slot - |b|)
  {
    hide Onion.HopCommands, Serialize;
    var b := Serialize(o.HopCommands(i));
    var cmdEnd := o.g.perHop - o.slot;
    assert (b + Zeros(o.g.perHop - |b|))[..cmdEnd] == b + Zeros(cmdEnd - |b|);
  }

  lemma SlotCarriesElement(o: Onion, i: nat)
    requires o.Valid() && i < |o.path| - 1
    ensures o.Fragment(i)[o.g.perHop - o.slot..] == o.layers[i + 1].element[..o.slot]
  {}

  lemma SlicesOf(f: Bytes, rest: Bytes, cut: nat)
    requires cut <= |f|
    ensures (f + rest)[..cut] == f[..cut] && (f + rest)[cut..|f|] == f[cut..] && (f + rest)[|f|..] == rest
  {}

  lemma MacAccepted(o: Onion, i: nat)
    requires o.Valid() && i < |o.path|
    ensures o.prims.mac(o.layers[i].keys.headerMAC, V0_AD + o.layers[i].element + o.RoutingField(i)) == o.Blocks(i).mac
  {
    ConcatAssociates(V0_AD + o.layers[i].element, o.Blocks(i).routingInfo, o.Padding(i));
  }

  lemma AdmittedNext(o: Onion, i: nat)
    requires o.Valid() && i < |o.path|
    requires Admit([], o.HopCommands(i)).Success?
    ensures Admit([], o.HopCommands(i)).value == o.HopCommands(i)
    ensures FindNextNode(o.HopCommands(i))
            == if i < |o.path| - 1 then Some(NextNodeHop(o.path[i + 1].id, o.Blocks(i + 1).mac)) else None
  {
    hide Onion.Blocks, Onion.Fragment, Onion.Inner, Onion.Padding;
    AdmitIff([], o.HopCommands(i));
    assert [] + o.HopCommands(i) == o.HopCommands(i);
    assert CommandBytes(o.g, o.path[i].commands, i == |o.path| - 1).Success?;
  }

  /** What hop i finds when it has peeled its layer. */
  lemma PeeledSlot(o: Onion, i: nat)
    requires o.Valid() && i < |o.path| && CommandsFit(o, i)
    ensures var b := Peel(o.prims, o.g, o.layers[i].keys, o.RoutingField(i));
            && Scan(b[..o.g.perHop - o.slot], []) == Admit([], o.HopCommands(i))
            && b[o.g.perHop..] == o.Inner(i) + o.Padding(i + 1)
            && (i < |o.path| - 1 ==> b[o.g.perHop - o.slot..o.g.perHop] == o.layers[i + 1].element[..o.slot])
  {
    hide Onion.Blocks, Onion.Fragment, Onion.HopCommands, Onion.Padding, Onion.RoutingField, Peel, Scan, Admit, Serialize,
         CommandBytes;
    var cmds := o.HopCommands(i);
    var cmdEnd := o.g.perHop - o.slot;
    PeelLayer(o, i);
    SlicesOf(o.Fragment(i), o.Inner(i) + o.Padding(i + 1), cmdEnd);
    SlotHoldsCommands(o, i);
    ScanPrinted(cmds, cmdEnd - |Serialize(cmds)|, []);
    if i < |o.path| - 1 {
      SlotCarriesElement(o, i);
    }
  }

  lemma ObeyedOutcome(o: Onion, i: nat, payload: Bytes, element: Bytes)
    requires o.Valid() && i < |o.path|
    requires i < |o.path| - 1 ==> element == o.layers[i + 1].element
    ensures Obey(o.g, Admit([], o.HopCommands(i)), o.prims.hash(o.layers[i].element),
                 Parts(element, o.Inner(i) + o.Padding(i + 1), [],
                       DecryptPayload(o.prims, o.layers[i].keys, payload)))
            == Outcome(o, i, payload)
  {
    hide Onion.Fragment, Onion.Padding;
    if Admit([], o.HopCommands(i)).Success? {
      AdmittedNext(o, i);
    }
  }

  /** One step of the end-to-end theorem: hop i accepts the MAC, sees its commands, and forwards what hop i+1 expects. */
  lemma HopUnwraps(o: Onion, scheme: Scheme, privs: seq<Bytes>, i: nat, payload: Bytes)
    requires Matches(o, scheme, privs) && i < |o.path| && CommandsFit(o, i)
    ensures UnwrapParts(o.prims, o.g, scheme, privs[i], PartsAt(o, i, payload)) == Outcome(o, i, payload)
  {
    hide Onion.Blocks, Onion.Fragment, Onion.HopCommands, Onion.Inner, Onion.Padding, Peel, Scan, Admit, Obey, Outcome,
         CommandBytes;
    var layer := o.layers[i];
    var b := Peel(o.prims, o.g, layer.keys, o.RoutingField(i));
    var element := scheme.NextElement(layer.element, layer.keys, b[o.g.perHop - o.slot..o.g.perHop]);
    MacAccepted(o, i);
    PeeledSlot(o, i);
    ObeyedOutcome(o, i, payload, element);
  }

  /** A packet handed from hop to hop, each passing on its buffer: the results, up to the first hop that does not forward. */
  function Traverse(prims: Primitives, g: Geometry, scheme: Scheme, privs: seq<Bytes>, pkt: Bytes): (t: seq<Hop>)
    requires g.Fits(scheme.ElementSize()) && scheme.Slot() <= g.perHop
  {
    if privs == [] then []
    else
      var h := Unwrap(prims, g, scheme, privs[0], pkt);
      if h.Forwarded? then [h] + Traverse(prims, g, scheme, privs[1..], Rewritten(h, pkt)) else [h]
  }

  /** The payload field that reaches hop k when hop i was handed p. */
  function Arriving(o: Onion, i: nat, k: nat, p: Bytes): Bytes
    requires i <= k <= |o.layers|
    decreases k - i
  {
    if k == i then p else DecryptPayload(o.prims, o.layers[k - 1].keys, Arriving(o, i, k - 1, p))
  }

  lemma {:induction false} ArrivingShift(o: Onion, i: nat, k: nat, p: Bytes)
    requires i < k <= |o.layers|
    ensures Arriving(o, i + 1, k, DecryptPayload(o.prims, o.layers[i].keys, p)) == Arriving(o, i, k, p)
    decreases k - i
  {
    if k > i + 1 {
      ArrivingShift(o, i, k - 1, p);
    }
  }

  /** No hop's own commands repeat a surb_reply, which is what hops refuse. */
  ghost predicate Unrepeated(o: Onion) {
    forall i :: 0 <= i < |o.path| ==> SURBReplies(o.path[i].commands) <= 1
  }

  lemma CountsWithNext(own: seq<RoutingCommand>, next: RoutingCommand)
    requires !HasNextNode(own) && next.NextNodeHop?
    ensures NextNodes(own + [next]) <= 1 && SURBReplies(own + [next]) == SURBReplies(own)
  {
    CountsPositive(own);
    assert (own + [next])[..|own|] == own;
  }

  lemma AdmittedIff(o: Onion, i: nat)
    requires o.Valid() && i < |o.path|
    ensures Admit([], o.HopCommands(i)).Success? <==> SURBReplies(o.path[i].commands) <= 1
    ensures Admit([], o.HopCommands(i)).Success? ==> Admit([], o.HopCommands(i)).value == o.HopCommands(i)
  {
    hide Onion.Blocks, Geometry.Fits;
    var own, cmds := o.path[i].commands, o.HopCommands(i);
    assert CommandBytes(o.g, own, i == |o.path| - 1).Success?;
    assert !HasNextNode(own);
    hide Onion.Valid, CommandBytes;
    AdmitIff([], cmds);
    assert [] + cmds == cmds;
    hide Admit;
    if i < |o.path| - 1 {
      CountsWithNext(own, NextNodeHop(o.path[i + 1].id, o.Blocks(i + 1).mac));
    } else {
      CountsPositive(own);
    }
  }

  lemma UnwrapAt(o: Onion, scheme: Scheme, privs: seq<Bytes>, i: nat, p: Bytes)
    requires Matches(o, scheme, privs) && i < |o.path| && CommandsFit(o, i)
    ensures Unwrap(o.prims, o.g, scheme, privs[i], o.PacketAt(i, p)) == Outcome(o, i, p)
  {
    hide KeysMeet, Onion.Blocks, Onion.Fragment, Onion.HopCommands, Onion.Inner, Onion.Padding, UnwrapParts, Outcome;
    SplitJoin(o.g, o.elementSize, PartsAt(o, i, p));
    HopUnwraps(o, scheme, privs, i, p);
  }

  ghost predicate AllFit(o: Onion)
    requires o.Valid()
  {
    forall i :: 0 <= i < |o.path| ==> CommandsFit(o, i)
  }

  /** The packet hop i passes on, when it accepts its commands. */
  function Onward(o: Onion, i: nat, p: Bytes): Bytes
    requires i < |o.layers|
  {
    DecryptPayload(o.prims, o.layers[i].keys, p)
  }

  lemma OutcomeCases(o: Onion, i: nat, p: Bytes)
    requires o.Valid() && i < |o.path|
    ensures var h := Outcome(o, i, p);
            if SURBReplies(o.path[i].commands) > 1 then h.Rejected? && h.error.BadCommands?
            else if i < |o.path| - 1 then
              h == Forwarded(PartsAt(o, i + 1, Onward(o, i, p)), o.prims.hash(o.layers[i].element), o.HopCommands(i))
            else h == Terminal(o.g, Onward(o, i, p), o.prims.hash(o.layers[i].element), o.path[i].commands)
  {
    hide Onion.Blocks, Onion.Fragment, Onion.Inner, Onion.Padding;
    AdmittedIff(o, i);
  }

  /** Hop i forwards the packet. */
  ghost predicate Forwards(o: Onion, i: nat)
    requires i < |o.path|
  {
    SURBReplies(o.path[i].commands) <= 1 && i < |o.path| - 1
  }

  /** The outcomes from hop i on. */
  ghost function Outcomes(o: Onion, i: nat, p: Bytes): (t: seq<Hop>)
    requires o.Valid() && i < |o.path|
    decreases |o.path| - i
  {
    if Forwards(o, i) then [Outcome(o, i, p)] + Outcomes(o, i + 1, Onward(o, i, p)) else [Outcome(o, i, p)]
  }

  /** Hop by hop unwrapping yields exactly these outcomes. */
  lemma {:induction false} TraverseFrom(o: Onion, scheme: Scheme, privs: seq<Bytes>, i: nat, p: Bytes)
    requires Matches(o, scheme, privs) && i < |o.path| && AllFit(o)
    ensures Traverse(o.prims, o.g, scheme, privs[i..], o.PacketAt(i, p)) == Outcomes(o, i, p)
    decreases |o.path| - i
  {
    hide KeysMeet, Onion.Blocks, Onion.Fragment, Onion.HopCommands, Onion.Inner, Onion.Padding, Outcome, Unwrap, SURBReplies;
    UnwrapAt(o, scheme, privs, i, p);
    OutcomeCases(o, i, p);
    assert privs[i..][0] == privs[i] && privs[i..][1..] == privs[i + 1..];
    if Forwards(o, i) {
      TraverseFrom(o, scheme, privs, i + 1, Onward(o, i, p));
    }
  }

  /** If no hop's commands repeat, every hop is reached, with the payload field decrypted so far. */
  lemma {:induction false} AllReached(o: Onion, i: nat, p: Bytes)
    requires o.Valid() && i < |o.path| && Unrepeated(o)
    ensures |Outcomes(o, i, p)| == |o.path| - i
    ensures forall k :: i <= k < |o.path| ==> Outcomes(o, i, p)[k - i] == Outcome(o, k, Arriving(o, i, k, p))
    decreases |o.path| - i
  {
    hide Geometry.Fits, Outcome, SURBReplies, CommandBytes;
    if i < |o.path| - 1 {
      var rest := Outcomes(o, i + 1, Onward(o, i, p));
      AllReached(o, i + 1, Onward(o, i, p));
      forall k | i < k < |o.path| ensures Outcomes(o, i, p)[k - i] == Outcome(o, k, Arriving(o, i, k, p)) {
        assert Outcomes(o, i, p)[k - i] == rest[k - (i + 1)];
        ArrivingShift(o, i, k, p);
      }
    }
  }

  /** Otherwise the packet dies on its way, or is refused by the last hop. */
  lemma {:induction false} RepeatedIsRefused(o: Onion, i: nat, j: nat, p: Bytes)
    requires o.Valid() && i <= j < |o.path| && SURBReplies(o.path[j].commands) > 1
    ensures var t := Outcomes(o, i, p); t != [] && (|t| < |o.path| - i || t[|t| - 1].Rejected?)
    decreases |o.path| - i
  {
    hide Geometry.Fits, Outcome, SURBReplies, CommandBytes, PartsAt, Onion.HopCommands, Terminal;
    OutcomeCases(o, i, p);
    if Forwards(o, i) {
      RepeatedIsRefused(o, i + 1, j, Onward(o, i, p));
    }
  }

  lemma OutcomesAlong(o: Onion, k: nat, p: Bytes)
    requires o.Valid() && k < |o.path| && Unrepeated(o)
    ensures var h := Outcome(o, k, Arriving(o, 0, k, p));
            if k < |o.path| - 1 then h.Forwarded? && h.cmds == o.HopCommands(k)
            else h == Terminal(o.g, Arriving(o, 0, |o.path|, p), o.prims.hash(o.layers[k].element), o.path[k].commands)
  {
    hide KeysMeet, Onion.Blocks, Onion.Fragment, Onion.HopCommands, Onion.Inner, Onion.Padding, Outcome;
    OutcomeCases(o, k, Arriving(o, 0, k, p));
  }

  /** End to end, for any payload field p: all hops but the last forward, having seen exactly their commands;
      the last one checks the payload field that is left when every layer has come off. */
  lemma TraverseAll(o: Onion, scheme: Scheme, privs: seq<Bytes>, p: Bytes)
    requires Matches(o, scheme, privs) && AllFit(o) && Unrepeated(o)
    ensures var t := Traverse(o.prims, o.g, scheme, privs, o.Header() + p);
            var last := |o.path| - 1;
            && |t| == |o.path|
            && (forall k :: 0 <= k < last ==> t[k].Forwarded? && t[k].cmds == o.HopCommands(k))
            && t[last] == Terminal(o.g, Arriving(o, 0, |o.path|, p),
                                   o.prims.hash(o.layers[last].element), o.path[last].commands)
  {
    hide KeysMeet, Onion.Blocks, Onion.Fragment, Onion.HopCommands, Onion.Inner, Onion.Padding, Outcome, Traverse,
         Outcomes, SURBReplies;
    PacketIsPacketAt(o, p);
    assert privs[0..] == privs;
    TraverseFrom(o, scheme, privs, 0, p);
    AllReached(o, 0, p);
    var t := Outcomes(o, 0, p);
    forall k | 0 <= k < |o.path| - 1
      ensures t[k].Forwarded? && t[k].cmds == o.HopCommands(k)
    {
      assert t[k - 0] == Outcome(o, k, Arriving(o, 0, k, p));
      OutcomesAlong(o, k, p);
    }
    OutcomesAlong(o, |o.path| - 1, p);
    assert t[|o.path| - 1 - 0] == Outcome(o, |o.path| - 1, Arriving(o, 0, |o.path| - 1, p));
  }

  /** The payload as the creator encrypts it for hops i, i+1, ... */
  function EncryptFor(o: Onion, i: nat, m: Bytes): (c: Bytes)
    requires i <= |o.layers|
    decreases |o.layers| - i
  {
    if i == |o.layers| then m else o.prims.Enc(o.layers[i].keys, EncryptFor(o, i + 1, m))
  }

  lemma {:induction false} EncryptForLength(o: Onion, i: nat, m: Bytes)
    requires o.prims.Laws() && i <= |o.layers|
    ensures |EncryptFor(o, i, m)| == |m|
    decreases |o.layers| - i
  {
    if i < |o.layers| {
      EncryptForLength(o, i + 1, m);
    }
  }

  /** Each hop removes exactly its own layer of payload encryption. */
  lemma {:induction false} LayersComeOff(o: Onion, k: nat, m: Bytes)
    requires o.prims.Laws() && k <= |o.layers|
    ensures Arriving(o, 0, k, EncryptFor(o, 0, m)) == EncryptFor(o, k, m)
  {
    if k > 0 {
      LayersComeOff(o, k - 1, m);
      EncryptForLength(o, k - 1, m);
      EncryptForLength(o, k, m);
    }
  }

  /** The bytes of a forward packet. */
  function NewPacket(o: Onion, payload: Bytes): Bytes
    requires o.Valid()
  {
    o.Header() + EncryptFor(o, 0, Zeros(o.g.payloadTagLength) + payload)
  }

  lemma PacketIsPacketAt(o: Onion, p: Bytes)
    requires o.Valid()
    ensures o.Header() + p == o.PacketAt(0, p)
  {
    assert o.RoutingField(0) == o.Blocks(0).routingInfo;
  }

  /** What the last hop of a forward packet hands to its owner: surb_reply recipients also get the tag. */
  function HandedOver(g: Geometry, cmds: seq<RoutingCommand>, payload: Bytes): Bytes {
    if HasSURBReply(cmds) then Zeros(g.payloadTagLength) + payload else payload
  }

  lemma TerminalAccepts(g: Geometry, cmds: seq<RoutingCommand>, payload: Bytes, tag: Bytes)
    ensures Terminal(g, Zeros(g.payloadTagLength) + payload, tag, cmds)
            == Delivered(HandedOver(g, cmds, payload), tag, cmds)
  {
    var m := Zeros(g.payloadTagLength) + payload;
    assert m[..g.payloadTagLength] == Zeros(g.payloadTagLength) && m[g.payloadTagLength..] == payload;
  }

  /** Every hop but the last forwards, having seen exactly its commands; the last delivers the payload. */
  ghost predicate DeliveredAlong(o: Onion, t: seq<Hop>, payload: Bytes)
    requires o.Valid()
  {
    var last := |o.path| - 1;
    && |t| == |o.path|
    && (forall k :: 0 <= k < last ==> t[k].Forwarded? && t[k].cmds == o.HopCommands(k))
    && t[last] == Delivered(HandedOver(o.g, o.path[last].commands, payload),
                            o.prims.hash(o.layers[last].element), o.path[last].commands)
  }

  lemma DeliveredUnrepeated(o: Onion, scheme: Scheme, privs: seq<Bytes>, payload: Bytes)
    requires o.prims.Laws() && Matches(o, scheme, privs) && AllFit(o) && Unrepeated(o)
    ensures DeliveredAlong(o, Traverse(o.prims, o.g, scheme, privs, NewPacket(o, payload)), payload)
  {
    hide KeysMeet, Onion.Blocks, Onion.Fragment, Onion.HopCommands, Onion.Inner, Onion.Padding, Terminal, Traverse, SURBReplies,
         Outcomes, Primitives.Laws, CommandsFit, CommandBytes, Geometry.Fits;
    var m := Zeros(o.g.payloadTagLength) + payload;
    var last := |o.path| - 1;
    TraverseAll(o, scheme, privs, EncryptFor(o, 0, m));
    LayersComeOff(o, |o.path|, m);
    TerminalAccepts(o.g, o.path[last].commands, payload, o.prims.hash(o.layers[last].element));
  }

  lemma RepeatedNotDelivered(o: Onion, scheme: Scheme, privs: seq<Bytes>, payload: Bytes)
    requires o.prims.Laws() && Matches(o, scheme, privs) && AllFit(o) && !Unrepeated(o)
    ensures !DeliveredAlong(o, Traverse(o.prims, o.g, scheme, privs, NewPacket(o, payload)), payload)
  {
    hide KeysMeet, Onion.Blocks, Onion.Fragment, Onion.HopCommands, Onion.Inner, Onion.Padding, Terminal, Traverse, SURBReplies,
         Outcomes, Primitives.Laws, CommandsFit, CommandBytes, Geometry.Fits;
    var m := Zeros(o.g.payloadTagLength) + payload;
    var p := EncryptFor(o, 0, m);
    PacketIsPacketAt(o, p);
    assert privs[0..] == privs;
    TraverseFrom(o, scheme, privs, 0, p);
    var j :| 0 <= j < |o.path| && SURBReplies(o.path[j].commands) > 1;
    RepeatedIsRefused(o, 0, j, p);
  }

  /** End-to-end delivery of a forward packet, and exactly when it happens. */
  lemma ForwardDelivery(o: Onion, scheme: Scheme, privs: seq<Bytes>, payload: Bytes)
    requires o.prims.Laws() && Matches(o, scheme, privs) && AllFit(o)
    ensures DeliveredAlong(o, Traverse(o.prims, o.g, scheme, privs, NewPacket(o, payload)), payload) <==> Unrepeated(o)
  {
    hide Matches, Traverse, DeliveredAlong, NewPacket, AllFit, Unrepeated, Primitives.Laws;
    if Unrepeated(o) {
      DeliveredUnrepeated(o, scheme, privs, payload);
    } else {
      RepeatedNotDelivered(o, scheme, privs, payload);
    }
  }
}
