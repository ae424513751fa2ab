/** What one hop does with a packet, for both key agreement schemes, and what a packet built
    as an onion goes through on its way. */
module SphinxUnwrap {
  import opened Bytes
  import opened SphinxCommands
  import opened SphinxSuite
  import opened SphinxOnion
  import opened Wrappers

  datatype Scheme = NikeScheme(nike: Nike) | KemScheme(kem: Kem)
  {
    function ElementSize(): nat {
      match this
      case NikeScheme(nike) => nike.publicKeySize
      case KemScheme(kem) => kem.ciphertextSize
    }

    /** The part of a routing slot that carries key material for the next hop. */
    function Slot(): nat {
      match this
      case NikeScheme(_) => 0
      case KemScheme(kem) => kem.ciphertextSize
    }

    /** The packet keys a hop derives from its private key and the header's key material. */
    function Agree(priv: Bytes, element: Bytes): Option<PacketKeys> {
      match this
      case NikeScheme(nike) =>
        if nike.valid(element) then Some(nike.kdf(nike.deriveSecret(priv, element))) else None
      case KemScheme(kem) =>
        var s := kem.decapsulate(priv, element);
        if s.Some? then Some(kem.kdf(s.value)) else None
    }

    /** The key material the packet leaves with. */
    function NextElement(element: Bytes, keys: PacketKeys, carried: Bytes): Bytes {
      match this
      case NikeScheme(nike) => nike.blind(element, keys.blindingFactor)
      case KemScheme(_) => carried
    }
  }

  datatype UnwrapError = Truncated | UnknownVersion | BadElement | MacMismatch
                       | BadCommands(scanError: ScanError) | TruncatedPayload | InvalidTag

  /** The fields of a packet after its version. */
  datatype Parts = Parts(element: Bytes, routingInfo: Bytes, mac: Bytes, payload: Bytes)
  {
    function Join(): Bytes { Assemble(element, routingInfo, mac, payload) }
  }

  datatype Hop =
    | Rejected(error: UnwrapError, replayTag: Option<Bytes>)
    | Forwarded(next: Parts, tag: Bytes, cmds: seq<RoutingCommand>)
    | Delivered(payload: Bytes, tag: Bytes, cmds: seq<RoutingCommand>)

  /** The last hop's check of the payload tag, skipped for SURB replies. */
  function Terminal(g: Geometry, payload: Bytes, tag: Bytes, cmds: seq<RoutingCommand>): Hop {
    if |payload| < g.payloadTagLength then Rejected(TruncatedPayload, Some(tag))
    else if HasSURBReply(cmds) then Delivered(payload, tag, cmds)
    else if IsZero(payload[..g.payloadTagLength]) then Delivered(payload[g.payloadTagLength..], tag, cmds)
    else Rejected(InvalidTag, Some(tag))
  }

  function DecryptPayload(prims: Primitives, keys: PacketKeys, payload: Bytes): Bytes {
    if |payload| > 0 then prims.Dec(keys, payload) else payload
  }

  /** A hop's decision once its commands are known. */
  function Dispatch(g: Geometry, next: Parts, tag: Bytes, cmds: seq<RoutingCommand>): Hop {
    var nextNode := FindNextNode(cmds);
    if nextNode.Some? then Forwarded(next.(mac := nextNode.value.mac), tag, cmds)
    else Terminal(g, next.payload, tag, cmds)
  }

  function Obey(g: Geometry, scanned: Result<seq<RoutingCommand>, ScanError>, tag: Bytes, next: Parts): Hop {
    if scanned.Failure? then Rejected(BadCommands(scanned.error), Some(tag))
    else Dispatch(g, next, tag, scanned.value)
  }

  function UnwrapParts(prims: Primitives, g: Geometry, scheme: Scheme, priv: Bytes, p: Parts): Hop
    requires g.Fits(scheme.ElementSize()) && scheme.Slot() <= g.perHop
    requires |p.routingInfo| == g.routingInfoLength
  {
    var agreed := scheme.Agree(priv, p.element);
    if agreed.None? then Rejected(BadElement, None)
    else
      var keys, tag := agreed.value, prims.hash(p.element);
      if prims.mac(keys.headerMAC, V0_AD + p.element + p.routingInfo) != p.mac then Rejected(MacMismatch, Some(tag))
      else
        var b := Peel(prims, g, keys, p.routingInfo);
        var cmdEnd := g.perHop - scheme.Slot();
        Obey(g, Scan(b[..cmdEnd], []), tag,
             Parts(scheme.NextElement(p.element, keys, b[cmdEnd..g.perHop]), b[g.perHop..], [],
                   DecryptPayload(prims, keys, p.payload)))
  }

  function Split(g: Geometry, elementSize: nat, pkt: Bytes): (p: Parts)
    requires g.Fits(elementSize) && |pkt| >= g.headerLength
    ensures |p.element| == elementSize && |p.routingInfo| == g.routingInfoLength && |p.mac| == MAC_LENGTH
  {
    var riOff := AD_LENGTH + elementSize;
    var macOff := riOff + g.routingInfoLength;
    var payloadOff := macOff + MAC_LENGTH;
    Parts(pkt[AD_LENGTH..riOff], pkt[riOff..macOff], pkt[macOff..payloadOff], pkt[payloadOff..])
  }

  lemma SplitJoin(g: Geometry, elementSize: nat, p: Parts)
    requires g.Fits(elementSize)
    requires |p.element| == elementSize && |p.routingInfo| == g.routingInfoLength && |p.mac| == MAC_LENGTH
    ensures |p.Join()| >= g.headerLength && p.Join()[..AD_LENGTH] == V0_AD
    ensures Split(g, elementSize, p.Join()) == p
  {
    var pkt := p.Join();
    var riOff := AD_LENGTH + elementSize;
    var macOff := riOff + g.routingInfoLength;
    assert pkt[AD_LENGTH..riOff] == p.element;
    assert pkt[riOff..macOff] == p.routingInfo;
    assert pkt[macOff..macOff + MAC_LENGTH] == p.mac;
    assert pkt[macOff + MAC_LENGTH..] == p.payload;
  }

  /** Unwrap, on the bytes of a packet. */
  function Unwrap(prims: Primitives, g: Geometry, scheme: Scheme, priv: Bytes, pkt: Bytes): Hop
    requires g.Fits(scheme.ElementSize()) && scheme.Slot() <= g.perHop
  {
    if |pkt| < g.headerLength then Rejected(Truncated, None)
    else if pkt[..AD_LENGTH] != V0_AD then Rejected(UnknownVersion, None)
    else UnwrapParts(prims, g, scheme, priv, Split(g, scheme.ElementSize(), pkt))
  }

  /** The buffer after unwrapping in place: rewritten only when the packet is forwarded. */
  function Rewritten(h: Hop, pkt: Bytes): Bytes {
    if h.Forwarded? then h.next.Join() else pkt
  }

  /** A hop that forwards emits a packet of the length it received. */
  lemma LengthPreserved(prims: Primitives, g: Geometry, scheme: Scheme, priv: Bytes, pkt: Bytes)
    requires prims.Laws() && g.Fits(scheme.ElementSize()) && scheme.Slot() <= g.perHop
    requires scheme.NikeScheme? ==> scheme.nike.Laws()
    ensures |Rewritten(Unwrap(prims, g, scheme, priv, pkt), pkt)| == |pkt|
  {
    var h := Unwrap(prims, g, scheme, priv, pkt);
    if h.Forwarded? {
      var p := Split(g, scheme.ElementSize(), pkt);
      var keys := scheme.Agree(priv, p.element).value;
      prims.DecLength(keys, p.payload);
    }
  }
}
