/** Forward packets, and unwrapping in place: the parts of sphinx.go and kemsphinx.go that do not depend on
    how keys are agreed. */
module SphinxPacket {
  import opened Bytes
  import opened SphinxCommands
  import opened SphinxSuite
  import opened SphinxOnion
  import opened SphinxUnwrap
  import opened SphinxHeader
  import opened SphinxRoute
  import opened Wrappers

  datatype PacketError = InvalidPayloadLength | HeaderFailed(headerError: HeaderError)

  /** What packet creation must return. */
  ghost predicate PacketSpec(o: Onion, payload: Bytes, r: Result<Bytes, PacketError>) {
    if |payload| != o.g.forwardPayloadLength then r == Failure(InvalidPayloadLength)
    else if |o.path| > o.g.nrHops then r == Failure(HeaderFailed(InvalidPath))
    else if o.Valid() then r == Success(NewPacket(o, payload))
    else r.Failure? && r.error.HeaderFailed? && r.error.headerError.InvalidCommands?
  }

  /** The payload encryption loop, from the last hop to the first. */
  method EncryptPayload(o: Onion, sprpKeys: seq<SprpKeys>, m: Bytes) returns (b: Bytes)
    requires sprpKeys == SprpOf(o.layers)
    ensures b == EncryptFor(o, 0, m)
  {
    b := m;
    var i := |o.layers|;
    while i > 0
      invariant 0 <= i <= |o.layers|
      invariant b == EncryptFor(o, i, m)
    {
      i := i - 1;
      b := o.prims.sprpEncrypt(sprpKeys[i].key, sprpKeys[i].iv, b);
    }
  }

  method FinishPacket(o: Onion, created: Result<Created, HeaderError>, payload: Bytes) returns (r: Result<Bytes, PacketError>)
    requires o.prims.Laws()
    requires |payload| == o.g.forwardPayloadLength
    requires if |o.path| > o.g.nrHops then created == Failure(InvalidPath) else o.Shaped() && HeaderSpec(o, created)
    ensures PacketSpec(o, payload, r)
  {
    hide NewPacket, EncryptFor, Onion.Header, Primitives.Laws;
    if created.Failure? {
      return Failure(HeaderFailed(created.error));
    }
    var hdr := created.value.header;
    var zeroBytes := Zeros(o.g.perHop);
    var pkt := hdr + zeroBytes[..o.g.payloadTagLength] + payload;
    assert pkt[|hdr|..] == Zeros(o.g.payloadTagLength) + payload;
    var b := EncryptPayload(o, created.value.sprpKeys, pkt[|hdr|..]);
    EncryptForLength(o, 0, pkt[|hdr|..]);
    pkt := pkt[..|hdr|] + b;
    PacketIs(o, payload, pkt);
    return Success(pkt);
  }

  lemma PacketIs(o: Onion, payload: Bytes, pkt: Bytes)
    requires o.Valid() && pkt == o.Header() + EncryptFor(o, 0, Zeros(o.g.payloadTagLength) + payload)
    ensures pkt == NewPacket(o, payload)
  {}

  /** The builtin copy, into dst from offset off on. */
  method CopyInto(dst: array<Byte>, off: nat, src: Bytes)
    requires off + |src| <= dst.Length
    modifies dst
    ensures dst[..] == old(dst[..off]) + src + old(dst[off + |src|..])
  {
    forall k | 0 <= k < |src| {
      dst[off + k] := src[k];
    }
  }

  /** The copies that turn the packet into the one for the next hop. */
  method Rewrite(pkt: array<Byte>, next: Parts)
    requires pkt.Length == |next.Join()| && pkt[..AD_LENGTH] == V0_AD
    modifies pkt
    ensures pkt[..] == next.Join()
  {
    var riOff := AD_LENGTH + |next.element|;
    var macOff := riOff + |next.routingInfo|;
    CopyInto(pkt, AD_LENGTH, next.element);
    CopyInto(pkt, riOff, next.routingInfo);
    CopyInto(pkt, macOff, next.mac);
    CopyInto(pkt, macOff + |next.mac|, next.payload);
  }

  /** CtIsZero: the or of all octets is zero. */
  method CtIsZero(b: Bytes) returns (zero: bool)
    ensures zero <==> IsZero(b)
  {
    var sum: Byte := 0;
    for i := 0 to |b|
      invariant sum == 0 <==> IsZero(b[..i])
    {
      OrZero(sum, b[i]);
      sum := sum | b[i];
      assert b[..i + 1] == b[..i] + [b[i]];
    }
    assert b[..|b|] == b;
    zero := sum == 0;
  }

  lemma OrZero(x: Byte, y: Byte)
    ensures x | y == 0 <==> x == 0 && y == 0
  {}

  /** unwrapNike and unwrapKem: decide on the packet and, when it is to be forwarded, rewrite it in place. */
  method UnwrapInPlace(prims: Primitives, g: Geometry, scheme: Scheme, priv: Bytes, pkt: array<Byte>) returns (h: Hop)
    requires prims.Laws() && g.Fits(scheme.ElementSize()) && scheme.Slot() <= g.perHop
    requires scheme.NikeScheme? ==> scheme.nike.Laws()
    modifies pkt
    ensures h == Unwrap(prims, g, scheme, priv, old(pkt[..]))
    ensures pkt[..] == Rewritten(h, old(pkt[..]))
  {
    hide Nike.Laws, Primitives.Laws, Scan;
    var riOff := AD_LENGTH + scheme.ElementSize();
    var macOff := riOff + g.routingInfoLength;
    var payloadOff := macOff + MAC_LENGTH;
    if pkt.Length < g.headerLength {
      return Rejected(Truncated, None);
    }
    if pkt[..AD_LENGTH] != V0_AD {
      assert pkt[..][..AD_LENGTH] == pkt[..AD_LENGTH];
      return Rejected(UnknownVersion, None);
    }
    ghost var parts := Split(g, scheme.ElementSize(), pkt[..]);
    assert parts == Parts(pkt[AD_LENGTH..riOff], pkt[riOff..macOff], pkt[macOff..payloadOff], pkt[payloadOff..]);
    var element := pkt[AD_LENGTH..riOff];
    var agreed := scheme.Agree(priv, element);
    if agreed.None? {
      return Rejected(BadElement, None);
    }
    var replayTag := prims.hash(element);
    var keys := agreed.value;
    HeaderPrefix(pkt[..], riOff, macOff);
    var mac := prims.mac(keys.headerMAC, pkt[..macOff]);
    if pkt[macOff..payloadOff] != mac {
      return Rejected(MacMismatch, Some(replayTag));
    }
    var b := XorBytes(pkt[riOff..macOff] + Zeros(g.perHop), prims.KeyStream(keys, g.routingInfoLength + g.perHop));
    var cmdBuf := b[..g.perHop - scheme.Slot()];
    var newRoutingInfo := b[g.perHop..];
    var scanned, nextNode := ParseCommands(cmdBuf);
    if scanned.Failure? {
      return Rejected(BadCommands(scanned.error), Some(replayTag));
    }
    var cmds := scanned.value;
    var payload := pkt[payloadOff..];
    if |payload| > 0 {
      payload := prims.sprpDecrypt(keys.payloadEncryption, keys.iv, payload);
    }
    if nextNode.Some? {
      var nextElement := scheme.NextElement(element, keys, b[g.perHop - scheme.Slot()..g.perHop]);
      h := Forwarded(Parts(nextElement, newRoutingInfo, nextNode.value.mac, payload), replayTag, cmds);
      LengthPreserved(prims, g, scheme, priv, pkt[..]);
      NextElementSize(scheme, priv, element, keys, b[g.perHop - scheme.Slot()..g.perHop]);
      Rewrite(pkt, h.next);
      return;
    }
    if |payload| < g.payloadTagLength {
      return Rejected(TruncatedPayload, Some(replayTag));
    }
    if !HasSURBReply(cmds) {
      var zero := CtIsZero(payload[..g.payloadTagLength]);
      if !zero {
        return Rejected(InvalidTag, Some(replayTag));
      }
      payload := payload[g.payloadTagLength..];
    }
    return Delivered(payload, replayTag, cmds);
  }

  lemma HeaderPrefix(pkt: Bytes, riOff: nat, macOff: nat)
    requires AD_LENGTH <= riOff <= macOff <= |pkt| && pkt[..AD_LENGTH] == V0_AD
    ensures pkt[..macOff] == V0_AD + pkt[AD_LENGTH..riOff] + pkt[riOff..macOff]
  {}

  lemma NextElementSize(scheme: Scheme, priv: Bytes, element: Bytes, keys: PacketKeys, carried: Bytes)
    requires scheme.NikeScheme? ==> scheme.nike.Laws()
    requires scheme.Agree(priv, element) == Some(keys) && |carried| == scheme.Slot()
    ensures |scheme.NextElement(element, keys, carried)| == scheme.ElementSize()
  {}
}
