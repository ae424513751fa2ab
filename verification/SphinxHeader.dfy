/** Header assembly once every hop's key material is known: the second half of createHeader and createKEMHeader. */
module SphinxHeader {
  import opened Bytes
  import opened SphinxCommands
  import opened SphinxSuite
  import opened SphinxOnion
  import opened Wrappers

  datatype HeaderError = InvalidPath | InvalidCommands(commandError: CommandError)

  datatype SprpKeys = SprpKeys(key: SprpKey, iv: IV)

  datatype Created = Created(header: Bytes, sprpKeys: seq<SprpKeys>)

  function SprpOf(layers: seq<Layer>): (s: seq<SprpKeys>)
    ensures |s| == |layers|
  {
    seq(|layers|, i requires 0 <= i < |layers| => SprpKeys(layers[i].keys.payloadEncryption, layers[i].keys.iv))
  }

  /** Hop i is the last one whose commands cannot be encoded, and r says why. */
  ghost predicate RefusedAt(o: Onion, i: nat, r: Result<Created, HeaderError>) {
    && i < |o.path| && o.ValidFrom(i + 1)
    && var b := CommandBytes(o.g, o.path[i].commands, i == |o.path| - 1);
       b.Failure? && r == Failure(InvalidCommands(b.error))
  }

  /** Header creation succeeds, with the onion's header and payload keys, exactly when every hop's commands
      can be encoded. */
  ghost predicate HeaderSpec(o: Onion, r: Result<Created, HeaderError>)
    requires o.Shaped()
  {
    if o.Valid() then r == Success(Created(o.Header(), SprpOf(o.layers)))
    else exists i :: RefusedAt(o, i, r)
  }

  /** The key stream for the routing block of hop i, and what is left of it for the padding. */
  function StreamHead(o: Onion, i: nat): Bytes
    requires o.Shaped() && i < |o.path|
  {
    SlotArith(o.g.nrHops, i, o.g.perHop);
    o.Stream(i)[..(o.g.nrHops - i) * o.g.perHop]
  }

  /** A key stream tail with the earlier padding mixed in. */
  function Mixed(tail: Bytes, earlier: Bytes): Bytes
    requires |earlier| <= |tail|
  {
    Xor(tail[..|earlier|], earlier) + tail[|earlier|..]
  }

  lemma MixedNothing(tail: Bytes)
    ensures Mixed(tail, []) == tail
  {}

  lemma StreamSplit(o: Onion, i: nat)
    requires o.Shaped() && i < |o.path|
    ensures o.g.routingInfoLength + o.g.perHop == (o.g.nrHops + 1) * o.g.perHop
    ensures |o.Stream(i)| - (i + 1) * o.g.perHop == (o.g.nrHops - i) * o.g.perHop >= 0
    ensures (o.g.nrHops - i) * o.g.perHop + |o.Padding(i)| <= |o.Stream(i)|
  {
    hide Onion.Stream, Onion.Padding;
    SlotArith(o.g.nrHops, i, o.g.perHop);
  }

  lemma ExtendIsMixed(ks: Bytes, cut: nat, earlier: Bytes)
    requires cut + |earlier| <= |ks|
    ensures Extend(earlier, ks, cut) == Mixed(ks[cut..], earlier)
  {
    SuffixSlices(ks, cut, |earlier|);
    XorCommutes(ks[cut..][..|earlier|], earlier);
  }

  /** One turn of the padding loop computes the next padding. */
  lemma PaddingTurn(o: Onion, i: nat, ksLen: nat)
    requires o.Shaped() && i < |o.path| && ksLen == (o.g.nrHops - i) * o.g.perHop
    requires ksLen + |o.Padding(i)| <= |o.Stream(i)|
    ensures o.Padding(i + 1) == Mixed(o.Stream(i)[ksLen..], o.Padding(i))
  {
    hide Onion.Stream, Mixed, Extend;
    ExtendIsMixed(o.Stream(i), ksLen, o.Padding(i));
  }

  /** One turn of the loop: the key stream of hop i and the padding that it makes of the earlier one. */
  method KeyStreamTurn(o: Onion, i: nat, earlier: Bytes) returns (stream: Bytes, pad: Bytes)
    requires o.Shaped() && i < |o.path| && earlier == o.Padding(i)
    ensures stream == StreamHead(o, i) && pad == o.Padding(i + 1)
  {
    hide Onion.Padding, Xor, Geometry.Fits;
    var len := o.g.perHop;
    StreamSplit(o, i);
    var keyStream := o.prims.KeyStream(o.layers[i].keys, o.g.routingInfoLength + len);
    var ksLen := |keyStream| - (i + 1) * len;
    stream, pad := keyStream[..ksLen], keyStream[ksLen..];
    PaddingTurn(o, i, ksLen);
    if i > 0 {
      var prevPadLen := |earlier|;
      var mixed := XorBytes(pad[..prevPadLen], earlier);
      pad := mixed + pad[prevPadLen..];
    } else {
      FirstPadding(o);
      MixedNothing(pad);
    }
  }

  method KeyStreams(o: Onion) returns (riKeyStream: seq<Bytes>, riPadding: seq<Bytes>)
    requires o.Shaped()
    ensures |riKeyStream| == |riPadding| == |o.path|
    ensures forall i :: 0 <= i < |o.path| ==> riKeyStream[i] == StreamHead(o, i)
    ensures forall i :: 1 <= i <= |o.path| ==> riPadding[i - 1] == o.Padding(i)
  {
    hide Onion.Padding, StreamHead;
    riKeyStream, riPadding := [], [];
    var pad := [];
    FirstPadding(o);
    for i := 0 to |o.path|
      invariant |riKeyStream| == |riPadding| == i && pad == o.Padding(i)
      invariant forall k :: 0 <= k < i ==> riKeyStream[k] == StreamHead(o, k)
      invariant forall k :: 1 <= k <= i ==> riPadding[k - 1] == o.Padding(k)
    {
      var stream;
      stream, pad := KeyStreamTurn(o, i, pad);
      riKeyStream := riKeyStream + [stream];
      riPadding := riPadding + [pad];
    }
  }

  lemma FirstPadding(o: Onion)
    requires o.Shaped()
    ensures o.Padding(0) == []
  {}

  lemma FragmentIs(o: Onion, i: nat, b: Bytes)
    requires o.ValidFrom(i) && i < |o.path|
    requires b == if i == |o.path| - 1 then Serialize(o.path[i].commands)
                  else Serialize(o.path[i].commands) + ToBytes(NextNodeHop(o.path[i + 1].id, o.Blocks(i + 1).mac))
    ensures |b| <= o.g.perHop
    ensures var padded := b + Zeros(o.g.perHop - |b|);
            o.Fragment(i) == if i == |o.path| - 1 then padded
                             else padded[..o.g.perHop - o.slot] + o.layers[i + 1].element[..o.slot]
  {
    hide Onion.Blocks, ToBytes;
    o.HopCommandsFit(i);
    if i < |o.path| - 1 {
      SerializeAppend(o.path[i].commands, NextNodeHop(o.path[i + 1].id, o.Blocks(i + 1).mac));
    }
  }

  /** The plaintext slot of hop i, given the MAC of hop i+1's block. */
  method MakeFragment(o: Onion, i: nat, mac: Mac) returns (r: Result<Bytes, CommandError>)
    requires o.ValidFrom(i + 1) && i < |o.path|
    requires i < |o.path| - 1 ==> mac == o.Blocks(i + 1).mac
    ensures var b := CommandBytes(o.g, o.path[i].commands, i == |o.path| - 1);
            if b.Failure? then r == Failure(b.error) else r == Success(o.Fragment(i))
  {
    hide Onion.Blocks, Onion.Fragment, ToBytes, Serialize;
    var isTerminal := i == |o.path| - 1;
    var b := CommandsToBytes(o.g, o.path[i].commands, isTerminal);
    if b.Failure? {
      return Failure(b.error);
    }
    assert o.ValidFrom(i);
    var riFragment := b.value;
    if !isTerminal {
      riFragment := riFragment + ToBytes(NextNodeHop(o.path[i + 1].id, mac));
    }
    FragmentIs(o, i, riFragment);
    riFragment := riFragment + Zeros(o.g.perHop - |riFragment|);
    if !isTerminal {
      riFragment := riFragment[..o.g.perHop - o.slot] + o.layers[i + 1].element[..o.slot];
    }
    return Success(riFragment);
  }

  lemma BlockIs(o: Onion, i: nat)
    requires o.ValidFrom(i) && i < |o.path|
    ensures |o.Fragment(i) + o.Inner(i)| == |StreamHead(o, i)|
    ensures o.Blocks(i).routingInfo == Xor(o.Fragment(i) + o.Inner(i), StreamHead(o, i))
    ensures o.Blocks(i).mac == o.prims.mac(o.layers[i].keys.headerMAC,
                                           V0_AD + o.layers[i].element + o.Blocks(i).routingInfo + o.Padding(i))
  {
    hide Onion.Fragment, Onion.Inner, Onion.Padding, Onion.Stream;
    SlotArith(o.g.nrHops, i, o.g.perHop);
  }

  method BuildHeader(o: Onion) returns (r: Result<Created, HeaderError>)
    requires o.Shaped()
    ensures HeaderSpec(o, r)
  {
    hide Onion.Blocks, Onion.Fragment, Onion.Padding, Onion.Stream, Geometry.Fits, Serialize, CommandBytes, StreamHead;
    var riKeyStream, riPadding := KeyStreams(o);
    var mac: Mac := Zeros(MAC_LENGTH);
    var routingInfo := o.junk;
    var i := |o.path|;
    while i > 0
      invariant 0 <= i <= |o.path| && o.ValidFrom(i)
      invariant i < |o.path| ==> mac == o.Blocks(i).mac && routingInfo == o.Blocks(i).routingInfo
      invariant i == |o.path| ==> routingInfo == o.junk
    {
      i := i - 1;
      var fragment := MakeFragment(o, i, mac);
      if fragment.Failure? {
        r := Failure(InvalidCommands(fragment.error));
        assert RefusedAt(o, i, r);
        return;
      }
      BlockIs(o, i);
      routingInfo := fragment.value + routingInfo;
      routingInfo := XorBytes(routingInfo, riKeyStream[i]);
      var macInput := V0_AD + o.layers[i].element + routingInfo;
      if i > 0 {
        macInput := macInput + riPadding[i - 1];
      } else {
        FirstPadding(o);
        assert macInput + [] == macInput;
      }
      mac := o.prims.mac(o.layers[i].keys.headerMAC, macInput);
    }
    var hdr := V0_AD + o.layers[0].element + routingInfo + mac;
    var sprpKeys: seq<SprpKeys> := [];
    for k := 0 to |o.path|
      invariant sprpKeys == SprpOf(o.layers[..k])
    {
      sprpKeys := sprpKeys + [SprpKeys(o.layers[k].keys.payloadEncryption, o.layers[k].keys.iv)];
      assert o.layers[..k + 1] == o.layers[..k] + [o.layers[k]];
    }
    assert o.layers[..|o.path|] == o.layers;
    r := Success(Created(hdr, sprpKeys));
  }
}
