/** The nested header shared by the NIKE and KEM packet formats: what its creator computes,
    what a hop computes, and why the two meet.  `slot` is the number of octets at the end of each
    routing slot that carry the next hop's key material: 0 for NIKE, the ciphertext size for KEM. */
module SphinxOnion {
  import opened Bytes
  import opened SphinxCommands
  import opened SphinxSuite
  import opened Wrappers

  datatype PathHop = PathHop(id: NodeID, publicKey: Bytes, commands: seq<RoutingCommand>)

  datatype CommandError = UnexpectedNextNodeHop | Oversized | InsufficientCapacity

  /** commandsToBytes: the commands of one hop, or the reason they are refused. */
  function CommandBytes(g: Geometry, cmds: seq<RoutingCommand>, isTerminal: bool): Result<Bytes, CommandError> {
    if HasNextNode(cmds) then Failure(UnexpectedNextNodeHop)
    else if |Serialize(cmds)| > g.perHop then Failure(Oversized)
    else if !isTerminal && g.perHop - |Serialize(cmds)| < g.nextNodeHopLength then Failure(InsufficientCapacity)
    else Success(Serialize(cmds))
  }

  method CommandsToBytes(g: Geometry, cmds: seq<RoutingCommand>, isTerminal: bool)
    returns (r: Result<Bytes, CommandError>)
    ensures r == CommandBytes(g, cmds, isTerminal)
  {
    assert Serialize(cmds[..0]) == [];
    hide Serialize, ToBytes;
    var b: Bytes := [];
    for i := 0 to |cmds|
      invariant b == Serialize(cmds[..i])
      invariant !HasNextNode(cmds[..i])
    {
      if cmds[i].NextNodeHop? {
        return Failure(UnexpectedNextNodeHop);
      }
      assert cmds[..i + 1] == cmds[..i] + [cmds[i]];
      SerializeAppend(cmds[..i], cmds[i]);
      b := b + ToBytes(cmds[i]);
    }
    assert cmds[..|cmds|] == cmds;
    if |b| > g.perHop {
      return Failure(Oversized);
    }
    if !isTerminal && g.perHop - |b| < g.nextNodeHopLength {
      return Failure(InsufficientCapacity);
    }
    return Success(b);
  }

  /** xorBytes; the precondition is the length check whose failure panics. */
  method XorBytes(a: Bytes, b: Bytes) returns (dst: Bytes)
    requires |a| == |b|
    ensures dst == Xor(a, b)
  {
    dst := a;
    for i := 0 to |a|
      invariant |dst| == |a|
      invariant forall k :: 0 <= k < i ==> dst[k] == a[k] ^ b[k]
      invariant forall k :: i <= k < |a| ==> dst[k] == a[k]
    {
      dst := dst[i := a[i] ^ b[i]];
    }
  }

  /** A prefix of the key stream applied to a block. */
  function Encrypt(plain: Bytes, ks: Bytes): (b: Bytes)
    requires |plain| <= |ks|
    ensures |b| == |plain|
  {
    Xor(plain, ks[..|plain|])
  }

  /** What the rest of the key stream, from cut on, does to the padding and one slot of zeros. */
  function Extend(pad: Bytes, ks: Bytes, cut: nat): (b: Bytes)
    requires cut + |pad| <= |ks|
    ensures |b| == |ks| - cut
  {
    Xor(pad, ks[cut..cut + |pad|]) + ks[cut + |pad|..]
  }

  /** The key material the creator prepared for one hop. */
  datatype Layer = Layer(element: Bytes, keys: PacketKeys)

  datatype Block = Block(routingInfo: Bytes, mac: Mac)

  /** Everything that determines a header. */
  datatype Onion = Onion(prims: Primitives, g: Geometry, elementSize: nat, slot: nat,
                         layers: seq<Layer>, path: seq<PathHop>, junk: Bytes)
  {
    ghost predicate Shaped() {
      && g.Fits(elementSize)
      && (slot == 0 || slot == elementSize) && slot <= g.perHop
      && 1 <= |path| <= g.nrHops
      && |layers| == |path|
      && |junk| == (g.nrHops - |path|) * g.perHop
      && (forall i :: 0 <= i < |path| ==> |layers[i].element| == elementSize)
    }

    /** The commands of hop i and of all later hops can be encoded. */
    ghost predicate ValidFrom(i: nat) {
      && Shaped()
      && (forall k :: i <= k < |path| ==> CommandBytes(g, path[k].commands, k == |path| - 1).Success?)
    }

    ghost predicate Valid() { ValidFrom(0) }

    function Stream(i: nat): (s: Bytes)
      requires i < |layers|
      ensures |s| == (g.nrHops + 1) * g.perHop
    {
      prims.KeyStream(layers[i].keys, (g.nrHops + 1) * g.perHop)
    }

    /** The padding that hops 0..i-1 have appended when the packet reaches hop i. */
    function Padding(i: nat): (p: Bytes)
      requires i <= |layers| <= g.nrHops
      ensures |p| == i * g.perHop
    {
      if i == 0 then []
      else
        SlotArith(g.nrHops, i - 1, g.perHop);
        Extend(Padding(i - 1), Stream(i - 1), (g.nrHops - (i - 1)) * g.perHop)
    }

    /** The commands hop i is to see: its own, then where to send the packet. */
    function HopCommands(i: nat): seq<RoutingCommand>
      requires ValidFrom(i) && i < |path|
      decreases |path| - i, 0
    {
      if i == |path| - 1 then path[i].commands
      else path[i].commands + [NextNodeHop(path[i + 1].id, Blocks(i + 1).mac)]
    }

    lemma HopCommandsFit(i: nat)
      requires ValidFrom(i) && i < |path|
      ensures |Serialize(HopCommands(i))| <= g.perHop
      decreases |path| - i, 1
    {
      assert CommandBytes(g, path[i].commands, i == |path| - 1).Success?;
      if i != |path| - 1 {
        SerializeAppend(path[i].commands, NextNodeHop(path[i + 1].id, Blocks(i + 1).mac));
      }
    }

    /** The plaintext routing slot of hop i. */
    function Fragment(i: nat): (f: Bytes)
      requires ValidFrom(i) && i < |path|
      ensures |f| == g.perHop
      decreases |path| - i, 2
    {
      HopCommandsFit(i);
      var b := Serialize(HopCommands(i));
      var padded := b + Zeros(g.perHop - |b|);
      if i == |path| - 1 then padded
      else padded[..g.perHop - slot] + layers[i + 1].element[..slot]
    }

    /** What lies behind the slot of hop i: the encrypted block of hop i+1, or random filling. */
    function Inner(i: nat): (b: Bytes)
      requires ValidFrom(i) && i < |path|
      ensures |b| == (g.nrHops - (i + 1)) * g.perHop
      decreases |path| - i, 0
    {
      if i == |path| - 1 then junk else Blocks(i + 1).routingInfo
    }

    /** The encrypted routing block addressed to hop i, and its MAC. */
    function Blocks(i: nat): (b: Block)
      requires ValidFrom(i) && i < |path|
      ensures |b.routingInfo| == (g.nrHops - i) * g.perHop
      decreases |path| - i, 3
    {
      SlotArith(g.nrHops, i, g.perHop);
      var ri := Encrypt(Fragment(i) + Inner(i), Stream(i));
      Block(ri, prims.mac(layers[i].keys.headerMAC, V0_AD + layers[i].element + ri + Padding(i)))
    }

    /** The routing field of the packet when it reaches hop i. */
    function RoutingField(i: nat): (b: Bytes)
      requires ValidFrom(i) && i < |path|
      ensures |b| == g.routingInfoLength
    {
      Blocks(i).routingInfo + Padding(i)
    }

    function Header(): (h: Bytes)
      requires Valid()
      ensures |h| == g.headerLength
    {
      V0_AD + layers[0].element + Blocks(0).routingInfo + Blocks(0).mac
    }

    /** The packet that hop i receives, carrying the given payload field. */
    function PacketAt(i: nat, payload: Bytes): Bytes
      requires Valid() && i < |path|
    {
      Assemble(layers[i].element, RoutingField(i), Blocks(i).mac, payload)
    }
  }

  lemma SlotArith(n: nat, i: nat, len: nat)
    requires i <= n
    ensures 0 <= (n - i) * len <= n * len
    ensures i < n ==> (n - i) * len == len + (n - (i + 1)) * len
    ensures (n + 1) * len == n * len + len
    ensures (i + 1) * len == i * len + len
    ensures n * len - (n - i) * len == i * len
  {}

  function Assemble(element: Bytes, routingInfo: Bytes, mac: Bytes, payload: Bytes): Bytes {
    V0_AD + element + routingInfo + mac + payload
  }

  /** Decrypting one layer: the routing field is extended by one slot of zeros and run through the key stream. */
  function Peel(prims: Primitives, g: Geometry, keys: PacketKeys, routingField: Bytes): (b: Bytes)
    requires |routingField| == g.routingInfoLength
    ensures |b| == g.routingInfoLength + g.perHop
  {
    Xor(routingField + Zeros(g.perHop), prims.KeyStream(keys, g.routingInfoLength + g.perHop))
  }

  lemma SuffixSlices(ks: Bytes, cut: nat, n: nat)
    requires cut + n <= |ks|
    ensures ks[cut..][..n] == ks[cut..cut + n] && ks[cut..][n..] == ks[cut + n..]
  {}

  lemma ExtendIsXor(pad: Bytes, len: nat, ks: Bytes, cut: nat)
    requires cut + |pad| + len == |ks|
    ensures Xor(pad + Zeros(len), ks[cut..]) == Extend(pad, ks, cut)
  {
    var tail := ks[cut..];
    assert |tail[|pad|..]| == len;
    calc {
      Xor(pad + Zeros(len), tail);
      { XorConcat(pad, Zeros(len), tail); }
      Xor(pad, tail[..|pad|]) + Xor(Zeros(len), tail[|pad|..]);
      { XorZeros(tail[|pad|..]); }
      Xor(pad, tail[..|pad|]) + tail[|pad|..];
      { SuffixSlices(ks, cut, |pad|); }
      Extend(pad, ks, cut);
    }
  }

  lemma PeelBytes(plain: Bytes, pad: Bytes, len: nat, ks: Bytes)
    requires |plain| + |pad| + len == |ks|
    ensures Xor(Encrypt(plain, ks) + pad + Zeros(len), ks) == plain + Extend(pad, ks, |plain|)
  {
    ConcatAssociates(Encrypt(plain, ks), pad, Zeros(len));
    XorConcat(Encrypt(plain, ks), pad + Zeros(len), ks);
    XorCancels(plain, ks[..|plain|]);
    ExtendIsXor(pad, len, ks, |plain|);
  }

  lemma PlainLength(o: Onion, i: nat)
    requires o.Valid() && i < |o.path|
    ensures |o.Fragment(i) + o.Inner(i)| == (o.g.nrHops - i) * o.g.perHop
    ensures |o.Fragment(i) + o.Inner(i)| + |o.Padding(i)| == o.g.nrHops * o.g.perHop
    ensures o.g.routingInfoLength + o.g.perHop == (o.g.nrHops + 1) * o.g.perHop
  {
    hide Onion.Fragment, Onion.Inner, Onion.Padding;
    SlotArith(o.g.nrHops, i, o.g.perHop);
  }

  /** Filler invariant: peeling turns block i followed by padding i into
      the slot of hop i, block i+1 and padding i+1. */
  lemma PeelLayer(o: Onion, i: nat)
    requires o.Valid() && i < |o.path|
    ensures Peel(o.prims, o.g, o.layers[i].keys, o.RoutingField(i))
            == o.Fragment(i) + (o.Inner(i) + o.Padding(i + 1))
  {
    hide Onion.Fragment, Onion.Inner, Onion.HopCommands, Encrypt, Extend, Xor;
    var plain, pad, ks := o.Fragment(i) + o.Inner(i), o.Padding(i), o.Stream(i);
    PlainLength(o, i);
    assert o.Padding(i + 1) == Extend(pad, ks, |plain|);
    PeelBytes(plain, pad, o.g.perHop, ks);
    ConcatAssociates(o.Fragment(i), o.Inner(i), o.Padding(i + 1));
  }
}
