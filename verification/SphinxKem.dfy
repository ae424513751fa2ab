/** The KEM packet format: core/sphinx/kemsphinx.go. */
module SphinxKem {
  import opened Bytes
  import opened SphinxCommands
  import opened SphinxSuite
  import opened SphinxOnion
  import opened SphinxUnwrap
  import opened SphinxRoute
  import opened SphinxHeader
  import opened SphinxPacket
  import SphinxNike
  import opened SphinxOverflow
  import opened Wrappers

  /** One independent encapsulation per hop. */
  function KemLayers(kem: Kem, coins: seq<Bytes>, path: seq<PathHop>): (layers: seq<Layer>)
    requires |coins| == |path|
    ensures |layers| == |path|
  {
    seq(|path|, i requires 0 <= i < |path| =>
      Layer(kem.ciphertext(path[i].publicKey, coins[i]), kem.kdf(kem.secret(path[i].publicKey, coins[i]))))
  }

  function KemOnion(prims: Primitives, kem: Kem, g: Geometry, coins: seq<Bytes>, path: seq<PathHop>, junk: Bytes): Onion
    requires |coins| == |path|
  {
    Onion(prims, g, kem.ciphertextSize, kem.ciphertextSize, KemLayers(kem, coins, path), path, junk)
  }

  lemma KemMatches(o: Onion, kem: Kem, coins: seq<Bytes>, privs: seq<Bytes>)
    requires kem.Laws() && |coins| == |o.path| && o == KemOnion(o.prims, kem, o.g, coins, o.path, o.junk)
    requires o.Valid() && SphinxNike.Owns(kem.publicKey, o.path, privs)
    ensures Matches(o, KemScheme(kem), privs)
  {
    hide CommandBytes, Geometry.Fits;
    forall i | 0 <= i < |privs|
      ensures KemScheme(kem).Agree(privs[i], o.layers[i].element) == Some(o.layers[i].keys)
    {
      assert kem.decapsulate(privs[i], kem.ciphertext(kem.publicKey(privs[i]), coins[i])).Some?;
    }
  }

  /** createKEMHeader. */
  method CreateKEMHeader(prims: Primitives, kem: Kem, g: Geometry, coins: seq<Bytes>, path: seq<PathHop>, junk: Bytes)
    returns (r: Result<Created, HeaderError>)
    requires kem.Laws() && g.Fits(kem.ciphertextSize) && kem.ciphertextSize <= g.perHop && path != []
    requires |coins| == |path|
    requires |path| <= g.nrHops ==> |junk| == (g.nrHops - |path|) * g.perHop
    ensures if |path| > g.nrHops then r == Failure(InvalidPath)
            else KemOnion(prims, kem, g, coins, path, junk).Shaped()
                 && HeaderSpec(KemOnion(prims, kem, g, coins, path, junk), r)
  {
    hide HeaderSpec, Onion.Valid;
    if |path| > g.nrHops {
      return Failure(InvalidPath);
    }
    var kemElements: seq<Bytes>, keys: seq<PacketKeys> := [], [];
    for i := 0 to |path|
      invariant |kemElements| == |keys| == i
      invariant forall k :: 0 <= k < i ==> kemElements[k] == kem.ciphertext(path[k].publicKey, coins[k])
      invariant forall k :: 0 <= k < i ==> keys[k] == kem.kdf(kem.secret(path[k].publicKey, coins[k]))
    {
      kemElements := kemElements + [kem.ciphertext(path[i].publicKey, coins[i])];
      keys := keys + [kem.kdf(kem.secret(path[i].publicKey, coins[i]))];
    }
    var layers := seq(|path|, i requires 0 <= i < |path| => Layer(kemElements[i], keys[i]));
    assert layers == KemLayers(kem, coins, path);
    r := BuildHeader(Onion(prims, g, kem.ciphertextSize, kem.ciphertextSize, layers, path, junk));
  }

  /** newKEMPacket. */
  method NewKEMPacket(prims: Primitives, kem: Kem, g: Geometry, coins: seq<Bytes>, path: seq<PathHop>, junk: Bytes,
      payload: Bytes)
    returns (r: Result<Bytes, PacketError>)
    requires prims.Laws() && kem.Laws() && g.Fits(kem.ciphertextSize) && kem.ciphertextSize <= g.perHop && path != []
    requires |coins| == |path|
    requires |path| <= g.nrHops ==> |junk| == (g.nrHops - |path|) * g.perHop
    ensures PacketSpec(KemOnion(prims, kem, g, coins, path, junk), payload, r)
  {
    hide Kem.Laws, KemLayers, Onion.Valid, Primitives.Laws;
    if |payload| != g.forwardPayloadLength {
      return Failure(InvalidPayloadLength);
    }
    var created := CreateKEMHeader(prims, kem, g, coins, path, junk);
    r := FinishPacket(KemOnion(prims, kem, g, coins, path, junk), created, payload);
  }

  /** End to end: a KEM packet that could be created is delivered along its path, every hop seeing exactly its commands,
      if and only if no hop's commands repeat a surb_reply and all of them fit before the ciphertext slot. */
  lemma KemEndToEnd(prims: Primitives, kem: Kem, g: Geometry, coins: seq<Bytes>, path: seq<PathHop>, junk: Bytes,
                    privs: seq<Bytes>, payload: Bytes)
    requires prims.Laws() && kem.Laws() && |coins| == |path| && SphinxNike.Owns(kem.publicKey, path, privs)
    requires KemOnion(prims, kem, g, coins, path, junk).Valid()
    ensures var o := KemOnion(prims, kem, g, coins, path, junk);
            DeliveredAlong(o, Traverse(prims, g, KemScheme(kem), privs, NewPacket(o, payload)), payload)
            <==> Unrepeated(o) && AllFit(o)
  {
    hide Matches, AllFit, KemLayers, Onion.Valid, Traverse, Kem.Laws, Primitives.Laws, NewPacket, Unrepeated;
    var o := KemOnion(prims, kem, g, coins, path, junk);
    KemMatches(o, kem, coins, privs);
    ForwardDeliveryIff(o, KemScheme(kem), privs, payload);
  }
}
