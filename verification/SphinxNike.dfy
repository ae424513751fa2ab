/** The NIKE packet format: core/sphinx/sphinx.go. */
module SphinxNike {
  import opened Bytes
  import opened SphinxCommands
  import opened SphinxSuite
  import opened SphinxOnion
  import opened SphinxUnwrap
  import opened SphinxRoute
  import opened SphinxHeader
  import opened SphinxPacket
  import opened Wrappers

  /** An element blinded by the factors of keys[..n], in order. */
  function Blinded(nike: Nike, e: Bytes, keys: seq<PacketKeys>, n: nat): Bytes
    requires n <= |keys|
  {
    if n == 0 then e else nike.blind(Blinded(nike, e, keys, n - 1), keys[n - 1].blindingFactor)
  }

  lemma {:induction false} BlindedValid(nike: Nike, e: Bytes, keys: seq<PacketKeys>, n: nat)
    requires nike.Laws() && nike.valid(e) && n <= |keys|
    ensures nike.valid(Blinded(nike, e, keys, n))
  {
    if n > 0 {
      BlindedValid(nike, e, keys, n - 1);
    }
  }

  lemma SecretValid(nike: Nike, x: Bytes, e: Bytes, keys: seq<PacketKeys>, n: nat)
    requires nike.Laws() && nike.valid(e) && n <= |keys|
    ensures nike.valid(Blinded(nike, nike.deriveSecret(x, e), keys, n))
  {
    BlindedValid(nike, nike.deriveSecret(x, e), keys, n);
  }

  lemma {:induction false} BlindedPrefix(nike: Nike, e: Bytes, keys: seq<PacketKeys>, more: seq<PacketKeys>, n: nat)
    requires n <= |keys| && keys <= more
    ensures Blinded(nike, e, keys, n) == Blinded(nike, e, more, n)
  {
    if n > 0 {
      BlindedPrefix(nike, e, keys, more, n - 1);
    }
  }

  /** Deriving a secret from a blinded element is blinding the secret. */
  lemma {:induction false} SecretOfBlinded(nike: Nike, y: Bytes, e: Bytes, keys: seq<PacketKeys>, n: nat)
    requires nike.Laws() && nike.valid(e) && n <= |keys|
    ensures nike.deriveSecret(y, Blinded(nike, e, keys, n)) == Blinded(nike, nike.deriveSecret(y, e), keys, n)
  {
    if n > 0 {
      SecretOfBlinded(nike, y, e, keys, n - 1);
      BlindedValid(nike, e, keys, n - 1);
    }
  }

  /** The creator's packet keys for the first n hops: each secret is blinded by all earlier factors. */
  function CreatorKeys(nike: Nike, x: Bytes, path: seq<PathHop>, n: nat): (keys: seq<PacketKeys>)
    requires n <= |path|
    ensures |keys| == n
  {
    if n == 0 then []
    else
      var earlier := CreatorKeys(nike, x, path, n - 1);
      earlier + [nike.kdf(Blinded(nike, nike.deriveSecret(x, path[n - 1].publicKey), earlier, n - 1))]
  }

  lemma {:induction false} CreatorKeysPrefix(nike: Nike, x: Bytes, path: seq<PathHop>, n: nat, m: nat)
    requires n <= m <= |path|
    ensures CreatorKeys(nike, x, path, n) <= CreatorKeys(nike, x, path, m)
    decreases m
  {
    if n < m {
      CreatorKeysPrefix(nike, x, path, n, m - 1);
    }
  }

  /** The group element the packet carries when it reaches hop i. */
  function GroupElement(nike: Nike, x: Bytes, keys: seq<PacketKeys>, i: nat): Bytes
    requires i <= |keys|
  {
    Blinded(nike, nike.publicKey(x), keys, i)
  }

  lemma ElementsStable(nike: Nike, x: Bytes, keys: seq<PacketKeys>, more: seq<PacketKeys>)
    requires keys <= more
    ensures forall i :: 0 <= i <= |keys| ==> GroupElement(nike, x, keys, i) == GroupElement(nike, x, more, i)
  {
    forall i | 0 <= i <= |keys| ensures GroupElement(nike, x, keys, i) == GroupElement(nike, x, more, i) {
      BlindedPrefix(nike, nike.publicKey(x), keys, more, i);
    }
  }

  function NikeLayers(nike: Nike, x: Bytes, path: seq<PathHop>): (layers: seq<Layer>)
    ensures |layers| == |path|
  {
    var keys := CreatorKeys(nike, x, path, |path|);
    seq(|path|, i requires 0 <= i < |path| => Layer(GroupElement(nike, x, keys, i), keys[i]))
  }

  /** Blinded key agreement: the hop that owns path[i]'s private key derives, from the element that hops 0..i-1
      left in the packet, the keys the creator derived through its nested blinding loop. */
  lemma KeyAgreement(nike: Nike, x: Bytes, path: seq<PathHop>, y: Bytes, i: nat)
    requires nike.Laws() && i < |path| && path[i].publicKey == nike.publicKey(y)
    ensures var layer := NikeLayers(nike, x, path)[i];
            NikeScheme(nike).Agree(y, layer.element) == Some(layer.keys)
  {
    var keys := CreatorKeys(nike, x, path, |path|);
    var earlier := CreatorKeys(nike, x, path, i);
    var e := nike.publicKey(x);
    CreatorKeysPrefix(nike, x, path, i + 1, |path|);
    CreatorKeysPrefix(nike, x, path, i, |path|);
    BlindedValid(nike, e, keys, i);
    SecretOfBlinded(nike, y, e, keys, i);
    BlindedPrefix(nike, nike.deriveSecret(x, path[i].publicKey), earlier, keys, i);
    assert keys[i] == CreatorKeys(nike, x, path, i + 1)[i];
  }

  function NikeOnion(prims: Primitives, nike: Nike, g: Geometry, x: Bytes, path: seq<PathHop>, junk: Bytes): Onion {
    Onion(prims, g, nike.publicKeySize, 0, NikeLayers(nike, x, path), path, junk)
  }

  lemma NikeElementSizes(nike: Nike, x: Bytes, path: seq<PathHop>)
    requires nike.Laws()
    ensures forall i :: 0 <= i < |path| ==> |NikeLayers(nike, x, path)[i].element| == nike.publicKeySize
  {
    forall i | 0 <= i < |path| ensures |NikeLayers(nike, x, path)[i].element| == nike.publicKeySize {
      BlindedValid(nike, nike.publicKey(x), CreatorKeys(nike, x, path, |path|), i);
    }
  }

  /** The hops hold the private keys that belong to the path. */
  ghost predicate Owns(publicKey: Bytes -> Bytes, path: seq<PathHop>, privs: seq<Bytes>) {
    |privs| == |path| && forall i :: 0 <= i < |path| ==> path[i].publicKey == publicKey(privs[i])
  }

  lemma NikeKeysMeet(o: Onion, nike: Nike, x: Bytes, privs: seq<Bytes>)
    requires nike.Laws() && o.layers == NikeLayers(nike, x, o.path)
    requires o.Valid() && Owns(nike.publicKey, o.path, privs)
    ensures KeysMeet(o, NikeScheme(nike), privs)
  {
    hide Onion.Valid, Nike.Laws;
    forall i | 0 <= i < |privs|
      ensures NikeScheme(nike).Agree(privs[i], o.layers[i].element) == Some(o.layers[i].keys)
    {
      KeyAgreement(nike, x, o.path, privs[i], i);
    }
  }

  lemma NikeMatches(o: Onion, nike: Nike, x: Bytes, privs: seq<Bytes>)
    requires nike.Laws() && o == NikeOnion(o.prims, nike, o.g, x, o.path, o.junk)
    requires o.Valid() && Owns(nike.publicKey, o.path, privs)
    ensures Matches(o, NikeScheme(nike), privs) && AllFit(o)
  {
    hide KeysMeet, Onion.HopCommands, Serialize, CommandBytes, NikeLayers, Nike.Laws;
    NikeKeysMeet(o, nike, x, privs);
    forall i | 0 <= i < |o.path| ensures CommandsFit(o, i) {
      o.HopCommandsFit(i);
    }
  }

  /** The secret shared with a hop, blinded with the factors of the hops before it. */
  method BlindSecret(nike: Nike, clientPrivateKey: Bytes, publicKey: Bytes, keys: seq<PacketKeys>)
    returns (sharedSecret: Bytes)
    requires nike.Laws() && nike.valid(publicKey)
    ensures sharedSecret == Blinded(nike, nike.deriveSecret(clientPrivateKey, publicKey), keys, |keys|)
  {
    hide Nike.Laws;
    var e := nike.deriveSecret(clientPrivateKey, publicKey);
    sharedSecret := e;
    for j := 0 to |keys|
      invariant sharedSecret == Blinded(nike, e, keys, j)
    {
      SecretValid(nike, clientPrivateKey, publicKey, keys, j);
      assert nike.valid(sharedSecret);  // FromBytes cannot fail, so the panic is unreachable
      sharedSecret := nike.blind(sharedSecret, keys[j].blindingFactor);
    }
  }

  /** The first part of createHeader: key material for each hop. */
  method DeriveKeys(nike: Nike, clientPrivateKey: Bytes, path: seq<PathHop>)
    returns (groupElements: seq<Bytes>, keys: seq<PacketKeys>)
    requires nike.Laws() && path != []
    requires forall i :: 0 <= i < |path| ==> nike.valid(path[i].publicKey)
    ensures keys == CreatorKeys(nike, clientPrivateKey, path, |path|)
    ensures |groupElements| == |path|
    ensures forall i :: 0 <= i < |path| ==> groupElements[i] == GroupElement(nike, clientPrivateKey, keys, i)
  {
    hide Nike.Laws;
    var clientPublicKey := nike.publicKey(clientPrivateKey);
    var sharedSecret := nike.deriveSecret(clientPrivateKey, path[0].publicKey);
    keys := [nike.kdf(sharedSecret)];
    groupElements := [clientPublicKey];
    assert keys == CreatorKeys(nike, clientPrivateKey, path, 1);
    for i := 1 to |path|
      invariant keys == CreatorKeys(nike, clientPrivateKey, path, i)
      invariant |groupElements| == i
      invariant clientPublicKey == GroupElement(nike, clientPrivateKey, keys, i - 1)
      invariant forall k :: 0 <= k < i ==> groupElements[k] == GroupElement(nike, clientPrivateKey, keys, k)
    {
      sharedSecret := BlindSecret(nike, clientPrivateKey, path[i].publicKey, keys);
      ghost var earlier := keys;
      keys := keys + [nike.kdf(sharedSecret)];
      clientPublicKey := nike.blind(clientPublicKey, keys[i - 1].blindingFactor);
      ElementsStable(nike, clientPrivateKey, earlier, keys);
      groupElements := groupElements + [clientPublicKey];
    }
  }

  /** createHeader. The client's private key and the filling of unused slots are drawn at random by the original. */
  method CreateHeader(prims: Primitives, nike: Nike, g: Geometry, clientPrivateKey: Bytes, path: seq<PathHop>, junk: Bytes)
    returns (r: Result<Created, HeaderError>)
    requires nike.Laws() && g.Fits(nike.publicKeySize) && path != []
    requires forall i :: 0 <= i < |path| ==> nike.valid(path[i].publicKey)
    requires |path| <= g.nrHops ==> |junk| == (g.nrHops - |path|) * g.perHop
    ensures if |path| > g.nrHops then r == Failure(InvalidPath)
            else NikeOnion(prims, nike, g, clientPrivateKey, path, junk).Shaped()
                 && HeaderSpec(NikeOnion(prims, nike, g, clientPrivateKey, path, junk), r)
  {
    hide Nike.Laws, HeaderSpec, Blinded, CreatorKeys, Onion.Valid;
    if |path| > g.nrHops {
      return Failure(InvalidPath);
    }
    var groupElements, keys := DeriveKeys(nike, clientPrivateKey, path);
    var layers := seq(|path|, i requires 0 <= i < |path| => Layer(groupElements[i], keys[i]));
    assert layers == NikeLayers(nike, clientPrivateKey, path);
    NikeElementSizes(nike, clientPrivateKey, path);
    r := BuildHeader(Onion(prims, g, nike.publicKeySize, 0, layers, path, junk));
  }

  /** newNikePacket. */
  method NewNikePacket(prims: Primitives, nike: Nike, g: Geometry, clientPrivateKey: Bytes, path: seq<PathHop>, junk: Bytes,
                       payload: Bytes)
    returns (r: Result<Bytes, PacketError>)
    requires prims.Laws() && nike.Laws() && g.Fits(nike.publicKeySize) && path != []
    requires forall i :: 0 <= i < |path| ==> nike.valid(path[i].publicKey)
    requires |path| <= g.nrHops ==> |junk| == (g.nrHops - |path|) * g.perHop
    ensures PacketSpec(NikeOnion(prims, nike, g, clientPrivateKey, path, junk), payload, r)
  {
    hide Nike.Laws, NikeLayers, Onion.Valid, Primitives.Laws;
    if |payload| != g.forwardPayloadLength {
      return Failure(InvalidPayloadLength);
    }
    var created := CreateHeader(prims, nike, g, clientPrivateKey, path, junk);
    r := FinishPacket(NikeOnion(prims, nike, g, clientPrivateKey, path, junk), created, payload);
  }

  /** End to end, for every geometry, every path of 1 to nrHops hops whose commands can be encoded, and every payload:
      each hop accepts the packet and sees exactly its commands (and, before the last hop, whom to send it to), and the
      last hop gets the payload, if and only if no hop's commands repeat a surb_reply. */
  lemma NikeEndToEnd(prims: Primitives, nike: Nike, g: Geometry, x: Bytes, path: seq<PathHop>, junk: Bytes,
                     privs: seq<Bytes>, payload: Bytes)
    requires prims.Laws() && nike.Laws() && Owns(nike.publicKey, path, privs)
    requires NikeOnion(prims, nike, g, x, path, junk).Valid()
    ensures var o := NikeOnion(prims, nike, g, x, path, junk);
            DeliveredAlong(o, Traverse(prims, g, NikeScheme(nike), privs, NewPacket(o, payload)), payload) <==> Unrepeated(o)
  {
    hide Matches, AllFit, NikeLayers, Onion.Valid, Traverse, Nike.Laws, Primitives.Laws, NewPacket, Unrepeated;
    var o := NikeOnion(prims, nike, g, x, path, junk);
    NikeMatches(o, nike, x, privs);
    ForwardDelivery(o, NikeScheme(nike), privs, payload);
  }
}
