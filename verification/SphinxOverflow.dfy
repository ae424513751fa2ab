/** Commands that reach into the ciphertext slot: header creation accepts them, but no hop can be told them. */
module SphinxOverflow {
  import opened Bytes
  import opened SphinxCommands
  import opened SphinxSuite
  import opened SphinxOnion
  import opened SphinxUnwrap
  import opened SphinxRoute
  import opened Wrappers

  /** A hop whose commands reach into the ciphertext slot never gets exactly those commands. */
  lemma OverflowIsNotDelivered(o: Onion, scheme: Scheme, privs: seq<Bytes>, i: nat, payload: Bytes)
    requires Matches(o, scheme, privs) && i < |o.path| && !CommandsFit(o, i)
    ensures var h := UnwrapParts(o.prims, o.g, scheme, privs[i], PartsAt(o, i, payload));
            h.Rejected? || h.cmds != o.HopCommands(i)
  {
    hide Onion.Blocks, Onion.Fragment, Onion.HopCommands, Onion.Inner, Onion.Padding, Peel, Scan, CommandBytes, Geometry.Fits,
         Rewritten, Serialize;
    var b := Peel(o.prims, o.g, o.layers[i].keys, o.RoutingField(i));
    ScanIsCanonical(b[..o.g.perHop - o.slot], []);
    if Scan(b[..o.g.perHop - o.slot], []).Success? {
      var cmds := Scan(b[..o.g.perHop - o.slot], []).value;
      assert cmds[0..] == cmds;
    }
  }

  /** Hop k accepted its commands unchanged. */
  ghost predicate Saw(o: Onion, k: nat, h: Hop)
    requires o.Valid() && k < |o.path|
  {
    !h.Rejected? && h.cmds == o.HopCommands(k)
  }

  ghost predicate SeenFrom(o: Onion, i: nat, t: seq<Hop>)
    requires o.Valid() && i < |o.path|
  {
    |t| == |o.path| - i && forall k :: 0 <= k < |t| ==> Saw(o, i + k, t[k])
  }

  lemma OverflowStep(o: Onion, scheme: Scheme, privs: seq<Bytes>, i: nat, p: Bytes)
    requires Matches(o, scheme, privs) && i < |o.path| && !CommandsFit(o, i)
    ensures var t := Traverse(o.prims, o.g, scheme, privs[i..], o.PacketAt(i, p));
            t != [] && !Saw(o, i, t[0])
  {
    hide KeysMeet, CommandsFit, Onion.Blocks, Onion.Fragment, Onion.HopCommands, Onion.Inner, Onion.Padding, UnwrapParts;
    SplitJoin(o.g, o.elementSize, PartsAt(o, i, p));
    OverflowIsNotDelivered(o, scheme, privs, i, p);
    assert privs[i..][0] == privs[i];
  }

  lemma SeenTail(o: Onion, i: nat, h: Hop, rest: seq<Hop>)
    requires o.Valid() && i < |o.path| - 1
    ensures SeenFrom(o, i, [h] + rest) ==> SeenFrom(o, i + 1, rest)
  {
    hide Saw;
    if SeenFrom(o, i, [h] + rest) {
      forall k | 0 <= k < |rest| ensures Saw(o, i + 1 + k, rest[k]) {
        assert ([h] + rest)[k + 1] == rest[k];
      }
    }
  }

  /** If some hop's commands overflow, not every hop sees its commands. */
  lemma {:induction false} OverflowIsSeen(o: Onion, scheme: Scheme, privs: seq<Bytes>, i: nat, j: nat, p: Bytes)
    requires Matches(o, scheme, privs) && i <= j < |o.path| && !CommandsFit(o, j)
    ensures !SeenFrom(o, i, Traverse(o.prims, o.g, scheme, privs[i..], o.PacketAt(i, p)))
    decreases j - i
  {
    hide KeysMeet, CommandsFit, Onion.Blocks, Onion.Fragment, Onion.HopCommands, Onion.Inner, Onion.Padding,
         Outcome, Unwrap, SURBReplies;
    var t := Traverse(o.prims, o.g, scheme, privs[i..], o.PacketAt(i, p));
    if !CommandsFit(o, i) {
      OverflowStep(o, scheme, privs, i, p);
      assert !Saw(o, i + 0, t[0]);
    } else {
      UnwrapAt(o, scheme, privs, i, p);
      OutcomeCases(o, i, p);
      assert privs[i..][0] == privs[i] && privs[i..][1..] == privs[i + 1..];
      if Forwards(o, i) {
        OverflowIsSeen(o, scheme, privs, i + 1, j, Onward(o, i, p));
        SeenTail(o, i, Outcome(o, i, p), Traverse(o.prims, o.g, scheme, privs[i + 1..], o.PacketAt(i + 1, Onward(o, i, p))));
      } else {
        assert !Saw(o, i + 0, t[0]);
      }
    }
  }

  lemma DeliveredIsSeen(o: Onion, t: seq<Hop>, payload: Bytes)
    requires o.Valid() && DeliveredAlong(o, t, payload)
    ensures SeenFrom(o, 0, t)
  {
    hide Onion.Blocks, Geometry.Fits, CommandBytes, HandedOver;
  }

  /** Delivery when nothing is known of the commands: it happens exactly when they do not repeat and fit. */
  lemma ForwardDeliveryIff(o: Onion, scheme: Scheme, privs: seq<Bytes>, payload: Bytes)
    requires o.prims.Laws() && Matches(o, scheme, privs)
    ensures DeliveredAlong(o, Traverse(o.prims, o.g, scheme, privs, NewPacket(o, payload)), payload)
            <==> Unrepeated(o) && AllFit(o)
  {
    hide KeysMeet, CommandsFit, Onion.Blocks, Onion.Fragment, Onion.HopCommands, Onion.Inner, Onion.Padding,
         Traverse, SURBReplies, DeliveredAlong, SeenFrom;
    if AllFit(o) {
      ForwardDelivery(o, scheme, privs, payload);
    } else {
      var j :| 0 <= j < |o.path| && !CommandsFit(o, j);
      var p := EncryptFor(o, 0, Zeros(o.g.payloadTagLength) + payload);
      var t := Traverse(o.prims, o.g, scheme, privs, NewPacket(o, payload));
      OverflowIsSeen(o, scheme, privs, 0, j, p);
      PacketIsPacketAt(o, p);
      assert privs[0..] == privs;
      if DeliveredAlong(o, t, payload) {
        DeliveredIsSeen(o, t, payload);
      }
    }
  }

  /** Such commands exist in the geometry made for any KEM whose ciphertexts have at least five octets:
      a surb_reply and a delay at a hop that forwards. */
  lemma OverflowIsAccepted(kem: Kem, forwardPayloadLength: nat, nrHops: nat, surbID: SurbID, next: RoutingCommand)
    requires kem.ciphertextSize >= 5 && next.NextNodeHop?
    ensures var g := KemGeometry(kem, forwardPayloadLength, nrHops);
            var cmds := [SURBReply(surbID), NodeDelay(0)];
            && CommandBytes(g, cmds, false).Success?
            && |Serialize(cmds + [next])| > g.perHop - kem.ciphertextSize
  {
    var cmds := [SURBReply(surbID), NodeDelay(0)];
    SerializeAppend([SURBReply(surbID)], NodeDelay(0));
    assert [SURBReply(surbID)] + [NodeDelay(0)] == cmds;
    SerializeAppend([], SURBReply(surbID));
    assert [] + [SURBReply(surbID)] == [SURBReply(surbID)];
    SerializeAppend(cmds, next);
    assert Serialize([]) == [];
  }
}
