/** The per-hop routing commands of core/sphinx/commands. */
module SphinxCommands {
  import opened Bytes
  import opened Wrappers

  const NODE_ID_LENGTH := 32
  const RECIPIENT_ID_LENGTH := 32
  const SURB_ID_LENGTH := 16
  const MAC_LENGTH := 32
  const NEXT_NODE_HOP_LENGTH := 1 + NODE_ID_LENGTH + MAC_LENGTH
  const SURB_REPLY_LENGTH := 1 + SURB_ID_LENGTH

  type NodeID = b: Bytes | |b| == NODE_ID_LENGTH witness Zeros(NODE_ID_LENGTH)
  type RecipientID = b: Bytes | |b| == RECIPIENT_ID_LENGTH witness Zeros(RECIPIENT_ID_LENGTH)
  type SurbID = b: Bytes | |b| == SURB_ID_LENGTH witness Zeros(SURB_ID_LENGTH)
  type Mac = b: Bytes | |b| == MAC_LENGTH witness Zeros(MAC_LENGTH)

  datatype RoutingCommand =
    | NextNodeHop(id: NodeID, mac: Mac)
    | Recipient(recipient: RecipientID)
    | SURBReply(surbID: SurbID)
    | NodeDelay(delay: bv32)

  const NULL: Byte := 0x00
  const NEXT_NODE_HOP: Byte := 0x01
  const RECIPIENT: Byte := 0x02
  const SURB_REPLY: Byte := 0x03
  const NODE_DELAY: Byte := 0x80

  function Octet(d: bv32): Byte { (d & 0xFF) as Byte }

  function DelayBytes(d: bv32): (b: Bytes)
    ensures |b| == 4
  {
    [Octet(d >> 24), Octet(d >> 16), Octet(d >> 8), Octet(d)]
  }

  function JoinOctets(b0: Byte, b1: Byte, b2: Byte, b3: Byte): bv32 {
    ((b0 as bv32) << 24) | ((b1 as bv32) << 16) | ((b2 as bv32) << 8) | (b3 as bv32)
  }

  lemma JoinThenSplit(b0: Byte, b1: Byte, b2: Byte, b3: Byte)
    ensures DelayBytes(JoinOctets(b0, b1, b2, b3)) == [b0, b1, b2, b3]
  {
    JoinedOctets(b0, b1, b2, b3);
  }

  lemma JoinedOctets(b0: Byte, b1: Byte, b2: Byte, b3: Byte)
    ensures var d := JoinOctets(b0, b1, b2, b3);
            Octet(d >> 24) == b0 && Octet(d >> 16) == b1 && Octet(d >> 8) == b2 && Octet(d) == b3
  {}

  lemma SplitThenJoin(d: bv32)
    ensures JoinOctets(Octet(d >> 24), Octet(d >> 16), Octet(d >> 8), Octet(d)) == d
  {}

  /** The wire form of one command: a tag byte and its fixed-size fields. */
  function ToBytes(c: RoutingCommand): (b: Bytes)
    ensures 0 < |b|
    ensures c.NextNodeHop? ==> |b| == NEXT_NODE_HOP_LENGTH
  {
    match c
    case NextNodeHop(id, mac) => [NEXT_NODE_HOP] + id + mac
    case Recipient(id) => [RECIPIENT] + id
    case SURBReply(id) => [SURB_REPLY] + id
    case NodeDelay(d) => [NODE_DELAY] + DelayBytes(d)
  }

  datatype Parsed = Null | Command(cmd: RoutingCommand, rest: Bytes) | Invalid

  /** Reads the first command of a buffer. */
  function FromBytes(b: Bytes): (r: Parsed)
    ensures r.Command? ==> |r.rest| < |b|
  {
    if |b| == 0 then Null
    else if |b| == 1 then (if b[0] == NULL then Null else Invalid)
    else Body(b[0], b[1..])
  }

  function Body(id: Byte, b: Bytes): (r: Parsed)
    ensures r.Command? ==> |r.rest| <= |b|
  {
    if id == NULL then
      (if b == Zeros(|b|) then Null else Invalid)
    else if id == NEXT_NODE_HOP then
      (if |b| < NEXT_NODE_HOP_LENGTH - 1 then Invalid
       else Command(NextNodeHop(b[..NODE_ID_LENGTH], b[NODE_ID_LENGTH..NEXT_NODE_HOP_LENGTH - 1]),
                    b[NEXT_NODE_HOP_LENGTH - 1..]))
    else if id == RECIPIENT then
      (if |b| < RECIPIENT_ID_LENGTH then Invalid
       else Command(Recipient(b[..RECIPIENT_ID_LENGTH]), b[RECIPIENT_ID_LENGTH..]))
    else if id == SURB_REPLY then
      (if |b| < SURB_ID_LENGTH then Invalid
       else Command(SURBReply(b[..SURB_ID_LENGTH]), b[SURB_ID_LENGTH..]))
    else if id == NODE_DELAY then
      (if |b| < 4 then Invalid
       else Command(NodeDelay(JoinOctets(b[0], b[1], b[2], b[3])), b[4..]))
    else Invalid
  }

  lemma BodyOfDelay(d: bv32, rest: Bytes)
    ensures Body(NODE_DELAY, DelayBytes(d) + rest) == Command(NodeDelay(d), rest)
  {
    SplitThenJoin(d);
    assert (DelayBytes(d) + rest)[4..] == rest;
  }

  lemma BodyOfNextNode(id: NodeID, mac: Mac, rest: Bytes)
    ensures Body(NEXT_NODE_HOP, id + mac + rest) == Command(NextNodeHop(id, mac), rest)
  {
    var b := id + mac + rest;
    assert b[..NODE_ID_LENGTH] == id;
    assert b[NODE_ID_LENGTH..NEXT_NODE_HOP_LENGTH - 1] == mac;
    assert b[NEXT_NODE_HOP_LENGTH - 1..] == rest;
  }

  lemma BodyOfID(id: Bytes, rest: Bytes)
    ensures |id| == RECIPIENT_ID_LENGTH ==> Body(RECIPIENT, id + rest) == Command(Recipient(id), rest)
    ensures |id| == SURB_ID_LENGTH ==> Body(SURB_REPLY, id + rest) == Command(SURBReply(id), rest)
  {
    assert (id + rest)[..|id|] == id && (id + rest)[|id|..] == rest;
  }

  lemma TaggedBody(tag: Byte, body: Bytes, rest: Bytes)
    requires body != []
    ensures FromBytes([tag] + body + rest) == Body(tag, body + rest)
  {
    hide Body;
    assert ([tag] + body + rest)[1..] == body + rest;
  }

  /** Reading back a printed command returns it and leaves the rest of the buffer. */
  lemma ParseAfterPrint(c: RoutingCommand, rest: Bytes)
    ensures FromBytes(ToBytes(c) + rest) == Command(c, rest)
  {
    hide Body, FromBytes, DelayBytes;
    match c
    case NextNodeHop(id, mac) =>
      ConcatAssociates([NEXT_NODE_HOP], id, mac);
      TaggedBody(NEXT_NODE_HOP, id + mac, rest);
      BodyOfNextNode(id, mac, rest);
    case Recipient(id) =>
      TaggedBody(RECIPIENT, id, rest);
      BodyOfID(id, rest);
    case SURBReply(id) =>
      TaggedBody(SURB_REPLY, id, rest);
      BodyOfID(id, rest);
    case NodeDelay(d) =>
      TaggedBody(NODE_DELAY, DelayBytes(d), rest);
      BodyOfDelay(d, rest);
  }

  /** The encoding is canonical: a buffer that reads as a command starts with exactly its printed form. */
  lemma PrintAfterParse(b: Bytes)
    ensures var r := FromBytes(b); r.Command? ==> b == ToBytes(r.cmd) + r.rest
  {
    if FromBytes(b).Command? {
      var t := b[1..];
      assert b == [b[0]] + t;
      if b[0] == NODE_DELAY {
        JoinThenSplit(t[0], t[1], t[2], t[3]);
        assert t == t[..4] + t[4..];
      }
    }
  }

  /** Only an all-zero buffer ends the command list. */
  lemma NullIsZeros(b: Bytes)
    ensures FromBytes(b) == Null <==> b == Zeros(|b|)
  {
    if |b| >= 2 {
      assert b == [b[0]] + b[1..];
      assert Zeros(|b|) == [0] + Zeros(|b| - 1);
      assert b == Zeros(|b|) <==> b[0] == 0 && b[1..] == Zeros(|b| - 1);
    }
  }

  /** A whole command vector, printed back to back. */
  function Serialize(cmds: seq<RoutingCommand>): Bytes {
    if cmds == [] then [] else ToBytes(cmds[0]) + Serialize(cmds[1..])
  }

  lemma {:induction false} SerializeAppend(cmds: seq<RoutingCommand>, c: RoutingCommand)
    ensures Serialize(cmds + [c]) == Serialize(cmds) + ToBytes(c)
  {
    hide ToBytes;
    if cmds == [] {
      assert [c][1..] == [];
    } else {
      SerializeAppend(cmds[1..], c);
      assert (cmds + [c])[1..] == cmds[1..] + [c];
    }
  }

  datatype ScanError = BadCommand | TwoNextNodes | TwoSURBReplies

  predicate HasNextNode(cmds: seq<RoutingCommand>) {
    exists i :: 0 <= i < |cmds| && cmds[i].NextNodeHop?
  }

  predicate HasSURBReply(cmds: seq<RoutingCommand>) {
    exists i :: 0 <= i < |cmds| && cmds[i].SURBReply?
  }

  function FindNextNode(cmds: seq<RoutingCommand>): (r: Option<RoutingCommand>)
    ensures r.None? <==> !HasNextNode(cmds)
    ensures r.Some? ==> r.value in cmds && r.value.NextNodeHop?
  {
    if cmds == [] then None
    else
      var n := |cmds| - 1;
      assert forall i :: 0 <= i < n ==> cmds[..n][i] == cmds[i];
      if cmds[n].NextNodeHop? then Some(cmds[n]) else FindNextNode(cmds[..n])
  }

  function NextNodes(cmds: seq<RoutingCommand>): nat {
    if cmds == [] then 0 else NextNodes(cmds[..|cmds| - 1]) + (if cmds[|cmds| - 1].NextNodeHop? then 1 else 0)
  }

  function SURBReplies(cmds: seq<RoutingCommand>): nat {
    if cmds == [] then 0 else SURBReplies(cmds[..|cmds| - 1]) + (if cmds[|cmds| - 1].SURBReply? then 1 else 0)
  }

  /** What a hop makes of a command vector: it refuses a repeated next_node or surb_reply. */
  function Admit(seen: seq<RoutingCommand>, cmds: seq<RoutingCommand>): Result<seq<RoutingCommand>, ScanError>
    decreases |cmds|
  {
    if cmds == [] then Success(seen)
    else if cmds[0].NextNodeHop? && HasNextNode(seen) then Failure(TwoNextNodes)
    else if cmds[0].SURBReply? && HasSURBReply(seen) then Failure(TwoSURBReplies)
    else Admit(seen + [cmds[0]], cmds[1..])
  }

  lemma {:induction false} CountsPositive(cmds: seq<RoutingCommand>)
    ensures NextNodes(cmds) > 0 <==> HasNextNode(cmds)
    ensures SURBReplies(cmds) > 0 <==> HasSURBReply(cmds)
  {
    if cmds != [] {
      var n := |cmds| - 1;
      CountsPositive(cmds[..n]);
      if HasNextNode(cmds) && !cmds[n].NextNodeHop? {
        var i :| 0 <= i < |cmds| && cmds[i].NextNodeHop?;
        assert cmds[..n][i].NextNodeHop?;
      }
      if HasSURBReply(cmds) && !cmds[n].SURBReply? {
        var i :| 0 <= i < |cmds| && cmds[i].SURBReply?;
        assert cmds[..n][i].SURBReply?;
      }
    }
  }

  lemma {:induction false} CountsMonotone(a: seq<RoutingCommand>, b: seq<RoutingCommand>)
    ensures NextNodes(a + b) == NextNodes(a) + NextNodes(b)
    ensures SURBReplies(a + b) == SURBReplies(a) + SURBReplies(b)
  {
    if b == [] {
      assert a + b == a;
    } else {
      CountsMonotone(a, b[..|b| - 1]);
      assert (a + b)[..|a + b| - 1] == a + b[..|b| - 1];
    }
  }

  /** A vector is accepted, and returned whole, exactly when neither command repeats. */
  lemma {:induction false} AdmitIff(seen: seq<RoutingCommand>, cmds: seq<RoutingCommand>)
    requires NextNodes(seen) <= 1 && SURBReplies(seen) <= 1
    ensures Admit(seen, cmds).Success? <==> NextNodes(seen + cmds) <= 1 && SURBReplies(seen + cmds) <= 1
    ensures Admit(seen, cmds).Success? ==> Admit(seen, cmds).value == seen + cmds
    decreases |cmds|
  {
    if cmds == [] {
      assert seen + cmds == seen;
    } else {
      var next := seen + [cmds[0]];
      assert seen + cmds == next + cmds[1..];
      assert next[..|next| - 1] == seen;
      CountsPositive(seen);
      CountsMonotone(next, cmds[1..]);
      if NextNodes(next) <= 1 && SURBReplies(next) <= 1 {
        AdmitIff(next, cmds[1..]);
      }
    }
  }

  /** The hop's parsing loop, on the bytes of one routing slot. */
  function Scan(buf: Bytes, seen: seq<RoutingCommand>): Result<seq<RoutingCommand>, ScanError>
    decreases |buf|
  {
    match FromBytes(buf)
    case Invalid => Failure(BadCommand)
    case Null => Success(seen)
    case Command(c, rest) =>
      if c.NextNodeHop? && HasNextNode(seen) then Failure(TwoNextNodes)
      else if c.SURBReply? && HasSURBReply(seen) then Failure(TwoSURBReplies)
      else Scan(rest, seen + [c])
  }

  /** Scanning a printed, zero padded vector yields what the hop makes of that vector. */
  lemma {:induction false} ScanPrinted(cmds: seq<RoutingCommand>, pad: nat, seen: seq<RoutingCommand>)
    ensures Scan(Serialize(cmds) + Zeros(pad), seen) == Admit(seen, cmds)
    decreases |cmds|
  {
    hide ToBytes, FromBytes;
    var buf := Serialize(cmds) + Zeros(pad);
    if cmds == [] {
      assert buf == Zeros(pad);
      NullIsZeros(buf);
    } else {
      var rest := Serialize(cmds[1..]) + Zeros(pad);
      assert buf == ToBytes(cmds[0]) + rest;
      ParseAfterPrint(cmds[0], rest);
      ScanPrinted(cmds[1..], pad, seen + [cmds[0]]);
    }
  }

  predicate HoldsPadded(buf: Bytes, cmds: seq<RoutingCommand>) {
    var b := Serialize(cmds);
    |b| <= |buf| && buf == b + Zeros(|buf| - |b|)
  }

  /** Conversely, whatever vector a scan returns is what the buffer holds, followed by zeros. */
  lemma {:induction false} ScanIsCanonical(buf: Bytes, seen: seq<RoutingCommand>)
    ensures Scan(buf, seen).Success? ==> seen <= Scan(buf, seen).value
    ensures Scan(buf, seen).Success? ==> HoldsPadded(buf, Scan(buf, seen).value[|seen|..])
    decreases |buf|
  {
    hide ToBytes, FromBytes;
    var r := Scan(buf, seen);
    if r.Success? {
      match FromBytes(buf)
      case Invalid =>
      case Null =>
        NullIsZeros(buf);
        assert r.value[|seen|..] == [];
      case Command(c, rest) =>
        PrintAfterParse(buf);
        ScanIsCanonical(rest, seen + [c]);
        var tail := r.value[|seen|..];
        assert tail[0] == c && tail[1..] == r.value[|seen + [c]|..];
    }
  }

  /** The parsing loop of unwrapNike and unwrapKem. */
  method ParseCommands(slot: Bytes)
    returns (r: Result<seq<RoutingCommand>, ScanError>, nextNode: Option<RoutingCommand>)
    ensures r == Scan(slot, [])
    ensures r.Success? ==> nextNode == FindNextNode(r.value)
  {
    nextNode := None;
    var surbReply: Option<RoutingCommand> := None;
    var cmds: seq<RoutingCommand> := [];
    var buf := slot;
    while true
      invariant Scan(slot, []) == Scan(buf, cmds)
      invariant nextNode == FindNextNode(cmds)
      invariant surbReply.Some? <==> HasSURBReply(cmds)
      decreases |buf|
    {
      match FromBytes(buf)
      case Invalid => return Failure(BadCommand), nextNode;
      case Null => return Success(cmds), nextNode;
      case Command(c, rest) =>
        if c.NextNodeHop? {
          if nextNode.Some? { return Failure(TwoNextNodes), nextNode; }
          nextNode := Some(c);
        } else if c.SURBReply? {
          if surbReply.Some? { return Failure(TwoSURBReplies), nextNode; }
          surbReply := Some(c);
        }
        assert forall i :: 0 <= i < |cmds| ==> (cmds + [c])[i] == cmds[i];
        assert (cmds + [c])[|cmds|] == c && (cmds + [c])[..|cmds|] == cmds;
        cmds := cmds + [c];
        buf := rest;
    }
  }
}
