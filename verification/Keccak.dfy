/** The Keccak-f[1600] permutation: the step mappings of FIPS 202, section 3.2, and the unrolled form of
    sphincsplus/ref/fips202.c. Lane (x, y) of the state is element x + 5y. */
module Keccak {

  function XorWord(u: bv64, v: bv64): bv64 { u ^ v }

  function AndNotWord(u: bv64, v: bv64): bv64 { !u & v }

  /** The macro ROL, on words. */
  function Rotate(b: bv64, n: bv64): bv64
    requires 0 < n < 64
  {
    (b << n) ^ (b >> (64 - n))
  }

  predicate BitSet(b: bv64, z: bv64)
    requires z < 64
  {
    (b >> z) & 1 == 1
  }

  /** A 64-bit lane. Wrapping it keeps bit-level reasoning out of proofs that only move lanes around. */
  datatype Lane = Lane(bits: bv64)
  {
    function Xor(b: Lane): Lane { Lane(XorWord(bits, b.bits)) }

    /** (not this) and b */
    function AndNot(b: Lane): Lane { Lane(AndNotWord(bits, b.bits)) }

    /** The macro ROL. */
    function Rol(n: bv64): Lane
      requires 0 < n < 64
    {
      Lane(Rotate(bits, n))
    }

    /** Rotation by n places, where n may be 0. */
    function Rot(n: bv64): Lane
      requires n < 64
    {
      if n == 0 then this else Rol(n)
    }

    predicate Bit(z: bv64)
      requires z < 64
    {
      BitSet(bits, z)
    }
  }

  type Lanes = s: seq<Lane> | |s| == 25 witness seq(25, _ => Lane(0))

  // ---------------------------------------------------------------- FIPS 202

  /** x modulo 5, for the sums of coordinates that occur. */
  function Mod5(x: nat): (m: nat)
    requires x < 25
    ensures m < 5
  {
    if x < 5 then x else if x < 10 then x - 5 else if x < 15 then x - 10 else if x < 20 then x - 15 else x - 20
  }

  function Column(a: Lanes, x: nat): Lane
    requires x < 5
  {
    a[x].Xor(a[x + 5]).Xor(a[x + 10]).Xor(a[x + 15]).Xor(a[x + 20])
  }

  function Parity(a: Lanes, x: nat): Lane
    requires x < 5
  {
    Column(a, Mod5(x + 4)).Xor(Column(a, Mod5(x + 1)).Rot(1))
  }

  function Theta(a: Lanes, x: nat, y: nat): Lane
    requires x < 5 && y < 5
  {
    a[x + 5 * y].Xor(Parity(a, x))
  }

  /** The rotation offsets modulo 64. */
  function Offset(x: nat, y: nat): (n: bv64)
    requires x < 5 && y < 5
    ensures n < 64
  {
    match x + 5 * y
    case 0 => 0  case 1 => 1  case 2 => 62  case 3 => 28  case 4 => 27
    case 5 => 36  case 6 => 44  case 7 => 6  case 8 => 55  case 9 => 20
    case 10 => 3  case 11 => 10  case 12 => 43  case 13 => 25  case 14 => 39
    case 15 => 41  case 16 => 45  case 17 => 15  case 18 => 21  case 19 => 8
    case 20 => 18  case 21 => 2  case 22 => 61  case 23 => 56  case _ => 14
  }

  function Rho(a: Lanes, x: nat, y: nat): Lane
    requires x < 5 && y < 5
  {
    Theta(a, x, y).Rot(Offset(x, y))
  }

  function Pi(a: Lanes, x: nat, y: nat): Lane
    requires x < 5 && y < 5
  {
    Rho(a, Mod5(x + 3 * y), x)
  }

  function Chi(a: Lanes, x: nat, y: nat): Lane
    requires x < 5 && y < 5
  {
    Pi(a, x, y).Xor(Pi(a, Mod5(x + 1), y).AndNot(Pi(a, Mod5(x + 2), y)))
  }

  function Iota(a: Lanes, rc: Lane, x: nat, y: nat): Lane
    requires x < 5 && y < 5
  {
    if x == 0 && y == 0 then Chi(a, x, y).Xor(rc) else Chi(a, x, y)
  }

  function RoundRow(a: Lanes, rc: Lane, y: nat): (r: seq<Lane>)
    requires y < 5
    ensures |r| == 5
  {
    [Iota(a, rc, 0, y), Iota(a, rc, 1, y), Iota(a, rc, 2, y), Iota(a, rc, 3, y), Iota(a, rc, 4, y)]
  }

  function Stack(b: seq<Lane>, g: seq<Lane>, k: seq<Lane>, m: seq<Lane>, s: seq<Lane>): Lanes
    requires |b| == |g| == |k| == |m| == |s| == 5
  {
    b + g + k + m + s
  }

  function Round(a: Lanes, rc: Lane): Lanes {
    Stack(RoundRow(a, rc, 0), RoundRow(a, rc, 1), RoundRow(a, rc, 2), RoundRow(a, rc, 3), RoundRow(a, rc, 4))
  }

  /** The round constants. */
  function RCBits(n: nat): bv64
    requires n < 24
  {
    match n
    case 0 => 0x0000000000000001  case 1 => 0x0000000000008082  case 2 => 0x800000000000808a
    case 3 => 0x8000000080008000  case 4 => 0x000000000000808b  case 5 => 0x0000000080000001
    case 6 => 0x8000000080008081  case 7 => 0x8000000000008009  case 8 => 0x000000000000008a
    case 9 => 0x0000000000000088  case 10 => 0x0000000080008009  case 11 => 0x000000008000000a
    case 12 => 0x000000008000808b  case 13 => 0x800000000000008b  case 14 => 0x8000000000008089
    case 15 => 0x8000000000008003  case 16 => 0x8000000000008002  case 17 => 0x8000000000000080
    case 18 => 0x000000000000800a  case 19 => 0x800000008000000a  case 20 => 0x8000000080008081
    case 21 => 0x8000000000008080  case 22 => 0x0000000080000001  case _ => 0x8000000080008008
  }

  function RC(n: nat): Lane
    requires n < 24
  {
    Lane(RCBits(n))
  }

  function Rounds(a: Lanes, n: nat): Lanes
    requires n <= 24
  {
    if n == 0 then a else Round(Rounds(a, n - 1), RC(n - 1))
  }

  function F1600(a: Lanes): Lanes { Rounds(a, 24) }

  // ---------------------------------------------------------------- the unrolled form

  method RowB(ghost a: Lanes, Aba: Lane, Age: Lane, Aki: Lane, Amo: Lane, Asu: Lane,
              Da: Lane, De: Lane, Di: Lane, Do: Lane, Du: Lane, rc: Lane)
    returns (Eba: Lane, Ebe: Lane, Ebi: Lane, Ebo: Lane, Ebu: Lane)
    requires Aba == a[0] && Age == a[6] && Aki == a[12] && Amo == a[18] && Asu == a[24]
    requires Da == Parity(a, 0) && De == Parity(a, 1) && Di == Parity(a, 2) && Do == Parity(a, 3) && Du == Parity(a, 4)
    ensures Eba == Iota(a, rc, 0, 0) && Ebe == Iota(a, rc, 1, 0) && Ebi == Iota(a, rc, 2, 0)
            && Ebo == Iota(a, rc, 3, 0) && Ebu == Iota(a, rc, 4, 0)
  {
    hide Lane.Xor, Lane.AndNot, Lane.Rol, Parity;
    var BCa := Aba.Xor(Da);
    var BCe := Age.Xor(De).Rol(44);
    var BCi := Aki.Xor(Di).Rol(43);
    var BCo := Amo.Xor(Do).Rol(21);
    var BCu := Asu.Xor(Du).Rol(14);
    Eba := BCa.Xor(BCe.AndNot(BCi));
    Eba := Eba.Xor(rc);
    Ebe := BCe.Xor(BCi.AndNot(BCo));
    Ebi := BCi.Xor(BCo.AndNot(BCu));
    Ebo := BCo.Xor(BCu.AndNot(BCa));
    Ebu := BCu.Xor(BCa.AndNot(BCe));
  }

  method RowG(ghost a: Lanes, Abo: Lane, Agu: Lane, Aka: Lane, Ame: Lane, Asi: Lane,
              Da: Lane, De: Lane, Di: Lane, Do: Lane, Du: Lane, rc: Lane)
    returns (Ega: Lane, Ege: Lane, Egi: Lane, Ego: Lane, Egu: Lane)
    requires Abo == a[3] && Agu == a[9] && Aka == a[10] && Ame == a[16] && Asi == a[22]
    requires Da == Parity(a, 0) && De == Parity(a, 1) && Di == Parity(a, 2) && Do == Parity(a, 3) && Du == Parity(a, 4)
    ensures Ega == Iota(a, rc, 0, 1) && Ege == Iota(a, rc, 1, 1) && Egi == Iota(a, rc, 2, 1)
            && Ego == Iota(a, rc, 3, 1) && Egu == Iota(a, rc, 4, 1)
  {
    hide Lane.Xor, Lane.AndNot, Lane.Rol, Parity;
    var BCa := Abo.Xor(Do).Rol(28);
    var BCe := Agu.Xor(Du).Rol(20);
    var BCi := Aka.Xor(Da).Rol(3);
    var BCo := Ame.Xor(De).Rol(45);
    var BCu := Asi.Xor(Di).Rol(61);
    Ega := BCa.Xor(BCe.AndNot(BCi));
    Ege := BCe.Xor(BCi.AndNot(BCo));
    Egi := BCi.Xor(BCo.AndNot(BCu));
    Ego := BCo.Xor(BCu.AndNot(BCa));
    Egu := BCu.Xor(BCa.AndNot(BCe));
  }

  method RowK(ghost a: Lanes, Abe: Lane, Agi: Lane, Ako: Lane, Amu: Lane, Asa: Lane,
              Da: Lane, De: Lane, Di: Lane, Do: Lane, Du: Lane, rc: Lane)
    returns (Eka: Lane, Eke: Lane, Eki: Lane, Eko: Lane, Eku: Lane)
    requires Abe == a[1] && Agi == a[7] && Ako == a[13] && Amu == a[19] && Asa == a[20]
    requires Da == Parity(a, 0) && De == Parity(a, 1) && Di == Parity(a, 2) && Do == Parity(a, 3) && Du == Parity(a, 4)
    ensures Eka == Iota(a, rc, 0, 2) && Eke == Iota(a, rc, 1, 2) && Eki == Iota(a, rc, 2, 2)
            && Eko == Iota(a, rc, 3, 2) && Eku == Iota(a, rc, 4, 2)
  {
    hide Lane.Xor, Lane.AndNot, Lane.Rol, Parity;
    var BCa := Abe.Xor(De).Rol(1);
    var BCe := Agi.Xor(Di).Rol(6);
    var BCi := Ako.Xor(Do).Rol(25);
    var BCo := Amu.Xor(Du).Rol(8);
    var BCu := Asa.Xor(Da).Rol(18);
    Eka := BCa.Xor(BCe.AndNot(BCi));
    Eke := BCe.Xor(BCi.AndNot(BCo));
    Eki := BCi.Xor(BCo.AndNot(BCu));
    Eko := BCo.Xor(BCu.AndNot(BCa));
    Eku := BCu.Xor(BCa.AndNot(BCe));
  }

  method RowM(ghost a: Lanes, Abu: Lane, Aga: Lane, Ake: Lane, Ami: Lane, Aso: Lane,
              Da: Lane, De: Lane, Di: Lane, Do: Lane, Du: Lane, rc: Lane)
    returns (Ema: Lane, Eme: Lane, Emi: Lane, Emo: Lane, Emu: Lane)
    requires Abu == a[4] && Aga == a[5] && Ake == a[11] && Ami == a[17] && Aso == a[23]
    requires Da == Parity(a, 0) && De == Parity(a, 1) && Di == Parity(a, 2) && Do == Parity(a, 3) && Du == Parity(a, 4)
    ensures Ema == Iota(a, rc, 0, 3) && Eme == Iota(a, rc, 1, 3) && Emi == Iota(a, rc, 2, 3)
            && Emo == Iota(a, rc, 3, 3) && Emu == Iota(a, rc, 4, 3)
  {
    hide Lane.Xor, Lane.AndNot, Lane.Rol, Parity;
    var BCa := Abu.Xor(Du).Rol(27);
    var BCe := Aga.Xor(Da).Rol(36);
    var BCi := Ake.Xor(De).Rol(10);
    var BCo := Ami.Xor(Di).Rol(15);
    var BCu := Aso.Xor(Do).Rol(56);
    Ema := BCa.Xor(BCe.AndNot(BCi));
    Eme := BCe.Xor(BCi.AndNot(BCo));
    Emi := BCi.Xor(BCo.AndNot(BCu));
    Emo := BCo.Xor(BCu.AndNot(BCa));
    Emu := BCu.Xor(BCa.AndNot(BCe));
  }

  method RowS(ghost a: Lanes, Abi: Lane, Ago: Lane, Aku: Lane, Ama: Lane, Ase: Lane,
              Da: Lane, De: Lane, Di: Lane, Do: Lane, Du: Lane, rc: Lane)
    returns (Esa: Lane, Ese: Lane, Esi: Lane, Eso: Lane, Esu: Lane)
    requires Abi == a[2] && Ago == a[8] && Aku == a[14] && Ama == a[15] && Ase == a[21]
    requires Da == Parity(a, 0) && De == Parity(a, 1) && Di == Parity(a, 2) && Do == Parity(a, 3) && Du == Parity(a, 4)
    ensures Esa == Iota(a, rc, 0, 4) && Ese == Iota(a, rc, 1, 4) && Esi == Iota(a, rc, 2, 4)
            && Eso == Iota(a, rc, 3, 4) && Esu == Iota(a, rc, 4, 4)
  {
    hide Lane.Xor, Lane.AndNot, Lane.Rol, Parity;
    var BCa := Abi.Xor(Di).Rol(62);
    var BCe := Ago.Xor(Do).Rol(55);
    var BCi := Aku.Xor(Du).Rol(39);
    var BCo := Ama.Xor(Da).Rol(41);
    var BCu := Ase.Xor(De).Rol(2);
    Esa := BCa.Xor(BCe.AndNot(BCi));
    Ese := BCe.Xor(BCi.AndNot(BCo));
    Esi := BCi.Xor(BCo.AndNot(BCu));
    Eso := BCo.Xor(BCu.AndNot(BCa));
    Esu := BCu.Xor(BCa.AndNot(BCe));
  }

  /** thetaRhoPiChiIotaPrepareTheta, from A to E. */
  method HalfIteration(a: Lanes, rc: Lane) returns (e: Lanes)
    ensures e == Round(a, rc)
  {
    hide Lane.Xor, Lane.Rol, Iota, Stack;
    var Aba, Abe, Abi, Abo, Abu := a[0], a[1], a[2], a[3], a[4];
    var Aga, Age, Agi, Ago, Agu := a[5], a[6], a[7], a[8], a[9];
    var Aka, Ake, Aki, Ako, Aku := a[10], a[11], a[12], a[13], a[14];
    var Ama, Ame, Ami, Amo, Amu := a[15], a[16], a[17], a[18], a[19];
    var Asa, Ase, Asi, Aso, Asu := a[20], a[21], a[22], a[23], a[24];
    var BCa := Aba.Xor(Aga).Xor(Aka).Xor(Ama).Xor(Asa);
    var BCe := Abe.Xor(Age).Xor(Ake).Xor(Ame).Xor(Ase);
    var BCi := Abi.Xor(Agi).Xor(Aki).Xor(Ami).Xor(Asi);
    var BCo := Abo.Xor(Ago).Xor(Ako).Xor(Amo).Xor(Aso);
    var BCu := Abu.Xor(Agu).Xor(Aku).Xor(Amu).Xor(Asu);
    var Da := BCu.Xor(BCe.Rol(1));
    var De := BCa.Xor(BCi.Rol(1));
    var Di := BCe.Xor(BCo.Rol(1));
    var Do := BCi.Xor(BCu.Rol(1));
    var Du := BCo.Xor(BCa.Rol(1));
    var Eba, Ebe, Ebi, Ebo, Ebu := RowB(a, Aba, Age, Aki, Amo, Asu, Da, De, Di, Do, Du, rc);
    var Ega, Ege, Egi, Ego, Egu := RowG(a, Abo, Agu, Aka, Ame, Asi, Da, De, Di, Do, Du, rc);
    var Eka, Eke, Eki, Eko, Eku := RowK(a, Abe, Agi, Ako, Amu, Asa, Da, De, Di, Do, Du, rc);
    var Ema, Eme, Emi, Emo, Emu := RowM(a, Abu, Aga, Ake, Ami, Aso, Da, De, Di, Do, Du, rc);
    var Esa, Ese, Esi, Eso, Esu := RowS(a, Abi, Ago, Aku, Ama, Ase, Da, De, Di, Do, Du, rc);
    e := Stack([Eba, Ebe, Ebi, Ebo, Ebu],
               [Ega, Ege, Egi, Ego, Egu],
               [Eka, Eke, Eki, Eko, Eku],
               [Ema, Eme, Emi, Emo, Emu],
               [Esa, Ese, Esi, Eso, Esu]);
  }

  /** KeccakF1600_StatePermute: twelve iterations of two rounds each, from A to E and back. */
  method StatePermute(state: array<Lane>)
    requires state.Length == 25
    modifies state
    ensures state[..] == F1600(old(state[..]))
  {
    hide Round, RC;
    ghost var start: Lanes := state[..];
    var a: Lanes := state[..];
    var round := 0;
    while round < 24
      invariant 0 <= round <= 24 && Even(round)
      invariant a == Rounds(start, round)
    {
      var e := HalfIteration(a, RC(round));
      a := HalfIteration(e, RC(round + 1));
      round := round + 2;
    }
    forall i | 0 <= i < 25 {
      state[i] := a[i];
    }
    assert state[..] == a;
  }

  predicate Even(n: int) { n % 2 == 0 }

}
