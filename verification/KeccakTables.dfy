/** The rotation offsets, the rotations and the round constants of fips202.c are those of FIPS 202. */
module KeccakTables {
  import opened Keccak

  // ---------------------------------------------------------------- offsets

  /** The coordinates visited in algorithm 2 of FIPS 202 (section 3.2.2) at step t. */
  function Walk(t: nat): (c: (nat, nat))
    ensures c.0 < 5 && c.1 < 5
  {
    if t == 0 then (1, 0) else var (x, y) := Walk(t - 1); (y, Mod5(2 * x + 3 * y))
  }

  /** 1 + 2 + ... + (t + 1) */
  function Triangle(t: nat): nat { if t == 0 then 1 else Triangle(t - 1) + (t + 1) }

  lemma {:induction false} TriangleFormula(t: nat)
    ensures 2 * Triangle(t) == (t + 1) * (t + 2)
  {
    if t != 0 {
      TriangleFormula(t - 1);
    }
  }

  predicate Agrees(t: nat) { Offset(Walk(t).0, Walk(t).1) as nat == Triangle(t) % 64 }

  predicate At(t: nat, x: nat, y: nat, triangle: nat) { Walk(t) == (x, y) && Triangle(t) == triangle }

  lemma Step(t: nat, x: nat, y: nat, triangle: nat)
    requires At(t, x, y, triangle)
    ensures At(t + 1, y, Mod5(2 * x + 3 * y), triangle + (t + 2))
  {
    hide Mod5;
  }

  lemma Check(t: nat, x: nat, y: nat, triangle: nat)
    requires At(t, x, y, triangle) && x < 5 && y < 5 && Offset(x, y) as nat == triangle % 64
    ensures Agrees(t)
  {
    hide Walk, Triangle, Offset;
  }

  lemma FirstOffsets()
    ensures Agrees(0) && Agrees(1) && Agrees(2) && Agrees(3) && At(4, 2, 3, 15)
  {
    hide Agrees;
    Check(0, 1, 0, 1);
    Step(0, 1, 0, 1);
    Check(1, 0, 2, 3);
    Step(1, 0, 2, 3);
    Check(2, 2, 1, 6);
    Step(2, 2, 1, 6);
    Check(3, 1, 2, 10);
    Step(3, 1, 2, 10);
  }

  lemma SecondOffsets()
    requires At(4, 2, 3, 15)
    ensures Agrees(4) && Agrees(5) && Agrees(6) && Agrees(7) && At(8, 1, 3, 45)
  {
    hide Agrees, At, Walk, Triangle;
    Check(4, 2, 3, 15);
    Step(4, 2, 3, 15);
    Check(5, 3, 3, 21);
    Step(5, 3, 3, 21);
    Check(6, 3, 0, 28);
    Step(6, 3, 0, 28);
    Check(7, 0, 1, 36);
    Step(7, 0, 1, 36);
  }

  lemma ThirdOffsets()
    requires At(8, 1, 3, 45)
    ensures Agrees(8) && Agrees(9) && Agrees(10) && Agrees(11) && At(12, 4, 0, 91)
  {
    hide Agrees, At, Walk, Triangle;
    Check(8, 1, 3, 45);
    Step(8, 1, 3, 45);
    Check(9, 3, 1, 55);
    Step(9, 3, 1, 55);
    Check(10, 1, 4, 66);
    Step(10, 1, 4, 66);
    Check(11, 4, 4, 78);
    Step(11, 4, 4, 78);
  }

  lemma FourthOffsets()
    requires At(12, 4, 0, 91)
    ensures Agrees(12) && Agrees(13) && Agrees(14) && Agrees(15) && At(16, 3, 2, 153)
  {
    hide Agrees, At, Walk, Triangle;
    Check(12, 4, 0, 91);
    Step(12, 4, 0, 91);
    Check(13, 0, 3, 105);
    Step(13, 0, 3, 105);
    Check(14, 3, 4, 120);
    Step(14, 3, 4, 120);
    Check(15, 4, 3, 136);
    Step(15, 4, 3, 136);
  }

  lemma FifthOffsets()
    requires At(16, 3, 2, 153)
    ensures Agrees(16) && Agrees(17) && Agrees(18) && Agrees(19) && At(20, 4, 2, 231)
  {
    hide Agrees, At, Walk, Triangle;
    Check(16, 3, 2, 153);
    Step(16, 3, 2, 153);
    Check(17, 2, 2, 171);
    Step(17, 2, 2, 171);
    Check(18, 2, 0, 190);
    Step(18, 2, 0, 190);
    Check(19, 0, 4, 210);
    Step(19, 0, 4, 210);
  }

  lemma SixthOffsets()
    requires At(20, 4, 2, 231)
    ensures Agrees(20) && Agrees(21) && Agrees(22) && Agrees(23)
  {
    hide Agrees, At, Walk, Triangle;
    Check(20, 4, 2, 231);
    Step(20, 4, 2, 231);
    Check(21, 2, 4, 253);
    Step(21, 2, 4, 253);
    Check(22, 4, 1, 276);
    Step(22, 4, 1, 276);
    Check(23, 1, 1, 300);
  }

  /** The offsets are those of the standard: (t + 1)(t + 2)/2 modulo 64 at step t of the walk. */
  lemma OffsetsOfTheStandard(t: nat)
    requires t < 24
    ensures Agrees(t)
  {
    hide *;
    FirstOffsets();
    SecondOffsets();
    ThirdOffsets();
    FourthOffsets();
    FifthOffsets();
    SixthOffsets();
  }

  // ---------------------------------------------------------------- rotations

  // One lemma for every eight numbers of places, one case for each.

  lemma RotateBy1To7(b: bv64, n: bv64, z: bv64)
    requires 1 <= n < 8 && z < 64
    ensures (Rotate(b, n) >> z) & 1 == (b >> ((z - n) & 63)) & 1
  {
    match n { case 1 => case 2 => case 3 => case 4 => case 5 => case 6 => case _ => }
  }

  lemma RotateBy8To15(b: bv64, n: bv64, z: bv64)
    requires 8 <= n < 16 && z < 64
    ensures (Rotate(b, n) >> z) & 1 == (b >> ((z - n) & 63)) & 1
  {
    match n { case 8 => case 9 => case 10 => case 11 => case 12 => case 13 => case 14 => case _ => }
  }

  lemma RotateBy16To23(b: bv64, n: bv64, z: bv64)
    requires 16 <= n < 24 && z < 64
    ensures (Rotate(b, n) >> z) & 1 == (b >> ((z - n) & 63)) & 1
  {
    match n { case 16 => case 17 => case 18 => case 19 => case 20 => case 21 => case 22 => case _ => }
  }

  lemma RotateBy24To31(b: bv64, n: bv64, z: bv64)
    requires 24 <= n < 32 && z < 64
    ensures (Rotate(b, n) >> z) & 1 == (b >> ((z - n) & 63)) & 1
  {
    match n { case 24 => case 25 => case 26 => case 27 => case 28 => case 29 => case 30 => case _ => }
  }

  lemma RotateBy32To39(b: bv64, n: bv64, z: bv64)
    requires 32 <= n < 40 && z < 64
    ensures (Rotate(b, n) >> z) & 1 == (b >> ((z - n) & 63)) & 1
  {
    match n { case 32 => case 33 => case 34 => case 35 => case 36 => case 37 => case 38 => case _ => }
  }

  lemma RotateBy40To47(b: bv64, n: bv64, z: bv64)
    requires 40 <= n < 48 && z < 64
    ensures (Rotate(b, n) >> z) & 1 == (b >> ((z - n) & 63)) & 1
  {
    match n { case 40 => case 41 => case 42 => case 43 => case 44 => case 45 => case 46 => case _ => }
  }

  lemma RotateBy48To55(b: bv64, n: bv64, z: bv64)
    requires 48 <= n < 56 && z < 64
    ensures (Rotate(b, n) >> z) & 1 == (b >> ((z - n) & 63)) & 1
  {
    match n { case 48 => case 49 => case 50 => case 51 => case 52 => case 53 => case 54 => case _ => }
  }

  lemma RotateBy56To63(b: bv64, n: bv64, z: bv64)
    requires 56 <= n < 64 && z < 64
    ensures (Rotate(b, n) >> z) & 1 == (b >> ((z - n) & 63)) & 1
  {
    match n { case 56 => case 57 => case 58 => case 59 => case 60 => case 61 => case 62 => case _ => }
  }

  lemma RotateMovesBits(b: bv64, n: bv64, z: bv64)
    requires 0 < n < 64 && z < 64
    ensures BitSet(Rotate(b, n), z) == BitSet(b, (z - n) & 63)
  {
    hide Rotate;
    if n < 8 {
      RotateBy1To7(b, n, z);
    } else if n < 16 {
      RotateBy8To15(b, n, z);
    } else if n < 24 {
      RotateBy16To23(b, n, z);
    } else if n < 32 {
      RotateBy24To31(b, n, z);
    } else if n < 40 {
      RotateBy32To39(b, n, z);
    } else if n < 48 {
      RotateBy40To47(b, n, z);
    } else if n < 56 {
      RotateBy48To55(b, n, z);
    } else {
      RotateBy56To63(b, n, z);
    }
  }

  /** Rol moves every bit n places up, counting modulo 64. */
  lemma RolMovesBits(l: Lane, n: bv64, z: bv64)
    requires 0 < n < 64 && z < 64
    ensures l.Rol(n).Bit(z) == l.Bit((z - n) & 63)
  {
    hide Rotate, BitSet;
    RotateMovesBits(l.bits, n, z);
  }

  // ---------------------------------------------------------------- round constants

  /** One step of the shift register of algorithm 5 (section 3.2.5), bit 0 first. */
  function Shift(r: bv8): bv8 { (r << 1) ^ (if r & 0x80 == 0 then 0 else 0x71) }

  function Register(t: nat): bv8 { if t == 0 then 1 else Shift(Register(t - 1)) }

  /** The bits of a round constant, at places 2^j - 1. */
  function Spread(b0: bv8, b1: bv8, b2: bv8, b3: bv8, b4: bv8, b5: bv8, b6: bv8): bv64 {
    Low(b0) | (Low(b1) << 1) | (Low(b2) << 3) | (Low(b3) << 7) | (Low(b4) << 15) | (Low(b5) << 31) | (Low(b6) << 63)
  }

  function Low(r: bv8): bv64 { (r & 1) as bv64 }

  /** The constant made of outputs 7n to 7n + 6 of the register. */
  function StandardRC(n: nat): bv64 {
    var t := 7 * n;
    Spread(Register(t), Register(t + 1), Register(t + 2), Register(t + 3), Register(t + 4), Register(t + 5),
           Register(t + 6))
  }

  /** The register after 7n steps. */
  function RegisterAt(n: nat): bv8
    requires n < 24
  {
    match n
    case 0 => 0x01  case 1 => 0x80  case 2 => 0xd8  case 3 => 0x1a  case 4 => 0xdf  case 5 => 0x09
    case 6 => 0x35  case 7 => 0x4f  case 8 => 0xca  case 9 => 0x70  case 10 => 0x41  case 11 => 0xec
    case 12 => 0xd5  case 13 => 0xcd  case 14 => 0x63  case 15 => 0xab  case 16 => 0xaa  case 17 => 0x2a
    case 18 => 0xf2  case 19 => 0xe8  case 20 => 0x37  case 21 => 0x3e  case 22 => 0x0b  case _ => 0x44
  }

  function SevenShifts(r: bv8): bv8 { Shift(Shift(Shift(Shift(Shift(Shift(Shift(r))))))) }

  lemma SevenSteps(t: nat)
    ensures Register(t + 7) == SevenShifts(Register(t))
  {
    hide Shift;
    assert Register(t + 2) == Shift(Shift(Register(t)));
    assert Register(t + 4) == Shift(Shift(Register(t + 2)));
    assert Register(t + 6) == Shift(Shift(Register(t + 4)));
  }

  lemma EarlyRegister(n: nat)
    requires 0 < n < 12
    ensures SevenShifts(RegisterAt(n - 1)) == RegisterAt(n)
  {}

  lemma LateRegister(n: nat)
    requires 12 <= n < 24
    ensures SevenShifts(RegisterAt(n - 1)) == RegisterAt(n)
  {}

  lemma {:induction false} RegisterPlaces(n: nat)
    requires n < 24
    ensures Register(7 * n) == RegisterAt(n)
  {
    hide SevenShifts;
    if n != 0 {
      RegisterPlaces(n - 1);
      SevenSteps(7 * (n - 1));
      if n < 12 {
        EarlyRegister(n);
      } else {
        LateRegister(n);
      }
    }
  }

  function ConstantFrom(r: bv8): bv64 {
    Spread(r, Shift(r), Shift(Shift(r)), Shift(Shift(Shift(r))), Shift(Shift(Shift(Shift(r)))),
           Shift(Shift(Shift(Shift(Shift(r))))), Shift(Shift(Shift(Shift(Shift(Shift(r)))))))
  }

  lemma EarlyConstants(n: nat)
    requires n < 12
    ensures ConstantFrom(RegisterAt(n)) == RCBits(n)
  {
    match n {
      case 0 => case 1 => case 2 => case 3 => case 4 => case 5 => case 6 => case 7 => case 8 =>
      case 9 => case 10 => case _ =>
    }
  }

  lemma LateConstants(n: nat)
    requires 12 <= n < 24
    ensures ConstantFrom(RegisterAt(n)) == RCBits(n)
  {
    match n {
      case 12 => case 13 => case 14 => case 15 => case 16 => case 17 => case 18 => case 19 =>
      case 20 => case 21 => case 22 => case _ =>
    }
  }

  lemma ConstantTable(n: nat)
    requires n < 24
    ensures ConstantFrom(RegisterAt(n)) == RCBits(n)
  {
    hide ConstantFrom, RCBits, RegisterAt;
    if n < 12 {
      EarlyConstants(n);
    } else {
      LateConstants(n);
    }
  }

  lemma ConstantFromRegister(n: nat)
    ensures StandardRC(n) == ConstantFrom(Register(7 * n))
  {
    hide Shift, Spread;
    var t := 7 * n;
    assert Register(t + 1) == Shift(Register(t)) && Register(t + 2) == Shift(Register(t + 1));
    assert Register(t + 3) == Shift(Register(t + 2)) && Register(t + 4) == Shift(Register(t + 3));
    assert Register(t + 5) == Shift(Register(t + 4)) && Register(t + 6) == Shift(Register(t + 5));
  }

  /** The round constants are those of the standard. */
  lemma ConstantsOfTheStandard(n: nat)
    requires n < 24
    ensures RC(n) == Lane(StandardRC(n))
  {
    hide StandardRC, ConstantFrom, RCBits, RegisterAt;
    ConstantFromRegister(n);
    RegisterPlaces(n);
    ConstantTable(n);
  }
}
