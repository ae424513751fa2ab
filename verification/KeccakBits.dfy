/** The permutation bit by bit: the step mappings of FIPS 202 (section 3.2) on an array of single bits, and the lanes of
    fips202.c as a representation of that array. */
module KeccakBits {
  import opened Bytes
  import opened Keccak
  import opened KeccakTables
  import opened KeccakState
  import KeccakHash

  /** Bit (x, y, z) of a state array, for x and y below 5 and z below 64. */
  type Cube = (nat, nat, bv64) -> bool

  predicate Within(x: nat, y: nat, z: bv64) { x < 5 && y < 5 && z < 64 }

  /** Exclusive or. */
  predicate Odd(p: bool, q: bool) { p != q }

  // ---------------------------------------------------------------- FIPS 202, section 3.2

  predicate Sheet(A: Cube, x: nat, z: bv64) {
    Odd(Odd(Odd(Odd(A(x, 0, z), A(x, 1, z)), A(x, 2, z)), A(x, 3, z)), A(x, 4, z))
  }

  function ThetaStep(A: Cube): Cube {
    (x: nat, y: nat, z: bv64) => Odd(A(x, y, z), Odd(Sheet(A, (x + 4) % 5, z), Sheet(A, (x + 1) % 5, (z - 1) & 63)))
  }

  /** The offsets are those of the standard by KeccakTables.OffsetsOfTheStandard; lane (0, 0) stays. */
  function RhoStep(A: Cube): Cube {
    (x: nat, y: nat, z: bv64) => if (x == 0 && y == 0) || x >= 5 || y >= 5 then A(x, y, z) else A(x, y, (z - Offset(x, y)) & 63)
  }

  function PiColumn(x: nat, y: nat): nat { (x + 3 * y) % 5 }

  function PiStep(A: Cube): Cube {
    (x: nat, y: nat, z: bv64) => A(PiColumn(x, y), x, z)
  }

  function ChiStep(A: Cube): Cube {
    (x: nat, y: nat, z: bv64) => Odd(A(x, y, z), !A((x + 1) % 5, y, z) && A((x + 2) % 5, y, z))
  }

  function IotaStep(A: Cube, rc: bv64): Cube {
    (x: nat, y: nat, z: bv64) => if x == 0 && y == 0 && z < 64 then Odd(A(x, y, z), BitSet(rc, z)) else A(x, y, z)
  }

  function Rnd(A: Cube, n: nat): Cube {
    IotaStep(ChiStep(PiStep(RhoStep(ThetaStep(A)))), StandardRC(n))
  }

  /** The first n of the rounds 0, 1, 2, ... */
  function FirstRounds(A: Cube, n: nat): Cube {
    if n == 0 then A else Rnd(FirstRounds(A, n - 1), n - 1)
  }

  // ---------------------------------------------------------------- bits of lanes

  lemma XorBit(u: bv64, v: bv64, z: bv64)
    requires z < 64
    ensures BitSet(u ^ v, z) == (BitSet(u, z) != BitSet(v, z))
  {}

  lemma AndNotBit(u: bv64, v: bv64, z: bv64)
    requires z < 64
    ensures BitSet(!u & v, z) <==> !BitSet(u, z) && BitSet(v, z)
  {}

  lemma WordsAre(u: bv64, v: bv64)
    ensures XorWord(u, v) == u ^ v && AndNotWord(u, v) == !u & v
  {}

  lemma LaneXor(l: Lane, m: Lane, z: bv64)
    requires z < 64
    ensures l.Xor(m).Bit(z) == Odd(l.Bit(z), m.Bit(z))
  {
    hide BitSet, XorWord, AndNotWord;
    WordsAre(l.bits, m.bits);
    XorBit(l.bits, m.bits, z);
  }

  /** (not l) and m, bit by bit. */
  lemma LaneAndNot(l: Lane, m: Lane, z: bv64)
    requires z < 64
    ensures l.AndNot(m).Bit(z) <==> !l.Bit(z) && m.Bit(z)
  {
    hide BitSet, XorWord, AndNotWord;
    WordsAre(l.bits, m.bits);
    AndNotBit(l.bits, m.bits, z);
  }

  lemma LaneRot(l: Lane, n: bv64, z: bv64)
    requires n < 64 && z < 64
    ensures (z - n) & 63 < 64 && l.Rot(n).Bit(z) == l.Bit((z - n) & 63)
  {
    Masked(z, n);
    hide Lane.Rol, Lane.Bit;
    if n != 0 {
      RolMovesBits(l, n, z);
    }
  }

  lemma Masked(z: bv64, n: bv64)
    ensures (z - n) & 63 < 64 && (z < 64 ==> (z - 0) & 63 == z)
  {}

  // ---------------------------------------------------------------- the steps on lanes

  /** A shows the bits of a. */
  ghost predicate Shows(A: Cube, a: Lanes) {
    forall x: nat, y: nat, z: bv64 | Within(x, y, z) :: A(x, y, z) == a[x + 5 * y].Bit(z)
  }

  /** A shows the bits of a lane at every coordinate. */
  ghost predicate ShowsAt(A: Cube, x: nat, y: nat, l: Lane) {
    forall z: bv64 | z < 64 :: A(x, y, z) == l.Bit(z)
  }

  lemma ShownAt(A: Cube, a: Lanes, x: nat, y: nat)
    requires Shows(A, a) && x < 5 && y < 5
    ensures ShowsAt(A, x, y, a[x + 5 * y])
  {
    hide Lane.Bit;
    forall z: bv64 | z < 64 ensures A(x, y, z) == a[x + 5 * y].Bit(z) { assert Within(x, y, z); }
  }

  lemma SheetShown(A: Cube, a: Lanes, x: nat, z: bv64)
    requires Shows(A, a) && x < 5 && z < 64
    ensures Sheet(A, x, z) == Column(a, x).Bit(z)
  {
    hide Lane.Bit, Lane.Xor, Odd, Shows;
    ShownAt(A, a, x, 0);
    ShownAt(A, a, x, 1);
    ShownAt(A, a, x, 2);
    ShownAt(A, a, x, 3);
    ShownAt(A, a, x, 4);
    var c1 := a[x].Xor(a[x + 5]);
    var c2 := c1.Xor(a[x + 10]);
    var c3 := c2.Xor(a[x + 15]);
    LaneXor(a[x], a[x + 5], z);
    LaneXor(c1, a[x + 10], z);
    LaneXor(c2, a[x + 15], z);
    LaneXor(c3, a[x + 20], z);
  }

  lemma Mod5Is(x: nat)
    requires x < 25
    ensures Mod5(x) == x % 5
  {}

  lemma ThetaShown(A: Cube, a: Lanes, x: nat, y: nat)
    requires Shows(A, a) && x < 5 && y < 5
    ensures ShowsAt(ThetaStep(A), x, y, Theta(a, x, y))
  {
    hide Lane.Bit, Lane.Xor, Lane.Rot, Odd, Shows, Column, Sheet, Mod5;
    Mod5Is(x + 4);
    Mod5Is(x + 1);
    ShownAt(A, a, x, y);
    var left, right := Column(a, (x + 4) % 5), Column(a, (x + 1) % 5);
    forall z: bv64 | z < 64 ensures ThetaStep(A)(x, y, z) == Theta(a, x, y).Bit(z) {
      LaneRot(right, 1, z);
      SheetShown(A, a, (x + 4) % 5, z);
      SheetShown(A, a, (x + 1) % 5, (z - 1) & 63);
      LaneXor(left, right.Rot(1), z);
      LaneXor(a[x + 5 * y], left.Xor(right.Rot(1)), z);
    }
  }

  lemma OriginStays()
    ensures Offset(0, 0) == 0
  {}

  lemma RhoShown(A: Cube, a: Lanes, x: nat, y: nat)
    requires Shows(A, a) && x < 5 && y < 5
    ensures ShowsAt(RhoStep(ThetaStep(A)), x, y, Rho(a, x, y))
  {
    hide Lane.Bit, Lane.Rot, Shows, ThetaStep, Theta, Offset;
    ThetaShown(A, a, x, y);
    OriginStays();
    forall z: bv64 | z < 64 ensures RhoStep(ThetaStep(A))(x, y, z) == Rho(a, x, y).Bit(z) {
      LaneRot(Theta(a, x, y), Offset(x, y), z);
      Masked(z, 0);
    }
  }

  lemma PiColumnIs(x: nat, y: nat)
    requires x < 5 && y < 5
    ensures PiColumn(x, y) == Mod5(x + 3 * y)
  {
    Mod5Is(x + 3 * y);
  }

  lemma PiShown(A: Cube, a: Lanes, x: nat, y: nat)
    requires Shows(A, a) && x < 5 && y < 5
    ensures ShowsAt(PiStep(RhoStep(ThetaStep(A))), x, y, Pi(a, x, y))
  {
    hide Lane.Bit, Shows, ThetaStep, RhoStep, Rho, Mod5, PiColumn;
    PiColumnIs(x, y);
    RhoShown(A, a, PiColumn(x, y), x);
  }

  lemma ChiAt(A: Cube, x: nat, y: nat)
    requires x < 5 && y < 5
    ensures forall z: bv64 ::
              ChiStep(A)(x, y, z) == Odd(A(x, y, z), !A(Mod5(x + 1), y, z) && A(Mod5(x + 2), y, z))
  {
    Mod5Is(x + 1);
    Mod5Is(x + 2);
    hide Mod5, Odd;
  }

  /** Section 3.2.4: each bit is flipped exactly if the next one in its row is 0 and the one after that is 1. */
  lemma ChiShown(A: Cube, a: Lanes, x: nat, y: nat)
    requires Shows(A, a) && x < 5 && y < 5
    ensures ShowsAt(ChiStep(PiStep(RhoStep(ThetaStep(A)))), x, y, Chi(a, x, y))
  {
    hide Lane.Bit, Lane.Xor, Lane.AndNot, Odd, Shows, ThetaStep, RhoStep, PiStep, ChiStep, Pi, Mod5;
    var x1, x2 := Mod5(x + 1), Mod5(x + 2);
    ChiAt(PiStep(RhoStep(ThetaStep(A))), x, y);
    PiShown(A, a, x, y);
    PiShown(A, a, x1, y);
    PiShown(A, a, x2, y);
    var l, m, n := Pi(a, x, y), Pi(a, x1, y), Pi(a, x2, y);
    forall z: bv64 | z < 64 ensures ChiStep(PiStep(RhoStep(ThetaStep(A))))(x, y, z) == Chi(a, x, y).Bit(z) {
      LaneAndNot(m, n, z);
      LaneXor(l, m.AndNot(n), z);
    }
  }

  lemma IotaShown(A: Cube, a: Lanes, rc: bv64, x: nat, y: nat)
    requires Shows(A, a) && x < 5 && y < 5
    ensures ShowsAt(IotaStep(ChiStep(PiStep(RhoStep(ThetaStep(A)))), rc), x, y, Iota(a, Lane(rc), x, y))
  {
    hide Lane.Xor, BitSet, Odd, Shows, ThetaStep, RhoStep, PiStep, ChiStep, Chi;
    ChiShown(A, a, x, y);
    forall z: bv64 | z < 64 ensures Lane(rc).Bit(z) == BitSet(rc, z) {
      LaneXor(Chi(a, x, y), Lane(rc), z);
    }
    hide Lane.Bit;
    forall z: bv64 | z < 64
      ensures IotaStep(ChiStep(PiStep(RhoStep(ThetaStep(A)))), rc)(x, y, z) == Iota(a, Lane(rc), x, y).Bit(z)
    {
      LaneXor(Chi(a, x, y), Lane(rc), z);
    }
  }

  lemma RoundAt(a: Lanes, rc: Lane, x: nat, y: nat)
    requires x < 5 && y < 5
    ensures Round(a, rc)[x + 5 * y] == Iota(a, rc, x, y)
  {
    hide Iota;
  }

  /** One round of the lanes is one round of the bits. */
  lemma RoundShown(A: Cube, a: Lanes, n: nat)
    requires Shows(A, a) && n < 24
    ensures Shows(Rnd(A, n), Round(a, RC(n)))
  {
    hide Lane.Bit, Shows, Round, Iota, IotaStep, ChiStep, PiStep, RhoStep, ThetaStep, StandardRC, RC;
    ConstantsOfTheStandard(n);
    forall x: nat, y: nat, z: bv64 | Within(x, y, z) ensures Rnd(A, n)(x, y, z) == Round(a, RC(n))[x + 5 * y].Bit(z) {
      IotaShown(A, a, StandardRC(n), x, y);
      RoundAt(a, RC(n), x, y);
    }
    ShowsIs(Rnd(A, n), Round(a, RC(n)));
  }

  lemma ShowsIs(A: Cube, a: Lanes)
    requires forall x: nat, y: nat, z: bv64 | Within(x, y, z) :: A(x, y, z) == a[x + 5 * y].Bit(z)
    ensures Shows(A, a)
  {
    hide Lane.Bit;
  }

  /** The unrolled permutation of 24 rounds is that of the standard, bit by bit. */
  lemma PermutationShown(A: Cube, a: Lanes)
    requires Shows(A, a)
    ensures Shows(FirstRounds(A, 24), F1600(a))
  {
    hide Shows, FirstRounds, Rounds;
    RoundsShown(A, a, 24);
  }

  lemma {:induction false} RoundsShown(A: Cube, a: Lanes, n: nat)
    requires Shows(A, a) && n <= 24
    ensures Shows(FirstRounds(A, n), Rounds(a, n))
  {
    hide Shows, Rnd, Round, RC;
    if n > 0 {
      RoundsShown(A, a, n - 1);
      RoundShown(FirstRounds(A, n - 1), Rounds(a, n - 1), n - 1);
    }
  }

  // ---------------------------------------------------------------- the state as a string

  predicate ByteBit(b: Byte, j: bv64)
    requires j < 8
  {
    ((b as bv64) >> j) & 1 == 1
  }

  /** 8k */
  function Eight(k: nat): (n: bv64)
    requires k < 8
    ensures n <= 56
  {
    match k case 0 => 0 case 1 => 8 case 2 => 16 case 3 => 24 case 4 => 32 case 5 => 40 case 6 => 48 case _ => 56
  }

  lemma ByteOfBit(u: bv64, k: nat, j: bv64)
    requires k < 8 && j < 8
    ensures ByteBit(ByteOf(u, k), j) == BitSet(u, Eight(k) + j)
  {
    match k { case 0 => case 1 => case 2 => case 3 => case 4 => case 5 => case 6 => case _ => }
  }

  /** Section 3.1.2 and appendix B.1: bit j of byte i of the state string is bit 8(i mod 8) + j of lane i div 8, counting from the
      lowest. */
  lemma StateString(a: Lanes, i: nat, j: bv64)
    requires i < 200 && j < 8
    ensures ByteBit(Get(a, i), j) == a[i / 8].Bit(Eight(i % 8) + j)
  {
    hide ByteOf, ByteBit, BitSet;
    ByteOfBit(a[i / 8].bits, i % 8, j);
  }

  lemma EightBytes(u: bv64)
    ensures u == 0 <==> && ByteOf(u, 0) == 0 && ByteOf(u, 1) == 0 && ByteOf(u, 2) == 0 && ByteOf(u, 3) == 0
                        && ByteOf(u, 4) == 0 && ByteOf(u, 5) == 0 && ByteOf(u, 6) == 0 && ByteOf(u, 7) == 0
  {}

  lemma ZeroWord(u: bv64)
    ensures u == 0 <==> forall k :: 0 <= k < 8 ==> ByteOf(u, k) == 0
  {
    hide ByteOf;
    EightBytes(u);
  }

  lemma GetOf(a: Lanes, x: nat, k: nat)
    requires x < 25 && k < 8
    ensures Get(a, 8 * x + k) == ByteOf(a[x].bits, k)
  {
    hide ByteOf;
    assert (8 * x + k) / 8 == x && (8 * x + k) % 8 == k;
  }

  /** Section 4: absorbing begins with a state string of zeros, and no other lanes hold that. */
  lemma StartsAtZeros(a: Lanes)
    ensures a == KeccakHash.ZeroState() <==> forall i :: 0 <= i < 200 ==> Get(a, i) == 0
  {
    hide Get, ByteOf;
    if a == KeccakHash.ZeroState() {
      forall i | 0 <= i < 200 ensures Get(a, i) == 0 {
        GetOf(a, i / 8, i % 8);
        ZeroWord(a[i / 8].bits);
      }
    }
    if forall i :: 0 <= i < 200 ==> Get(a, i) == 0 {
      forall x | 0 <= x < 25 ensures a[x] == Lane(0) {
        forall k | 0 <= k < 8 ensures ByteOf(a[x].bits, k) == 0 {
          GetOf(a, x, k);
        }
        ZeroWord(a[x].bits);
      }
    }
  }
}
