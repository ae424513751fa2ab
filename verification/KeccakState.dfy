/** The Keccak state as a sponge state: its 200 bytes, eight little-endian bytes to a lane. */
module KeccakState {
  import opened Bytes
  import opened Keccak
  import Sponge

  // ---------------------------------------------------------------- bytes of a word

  /** Byte b moved to byte k of a word. */
  function Shifted(b: Byte, k: nat): bv64
    requires k < 8
  {
    match k
    case 0 => b as bv64
    case 1 => (b as bv64) << 8
    case 2 => (b as bv64) << 16
    case 3 => (b as bv64) << 24
    case 4 => (b as bv64) << 32
    case 5 => (b as bv64) << 40
    case 6 => (b as bv64) << 48
    case _ => (b as bv64) << 56
  }

  /** Byte k of a word. */
  function ByteOf(u: bv64, k: nat): Byte
    requires k < 8
  {
    match k
    case 0 => (u & 0xff) as Byte
    case 1 => ((u >> 8) & 0xff) as Byte
    case 2 => ((u >> 16) & 0xff) as Byte
    case 3 => ((u >> 24) & 0xff) as Byte
    case 4 => ((u >> 32) & 0xff) as Byte
    case 5 => ((u >> 40) & 0xff) as Byte
    case 6 => ((u >> 48) & 0xff) as Byte
    case _ => ((u >> 56) & 0xff) as Byte
  }

  function XorByte(u: bv64, k: nat, b: Byte): bv64
    requires k < 8
  {
    XorWord(u, Shifted(b, k))
  }

  function OrByte(u: bv64, k: nat, b: Byte): bv64
    requires k < 8
  {
    OrWord(u, Shifted(b, k))
  }

  function OrWord(u: bv64, v: bv64): bv64 { u | v }

  lemma ShiftedZero(u: bv64, k: nat)
    requires k < 8
    ensures XorByte(u, k, 0) == u
  {
    match k { case 0 => case 1 => case 2 => case 3 => case 4 => case 5 => case 6 => case _ => }
  }

  lemma XorRegroups(u: bv64, v: bv64, w: bv64, x: bv64, y: bv64)
    requires x == u ^ v && y == v ^ w
    ensures XorWord(x, w) == XorWord(u, y)
  {}

  lemma XorAssociates(u: bv64, v: bv64, w: bv64)
    ensures XorWord(XorWord(u, v), w) == XorWord(u, XorWord(v, w))
  {
    XorRegroups(u, v, w, XorWord(u, v), XorWord(v, w));
  }

  lemma ShiftedXor(a: Byte, b: Byte, k: nat)
    requires k < 8
    ensures XorWord(Shifted(a, k), Shifted(b, k)) == Shifted(a ^ b, k)
  {
    match k { case 0 => case 1 => case 2 => case 3 => case 4 => case 5 => case 6 => case _ => }
  }

  lemma ShiftedTwice(u: bv64, a: Byte, b: Byte, k: nat)
    requires k < 8
    ensures XorByte(XorByte(u, k, a), k, b) == XorByte(u, k, a ^ b)
  {
    hide XorWord, Shifted;
    XorAssociates(u, Shifted(a, k), Shifted(b, k));
    ShiftedXor(a, b, k);
  }

  /** A byte XORed in is seen where it was put, and nowhere else. */
  lemma ByteOfShifted(u: bv64, b: Byte, k: nat, j: nat)
    requires k < 8 && j < 8
    ensures ByteOf(XorByte(u, k, b), j) == if j == k then ByteOf(u, j) ^ b else ByteOf(u, j)
  {
    match k {
      case 0 => match j { case 0 => case 1 => case 2 => case 3 => case 4 => case 5 => case 6 => case _ => }
      case 1 => match j { case 0 => case 1 => case 2 => case 3 => case 4 => case 5 => case 6 => case _ => }
      case 2 => match j { case 0 => case 1 => case 2 => case 3 => case 4 => case 5 => case 6 => case _ => }
      case 3 => match j { case 0 => case 1 => case 2 => case 3 => case 4 => case 5 => case 6 => case _ => }
      case 4 => match j { case 0 => case 1 => case 2 => case 3 => case 4 => case 5 => case 6 => case _ => }
      case 5 => match j { case 0 => case 1 => case 2 => case 3 => case 4 => case 5 => case 6 => case _ => }
      case 6 => match j { case 0 => case 1 => case 2 => case 3 => case 4 => case 5 => case 6 => case _ => }
      case _ => match j { case 0 => case 1 => case 2 => case 3 => case 4 => case 5 => case 6 => case _ => }
    }
  }

  // ---------------------------------------------------------------- bytes of a lane

  function LanePut(a: Lane, k: nat, b: Byte): Lane
    requires k < 8
  {
    Lane(XorByte(a.bits, k, b))
  }

  function LaneGet(a: Lane, k: nat): Byte
    requires k < 8
  {
    ByteOf(a.bits, k)
  }

  lemma LanePutZero(a: Lane, k: nat)
    requires k < 8
    ensures LanePut(a, k, 0) == a
  {
    hide XorByte, OrByte;
    ShiftedZero(a.bits, k);
  }

  lemma LanePutTwice(a: Lane, k: nat, b: Byte, c: Byte)
    requires k < 8
    ensures LanePut(LanePut(a, k, b), k, c) == LanePut(a, k, b ^ c)
  {
    hide XorByte, OrByte;
    ShiftedTwice(a.bits, b, c, k);
  }

  lemma LaneGetPut(a: Lane, k: nat, b: Byte, j: nat)
    requires k < 8 && j < 8
    ensures LaneGet(LanePut(a, k, b), j) == if j == k then LaneGet(a, j) ^ b else LaneGet(a, j)
  {
    hide XorByte, ByteOf;
    ByteOfShifted(a.bits, b, k, j);
  }

  // ---------------------------------------------------------------- bytes of the state

  function Put(a: Lanes, i: nat, b: Byte): Lanes {
    if i < 200 then a[i / 8 := LanePut(a[i / 8], i % 8, b)] else a
  }

  function Get(a: Lanes, i: nat): Byte {
    if i < 200 then LaneGet(a[i / 8], i % 8) else 0
  }

  function OfRate(r: nat): Sponge.Sponge<Lanes> {
    Sponge.Sponge(F1600, Put, Get, r)
  }

  lemma PutZero(a: Lanes, i: nat)
    requires i < 200
    ensures Put(a, i, 0) == a
  {
    hide LanePut;
    LanePutZero(a[i / 8], i % 8);
  }

  lemma PutTwice(a: Lanes, i: nat, b: Byte, c: Byte)
    requires i < 200
    ensures Put(Put(a, i, b), i, c) == Put(a, i, b ^ c)
  {
    hide LanePut;
    LanePutTwice(a[i / 8], i % 8, b, c);
  }

  lemma GetPut(a: Lanes, i: nat, b: Byte, j: nat)
    requires i < 200 && j < 200
    ensures Get(Put(a, i, b), j) == if i == j then Get(a, j) ^ b else Get(a, j)
  {
    hide LanePut, LaneGet;
    if i / 8 == j / 8 {
      LaneGetPut(a[i / 8], i % 8, b, j % 8);
    }
  }

  lemma OfRateLaws(r: nat)
    requires 0 < r <= 200
    ensures OfRate(r).Laws()
  {
    hide Put, Get;
    forall a: Lanes, i: nat | i < r ensures Put(a, i, 0) == a { PutZero(a, i); }
    forall a: Lanes, i: nat, b, c | i < r ensures Put(Put(a, i, b), i, c) == Put(a, i, b ^ c) { PutTwice(a, i, b, c); }
    forall a: Lanes, i: nat, b, j: nat | i < r && j < r
      ensures Get(Put(a, i, b), j) == if i == j then Get(a, j) ^ b else Get(a, j)
    {
      GetPut(a, i, b, j);
    }
  }

  // ---------------------------------------------------------------- a lane at a time

  function LoadTo(x: Bytes, n: nat): bv64
    requires |x| == 8 && n <= 8
  {
    if n == 0 then 0 else OrByte(LoadTo(x, n - 1), n - 1, x[n - 1])
  }

  /** load64: a word from eight little-endian bytes. */
  method Load64(x: Bytes) returns (r: Lane)
    requires |x| == 8
    ensures r == Loaded(x)
  {
    hide XorByte, OrByte;
    var w: bv64 := 0;
    for i := 0 to 8
      invariant w == LoadTo(x, i)
    {
      w := OrByte(w, i, x[i]);
    }
    r := Lane(w);
  }

  function Loaded(x: Bytes): Lane
    requires |x| == 8
  {
    Lane(LoadTo(x, 8))
  }

  /** The bytes from k on, XORed into a lane one after the other. */
  function LanePuts(a: Lane, x: Bytes, k: nat): Lane
    requires |x| == 8 && k <= 8
    decreases 8 - k
  {
    if k == 8 then a else LanePuts(LanePut(a, k, x[k]), x, k + 1)
  }

  function EightPuts(u: bv64, x: Bytes): bv64
    requires |x| == 8
  {
    var u4 := XorByte(XorByte(XorByte(XorByte(u, 0, x[0]), 1, x[1]), 2, x[2]), 3, x[3]);
    XorByte(XorByte(XorByte(XorByte(u4, 4, x[4]), 5, x[5]), 6, x[6]), 7, x[7])
  }

  function EightOrs(x: Bytes): bv64
    requires |x| == 8
  {
    var u4 := OrByte(OrByte(OrByte(OrByte(0, 0, x[0]), 1, x[1]), 2, x[2]), 3, x[3]);
    OrByte(OrByte(OrByte(OrByte(u4, 4, x[4]), 5, x[5]), 6, x[6]), 7, x[7])
  }

  /** Only bytes before byte k of the word are set. */
  predicate Below(w: bv64, k: nat)
    requires k <= 8
  {
    match k
    case 0 => w == 0
    case 1 => w >> 8 == 0
    case 2 => w >> 16 == 0
    case 3 => w >> 24 == 0
    case 4 => w >> 32 == 0
    case 5 => w >> 40 == 0
    case 6 => w >> 48 == 0
    case 7 => w >> 56 == 0
    case _ => true
  }

  /** The next byte does not overlap those before it. */
  lemma Disjoint(w: bv64, k: nat, b: Byte)
    requires k < 8 && Below(w, k)
    ensures w & Shifted(b, k) == 0
  {
    match k { case 0 => case 1 => case 2 => case 3 => case 4 => case 5 => case 6 => case _ => }
  }

  lemma OrOverlaps(w: bv64, v: bv64, x: bv64, y: bv64, z: bv64)
    requires x == w | v && y == w ^ v && z == w & v
    ensures x == y ^ z
  {}

  lemma XorNothing(y: bv64, z: bv64)
    requires z == 0
    ensures y ^ z == y
  {}

  lemma OrWithoutOverlap(w: bv64, v: bv64, x: bv64, y: bv64, z: bv64)
    requires x == w | v && y == w ^ v && z == w & v && z == 0
    ensures x == y
  {
    OrOverlaps(w, v, x, y, z);
    XorNothing(y, z);
  }

  lemma DisjointOr(w: bv64, v: bv64)
    requires w & v == 0
    ensures OrWord(w, v) == XorWord(w, v)
  {
    OrWithoutOverlap(w, v, OrWord(w, v), XorWord(w, v), w & v);
  }

  lemma NextBelow(w: bv64, k: nat, b: Byte)
    requires k < 8 && Below(w, k)
    ensures Below(OrByte(w, k, b), k + 1)
  {
    match k { case 0 => case 1 => case 2 => case 3 => case 4 => case 5 => case 6 => case _ => }
  }

  /** The next byte, inside a word that the others were XORed into. */
  lemma OrThenXor(u: bv64, w: bv64, k: nat, b: Byte)
    requires k < 8 && Below(w, k)
    ensures XorWord(u, OrByte(w, k, b)) == XorByte(XorWord(u, w), k, b) && Below(OrByte(w, k, b), k + 1)
  {
    hide OrWord, XorWord, Shifted, Below;
    Disjoint(w, k, b);
    DisjointOr(w, Shifted(b, k));
    NextBelow(w, k, b);
    XorAssociates(u, w, Shifted(b, k));
  }

  lemma XorWordZero(u: bv64)
    ensures XorWord(u, 0) == u && Below(0, 0)
  {}

  /** The bytes of a word do not overlap. */
  lemma OrsArePuts(u: bv64, x: Bytes)
    requires |x| == 8
    ensures XorWord(u, EightOrs(x)) == EightPuts(u, x)
  {
    hide OrByte, XorByte, XorWord, Below;
    XorWordZero(u);
    OrThenXor(u, 0, 0, x[0]);
    var w1 := OrByte(0, 0, x[0]);
    OrThenXor(u, w1, 1, x[1]);
    var w2 := OrByte(w1, 1, x[1]);
    OrThenXor(u, w2, 2, x[2]);
    var w3 := OrByte(w2, 2, x[2]);
    OrThenXor(u, w3, 3, x[3]);
    var w4 := OrByte(w3, 3, x[3]);
    OrThenXor(u, w4, 4, x[4]);
    var w5 := OrByte(w4, 4, x[4]);
    OrThenXor(u, w5, 5, x[5]);
    var w6 := OrByte(w5, 5, x[5]);
    OrThenXor(u, w6, 6, x[6]);
    var w7 := OrByte(w6, 6, x[6]);
    OrThenXor(u, w7, 7, x[7]);
  }

  lemma PutsUnrolled(a: Lane, x: Bytes)
    requires |x| == 8
    ensures LanePuts(a, x, 0) == Lane(EightPuts(a.bits, x))
  {
    hide XorByte, OrByte;
    var a1 := LanePut(a, 0, x[0]);
    var a2 := LanePut(a1, 1, x[1]);
    var a3 := LanePut(a2, 2, x[2]);
    var a4 := LanePut(a3, 3, x[3]);
    var a5 := LanePut(a4, 4, x[4]);
    var a6 := LanePut(a5, 5, x[5]);
    var a7 := LanePut(a6, 6, x[6]);
    var a8 := LanePut(a7, 7, x[7]);
    assert LanePuts(a, x, 0) == LanePuts(a2, x, 2);
    assert LanePuts(a2, x, 2) == LanePuts(a4, x, 4);
    assert LanePuts(a4, x, 4) == LanePuts(a6, x, 6);
    assert LanePuts(a6, x, 6) == LanePuts(a8, x, 8);
  }

  lemma LoadUnrolled(x: Bytes)
    requires |x| == 8
    ensures LoadTo(x, 8) == EightOrs(x)
  {
    hide OrByte;
    assert LoadTo(x, 1) == OrByte(0, 0, x[0]);
    assert LoadTo(x, 2) == OrByte(LoadTo(x, 1), 1, x[1]);
    assert LoadTo(x, 3) == OrByte(LoadTo(x, 2), 2, x[2]);
    assert LoadTo(x, 4) == OrByte(LoadTo(x, 3), 3, x[3]);
    assert LoadTo(x, 5) == OrByte(LoadTo(x, 4), 4, x[4]);
    assert LoadTo(x, 6) == OrByte(LoadTo(x, 5), 5, x[5]);
    assert LoadTo(x, 7) == OrByte(LoadTo(x, 6), 6, x[6]);
    assert LoadTo(x, 8) == OrByte(LoadTo(x, 7), 7, x[7]);
  }

  /** XORing a loaded word into a lane is XORing its eight bytes. */
  lemma LoadIsPuts(a: Lane, x: Bytes)
    requires |x| == 8
    ensures a.Xor(Loaded(x)) == LanePuts(a, x, 0)
  {
    hide EightOrs, EightPuts, LoadTo, LanePuts, XorWord;
    PutsUnrolled(a, x);
    LoadUnrolled(x);
    OrsArePuts(a.bits, x);
  }

  lemma Slot(l: nat, k: nat)
    requires k < 8
    ensures (8 * l + k) / 8 == l && (8 * l + k) % 8 == k
  {}

  /** The bytes from k on of a group of eight go into their lane. */
  lemma {:induction false} GroupFrom(r: nat, a: Lanes, l: nat, x: Bytes, k: nat)
    requires l < 25 && |x| == 8 && k <= 8
    ensures OfRate(r).XorInto(a, 8 * l + k, x[k..]) == a[l := LanePuts(a[l], x, k)]
    decreases 8 - k
  {
    hide LanePut, Get;
    if k < 8 {
      Slot(l, k);
      var b := a[l := LanePut(a[l], k, x[k])];
      assert x[k..][0] == x[k] && x[k..][1..] == x[k + 1..];
      GroupFrom(r, b, l, x, k + 1);
    }
  }

  lemma GroupXored(r: nat, a: Lanes, l: nat, x: Bytes)
    requires l < 25 && |x| == 8
    ensures OfRate(r).XorInto(a, 8 * l, x) == a[l := a[l].Xor(Loaded(x))]
  {
    hide LanePuts, Loaded, Put, Get;
    GroupFrom(r, a, l, x, 0);
    LoadIsPuts(a[l], x);
    assert x[0..] == x;
  }
}
