/** The Haraka-512 permutation of sphincsplus/haraka-aesni/haraka.c, for one state and for four at once. The AES
    round instruction is a function of the context; words are sixteen bytes in memory order. */
module Haraka {
  import opened Bytes
  import Sponge

  type Word = w: Bytes | |w| == 16 witness seq(16, _ => 0)
  type State = s: Bytes | |s| == 64 witness seq(64, _ => 0)

  datatype Context = Context(aesenc: (Word, Word) -> Word, rc: seq<Word>)
  {
    predicate Valid() { |rc| == 40 }
  }

  datatype Quad = Quad(w0: Word, w1: Word, w2: Word, w3: Word)

  /** The four words of a state. */
  function Words(s: State): Quad { Quad(s[..16], s[16..32], s[32..48], s[48..]) }

  function Flat(q: Quad): State { q.w0 + q.w1 + q.w2 + q.w3 }

  function UnpackLow(a: Word, b: Word): Word { a[..4] + b[..4] + a[4..8] + b[4..8] }

  function UnpackHigh(a: Word, b: Word): Word { a[8..12] + b[8..12] + a[12..] + b[12..] }

  /** Two AES rounds on every word. */
  function AesLayer(c: Context, q: Quad, k: nat): Quad
    requires c.Valid() && k + 8 <= 40
  {
    Quad(c.aesenc(c.aesenc(q.w0, c.rc[k]), c.rc[k + 4]), c.aesenc(c.aesenc(q.w1, c.rc[k + 1]), c.rc[k + 5]),
         c.aesenc(c.aesenc(q.w2, c.rc[k + 2]), c.rc[k + 6]), c.aesenc(c.aesenc(q.w3, c.rc[k + 3]), c.rc[k + 7]))
  }

  /** Column i of a word, four bytes. */
  function Column(w: Word, i: nat): (b: Bytes)
    requires i < 4
    ensures |b| == 4
  {
    match i case 0 => w[..4] case 1 => w[4..8] case 2 => w[8..12] case _ => w[12..]
  }

  function FromColumns(a: Bytes, b: Bytes, c: Bytes, d: Bytes): Word
    requires |a| == |b| == |c| == |d| == 4
  {
    a + b + c + d
  }

  /** The mixing of the sixteen columns. */
  function MixLayer(q: Quad): Quad {
    Quad(FromColumns(Column(q.w0, 3), Column(q.w2, 3), Column(q.w1, 3), Column(q.w3, 3)),
         FromColumns(Column(q.w2, 0), Column(q.w0, 0), Column(q.w3, 0), Column(q.w1, 0)),
         FromColumns(Column(q.w2, 1), Column(q.w0, 1), Column(q.w3, 1), Column(q.w1, 1)),
         FromColumns(Column(q.w0, 2), Column(q.w2, 2), Column(q.w1, 2), Column(q.w3, 2)))
  }

  function Rounds(c: Context, q: Quad, n: nat): Quad
    requires c.Valid() && n <= 5
  {
    if n == 0 then q else MixLayer(AesLayer(c, Rounds(c, q, n - 1), 8 * (n - 1)))
  }

  function Perm(c: Context, s: State): State
    requires c.Valid()
  {
    Flat(Rounds(c, Words(s), 5))
  }

  // ---------------------------------------------------------------- the macros

  method Aes4(c: Context, q: Quad, k: nat) returns (r: Quad)
    requires c.Valid() && k + 8 <= 40
    ensures r == AesLayer(c, q, k)
  {
    var s0, s1, s2, s3 := q.w0, q.w1, q.w2, q.w3;
    s0 := c.aesenc(s0, c.rc[k]);
    s1 := c.aesenc(s1, c.rc[k + 1]);
    s2 := c.aesenc(s2, c.rc[k + 2]);
    s3 := c.aesenc(s3, c.rc[k + 3]);
    s0 := c.aesenc(s0, c.rc[k + 4]);
    s1 := c.aesenc(s1, c.rc[k + 5]);
    s2 := c.aesenc(s2, c.rc[k + 6]);
    s3 := c.aesenc(s3, c.rc[k + 7]);
    r := Quad(s0, s1, s2, s3);
  }

  lemma UnpackIsColumns(a: Word, b: Word)
    ensures UnpackLow(a, b) == FromColumns(Column(a, 0), Column(b, 0), Column(a, 1), Column(b, 1))
    ensures UnpackHigh(a, b) == FromColumns(Column(a, 2), Column(b, 2), Column(a, 3), Column(b, 3))
  {}

  lemma ColumnsBack(a: Bytes, b: Bytes, c: Bytes, d: Bytes)
    requires |a| == |b| == |c| == |d| == 4
    ensures var w := FromColumns(a, b, c, d); Column(w, 0) == a && Column(w, 1) == b && Column(w, 2) == c && Column(w, 3) == d
  {
    var w := FromColumns(a, b, c, d);
    assert w[..4] == a;
    assert w[4..8] == b;
    assert w[8..12] == c;
    assert w[12..] == d;
  }

  lemma UnpackLowTwice(a: Word, b: Word, c: Word, d: Word)
    ensures UnpackLow(UnpackLow(a, b), UnpackLow(c, d)) ==
            FromColumns(Column(a, 0), Column(c, 0), Column(b, 0), Column(d, 0))
    ensures UnpackHigh(UnpackLow(a, b), UnpackLow(c, d)) ==
            FromColumns(Column(a, 1), Column(c, 1), Column(b, 1), Column(d, 1))
  {
    hide UnpackLow, UnpackHigh, FromColumns, Column;
    UnpackIsColumns(a, b);
    UnpackIsColumns(c, d);
    ColumnsBack(Column(a, 0), Column(b, 0), Column(a, 1), Column(b, 1));
    ColumnsBack(Column(c, 0), Column(d, 0), Column(c, 1), Column(d, 1));
    UnpackIsColumns(UnpackLow(a, b), UnpackLow(c, d));
  }

  lemma UnpackHighTwice(a: Word, b: Word, c: Word, d: Word)
    ensures UnpackLow(UnpackHigh(a, b), UnpackHigh(c, d)) ==
            FromColumns(Column(a, 2), Column(c, 2), Column(b, 2), Column(d, 2))
    ensures UnpackHigh(UnpackHigh(a, b), UnpackHigh(c, d)) ==
            FromColumns(Column(a, 3), Column(c, 3), Column(b, 3), Column(d, 3))
  {
    hide UnpackLow, UnpackHigh, FromColumns, Column;
    UnpackIsColumns(a, b);
    UnpackIsColumns(c, d);
    ColumnsBack(Column(a, 2), Column(b, 2), Column(a, 3), Column(b, 3));
    ColumnsBack(Column(c, 2), Column(d, 2), Column(c, 3), Column(d, 3));
    UnpackIsColumns(UnpackHigh(a, b), UnpackHigh(c, d));
  }

  method Mix4(q: Quad) returns (r: Quad)
    ensures r == MixLayer(q)
  {
    hide UnpackLow, UnpackHigh, FromColumns, Column;
    UnpackLowTwice(q.w2, q.w3, q.w0, q.w1);
    UnpackHighTwice(q.w0, q.w1, q.w2, q.w3);
    var s0, s1, s2, s3 := q.w0, q.w1, q.w2, q.w3;
    var tmp := UnpackLow(s0, s1);
    s0 := UnpackHigh(s0, s1);
    s1 := UnpackLow(s2, s3);
    s2 := UnpackHigh(s2, s3);
    s3 := UnpackLow(s0, s2);
    s0 := UnpackHigh(s0, s2);
    s2 := UnpackHigh(s1, tmp);
    s1 := UnpackLow(s1, tmp);
    r := Quad(s0, s1, s2, s3);
  }

  // ---------------------------------------------------------------- the permutation in place

  /** AES4 and MIX4. */
  method Round(c: Context, q: Quad, ghost start: Quad, n: nat) returns (r: Quad)
    requires c.Valid() && n < 5 && q == Rounds(c, start, n)
    ensures r == Rounds(c, start, n + 1)
  {
    hide AesLayer, MixLayer;
    var a := Aes4(c, q, 8 * n);
    r := Mix4(a);
  }

  /** haraka512_perm with the same array for input and output. */
  method Permute(s: array<Byte>, c: Context)
    requires s.Length == 64 && c.Valid()
    modifies s
    ensures s[..] == Perm(c, old(s[..]))
  {
    hide Rounds, Flat, Words;
    var q := Words(s[..]);
    ghost var start := q;
    StartOfRounds(c, q);
    q := Round(c, q, start, 0);
    q := Round(c, q, start, 1);
    q := Round(c, q, start, 2);
    q := Round(c, q, start, 3);
    q := Round(c, q, start, 4);
    Store(s, Flat(q));
  }

  lemma StartOfRounds(c: Context, q: Quad)
    requires c.Valid()
    ensures Rounds(c, q, 0) == q
  {}

  method Store(s: array<Byte>, b: Bytes)
    requires s.Length == |b|
    modifies s
    ensures s[..] == b
  {
    forall i | 0 <= i < |b| {
      s[i] := b[i];
    }
  }

  /** State j of four states laid out one after the other. */
  function LaneOf(s: Bytes, j: nat): State
    requires |s| == 256 && j < 4
  {
    s[64 * j..64 * j + 64]
  }

  function FourLanes(a: State, b: State, c: State, d: State): (s: Bytes)
    ensures |s| == 256
  {
    a + b + c + d
  }

  lemma LaneOfFour(a: State, b: State, c: State, d: State)
    ensures LaneOf(FourLanes(a, b, c, d), 0) == a && LaneOf(FourLanes(a, b, c, d), 1) == b
    ensures LaneOf(FourLanes(a, b, c, d), 2) == c && LaneOf(FourLanes(a, b, c, d), 3) == d
  {}

  /** haraka512_perm_x4: each of the four states is permuted on its own. */
  method PermuteFour(s: array<Byte>, c: Context)
    requires s.Length == 256 && c.Valid()
    modifies s
    ensures forall j :: 0 <= j < 4 ==> LaneOf(s[..], j) == Perm(c, LaneOf(old(s[..]), j))
  {
    hide Rounds, Flat, Words, LaneOf, FourLanes;
    ghost var was := s[..];
    var q0, q1, q2, q3 := Words(LaneOf(s[..], 0)), Words(LaneOf(s[..], 1)), Words(LaneOf(s[..], 2)), Words(LaneOf(s[..], 3));
    ghost var p0, p1, p2, p3 := q0, q1, q2, q3;
    StartOfRounds(c, q0);
    StartOfRounds(c, q1);
    StartOfRounds(c, q2);
    StartOfRounds(c, q3);
    q0, q1, q2, q3 := RoundFour(c, q0, q1, q2, q3, p0, p1, p2, p3, 0);
    q0, q1, q2, q3 := RoundFour(c, q0, q1, q2, q3, p0, p1, p2, p3, 1);
    q0, q1, q2, q3 := RoundFour(c, q0, q1, q2, q3, p0, p1, p2, p3, 2);
    q0, q1, q2, q3 := RoundFour(c, q0, q1, q2, q3, p0, p1, p2, p3, 3);
    q0, q1, q2, q3 := RoundFour(c, q0, q1, q2, q3, p0, p1, p2, p3, 4);
    LaneOfFour(Flat(q0), Flat(q1), Flat(q2), Flat(q3));
    Store(s, FourLanes(Flat(q0), Flat(q1), Flat(q2), Flat(q3)));
  }

  /** AES4_4x, then MIX4 on each state. */
  method RoundFour(c: Context, q0: Quad, q1: Quad, q2: Quad, q3: Quad,
                   ghost p0: Quad, ghost p1: Quad, ghost p2: Quad, ghost p3: Quad, n: nat)
    returns (r0: Quad, r1: Quad, r2: Quad, r3: Quad)
    requires c.Valid() && n < 5
    requires q0 == Rounds(c, p0, n) && q1 == Rounds(c, p1, n) && q2 == Rounds(c, p2, n) && q3 == Rounds(c, p3, n)
    ensures r0 == Rounds(c, p0, n + 1) && r1 == Rounds(c, p1, n + 1)
    ensures r2 == Rounds(c, p2, n + 1) && r3 == Rounds(c, p3, n + 1)
  {
    hide AesLayer, MixLayer;
    r0 := Aes4(c, q0, 8 * n);
    r1 := Aes4(c, q1, 8 * n);
    r2 := Aes4(c, q2, 8 * n);
    r3 := Aes4(c, q3, 8 * n);
    r0 := Mix4(r0);
    r1 := Mix4(r1);
    r2 := Mix4(r2);
    r3 := Mix4(r3);
  }

  // ---------------------------------------------------------------- the state as a sponge state

  const RATE := 32

  function Put(s: State, i: nat, b: Byte): State {
    if i < 64 then s[i := s[i] ^ b] else s
  }

  function Get(s: State, i: nat): Byte {
    if i < 64 then s[i] else 0
  }

  /** The sponge of a context. */
  function Of(c: Context): Sponge.Sponge<State>
    requires c.Valid()
  {
    Sponge.Sponge(s => Perm(c, s), Put, Get, RATE)
  }

  lemma XorByteLaws(u: Byte, v: Byte, w: Byte)
    ensures u ^ 0 == u && (u ^ v) ^ w == u ^ (v ^ w)
  {}

  lemma OfLaws(c: Context)
    requires c.Valid()
    ensures Of(c).Laws()
  {
    forall s: State, i: nat | i < RATE ensures Put(s, i, 0) == s { XorByteLaws(s[i], 0, 0); }
    forall s: State, i: nat, a, b | i < RATE ensures Put(Put(s, i, a), i, b) == Put(s, i, a ^ b) {
      XorByteLaws(s[i], a, b);
    }
    forall s: State, i: nat, b, j: nat | i < RATE && j < RATE
      ensures Get(Put(s, i, b), j) == if i == j then Get(s, j) ^ b else Get(s, j)
    {
    }
  }

  /** Bytes XORed in one after the other are XORed in at once. */
  lemma {:induction false} XorIntoAt(c: Context, s: State, k: nat, m: Bytes, i: nat)
    requires c.Valid() && k + |m| <= 64 && i < 64
    ensures Of(c).XorInto(s, k, m)[i] == if k <= i < k + |m| then s[i] ^ m[i - k] else s[i]
    decreases |m|
  {
    hide Perm;
    if m != [] {
      XorIntoAt(c, s[k := s[k] ^ m[0]], k + 1, m[1..], i);
    }
  }
}
