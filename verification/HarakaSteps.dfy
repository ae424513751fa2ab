/** Haraka-512 as its designers define it, on a state of sixteen columns of four bytes, and that the permutation of Haraka is
    that function. */
module HarakaSteps {
  import opened Bytes
  import opened Haraka

  /** Which column becomes column k. */
  const MIX: seq<nat> := [3, 11, 7, 15, 8, 0, 12, 4, 9, 1, 13, 5, 2, 10, 6, 14]

  function Mixed(s: State): State {
    seq(64, i requires 0 <= i < 64 => s[4 * MIX[i / 4] + i % 4])
  }

  /** Layer m of AES rounds, with a constant of its own for each of the four words. */
  function AesRound(c: Context, s: State, m: nat): State
    requires c.Valid() && m < 10
  {
    c.aesenc(s[..16], c.rc[4 * m]) + c.aesenc(s[16..32], c.rc[4 * m + 1]) +
    c.aesenc(s[32..48], c.rc[4 * m + 2]) + c.aesenc(s[48..], c.rc[4 * m + 3])
  }

  /** A round is two layers of AES rounds and a mixing of the columns. */
  function FirstRounds(c: Context, s: State, r: nat): State
    requires c.Valid() && r <= 5
  {
    if r == 0 then s
    else Mixed(AesRound(c, AesRound(c, FirstRounds(c, s, r - 1), 2 * r - 2), 2 * r - 1))
  }

  /** Column k of a state. */
  function Col(s: State, k: nat): Bytes
    requires k < 16
  {
    s[4 * k..4 * k + 4]
  }

  lemma ColsDecide(s: State, t: State)
    requires forall k :: 0 <= k < 16 ==> Col(s, k) == Col(t, k)
    ensures s == t
  {
    forall i | 0 <= i < 64 ensures s[i] == t[i] {
      assert s[i] == Col(s, i / 4)[i % 4] && t[i] == Col(t, i / 4)[i % 4];
    }
  }

  lemma MixedByte(s: State, k: nat, j: nat)
    requires k < 16 && j < 4
    ensures MIX[k] < 16 && Mixed(s)[4 * k + j] == s[4 * MIX[k] + j]
  {
    assert (4 * k + j) / 4 == k && (4 * k + j) % 4 == j;
  }

  lemma MixedCol(s: State, k: nat)
    requires k < 16
    ensures MIX[k] < 16 && Col(Mixed(s), k) == Col(s, MIX[k])
  {
    hide Mixed;
    MixedByte(s, k, 0);
    MixedByte(s, k, 1);
    MixedByte(s, k, 2);
    MixedByte(s, k, 3);
  }

  lemma Within(s: State, a: nat, c: nat)
    requires a + 16 <= 64 && c <= 12
    ensures s[a..a + 16][c..c + 4] == s[a + c..a + c + 4]
  {
    var u, v := s[a..a + 16][c..c + 4], s[a + c..a + c + 4];
    assert u[0] == v[0] && u[1] == v[1] && u[2] == v[2] && u[3] == v[3];
  }

  lemma WordCols(s: State, w: nat)
    requires w < 4
    ensures var v := s[16 * w..16 * w + 16];
            && Col(s, 4 * w) == Column(v, 0) && Col(s, 4 * w + 1) == Column(v, 1)
            && Col(s, 4 * w + 2) == Column(v, 2) && Col(s, 4 * w + 3) == Column(v, 3)
  {
    Within(s, 16 * w, 0);
    Within(s, 16 * w, 4);
    Within(s, 16 * w, 8);
    Within(s, 16 * w, 12);
    var v := s[16 * w..16 * w + 16];
    assert v[0..4] == v[..4] && v[12..16] == v[12..];
  }

  lemma FlatCols(q: Quad)
    ensures var s := Flat(q);
            && Col(s, 0) == Column(q.w0, 0) && Col(s, 1) == Column(q.w0, 1) && Col(s, 2) == Column(q.w0, 2)
            && Col(s, 3) == Column(q.w0, 3) && Col(s, 4) == Column(q.w1, 0) && Col(s, 5) == Column(q.w1, 1)
            && Col(s, 6) == Column(q.w1, 2) && Col(s, 7) == Column(q.w1, 3) && Col(s, 8) == Column(q.w2, 0)
            && Col(s, 9) == Column(q.w2, 1) && Col(s, 10) == Column(q.w2, 2) && Col(s, 11) == Column(q.w2, 3)
            && Col(s, 12) == Column(q.w3, 0) && Col(s, 13) == Column(q.w3, 1) && Col(s, 14) == Column(q.w3, 2)
            && Col(s, 15) == Column(q.w3, 3)
  {
    hide Flat, Col, Column;
    var s := Flat(q);
    FlatWords(q);
    WordCols(s, 0);
    WordCols(s, 1);
    WordCols(s, 2);
    WordCols(s, 3);
    assert s[0..16] == s[..16] && s[48..64] == s[48..];
  }

  lemma MixShown(q: Quad)
    ensures Mixed(Flat(q)) == Flat(MixLayer(q))
  {
    hide Column, FromColumns, Flat, Mixed, Col;
    var s := Flat(q);
    forall k | 0 <= k < 16 ensures Col(Mixed(s), k) == Col(Flat(MixLayer(q)), k) {
      MixedCol(s, k);
      FlatCols(q);
      FlatCols(MixLayer(q));
      MixedColumns(q);
    }
    ColsDecide(Mixed(s), Flat(MixLayer(q)));
  }

  lemma MixedColumns(q: Quad)
    ensures var m := MixLayer(q);
            && Column(m.w0, 0) == Column(q.w0, 3) && Column(m.w0, 1) == Column(q.w2, 3)
            && Column(m.w0, 2) == Column(q.w1, 3) && Column(m.w0, 3) == Column(q.w3, 3)
            && Column(m.w1, 0) == Column(q.w2, 0) && Column(m.w1, 1) == Column(q.w0, 0)
            && Column(m.w1, 2) == Column(q.w3, 0) && Column(m.w1, 3) == Column(q.w1, 0)
            && Column(m.w2, 0) == Column(q.w2, 1) && Column(m.w2, 1) == Column(q.w0, 1)
            && Column(m.w2, 2) == Column(q.w3, 1) && Column(m.w2, 3) == Column(q.w1, 1)
            && Column(m.w3, 0) == Column(q.w0, 2) && Column(m.w3, 1) == Column(q.w2, 2)
            && Column(m.w3, 2) == Column(q.w1, 2) && Column(m.w3, 3) == Column(q.w3, 2)
  {
    hide Column, FromColumns;
    ColumnsBack(Column(q.w0, 3), Column(q.w2, 3), Column(q.w1, 3), Column(q.w3, 3));
    ColumnsBack(Column(q.w2, 0), Column(q.w0, 0), Column(q.w3, 0), Column(q.w1, 0));
    ColumnsBack(Column(q.w2, 1), Column(q.w0, 1), Column(q.w3, 1), Column(q.w1, 1));
    ColumnsBack(Column(q.w0, 2), Column(q.w2, 2), Column(q.w1, 2), Column(q.w3, 2));
  }

  lemma AesShown(c: Context, q: Quad, m: nat)
    requires c.Valid() && m + 1 < 10
    ensures AesRound(c, AesRound(c, Flat(q), m), m + 1) == Flat(AesLayer(c, q, 4 * m))
  {
    FlatWords(q);
    var t := Quad(c.aesenc(q.w0, c.rc[4 * m]), c.aesenc(q.w1, c.rc[4 * m + 1]),
                  c.aesenc(q.w2, c.rc[4 * m + 2]), c.aesenc(q.w3, c.rc[4 * m + 3]));
    assert AesRound(c, Flat(q), m) == Flat(t);
    FlatWords(t);
  }

  lemma FlatWords(q: Quad)
    ensures var s := Flat(q); s[..16] == q.w0 && s[16..32] == q.w1 && s[32..48] == q.w2 && s[48..] == q.w3
  {}

  lemma {:induction false} RoundsShown(c: Context, q: Quad, r: nat)
    requires c.Valid() && r <= 5
    ensures FirstRounds(c, Flat(q), r) == Flat(Rounds(c, q, r))
  {
    hide AesRound, AesLayer, Mixed, MixLayer, Flat;
    if r > 0 {
      RoundsShown(c, q, r - 1);
      AesShown(c, Rounds(c, q, r - 1), 2 * r - 2);
      MixShown(AesLayer(c, Rounds(c, q, r - 1), 8 * (r - 1)));
    }
  }

  /** The permutation is five rounds. */
  lemma PermutationShown(c: Context, s: State)
    requires c.Valid()
    ensures Perm(c, s) == FirstRounds(c, s, 5)
  {
    hide FirstRounds, Rounds;
    assert Flat(Words(s)) == s;
    RoundsShown(c, Words(s), 5);
  }

  // ---------------------------------------------------------------- no two states become one

  ghost predicate Injective(c: Context) {
    forall a, b, k :: c.aesenc(a, k) == c.aesenc(b, k) ==> a == b
  }

  /** Where column k goes. */
  const UNMIX: seq<nat> := [5, 9, 12, 0, 7, 11, 14, 2, 4, 8, 13, 1, 6, 10, 15, 3]

  lemma MixedInjective(s: State, t: State)
    requires Mixed(s) == Mixed(t)
    ensures s == t
  {
    hide Mixed, Col;
    forall k | 0 <= k < 16 ensures Col(s, k) == Col(t, k) {
      assert MIX[UNMIX[k]] == k;
      MixedCol(s, UNMIX[k]);
      MixedCol(t, UNMIX[k]);
    }
    ColsDecide(s, t);
  }

  lemma AesInjective(c: Context, s: State, t: State, m: nat)
    requires c.Valid() && m < 10 && Injective(c) && AesRound(c, s, m) == AesRound(c, t, m)
    ensures s == t
  {
    FlatWords(Quad(c.aesenc(s[..16], c.rc[4 * m]), c.aesenc(s[16..32], c.rc[4 * m + 1]),
                   c.aesenc(s[32..48], c.rc[4 * m + 2]), c.aesenc(s[48..], c.rc[4 * m + 3])));
    FlatWords(Quad(c.aesenc(t[..16], c.rc[4 * m]), c.aesenc(t[16..32], c.rc[4 * m + 1]),
                   c.aesenc(t[32..48], c.rc[4 * m + 2]), c.aesenc(t[48..], c.rc[4 * m + 3])));
    assert s == s[..16] + s[16..32] + s[32..48] + s[48..];
    assert t == t[..16] + t[16..32] + t[32..48] + t[48..];
  }

  lemma {:induction false} RoundsInjective(c: Context, s: State, t: State, r: nat)
    requires c.Valid() && Injective(c) && r <= 5 && FirstRounds(c, s, r) == FirstRounds(c, t, r)
    ensures s == t
  {
    hide Mixed, AesRound;
    if r > 0 {
      var u, v := FirstRounds(c, s, r - 1), FirstRounds(c, t, r - 1);
      MixedInjective(AesRound(c, AesRound(c, u, 2 * r - 2), 2 * r - 1), AesRound(c, AesRound(c, v, 2 * r - 2), 2 * r - 1));
      AesInjective(c, AesRound(c, u, 2 * r - 2), AesRound(c, v, 2 * r - 2), 2 * r - 1);
      AesInjective(c, u, v, 2 * r - 2);
      RoundsInjective(c, s, t, r - 1);
    }
  }

  /** If the AES round loses nothing, neither does the permutation. */
  lemma PermutationIsInjective(c: Context, s: State, t: State)
    requires c.Valid() && Injective(c) && Perm(c, s) == Perm(c, t)
    ensures s == t
  {
    hide Perm, FirstRounds;
    PermutationShown(c, s);
    PermutationShown(c, t);
    RoundsInjective(c, s, t, 5);
  }
}
