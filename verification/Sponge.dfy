/** The sponge construction over an arbitrary permutation, at the level of bytes: the construction of FIPS 202
    (section 4, with the padding of section 5.1 on byte strings as in appendix B.2), and a machine that takes
    and gives one byte at a time. The C routines are proved against the machine, and the machine against the
    construction. */
module Sponge {
  import opened Bytes

  /** `put(s, i, b)` is s with b XORed into byte i of it, `get(s, i)` is byte i of s. */
  datatype Sponge<!S(!new)> = Sponge(perm: S -> S, put: (S, nat, Byte) -> S, get: (S, nat) -> Byte, rate: nat)
  {
    ghost predicate Laws() {
      && 0 < rate
      && (forall s, i: nat | i < rate :: put(s, i, 0) == s)
      && (forall s, i: nat, a, b | i < rate :: put(put(s, i, a), i, b) == put(s, i, a ^ b))
      && (forall s, i: nat, b, j: nat | i < rate && j < rate ::
            get(put(s, i, b), j) == if i == j then get(s, j) ^ b else get(s, j))
    }

    // ------------------------------------------------------------ the construction

    /** The message followed by the domain bits p, the padding 10*1 closed by the top bit of a block. */
    function Pad(m: Bytes, p: Byte): Bytes
      requires 0 < rate
    {
      if |m| >= rate then m[..rate] + Pad(m[rate..], p)
      else LastBlock(m, p)
    }

    function LastBlock(m: Bytes, p: Byte): (t: Bytes)
      requires |m| < rate
      ensures |t| == rate
    {
      m + Padding(rate - |m|, p)
    }

    static function Padding(n: nat, p: Byte): (t: Bytes)
      requires 0 < n
      ensures |t| == n
    {
      if n == 1 then [p | 128] else [p] + Zeros(n - 2) + [128]
    }

    function XorInto(s: S, k: nat, m: Bytes): S
      decreases |m|
    {
      if m == [] then s else XorInto(put(s, k, m[0]), k + 1, m[1..])
    }

    /** XOR each block into the state and permute. */
    function Blocks(s: S, padded: Bytes): S
      requires 0 < rate
      decreases |padded|
    {
      if |padded| < rate then s else Blocks(perm(XorInto(s, 0, padded[..rate])), padded[rate..])
    }

    /** Byte i of the output read from the state after absorbing, permuting between blocks. */
    function Output(s: S, i: nat): Byte
      requires 0 < rate
      decreases i
    {
      if i < rate then get(s, i) else Output(perm(s), i - rate)
    }

    /** The first n output bytes for a message. */
    function Hash(zero: S, m: Bytes, p: Byte, n: nat): Bytes
      requires 0 < rate
    {
      var s := Blocks(zero, Pad(m, p));
      seq(n, i requires 0 <= i < n => Output(s, i))
    }

    /** Bytes k to k + n of the state. */
    function Window(s: S, k: nat, n: nat): (w: Bytes)
      ensures |w| == n && forall i :: 0 <= i < n ==> w[i] == get(s, k + i)
    {
      seq(n, i requires 0 <= i < n => get(s, k + i))
    }

    // ------------------------------------------------------------ one byte at a time

    /** Absorb with k bytes of the current block already taken. */
    function Absorb(s: S, k: nat, m: Bytes): (r: (S, nat))
      requires k < rate
      ensures r.1 < rate
      decreases |m|
    {
      if m == [] then (s, k)
      else if k + 1 == rate then Absorb(perm(put(s, k, m[0])), 0, m[1..])
      else Absorb(put(s, k, m[0]), k + 1, m[1..])
    }

    function Finish(s: S, k: nat, p: Byte): S
      requires k < rate
    {
      put(put(s, k, p), rate - 1, 128)
    }

    /** Squeeze n bytes with `left` bytes of the current block not yet given out. */
    function Squeeze(s: S, left: nat, n: nat): (r: (Bytes, S, nat))
      requires left < rate
      ensures |r.0| == n && r.2 < rate
      decreases n
    {
      if n == 0 then ([], s, left)
      else
        var t := if left == 0 then perm(s) else s;
        var l := if left == 0 then rate else left;
        var rest := Squeeze(t, l - 1, n - 1);
        ([get(t, rate - l)] + rest.0, rest.1, rest.2)
    }

    // ------------------------------------------------------------ chunking

    lemma {:induction false} XorIntoConcat(s: S, k: nat, a: Bytes, b: Bytes)
      ensures XorInto(s, k, a + b) == XorInto(XorInto(s, k, a), k + |a|, b)
      decreases |a|
    {
      if a == [] {
        assert a + b == b;
      } else {
        assert (a + b)[1..] == a[1..] + b;
        XorIntoConcat(put(s, k, a[0]), k + 1, a[1..], b);
      }
    }

    lemma {:induction false} AbsorbConcat(s: S, k: nat, a: Bytes, b: Bytes)
      requires k < rate
      ensures var mid := Absorb(s, k, a); Absorb(s, k, a + b) == Absorb(mid.0, mid.1, b)
      decreases |a|
    {
      if a == [] {
        assert a + b == b;
      } else {
        assert (a + b)[1..] == a[1..] + b;
        if k + 1 == rate {
          AbsorbConcat(perm(put(s, k, a[0])), 0, a[1..], b);
        } else {
          AbsorbConcat(put(s, k, a[0]), k + 1, a[1..], b);
        }
      }
    }

    lemma {:induction false} SqueezeConcat(s: S, left: nat, m: nat, n: nat)
      requires left < rate
      ensures var a := Squeeze(s, left, m); var b := Squeeze(a.1, a.2, n);
              Squeeze(s, left, m + n) == (a.0 + b.0, b.1, b.2)
      decreases m
    {
      if m == 0 {
        var b := Squeeze(s, left, n);
        assert [] + b.0 == b.0;
      } else {
        var t := if left == 0 then perm(s) else s;
        var l := if left == 0 then rate else left;
        SqueezeConcat(t, l - 1, m - 1, n);
        SqueezeConcatStep(s, left, t, l, m, n);
      }
    }

    lemma SqueezePrefix(s: S, left: nat, m: nat, n: nat)
      requires left < rate && m <= n
      ensures Squeeze(s, left, m).0 == Squeeze(s, left, n).0[..m]
    {
      SqueezeConcat(s, left, m, n - m);
    }

    lemma SqueezeConcatStep(s: S, left: nat, t: S, l: nat, m: nat, n: nat)
      requires left < rate && 0 < m && 0 < l <= rate
      requires t == (if left == 0 then perm(s) else s) && l == if left == 0 then rate else left
      requires var a := Squeeze(t, l - 1, m - 1); var b := Squeeze(a.1, a.2, n);
               Squeeze(t, l - 1, m + n - 1) == (a.0 + b.0, b.1, b.2)
      ensures var a := Squeeze(s, left, m); var b := Squeeze(a.1, a.2, n);
              Squeeze(s, left, m + n) == (a.0 + b.0, b.1, b.2)
    {
      SqueezeStep(s, left, t, l, m);
      SqueezeStep(s, left, t, l, m + n);
      hide Squeeze;
      var a := Squeeze(t, l - 1, m - 1);
      var b := Squeeze(a.1, a.2, n);
      assert [get(t, rate - l)] + (a.0 + b.0) == ([get(t, rate - l)] + a.0) + b.0;
    }

    lemma SqueezeStep(s: S, left: nat, t: S, l: nat, n: nat)
      requires left < rate && 0 < n && 0 < l <= rate
      requires t == (if left == 0 then perm(s) else s) && l == if left == 0 then rate else left
      ensures var rest := Squeeze(t, l - 1, n - 1);
              Squeeze(s, left, n) == ([get(t, rate - l)] + rest.0, rest.1, rest.2)
    {}

    /** Bytes that do not fill the block are XORed in. */
    lemma {:induction false} AbsorbWithin(s: S, k: nat, m: Bytes)
      requires k + |m| < rate
      ensures Absorb(s, k, m) == (XorInto(s, k, m), k + |m|)
      decreases |m|
    {
      if m != [] {
        AbsorbWithin(put(s, k, m[0]), k + 1, m[1..]);
      }
    }

    /** Bytes that fill the block exactly are XORed in and the state is permuted. */
    lemma {:induction false} AbsorbToEnd(s: S, k: nat, m: Bytes)
      requires k < rate && k + |m| == rate
      ensures Absorb(s, k, m) == (perm(XorInto(s, k, m)), 0)
      decreases |m|
    {
      if k + 1 == rate {
        assert m[1..] == [];
      } else {
        AbsorbToEnd(put(s, k, m[0]), k + 1, m[1..]);
      }
    }

    /** Bytes of the block at hand. */
    lemma {:induction false} SqueezeWithin(s: S, left: nat, n: nat)
      requires n <= left < rate
      ensures Squeeze(s, left, n) == (Window(s, rate - left, n), s, left - n)
      decreases n
    {
      if n != 0 {
        SqueezeWithin(s, left - 1, n - 1);
        assert [get(s, rate - left)] + Window(s, rate - left + 1, n - 1) == Window(s, rate - left, n);
      }
    }

    /** Bytes of a new block. */
    lemma SqueezeNext(s: S, n: nat)
      requires 0 < n <= rate
      ensures Squeeze(s, 0, n) == (Window(perm(s), 0, n), perm(s), rate - n)
    {
      SqueezeWithin(perm(s), rate - 1, n - 1);
      assert [get(perm(s), 0)] + Window(perm(s), 1, n - 1) == Window(perm(s), 0, n);
    }

    // ------------------------------------------------------------ the machine and the construction

    /** The absorbing loop of the one-shot routines, which leaves the last block without its permutation. */
    function OneShot(s: S, m: Bytes, p: Byte): S
      requires 0 < rate
      decreases |m|
    {
      if |m| >= rate then OneShot(perm(XorInto(s, 0, m[..rate])), m[rate..], p) else XorInto(s, 0, LastBlock(m, p))
    }

    lemma {:induction false} OneShotIsConstruction(s: S, m: Bytes, p: Byte)
      requires 0 < rate
      ensures perm(OneShot(s, m, p)) == Blocks(s, Pad(m, p))
      decreases |m|
    {
      if |m| >= rate {
        var rest := Pad(m[rate..], p);
        assert (m[..rate] + rest)[..rate] == m[..rate] && (m[..rate] + rest)[rate..] == rest;
        OneShotIsConstruction(perm(XorInto(s, 0, m[..rate])), m[rate..], p);
      } else {
        var last := LastBlock(m, p);
        assert last[..rate] == last && last[rate..] == [];
      }
    }

    lemma {:induction false} XorIntoZeros(s: S, k: nat, n: nat)
      requires Laws() && k + n <= rate
      ensures XorInto(s, k, Zeros(n)) == s
      decreases n
    {
      if n != 0 {
        assert Zeros(n)[1..] == Zeros(n - 1);
        XorIntoZeros(s, k + 1, n - 1);
      }
    }

    lemma XorIntoOne(s: S, k: nat, b: Byte)
      ensures XorInto(s, k, [b]) == put(s, k, b)
    {
      assert [b][1..] == [];
    }

    /** The last block, XORed in as a whole. */
    lemma FullLastBlock(s: S, m: Bytes, p: Byte)
      requires |m| + 1 == rate
      ensures XorInto(s, 0, LastBlock(m, p)) == put(XorInto(s, 0, m), |m|, p | 128)
    {
      hide XorInto;
      XorIntoConcat(s, 0, m, [p | 128]);
      XorIntoOne(XorInto(s, 0, m), |m|, p | 128);
    }

    lemma ShortLastBlock(s: S, m: Bytes, p: Byte)
      requires Laws() && |m| + 1 < rate
      ensures XorInto(s, 0, LastBlock(m, p)) == Finish(XorInto(s, 0, m), |m|, p)
    {
      hide XorInto, Laws, Padding, Finish;
      XorIntoConcat(s, 0, m, Padding(rate - |m|, p));
      PaddingXored(XorInto(s, 0, m), |m|, p);
    }

    lemma PaddingXored(s: S, k: nat, p: Byte)
      requires Laws() && k + 1 < rate
      ensures XorInto(s, k, Padding(rate - k, p)) == Finish(s, k, p)
    {
      hide XorInto, Laws;
      var z := Zeros(rate - k - 2);
      XorIntoConcat(s, k, [p] + z, [128]);
      XorIntoConcat(s, k, [p], z);
      XorIntoOne(s, k, p);
      XorIntoZeros(put(s, k, p), k + 1, |z|);
      XorIntoOne(put(s, k, p), rate - 1, 128);
    }

    /** Two bytes put in the same place. */
    lemma PutTwice(s: S, i: nat, a: Byte, b: Byte)
      requires Laws() && i < rate
      ensures put(put(s, i, a), i, b) == put(s, i, a ^ b)
    {}

    /** The closing bit meets the domain byte. */
    lemma FinishFull(s: S, p: Byte)
      requires Laws()
      ensures put(s, rate - 1, p | 128) == Finish(s, rate - 1, p) <==> p < 128
    {
      assert 0 < rate;
      hide Laws;
      PutTwice(s, rate - 1, p, 128);
      OrAndXor(p);
      if p >= 128 {
        PutsDiffer(s, rate - 1, p | 128, p ^ 128);
      }
    }

    lemma PutsDiffer(s: S, i: nat, a: Byte, b: Byte)
      requires Laws() && i < rate && a != b
      ensures put(s, i, a) != put(s, i, b)
    {
      assert get(put(s, i, a), i) == get(s, i) ^ a && get(put(s, i, b), i) == get(s, i) ^ b;
      XorInjective(get(s, i), a, b);
    }

    lemma {:induction false} AbsorbPosition(s: S, k: nat, m: Bytes)
      requires k < rate
      ensures Absorb(s, k, m).1 == (k + |m|) % rate
      decreases |m|
    {
      if m == [] {
        ModSmall(k, rate);
      } else if k + 1 == rate {
        AbsorbPosition(perm(put(s, k, m[0])), 0, m[1..]);
        ModStep(k + |m|, rate);
      } else {
        AbsorbPosition(put(s, k, m[0]), k + 1, m[1..]);
      }
    }

    /** Absorbing in one go and absorbing incrementally leave the same state, except when the domain byte and
        the closing bit both fall on the last byte of the block and overlap there. */
    lemma {:induction false} OneShotIsIncremental(s: S, m: Bytes, p: Byte)
      requires Laws()
      ensures var a := Absorb(s, 0, m);
              OneShot(s, m, p) == Finish(a.0, a.1, p) <==> (p < 128 || |m| % rate != rate - 1)
      decreases |m|
    {
      hide XorInto, Absorb, LastBlock, Finish;
      if |m| >= rate {
        var first, rest := m[..rate], m[rate..];
        assert m == first + rest;
        AbsorbConcat(s, 0, first, rest);
        AbsorbToEnd(s, 0, first);
        OneShotIsIncremental(perm(XorInto(s, 0, first)), rest, p);
        ModStep(|m|, rate);
      } else {
        AbsorbWithin(s, 0, m);
        ModSmall(|m|, rate);
        if |m| + 1 == rate {
          FullLastBlock(s, m, p);
          FinishFull(XorInto(s, 0, m), p);
        } else {
          ShortLastBlock(s, m, p);
        }
      }
    }

    lemma {:induction false} SqueezeFirst(s: S, left: nat, n: nat)
      requires left < rate && 0 < n
      ensures var t := if left == 0 then perm(s) else s; var l := if left == 0 then rate else left;
              Squeeze(s, left, n).0 == [get(t, rate - l)] + Squeeze(t, l - 1, n - 1).0
    {}

    /** Every squeezed byte is the output byte of its position. */
    lemma {:induction false} SqueezedByte(s: S, left: nat, n: nat, i: nat)
      requires left < rate && i < n
      ensures Squeeze(s, left, n).0[i] ==
              if i < left then get(s, rate - left + i) else Output(perm(s), i - left)
      decreases n
    {
      hide Squeeze;
      SqueezeFirst(s, left, n);
      if i == 0 {
      } else if left == 0 {
        SqueezedByte(perm(s), rate - 1, n - 1, i - 1);
      } else {
        SqueezedByte(s, left - 1, n - 1, i - 1);
      }
    }

    /** The last block, byte by byte. */
    lemma LastBlockIs(m: Bytes, p: Byte, t: Bytes)
      requires |m| < rate == |t| && t[..|m|] == m
      requires if |m| + 1 == rate then t[|m|] == p | 128
               else t[|m|] == p && t[rate - 1] == 128 && forall j :: |m| < j < rate - 1 ==> t[j] == 0
      ensures t == LastBlock(m, p)
    {
      assert t == t[..|m|] + t[|m|..];
      assert t[|m|..] == Padding(rate - |m|, p);
    }

    function Chunked(s: S, k: nat, chunks: seq<Bytes>): (r: (S, nat))
      requires k < rate
      ensures r.1 < rate
      decreases |chunks|
    {
      if chunks == [] then (s, k)
      else
        var mid := Absorb(s, k, chunks[0]);
        Chunked(mid.0, mid.1, chunks[1..])
    }

    /** However the message was cut, incremental absorbing depends on the concatenation only. */
    lemma {:induction false} ChunkingIsIrrelevant(s: S, k: nat, chunks: seq<Bytes>)
      requires k < rate
      ensures Chunked(s, k, chunks) == Absorb(s, k, Join(chunks))
      decreases |chunks|
    {
      if chunks != [] {
        var mid := Absorb(s, k, chunks[0]);
        ChunkingIsIrrelevant(mid.0, mid.1, chunks[1..]);
        AbsorbConcat(s, k, chunks[0], Join(chunks[1..]));
      }
    }

    /** The pieces given out by a sequence of squeezing calls of the given lengths. */
    function Pieces(s: S, left: nat, lengths: seq<nat>): seq<Bytes>
      requires left < rate
      decreases |lengths|
    {
      if lengths == [] then []
      else
        var r := Squeeze(s, left, lengths[0]);
        [r.0] + Pieces(r.1, r.2, lengths[1..])
    }

    lemma {:induction false} PiecesJoin(s: S, left: nat, lengths: seq<nat>)
      requires left < rate
      ensures Join(Pieces(s, left, lengths)) == Squeeze(s, left, Sum(lengths)).0
      decreases |lengths|
    {
      if lengths != [] {
        var r := Squeeze(s, left, lengths[0]);
        var rest := Pieces(r.1, r.2, lengths[1..]);
        PiecesJoin(r.1, r.2, lengths[1..]);
        SqueezeConcat(s, left, lengths[0], Sum(lengths[1..]));
        assert ([r.0] + rest)[1..] == rest;
      }
    }

    /** The incremental interface computes the sponge construction: absorb the message in any chunks, finish, and
        squeeze in any pieces; the pieces make up the output for the whole message. */
    lemma IncrementalIsConstruction(zero: S, chunks: seq<Bytes>, p: Byte, lengths: seq<nat>)
      requires Laws() && (p < 128 || |Join(chunks)| % rate != rate - 1)
      ensures var a := Chunked(zero, 0, chunks);
              Join(Pieces(Finish(a.0, a.1, p), 0, lengths)) == Hash(zero, Join(chunks), p, Sum(lengths))
    {
      var m := Join(chunks);
      var a := Chunked(zero, 0, chunks);
      ChunkingIsIrrelevant(zero, 0, chunks);
      OneShotIsIncremental(zero, m, p);
      OneShotIsConstruction(zero, m, p);
      SqueezedIsHash(zero, m, p, Sum(lengths));
      PiecesJoin(Finish(a.0, a.1, p), 0, lengths);
    }

    lemma SqueezedIsHash(zero: S, m: Bytes, p: Byte, n: nat)
      requires 0 < rate
      ensures Squeeze(OneShot(zero, m, p), 0, n).0 == Hash(zero, m, p, n)
    {
      var s := OneShot(zero, m, p);
      OneShotIsConstruction(zero, m, p);
      forall i | 0 <= i < n ensures Squeeze(s, 0, n).0[i] == Hash(zero, m, p, n)[i] {
        SqueezedByte(s, 0, n, i);
      }
    }
  }

  lemma XorInjective(u: Byte, v: Byte, w: Byte)
    ensures u ^ v == u ^ w ==> v == w
  {}

  lemma OrAndXor(p: Byte)
    ensures p | 128 == p ^ 128 <==> p < 128
  {}

  lemma ModSmall(n: nat, d: nat)
    requires n < d
    ensures n % d == n
  {}

  lemma ModStep(n: nat, d: nat)
    requires 0 < d <= n
    ensures n % d == (n - d) % d
  {
    var q, r := (n - d) / d, (n - d) % d;
    assert n == d * (q + 1) + r;
    DivisionIsUnique(n, d, q + 1, r);
  }

  lemma DivisionIsUnique(n: nat, d: nat, q: nat, r: nat)
    requires 0 < d && n == d * q + r && r < d
    ensures n % d == r
  {
    var e := n / d - q;
    assert d * e == r - n % d;
    assert e >= 1 ==> d * e >= d;
    assert e <= -1 ==> d * e + d <= 0;
  }

  function Join(chunks: seq<Bytes>): Bytes {
    if chunks == [] then [] else chunks[0] + Join(chunks[1..])
  }

  function Sum(lengths: seq<nat>): nat {
    if lengths == [] then 0 else lengths[0] + Sum(lengths[1..])
  }
}
