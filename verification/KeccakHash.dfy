/** sphincsplus/ref/fips202.c: absorbing, squeezing and the hash functions built on them. Input buffers are byte
    strings, the state and output buffers are arrays written in place, and output pointers are offsets. */
module KeccakHash {
  import opened Bytes
  import opened Keccak
  import opened KeccakState
  import Sponge

  function ZeroState(): Lanes { seq(25, _ => Lane(0)) }

  /** A rate the routines are used with: a whole number of lanes of the state. */
  predicate Rate(r: nat) { 0 < r <= 200 && r % 8 == 0 }

  // ---------------------------------------------------------------- one-shot

  /** Bytes 8i to 8i + 8 of a block follow those before. */
  lemma NextGroup(r: nat, a: Lanes, block: Bytes, i: nat)
    requires 8 * i + 8 <= |block| <= 200
    ensures var before := OfRate(r).XorInto(a, 0, block[..8 * i]);
            OfRate(r).XorInto(a, 0, block[..8 * i + 8]) == before[i := before[i].Xor(Loaded(block[8 * i..8 * i + 8]))]
  {
    hide Put, Get, Loaded, Lane.Xor;
    var head, group := block[..8 * i], block[8 * i..8 * i + 8];
    assert block[..8 * i + 8] == head + group;
    OfRate(r).XorIntoConcat(a, 0, head, group);
    GroupXored(r, OfRate(r).XorInto(a, 0, head), i, group);
  }

  /** XOR a block into the state, lane by lane. */
  method XorBlock(s: array<Lane>, r: nat, block: Bytes)
    requires s.Length == 25 && Rate(r) && |block| == r
    modifies s
    ensures s[..] == OfRate(r).XorInto(old(s[..]), 0, block)
  {
    hide Put, Get, Lane.Xor, Loaded;
    ghost var start: Lanes := s[..];
    for i := 0 to r / 8
      invariant s[..] == OfRate(r).XorInto(start, 0, block[..8 * i])
    {
      NextGroup(r, start, block, i);
      var w := Load64(block[8 * i..8 * i + 8]);
      s[i] := s[i].Xor(w);
    }
    assert block[..8 * (r / 8)] == block;
  }

  /** The last block: the rest of the message, the domain byte, and the top bit of the last byte. */
  method MakeLastBlock(r: nat, m: Bytes, p: Byte) returns (t: array<Byte>)
    requires Rate(r) && |m| < r
    ensures fresh(t) && t.Length == 200
    ensures t[..r] == OfRate(r).LastBlock(m, p)
  {
    hide F1600, Put, Get, Sponge.Sponge.LastBlock;
    t := new Byte[200];
    for i := 0 to r
      invariant forall j :: 0 <= j < i ==> t[j] == 0
    {
      t[i] := 0;
    }
    for i := 0 to |m|
      invariant t[..i] == m[..i]
      invariant forall j :: i <= j < r ==> t[j] == 0
    {
      t[i] := m[i];
    }
    assert t[..|m|] == m;
    t[|m|] := p;
    assert t[..|m|] == m;
    NothingOr(128);
    t[r - 1] := t[r - 1] | 128;
    assert t[..r][..|m|] == t[..|m|] == m;
    OfRate(r).LastBlockIs(m, p, t[..r]);
  }

  /** keccak_absorb */
  method Absorb(s: array<Lane>, r: nat, m: Bytes, p: Byte)
    requires s.Length == 25 && Rate(r)
    modifies s
    ensures s[..] == OfRate(r).OneShot(ZeroState(), m, p)
  {
    for i := 0 to 25
      invariant forall j :: 0 <= j < i ==> s[j] == Lane(0)
    {
      s[i] := Lane(0);
    }
    assert s[..] == ZeroState();
    var rest := m;
    while |rest| >= r
      invariant OfRate(r).OneShot(s[..], rest, p) == OfRate(r).OneShot(ZeroState(), m, p)
    {
      XorBlock(s, r, rest[..r]);
      StatePermute(s);
      rest := rest[r..];
    }
    var t := MakeLastBlock(r, rest, p);
    XorBlock(s, r, t[..r]);
  }

  // ---------------------------------------------------------------- squeezing

  /** store64: the eight bytes of lane l, at offset `at`. */
  method Store64(h: array<Byte>, at: nat, ghost a: Lanes, l: nat, u: Lane, r: nat)
    requires at + 8 <= h.Length && l < 25 && u == a[l]
    modifies h
    ensures h[..] == Overwrite(old(h[..]), at, OfRate(r).Window(a, 8 * l, 8))
  {
    hide LaneGet, Overwrite;
    OverwriteNothing(h[..], at);
    for i := 0 to 8
      invariant h[..] == Overwrite(old(h[..]), at, OfRate(r).Window(a, 8 * l, i))
    {
      Slot(l, i);
      WindowStep(r, a, 8 * l, i);
      OverwriteStep(old(h[..]), at, OfRate(r).Window(a, 8 * l, i), LaneGet(u, i));
      h[at + i] := LaneGet(u, i);
    }
  }

  lemma WindowStep(r: nat, a: Lanes, k: nat, n: nat)
    ensures OfRate(r).Window(a, k, n + 1) == OfRate(r).Window(a, k, n) + [Get(a, k + n)]
  {
    hide Get;
  }

  lemma WindowJoin(r: nat, a: Lanes, k: nat, m: nat, n: nat)
    ensures OfRate(r).Window(a, k, m) + OfRate(r).Window(a, k + m, n) == OfRate(r).Window(a, k, m + n)
  {
    hide Get;
  }

  /** The first r bytes of the state, at offset `at`. */
  method StoreBlock(h: array<Byte>, at: nat, s: array<Lane>, r: nat)
    requires s.Length == 25 && (h as object) != s && Rate(r) && at + r <= h.Length
    modifies h
    ensures h[..] == Overwrite(old(h[..]), at, OfRate(r).Window(s[..], 0, r))
  {
    hide Get, Overwrite;
    ghost var a: Lanes := s[..];
    OverwriteNothing(h[..], at);
    for i := 0 to r / 8
      invariant s[..] == a
      invariant h[..] == Overwrite(old(h[..]), at, OfRate(r).Window(a, 0, 8 * i))
    {
      WindowJoin(r, a, 0, 8 * i, 8);
      OverwriteJoin(old(h[..]), at, OfRate(r).Window(a, 0, 8 * i), OfRate(r).Window(a, 8 * i, 8));
      Store64(h, at + 8 * i, a, i, s[i], r);
    }
  }

  /** keccak_squeezeblocks */
  method SqueezeBlocks(h: array<Byte>, start: nat, blocks: nat, s: array<Lane>, r: nat)
    requires s.Length == 25 && (h as object) != s && Rate(r) && start + blocks * r <= h.Length
    modifies h, s
    ensures var q := OfRate(r).Squeeze(old(s[..]), 0, blocks * r);
            q.2 == 0 && s[..] == q.1 && h[..] == Overwrite(old(h[..]), start, q.0)
  {
    hide Get, Put, Overwrite, F1600, Sponge.Sponge.Squeeze;
    ghost var was: Lanes := s[..];
    ghost var out := h[..];
    var left: nat, at: nat := blocks, start;
    OverwriteNothing(out, start);
    SqueezeNone(r, was);
    while left > 0
      invariant start <= at && at - start + left * r == blocks * r
      invariant Squeezed(r, was, out, start, at, s[..], h[..])
    {
      ghost var a: Lanes, b := s[..], h[..];
      LeftFits(left, r);
      StatePermute(s);
      ghost var t: Lanes := s[..];
      StoreBlock(h, at, s, r);
      assert s[..] == t;
      SqueezedMore(r, was, out, start, at, a, b);
      at := at + r;
      left := left - 1;
    }
    assert at - start == blocks * r;
  }

  /** The bytes from `start` to `at` of the output have been squeezed from the state `was`, in whole blocks. */
  ghost predicate Squeezed(r: nat, was: Lanes, out: Bytes, start: nat, at: nat, a: Lanes, h: Bytes) {
    && 0 < r && start <= at <= |out|
    && var q := OfRate(r).Squeeze(was, 0, at - start);
    q.2 == 0 && a == q.1 && h == Overwrite(out, start, q.0)
  }

  lemma SqueezedMore(r: nat, was: Lanes, out: Bytes, start: nat, at: nat, a: Lanes, h: Bytes)
    requires Squeezed(r, was, out, start, at, a, h) && at + r <= |out|
    ensures Squeezed(r, was, out, start, at + r, F1600(a), Overwrite(h, at, OfRate(r).Window(F1600(a), 0, r)))
  {
    hide Get, Put, Overwrite, F1600, Sponge.Sponge.Squeeze;
    var q := OfRate(r).Squeeze(was, 0, at - start);
    OfRate(r).SqueezeNext(a, r);
    OfRate(r).SqueezeConcat(was, 0, at - start, r);
    OverwriteJoin(out, start, q.0, OfRate(r).Window(F1600(a), 0, r));
  }

  lemma LeftFits(left: nat, r: nat)
    requires left > 0
    ensures left * r >= r
  {}

  lemma SqueezeNone(r: nat, a: Lanes)
    requires 0 < r
    ensures OfRate(r).Squeeze(a, 0, 0) == ([], a, 0)
  {}

  /** The hash of a message, squeezed in one go. */
  lemma HashSqueezed(r: nat, input: Bytes, p: Byte, n: nat)
    requires Rate(r)
    ensures OfRate(r).Squeeze(OfRate(r).OneShot(ZeroState(), input, p), 0, n).0 == OfRate(r).Hash(ZeroState(), input, p, n)
  {
    OfRate(r).SqueezedIsHash(ZeroState(), input, p, n);
  }

  lemma SqueezedThenPart(r: nat, a: Lanes, full: nat, left: nat)
    requires Rate(r) && left <= r && OfRate(r).Squeeze(a, 0, full).2 == 0
    ensures var q := OfRate(r).Squeeze(a, 0, full);
            OfRate(r).Squeeze(a, 0, full + left).0 == q.0 + OfRate(r).Squeeze(q.1, 0, r).0[..left]
  {
    hide F1600, Put, Get, Sponge.Sponge.Squeeze;
    var q := OfRate(r).Squeeze(a, 0, full);
    OfRate(r).SqueezeConcat(a, 0, full, left);
    OfRate(r).SqueezePrefix(q.1, 0, left, r);
  }

  method WholeBlocks(n: nat, r: nat) returns (blocks: nat, left: nat)
    requires 0 < r
    ensures n == blocks * r + left && left < r
  {
    blocks := n / r;
    left := n - blocks * r;
  }

  /** Squeeze one block, and write its first n bytes at offset `at`. */
  method PartBlock(output: array<Byte>, at: nat, n: nat, s: array<Lane>, r: nat)
    requires s.Length == 25 && (output as object) != s && Rate(r) && n <= r && at + n <= output.Length
    modifies output, s
    ensures output[..] == Overwrite(old(output[..]), at, OfRate(r).Squeeze(old(s[..]), 0, r).0[..n])
  {
    hide F1600, Put, Get, Overwrite, Sponge.Sponge.Squeeze;
    var t := new Byte[r];
    ghost var a: Lanes, t0 := s[..], t[..];
    SqueezeBlocks(t, 0, 1, s, r);
    ghost var l := OfRate(r).Squeeze(a, 0, r).0;
    OverwriteAll(t0, l);
    CopyPart(output, at, t, n);
  }

  /** Fill the output: whole blocks, and a part of one more. */
  method FillOutput(output: array<Byte>, blocks: nat, left: nat, s: array<Lane>, r: nat)
    requires s.Length == 25 && (output as object) != s && Rate(r) && left < r && output.Length == blocks * r + left
    modifies output, s
    ensures output[..] == OfRate(r).Squeeze(old(s[..]), 0, output.Length).0
  {
    hide F1600, Put, Get, Overwrite, Sponge.Sponge.Squeeze, Rate;
    ghost var full := blocks * r;
    ghost var a: Lanes, was := s[..], output[..];
    SqueezeBlocks(output, 0, blocks, s, r);
    ghost var q := OfRate(r).Squeeze(a, 0, full);
    if left > 0 {
      PartBlock(output, blocks * r, left, s, r);
      ghost var l := OfRate(r).Squeeze(q.1, 0, r).0[..left];
      OverwriteJoin(was, 0, q.0, l);
      SqueezedThenPart(r, a, full, left);
      OverwriteAll(was, q.0 + l);
    } else {
      OverwriteAll(was, q.0);
    }
  }

  /** The extendable-output functions in one go: shake128 and shake256. */
  method Extendable(output: array<Byte>, input: Bytes, r: nat, p: Byte)
    requires Rate(r)
    modifies output
    ensures output[..] == OfRate(r).Hash(ZeroState(), input, p, output.Length)
  {
    hide F1600, Put, Get, Sponge.Sponge.Squeeze, Sponge.Sponge.Hash, Sponge.Sponge.OneShot;
    var blocks, left := WholeBlocks(output.Length, r);
    hide Rate;
    var s := new Lane[25];
    Absorb(s, r, input, p);
    HashSqueezed(r, input, p, output.Length);
    FillOutput(output, blocks, left, s, r);
  }

  /** The fixed-length functions in one go: the first bytes of the first block (sha3_256, sha3_512). */
  method Digest(output: array<Byte>, input: Bytes, r: nat, p: Byte)
    requires Rate(r) && output.Length <= r
    modifies output
    ensures output[..] == OfRate(r).Hash(ZeroState(), input, p, output.Length)
  {
    hide F1600, Put, Get, Sponge.Sponge.Squeeze, Sponge.Sponge.Hash, Sponge.Sponge.OneShot;
    var s := new Lane[25];
    Absorb(s, r, input, p);
    HashSqueezed(r, input, p, output.Length);
    FirstBytes(output, s, r);
  }

  /** Squeeze one block and give out its first bytes. */
  method FirstBytes(output: array<Byte>, s: array<Lane>, r: nat)
    requires s.Length == 25 && (output as object) != s && Rate(r) && output.Length <= r
    modifies output, s
    ensures output[..] == OfRate(r).Squeeze(old(s[..]), 0, output.Length).0
  {
    hide F1600, Put, Get, Overwrite, Sponge.Sponge.Squeeze;
    ghost var a: Lanes, was := s[..], output[..];
    PartBlock(output, 0, output.Length, s, r);
    OfRate(r).SqueezePrefix(a, 0, output.Length, r);
    OverwriteAll(was, OfRate(r).Squeeze(a, 0, r).0[..output.Length]);
  }

  // ---------------------------------------------------------------- incremental

  /** The incremental state: 25 lanes, and the number of bytes of the current block that were absorbed or are
      still to be given out. */
  class Incremental {
    const lanes: array<Lane>
    var count: nat

    ghost predicate Valid()
      reads this
    {
      lanes.Length == 25
    }

    ghost function State(): Lanes
      requires Valid()
      reads this, lanes
    {
      lanes[..]
    }

    /** keccak_inc_init */
    constructor ()
      ensures Valid() && fresh(lanes)
      ensures State() == ZeroState() && count == 0
    {
      lanes := new Lane[25](_ => Lane(0));
      count := 0;
      new;
      assert lanes[..] == ZeroState();
    }

    /** XOR the first n bytes of m into the state from byte `count` on. */
    method XorBytes(m: Bytes, n: nat, r: nat)
      requires Valid() && n <= |m| && count + n <= r <= 200
      modifies lanes
      ensures State() == OfRate(r).XorInto(old(State()), count, m[..n])
    {
      hide LanePut, F1600, Get;
      ghost var start := State();
      for i := 0 to n
        invariant State() == OfRate(r).XorInto(start, count, m[..i])
      {
        XorNext(r, start, count, m, i);
        var l := (count + i) / 8;
        lanes[l] := LanePut(lanes[l], (count + i) % 8, m[i]);
      }
    }

    /** keccak_inc_absorb */
    method Absorb(r: nat, m: Bytes)
      requires Valid() && Rate(r) && count < r
      modifies this, lanes
      ensures Valid()
      ensures var a := OfRate(r).Absorb(old(State()), old(count), m); State() == a.0 && count == a.1
    {
      hide F1600, Put, Get, Sponge.Sponge.XorInto, Sponge.Sponge.Absorb;
      ghost var start, k := State(), count;
      ghost var goal := OfRate(r).Absorb(start, k, m);
      var rest := m;
      while |rest| + count >= r
        invariant count < r && OfRate(r).Absorb(State(), count, rest) == goal
      {
        var n := r - count;
        AbsorbBlock(r, State(), count, rest);
        XorBytes(rest, n, r);
        rest := rest[n..];
        count := 0;
        StatePermute(lanes);
      }
      OfRate(r).AbsorbWithin(State(), count, rest);
      XorBytes(rest, |rest|, r);
      assert rest[..|rest|] == rest;
      count := count + |rest|;
    }

    /** keccak_inc_finalize */
    method Finalize(r: nat, p: Byte)
      requires Valid() && Rate(r) && count < r
      modifies this, lanes
      ensures Valid() && count == 0
      ensures State() == OfRate(r).Finish(old(State()), old(count), p)
    {
      hide LanePut, F1600, Get;
      lanes[count / 8] := LanePut(lanes[count / 8], count % 8, p);
      assert State() == Put(old(State()), count, p);
      lanes[(r - 1) / 8] := LanePut(lanes[(r - 1) / 8], (r - 1) % 8, 128);
      count := 0;
    }

    /** Bytes from to from + n of the state, at offset `at`. */
    method GiveOut(h: array<Byte>, at: nat, from: nat, n: nat, r: nat)
      requires Valid() && (h as object) != lanes && from + n <= 200 && at + n <= h.Length
      modifies h
      ensures h[..] == Overwrite(old(h[..]), at, OfRate(r).Window(State(), from, n))
    {
      hide LaneGet, Overwrite;
      ghost var a := State();
      OverwriteNothing(h[..], at);
      for i := 0 to n
        invariant State() == a
        invariant h[..] == Overwrite(old(h[..]), at, OfRate(r).Window(a, from, i))
      {
        WindowStep(r, a, from, i);
        OverwriteStep(old(h[..]), at, OfRate(r).Window(a, from, i), Get(a, from + i));
        h[at + i] := LaneGet(lanes[(from + i) / 8], (from + i) % 8);
      }
    }

    /** keccak_inc_squeeze */
    method Squeeze(h: array<Byte>, r: nat)
      requires Valid() && (h as object) != lanes && Rate(r) && count < r
      modifies h, this, lanes
      ensures Valid()
      ensures OfRate(r).Squeeze(old(State()), old(count), h.Length) == (h[..], State(), count)
    {
      hide F1600, Put, Get, Overwrite, Sponge.Sponge.Squeeze;
      ghost var start, k, was := State(), count, h[..];
      var at := if h.Length < count then h.Length else count;
      GiveOut(h, 0, r - count, at, r);
      OfRate(r).SqueezeWithin(start, k, at);
      count := count - at;
      while at < h.Length
        invariant at <= h.Length && (at < h.Length ==> count == 0) && count < r
        invariant GivenOut(r, start, k, was, at, State(), count, h[..])
      {
        ghost var a, b := State(), h[..];
        StatePermute(lanes);
        var n := if h.Length - at < r then h.Length - at else r;
        ghost var t := State();
        GiveOut(h, at, 0, n, r);
        assert State() == t;
        GivenOutMore(r, start, k, was, at, a, b, n);
        at := at + n;
        count := r - n;
      }
      OverwriteAll(was, OfRate(r).Squeeze(start, k, h.Length).0);
    }

    /** sha3_256_inc_finalize and sha3_512_inc_finalize */
    method FinalizeDigest(output: array<Byte>, r: nat, p: Byte)
      requires Valid() && (output as object) != lanes && Rate(r) && count < r && output.Length <= r
      modifies output, this, lanes
      ensures output[..] ==
              OfRate(r).Squeeze(OfRate(r).Finish(old(State()), old(count), p), 0, output.Length).0
    {
      hide F1600, Put, Get, Sponge.Sponge.Squeeze;
      Finalize(r, p);
      FirstBytes(output, lanes, r);
    }
  }

  lemma XorNext(r: nat, a: Lanes, k: nat, m: Bytes, i: nat)
    requires i < |m|
    ensures OfRate(r).XorInto(a, k, m[..i + 1]) == Put(OfRate(r).XorInto(a, k, m[..i]), k + i, m[i])
  {
    hide Put, Get, F1600;
    assert m[..i + 1] == m[..i] + [m[i]];
    OfRate(r).XorIntoConcat(a, k, m[..i], [m[i]]);
    OfRate(r).XorIntoOne(OfRate(r).XorInto(a, k, m[..i]), k + i, m[i]);
  }

  /** Completing a block. */
  lemma AbsorbBlock(r: nat, a: Lanes, k: nat, m: Bytes)
    requires k < r && |m| + k >= r
    ensures OfRate(r).Absorb(a, k, m) == OfRate(r).Absorb(F1600(OfRate(r).XorInto(a, k, m[..r - k])), 0, m[r - k..])
  {
    hide Put, Get, F1600, Sponge.Sponge.Absorb, Sponge.Sponge.XorInto;
    var n := r - k;
    assert m == m[..n] + m[n..];
    OfRate(r).AbsorbConcat(a, k, m[..n], m[n..]);
    OfRate(r).AbsorbToEnd(a, k, m[..n]);
  }

  /** The first `at` bytes of the output have been squeezed from the state (start, k). */
  ghost predicate GivenOut(r: nat, start: Lanes, k: nat, was: Bytes, at: nat, a: Lanes, left: nat, h: Bytes) {
    && k < r && at <= |was|
    && var q := OfRate(r).Squeeze(start, k, at);
    q.1 == a && q.2 == left && h == Overwrite(was, 0, q.0)
  }

  lemma GivenOutMore(r: nat, start: Lanes, k: nat, was: Bytes, at: nat, a: Lanes, h: Bytes, n: nat)
    requires GivenOut(r, start, k, was, at, a, 0, h) && at + n <= |was| && 0 < n <= r
    ensures GivenOut(r, start, k, was, at + n, F1600(a), r - n, Overwrite(h, at, OfRate(r).Window(F1600(a), 0, n)))
  {
    hide Get, Put, Overwrite, F1600, Sponge.Sponge.Squeeze;
    var q := OfRate(r).Squeeze(start, k, at);
    OfRate(r).SqueezeNext(a, n);
    OfRate(r).SqueezeConcat(start, k, at, n);
    OverwriteJoin(was, 0, q.0, OfRate(r).Window(F1600(a), 0, n));
  }

  // ---------------------------------------------------------------- the two forms agree

  /** Absorbing any chunks and finalizing leaves the state that absorbing the concatenation in one go leaves, unless
      the domain byte has its top bit set and falls on the last byte of a block. */
  lemma AbsorbFormsAgreeIff(r: nat, chunks: seq<Bytes>, p: Byte)
    requires Rate(r)
    ensures var a := OfRate(r).Chunked(ZeroState(), 0, chunks); var m := Sponge.Join(chunks);
            OfRate(r).OneShot(ZeroState(), m, p) == OfRate(r).Finish(a.0, a.1, p) <==> (p < 128 || |m| % r != r - 1)
  {
    OfRateLaws(r);
    OfRate(r).ChunkingIsIrrelevant(ZeroState(), 0, chunks);
    OfRate(r).OneShotIsIncremental(ZeroState(), Sponge.Join(chunks), p);
  }

  /** The incremental functions, fed and read in any pieces, give the hash of the concatenation. */
  lemma IncrementalIsHash(r: nat, chunks: seq<Bytes>, p: Byte, lengths: seq<nat>)
    requires Rate(r) && p < 128
    ensures var a := OfRate(r).Chunked(ZeroState(), 0, chunks);
            Sponge.Join(OfRate(r).Pieces(OfRate(r).Finish(a.0, a.1, p), 0, lengths)) ==
            OfRate(r).Hash(ZeroState(), Sponge.Join(chunks), p, Sponge.Sum(lengths))
  {
    OfRateLaws(r);
    OfRate(r).IncrementalIsConstruction(ZeroState(), chunks, p, lengths);
  }

  /** The incremental fixed-length functions give the first bytes of the hash of the concatenation. */
  lemma IncrementalDigestIsHash(r: nat, chunks: seq<Bytes>, p: Byte, n: nat)
    requires Rate(r) && p < 128
    ensures var a := OfRate(r).Chunked(ZeroState(), 0, chunks);
            OfRate(r).Squeeze(OfRate(r).Finish(a.0, a.1, p), 0, n).0 == OfRate(r).Hash(ZeroState(), Sponge.Join(chunks), p, n)
  {
    AbsorbFormsAgreeIff(r, chunks, p);
    OfRate(r).SqueezedIsHash(ZeroState(), Sponge.Join(chunks), p, n);
  }

  const SHAKE128_RATE := 168
  const SHAKE256_RATE := 136
  const SHA3_256_RATE := 136
  const SHA3_512_RATE := 72

  /** The standard functions stay clear of the exception. */
  lemma StandardFunctionsAgree(chunks: seq<Bytes>, lengths: seq<nat>)
    ensures forall r | r in {SHAKE128_RATE, SHAKE256_RATE} ::
              var a := OfRate(r).Chunked(ZeroState(), 0, chunks);
              Sponge.Join(OfRate(r).Pieces(OfRate(r).Finish(a.0, a.1, 0x1F), 0, lengths)) ==
              OfRate(r).Hash(ZeroState(), Sponge.Join(chunks), 0x1F, Sponge.Sum(lengths))
    ensures forall r | r in {SHA3_256_RATE, SHA3_512_RATE} ::
              var a := OfRate(r).Chunked(ZeroState(), 0, chunks);
              OfRate(r).Squeeze(OfRate(r).Finish(a.0, a.1, 0x06), 0, 32).0 ==
              OfRate(r).Hash(ZeroState(), Sponge.Join(chunks), 0x06, 32)
  {
    hide Sponge.Sponge.Squeeze, Sponge.Sponge.Hash, Sponge.Sponge.Pieces, Sponge.Sponge.Chunked, Sponge.Sponge.Finish;
    IncrementalIsHash(SHAKE128_RATE, chunks, 0x1F, lengths);
    IncrementalIsHash(SHAKE256_RATE, chunks, 0x1F, lengths);
    IncrementalDigestIsHash(SHA3_256_RATE, chunks, 0x06, 32);
    IncrementalDigestIsHash(SHA3_512_RATE, chunks, 0x06, 32);
  }
}
