/** haraka_S, its incremental form and its four-lane form, from sphincsplus/haraka-aesni/haraka.c. States are arrays
    changed in place. The one-shot form writes to the caller's buffer; for the other two, outputs are the byte strings
    written, front to back. */
module HarakaHash {
  import opened Bytes
  import opened Haraka
  import Sponge

  const DOMAIN: Byte := 0x1F

  // ---------------------------------------------------------------- one-shot

  /** STORE(s + at, XOR128(LOAD(s + at), LOAD(w))) */
  method XorWord(s: array<Byte>, at: nat, w: Bytes)
    requires |w| == 16 && at + 16 <= s.Length
    modifies s
    ensures forall i :: 0 <= i < s.Length ==> s[i] == if at <= i < at + 16 then old(s[i]) ^ w[i - at] else old(s[i])
  {
    forall i | at <= i < at + 16 {
      s[i] := s[i] ^ w[i - at];
    }
  }

  /** XOR a block into a state. */
  method XorBlock(s: array<Byte>, block: Bytes, c: Context)
    requires s.Length == 64 && |block| == RATE && c.Valid()
    modifies s
    ensures s[..] == Of(c).XorInto(old(s[..]), 0, block)
  {
    hide Perm;
    ghost var was: State := s[..];
    XorWord(s, 0, block[..16]);
    XorWord(s, 16, block[16..]);
    assert forall i :: 0 <= i < 64 ==> s[i] == if i < RATE then was[i] ^ block[i] else was[i];
    hide Sponge.Sponge.XorInto;
    XorIntoIs(c, was, block, s[..]);
  }

  lemma XorIntoIs(c: Context, was: State, block: Bytes, s: State)
    requires c.Valid() && |block| == RATE
    requires forall i :: 0 <= i < 64 ==> s[i] == if i < RATE then was[i] ^ block[i] else was[i]
    ensures s == Of(c).XorInto(was, 0, block)
  {
    hide Perm, Sponge.Sponge.XorInto;
    forall i | 0 <= i < 64 ensures s[i] == Of(c).XorInto(was, 0, block)[i] {
      XorIntoAt(c, was, 0, block, i);
    }
  }

  /** The last block: the rest of the message, the domain byte, and the top bit of the last byte. */
  method MakeLastBlock(m: Bytes, p: Byte, c: Context) returns (t: array<Byte>)
    requires |m| < RATE && c.Valid()
    ensures fresh(t) && t.Length == RATE
    ensures t[..] == Of(c).LastBlock(m, p)
  {
    hide Perm, Sponge.Sponge.LastBlock;
    t := new Byte[RATE];
    for i := 0 to RATE
      invariant forall j :: 0 <= j < i ==> t[j] == 0
    {
      t[i] := 0;
    }
    for i := 0 to |m|
      invariant t[..i] == m[..i]
      invariant forall j :: i <= j < RATE ==> t[j] == 0
    {
      t[i] := m[i];
    }
    assert t[..|m|] == m;
    t[|m|] := p;
    assert t[..|m|] == m;
    NothingOr(128);
    t[RATE - 1] := t[RATE - 1] | 128;
    assert t[..][..|m|] == t[..|m|] == m;
    Of(c).LastBlockIs(m, p, t[..]);
  }

  /** haraka_S_absorb */
  method Absorb(s: array<Byte>, m: Bytes, p: Byte, c: Context)
    requires s.Length == 64 && c.Valid()
    modifies s
    ensures s[..] == Of(c).OneShot(old(s[..]), m, p)
  {
    hide Perm, Sponge.Sponge.XorInto;
    var rest := m;
    while |rest| >= RATE
      invariant Of(c).OneShot(s[..], rest, p) == Of(c).OneShot(old(s[..]), m, p)
    {
      XorBlock(s, rest[..RATE], c);
      Permute(s, c);
      rest := rest[RATE..];
    }
    var t := MakeLastBlock(rest, p, c);
    XorBlock(s, t[..], c);
  }

  lemma WindowIsSlice(c: Context, s: State, k: nat, n: nat)
    requires c.Valid() && k + n <= 64
    ensures Of(c).Window(s, k, n) == s[k..k + n]
  {}

  /** STORE(h + at, LOAD(s)) and STORE(h + at + 16, LOAD(s + 16)) */
  method StoreBlock(h: array<Byte>, at: nat, s: array<Byte>)
    requires h != s && s.Length == 64 && at + RATE <= h.Length
    modifies h
    ensures h[..] == Overwrite(old(h[..]), at, s[..16] + s[16..32])
  {
    forall i | 0 <= i < 16 {
      h[at + i] := s[i];
    }
    forall i | 0 <= i < 16 {
      h[at + 16 + i] := s[16 + i];
    }
  }

  /** The bytes `done` have been squeezed from the state `was`, in whole blocks, and written from `start` on. */
  ghost predicate Squeezed(c: Context, was: State, out: Bytes, start: nat, done: Bytes, s: State, h: Bytes)
    requires c.Valid()
  {
    start + |done| <= |out| && h == Overwrite(out, start, done) && Of(c).Squeeze(was, 0, |done|) == (done, s, 0)
  }

  lemma SqueezedNone(c: Context, s: State, out: Bytes, start: nat)
    requires c.Valid() && start <= |out|
    ensures Squeezed(c, s, out, start, [], s, out)
  {
    hide Perm, Overwrite, Sponge.Sponge.Squeeze;
    SqueezeNone(c, s);
    OverwriteNothing(out, start);
  }

  lemma SqueezedMore(c: Context, was: State, out: Bytes, start: nat, done: Bytes, s: State, h: Bytes)
    requires c.Valid() && Squeezed(c, was, out, start, done, s, h) && start + |done| + RATE <= |out|
    ensures var t := Perm(c, s); var block := t[..16] + t[16..32];
            Squeezed(c, was, out, start, done + block, t, Overwrite(h, start + |done|, block))
  {
    hide Perm, Overwrite, Sponge.Sponge.Squeeze;
    var t := Perm(c, s);
    NextBlock(c, was, done, s);
    assert done + t[..16] + t[16..32] == done + (t[..16] + t[16..32]);
    OverwriteJoin(out, start, done, t[..16] + t[16..32]);
  }

  /** haraka_S_squeezeblocks, writing to h from `start` on. */
  method SqueezeBlocks(h: array<Byte>, start: nat, blocks: nat, s: array<Byte>, c: Context)
    requires h != s && s.Length == 64 && c.Valid() && start + RATE * blocks <= h.Length
    modifies h, s
    ensures var q := Of(c).Squeeze(old(s[..]), 0, RATE * blocks);
            q.2 == 0 && s[..] == q.1 && h[..] == Overwrite(old(h[..]), start, q.0)
  {
    hide Perm, Overwrite, Squeezed, Sponge.Sponge.Squeeze;
    ghost var was: State, out, done := s[..], h[..], [];
    SqueezedNone(c, was, out, start);
    var left: nat, at: nat := blocks, start;
    while left > 0
      invariant |done| + RATE * left == RATE * blocks && at == start + |done|
      invariant Squeezed(c, was, out, start, done, s[..], h[..])
    {
      SqueezedMore(c, was, out, start, done, s[..], h[..]);
      Permute(s, c);
      StoreBlock(h, at, s);
      done := done + (s[..16] + s[16..32]);
      at := at + RATE;
      left := left - 1;
    }
    SqueezedAll(c, was, out, start, done, s[..], h[..]);
  }

  lemma SqueezedAll(c: Context, was: State, out: Bytes, start: nat, done: Bytes, s: State, h: Bytes)
    requires c.Valid() && Squeezed(c, was, out, start, done, s, h)
    ensures Of(c).Squeeze(was, 0, |done|) == (done, s, 0)
    ensures start + |done| <= |out| && h == Overwrite(out, start, done)
  {}

  lemma SqueezeNone(c: Context, s: State)
    requires c.Valid()
    ensures Of(c).Squeeze(s, 0, 0) == ([], s, 0)
  {}

  /** One more block after those squeezed from the state `was`. */
  lemma NextBlock(c: Context, was: State, h: Bytes, s: State)
    requires c.Valid() && Of(c).Squeeze(was, 0, |h|) == (h, s, 0)
    ensures var t := Perm(c, s); var g := h + t[..16] + t[16..32];
            |g| == |h| + RATE && Of(c).Squeeze(was, 0, |g|) == (g, t, 0)
  {
    hide Perm, Sponge.Sponge.Squeeze;
    var t := Perm(c, s);
    Of(c).SqueezeNext(s, RATE);
    WindowIsSlice(c, t, 0, RATE);
    Of(c).SqueezeConcat(was, 0, |h|, RATE);
    assert h + t[..16] + t[16..32] == h + t[0..RATE];
  }

  /** Squeeze one block aside, and write its first n bytes at offset `at`. */
  method PartBlock(out: array<Byte>, at: nat, n: nat, s: array<Byte>, c: Context)
    requires out != s && s.Length == 64 && c.Valid() && n <= RATE && at + n <= out.Length
    modifies out, s
    ensures out[..] == Overwrite(old(out[..]), at, Of(c).Squeeze(old(s[..]), 0, RATE).0[..n])
  {
    hide Perm, Overwrite, Sponge.Sponge.Squeeze;
    var d := new Byte[RATE];
    ghost var a: State, d0 := s[..], d[..];
    SqueezeBlocks(d, 0, 1, s, c);
    OverwriteAll(d0, Of(c).Squeeze(a, 0, RATE).0);
    CopyPart(out, at, d, n);
  }

  /** Fill the output: whole blocks, and a part of one more. */
  method FillOutput(out: array<Byte>, s: array<Byte>, c: Context)
    requires out != s && s.Length == 64 && c.Valid()
    modifies out, s
    ensures out[..] == Of(c).Squeeze(old(s[..]), 0, out.Length).0
  {
    hide Perm, Overwrite, Sponge.Sponge.Squeeze;
    var full, left := RATE * (out.Length / RATE), out.Length % RATE;
    ghost var a: State, was := s[..], out[..];
    SqueezeBlocks(out, 0, out.Length / RATE, s, c);
    ghost var q := Of(c).Squeeze(a, 0, full);
    if left != 0 {
      ghost var d := Of(c).Squeeze(q.1, 0, RATE).0;
      PartBlock(out, full, left, s, c);
      PartialBlock(c, a, q.0, q.1, d, left);
      OverwriteJoin(was, 0, q.0, d[..left]);
      OverwriteAll(was, q.0 + d[..left]);
    } else {
      OverwriteAll(was, q.0);
    }
  }

  /** haraka_S */
  method HarakaS(out: array<Byte>, input: Bytes, c: Context)
    requires c.Valid()
    modifies out
    ensures out[..] == Of(c).Hash(Zeros(64), input, DOMAIN, out.Length)
  {
    hide Perm, Sponge.Sponge.Squeeze, Sponge.Sponge.OneShot, Sponge.Sponge.Hash;
    var s := new Byte[64](_ => 0);
    assert s[..] == Zeros(64);
    Absorb(s, input, DOMAIN, c);
    FillOutput(out, s, c);
    Of(c).SqueezedIsHash(Zeros(64), input, DOMAIN, out.Length);
  }

  /** Part of one more block. */
  lemma PartialBlock(c: Context, was: State, h: Bytes, s: State, d: Bytes, n: nat)
    requires c.Valid() && Of(c).Squeeze(was, 0, |h|) == (h, s, 0)
    requires n <= |d| && Of(c).Squeeze(s, 0, |d|).0 == d
    ensures Of(c).Squeeze(was, 0, |h| + n).0 == h + d[..n]
  {
    hide Perm, Sponge.Sponge.Squeeze;
    Of(c).SqueezePrefix(s, 0, n, |d|);
    Of(c).SqueezeConcat(was, 0, |h|, n);
  }

  // ---------------------------------------------------------------- incremental

  /** The incremental state: 64 bytes, and the number of bytes of the current block that were absorbed or are still
      to be given out. */
  class Incremental {
    const bytes: array<Byte>
    var count: nat

    ghost predicate Valid()
      reads this
    {
      bytes.Length == 64
    }

    ghost function Contents(): State
      requires Valid()
      reads this, bytes
    {
      bytes[..]
    }

    /** haraka_S_inc_init */
    constructor ()
      ensures Valid() && fresh(bytes)
      ensures Contents() == Zeros(64) && count == 0
    {
      bytes := new Byte[64](_ => 0);
      count := 0;
      new;
      assert bytes[..] == Zeros(64);
    }

    /** XOR the first n bytes of m into the state from byte `count` on. */
    method XorBytes(m: Bytes, n: nat, c: Context)
      requires Valid() && n <= |m| && count + n <= RATE && c.Valid()
      modifies bytes
      ensures Contents() == Of(c).XorInto(old(Contents()), count, m[..n])
    {
      hide Perm;
      ghost var start := Contents();
      for i := 0 to n
        invariant Contents() == Of(c).XorInto(start, count, m[..i])
      {
        XorNext(c, start, count, m, i);
        bytes[count + i] := bytes[count + i] ^ m[i];
      }
    }

    /** haraka_S_inc_absorb */
    method Absorb(m: Bytes, c: Context)
      requires Valid() && count < RATE && c.Valid()
      modifies this, bytes
      ensures Valid()
      ensures var a := Of(c).Absorb(old(Contents()), old(count), m); Contents() == a.0 && count == a.1
    {
      hide Perm, Put, Get, Sponge.Sponge.XorInto, Sponge.Sponge.Absorb;
      ghost var goal := Of(c).Absorb(Contents(), count, m);
      var rest := m;
      while |rest| + count >= RATE
        invariant count < RATE && Of(c).Absorb(Contents(), count, rest) == goal
      {
        var n := RATE - count;
        AbsorbBlock(c, Contents(), count, rest);
        XorBytes(rest, n, c);
        rest := rest[n..];
        count := 0;
        Permute(bytes, c);
      }
      Of(c).AbsorbWithin(Contents(), count, rest);
      XorBytes(rest, |rest|, c);
      assert rest[..|rest|] == rest;
      count := count + |rest|;
    }

    /** haraka_S_inc_finalize */
    method Finalize(c: Context)
      requires Valid() && count < RATE && c.Valid()
      modifies this, bytes
      ensures Valid() && count == 0
      ensures Contents() == Of(c).Finish(old(Contents()), old(count), DOMAIN)
    {
      hide Perm, Put;
      XorByte(count, DOMAIN);
      XorByte(RATE - 1, 128);
      count := 0;
    }

    method XorByte(i: nat, b: Byte)
      requires Valid() && i < 64
      modifies bytes
      ensures Contents() == Put(old(Contents()), i, b)
    {
      bytes[i] := bytes[i] ^ b;
    }

    /** haraka_S_inc_squeeze */
    method Squeeze(length: nat, c: Context) returns (out: Bytes)
      requires Valid() && count < RATE && c.Valid()
      modifies this, bytes
      ensures Valid()
      ensures Of(c).Squeeze(old(Contents()), old(count), length) == (out, Contents(), count)
    {
      hide Perm, Put, Get, Sponge.Sponge.Squeeze;
      ghost var start, k := Contents(), count;
      out := [];
      var i := 0;
      while i < length && i < count
        invariant 0 <= i <= length && i <= count
        invariant out == bytes[RATE - count..RATE - count + i]
      {
        out := out + [bytes[RATE - count + i]];
        i := i + 1;
      }
      Of(c).SqueezeWithin(start, k, i);
      WindowIsSlice(c, start, RATE - k, i);
      count := count - i;
      while |out| < length
        invariant |out| <= length && (|out| < length ==> count == 0) && count < RATE
        invariant Of(c).Squeeze(start, k, |out|) == (out, Contents(), count)
      {
        ghost var a, before := Contents(), out;
        Permute(bytes, c);
        var left := length - |out|;
        i := 0;
        while i < left && i < RATE
          invariant 0 <= i <= left && i <= RATE
          invariant out == before + bytes[..i]
        {
          out := out + [bytes[i]];
          assert before + bytes[..i] + [bytes[i]] == before + bytes[..i + 1];
          i := i + 1;
        }
        BlockGivenOut(c, start, k, before, a, i);
        count := RATE - i;
      }
    }
  }

  lemma XorNext(c: Context, a: State, k: nat, m: Bytes, i: nat)
    requires i < |m| && c.Valid()
    ensures Of(c).XorInto(a, k, m[..i + 1]) == Put(Of(c).XorInto(a, k, m[..i]), k + i, m[i])
  {
    hide Put, Get, Perm;
    assert m[..i + 1] == m[..i] + [m[i]];
    Of(c).XorIntoConcat(a, k, m[..i], [m[i]]);
    Of(c).XorIntoOne(Of(c).XorInto(a, k, m[..i]), k + i, m[i]);
  }

  /** Completing a block. */
  lemma AbsorbBlock(c: Context, a: State, k: nat, m: Bytes)
    requires k < RATE && |m| + k >= RATE && c.Valid()
    ensures Of(c).Absorb(a, k, m) == Of(c).Absorb(Perm(c, Of(c).XorInto(a, k, m[..RATE - k])), 0, m[RATE - k..])
  {
    hide Put, Get, Perm, Sponge.Sponge.Absorb, Sponge.Sponge.XorInto;
    var n := RATE - k;
    assert m == m[..n] + m[n..];
    Of(c).AbsorbConcat(a, k, m[..n], m[n..]);
    Of(c).AbsorbToEnd(a, k, m[..n]);
  }

  lemma BlockGivenOut(c: Context, start: State, k: nat, h: Bytes, a: State, n: nat)
    requires c.Valid() && k < RATE && 0 < n <= RATE && Of(c).Squeeze(start, k, |h|) == (h, a, 0)
    ensures var t := Perm(c, a); Of(c).Squeeze(start, k, |h| + n) == (h + t[..n], t, RATE - n)
  {
    hide Get, Put, Perm, Sponge.Sponge.Squeeze;
    Of(c).SqueezeNext(a, n);
    Of(c).SqueezeConcat(start, k, |h|, n);
    WindowSlice(c, Perm(c, a), n);
  }

  lemma WindowSlice(c: Context, s: State, n: nat)
    requires c.Valid() && n <= 64
    ensures Of(c).Window(s, 0, n) == s[..n]
  {
    WindowIsSlice(c, s, 0, n);
  }

  /** haraka_S_inc_* over any chunks and any pieces give what haraka_S gives for the concatenation. */
  lemma IncrementalIsHash(c: Context, chunks: seq<Bytes>, lengths: seq<nat>)
    requires c.Valid()
    ensures var a := Of(c).Chunked(Zeros(64), 0, chunks);
            Sponge.Join(Of(c).Pieces(Of(c).Finish(a.0, a.1, DOMAIN), 0, lengths)) ==
            Of(c).Hash(Zeros(64), Sponge.Join(chunks), DOMAIN, Sponge.Sum(lengths))
  {
    OfLaws(c);
    Of(c).IncrementalIsConstruction(Zeros(64), chunks, DOMAIN, lengths);
  }

  // ---------------------------------------------------------------- four lanes

  /** `now` is `was` with the block XORed in at `at`. */
  ghost predicate Xored(was: Bytes, now: Bytes, at: nat, block: Bytes) {
    |now| == |was| && forall i :: 0 <= i < |was| ==> now[i] == if at <= i < at + |block| then was[i] ^ block[i - at] else was[i]
  }

  lemma LaneAt(s: Bytes, j: nat, i: nat)
    requires |s| == 256 && j < 4 && i < 64
    ensures LaneOf(s, j)[i] == s[64 * j + i]
  {}

  lemma XoredAt(was: Bytes, now: Bytes, at: nat, block: Bytes, i: nat)
    requires Xored(was, now, at, block) && at + i < |was|
    ensures |now| == |was| && now[at + i] == if i < |block| then was[at + i] ^ block[i] else was[at + i]
  {}

  lemma LaneBytes(was: Bytes, now: Bytes, j: nat, block: Bytes)
    requires |was| == 256 && j < 4 && |block| == RATE && Xored(was, now, 64 * j, block)
    ensures |now| == 256
    ensures var a, b := LaneOf(was, j), LaneOf(now, j);
            forall i :: 0 <= i < 64 ==> b[i] == if i < RATE then a[i] ^ block[i] else a[i]
  {
    assert |now| == 256;
    hide Xored, LaneOf;
    var a, b := LaneOf(was, j), LaneOf(now, j);
    forall i | 0 <= i < 64 ensures b[i] == if i < RATE then a[i] ^ block[i] else a[i] {
      LaneAt(was, j, i);
      LaneAt(now, j, i);
      XoredAt(was, now, 64 * j, block, i);
    }
  }

  lemma LaneXored(was: Bytes, now: Bytes, j: nat, block: Bytes, c: Context)
    requires |was| == 256 && j < 4 && |block| == RATE && c.Valid() && Xored(was, now, 64 * j, block)
    ensures LaneOf(now, j) == Of(c).XorInto(LaneOf(was, j), 0, block)
  {
    LaneBytes(was, now, j, block);
    hide Perm, Xored, LaneOf, Sponge.Sponge.XorInto;
    XorIntoIs(c, LaneOf(was, j), block, LaneOf(now, j));
  }

  lemma LanesKept(was: Bytes, now: Bytes, j: nat, block: Bytes)
    requires |was| == 256 && j < 4 && |block| == RATE && Xored(was, now, 64 * j, block)
    ensures forall i :: 0 <= i < 4 && i != j ==> LaneOf(now, i) == LaneOf(was, i)
  {}

  /** XOR a block into state j of four. */
  method XorLane(s: array<Byte>, j: nat, block: Bytes, c: Context)
    requires s.Length == 256 && j < 4 && |block| == RATE && c.Valid()
    modifies s
    ensures LaneOf(s[..], j) == Of(c).XorInto(LaneOf(old(s[..]), j), 0, block)
    ensures forall i :: 0 <= i < 4 && i != j ==> LaneOf(s[..], i) == LaneOf(old(s[..]), i)
  {
    hide Perm, LaneOf;
    ghost var was := s[..];
    XorWord(s, 64 * j, block[..16]);
    XorWord(s, 64 * j + 16, block[16..]);
    assert Xored(was, s[..], 64 * j, block);
    hide Xored;
    LaneXored(was, s[..], j, block, c);
    LanesKept(was, s[..], j, block);
  }

  /** XOR four blocks into the four states. */
  method XorFour(s: array<Byte>, blocks: seq<Bytes>, c: Context)
    requires s.Length == 256 && c.Valid() && |blocks| == 4 && forall j :: 0 <= j < 4 ==> |blocks[j]| == RATE
    modifies s
    ensures forall j :: 0 <= j < 4 ==> LaneOf(s[..], j) == Of(c).XorInto(LaneOf(old(s[..]), j), 0, blocks[j])
  {
    hide Perm, LaneOf, Sponge.Sponge.XorInto;
    XorLane(s, 0, blocks[0], c);
    XorLane(s, 1, blocks[1], c);
    XorLane(s, 2, blocks[2], c);
    XorLane(s, 3, blocks[3], c);
  }

  /** Four messages of one length. */
  predicate Alike(m: seq<Bytes>) {
    |m| == 4 && |m[0]| == |m[1]| == |m[2]| == |m[3]|
  }

  function Front(m: seq<Bytes>): (r: seq<Bytes>)
    requires Alike(m) && |m[0]| >= RATE
    ensures |r| == 4 && forall j :: 0 <= j < 4 ==> |r[j]| == RATE && r[j] == m[j][..RATE]
  {
    [m[0][..RATE], m[1][..RATE], m[2][..RATE], m[3][..RATE]]
  }

  function Back(m: seq<Bytes>): (r: seq<Bytes>)
    requires Alike(m) && |m[0]| >= RATE
    ensures Alike(r) && |r[0]| == |m[0]| - RATE && forall j :: 0 <= j < 4 ==> r[j] == m[j][RATE..]
  {
    [m[0][RATE..], m[1][RATE..], m[2][RATE..], m[3][RATE..]]
  }

  /** haraka_S_absorb4x */
  method AbsorbFour(s: array<Byte>, m: seq<Bytes>, p: Byte, c: Context)
    requires s.Length == 256 && Alike(m) && c.Valid()
    modifies s
    ensures forall j :: 0 <= j < 4 ==> LaneOf(s[..], j) == Of(c).OneShot(LaneOf(old(s[..]), j), m[j], p)
  {
    hide Perm, LaneOf, Sponge.Sponge.XorInto;
    ghost var was := s[..];
    var rest := m;
    while |rest[0]| >= RATE
      invariant Alike(rest)
      invariant forall j :: 0 <= j < 4 ==>
        Of(c).OneShot(LaneOf(s[..], j), rest[j], p) == Of(c).OneShot(LaneOf(was, j), m[j], p)
      decreases |rest[0]|
    {
      XorFour(s, Front(rest), c);
      PermuteFour(s, c);
      rest := Back(rest);
    }
    var t0 := MakeLastBlock(rest[0], p, c);
    var t1 := MakeLastBlock(rest[1], p, c);
    var t2 := MakeLastBlock(rest[2], p, c);
    var t3 := MakeLastBlock(rest[3], p, c);
    XorFour(s, [t0[..], t1[..], t2[..], t3[..]], c);
  }

  function NextFour(h: seq<Bytes>, s: Bytes): (r: seq<Bytes>)
    requires |h| == 4 && |s| == 256
    ensures |r| == 4 && forall j :: 0 <= j < 4 ==> r[j] == h[j] + LaneOf(s, j)[..16] + LaneOf(s, j)[16..32]
  {
    seq(4, j requires 0 <= j < 4 => h[j] + LaneOf(s, j)[..16] + LaneOf(s, j)[16..32])
  }

  /** h[j] has been squeezed from state j of `was`, in whole blocks, leaving state j of `now`. */
  ghost predicate SqueezedFour(c: Context, was: Bytes, now: Bytes, h: seq<Bytes>, n: nat)
    requires c.Valid() && |was| == |now| == 256 && |h| == 4
  {
    forall j :: 0 <= j < 4 ==> |h[j]| == n && Of(c).Squeeze(LaneOf(was, j), 0, n) == (h[j], LaneOf(now, j), 0)
  }

  /** haraka_S_squeezeblocks4x */
  method SqueezeBlocksFour(blocks: nat, s: array<Byte>, c: Context) returns (h: seq<Bytes>)
    requires s.Length == 256 && c.Valid()
    modifies s
    ensures |h| == 4 && SqueezedFour(c, old(s[..]), s[..], h, RATE * blocks)
  {
    hide Perm, LaneOf, Sponge.Sponge.Squeeze;
    ghost var was := s[..];
    h := [[], [], [], []];
    forall j | 0 <= j < 4 ensures Of(c).Squeeze(LaneOf(was, j), 0, 0) == ([], LaneOf(was, j), 0) {
      SqueezeNone(c, LaneOf(was, j));
    }
    var left: nat := blocks;
    while left > 0
      invariant left <= blocks && |h| == 4 && SqueezedFour(c, was, s[..], h, RATE * (blocks - left))
    {
      ghost var before := s[..];
      PermuteFour(s, c);
      forall j | 0 <= j < 4
        ensures Of(c).Squeeze(LaneOf(was, j), 0, |NextFour(h, s[..])[j]|) == (NextFour(h, s[..])[j], LaneOf(s[..], j), 0)
      {
        NextBlock(c, LaneOf(was, j), h[j], LaneOf(before, j));
      }
      h := NextFour(h, s[..]);
      left := left - 1;
    }
  }

  /** The first n bytes of every d[j], after what is already in out[j]. */
  method AppendPart(h: seq<Bytes>, d: seq<Bytes>, n: nat) returns (out: seq<Bytes>)
    requires |h| == |d| == 4 && forall j :: 0 <= j < 4 ==> n <= |d[j]|
    ensures |out| == 4 && forall j :: 0 <= j < 4 ==> out[j] == h[j] + d[j][..n]
  {
    out := h;
    for i := 0 to n
      invariant |out| == 4 && forall j :: 0 <= j < 4 ==> out[j] == h[j] + d[j][..i]
    {
      ghost var before := out;
      out := [out[0] + [d[0][i]], out[1] + [d[1][i]], out[2] + [d[2][i]], out[3] + [d[3][i]]];
      forall j | 0 <= j < 4 ensures out[j] == h[j] + d[j][..i + 1] {
        assert before[j] + [d[j][i]] == h[j] + d[j][..i + 1];
      }
    }
  }

  lemma PartialFour(c: Context, was: Bytes, mid: Bytes, now: Bytes, h: seq<Bytes>, d: seq<Bytes>, m: nat, n: nat)
    requires c.Valid() && |was| == |mid| == |now| == 256 && |h| == |d| == 4 && n <= RATE
    requires SqueezedFour(c, was, mid, h, m) && SqueezedFour(c, mid, now, d, RATE)
    ensures forall j :: 0 <= j < 4 ==> Of(c).Squeeze(LaneOf(was, j), 0, m + n).0 == h[j] + d[j][..n]
  {
    hide Perm, LaneOf, Sponge.Sponge.Squeeze;
    forall j | 0 <= j < 4 ensures Of(c).Squeeze(LaneOf(was, j), 0, m + n).0 == h[j] + d[j][..n] {
      PartialBlock(c, LaneOf(was, j), h[j], LaneOf(mid, j), d[j], n);
    }
  }

  /** The lanes of the absorbed state give the hashes of the inputs. */
  lemma HashFour(c: Context, zeros: Bytes, a: Bytes, input: seq<Bytes>, length: nat)
    requires c.Valid() && |zeros| == |a| == 256 && |input| == 4 && IsZero(zeros)
    requires forall j :: 0 <= j < 4 ==> LaneOf(a, j) == Of(c).OneShot(LaneOf(zeros, j), input[j], DOMAIN)
    ensures forall j :: 0 <= j < 4 ==>
      Of(c).Squeeze(LaneOf(a, j), 0, length).0 == Of(c).Hash(Zeros(64), input[j], DOMAIN, length)
  {
    hide Perm, Sponge.Sponge.Squeeze, Sponge.Sponge.OneShot, Sponge.Sponge.Hash;
    forall j | 0 <= j < 4
      ensures Of(c).Squeeze(LaneOf(a, j), 0, length).0 == Of(c).Hash(Zeros(64), input[j], DOMAIN, length)
    {
      assert LaneOf(zeros, j) == Zeros(64);
      Of(c).SqueezedIsHash(Zeros(64), input[j], DOMAIN, length);
    }
  }

  /** haraka_Sx4: every lane is haraka_S of that lane's input. */
  method HarakaSFour(length: nat, input: seq<Bytes>, c: Context) returns (out: seq<Bytes>)
    requires Alike(input) && c.Valid()
    ensures |out| == 4 && forall j :: 0 <= j < 4 ==> out[j] == Of(c).Hash(Zeros(64), input[j], DOMAIN, length)
  {
    hide Perm, LaneOf, Sponge.Sponge.Squeeze, Sponge.Sponge.OneShot, Sponge.Sponge.Hash;
    var s := new Byte[256](_ => 0);
    ghost var zeros := s[..];
    AbsorbFour(s, input, DOMAIN, c);
    ghost var a := s[..];
    HashFour(c, zeros, a, input, length);
    var h := SqueezeBlocksFour(length / RATE, s, c);
    if length % RATE == 0 {
      out := h;
    } else {
      ghost var b := s[..];
      var d := SqueezeBlocksFour(1, s, c);
      out := AppendPart(h, d, length % RATE);
      PartialFour(c, a, b, s[..], h, d, RATE * (length / RATE), length % RATE);
    }
  }
}
