/** Byte strings, the exclusive-or of equally long ones, and zero padding. */
module Bytes {

  type Byte = bv8
  type Bytes = seq<Byte>

  function Zeros(n: nat): (z: Bytes)
    ensures |z| == n && forall i :: 0 <= i < n ==> z[i] == 0
  {
    seq(n, _ => 0)
  }

  predicate IsZero(b: Bytes) {
    forall i :: 0 <= i < |b| ==> b[i] == 0
  }

  function Xor(a: Bytes, b: Bytes): (r: Bytes)
    requires |a| == |b|
    ensures |r| == |a| && forall i :: 0 <= i < |a| ==> r[i] == a[i] ^ b[i]
  {
    seq(|a|, i requires 0 <= i < |a| => a[i] ^ b[i])
  }

  lemma XorByteCancels(a: Byte, k: Byte)
    ensures (a ^ k) ^ k == a
    ensures 0 ^ k == k
  {}

  /** A key stream applied twice cancels out. */
  lemma XorCancels(a: Bytes, k: Bytes)
    requires |a| == |k|
    ensures Xor(Xor(a, k), k) == a
  {
    forall i | 0 <= i < |a| ensures Xor(Xor(a, k), k)[i] == a[i] {
      XorByteCancels(a[i], k[i]);
    }
  }

  /** Encrypting zeros yields the key stream. */
  lemma XorZeros(k: Bytes)
    ensures Xor(Zeros(|k|), k) == k
  {
    forall i | 0 <= i < |k| ensures Xor(Zeros(|k|), k)[i] == k[i] {
      XorByteCancels(0, k[i]);
    }
  }

  lemma XorCommutes(a: Bytes, b: Bytes)
    requires |a| == |b|
    ensures Xor(a, b) == Xor(b, a)
  {
    forall i | 0 <= i < |a| ensures Xor(a, b)[i] == Xor(b, a)[i] {
      assert a[i] ^ b[i] == b[i] ^ a[i];
    }
  }

  /** Exclusive-or works piecewise. */
  lemma XorConcat(a: Bytes, b: Bytes, k: Bytes)
    requires |a| + |b| == |k|
    ensures Xor(a + b, k) == Xor(a, k[..|a|]) + Xor(b, k[|a|..])
  {}

  lemma ConcatAssociates(a: Bytes, b: Bytes, c: Bytes)
    ensures (a + b) + c == a + (b + c)
  {}

  /** b with x written over it from position `at` on. */
  function Overwrite(b: Bytes, at: nat, x: Bytes): (r: Bytes)
    requires at + |x| <= |b|
    ensures |r| == |b|
  {
    b[..at] + x + b[at + |x|..]
  }

  lemma OverwriteJoin(b: Bytes, at: nat, x: Bytes, y: Bytes)
    requires at + |x| + |y| <= |b|
    ensures Overwrite(Overwrite(b, at, x), at + |x|, y) == Overwrite(b, at, x + y)
  {}

  lemma OverwriteStep(b: Bytes, at: nat, x: Bytes, v: Byte)
    requires at + |x| < |b|
    ensures Overwrite(b, at, x)[at + |x| := v] == Overwrite(b, at, x + [v])
  {}

  lemma OverwriteNothing(b: Bytes, at: nat)
    requires at <= |b|
    ensures Overwrite(b, at, []) == b
  {}

  lemma OverwriteAll(b: Bytes, x: Bytes)
    requires |b| == |x|
    ensures Overwrite(b, 0, x) == x
  {}

  lemma NothingOr(b: Byte)
    ensures 0 | b == b
  {}

  /** The first n bytes of t, at offset `at`. */
  method CopyPart(h: array<Byte>, at: nat, t: array<Byte>, n: nat)
    requires h != t && n <= t.Length && at + n <= h.Length
    modifies h
    ensures h[..] == Overwrite(old(h[..]), at, t[..n])
  {
    hide Overwrite;
    ghost var b := t[..];
    OverwriteNothing(h[..], at);
    for i := 0 to n
      invariant t[..] == b
      invariant h[..] == Overwrite(old(h[..]), at, b[..i])
    {
      OverwriteStep(old(h[..]), at, b[..i], b[i]);
      assert b[..i] + [b[i]] == b[..i + 1];
      h[at + i] := t[i];
    }
  }
}
