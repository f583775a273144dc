/** Byte-level helpers shared by the record packer and the image writer:
    C-style masking of an integer into a byte, and the splice that models a
    `memcpy`/in-place write of a record into a larger buffer. */
module Bytes {

  /** The C expression `v & (m - 1)` for a power-of-two modulus `m <= 256`,
      taken on a two's-complement integer: Dafny's Euclidean `%` agrees with
      masking the low bits even for negative `v`. */
  function Masked(v: int, m: nat): (b: bv8)
    requires 0 < m <= 256
  {
    (v % m) as bv8
  }

  /** Masking by one of the field widths the packer uses keeps the low
      bits' value: the byte reads back as `v mod m`. */
  lemma MaskedValue(v: int, m: nat)
    requires m == 4 || m == 8 || m == 16 || m == 32
    ensures Masked(v, m) as int == v % m && Masked(v, m) as int < m
  {
    if m == 4 {
    } else if m == 8 {
    } else if m == 16 {
    } else {
    }
  }

  /** The C expression `v & 0xFF`, assembled from the two nibbles of `v`. */
  function LowByte(v: int): bv8 {
    Masked(v, 16) | (Masked(v / 16, 16) << 4)
  }

  /** The unsigned value of a byte, read nibble by nibble. */
  function Unsigned(b: bv8): nat {
    ((b >> 4) as nat) * 16 + ((b & 0x0F) as nat)
  }

  /** The low byte of `v` reads back as `v` modulo 256. */
  lemma LowByteValue(v: int)
    ensures Unsigned(LowByte(v)) == v % 256
  {
    var lo, hi := Masked(v, 16), Masked(v / 16, 16);
    MaskedValue(v, 16);
    MaskedValue(v / 16, 16);
    NibblesApart(lo, hi);
    var r, r2, q2 := v % 16, (v / 16) % 16, (v / 16) / 16;
    assert v == 256 * q2 + (16 * r2 + r);
    ModOf256(v, q2, 16 * r2 + r);
  }

  lemma NibblesApart(lo: bv8, hi: bv8)
    requires lo < 16 && hi < 16
    ensures (lo | (hi << 4)) & 0x0F == lo
    ensures (lo | (hi << 4)) >> 4 == hi
  {
  }

  lemma ModOf256(v: int, q: int, r: int)
    requires 0 <= r < 256 && v == 256 * q + r
    ensures v % 256 == r
  {
  }

  /** A buffer of `n` copies of `b` (the model of `memset`). */
  function Fill(n: nat, b: bv8): (s: seq<bv8>)
    ensures |s| == n
    ensures forall i :: 0 <= i < n ==> s[i] == b
  {
    seq(n, _ => b)
  }

  /** Writes `r` over `s` starting at index `at`; every other byte is kept. */
  function Splice(s: seq<bv8>, at: nat, r: seq<bv8>): (t: seq<bv8>)
    requires at + |r| <= |s|
    ensures |t| == |s|
    ensures t[at..at + |r|] == r
    ensures forall i :: 0 <= i < |s| && !(at <= i < at + |r|) ==> t[i] == s[i]
  {
    s[..at] + r + s[at + |r|..]
  }

  /** `r` laid over the first bytes of `base`; bytes of `r` beyond `|base|`
      are dropped (the writer cannot run past the buffer it was given). */
  function Overlay(base: seq<bv8>, r: seq<bv8>): (t: seq<bv8>)
    ensures |t| == |base|
    ensures forall i :: 0 <= i < |t| ==> t[i] == (if i < |r| then r[i] else base[i])
  {
    if |r| >= |base| then r[..|base|] else r + base[|r|..]
  }

  /** Two splices at the same place with records of the same length: only the
      second survives. */
  lemma SpliceTwice(s: seq<bv8>, at: nat, r1: seq<bv8>, r2: seq<bv8>)
    requires at + |r1| <= |s| && |r1| == |r2|
    ensures Splice(Splice(s, at, r1), at, r2) == Splice(s, at, r2)
  {
  }

  /** Splices over non-overlapping ranges commute. */
  lemma SpliceCommute(s: seq<bv8>, a: nat, r: seq<bv8>, b: nat, q: seq<bv8>)
    requires a + |r| <= |s| && b + |q| <= |s|
    requires a + |r| <= b || b + |q| <= a
    ensures Splice(Splice(s, a, r), b, q) == Splice(Splice(s, b, q), a, r)
  {
    var x := Splice(Splice(s, a, r), b, q);
    var y := Splice(Splice(s, b, q), a, r);
    forall i | 0 <= i < |s|
      ensures x[i] == y[i]
    {
      if a <= i < a + |r| {
        assert x[i] == r[i - a] by { assert Splice(s, a, r)[a..a + |r|][i - a] == r[i - a]; }
        assert y[i] == r[i - a] by { assert y[a..a + |r|][i - a] == r[i - a]; }
      } else if b <= i < b + |q| {
        assert x[i] == q[i - b] by { assert x[b..b + |q|][i - b] == q[i - b]; }
        assert y[i] == q[i - b] by { assert Splice(s, b, q)[b..b + |q|][i - b] == q[i - b]; }
      }
    }
  }
}
