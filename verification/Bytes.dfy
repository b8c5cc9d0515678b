/** Byte strings, and the number notations the wire formats share: decimal,
    little-endian and big-endian. A Go `string` or `[]byte` is a `bytes`. */
module Bytes {
  import opened Common

  type byte = x: int | 0 <= x < 256
  type bytes = seq<byte>

  const NL: byte := 0x0A
  const SPACE: byte := 0x20
  const QUOTE: byte := 0x22
  const EQUALS: byte := 0x3D
  const BACKSLASH: byte := 0x5C
  const LBRACKET: byte := 0x5B
  const RBRACKET: byte := 0x5D

  /** The position of the first `c` in `s`, or -1. */
  function IndexByte(s: bytes, c: byte): (i: int)
    ensures -1 <= i < |s|
    ensures 0 <= i ==> s[i] == c && c !in s[..i]
    ensures i < 0 <==> c !in s
  {
    if s == [] then -1
    else if s[0] == c then 0
    else
      var i := IndexByte(s[1..], c);
      assert s == [s[0]] + s[1..];
      assert 0 <= i ==> s[..i + 1] == [s[0]] + s[1..][..i];
      if i < 0 then -1 else i + 1
  }

  lemma IndexAt(s: bytes, c: byte, k: nat)
    requires k < |s| && s[k] == c && c !in s[..k]
    ensures IndexByte(s, c) == k
  {
    hide IndexByte;
    var i := IndexByte(s, c);
    assert forall j :: 0 <= j < k ==> s[j] == s[..k][j];
    assert forall j :: k < j <= |s| ==> s[..j][k] == c;
  }

  /** The first `c` after a prefix without one. */
  lemma IndexAfter(a: bytes, c: byte, rest: bytes)
    requires c !in a
    ensures IndexByte(a + [c] + rest, c) == |a|
  {
    var s := a + [c] + rest;
    assert s[..|a|] == a && s[|a|] == c;
    IndexAt(s, c, |a|);
  }

  /** What is left of `a + b` once `a` is consumed. */
  lemma DropPrefix(a: bytes, b: bytes)
    ensures (a + b)[|a|..] == b && (a + b)[..|a|] == a
  {
  }

  /** `s` taken apart at the byte `s[d]`. */
  lemma SplitAt(s: bytes, d: nat)
    requires d < |s|
    ensures s[..d] + s[d..] == s && s[d..] == [s[d]] + s[d + 1..] && s[d..][0] == s[d]
    ensures s[..d] + [s[d]] + s[d + 1..] == s
  {
  }

  /** A slice of what follows `pos`. */
  lemma SliceAfter(s: bytes, pos: nat, i: nat, j: nat)
    requires i <= j && pos + j <= |s|
    ensures s[pos..][i..j] == s[pos + i..pos + j]
  {
  }

  lemma Regroup4(a: bytes, b: bytes, c: bytes, d: bytes)
    ensures a + b + c + d == a + (b + (c + d))
  {
  }

  // ---- decimal ----

  predicate IsDigit(c: byte) { 0x30 <= c <= 0x39 }

  predicate AllDigits(s: bytes) { forall i :: 0 <= i < |s| ==> IsDigit(s[i]) }

  /** The usual decimal numeral. */
  function Decimal(n: nat): (s: bytes)
    ensures s != [] && AllDigits(s)
    ensures n != 0 ==> s[0] != 0x30
  {
    if n < 10 then [0x30 + n] else Decimal(n / 10) + [0x30 + n % 10]
  }

  /** The number a run of digits stands for. */
  function DecimalValue(s: bytes): nat
    requires AllDigits(s)
  {
    if s == [] then 0 else DecimalValue(s[..|s| - 1]) * 10 + (s[|s| - 1] - 0x30)
  }

  lemma {:induction false} DecimalRoundTrip(n: nat)
    ensures DecimalValue(Decimal(n)) == n
  {
    if n >= 10 {
      DecimalRoundTrip(n / 10);
      assert Decimal(n)[..|Decimal(n)| - 1] == Decimal(n / 10);
    } else {
      assert Decimal(n)[..0] == [];
    }
  }

  /** A digit string without a leading zero is the numeral of its value. */
  lemma {:induction false} DecimalCanonical(s: bytes)
    requires s != [] && AllDigits(s) && s[0] != 0x30
    ensures DecimalValue(s) > 0 && Decimal(DecimalValue(s)) == s
  {
    hide Decimal, DecimalValue;
    var last := |s| - 1;
    ValueOfLast(s);
    if last > 0 {
      DecimalCanonical(s[..last]);
      DecimalOfLast(DecimalValue(s[..last]), s[last] - 0x30);
      assert s == s[..last] + [s[last]];
    } else {
      DecimalOfLast(0, s[0] - 0x30);
      assert s == [s[0]];
    }
  }

  lemma ValueOfLast(s: bytes)
    requires s != [] && AllDigits(s)
    ensures DecimalValue(s) == DecimalValue(s[..|s| - 1]) * 10 + (s[|s| - 1] - 0x30)
    ensures |s| == 1 ==> DecimalValue(s[..|s| - 1]) == 0
  {
  }

  lemma DecimalOfLast(n: nat, d: nat)
    requires d < 10
    ensures Decimal(n * 10 + d) == if n == 0 then [0x30 + d] else Decimal(n) + [0x30 + d]
  {
  }

  function Pow10(k: nat): (p: nat)
    ensures p > 0
  {
    if k == 0 then 1 else 10 * Pow10(k - 1)
  }

  lemma PowersOfTen()
    ensures Pow10(3) == 1000 && Pow10(8) == 1_0000_0000
  {
    assert Pow10(3) == 10 * (10 * (10 * Pow10(0)));
    assert Pow10(6) == 10 * (10 * (10 * Pow10(3)));
    assert Pow10(8) == 10 * (10 * Pow10(6));
  }

  lemma {:induction false} DecimalLength(n: nat, k: nat)
    requires n < Pow10(k) && k > 0
    ensures |Decimal(n)| <= k
  {
    if n >= 10 {
      assert k > 1 by { assert Pow10(1) == 10 * Pow10(0); }
      DecimalLength(n / 10, k - 1);
    }
  }

  lemma {:induction false} SmallValue(ds: bytes, k: nat)
    requires AllDigits(ds) && |ds| <= k
    ensures DecimalValue(ds) < Pow10(k)
  {
    if ds != [] { SmallValue(ds[..|ds| - 1], k - 1); }
  }

  // ---- signed decimal ----

  const INT64_MIN := -0x8000_0000_0000_0000
  const INT64_MAX := 0x7FFF_FFFF_FFFF_FFFF

  predicate IsInt64(n: int) { INT64_MIN <= n <= INT64_MAX }

  /** `strconv.ParseInt(s, 10, 64)`. */
  function ParseInt(s: bytes): Option<int> {
    var digits := if s != [] && (s[0] == 0x2B || s[0] == 0x2D) then s[1..] else s;
    if digits == [] || !AllDigits(digits) then None
    else
      var abs: int := DecimalValue(digits);
      var n := if s[0] == 0x2D then -abs else abs;
      if IsInt64(n) then Some(n) else None
  }

  /** Digits after an optional sign. */
  function Unsigned(s: bytes): bytes { if s != [] && (s[0] == 0x2B || s[0] == 0x2D) then s[1..] else s }

  predicate IsSigned(s: bytes) { Unsigned(s) != [] && AllDigits(Unsigned(s)) }

  function SignedValue(s: bytes): int
    requires IsSigned(s)
  {
    var abs: int := DecimalValue(Unsigned(s));
    if s[0] == 0x2D then -abs else abs
  }

  /** A decimal integer of 64 bits, with or without a sign. */
  predicate IsInteger(s: bytes) { IsSigned(s) && -0x8000_0000_0000_0000 <= SignedValue(s) < 0x8000_0000_0000_0000 }

  /** Exactly these are accepted, each as what it denotes. */
  lemma ParseIntExactly(s: bytes)
    ensures ParseInt(s) == if IsInteger(s) then Some(SignedValue(s)) else None
  {
    hide DecimalValue;
  }

  function FormatInt(n: int): bytes {
    if n < 0 then [0x2D] + Decimal(-n) else Decimal(n)
  }

  lemma ParseFormatted(n: int)
    requires IsInt64(n)
    ensures ParseInt(FormatInt(n)) == Some(n)
  {
    DecimalRoundTrip(if n < 0 then -n else n);
    assert n < 0 ==> FormatInt(n)[1..] == Decimal(-n);
  }

  // ---- fixed-width integers ----

  function Pow256(k: nat): (p: nat)
    ensures p > 0
  {
    if k == 0 then 1 else 256 * Pow256(k - 1)
  }

  /** The `k` low bytes of `n`, least significant first. */
  function LittleEndian(n: nat, k: nat): (b: bytes)
    ensures |b| == k
  {
    if k == 0 then [] else [n % 256] + LittleEndian(n / 256, k - 1)
  }

  function FromLittleEndian(b: bytes): (n: nat)
    ensures n < Pow256(|b|)
  {
    if b == [] then 0 else b[0] + 256 * FromLittleEndian(b[1..])
  }

  lemma {:induction false} LittleEndianRoundTrip(n: nat, k: nat)
    requires n < Pow256(k)
    ensures FromLittleEndian(LittleEndian(n, k)) == n
  {
    if k > 0 {
      LittleEndianRoundTrip(n / 256, k - 1);
      assert LittleEndian(n, k)[1..] == LittleEndian(n / 256, k - 1);
    }
  }

  /** The `k` low bytes of `n`, most significant first. */
  function BigEndian(n: nat, k: nat): (b: bytes)
    ensures |b| == k
  {
    if k == 0 then [] else BigEndian(n / 256, k - 1) + [n % 256]
  }

  function FromBigEndian(b: bytes): (n: nat)
    ensures n < Pow256(|b|)
  {
    if b == [] then 0 else FromBigEndian(b[..|b| - 1]) * 256 + b[|b| - 1]
  }

  lemma {:induction false} BigEndianRoundTrip(n: nat, k: nat)
    requires n < Pow256(k)
    ensures FromBigEndian(BigEndian(n, k)) == n
  {
    if k > 0 {
      BigEndianRoundTrip(n / 256, k - 1);
      assert BigEndian(n, k)[..k - 1] == BigEndian(n / 256, k - 1);
    }
  }

  lemma Pow256Values()
    ensures Pow256(1) == 0x100 && Pow256(2) == 0x1_0000 && Pow256(4) == 0x1_0000_0000
    ensures Pow256(8) == 0x1_0000_0000_0000_0000
  {
    assert Pow256(3) == 256 * Pow256(2);
    assert Pow256(5) == 256 * Pow256(4);
    assert Pow256(6) == 256 * Pow256(5);
    assert Pow256(7) == 256 * Pow256(6);
  }

  /** `n` divided by 256, `i` times. */
  function Shifted(n: nat, i: nat): nat { if i == 0 then n else Shifted(n / 256, i - 1) }

  /** Byte `i` of a little-endian number is what is left of it above `i` bytes, modulo 256; a
      big-endian one is the same backwards. */
  lemma {:induction false} EndianDigits(n: nat, k: nat, i: nat)
    requires i < k
    ensures LittleEndian(n, k)[i] == Shifted(n, i) % 256
    ensures BigEndian(n, k)[k - 1 - i] == Shifted(n, i) % 256
  {
    if i > 0 { EndianDigits(n / 256, k - 1, i - 1); }
  }
}
