/** Strings: their order, and decimal numerals. */
module Text {
  import opened Common
  import Bytes

  /** The order of Go's `<` on strings. */
  predicate Less(a: string, b: string) {
    b != "" && (a == "" || a[0] < b[0] || (a[0] == b[0] && Less(a[1..], b[1..])))
  }

  lemma {:induction false} LessTransitive(a: string, b: string, c: string)
    requires Less(a, b) && Less(b, c)
    ensures Less(a, c)
    decreases |a|
  {
    if a != "" && a[0] == b[0] == c[0] { LessTransitive(a[1..], b[1..], c[1..]); }
  }

  lemma {:induction false} LessTotal(a: string, b: string)
    ensures Less(a, b) || Less(b, a) || a == b
    ensures !(Less(a, b) && Less(b, a)) && !Less(a, a)
    decreases |a|
  {
    if a != "" {
      LessIrreflexive(a);
      if b != "" && a[0] == b[0] {
        LessTotal(a[1..], b[1..]);
        assert a == [a[0]] + a[1..] && b == [b[0]] + b[1..];
      }
    }
  }

  lemma {:induction false} LessIrreflexive(a: string)
    ensures !Less(a, a)
    decreases |a|
  {
    if a != "" { LessIrreflexive(a[1..]); }
  }

  /** The two agree before `i`, where `a` ends or has the smaller character. */
  ghost predicate FirstDifference(a: string, b: string, i: nat) {
    i <= |a| && i < |b| && a[..i] == b[..i] && (i == |a| || a[i] < b[i])
  }

  lemma {:induction false} LessExactly(a: string, b: string)
    ensures Less(a, b) <==> exists i: nat :: FirstDifference(a, b, i)
    decreases |a|
  {
    forall i: nat | i > 0 && FirstDifference(a, b, i) ensures a != "" && b != "" && a[0] == b[0] {
      assert a[0] == a[..i][0] && b[0] == b[..i][0];
    }
    if a != "" && b != "" && a[0] == b[0] {
      LessExactly(a[1..], b[1..]);
      if i: nat :| FirstDifference(a[1..], b[1..], i) {
        assert a[..i + 1] == [a[0]] + a[1..][..i] && b[..i + 1] == [b[0]] + b[1..][..i];
        assert FirstDifference(a, b, i + 1);
      }
      if i: nat :| FirstDifference(a, b, i) {
        assert i > 0;
        assert a[1..][..i - 1] == a[..i][1..] && b[1..][..i - 1] == b[..i][1..];
        assert FirstDifference(a[1..], b[1..], i - 1);
      }
    } else {
      if Less(a, b) { assert FirstDifference(a, b, 0); }
    }
  }

  // ---- text as bytes ----

  function Chars(b: Bytes.bytes): (s: string)
    ensures |s| == |b|
  {
    seq(|b|, i requires 0 <= i < |b| => b[i] as char)
  }

  /** The codes of a text; a character beyond a byte counts as zero, which no numeral has. */
  function Codes(s: string): (b: Bytes.bytes)
    ensures |b| == |s|
  {
    seq(|s|, i requires 0 <= i < |s| => if s[i] < '\U{100}' then s[i] as int else 0)
  }

  lemma CodesOfChars(b: Bytes.bytes)
    ensures Codes(Chars(b)) == b
  {
  }

  // ---- decimal ----

  predicate AllDigits(s: string) { Bytes.AllDigits(Codes(s)) }

  function Decimal(n: nat): (s: string)
    ensures s != "" && forall i :: 0 <= i < |s| ==> '0' <= s[i] <= '9'
  {
    Chars(Bytes.Decimal(n))
  }

  /** The number a run of digits stands for. */
  function DecimalValue(s: string): nat
    requires AllDigits(s)
  {
    Bytes.DecimalValue(Codes(s))
  }

  lemma DecimalRoundTrip(n: nat)
    ensures AllDigits(Decimal(n)) && DecimalValue(Decimal(n)) == n
  {
    CodesOfChars(Bytes.Decimal(n));
    Bytes.DecimalRoundTrip(n);
  }

  lemma DecimalInjective(m: nat, n: nat)
    requires Decimal(m) == Decimal(n)
    ensures m == n
  {
    DecimalRoundTrip(m);
    DecimalRoundTrip(n);
  }

  lemma MoreDigits(n: nat)
    ensures n >= 10 ==> |Decimal(n)| == |Decimal(n / 10)| + 1 >= 2
    ensures n < 10 ==> |Decimal(n)| == 1
  {
  }

  /** `strconv.Atoi`. */
  function Atoi(s: string): Option<int> { Bytes.ParseInt(Codes(s)) }

  lemma AtoiReads(n: nat)
    requires Bytes.IsInt64(n)
    ensures Atoi(Decimal(n)) == Some(n)
  {
    CodesOfChars(Bytes.Decimal(n));
    Bytes.ParseFormatted(n);
  }
}
