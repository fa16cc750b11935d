/** The parts of Rust's `std::fmt` that the program's output depends on:
    `{}` of an unsigned integer, `{:?}` of a `Vec<u8>`, and `{:02x}` of a byte. */
module Fmt {
  import opened Prelude

  predicate IsDigit(c: char) { '0' <= c <= '9' }

  predicate AllDigits(s: string) { forall i :: 0 <= i < |s| ==> IsDigit(s[i]) }

  function DigitChar(d: nat): (c: char)
    requires d < 10
    ensures IsDigit(c)
  {
    ('0' as int + d) as char
  }

  function DigitValue(c: char): (d: nat)
    requires IsDigit(c)
    ensures d < 10 && DigitChar(d) == c
  {
    c as int - '0' as int
  }

  /** `format!("{}", n)` for an unsigned integer: base ten, no sign, no leading zero. */
  function Decimal(n: nat): (s: string)
    ensures |s| > 0 && AllDigits(s)
    ensures |s| > 1 ==> s[0] != '0'
  {
    if n < 10 then [DigitChar(n)] else Decimal(n / 10) + [DigitChar(n % 10)]
  }

  /** Reads a string of decimal digits back as a number. */
  function ParseDecimal(s: string): nat
    requires AllDigits(s)
  {
    if |s| == 0 then 0 else 10 * ParseDecimal(s[..|s| - 1]) + DigitValue(s[|s| - 1])
  }

  lemma {:induction false} DecimalRoundTrip(n: nat)
    ensures ParseDecimal(Decimal(n)) == n
  {
    var s := Decimal(n);
    if n >= 10 {
      assert s[..|s| - 1] == Decimal(n / 10);
      DecimalRoundTrip(n / 10);
    }
  }

  /** Distinct numbers print differently. */
  lemma DecimalInjective(m: nat, n: nat)
    requires Decimal(m) == Decimal(n)
    ensures m == n
  {
    DecimalRoundTrip(m);
    DecimalRoundTrip(n);
  }

  /** The elements of a `Vec<u8>` as `{:?}` lists them: "1, 2, 3". */
  function Elements(bs: seq<byte>): string
  {
    if |bs| == 0 then ""
    else if |bs| == 1 then Decimal(bs[0] as nat)
    else Decimal(bs[0] as nat) + ", " + Elements(bs[1..])
  }

  /** `format!("{:?}", v)` for a `Vec<u8>`: "[1, 2, 3]", and "[]" when empty. */
  function DebugBytes(bs: seq<byte>): string
  {
    "[" + Elements(bs) + "]"
  }

  lemma ConcatAt(a: string, r: string, i: int)
    ensures 0 <= i < |a| ==> (a + r)[i] == a[i]
    ensures |a| <= i < |a| + |r| ==> (a + r)[i] == r[i - |a|]
  {
  }

  /** Two digit runs, each followed by a non-digit, that spell the same text are the same run. */
  lemma DigitRunsAgree(a: string, r1: string, b: string, r2: string)
    requires |a| > 0 && |b| > 0 && AllDigits(a) && AllDigits(b)
    requires |r1| > 0 && |r2| > 0 && !IsDigit(r1[0]) && !IsDigit(r2[0])
    requires a + r1 == b + r2
    ensures a == b && r1 == r2
  {
    if |a| < |b| {
      ConcatAt(a, r1, |a|);
      ConcatAt(b, r2, |a|);
      assert false;
    } else if |b| < |a| {
      ConcatAt(a, r1, |b|);
      ConcatAt(b, r2, |b|);
      assert false;
    }
    assert a == (a + r1)[..|a|];
    assert b == (b + r2)[..|b|];
    assert r1 == (a + r1)[|a|..];
    assert r2 == (b + r2)[|b|..];
  }

  /** A listing of bytes, its closing bracket and whatever text follows it. */
  function Listing(xs: seq<byte>, t: string): string
  {
    Elements(xs) + "]" + t
  }

  lemma ListingUnfold(xs: seq<byte>, t: string)
    ensures |xs| == 0 ==> Listing(xs, t) == "]" + t
    ensures |xs| == 1 ==> Listing(xs, t) == Decimal(xs[0] as nat) + ("]" + t)
    ensures |xs| > 1 ==> Listing(xs, t) == Decimal(xs[0] as nat) + (", " + Listing(xs[1..], t))
  {
  }

  /** The text that follows the first element of a listing. */
  function AfterFirst(xs: seq<byte>, t: string): string
    requires |xs| > 0
  {
    if |xs| == 1 then "]" + t else ", " + Listing(xs[1..], t)
  }

  /** A closing bracket ends a listing unambiguously: the text determines both the
      bytes listed and whatever follows the bracket. */
  lemma {:induction false} ListingInjective(xs: seq<byte>, t1: string, ys: seq<byte>, t2: string)
    requires Listing(xs, t1) == Listing(ys, t2)
    ensures xs == ys && t1 == t2
  {
    ListingUnfold(xs, t1);
    ListingUnfold(ys, t2);
    if |xs| == 0 && |ys| == 0 {
      assert t1 == ("]" + t1)[1..] && t2 == ("]" + t2)[1..];
    } else if |xs| == 0 {
      ConcatAt("]", t1, 0);
      assert false;
    } else if |ys| == 0 {
      ConcatAt("]", t2, 0);
      assert false;
    } else {
      var r1, r2 := AfterFirst(xs, t1), AfterFirst(ys, t2);
      DigitRunsAgree(Decimal(xs[0] as nat), r1, Decimal(ys[0] as nat), r2);
      DecimalInjective(xs[0] as nat, ys[0] as nat);
      if |xs| == 1 && |ys| == 1 {
        assert t1 == r1[1..] && t2 == r2[1..];
      } else if |xs| == 1 {
        assert false;
      } else if |ys| == 1 {
        assert false;
      } else {
        assert Listing(xs[1..], t1) == r1[2..] && Listing(ys[1..], t2) == r2[2..];
        ListingInjective(xs[1..], t1, ys[1..], t2);
        assert xs == [xs[0]] + xs[1..] && ys == [ys[0]] + ys[1..];
      }
    }
  }

  function HexDigit(d: nat): (c: char)
    requires d < 16
  {
    if d < 10 then DigitChar(d) else ('a' as int + (d - 10)) as char
  }

  /** `format!("{:02x}", b)`: two lower-case hexadecimal digits. */
  function Hex2(b: byte): (s: string)
    ensures |s| == 2
  {
    [HexDigit(b as nat / 16), HexDigit(b as nat % 16)]
  }
}
