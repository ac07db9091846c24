/** Decimal digits: Python's `str(int)`, `int(str)`, zero padding and `str.partition`. */
module DecimalText {

  predicate IsDigit(c: char) { '0' <= c <= '9' }

  predicate AllDigits(s: string) {
    forall i | 0 <= i < |s| :: IsDigit(s[i])
  }

  function DigitText(d: nat): char
    requires d < 10
  {
    '0' + d as char
  }

  function DigitValue(c: char): (d: nat)
    requires IsDigit(c)
    ensures d < 10
  {
    (c - '0') as nat
  }

  /** `str(n)` for a non-negative `n`. */
  function NatText(n: nat): string {
    if n < 10 then [DigitText(n)] else NatText(n / 10) + [DigitText(n % 10)]
  }

  /** `int(s)` for a digit string; leading zeros count for nothing. */
  function NatValue(s: string): nat
    requires AllDigits(s)
  {
    if s == [] then 0 else NatValue(s[..|s| - 1]) * 10 + DigitValue(s[|s| - 1])
  }

  /** `str(n)` */
  function IntText(n: int): string {
    if n < 0 then "-" + NatText(-n) else NatText(n)
  }

  function Zeros(n: nat): string {
    seq(n, _ => '0')
  }

  /** `f"{n:0{width}d}"` for a non-negative `n`. */
  function Padded(n: nat, width: nat): string {
    var t := NatText(n);
    if |t| < width then Zeros(width - |t|) + t else t
  }

  lemma {:induction false} NatTextReads(n: nat)
    ensures NatText(n) != [] && AllDigits(NatText(n)) && NatValue(NatText(n)) == n
  {
    if n >= 10 {
      NatTextReads(n / 10);
      var t := NatText(n);
      assert t[..|t| - 1] == NatText(n / 10);
    } else {
      assert NatText(n)[..0] == [];
    }
  }

  /** The last digit is the units; those before it are the rest of the number. */
  lemma NatTextDigits(n: nat)
    ensures var t := NatText(n);
            && t != [] && t[|t| - 1] == "0123456789"[n % 10]
            && t[..|t| - 1] == (if n < 10 then "" else NatText(n / 10))
  {
    assert "0123456789"[n % 10] == '0' + (n % 10) as char;
    assert n < 10 ==> n % 10 == n;
  }

  lemma {:induction false} LeadingZeros(k: nat, s: string)
    requires AllDigits(s)
    ensures AllDigits(Zeros(k) + s) && NatValue(Zeros(k) + s) == NatValue(s)
  {
    if s == [] {
      assert Zeros(k) + s == Zeros(k);
      AllZeros(k);
    } else {
      LeadingZeros(k, s[..|s| - 1]);
      assert (Zeros(k) + s)[..k + |s| - 1] == Zeros(k) + s[..|s| - 1];
    }
  }

  /** Further digits written after a number. */
  function ValueOnto(base: nat, s: string): nat
    requires AllDigits(s)
  {
    if s == [] then base else ValueOnto(base, s[..|s| - 1]) * 10 + DigitValue(s[|s| - 1])
  }

  lemma {:induction false} ValueConcat(a: string, b: string)
    requires AllDigits(a) && AllDigits(b)
    ensures AllDigits(a + b) && NatValue(a + b) == ValueOnto(NatValue(a), b)
  {
    if b == [] {
      assert a + b == a;
    } else {
      ValueConcat(a, b[..|b| - 1]);
      assert (a + b)[..|a + b| - 1] == a + b[..|b| - 1];
    }
  }

  lemma OntoThree(base: nat, s: string)
    requires AllDigits(s) && |s| == 3
    ensures ValueOnto(base, s) == base * 1000 + NatValue(s)
  {
    OntoOne(base, s[..1]);
    assert s[..2][..1] == s[..1];
    assert ValueOnto(base, s[..2]) == base * 100 + NatValue(s[..2]);
  }

  lemma OntoOne(base: nat, s: string)
    requires AllDigits(s) && |s| == 1
    ensures NatValue(s) == DigitValue(s[0]) && ValueOnto(base, s) == base * 10 + NatValue(s)
  {
    assert s[..0] == [];
    assert NatValue(s[..0]) == 0 && ValueOnto(base, s[..0]) == base;
  }

  lemma OntoFour(base: nat, s: string)
    requires AllDigits(s) && |s| == 4
    ensures ValueOnto(base, s) == base * 10000 + NatValue(s)
  {
    OntoThree(base, s[..3]);
  }

  lemma {:induction false} AllZeros(k: nat)
    ensures AllDigits(Zeros(k)) && NatValue(Zeros(k)) == 0
  {
    if k > 0 {
      AllZeros(k - 1);
      assert Zeros(k)[..k - 1] == Zeros(k - 1);
    }
  }

  /** Padding keeps the number and its digits. */
  lemma PaddedReads(n: nat, width: nat)
    ensures AllDigits(Padded(n, width)) && NatValue(Padded(n, width)) == n && |Padded(n, width)| >= width
    ensures Padded(n, width) != []
  {
    hide NatText, NatValue, AllDigits;
    NatTextReads(n);
    var t := NatText(n);
    if |t| < width { LeadingZeros(width - |t|, t); }
  }

  function Pow10(k: nat): (p: nat)
    ensures p >= 1
  {
    if k == 0 then 1 else 10 * Pow10(k - 1)
  }

  /** A number below `10^width` has at most `width` digits. */
  lemma {:induction false} NatTextShort(n: nat, width: nat)
    requires n < Pow10(width) && width > 0
    ensures |NatText(n)| <= width
  {
    if n >= 10 {
      assert width > 1;
      NatTextShort(n / 10, width - 1);
    }
  }

  /** The number of leading digits. */
  function LeadingDigits(s: string): (k: nat)
    ensures k <= |s| && AllDigits(s[..k])
    ensures k < |s| ==> !IsDigit(s[k])
  {
    if s == [] || !IsDigit(s[0]) then 0 else
    var k := LeadingDigits(s[1..]);
    assert s[..k + 1] == [s[0]] + s[1..][..k];
    k + 1
  }

  lemma {:induction false} LeadingDigitsOf(digits: string, rest: string)
    requires AllDigits(digits) && (rest == [] || !IsDigit(rest[0]))
    ensures LeadingDigits(digits + rest) == |digits|
  {
    var s := digits + rest;
    var k := LeadingDigits(s);
    assert forall i | 0 <= i < |digits| :: IsDigit(s[i]);
    if rest != [] {
      assert s[|digits|] == rest[0];
    }
  }

  /** `s.partition(sep)`: the text before the first separator, whether there is one, and the rest. */
  function Partition(s: string, sep: char): (string, bool, string) {
    if s == [] then ([], false, [])
    else if s[0] == sep then ([], true, s[1..])
    else var (a, found, b) := Partition(s[1..], sep); ([s[0]] + a, found, b)
  }

  lemma {:induction false} PartitionAt(a: string, sep: char, b: string)
    requires sep !in a
    ensures Partition(a + [sep] + b, sep) == (a, true, b)
  {
    var s := a + [sep] + b;
    if a == [] {
      assert s[1..] == b;
    } else {
      assert s[1..] == a[1..] + [sep] + b && [a[0]] + a[1..] == a;
      PartitionAt(a[1..], sep, b);
    }
  }
}
