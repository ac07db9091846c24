/**
 The grammar of a G10 line, given once more as plain concatenations: what the strict parser accepts, and
 as what.
 */
module G10Grammar {
  import opened Wrappers
  import opened DecimalText
  import opened FocasModels
  import opened G10Text
  import opened PlainText

  // ---------------------------------------------------------------- the forms

  /** `\d+` */
  ghost predicate Numeral(text: string, n: nat) {
    text != "" && AllDigits(text) && NatValue(text) == n
  }

  function Sign(negative: bool): string { if negative then "-" else "" }

  ghost predicate Digits(text: string) {
    text != "" && AllDigits(text)
  }

  /** `-?\d+\.\d+` */
  ghost predicate NumberParts(text: string, d: Decimal, whole: string, frac: string) {
    && Digits(whole) && Digits(frac) && AllDigits(whole + frac)
    && text == Sign(d.negative) + (whole + ("." + frac))
    && d.digits == NatValue(whole + frac) && d.places == |frac|
  }

  ghost predicate NumberText(text: string, d: Decimal) {
    exists whole, frac :: NumberParts(text, d, whole, frac)
  }

  /** The manual's L codes (B-64604EN-2/01, section 6.10). */
  ghost predicate HasCode(bank: RegisterType, code: char) {
    match bank
    case HGeom => code == '0'
    case HWear => code == '1'
    case DGeom => code == '2'
    case DWear => code == '3'
    case _ => false
  }

  /** `G10 L1c P<n> R<v>` */
  ghost predicate MillParts(s: string, bank: RegisterType, n: nat, v: Decimal, code: char, p: string, r: string) {
    HasCode(bank, code) && Numeral(p, n) && NumberText(r, v) && s == "G10 L1" + ([code] + (" P" + (p + (" R" + r))))
  }

  ghost predicate MillForm(s: string, bank: RegisterType, n: nat, v: Decimal) {
    exists code, p, r :: MillParts(s, bank, n, v, code, p, r)
  }

  /** ` Q<tip>`, or nothing. */
  ghost predicate TipForm(s: string, q: Option<nat>) {
    match q
    case None => s == ""
    case Some(tip) => |s| > 2 && s[..2] == " Q" && Numeral(s[2..], tip)
  }

  datatype LatheTexts = LatheTexts(p: string, x: string, z: string, r: string, tip: string)

  /** `G10 P<p> X<x> Z<z> R<r>` and the tip. */
  ghost predicate LatheParts(s: string, p: nat, x: Decimal, z: Decimal, r: Decimal, q: Option<nat>, t: LatheTexts) {
    && Numeral(t.p, p) && NumberText(t.x, x) && NumberText(t.z, z) && NumberText(t.r, r) && TipForm(t.tip, q)
    && s == "G10 P" + (t.p + (" X" + (t.x + (" Z" + (t.z + (" R" + (t.r + t.tip)))))))
  }

  ghost predicate LatheForm(s: string, p: nat, x: Decimal, z: Decimal, r: Decimal, q: Option<nat>) {
    exists t :: LatheParts(s, p, x, z, r, q, t)
  }

  /** Anything between parentheses. */
  ghost predicate Parenthesised(s: string) {
    |s| >= 2 && s[0] == '(' && s[|s| - 1] == ')'
  }

  /** `O<n>(...)` */
  ghost predicate NumberedProgram(s: string) {
    exists k :: 1 < k <= |s| && s[0] == 'O' && AllDigits(s[1..k]) && Parenthesised(s[k..])
  }

  /** Lines that write nothing. */
  ghost predicate QuietForm(s: string) {
    || s == "" || s == "%" || s == "G20" || s == "G21" || s == "G90" || s == "M30"
    || Parenthesised(s) || NumberedProgram(s)
  }

  // ---------------------------------------------------------------- numerals and numbers

  lemma ReadNatIff(s: string, n: nat, rest: string)
    ensures ReadNat(s) == Some((n, rest)) ==>
              |rest| < |s| && s[|s| - |rest|..] == rest && Numeral(s[..|s| - |rest|], n) && StopsDigits(rest)
  {
    var k := LeadingDigits(s);
    if ReadNat(s) == Some((n, rest)) {
      assert rest == s[k..] && |s| - |rest| == k;
      if rest != [] { assert rest[0] == s[k]; }
    }
  }

  lemma NumeralReads(p: string, n: nat, rest: string)
    requires Numeral(p, n) && StopsDigits(rest)
    ensures ReadNat(p + rest) == Some((n, rest))
  {
    TakesDigits(p, rest);
  }

  /** What is read as a number is one, and it stops where its digits do. */
  lemma MagnitudeIsText(s: string)
    ensures ReadMagnitude(s).Some? ==>
              var (d, rest) := ReadMagnitude(s).value;
              && !d.negative && |rest| < |s| && s[|s| - |rest|..] == rest && StopsDigits(rest)
              && NumberText(s[..|s| - |rest|], d) && IsDigit(s[0])
  {
    if ReadMagnitude(s).Some? {
      var k := LeadingDigits(s);
      var after := Expect(s[k..], ".").value;
      var p := LeadingDigits(after);
      var whole, frac, rest := s[..k], after[..p], after[p..];
      ValueConcat(whole, frac);
      var d := ReadMagnitude(s).value.0;
      assert d == Decimal(false, NatValue(whole + frac), p) && ReadMagnitude(s).value.1 == rest;
      assert rest != [] ==> rest[0] == after[p];
      hide ReadMagnitude, NatValue;
      assert s[k..] == "." + after && s == whole + s[k..] && after == frac + rest;
      var t := whole + ("." + frac);
      assert s == t + rest;
      assert NumberParts(t, d, whole, frac);
      assert s[..|s| - |rest|] == t;
    }
  }

  lemma NegatedText(t: string, d: Decimal)
    requires NumberText(t, d) && !d.negative
    ensures NumberText("-" + t, d.(negative := true))
  {
    hide NatValue, AllDigits;
    var whole, frac :| NumberParts(t, d, whole, frac);
    assert NumberParts("-" + t, d.(negative := true), whole, frac);
  }

  lemma NumberIsText(s: string)
    ensures ReadNumber(s).Some? ==>
              var (d, rest) := ReadNumber(s).value;
              |rest| < |s| && s[|s| - |rest|..] == rest && StopsDigits(rest) && NumberText(s[..|s| - |rest|], d)
  {
    hide ReadMagnitude, NumberText, StopsDigits;
    if s != [] && s[0] == '-' {
      MagnitudeIsText(s[1..]);
      if ReadMagnitude(s[1..]).Some? {
        var (m, rest) := ReadMagnitude(s[1..]).value;
        var t := s[1..][..|s| - 1 - |rest|];
        NegatedText(t, m);
        assert s[..|s| - |rest|] == "-" + t;
        assert s[|s| - |rest|..] == s[1..][|s| - 1 - |rest|..];
      }
    } else {
      MagnitudeIsText(s);
    }
  }

  lemma NumberReads(t: string, d: Decimal, rest: string)
    requires NumberText(t, d) && StopsDigits(rest)
    ensures ReadNumber(t + rest) == Some((d, rest))
  {
    var whole, frac :| NumberParts(t, d, whole, frac);
    var body := whole + ("." + frac);
    ReadMagnitudeOf(whole, frac, rest);
    hide ReadMagnitude;
    assert body[0] == whole[0];
    SignedRead(d.negative, body, rest);
    assert t == (if d.negative then "-" else "") + body;
  }

  lemma ExpectIff(s: string, literal: string)
    ensures Expect(s, literal).Some? ==> s == literal + Expect(s, literal).value
  {
  }

  // ---------------------------------------------------------------- mill lines

  lemma CodeIff(code: char, bank: RegisterType)
    ensures BankOfL(code) == Some(bank) <==> HasCode(bank, code)
  {
  }

  lemma MillParsesAsForm(s: string)
    ensures ParseMill(s).Some? ==>
              ParseMill(s).value.MillBlock?
              && MillForm(s, ParseMill(s).value.bank, ParseMill(s).value.register, ParseMill(s).value.value)
  {
    hide ReadNat, ReadNumber, Expect, NumberText;
    if ParseMill(s).Some? {
      var b := ParseMill(s).value;
      var c0 := Expect(s, "G10 L1").value;
      ExpectIff(s, "G10 L1");
      ExpectIff(c0[1..], " P");
      var c1 := Expect(c0[1..], " P").value;
      var (n, c2) := ReadNat(c1).value;
      ReadNatIff(c1, n, c2);
      ExpectIff(c2, " R");
      var c3 := Expect(c2, " R").value;
      NumberIsText(c3);
      var (v, c4) := ReadNumber(c3).value;
      assert c4 == "" && c3[..|c3| - |c4|] == c3;
      CodeIff(c0[0], b.bank);
      var p := c1[..|c1| - |c2|];
      assert c0 == [c0[0]] + c0[1..] && c1 == p + c2;
      assert MillParts(s, b.bank, b.register, b.value, c0[0], p, c3);
    }
  }

  lemma FormParsesAsMill(s: string, bank: RegisterType, n: nat, v: Decimal)
    requires MillForm(s, bank, n, v)
    ensures ParseMill(s) == Some(MillBlock(bank, n, v))
    ensures |s| > 4 && s[..4] == "G10 " && s[4] == 'L' && IsDigit(s[|s| - 1])
  {
    hide ReadNat, ReadNumber, Expect, NumberText;
    var code, p, r :| MillParts(s, bank, n, v, code, p, r);
    var d := " R" + r;
    var c := " P" + (p + d);
    ExpectFinds("G10 L1", [code] + c);
    assert ([code] + c)[1..] == c && ([code] + c)[0] == code;
    CodeIff(code, bank);
    ExpectFinds(" P", p + d);
    NumeralReads(p, n, d);
    ExpectFinds(" R", r);
    NumberReads(r, v, "");
    assert r + "" == r;
    NumberEnds(r, v);
    assert s == ("G10 L1" + [code] + " P" + p + " R") + r;
  }

  lemma NumberEnds(t: string, d: Decimal)
    requires NumberText(t, d)
    ensures t != "" && IsDigit(t[|t| - 1])
  {
    var whole, frac :| NumberParts(t, d, whole, frac);
    assert t == (Sign(d.negative) + whole + ".") + frac;
  }

  // ---------------------------------------------------------------- lathe lines

  lemma TipIff(s: string, q: Option<nat>)
    ensures ParseTip(s) == Some(q) <==> TipForm(s, q)
  {
    hide ReadNat;
    if TipForm(s, q) && q.Some? {
      NumeralReads(s[2..], q.value, "");
      assert s[2..] + "" == s[2..] && s == " Q" + s[2..];
      ExpectFinds(" Q", s[2..]);
    }
    if ParseTip(s) == Some(q) && s != [] {
      ExpectIff(s, " Q");
      var a := Expect(s, " Q").value;
      var (tip, rest) := ReadNat(a).value;
      ReadNatIff(a, tip, rest);
      assert s[..2] == " Q" && s[2..] == a && a[..|a| - |rest|] == a;
    }
  }

  lemma AddressIsText(s: string, literal: string)
    ensures ReadAddress(s, literal).Some? ==>
              var (d, rest) := ReadAddress(s, literal).value;
              exists t :: NumberText(t, d) && s == literal + (t + rest)
  {
    hide ReadNumber, NumberText;
    if ReadAddress(s, literal).Some? {
      ExpectIff(s, literal);
      var a := Expect(s, literal).value;
      NumberIsText(a);
      var (d, rest) := ReadNumber(a).value;
      var t := a[..|a| - |rest|];
      assert a == t + rest;
    }
  }

  lemma TextIsAddress(literal: string, t: string, d: Decimal, rest: string)
    requires NumberText(t, d) && StopsDigits(rest)
    ensures ReadAddress(literal + (t + rest), literal) == Some((d, rest))
  {
    ExpectFinds(literal, t + rest);
    NumberReads(t, d, rest);
  }

  lemma LatheParsesAsForm(s: string)
    ensures ParseLathe(s).Some? ==>
              && ParseLathe(s).value.LatheBlock?
              && var b := ParseLathe(s).value; LatheForm(s, b.p, b.x, b.z, b.r, b.q)
  {
    hide ReadNat, ReadAddress, Expect, NumberText, ParseTip;
    if ParseLathe(s).Some? {
      var b := ParseLathe(s).value;
      ExpectIff(s, "G10 P");
      var c0 := Expect(s, "G10 P").value;
      var (p, c1) := ReadNat(c0).value;
      ReadNatIff(c0, p, c1);
      AddressIsText(c1, " X");
      var (x, c2) := ReadAddress(c1, " X").value;
      var tx :| NumberText(tx, x) && c1 == " X" + (tx + c2);
      AddressIsText(c2, " Z");
      var (z, c3) := ReadAddress(c2, " Z").value;
      var tz :| NumberText(tz, z) && c2 == " Z" + (tz + c3);
      AddressIsText(c3, " R");
      var (r, c4) := ReadAddress(c3, " R").value;
      var tr :| NumberText(tr, r) && c3 == " R" + (tr + c4);
      TipIff(c4, b.q);
      var tp := c0[..|c0| - |c1|];
      assert c0 == tp + c1;
      assert LatheParts(s, b.p, b.x, b.z, b.r, b.q, LatheTexts(tp, tx, tz, tr, c4));
    }
  }

  lemma TipStops(s: string, q: Option<nat>)
    requires TipForm(s, q)
    ensures StopsDigits(s) && (s != "" ==> IsDigit(s[|s| - 1]))
  {
    if q.Some? {
      assert s[0] == s[..2][0] == ' ';
      assert s[|s| - 1] == s[2..][|s| - 3];
    }
  }

  lemma FormParsesAsLathe(s: string, p: nat, x: Decimal, z: Decimal, r: Decimal, q: Option<nat>)
    requires LatheForm(s, p, x, z, r, q)
    ensures ParseLathe(s) == Some(LatheBlock(p, x, z, r, q))
    ensures |s| > 4 && s[..4] == "G10 " && s[4] == 'P' && IsDigit(s[|s| - 1])
  {
    hide ReadNat, ReadAddress, Expect, NumberText, ParseTip;
    var t :| LatheParts(s, p, x, z, r, q, t);
    TipStops(t.tip, q);
    var r' := " R" + (t.r + t.tip);
    var z' := " Z" + (t.z + r');
    var x' := " X" + (t.x + z');
    assert s == "G10 P" + (t.p + x');
    ExpectFinds("G10 P", t.p + x');
    NumeralReads(t.p, p, x');
    TextIsAddress(" X", t.x, x, z');
    TextIsAddress(" Z", t.z, z, r');
    TextIsAddress(" R", t.r, r, t.tip);
    TipIff(t.tip, q);
    hide TipForm;
    NumberEnds(t.r, r);
    var last := t.r + t.tip;
    assert s == ("G10 P" + t.p + " X" + t.x + " Z" + t.z + " R") + last;
    assert last[|last| - 1] == if t.tip == "" then t.r[|t.r| - 1] else t.tip[|t.tip| - 1];
    assert s[|s| - 1] == last[|last| - 1];
  }

  // ---------------------------------------------------------------- quiet lines

  lemma ProgramAt(s: string, k: nat)
    requires 1 < k <= |s| && s[0] == 'O' && AllDigits(s[1..k]) && Parenthesised(s[k..])
    ensures IsProgramLine(s)
  {
    var digits, rest := s[1..k], s[k..];
    assert rest[0] == '(';
    LeadingDigitsOf(digits, rest);
    hide AllDigits, LeadingDigits;
    assert s[1..] == digits + rest;
  }

  lemma ProgramHasDigits(s: string)
    requires IsProgramLine(s)
    ensures NumberedProgram(s)
  {
    var k := 1 + LeadingDigits(s[1..]);
    hide LeadingDigits, AllDigits;
    assert s[1..k] == s[1..][..k - 1];
  }

  lemma ProgramIff(s: string)
    ensures IsProgramLine(s) <==> NumberedProgram(s)
  {
    hide IsProgramLine, AllDigits, Parenthesised;
    if IsProgramLine(s) { ProgramHasDigits(s); }
    if k: int :| 1 < k <= |s| && s[0] == 'O' && AllDigits(s[1..k]) && Parenthesised(s[k..]) { ProgramAt(s, k); }
  }

  lemma PassesIff(s: string)
    ensures s == "" || PassesThrough(s) <==> QuietForm(s)
  {
    ProgramIff(s);
    hide IsProgramLine, NumberedProgram;
  }

  lemma BlockIsNotQuiet(s: string)
    requires |s| > 4 && s[..4] == "G10 " && IsDigit(s[|s| - 1])
    ensures !QuietForm(s)
  {
    assert s[0] == s[..4][0] == 'G';
  }

  /** The grammar, exactly: what a line without the white space around it is parsed as. */
  lemma ParseLineIff(raw: string)
    ensures var s, b := Strip(raw), ParseLine(raw);
            && (b == Quiet <==> QuietForm(s))
            && (forall bank, n, v :: b == MillBlock(bank, n, v) <==> MillForm(s, bank, n, v))
            && (forall p, x, z, r, q :: b == LatheBlock(p, x, z, r, q) <==> LatheForm(s, p, x, z, r, q))
  {
    var s, b := Strip(raw), ParseLine(raw);
    PassesIff(s);
    MillParsesAsForm(s);
    LatheParsesAsForm(s);
    assert ParseMill(s).None? || ParseMill(s).value.MillBlock?;
    hide PassesThrough, ParseMill, ParseLathe, QuietForm, MillForm, LatheForm, Strip;
    forall bank, n, v ensures b == MillBlock(bank, n, v) <==> MillForm(s, bank, n, v) {
      if MillForm(s, bank, n, v) {
        FormParsesAsMill(s, bank, n, v);
        BlockIsNotQuiet(s);
      }
    }
    forall p, x, z, r, q ensures b == LatheBlock(p, x, z, r, q) <==> LatheForm(s, p, x, z, r, q) {
      if LatheForm(s, p, x, z, r, q) {
        FormParsesAsLathe(s, p, x, z, r, q);
        BlockIsNotQuiet(s);
        if ParseMill(s).Some? {
          FormParsesAsMill(s, ParseMill(s).value.bank, ParseMill(s).value.register, ParseMill(s).value.value);
          assert false;
        }
      }
    }
  }
}
