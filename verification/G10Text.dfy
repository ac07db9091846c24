/**
 The characters of a G10 program (`apps/tooling/api/services/g10.py`): number formatting and
 reading, comments, lines, and the strict line grammar.
 */
module G10Text {
  import opened Wrappers
  import opened DecimalText
  import opened PlainText
  import opened FocasModels

  // ---------------------------------------------------------------- values

  /** Python's `Decimal`: sign, digits, and how many of them follow the point. */
  datatype Decimal = Decimal(negative: bool, digits: nat, places: nat)

  /** The number in 0.0001 units. */
  function Counts(d: Decimal): int
    requires d.places <= 4
  {
    var magnitude := d.digits * [10000, 1000, 100, 10, 1][d.places];
    if d.negative then -magnitude else magnitude
  }

  /** Round a magnitude in 0.0001 units to 0.001 units, ties to even: what `:.3f` does to a Decimal. */
  function RoundToMm(a: nat): nat {
    if a % 10 > 5 || (a % 10 == 5 && a / 10 % 2 == 1) then a / 10 + 1 else a / 10
  }

  predicate KnownUnit(unit: string) {
    unit == "inch" || unit == "mm"
  }

  /** A stored value (in 0.0001 units) rounded to the unit's printed places. */
  function Rounded(v: int, unit: string): Decimal {
    var a: nat := if v < 0 then -v else v;
    if unit == "inch" then Decimal(v < 0, a, 4) else Decimal(v < 0, RoundToMm(a), 3)
  }

  /** An inch table is exported exactly; a metric one to the nearest 0.001, off by at most half of it. */
  lemma RoundedClose(v: int, unit: string)
    ensures unit == "inch" ==> Counts(Rounded(v, unit)) == v
    ensures -5 <= Counts(Rounded(v, unit)) - v <= 5
    ensures unit != "inch" && v % 10 == 0 ==> Counts(Rounded(v, unit)) == v
    ensures Counts(Rounded(0, unit)) == 0
  {
  }

  /** And off by half of it only to an even last digit. */
  lemma TiesToEven(v: int)
    requires Counts(Rounded(v, "mm")) - v == 5 || Counts(Rounded(v, "mm")) - v == -5
    ensures Rounded(v, "mm").digits % 2 == 0
  {
    var a := if v < 0 then -v else v;
    assert Counts(Rounded(v, "mm")) == if v < 0 then -10 * RoundToMm(a) else 10 * RoundToMm(a);
  }

  /** The two digit groups of a printed value; the second has exactly `places` digits. */
  function WholeText(d: Decimal): string {
    NatText(if d.places == 3 then d.digits / 1000 else d.digits / 10000)
  }

  function FractionText(d: Decimal): string {
    Padded(if d.places == 3 then d.digits % 1000 else d.digits % 10000, d.places)
  }

  /** `f"{value:.{decimals}f}"`: always a decimal point, the sign kept even when it rounds to zero. */
  function FormatValue(v: int, unit: string): string {
    var d := Rounded(v, unit);
    (if d.negative then "-" else "") + (WholeText(d) + ("." + FractionText(d)))
  }

  /** A printed value: a minus sign exactly for a negative one, and four decimals in inches, three else. */
  lemma FormatSays(v: int, unit: string) returns (whole: string, frac: string)
    ensures FormatValue(v, unit) == (if v < 0 then "-" else "") + (whole + ("." + frac))
    ensures AllDigits(whole) && whole != "" && AllDigits(frac) && |frac| == if unit == "inch" then 4 else 3
  {
    var d := Rounded(v, unit);
    whole, frac := WholeText(d), FractionText(d);
    DigitsRejoin(d);
  }

  // ---------------------------------------------------------------- reading

  function Expect(s: string, literal: string): Option<string> {
    if literal <= s then Some(s[|literal|..]) else None
  }

  /** `(\d+)` */
  function ReadNat(s: string): Option<(nat, string)> {
    var k := LeadingDigits(s);
    if k == 0 then None else Some((NatValue(s[..k]), s[k..]))
  }

  /** `(\d+\.\d+)` */
  function ReadMagnitude(s: string): Option<(Decimal, string)> {
    var k := LeadingDigits(s);
    if k == 0 then None else
    var dot := Expect(s[k..], ".");
    if dot.None? then None else
    var p := LeadingDigits(dot.value);
    if p == 0 then None else
    ValueConcat(s[..k], dot.value[..p]);
    Some((Decimal(false, NatValue(s[..k] + dot.value[..p]), p), dot.value[p..]))
  }

  /** `(-?\d+\.\d+)` */
  function ReadNumber(s: string): Option<(Decimal, string)> {
    if s != [] && s[0] == '-' then
      var m := ReadMagnitude(s[1..]);
      if m.None? then None else Some((m.value.0.(negative := true), m.value.1))
    else ReadMagnitude(s)
  }

  lemma ExpectFinds(literal: string, rest: string)
    ensures Expect(literal + rest, literal) == Some(rest)
  {
    assert (literal + rest)[|literal|..] == rest;
  }

  ghost predicate StopsDigits(rest: string) {
    rest == [] || !IsDigit(rest[0])
  }

  lemma TakesDigits(digits: string, rest: string)
    requires AllDigits(digits) && StopsDigits(rest)
    ensures LeadingDigits(digits + rest) == |digits|
    ensures (digits + rest)[..|digits|] == digits && (digits + rest)[|digits|..] == rest
  {
    LeadingDigitsOf(digits, rest);
  }

  lemma ReadNatOfText(n: nat, rest: string)
    requires StopsDigits(rest)
    ensures ReadNat(NatText(n) + rest) == Some((n, rest))
  {
    NatTextReads(n);
    TakesDigits(NatText(n), rest);
  }

  lemma ReadMagnitudeOf(whole: string, frac: string, rest: string)
    requires AllDigits(whole) && whole != [] && AllDigits(frac) && frac != [] && StopsDigits(rest)
    ensures AllDigits(whole + frac)
    ensures ReadMagnitude((whole + ("." + frac)) + rest) == Some((Decimal(false, NatValue(whole + frac), |frac|), rest))
  {
    ValueConcat(whole, frac);
    assert (whole + ("." + frac)) + rest == whole + ("." + (frac + rest));
    TakesDigits(whole, "." + (frac + rest));
    ExpectFinds(".", frac + rest);
    TakesDigits(frac, rest);
  }

  lemma DigitsRejoin(d: Decimal)
    requires d.places == 3 || d.places == 4
    ensures AllDigits(WholeText(d)) && WholeText(d) != [] && AllDigits(FractionText(d))
    ensures |FractionText(d)| == d.places
    ensures AllDigits(WholeText(d) + FractionText(d)) && NatValue(WholeText(d) + FractionText(d)) == d.digits
  {
    assert Pow10(3) == 1000 && Pow10(4) == 10000;
    var whole := if d.places == 3 then d.digits / 1000 else d.digits / 10000;
    var frac := if d.places == 3 then d.digits % 1000 else d.digits % 10000;
    NatTextReads(whole);
    PaddedReads(frac, d.places);
    NatTextShort(frac, d.places);
    ValueConcat(WholeText(d), FractionText(d));
    if d.places == 3 { OntoThree(whole, FractionText(d)); } else { OntoFour(whole, FractionText(d)); }
  }

  /** Reading a printed value gives back the number it denotes and leaves what follows. */
  lemma ReadNumberFinds(v: int, unit: string, rest: string)
    requires StopsDigits(rest)
    ensures ReadNumber(FormatValue(v, unit) + rest) == Some((Rounded(v, unit), rest))
  {
    var d := Rounded(v, unit);
    DigitsRejoin(d);
    ReadMagnitudeOf(WholeText(d), FractionText(d), rest);
    SignedRead(d.negative, WholeText(d) + ("." + FractionText(d)), rest);
  }

  lemma SignedRead(negative: bool, body: string, rest: string)
    requires body != [] && IsDigit(body[0]) && ReadMagnitude(body + rest).Some?
    ensures var m := ReadMagnitude(body + rest).value;
            ReadNumber(((if negative then "-" else "") + body) + rest)
            == Some((m.0.(negative := if negative then true else m.0.negative), m.1))
  {
    if negative {
      assert ("-" + body) + rest == "-" + (body + rest);
      assert ("-" + (body + rest))[1..] == body + rest;
    } else {
      assert "" + body == body;
      assert (body + rest)[0] == body[0];
    }
  }

  // ---------------------------------------------------------------- comments

  /** Full case mapping: one character may become several. */
  type CaseMap = char -> string

  function Upper(s: string, upper: CaseMap): string {
    if s == [] then [] else Upper(s[..|s| - 1], upper) + upper(s[|s| - 1])
  }

  /** Capitals letter by letter. */
  lemma {:induction false} UpperIs(a: string, c: char, upper: CaseMap)
    ensures Upper("", upper) == "" && Upper(a + [c], upper) == Upper(a, upper) + upper(c)
  {
    assert (a + [c])[..|a|] == a;
  }

  /** The characters a punch comment may hold. */
  predicate Allowed(c: char) {
    'A' <= c <= 'Z' || '0' <= c <= '9' || c in " .+/#-"
  }

  /** Every other character becomes a dash. */
  function Substitute(s: string): (r: string)
    ensures |r| == |s| && forall i | 0 <= i < |r| :: Allowed(r[i])
  {
    seq(|s|, i requires 0 <= i < |s| => if Allowed(s[i]) then s[i] else '-')
  }

  function CommentText(s: string, upper: CaseMap): string {
    Substitute(Upper(s, upper))
  }

  function Comment(s: string, upper: CaseMap): string {
    "(" + CommentText(s, upper) + ")"
  }

  /** What a punch comment may hold: capitals, digits, the blank and five marks. */
  ghost predicate PunchChar(c: char) {
    c in "ABCDEFGHIJKLMNOPQRSTUVWXYZ" || c in "0123456789" || c in " .+/#-"
  }

  const CAPITALS := "ABCDEFGHIJKLMNOPQRSTUVWXYZ"
  const DIGITS := "0123456789"

  lemma CapitalIff(c: char)
    ensures 'A' <= c <= 'Z' <==> c in CAPITALS
  {
    assert |CAPITALS| == 26;
    if 'A' <= c <= 'Z' { assert CAPITALS[(c - 'A') as int] == c; }
  }

  lemma DigitIff(c: char)
    ensures '0' <= c <= '9' <==> c in DIGITS
  {
    assert |DIGITS| == 10;
    if '0' <= c <= '9' { assert DIGITS[(c - '0') as int] == c; }
  }

  lemma AllowedIff(c: char)
    ensures Allowed(c) <==> PunchChar(c)
  {
    CapitalIff(c);
    DigitIff(c);
  }

  /** A comment is its text in capitals between parentheses, a dash for each character it may not hold. */
  lemma CommentReads(s: string, upper: CaseMap)
    ensures var c, u := Comment(s, upper), Upper(s, upper);
            && |c| == |u| + 2 && c[0] == '(' && c[|c| - 1] == ')'
            && forall i | 0 <= i < |u| :: c[i + 1] == if PunchChar(u[i]) then u[i] else '-'
  {
    var c, u := Comment(s, upper), Upper(s, upper);
    forall i | 0 <= i < |u| ensures c[i + 1] == if PunchChar(u[i]) then u[i] else '-' {
      AllowedIff(u[i]);
    }
  }

  // ---------------------------------------------------------------- lines

  /** `str.splitlines` breaks. */
  predicate IsBreak(c: char) {
    c in "\n\r\U{0b}\U{0c}\U{1c}\U{1d}\U{1e}\U{85}\U{2028}\U{2029}"
  }

  /** Text ends each line with a newline. */
  function JoinLines(lines: seq<string>): string {
    if lines == [] then [] else JoinLines(lines[..|lines| - 1]) + lines[|lines| - 1] + ['\n']
  }

  /** Complete lines, and the unfinished one.  A "\r\n" pair yields an extra empty line here, which
      the parser skips like any empty line. */
  function Split(s: string): (seq<string>, string) {
    if s == [] then ([], []) else
    var (lines, current) := Split(s[..|s| - 1]);
    var c := s[|s| - 1];
    if IsBreak(c) then (lines + [current], []) else (lines, current + [c])
  }

  function SplitLines(s: string): seq<string> {
    var (lines, current) := Split(s);
    if current == [] then lines else lines + [current]
  }

  ghost predicate OneLine(s: string) {
    forall i | 0 <= i < |s| :: !IsBreak(s[i])
  }

  lemma {:induction false} SplitAfter(s: string, line: string)
    requires OneLine(line)
    ensures Split(s + line) == (Split(s).0, Split(s).1 + line)
  {
    if line == [] {
      assert s + line == s && Split(s).1 + line == Split(s).1;
    } else {
      var n := |line| - 1;
      SplitAfter(s, line[..n]);
      assert (s + line)[..|s + line| - 1] == s + line[..n];
      assert Split(s).1 + line[..n] + [line[n]] == Split(s).1 + line;
    }
  }

  /** Splitting a text recovers its lines. */
  lemma {:induction false} SplitJoined(lines: seq<string>)
    requires forall i | 0 <= i < |lines| :: OneLine(lines[i])
    ensures Split(JoinLines(lines)) == (lines, [])
  {
    if lines != [] {
      var n := |lines| - 1;
      var before := JoinLines(lines[..n]);
      SplitJoined(lines[..n]);
      SplitAfter(before, lines[n]);
      assert [] + lines[n] == lines[n];
      var text := before + lines[n] + ['\n'];
      assert text[..|text| - 1] == before + lines[n];
      assert lines[..n] + [lines[n]] == lines;
    }
  }

  /** The ten line boundaries. */
  lemma BreakIff(c: char)
    ensures IsBreak(c) <==> (c as int) in {10, 11, 12, 13, 28, 29, 30, 133, 8232, 8233}
  {
  }

  /** A text that does not end in a line break has one line more. */
  lemma UnfinishedLine(lines: seq<string>, last: string)
    requires (forall i | 0 <= i < |lines| :: OneLine(lines[i])) && OneLine(last)
    ensures SplitLines(JoinLines(lines) + last) == if last == "" then lines else lines + [last]
  {
    hide Split, JoinLines, OneLine;
    SplitJoined(lines);
    SplitAfter(JoinLines(lines), last);
    assert [] + last == last;
  }

  // ---------------------------------------------------------------- the line grammar

  /** What a line does: nothing, or write registers. */
  datatype Block =
    | Quiet
    | MillBlock(bank: RegisterType, register: nat, value: Decimal)
    | LatheBlock(p: nat, x: Decimal, z: Decimal, r: Decimal, q: Option<nat>)
    | Unrecognized

  /** `\(.*\)` */
  predicate IsComment(s: string) {
    |s| >= 2 && s[0] == '(' && s[|s| - 1] == ')'
  }

  /** `O\d+\(.*\)` */
  predicate IsProgramLine(s: string) {
    s != [] && s[0] == 'O' && LeadingDigits(s[1..]) > 0 && IsComment(s[1 + LeadingDigits(s[1..])..])
  }

  predicate PassesThrough(s: string) {
    s == "%" || IsProgramLine(s) || IsComment(s) || s == "G20" || s == "G21" || s == "G90" || s == "M30"
  }

  function BankOfL(c: char): Option<RegisterType> {
    match c
    case '0' => Some(HGeom) case '1' => Some(HWear) case '2' => Some(DGeom) case '3' => Some(DWear)
    case _ => None
  }

  /** `G10 (L1[0-3]) P(\d+) R(-?\d+\.\d+)` */
  function ParseMill(s: string): Option<Block> {
    var a := Expect(s, "G10 L1");
    if a.None? || a.value == [] || BankOfL(a.value[0]).None? then None else
    var b := Expect(a.value[1..], " P");
    if b.None? then None else
    var n := ReadNat(b.value);
    if n.None? then None else
    var c := Expect(n.value.1, " R");
    if c.None? then None else
    var v := ReadNumber(c.value);
    if v.None? || v.value.1 != [] then None
    else Some(MillBlock(BankOfL(a.value[0]).value, n.value.0, v.value.0))
  }

  /** ` Q(\d+)` or nothing. */
  function ParseTip(s: string): Option<Option<nat>> {
    if s == [] then Some(None) else
    var a := Expect(s, " Q");
    if a.None? then None else
    var q := ReadNat(a.value);
    if q.None? || q.value.1 != [] then None else Some(Some(q.value.0))
  }

  /** One ` A(-?\d+\.\d+)` address. */
  function ReadAddress(s: string, literal: string): Option<(Decimal, string)> {
    var a := Expect(s, literal);
    if a.None? then None else ReadNumber(a.value)
  }

  /** `G10 P(\d+) X(...) Z(...) R(...)(?: Q(\d+))?` */
  function ParseLathe(s: string): Option<Block> {
    var a := Expect(s, "G10 P");
    if a.None? then None else
    var n := ReadNat(a.value);
    if n.None? then None else
    var x := ReadAddress(n.value.1, " X");
    if x.None? then None else
    var z := ReadAddress(x.value.1, " Z");
    if z.None? then None else
    var r := ReadAddress(z.value.1, " R");
    if r.None? then None else
    var q := ParseTip(r.value.1);
    if q.None? then None
    else Some(LatheBlock(n.value.0, x.value.0, z.value.0, r.value.0, q.value))
  }

  function ParseLine(raw: string): Block {
    var line := Strip(raw);
    if line == [] || PassesThrough(line) then Quiet else
    var mill := ParseMill(line);
    if mill.Some? then mill.value else
    var lathe := ParseLathe(line);
    if lathe.Some? then lathe.value else Unrecognized
  }
}
