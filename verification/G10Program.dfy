/**
 Whole G10 programs: the round trip through the parser, and what running the program does to the
 control's offset table.
 */
module G10Program {
  import opened Wrappers
  import opened DecimalText
  import opened FocasModels
  import opened G10Text
  import opened PlainText
  import opened G10
  import opened Ordering

  function ProgramText(rows: Rows, meta: Meta, selected: seq<int>, upper: CaseMap): string {
    JoinLines(ProgramLines(rows, meta, selected, upper))
  }

  // ---------------------------------------------------------------- what a register should become

  function BanksOf(cls: string): seq<RegisterType> {
    if cls == "mill" then [HGeom, HWear, DGeom, DWear]
    else [XWear, ZWear, RWear, XGeom, ZGeom, RGeom, Tip]
  }

  /** The number exported for a bank; a missing bank exports zero. */
  function Exported(rows: Rows, n: int, bank: RegisterType, unit: string): (d: Decimal)
    ensures d.places <= 4
  {
    if bank.Tip? then Decimal(false, if TipOf(rows, n) >= 0 then TipOf(rows, n) else 0, 0)
    else Rounded(ValueOf(rows, n, bank), unit)
  }

  function BankWrites(rows: Rows, n: int, banks: seq<RegisterType>, unit: string): seq<Write> {
    seq(|banks|, i requires 0 <= i < |banks| => Write(n, banks[i], Exported(rows, n, banks[i], unit)))
  }

  function BodyWrites(rows: Rows, selected: seq<int>, cls: string, unit: string): seq<Write> {
    if selected == [] then [] else
    BodyWrites(rows, selected[..|selected| - 1], cls, unit) +
      BankWrites(rows, selected[|selected| - 1], BanksOf(cls), unit)
  }

  /** The register can be said in the class's form. */
  predicate Sayable(rows: Rows, n: int, cls: string) {
    if cls == "mill" then n >= 0 else 1 <= n <= 10000 && TipOf(rows, n) >= 0
  }

  // ---------------------------------------------------------------- blocks of a program

  /** Writing blocks of the class, every one acceptable. */
  ghost predicate AllGood(blocks: seq<Block>, cls: string) {
    forall i | 0 <= i < |blocks| :: Good(blocks[i], cls) && !blocks[i].Quiet?
  }

  ghost predicate HasBad(blocks: seq<Block>) {
    exists i :: 0 <= i < |blocks| && Bad(blocks[i])
  }

  ghost predicate AllQuiet(blocks: seq<Block>) {
    forall i | 0 <= i < |blocks| :: blocks[i].Quiet?
  }

  lemma BadSomewhere(a: seq<Block>, b: seq<Block>)
    ensures HasBad(a) || HasBad(b) ==> HasBad(a + b)
  {
    if HasBad(a) {
      var i :| 0 <= i < |a| && Bad(a[i]);
      assert Bad((a + b)[i]);
    } else if HasBad(b) {
      var i :| 0 <= i < |b| && Bad(b[i]);
      assert Bad((a + b)[|a| + i]);
    }
  }

  ghost predicate AllSayable(rows: Rows, selected: seq<int>, cls: string) {
    forall i | 0 <= i < |selected| :: Sayable(rows, selected[i], cls)
  }

  lemma BlocksConcat(a: seq<string>, b: seq<string>)
    ensures Blocks(a + b) == Blocks(a) + Blocks(b)
  {
    hide ParseLine;
  }

  lemma BlocksOfPair(a: string, b: string)
    ensures Blocks([a, b]) == [ParseLine(a), ParseLine(b)]
  {
    hide ParseLine;
  }

  lemma MillRegister(rows: Rows, n: int, unit: string)
    ensures var blocks := Blocks(RegisterLines(rows, n, "mill", unit));
            if n >= 0 then
              (forall i | 0 <= i < |blocks| :: Good(blocks[i], "mill") && !blocks[i].Quiet?)
              && |blocks| == 4 && AllWrites(blocks) == BankWrites(rows, n, BanksOf("mill"), unit)
            else |blocks| == 4 && Bad(blocks[0])
  {
    hide ParseLine, MillLine, WearLine, GeometryLine;
    var lines := RegisterLines(rows, n, "mill", unit);
    var vs := [ValueOf(rows, n, HGeom), ValueOf(rows, n, HWear), ValueOf(rows, n, DGeom), ValueOf(rows, n, DWear)];
    if n >= 0 {
      MillLineParses('0', n, vs[0], unit);
      MillLineParses('1', n, vs[1], unit);
      MillLineParses('2', n, vs[2], unit);
      MillLineParses('3', n, vs[3], unit);
      var blocks := Blocks(lines);
      assert blocks == [MillBlock(HGeom, n, Rounded(vs[0], unit)), MillBlock(HWear, n, Rounded(vs[1], unit)),
                        MillBlock(DGeom, n, Rounded(vs[2], unit)), MillBlock(DWear, n, Rounded(vs[3], unit))];
      FourWrites(blocks);
    } else {
      NegativeMillLine('0', n, vs[0], unit);
    }
  }

  lemma FourWrites(b: seq<Block>)
    requires |b| == 4
    ensures AllWrites(b) == BlockWrites(b[0]) + BlockWrites(b[1]) + BlockWrites(b[2]) + BlockWrites(b[3])
  {
    hide BlockWrites;
    assert b[..3][..2] == b[..2] && b[..2][..1] == b[..1] && b[..1][..0] == [];
    assert AllWrites(b[..1]) == BlockWrites(b[0]);
    assert AllWrites(b[..2]) == AllWrites(b[..1]) + BlockWrites(b[1]);
  }

  lemma TwoWrites(a: Block, b: Block)
    ensures AllWrites([a, b]) == BlockWrites(a) + BlockWrites(b)
  {
    hide BlockWrites;
    assert [a, b][..1] == [a] && [a][..0] == [];
    assert AllWrites([a]) == BlockWrites(a);
  }

  lemma LatheWear(rows: Rows, n: int, unit: string)
    ensures var b := ParseLine(WearLine(rows, n, unit));
            if n < 0 then Bad(b)
            else b == LatheBlock(n, Rounded(ValueOf(rows, n, XWear), unit), Rounded(ValueOf(rows, n, ZWear), unit),
                                 Rounded(ValueOf(rows, n, RWear), unit), None)
  {
    hide ParseLine, LatheLine;
    if n < 0 {
      NegativeLatheLine(n, ValueOf(rows, n, XWear), ValueOf(rows, n, ZWear), ValueOf(rows, n, RWear), unit, "");
    } else {
      LatheLineParses(n, ValueOf(rows, n, XWear), ValueOf(rows, n, ZWear), ValueOf(rows, n, RWear), unit, "");
    }
  }

  lemma LatheGeometry(rows: Rows, n: int, unit: string)
    requires n >= 0
    ensures var b := ParseLine(GeometryLine(rows, n, unit));
            if TipOf(rows, n) < 0 then b == Unrecognized
            else b == LatheBlock(10000 + n,
                                 Rounded(ValueOf(rows, n, XGeom), unit), Rounded(ValueOf(rows, n, ZGeom), unit),
                                 Rounded(ValueOf(rows, n, RGeom), unit), Some(TipOf(rows, n)))
  {
    hide ParseLine, LatheLine, IntText;
    TipTextReads(TipOf(rows, n));
    LatheLineParses(10000 + n, ValueOf(rows, n, XGeom), ValueOf(rows, n, ZGeom), ValueOf(rows, n, RGeom), unit,
                    " Q" + IntText(TipOf(rows, n)));
  }

  lemma LatheRegister(rows: Rows, n: int, cls: string, unit: string)
    requires cls == "lathe"
    ensures var blocks := Blocks(RegisterLines(rows, n, cls, unit));
            if Sayable(rows, n, cls) then
              (forall i | 0 <= i < |blocks| :: Good(blocks[i], cls) && !blocks[i].Quiet?)
              && |blocks| == 2 && AllWrites(blocks) == BankWrites(rows, n, BanksOf(cls), unit)
            else |blocks| == 2 && (Bad(blocks[0]) || Bad(blocks[1]))
  {
    hide ParseLine, WearLine, GeometryLine, MillLine;
    LatheWear(rows, n, unit);
    var wear, geometry := ParseLine(WearLine(rows, n, unit)), ParseLine(GeometryLine(rows, n, unit));
    BlocksOfPair(WearLine(rows, n, unit), GeometryLine(rows, n, unit));
    if n >= 0 { LatheGeometry(rows, n, unit); }
    if Sayable(rows, n, cls) {
      TwoWrites(wear, geometry);
    }
  }

  lemma RegisterParses(rows: Rows, n: int, cls: string, unit: string)
    requires cls == "mill" || cls == "lathe"
    ensures var blocks := Blocks(RegisterLines(rows, n, cls, unit));
            if Sayable(rows, n, cls) then
              AllGood(blocks, cls) && |blocks| > 0 && AllWrites(blocks) == BankWrites(rows, n, BanksOf(cls), unit)
            else HasBad(blocks)
  {
    hide Blocks, RegisterLines;
    if cls == "mill" { MillRegister(rows, n, unit); } else { LatheRegister(rows, n, cls, unit); }
  }

  /** The body parses exactly when each register can be said, and then makes exactly its writes. */
  lemma {:induction false} BodyParses(rows: Rows, selected: seq<int>, cls: string, unit: string)
    requires cls == "mill" || cls == "lathe"
    ensures BodyParsed(rows, selected, cls, unit)
  {
    if selected == [] {
      NoBlocks();
    } else {
      BodyParses(rows, selected[..|selected| - 1], cls, unit);
      BodyStep(rows, selected, cls, unit);
    }
  }

  ghost predicate BodyParsed(rows: Rows, selected: seq<int>, cls: string, unit: string) {
    var blocks := Blocks(BodyLines(rows, selected, cls, unit));
    if AllSayable(rows, selected, cls) then
      AllGood(blocks, cls) && (blocks == [] <==> selected == [])
      && AllWrites(blocks) == BodyWrites(rows, selected, cls, unit)
    else HasBad(blocks)
  }

  lemma SayableSnoc(rows: Rows, selected: seq<int>, cls: string)
    requires selected != []
    ensures AllSayable(rows, selected, cls) <==>
            AllSayable(rows, selected[..|selected| - 1], cls) && Sayable(rows, selected[|selected| - 1], cls)
  {
    hide Sayable;
    assert selected == selected[..|selected| - 1] + [selected[|selected| - 1]];
  }

  lemma BodyStep(rows: Rows, selected: seq<int>, cls: string, unit: string)
    requires cls == "mill" || cls == "lathe"
    requires selected != [] && BodyParsed(rows, selected[..|selected| - 1], cls, unit)
    ensures BodyParsed(rows, selected, cls, unit)
  {
    hide Blocks, RegisterLines, BanksOf, BankWrites, Sayable, Good, Bad, AllWrites, AllSayable, AllGood, HasBad;
    var k := |selected| - 1;
    var most, n := selected[..k], selected[k];
    SayableSnoc(rows, selected, cls);
    RegisterParses(rows, n, cls, unit);
    BlocksConcat(BodyLines(rows, most, cls, unit), RegisterLines(rows, n, cls, unit));
    var a, b := Blocks(BodyLines(rows, most, cls, unit)), Blocks(RegisterLines(rows, n, cls, unit));
    AllWritesConcat(a, b);
    BadSomewhere(a, b);
    GoodTogether(a, b, cls);
  }

  lemma GoodTogether(a: seq<Block>, b: seq<Block>, cls: string)
    ensures AllGood(a, cls) && AllGood(b, cls) ==> AllGood(a + b, cls)
  {
  }

  lemma NoBlocks()
    ensures Blocks([]) == []
  {
  }

  /** The header is quiet, except that a negative program number makes one bad line. */
  lemma HeaderParses(meta: Meta, selectedCount: nat, upper: CaseMap)
    ensures var lines := HeaderLines(meta, selectedCount, upper);
            && |lines| > 1 && (forall i | 0 <= i < |lines| :: OneLine(lines[i]))
            && (forall i | 0 <= i < |lines| && i != 1 :: ParseLine(lines[i]) == Quiet)
            && ParseLine(lines[1]) == if meta.programNumber >= 0 then Quiet else Unrecognized
  {
    FixedLinesQuiet();
    ProgramLineQuietIff(meta, upper);
    CommentIsQuiet("MACHINE " + meta.machineName, upper);
    CommentIsQuiet("GENERATED " + meta.generatedAt, upper);
    CommentIsQuiet(meta.mirrorNote, upper);
    CommentIsQuiet(ScopeNote(meta, selectedCount), upper);
    CommentIsQuiet("FORM UNVERIFIED ON THIS MACHINE - DO NOT RUN", upper);
    CommentIsQuiet("UNIT " + meta.unit, upper);
    hide ParseLine, Comment, ProgramLine, ScopeNote;
    var lines := HeaderLines(meta, selectedCount, upper);
    assert lines[1] == ProgramLine(meta, upper);
    forall i | 0 <= i < |lines| && i != 1
      ensures OneLine(lines[i]) && ParseLine(lines[i]) == Quiet
    {
      assert lines[i] in ["%", "G20", "G21", "G90", Comment("MACHINE " + meta.machineName, upper),
        Comment("GENERATED " + meta.generatedAt, upper), Comment(meta.mirrorNote, upper),
        Comment(ScopeNote(meta, selectedCount), upper),
        Comment("FORM UNVERIFIED ON THIS MACHINE - DO NOT RUN", upper), Comment("UNIT " + meta.unit, upper)];
    }
  }

  lemma PassedIsQuiet(line: string)
    requires line != [] && !IsSpace(line[0]) && !IsSpace(line[|line| - 1]) && PassesThrough(line)
    ensures ParseLine(line) == Quiet
  {
    hide ParseMill, ParseLathe, PassesThrough, IsSpace;
    StripsToItself(line);
  }

  lemma FixedLinesQuiet()
    ensures forall line | line in ["%", "G20", "G21", "G90", "M30"] :: ParseLine(line) == Quiet && OneLine(line)
  {
    hide ParseLine, IsProgramLine;
    PassedIsQuiet("%");
    PassedIsQuiet("G20");
    PassedIsQuiet("G21");
    PassedIsQuiet("G90");
    PassedIsQuiet("M30");
  }

  // ---------------------------------------------------------------- every line is one line

  lemma DigitsOneLine(s: string)
    requires AllDigits(s)
    ensures OneLine(s)
  {
  }

  lemma FormatOneLine(v: int, unit: string)
    ensures OneLine(FormatValue(v, unit))
  {
    DigitsRejoin(Rounded(v, unit));
  }

  lemma IntTextOneLine(n: int)
    ensures OneLine(IntText(n))
  {
    hide NatText;
    var t := NatText(if n < 0 then -n else n);
    NatTextReads(if n < 0 then -n else n);
    DigitsOneLine(t);
  }

  lemma MillLineOneLine(l: char, n: int, v: int, unit: string)
    requires !IsBreak(l)
    ensures OneLine(MillLine(l, n, v, unit))
  {
    FormatOneLine(v, unit);
    IntTextOneLine(n);
    hide FormatValue, IntText;
  }

  lemma LatheLineOneLine(p: int, x: int, z: int, r: int, unit: string, tip: string)
    requires OneLine(tip)
    ensures OneLine(LatheLine(p, x, z, r, unit, tip))
  {
    FormatOneLine(x, unit);
    FormatOneLine(z, unit);
    FormatOneLine(r, unit);
    IntTextOneLine(p);
    hide FormatValue, IntText;
  }

  lemma RegisterOneLine(rows: Rows, n: int, cls: string, unit: string)
    ensures forall i | 0 <= i < |RegisterLines(rows, n, cls, unit)| :: OneLine(RegisterLines(rows, n, cls, unit)[i])
  {
    hide MillLine, LatheLine;
    MillLineOneLine('0', n, ValueOf(rows, n, HGeom), unit);
    MillLineOneLine('1', n, ValueOf(rows, n, HWear), unit);
    MillLineOneLine('2', n, ValueOf(rows, n, DGeom), unit);
    MillLineOneLine('3', n, ValueOf(rows, n, DWear), unit);
    IntTextOneLine(TipOf(rows, n));
    LatheLineOneLine(n, ValueOf(rows, n, XWear), ValueOf(rows, n, ZWear), ValueOf(rows, n, RWear), unit, "");
    LatheLineOneLine(10000 + n, ValueOf(rows, n, XGeom), ValueOf(rows, n, ZGeom), ValueOf(rows, n, RGeom), unit,
                     " Q" + IntText(TipOf(rows, n)));
  }

  lemma {:induction false} BodyOneLine(rows: Rows, selected: seq<int>, cls: string, unit: string)
    ensures forall i | 0 <= i < |BodyLines(rows, selected, cls, unit)| ::
            OneLine(BodyLines(rows, selected, cls, unit)[i])
  {
    hide RegisterLines;
    if selected != [] {
      BodyOneLine(rows, selected[..|selected| - 1], cls, unit);
      RegisterOneLine(rows, selected[|selected| - 1], cls, unit);
    }
  }

  lemma AllOneLine(a: seq<string>, b: seq<string>, c: seq<string>)
    requires forall i | 0 <= i < |a| :: OneLine(a[i])
    requires forall i | 0 <= i < |b| :: OneLine(b[i])
    requires forall i | 0 <= i < |c| :: OneLine(c[i])
    ensures forall i | 0 <= i < |a + b + c| :: OneLine((a + b + c)[i])
  {
    hide OneLine;
  }

  /** Splitting the text gives the program's lines back. */
  lemma TextSplits(rows: Rows, meta: Meta, selected: seq<int>, upper: CaseMap)
    ensures SplitLines(ProgramText(rows, meta, selected, upper)) == ProgramLines(rows, meta, selected, upper)
  {
    HeaderParses(meta, |selected|, upper);
    BodyOneLine(rows, selected, meta.machineClass, meta.unit);
    FixedLinesQuiet();
    hide HeaderLines, BodyLines, ParseLine;
    var lines := ProgramLines(rows, meta, selected, upper);
    var h, b := HeaderLines(meta, |selected|, upper), BodyLines(rows, selected, meta.machineClass, meta.unit);
    AllOneLine(h, b, ["M30", "%"]);
    SplitJoined(lines);
  }

  // ---------------------------------------------------------------- the round trip

  /** A program the parser accepts: a program number, and registers its class's form can say. */
  ghost predicate Printable(rows: Rows, meta: Meta, selected: seq<int>) {
    meta.programNumber >= 0 && AllSayable(rows, selected, meta.machineClass)
  }

  lemma {:induction false} QuietWrites(blocks: seq<Block>)
    requires AllQuiet(blocks)
    ensures AllWrites(blocks) == []
  {
    if blocks != [] { QuietWrites(blocks[..|blocks| - 1]); }
  }

  lemma HeaderBlocks(meta: Meta, selectedCount: nat, upper: CaseMap)
    ensures var h := Blocks(HeaderLines(meta, selectedCount, upper));
            if meta.programNumber >= 0 then AllQuiet(h) else HasBad(h)
  {
    HeaderParses(meta, selectedCount, upper);
    hide ParseLine, HeaderLines;
    var h := Blocks(HeaderLines(meta, selectedCount, upper));
    if meta.programNumber < 0 { assert Bad(h[1]); }
  }

  lemma ProgramBlocks(rows: Rows, meta: Meta, selected: seq<int>, upper: CaseMap)
    ensures Blocks(ProgramLines(rows, meta, selected, upper)) ==
            Blocks(HeaderLines(meta, |selected|, upper))
            + Blocks(BodyLines(rows, selected, meta.machineClass, meta.unit)) + [Quiet, Quiet]
  {
    FixedLinesQuiet();
    hide ParseLine, HeaderLines, BodyLines;
    var h, b := HeaderLines(meta, |selected|, upper), BodyLines(rows, selected, meta.machineClass, meta.unit);
    BlocksConcat(h + b, ["M30", "%"]);
    BlocksConcat(h, b);
    BlocksOfPair("M30", "%");
  }

  /** What the parser holds after a printable program. */
  ghost function Expected(rows: Rows, meta: Meta, selected: seq<int>): Parsed {
    Parsed(AssignAll(map[], BodyWrites(rows, selected, meta.machineClass, meta.unit)),
           if selected == [] then None else Some(meta.machineClass))
  }

  /** A built program parses exactly when it is printable, and then to the class and the assignments
      of the selected registers, whatever the machine is called and however its name is upper-cased. */
  lemma RoundTripIff(rows: Rows, meta: Meta, selected: seq<int>, upper: CaseMap)
    requires Buildable(meta, selected)
    ensures var parsed := ParseText(ProgramText(rows, meta, selected, upper));
            if Printable(rows, meta, selected) then parsed == Ok(Expected(rows, meta, selected)) else parsed.Err?
  {
    TextSplits(rows, meta, selected, upper);
    ProgramBlocks(rows, meta, selected, upper);
    HeaderBlocks(meta, |selected|, upper);
    BodyParses(rows, selected, meta.machineClass, meta.unit);
    hide Blocks, HeaderLines, BodyLines, ProgramLines, ProgramText, BodyWrites, SplitLines;
    var h := Blocks(HeaderLines(meta, |selected|, upper));
    var b := Blocks(BodyLines(rows, selected, meta.machineClass, meta.unit));
    if Printable(rows, meta, selected) {
      PartsParse(h, b, meta.machineClass);
    } else {
      PartsFail(h, b);
    }
  }

  /** The assignments the text makes, in order. */
  lemma ProgramWrites(rows: Rows, meta: Meta, selected: seq<int>, upper: CaseMap)
    requires Buildable(meta, selected) && Printable(rows, meta, selected)
    ensures AllWrites(Blocks(SplitLines(ProgramText(rows, meta, selected, upper))))
         == BodyWrites(rows, selected, meta.machineClass, meta.unit)
  {
    TextSplits(rows, meta, selected, upper);
    ProgramBlocks(rows, meta, selected, upper);
    HeaderBlocks(meta, |selected|, upper);
    BodyParses(rows, selected, meta.machineClass, meta.unit);
    hide Blocks, HeaderLines, BodyLines, ProgramLines, ProgramText, BodyWrites, SplitLines;
    PartsWrites(Blocks(HeaderLines(meta, |selected|, upper)),
                Blocks(BodyLines(rows, selected, meta.machineClass, meta.unit)));
  }

  lemma PartsFail(h: seq<Block>, b: seq<Block>)
    requires HasBad(h) || HasBad(b)
    ensures ParseBlocks(h + b + [Quiet, Quiet]).Err?
  {
    BadSomewhere(h, b);
    BadSomewhere(h + b, [Quiet, Quiet]);
    var all := h + b + [Quiet, Quiet];
    var i :| 0 <= i < |all| && Bad(all[i]);
    BadBlockFails(all, i);
  }

  lemma PartsWrites(h: seq<Block>, b: seq<Block>)
    requires AllQuiet(h)
    ensures AllWrites(h + b + [Quiet, Quiet]) == AllWrites(b)
  {
    AllWritesConcat(h + b, [Quiet, Quiet]);
    AllWritesConcat(h, b);
    QuietWrites(h);
    QuietWrites([Quiet, Quiet]);
    hide AllWrites;
  }

  lemma PartsParse(h: seq<Block>, b: seq<Block>, cls: string)
    requires AllQuiet(h) && AllGood(b, cls)
    ensures ParseBlocks(h + b + [Quiet, Quiet])
         == Ok(Parsed(AssignAll(map[], AllWrites(b)), if b == [] then None else Some(cls)))
  {
    var all := h + b + [Quiet, Quiet];
    PartsWrites(h, b);
    hide AllWrites, AssignAll, BlockClass;
    assert forall i | 0 <= i < |all| :: Good(all[i], cls);
    GoodBlocksParse(all, cls);
    ParsedRowsAreWrites(all);
    hide ParseBlocks;
    if b != [] { assert all[|h|] == b[0]; }
  }

  // ---------------------------------------------------------------- each cell once, each with its value

  /** Every assignment is to a bank of a selected register and carries that bank's exported value. */
  lemma {:induction false} WritesAreExported(rows: Rows, selected: seq<int>, cls: string, unit: string, w: Write)
    ensures w in BodyWrites(rows, selected, cls, unit) <==>
            w.register in selected && w.bank in BanksOf(cls) && w.value == Exported(rows, w.register, w.bank, unit)
  {
    hide BanksOf, Exported;
    if selected != [] {
      var k := |selected| - 1;
      var n := selected[k];
      WritesAreExported(rows, selected[..k], cls, unit, w);
      assert selected == selected[..k] + [n];
      var ws := BankWrites(rows, n, BanksOf(cls), unit);
      if w.register == n && w.bank in BanksOf(cls) && w.value == Exported(rows, n, w.bank, unit) {
        var i :| 0 <= i < |BanksOf(cls)| && BanksOf(cls)[i] == w.bank;
        assert ws[i] == w;
      }
    }
  }

  lemma BanksDistinct(cls: string, i: nat, j: nat)
    requires i < j < |BanksOf(cls)|
    ensures BanksOf(cls)[i] != BanksOf(cls)[j]
  {
  }

  ghost predicate NoCellTwice(ws: seq<Write>) {
    forall i, j | 0 <= i < j < |ws| :: ws[i].register != ws[j].register || ws[i].bank != ws[j].bank
  }

  lemma CellsApart(before: seq<Write>, last: seq<Write>, n: int)
    requires NoCellTwice(before) && NoCellTwice(last)
    requires forall i | 0 <= i < |before| :: before[i].register != n
    requires forall i | 0 <= i < |last| :: last[i].register == n
    ensures NoCellTwice(before + last)
  {
  }

  lemma RegisterWritesOnce(rows: Rows, n: int, cls: string, unit: string)
    ensures var ws := BankWrites(rows, n, BanksOf(cls), unit);
            |ws| == |BanksOf(cls)| && NoCellTwice(ws) && forall i | 0 <= i < |ws| :: ws[i].register == n
  {
    hide Exported;
    forall i, j | 0 <= i < j < |BanksOf(cls)| ensures BanksOf(cls)[i] != BanksOf(cls)[j] { BanksDistinct(cls, i, j); }
    hide BanksOf;
  }

  /** No (register, bank) is written twice. */
  lemma {:induction false} WrittenOnce(rows: Rows, selected: seq<int>, cls: string, unit: string)
    requires Ascending(selected)
    ensures var ws := BodyWrites(rows, selected, cls, unit);
            |ws| == |selected| * |BanksOf(cls)| && NoCellTwice(ws)
  {
    hide BanksOf, BankWrites, NoCellTwice;
    if selected == [] {
      NothingTwice();
    } else {
      var k := |selected| - 1;
      var most, n := selected[..k], selected[k];
      var before := BodyWrites(rows, most, cls, unit);
      WrittenOnce(rows, most, cls, unit);
      RegisterWritesOnce(rows, n, cls, unit);
      forall i | 0 <= i < |before| ensures before[i].register != n {
        WritesAreExported(rows, most, cls, unit, before[i]);
      }
      CellsApart(before, BankWrites(rows, n, BanksOf(cls), unit), n);
      assert (k + 1) * |BanksOf(cls)| == k * |BanksOf(cls)| + |BanksOf(cls)|;
    }
  }

  lemma NothingTwice()
    ensures NoCellTwice([])
  {
  }

  /** What a register map holds after assignments that agree on each cell. */
  lemma {:induction false} AssignedRows(ws: seq<Write>, n: int, bank: RegisterType)
    ensures var rows := AssignAll(map[], ws);
            && (n in rows <==> exists i :: 0 <= i < |ws| && ws[i].register == n)
            && (n in rows && bank in rows[n] <==>
                exists i :: 0 <= i < |ws| && ws[i].register == n && ws[i].bank == bank)
            && (n in rows && bank in rows[n] ==> Write(n, bank, rows[n][bank]) in ws)
  {
    if ws != [] {
      var k := |ws| - 1;
      AssignedRows(ws[..k], n, bank);
      assert ws == ws[..k] + [ws[k]];
      assert forall i | 0 <= i < k :: ws[..k][i] == ws[i];
    }
  }

  /** The parsed registers are exactly the selected ones, each with every bank of its class and the
      exported value in each. */
  lemma ParsedIsExport(rows: Rows, meta: Meta, selected: seq<int>, n: int, bank: RegisterType)
    ensures var parsed := Expected(rows, meta, selected).rows;
            && (n in parsed <==> n in selected)
            && (n in parsed ==> (bank in parsed[n] <==> bank in BanksOf(meta.machineClass)))
            && (n in parsed && bank in parsed[n] ==> parsed[n][bank] == Exported(rows, n, bank, meta.unit))
  {
    var cls, unit := meta.machineClass, meta.unit;
    var ws := BodyWrites(rows, selected, cls, unit);
    AssignedRows(ws, n, bank);
    forall w
      ensures w in ws <==>
              w.register in selected && w.bank in BanksOf(cls) && w.value == Exported(rows, w.register, w.bank, unit)
    {
      WritesAreExported(rows, selected, cls, unit, w);
    }
    if n in selected {
      var b0 := BanksOf(cls)[0];
      assert Write(n, b0, Exported(rows, n, b0, unit)) in ws;
      if bank in BanksOf(cls) { assert Write(n, bank, Exported(rows, n, bank, unit)) in ws; }
    }
  }

  /** Exported values: inch exactly, metric within half a micrometre's place, tips to the whole number. */
  lemma ExportedClose(rows: Rows, n: int, bank: RegisterType, unit: string)
    ensures !bank.Tip? && unit == "inch" ==> Counts(Exported(rows, n, bank, unit)) == ValueOf(rows, n, bank)
    ensures !bank.Tip? ==> -5 <= Counts(Exported(rows, n, bank, unit)) - ValueOf(rows, n, bank) <= 5
    ensures bank.Tip? && ValueOf(rows, n, Tip) >= 0 && ValueOf(rows, n, Tip) % 10000 == 0 ==>
            Counts(Exported(rows, n, bank, unit)) == ValueOf(rows, n, bank)
    ensures ValueOf(rows, n, bank) == 0 ==> Counts(Exported(rows, n, bank, unit)) == 0
  {
    RoundedClose(ValueOf(rows, n, bank), unit);
  }

  /** A tip is cut to its whole part. */
  lemma TipIsWhole(rows: Rows, n: int, unit: string)
    requires ValueOf(rows, n, Tip) >= 0
    ensures var tip := Counts(Exported(rows, n, Tip, unit));
            tip % 10000 == 0 && tip <= ValueOf(rows, n, Tip) < tip + 10000
  {
    hide ValueOf;
  }

  // ---------------------------------------------------------------- running the program

  /** The control's offset table, in 0.0001 units. */
  type OffsetTable = map<(int, RegisterType), int>

  /** No assignment is finer than the 0.0001 grid. */
  ghost predicate OnGrid(ws: seq<Write>) {
    forall i | 0 <= i < |ws| :: ws[i].value.places <= 4
  }

  ghost function Exec(table: OffsetTable, ws: seq<Write>): OffsetTable
    requires OnGrid(ws)
  {
    if ws == [] then table else
    var w := ws[|ws| - 1];
    Exec(table, ws[..|ws| - 1])[(w.register, w.bank) := Counts(w.value)]
  }

  lemma {:induction false} ExecCell(table: OffsetTable, ws: seq<Write>, n: int, bank: RegisterType)
    requires OnGrid(ws)
    ensures if exists i :: 0 <= i < |ws| && ws[i].register == n && ws[i].bank == bank
            then exists i :: 0 <= i < |ws| && ws[i].register == n && ws[i].bank == bank
                             && Get(Exec(table, ws), (n, bank)) == Some(Counts(ws[i].value))
            else Get(Exec(table, ws), (n, bank)) == Get(table, (n, bank))
  {
    if ws != [] {
      var k := |ws| - 1;
      ExecCell(table, ws[..k], n, bank);
      assert forall i | 0 <= i < k :: ws[..k][i] == ws[i];
      if ws[k].register == n && ws[k].bank == bank {
        assert Get(Exec(table, ws), (n, bank)) == Some(Counts(ws[k].value));
      } else if i :| 0 <= i < k && ws[..k][i].register == n && ws[..k][i].bank == bank
                     && Get(Exec(table, ws[..k]), (n, bank)) == Some(Counts(ws[..k][i].value)) {
        assert ws[i].register == n;
      }
    }
  }

  lemma WritePlaces(rows: Rows, selected: seq<int>, cls: string, unit: string)
    ensures OnGrid(BodyWrites(rows, selected, cls, unit))
  {
    var ws := BodyWrites(rows, selected, cls, unit);
    forall i | 0 <= i < |ws| ensures ws[i].value.places <= 4 {
      WritesAreExported(rows, selected, cls, unit, ws[i]);
    }
  }

  lemma BodyCell(
    table: OffsetTable, rows: Rows, selected: seq<int>, cls: string, unit: string, n: int, bank: RegisterType)
    ensures var ws := BodyWrites(rows, selected, cls, unit);
            && OnGrid(ws)
            && Get(Exec(table, ws), (n, bank)) ==
               if n in selected && bank in BanksOf(cls) then Some(Counts(Exported(rows, n, bank, unit)))
               else Get(table, (n, bank))
  {
    hide BanksOf, BodyWrites;
    var ws := BodyWrites(rows, selected, cls, unit);
    WritePlaces(rows, selected, cls, unit);
    ExecCell(table, ws, n, bank);
    forall i | 0 <= i < |ws| && ws[i].register == n && ws[i].bank == bank
      ensures n in selected && bank in BanksOf(cls) && ws[i].value == Exported(rows, n, bank, unit)
    {
      WritesAreExported(rows, selected, cls, unit, ws[i]);
    }
    if n in selected && bank in BanksOf(cls) {
      WritesAreExported(rows, selected, cls, unit, Write(n, bank, Exported(rows, n, bank, unit)));
    }
  }

  /** Running a text on a control: its assignments, in order. */
  ghost function RunText(table: OffsetTable, text: string): OffsetTable
    requires OnGrid(AllWrites(Blocks(SplitLines(text))))
  {
    Exec(table, AllWrites(Blocks(SplitLines(text))))
  }

  /** Running a printed program on a control. */
  ghost function RunProgram(table: OffsetTable, rows: Rows, meta: Meta, selected: seq<int>, upper: CaseMap): OffsetTable
    requires Buildable(meta, selected) && Printable(rows, meta, selected)
  {
    ProgramWrites(rows, meta, selected, upper);
    WritePlaces(rows, selected, meta.machineClass, meta.unit);
    RunText(table, ProgramText(rows, meta, selected, upper))
  }

  /** Running it overwrites every bank of a listed register and nothing else. */
  lemma RunProgramCell(
    table: OffsetTable, rows: Rows, meta: Meta, selected: seq<int>, upper: CaseMap, n: int, bank: RegisterType)
    requires Buildable(meta, selected) && Printable(rows, meta, selected)
    ensures Get(RunProgram(table, rows, meta, selected, upper), (n, bank)) ==
            if n in selected && bank in BanksOf(meta.machineClass)
            then Some(Counts(Exported(rows, n, bank, meta.unit)))
            else Get(table, (n, bank))
  {
    ProgramWrites(rows, meta, selected, upper);
    BodyCell(table, rows, selected, meta.machineClass, meta.unit, n, bank);
    hide ProgramText, SplitLines, Blocks, BanksOf, BodyWrites, Exported, Exec;
  }

  // ---------------------------------------------------------------- full and sparse mean the same

  /** The table with every bank of registers 1 to `count` cleared. */
  ghost function Cleared(table: OffsetTable, count: int, cls: string): OffsetTable {
    table + map n, bank: RegisterType | 1 <= n <= count && bank in BanksOf(cls) :: (n, bank) := 0
  }

  /** Every register that holds anything is one the machine has. */
  ghost predicate WithinCount(rows: Rows, count: int) {
    forall n | n in rows && !RegisterIsEmpty(rows[n]) :: 1 <= n <= count
  }

  lemma EmptyExportsZero(rows: Rows, n: int, bank: RegisterType, unit: string)
    requires n in rows ==> RegisterIsEmpty(rows[n])
    ensures Counts(Exported(rows, n, bank, unit)) == 0
  {
    ExportedClose(rows, n, bank, unit);
  }

  lemma ClearedCell(table: OffsetTable, count: int, cls: string, n: int, bank: RegisterType)
    ensures Get(Cleared(table, count, cls), (n, bank)) ==
            if 1 <= n <= count && bank in BanksOf(cls) then Some(0) else Get(table, (n, bank))
  {
    hide BanksOf;
  }

  /** The two exports of one mirror. */
  ghost predicate Exports(rows: Rows, full: Meta, all: seq<int>, sparse: seq<int>) {
    && !full.sparse && IsSelection(all, rows, full) && IsSelection(sparse, rows, full.(sparse := true))
    && Buildable(full, all) && Buildable(full, sparse)
    && Printable(rows, full, all) && Printable(rows, full, sparse)
  }

  ghost function AfterFull(
    table: OffsetTable, rows: Rows, full: Meta, all: seq<int>, sparse: seq<int>, upper: CaseMap): OffsetTable
    requires Exports(rows, full, all, sparse)
  {
    RunProgram(table, rows, full, all, upper)
  }

  ghost function AfterSparse(
    table: OffsetTable, rows: Rows, full: Meta, all: seq<int>, sparse: seq<int>, upper: CaseMap): OffsetTable
    requires Exports(rows, full, all, sparse)
  {
    RunProgram(Cleared(table, full.registerCount, full.machineClass), rows, full.(sparse := true), sparse, upper)
  }

  lemma AfterFullCell(
    table: OffsetTable, rows: Rows, full: Meta, all: seq<int>, sparse: seq<int>, upper: CaseMap,
    n: int, bank: RegisterType)
    requires Exports(rows, full, all, sparse)
    ensures Get(AfterFull(table, rows, full, all, sparse, upper), (n, bank)) ==
            if 1 <= n <= full.registerCount && bank in BanksOf(full.machineClass)
            then Some(Counts(Exported(rows, n, bank, full.unit))) else Get(table, (n, bank))
  {
    hide BanksOf, RunProgram, Exported;
    RunProgramCell(table, rows, full, all, upper, n, bank);
    assert n in all <==> Chosen(rows, full, n);
  }

  lemma AfterSparseCell(
    table: OffsetTable, rows: Rows, full: Meta, all: seq<int>, sparse: seq<int>, upper: CaseMap,
    n: int, bank: RegisterType)
    requires Exports(rows, full, all, sparse)
    ensures Get(AfterSparse(table, rows, full, all, sparse, upper), (n, bank)) ==
            if n in rows && !RegisterIsEmpty(rows[n]) && bank in BanksOf(full.machineClass)
            then Some(Counts(Exported(rows, n, bank, full.unit)))
            else if 1 <= n <= full.registerCount && bank in BanksOf(full.machineClass) then Some(0)
            else Get(table, (n, bank))
  {
    hide BanksOf, RunProgram, Exported, RegisterIsEmpty, Cleared;
    RunProgramCell(Cleared(table, full.registerCount, full.machineClass), rows, full.(sparse := true), sparse, upper,
                   n, bank);
    ClearedCell(table, full.registerCount, full.machineClass, n, bank);
    assert n in sparse <==> Chosen(rows, full.(sparse := true), n);
  }

  /** The full export of the mirror: on any control table it leaves what the sparse export leaves on
      the same table with the machine's registers cleared, exactly when the mirror's non-empty
      registers are ones the machine has. */
  lemma FullIsSparseOnCleared(rows: Rows, full: Meta, all: seq<int>, sparse: seq<int>, upper: CaseMap)
    requires Exports(rows, full, all, sparse)
    ensures (forall table: OffsetTable ::
              AfterFull(table, rows, full, all, sparse, upper) == AfterSparse(table, rows, full, all, sparse, upper))
       <==> WithinCount(rows, full.registerCount)
  {
    hide AfterFull, AfterSparse, Exported, RegisterIsEmpty, Exports, Printable;
    if WithinCount(rows, full.registerCount) {
      forall table: OffsetTable
        ensures AfterFull(table, rows, full, all, sparse, upper) == AfterSparse(table, rows, full, all, sparse, upper)
      {
        SameTables(table, rows, full, all, sparse, upper);
      }
    } else {
      var n :| n in rows && !RegisterIsEmpty(rows[n]) && !(1 <= n <= full.registerCount);
      var bank := BanksOf(full.machineClass)[0];
      var table: OffsetTable := map[(n, bank) := Counts(Exported(rows, n, bank, full.unit)) + 1];
      AfterFullCell(table, rows, full, all, sparse, upper, n, bank);
      AfterSparseCell(table, rows, full, all, sparse, upper, n, bank);
      assert AfterFull(table, rows, full, all, sparse, upper) != AfterSparse(table, rows, full, all, sparse, upper);
    }
  }

  lemma SameTables(table: OffsetTable, rows: Rows, full: Meta, all: seq<int>, sparse: seq<int>, upper: CaseMap)
    requires Exports(rows, full, all, sparse) && WithinCount(rows, full.registerCount)
    ensures AfterFull(table, rows, full, all, sparse, upper) == AfterSparse(table, rows, full, all, sparse, upper)
  {
    hide AfterFull, AfterSparse, Exported, RegisterIsEmpty, Exports, BanksOf;
    var a, b := AfterFull(table, rows, full, all, sparse, upper), AfterSparse(table, rows, full, all, sparse, upper);
    forall cell ensures Get(a, cell) == Get(b, cell) {
      var (n, bank) := cell;
      AfterFullCell(table, rows, full, all, sparse, upper, n, bank);
      AfterSparseCell(table, rows, full, all, sparse, upper, n, bank);
      if !(n in rows && !RegisterIsEmpty(rows[n])) { EmptyExportsZero(rows, n, bank, full.unit); }
    }
    SameByGet(a, b);
  }

  // ---------------------------------------------------------------- the two functions, as loops

  datatype BuildError = UnknownClass | UnknownUnit

  /** `sorted(...)` of the non-empty registers, or the whole range. */
  method SelectRegisters(rows: Rows, meta: Meta) returns (selected: seq<int>)
    ensures IsSelection(selected, rows, meta)
  {
    selected := [];
    if meta.sparse {
      selected := SortedMembers(set n | n in rows && !RegisterIsEmpty(rows[n]));
    } else {
      var n := 1;
      while n <= meta.registerCount
        invariant Ascending(selected) && 1 <= n && forall m :: m in selected <==> 1 <= m < n
        invariant n <= meta.registerCount + 1 || n == 1
      {
        AscendingSnoc(selected, n);
        selected := selected + [n];
        n := n + 1;
      }
    }
  }

  /** `build_g10`: the lines in order, joined. */
  method BuildG10(rows: Rows, meta: Meta, upper: CaseMap) returns (text: Result<string, BuildError>, selected: seq<int>)
    ensures IsSelection(selected, rows, meta)
    ensures text == Err(UnknownClass) <==> meta.machineClass != "mill" && meta.machineClass != "lathe"
    ensures text == Err(UnknownUnit) <==>
            && (meta.machineClass == "mill" || meta.machineClass == "lathe")
            && selected != [] && meta.unit != "inch" && meta.unit != "mm"
    ensures text.Ok? <==> Buildable(meta, selected)
    ensures text.Ok? ==> text.value == ProgramText(rows, meta, selected, upper)
  {
    selected := SelectRegisters(rows, meta);
    if meta.machineClass != "mill" && meta.machineClass != "lathe" { return Err(UnknownClass), selected; }
    if selected != [] && !KnownUnit(meta.unit) { return Err(UnknownUnit), selected; }
    var lines := HeaderLines(meta, |selected|, upper);
    lines := AppendBody(lines, rows, selected, meta.machineClass, meta.unit);
    lines := lines + ["M30", "%"];
    text := Ok(JoinLines(lines));
  }

  method AppendBody(header: seq<string>, rows: Rows, chosen: seq<int>, cls: string, unit: string)
    returns (lines: seq<string>)
    ensures lines == header + BodyLines(rows, chosen, cls, unit)
  {
    hide RegisterLines;
    lines := header;
    for i := 0 to |chosen|
      invariant lines == header + BodyLines(rows, chosen[..i], cls, unit)
    {
      assert chosen[..i + 1][..i] == chosen[..i];
      lines := lines + RegisterLines(rows, chosen[i], cls, unit);
    }
    assert chosen[..|chosen|] == chosen;
  }

  /** `ParsedG10`: filled in line by line. */
  class ParsedG10 {
    var rows: ParsedRows
    var machineClass: Option<string>

    constructor ()
      ensures Contents() == Parsed(map[], None)
    {
      rows, machineClass := map[], None;
    }

    ghost function Contents(): Parsed
      reads this
    {
      Parsed(rows, machineClass)
    }

    /** The first block decides; a later block of the other form is refused. */
    method SetClass(cls: string) returns (ok: bool)
      modifies this`machineClass
      ensures ok <==> old(machineClass).None? || old(machineClass) == Some(cls)
      ensures machineClass == if old(machineClass).None? then Some(cls) else old(machineClass)
    {
      if machineClass.None? { machineClass := Some(cls); return true; }
      return machineClass == Some(cls);
    }

    method SetBank(register: int, bank: RegisterType, value: Decimal)
      modifies this`rows
      ensures rows == Assign(old(rows), Write(register, bank, value))
    {
      var banks := if register in rows then rows[register] else map[];
      rows := rows[register := banks[bank := value]];
    }

    method SetBanks(ws: seq<Write>)
      modifies this`rows
      ensures rows == AssignAll(old(rows), ws)
    {
      for i := 0 to |ws|
        invariant rows == AssignAll(old(rows), ws[..i])
      {
        assert ws[..i + 1][..i] == ws[..i];
        SetBank(ws[i].register, ws[i].bank, ws[i].value);
      }
      assert ws[..|ws|] == ws;
    }

    /** The loop over the lines, up to the first refused block. */
    method TakeBlocks(blocks: seq<Block>) returns (error: Option<ParseError>)
      requires Contents() == Parsed(map[], None)
      modifies this
      ensures error.None? <==> ParseBlocks(blocks).Ok?
      ensures error.None? ==> Contents() == ParseBlocks(blocks).value
      ensures error.Some? ==> ParseBlocks(blocks).error == error.value
    {
      hide ApplyBlock;
      for i := 0 to |blocks|
        invariant ParseBlocks(blocks[..i]) == Ok(Contents())
      {
        assert blocks[..i + 1][..i] == blocks[..i];
        error := TakeBlock(blocks[i]);
        if error.Some? {
          StaysFailed(blocks, i + 1);
          return;
        }
      }
      assert blocks[..|blocks|] == blocks;
      error := None;
    }

    method TakeBlock(b: Block) returns (error: Option<ParseError>)
      modifies this
      ensures error.None? <==> ApplyBlock(old(Contents()), b).Ok?
      ensures error.None? ==> Contents() == ApplyBlock(old(Contents()), b).value
      ensures error.Some? ==> ApplyBlock(old(Contents()), b).error == error.value
    {
      match b
      case Quiet => return None;
      case Unrecognized => return Some(UnrecognizedBlock);
      case MillBlock(_, _, _) =>
        var ok := SetClass("mill");
        if !ok { return Some(MixedForms); }
        SetBanks(BlockWrites(b));
        return None;
      case LatheBlock(p, _, _, _, q) =>
        var ok := SetClass("lathe");
        if !ok { return Some(MixedForms); }
        SetBanks(BlockWrites(b));
        if p > 10000 && q.None? { return Some(MissingTip); }
        if p <= 10000 && q.Some? { return Some(TipOnWear); }
        return None;
    }
  }

  /** `parse_g10`: strict, line by line. */
  method ParseG10(text: string) returns (out: Result<ParsedG10, ParseError>)
    ensures out.Ok? <==> ParseText(text).Ok?
    ensures out.Ok? ==> fresh(out.value) && out.value.Contents() == ParseText(text).value
    ensures out.Err? ==> ParseText(text).error == out.error
  {
    hide SplitLines, ParseLine, ApplyBlock;
    var blocks := Blocks(SplitLines(text));
    var parsed := new ParsedG10();
    var error := parsed.TakeBlocks(blocks);
    out := if error.Some? then Err(error.value) else Ok(parsed);
  }

  lemma {:induction false} StaysFailed(blocks: seq<Block>, k: nat)
    requires k <= |blocks| && ParseBlocks(blocks[..k]).Err?
    ensures ParseBlocks(blocks) == ParseBlocks(blocks[..k])
  {
    if k < |blocks| {
      var n := |blocks| - 1;
      assert blocks[..n][..k] == blocks[..k];
      StaysFailed(blocks[..n], k);
    } else {
      assert blocks[..k] == blocks;
    }
  }
}
