/**
 The G10 offset program (`apps/tooling/api/services/g10.py`): what is exported, that it parses back,
 and what running it does to the control's offset table.
 */
module G10 {
  import opened Wrappers
  import opened DecimalText
  import opened FocasModels
  import opened G10Text
  import opened PlainText
  import opened Ordering

  type Banks = map<RegisterType, int>  // stored values, in 0.0001 units
  type Rows = map<int, Banks>

  datatype Meta = Meta(
    machineName: string, machineClass: string, unit: string, registerCount: int, sparse: bool,
    generatedAt: string, mirrorNote: string, formVerified: bool, programNumber: int)

  // ---------------------------------------------------------------- which registers

  predicate RegisterIsEmpty(banks: Banks) {
    forall b | b in banks :: banks[b] == 0
  }

  /** Sparse: registers with a non-zero bank.  Full: 1 to the register count. */
  predicate Chosen(rows: Rows, meta: Meta, n: int) {
    if meta.sparse then n in rows && !RegisterIsEmpty(rows[n]) else 1 <= n <= meta.registerCount
  }

  ghost predicate IsSelection(selected: seq<int>, rows: Rows, meta: Meta) {
    Ascending(selected) && forall n :: n in selected <==> Chosen(rows, meta, n)
  }

  /** In a sparse export a register is listed exactly if some bank of it holds something, in a full one
      exactly if the machine has it; in ascending order either way. */
  lemma SelectionIs(selected: seq<int>, rows: Rows, meta: Meta)
    requires IsSelection(selected, rows, meta)
    ensures forall i, j | 0 <= i < j < |selected| :: selected[i] < selected[j]
    ensures meta.sparse ==> forall n :: n in selected <==> n in rows && exists b :: b in rows[n] && rows[n][b] != 0
    ensures !meta.sparse ==> forall n :: n in selected <==> 1 <= n <= meta.registerCount
  {
    forall n ensures n in selected <==> Chosen(rows, meta, n) { }
  }

  // ---------------------------------------------------------------- the lines

  function ValueOf(rows: Rows, n: int, bank: RegisterType): int {
    if n in rows && bank in rows[n] then rows[n][bank] else 0
  }

  /** `int(value or 0)`: towards zero. */
  function TipOf(rows: Rows, n: int): int {
    var v := ValueOf(rows, n, Tip);
    if v >= 0 then v / 10000 else -(-v / 10000)
  }

  /** What the mirror holds of a bank: nothing at all is zero. */
  ghost function Stored(rows: Rows, n: int, bank: RegisterType): int {
    if n !in rows || bank !in rows[n] then 0 else rows[n][bank]
  }

  /** A tip code is the stored value cut towards zero. */
  lemma TipIs(rows: Rows, n: int)
    ensures var v, tip := Stored(rows, n, Tip), 10000 * TipOf(rows, n);
            if v >= 0 then tip <= v < tip + 10000 else tip - 10000 < v <= tip
  {
  }

  function MillLine(l: char, n: int, v: int, unit: string): string {
    "G10 L1" + ([l] + (" P" + (IntText(n) + (" R" + FormatValue(v, unit)))))
  }

  function LatheLine(p: int, x: int, z: int, r: int, unit: string, tip: string): string {
    "G10 P" + (IntText(p) + (" X" + (FormatValue(x, unit) + (" Z" + (FormatValue(z, unit)
      + (" R" + (FormatValue(r, unit) + tip)))))))
  }

  function WearLine(rows: Rows, n: int, unit: string): string {
    LatheLine(n, ValueOf(rows, n, XWear), ValueOf(rows, n, ZWear), ValueOf(rows, n, RWear), unit, "")
  }

  function GeometryLine(rows: Rows, n: int, unit: string): string {
    LatheLine(10000 + n, ValueOf(rows, n, XGeom), ValueOf(rows, n, ZGeom), ValueOf(rows, n, RGeom), unit,
              " Q" + IntText(TipOf(rows, n)))
  }

  function RegisterLines(rows: Rows, n: int, cls: string, unit: string): seq<string> {
    if cls == "mill" then
      [MillLine('0', n, ValueOf(rows, n, HGeom), unit), MillLine('1', n, ValueOf(rows, n, HWear), unit),
       MillLine('2', n, ValueOf(rows, n, DGeom), unit), MillLine('3', n, ValueOf(rows, n, DWear), unit)]
    else
      [WearLine(rows, n, unit), GeometryLine(rows, n, unit)]
  }

  function BodyLines(rows: Rows, selected: seq<int>, cls: string, unit: string): seq<string> {
    if selected == [] then [] else
    BodyLines(rows, selected[..|selected| - 1], cls, unit) + RegisterLines(rows, selected[|selected| - 1], cls, unit)
  }

  /** `f"{n:04d}"` */
  function ProgramDigits(n: int): string {
    if n < 0 then "-" + Padded(-n, 3) else Padded(n, 4)
  }

  function ScopeNote(meta: Meta, selectedCount: nat): string {
    if meta.sparse
    then "SPARSE - " + NatText(selectedCount) + " OF " + IntText(meta.registerCount) + " REGS - UNLISTED REGS UNTOUCHED"
    else "FULL TABLE - WRITES ALL " + IntText(meta.registerCount) + " REGS INCL ZEROS"
  }

  function ProgramLine(meta: Meta, upper: CaseMap): string {
    "O" + (ProgramDigits(meta.programNumber) + Comment("POTTRACKER OFFSET EXPORT", upper))
  }

  function HeaderLines(meta: Meta, selectedCount: nat, upper: CaseMap): seq<string> {
    ["%", ProgramLine(meta, upper),
     Comment("MACHINE " + meta.machineName, upper),
     Comment("GENERATED " + meta.generatedAt, upper),
     Comment(meta.mirrorNote, upper),
     Comment(ScopeNote(meta, selectedCount), upper)]
    + (if meta.formVerified then [] else [Comment("FORM UNVERIFIED ON THIS MACHINE - DO NOT RUN", upper)])
    + [Comment("UNIT " + meta.unit, upper), if meta.unit == "inch" then "G20" else "G21"]
    + (if meta.machineClass == "mill" then ["G90"] else [])
  }

  function ProgramLines(rows: Rows, meta: Meta, selected: seq<int>, upper: CaseMap): seq<string> {
    HeaderLines(meta, |selected|, upper) + BodyLines(rows, selected, meta.machineClass, meta.unit) + ["M30", "%"]
  }

  /** The two errors: a class that is neither, and a value in an unknown unit. */
  predicate Buildable(meta: Meta, selected: seq<int>) {
    (meta.machineClass == "mill" || meta.machineClass == "lathe") && (selected == [] || KnownUnit(meta.unit))
  }

  // ---------------------------------------------------------------- the parser's state

  type ParsedRows = map<int, map<RegisterType, Decimal>>

  datatype Parsed = Parsed(rows: ParsedRows, machineClass: Option<string>)
  datatype ParseError = UnrecognizedBlock | MixedForms | MissingTip | TipOnWear

  datatype Write = Write(register: int, bank: RegisterType, value: Decimal)

  /** The assignments of one block, in order. */
  function BlockWrites(b: Block): seq<Write> {
    match b
    case MillBlock(bank, n, v) => [Write(n, bank, v)]
    case LatheBlock(p, x, z, r, q) =>
      if p > 10000 then
        [Write(p - 10000, XGeom, x), Write(p - 10000, ZGeom, z), Write(p - 10000, RGeom, r)]
        + if q.Some? then [Write(p - 10000, Tip, Decimal(false, q.value, 0))] else []
      else
        [Write(p, XWear, x), Write(p, ZWear, z), Write(p, RWear, r)]
    case _ => []
  }

  /** `rows.setdefault(register, {})[bank] = value` */
  function Assign(rows: ParsedRows, w: Write): ParsedRows {
    rows[w.register := (if w.register in rows then rows[w.register] else map[])[w.bank := w.value]]
  }

  function AssignAll(rows: ParsedRows, ws: seq<Write>): ParsedRows {
    if ws == [] then rows else Assign(AssignAll(rows, ws[..|ws| - 1]), ws[|ws| - 1])
  }

  function BlockClass(b: Block): Option<string> {
    match b case MillBlock(_, _, _) => Some("mill") case LatheBlock(_, _, _, _, _) => Some("lathe") case _ => None
  }

  /** One block: class check, then assignments, then the tip rules. */
  function ApplyBlock(s: Parsed, b: Block): Result<Parsed, ParseError> {
    if b.Quiet? then Ok(s)
    else if b.Unrecognized? then Err(UnrecognizedBlock)
    else if s.machineClass.Some? && s.machineClass != BlockClass(b) then Err(MixedForms)
    else if b.LatheBlock? && b.p > 10000 && b.q.None? then Err(MissingTip)
    else if b.LatheBlock? && b.p <= 10000 && b.q.Some? then Err(TipOnWear)
    else Ok(Parsed(AssignAll(s.rows, BlockWrites(b)), BlockClass(b)))
  }

  function ParseBlocks(blocks: seq<Block>): Result<Parsed, ParseError> {
    if blocks == [] then Ok(Parsed(map[], None)) else
    var before := ParseBlocks(blocks[..|blocks| - 1]);
    if before.Err? then before else ApplyBlock(before.value, blocks[|blocks| - 1])
  }

  function Blocks(lines: seq<string>): seq<Block> {
    seq(|lines|, i requires 0 <= i < |lines| => ParseLine(lines[i]))
  }

  function ParseText(text: string): Result<Parsed, ParseError> {
    ParseBlocks(Blocks(SplitLines(text)))
  }

  /** Every assignment a program makes, in order. */
  function AllWrites(blocks: seq<Block>): seq<Write> {
    if blocks == [] then [] else
    AllWrites(blocks[..|blocks| - 1]) + BlockWrites(blocks[|blocks| - 1])
  }

  lemma {:induction false} AllWritesConcat(a: seq<Block>, b: seq<Block>)
    ensures AllWrites(a + b) == AllWrites(a) + AllWrites(b)
  {
    hide BlockWrites;
    if b == [] {
      assert a + b == a;
    } else {
      assert (a + b)[..|a + b| - 1] == a + b[..|b| - 1];
      AllWritesConcat(a, b[..|b| - 1]);
    }
  }

  lemma {:induction false} AssignAllConcat(rows: ParsedRows, a: seq<Write>, b: seq<Write>)
    ensures AssignAll(rows, a + b) == AssignAll(AssignAll(rows, a), b)
  {
    if b == [] {
      assert a + b == a;
    } else {
      assert (a + b)[..|a + b| - 1] == a + b[..|b| - 1];
      AssignAllConcat(rows, a, b[..|b| - 1]);
    }
  }

  /** A successful parse holds exactly what the program assigns. */
  lemma {:induction false} ParsedRowsAreWrites(blocks: seq<Block>)
    requires ParseBlocks(blocks).Ok?
    ensures ParseBlocks(blocks).value.rows == AssignAll(map[], AllWrites(blocks))
  {
    if blocks != [] {
      var n := |blocks| - 1;
      ParsedRowsAreWrites(blocks[..n]);
      AssignAllConcat(map[], AllWrites(blocks[..n]), BlockWrites(blocks[n]));
    }
  }

  // ---------------------------------------------------------------- which programs parse

  ghost predicate Good(b: Block, cls: string) {
    b.Quiet? || (BlockClass(b) == Some(cls) && (b.LatheBlock? ==> (b.p > 10000 <==> b.q.Some?)))
  }

  /** A block no state accepts. */
  ghost predicate Bad(b: Block) {
    b.Unrecognized? || (b.LatheBlock? && (b.p > 10000 <==> b.q.None?))
  }

  lemma {:induction false} GoodBlocksParse(blocks: seq<Block>, cls: string)
    requires forall i | 0 <= i < |blocks| :: Good(blocks[i], cls)
    ensures ParseBlocks(blocks).Ok?
    ensures ParseBlocks(blocks).value.machineClass ==
            if forall i | 0 <= i < |blocks| :: blocks[i].Quiet? then None else Some(cls)
  {
    if blocks != [] {
      var n := |blocks| - 1;
      var most := blocks[..n];
      assert forall i | 0 <= i < n :: most[i] == blocks[i];
      GoodBlocksParse(most, cls);
      assert Good(blocks[n], cls);
    }
  }

  /** Blocks that write are all of one class, and each is complete: a lathe geometry has its tip, a wear has
      none. */
  ghost predicate OneForm(blocks: seq<Block>) {
    exists cls :: AllOfClass(blocks, cls)
  }

  ghost predicate AllOfClass(blocks: seq<Block>, cls: string) {
    forall i | 0 <= i < |blocks| :: Good(blocks[i], cls)
  }

  /** The class a parse has come to is that of the blocks that wrote. */
  lemma {:induction false} ParsedClass(blocks: seq<Block>, cls: string)
    requires ParseBlocks(blocks).Ok?
    requires var found := ParseBlocks(blocks).value.machineClass; found.None? || found == Some(cls)
    ensures forall i | 0 <= i < |blocks| :: Good(blocks[i], cls)
  {
    if blocks != [] {
      var n := |blocks| - 1;
      hide AssignAll, BlockWrites;
      ParsedClass(blocks[..n], cls);
      forall i | 0 <= i < |blocks| ensures Good(blocks[i], cls) {
        if i < n { assert blocks[..n][i] == blocks[i]; }
      }
    }
  }

  /** A program parses exactly if its blocks are of one form. */
  lemma ParsesIff(blocks: seq<Block>)
    ensures ParseBlocks(blocks).Ok? <==> OneForm(blocks)
  {
    if ParseBlocks(blocks).Ok? {
      var found := ParseBlocks(blocks).value.machineClass;
      ParsedClass(blocks, if found.Some? then found.value else "mill");
      assert AllOfClass(blocks, if found.Some? then found.value else "mill");
    }
    if OneForm(blocks) {
      var cls :| AllOfClass(blocks, cls);
      GoodBlocksParse(blocks, cls);
    }
  }

  /** Why a block is refused, after a parse that has come to some class. */
  lemma BlockRefusedIff(s: Parsed, b: Block)
    ensures var e := ApplyBlock(s, b);
            && (e == Err(UnrecognizedBlock) <==> b.Unrecognized?)
            && (e == Err(MixedForms) <==> (b.MillBlock? && s.machineClass.Some? && s.machineClass != Some("mill"))
                                          || (b.LatheBlock? && s.machineClass.Some? && s.machineClass != Some("lathe")))
            && (e == Err(MissingTip) <==>
                && b.LatheBlock? && (s.machineClass.None? || s.machineClass == Some("lathe"))
                && b.p > 10000 && b.q.None?)
            && (e == Err(TipOnWear) <==>
                && b.LatheBlock? && (s.machineClass.None? || s.machineClass == Some("lathe"))
                && b.p <= 10000 && b.q.Some?)
  {
    hide AssignAll, BlockWrites;
  }

  lemma {:induction false} BadBlockFails(blocks: seq<Block>, k: nat)
    requires k < |blocks| && Bad(blocks[k])
    ensures ParseBlocks(blocks).Err?
  {
    var n := |blocks| - 1;
    if k < n {
      assert blocks[..n][k] == blocks[k];
      BadBlockFails(blocks[..n], k);
    }
  }

  // ---------------------------------------------------------------- printed lines, read back

  lemma FormatEnds(v: int, unit: string)
    ensures FormatValue(v, unit) != []
    ensures IsDigit(FormatValue(v, unit)[|FormatValue(v, unit)| - 1])
  {
    var d := Rounded(v, unit);
    DigitsRejoin(d);
    var f := FractionText(d);
    assert FormatValue(v, unit)[|FormatValue(v, unit)| - 1] == f[|f| - 1];
  }

  lemma IntTextEnds(n: int)
    ensures IntText(n) != [] && IsDigit(IntText(n)[|IntText(n)| - 1])
    ensures n < 0 ==> IntText(n)[0] == '-'
  {
    NatTextReads(if n < 0 then -n else n);
  }

  /** The line starts like a block and ends in a digit. */
  ghost predicate BlockShaped(line: string) {
    |line| > 4 && line[..4] == "G10 " && IsDigit(line[|line| - 1])
  }

  /** Such a line is not quiet and is parsed as it stands. */
  lemma BlockLineStands(line: string)
    requires BlockShaped(line)
    ensures ParseLine(line) == if ParseMill(line).Some? then ParseMill(line).value
                               else if ParseLathe(line).Some? then ParseLathe(line).value else Unrecognized
  {
    hide ParseMill, ParseLathe;
    assert line[0] == line[..4][0] == 'G';
    StripsToItself(line);
  }

  lemma MillLineShape(l: char, n: int, v: int, unit: string)
    ensures BlockShaped(MillLine(l, n, v, unit)) && MillLine(l, n, v, unit)[4] == 'L'
  {
    FormatEnds(v, unit);
    var line, f := MillLine(l, n, v, unit), FormatValue(v, unit);
    assert line == ("G10 L1" + [l] + " P" + IntText(n) + " R") + f;
    assert line[|line| - 1] == f[|f| - 1];
  }

  lemma MillLineMatches(l: char, n: nat, v: int, unit: string)
    requires BankOfL(l).Some?
    ensures ParseMill(MillLine(l, n, v, unit)) == Some(MillBlock(BankOfL(l).value, n, Rounded(v, unit)))
  {
    hide FormatValue, NatText, ReadNumber, ReadNat, Expect;
    var e := " R" + FormatValue(v, unit);
    var d := IntText(n) + e;
    var c := " P" + d;
    ExpectFinds("G10 L1", [l] + c);
    assert ([l] + c)[1..] == c && ([l] + c)[0] == l;
    ExpectFinds(" P", d);
    ReadNatOfText(n, e);
    ExpectFinds(" R", FormatValue(v, unit));
    ReadNumberFinds(v, unit, "");
    assert FormatValue(v, unit) + "" == FormatValue(v, unit);
  }

  lemma MillLineParses(l: char, n: nat, v: int, unit: string)
    requires BankOfL(l).Some?
    ensures ParseLine(MillLine(l, n, v, unit)) == MillBlock(BankOfL(l).value, n, Rounded(v, unit))
  {
    hide ParseMill, ParseLathe, ParseLine, MillLine;
    MillLineShape(l, n, v, unit);
    BlockLineStands(MillLine(l, n, v, unit));
    MillLineMatches(l, n, v, unit);
  }

  lemma NotLathe(line: string)
    requires |line| > 4 && line[4] == 'L'
    ensures ParseLathe(line) == None
  {
    assert "G10 P"[4] != line[4];
  }

  lemma NotMill(line: string)
    requires |line| > 4 && line[4] == 'P'
    ensures ParseMill(line) == None
  {
    assert "G10 L1"[4] != line[4];
  }

  lemma NegativeMillMismatch(l: char, n: int, v: int, unit: string)
    requires n < 0
    ensures ParseMill(MillLine(l, n, v, unit)) == None
  {
    hide FormatValue, Expect, ReadNumber;
    var d := IntText(n) + (" R" + FormatValue(v, unit));
    ExpectFinds("G10 L1", [l] + (" P" + d));
    assert ([l] + (" P" + d))[1..] == " P" + d;
    ExpectFinds(" P", d);
    IntTextEnds(n);
    assert d[0] == '-';
  }

  /** A negative register number is not a register number to the parser. */
  lemma NegativeMillLine(l: char, n: int, v: int, unit: string)
    requires n < 0
    ensures Bad(ParseLine(MillLine(l, n, v, unit)))
  {
    hide ParseMill, ParseLathe, ParseLine, MillLine;
    MillLineShape(l, n, v, unit);
    BlockLineStands(MillLine(l, n, v, unit));
    NegativeMillMismatch(l, n, v, unit);
    NotLathe(MillLine(l, n, v, unit));
  }

  ghost predicate TipText(tip: string) {
    tip == "" || (|tip| > 2 && tip[..2] == " Q" && IsDigit(tip[|tip| - 1]))
  }

  lemma LatheLineShape(p: int, x: int, z: int, r: int, unit: string, tip: string)
    requires TipText(tip)
    ensures BlockShaped(LatheLine(p, x, z, r, unit, tip)) && LatheLine(p, x, z, r, unit, tip)[4] == 'P'
  {
    FormatEnds(r, unit);
    hide FormatValue, IntText;
    var line, f := LatheLine(p, x, z, r, unit, tip), FormatValue(r, unit);
    var before := "G10 P" + IntText(p) + " X" + FormatValue(x, unit) + " Z" + FormatValue(z, unit) + " R";
    assert line == before + (f + tip);
    assert before[..4] == "G10 " && before[4] == 'P';
    var last := f + tip;
    assert last[|last| - 1] == if tip == "" then f[|f| - 1] else tip[|tip| - 1];
    assert line[|line| - 1] == last[|last| - 1];
  }

  lemma AddressReads(literal: string, v: int, unit: string, rest: string)
    requires StopsDigits(rest)
    ensures ReadAddress(literal + (FormatValue(v, unit) + rest), literal) == Some((Rounded(v, unit), rest))
  {
    ExpectFinds(literal, FormatValue(v, unit) + rest);
    ReadNumberFinds(v, unit, rest);
  }

  lemma LatheLineMatches(p: nat, x: int, z: int, r: int, unit: string, tip: string)
    requires TipText(tip)
    ensures ParseLathe(LatheLine(p, x, z, r, unit, tip)) ==
            if ParseTip(tip).None? then None
            else Some(LatheBlock(p, Rounded(x, unit), Rounded(z, unit), Rounded(r, unit), ParseTip(tip).value))
  {
    hide FormatValue, NatText, ReadNat, ReadAddress, Expect, ParseTip;
    var r' := " R" + (FormatValue(r, unit) + tip);
    var z' := " Z" + (FormatValue(z, unit) + r');
    var x' := " X" + (FormatValue(x, unit) + z');
    assert LatheLine(p, x, z, r, unit, tip) == "G10 P" + (IntText(p) + x');
    ExpectFinds("G10 P", IntText(p) + x');
    ReadNatOfText(p, x');
    AddressReads(" X", x, unit, z');
    AddressReads(" Z", z, unit, r');
    AddressReads(" R", r, unit, tip);
  }

  lemma LatheLineParses(p: nat, x: int, z: int, r: int, unit: string, tip: string)
    requires TipText(tip)
    ensures ParseLine(LatheLine(p, x, z, r, unit, tip)) ==
            if ParseTip(tip).None? then Unrecognized
            else LatheBlock(p, Rounded(x, unit), Rounded(z, unit), Rounded(r, unit), ParseTip(tip).value)
  {
    hide ParseMill, ParseLathe, ParseLine, LatheLine, ParseTip;
    var line := LatheLine(p, x, z, r, unit, tip);
    LatheLineShape(p, x, z, r, unit, tip);
    BlockLineStands(line);
    NotMill(line);
    LatheLineMatches(p, x, z, r, unit, tip);
  }

  lemma NegativeLatheMismatch(p: int, x: int, z: int, r: int, unit: string, tip: string)
    requires p < 0
    ensures ParseLathe(LatheLine(p, x, z, r, unit, tip)) == None
  {
    hide FormatValue, Expect, ReadAddress, ParseTip;
    var rest := IntText(p) + (" X" + (FormatValue(x, unit) + (" Z" + (FormatValue(z, unit)
      + (" R" + (FormatValue(r, unit) + tip))))));
    ExpectFinds("G10 P", rest);
    IntTextEnds(p);
    assert rest[0] == '-';
  }

  lemma NegativeLatheLine(p: int, x: int, z: int, r: int, unit: string, tip: string)
    requires TipText(tip) && p < 0
    ensures Bad(ParseLine(LatheLine(p, x, z, r, unit, tip)))
  {
    hide ParseMill, ParseLathe, ParseLine, LatheLine;
    var line := LatheLine(p, x, z, r, unit, tip);
    LatheLineShape(p, x, z, r, unit, tip);
    BlockLineStands(line);
    NotMill(line);
    NegativeLatheMismatch(p, x, z, r, unit, tip);
  }

  lemma TipTextReads(tip: int)
    ensures TipText(" Q" + IntText(tip))
    ensures ParseTip(" Q" + IntText(tip)) == if tip < 0 then None else Some(Some(tip))
  {
    IntTextEnds(tip);
    ExpectFinds(" Q", IntText(tip));
    if tip >= 0 {
      ReadNatOfText(tip, "");
      assert NatText(tip) + "" == NatText(tip);
    }
    var t := " Q" + IntText(tip);
    assert t[|t| - 1] == IntText(tip)[|IntText(tip)| - 1];
  }

  // ---------------------------------------------------------------- the header is quiet

  lemma CommentIsQuiet(s: string, upper: CaseMap)
    ensures ParseLine(Comment(s, upper)) == Quiet && OneLine(Comment(s, upper))
  {
    var c := Comment(s, upper);
    assert c[0] == '(' && c[|c| - 1] == ')';
    StripsToItself(c);
  }

  lemma ProgramDigitsShape(n: int)
    ensures n >= 0 ==> AllDigits(ProgramDigits(n)) && |ProgramDigits(n)| >= 4
    ensures n < 0 ==> |ProgramDigits(n)| >= 4 && ProgramDigits(n)[0] == '-'
    ensures OneLine(ProgramDigits(n))
  {
    hide Padded;
    if n < 0 { PaddedReads(-n, 3); } else { PaddedReads(n, 4); }
  }

  lemma OneLineConcat(a: string, b: string)
    requires OneLine(a) && OneLine(b)
    ensures OneLine(a + b)
  {
    hide IsBreak;
  }

  lemma ProgramLineShape(meta: Meta, upper: CaseMap)
    ensures var line := ProgramLine(meta, upper);
            && OneLine(line) && |line| > 4 && line[0] == 'O' && line[|line| - 1] == ')'
            && (IsProgramLine(line) <==> meta.programNumber >= 0)
  {
    var c, digits := Comment("POTTRACKER OFFSET EXPORT", upper), ProgramDigits(meta.programNumber);
    CommentIsQuiet("POTTRACKER OFFSET EXPORT", upper);
    assert c[0] == '(' && c[|c| - 1] == ')' && |c| >= 2;
    hide Comment, ParseLine, ProgramDigits, IsProgramLine;
    ProgramDigitsShape(meta.programNumber);
    assert OneLine("O");
    hide OneLine;
    NumberedLine(digits, c);
    OneLineConcat(digits, c);
    OneLineConcat("O", digits + c);
  }

  lemma NumberedLine(digits: string, c: string)
    requires digits != [] && |c| >= 2 && c[0] == '(' && c[|c| - 1] == ')'
    requires AllDigits(digits) || digits[0] == '-'
    ensures var line := "O" + (digits + c);
            line[0] == 'O' && line[|line| - 1] == ')' && (IsProgramLine(line) <==> AllDigits(digits))
  {
    var line := "O" + (digits + c);
    assert line[1..] == digits + c;
    assert line[|line| - 1] == c[|c| - 1];
    if AllDigits(digits) {
      TakesDigits(digits, c);
      assert line[1 + |digits|..] == line[1..][|digits|..];
    } else {
      assert (digits + c)[0] == '-';
    }
  }

  lemma OLineIsNoBlock(line: string)
    requires |line| > 4 && line[0] == 'O' && line[|line| - 1] == ')'
    ensures ParseLine(line) == if IsProgramLine(line) then Quiet else Unrecognized
  {
    assert "G10 L1"[0] != line[0] && "G10 P"[0] != line[0];
    hide IsProgramLine, ReadNat, ReadAddress, ReadNumber, ParseTip;
    StripsToItself(line);
  }

  lemma ProgramLineQuietIff(meta: Meta, upper: CaseMap)
    ensures OneLine(ProgramLine(meta, upper))
    ensures ParseLine(ProgramLine(meta, upper)) == if meta.programNumber >= 0 then Quiet else Unrecognized
  {
    hide ParseLine, ProgramLine, IsProgramLine;
    ProgramLineShape(meta, upper);
    OLineIsNoBlock(ProgramLine(meta, upper));
  }
}
