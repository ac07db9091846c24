/**
 Running an exported program on a control that has modes: the unit it reads numbers in, and whether an
 offset replaces or adds.  What the program leaves is a length in a unit, whatever mode it found.
 */
module G10Control {
  import opened Wrappers
  import opened FocasModels
  import opened DecimalText
  import opened PlainText
  import opened Ordering
  import opened G10Text
  import opened G10
  import opened G10Program

  /** A stored length, in 0.0001 of the unit it was given in. */
  datatype Length = Length(counts: int, inch: bool)

  type Cell = (int, RegisterType)

  /** `cycling`: a lathe (G-code system A) has taken G90 as a turning cycle. */
  datatype Control = Control(lathe: bool, inch: bool, absolute: bool, cycling: bool, cells: map<Cell, Length>)

  /** The assignments a block stands for.  On a lathe P up to 10000 is wear, above it geometry. */
  ghost function Means(b: Block): seq<Write> {
    match b
    case MillBlock(bank, n, v) => [Write(n, bank, v)]
    case LatheBlock(p, x, z, r, None) => [Write(p, XWear, x), Write(p, ZWear, z), Write(p, RWear, r)]
    case LatheBlock(p, x, z, r, Some(tip)) =>
      [Write(p - 10000, XGeom, x), Write(p - 10000, ZGeom, z), Write(p - 10000, RGeom, r),
       Write(p - 10000, Tip, Decimal(false, tip, 0))]
    case _ => []
  }

  ghost function GridCounts(d: Decimal): int {
    if d.places <= 4 then Counts(d) else 0
  }

  /** Without G90 a mill adds the value to what the register holds. */
  ghost function Put(c: Control, w: Write): Control {
    var cell := (w.register, w.bank);
    var base := if !c.lathe && !c.absolute && cell in c.cells then c.cells[cell].counts else 0;
    c.(cells := c.cells[cell := Length(base + GridCounts(w.value), c.inch)])
  }

  ghost function PutAll(c: Control, ws: seq<Write>): Control {
    if ws == [] then c else Put(PutAll(c, ws[..|ws| - 1]), ws[|ws| - 1])
  }

  ghost function Obey(c: Control, line: string): Control {
    if line == "G20" then c.(inch := true)
    else if line == "G21" then c.(inch := false)
    else if line == "G90" then if c.lathe then c.(cycling := true) else c.(absolute := true)
    else PutAll(c, Means(ParseLine(line)))
  }

  ghost function ObeyAll(c: Control, lines: seq<string>): Control {
    if lines == [] then c else Obey(ObeyAll(c, lines[..|lines| - 1]), lines[|lines| - 1])
  }

  lemma {:induction false} ObeyConcat(c: Control, a: seq<string>, b: seq<string>)
    ensures ObeyAll(c, a + b) == ObeyAll(ObeyAll(c, a), b)
  {
    hide Obey;
    if b == [] {
      assert a + b == a;
    } else {
      assert (a + b)[..|a + b| - 1] == a + b[..|b| - 1];
      ObeyConcat(c, a, b[..|b| - 1]);
    }
  }

  // ---------------------------------------------------------------- lines that do nothing

  /** Quiet, and no mode. */
  ghost predicate Idle(line: string) {
    ParseLine(line) == Quiet && line != "G20" && line != "G21" && line != "G90"
  }

  ghost predicate AllIdle(lines: seq<string>) {
    forall i | 0 <= i < |lines| :: Idle(lines[i])
  }

  lemma {:induction false} IdleKeeps(c: Control, lines: seq<string>)
    requires AllIdle(lines)
    ensures ObeyAll(c, lines) == c
  {
    hide ParseLine;
    if lines != [] {
      IdleKeeps(c, lines[..|lines| - 1]);
      assert Idle(lines[|lines| - 1]);
    }
  }

  /** The header before its unit code. */
  function Preamble(meta: Meta, selectedCount: nat, upper: CaseMap): seq<string> {
    ["%", ProgramLine(meta, upper),
     Comment("MACHINE " + meta.machineName, upper),
     Comment("GENERATED " + meta.generatedAt, upper),
     Comment(meta.mirrorNote, upper),
     Comment(ScopeNote(meta, selectedCount), upper)]
    + (if meta.formVerified then [] else [Comment("FORM UNVERIFIED ON THIS MACHINE - DO NOT RUN", upper)])
    + [Comment("UNIT " + meta.unit, upper)]
  }

  function Modes(meta: Meta): seq<string> {
    [if meta.unit == "inch" then "G20" else "G21"] + if meta.machineClass == "mill" then ["G90"] else []
  }

  lemma HeaderIs(meta: Meta, selectedCount: nat, upper: CaseMap)
    ensures HeaderLines(meta, selectedCount, upper) == Preamble(meta, selectedCount, upper) + Modes(meta)
  {
    hide Comment, ProgramLine, ScopeNote;
  }

  lemma CommentStarts(s: string, upper: CaseMap)
    ensures Comment(s, upper) != [] && Comment(s, upper)[0] == '('
  {
  }

  /** No line of it starts as a G code. */
  lemma PreambleStarts(meta: Meta, selectedCount: nat, upper: CaseMap)
    ensures var p := Preamble(meta, selectedCount, upper); forall i | 0 <= i < |p| :: p[i] != [] && p[i][0] != 'G'
  {
    CommentStarts("MACHINE " + meta.machineName, upper);
    CommentStarts("GENERATED " + meta.generatedAt, upper);
    CommentStarts(meta.mirrorNote, upper);
    CommentStarts(ScopeNote(meta, selectedCount), upper);
    CommentStarts("FORM UNVERIFIED ON THIS MACHINE - DO NOT RUN", upper);
    CommentStarts("UNIT " + meta.unit, upper);
    assert ProgramLine(meta, upper)[0] == 'O';
    hide Comment, ProgramLine, ScopeNote;
  }

  lemma PreambleIdle(meta: Meta, selectedCount: nat, upper: CaseMap)
    requires meta.programNumber >= 0
    ensures AllIdle(Preamble(meta, selectedCount, upper))
  {
    hide ParseLine, HeaderLines, Preamble;
    HeaderParses(meta, selectedCount, upper);
    HeaderIs(meta, selectedCount, upper);
    PreambleStarts(meta, selectedCount, upper);
    var p, h := Preamble(meta, selectedCount, upper), HeaderLines(meta, selectedCount, upper);
    forall i | 0 <= i < |p| ensures Idle(p[i]) {
      assert p[i] == h[i] && "G20"[0] == 'G' && "G21"[0] == 'G' && "G90"[0] == 'G';
    }
  }

  lemma ModesSet(c: Control, meta: Meta)
    requires c.lathe == (meta.machineClass == "lathe") && (meta.machineClass == "mill" || meta.machineClass == "lathe")
    ensures ObeyAll(c, Modes(meta)) == c.(inch := meta.unit == "inch", absolute := c.absolute || !c.lathe)
  {
    hide ParseLine;
    var u := if meta.unit == "inch" then "G20" else "G21";
    assert ObeyAll(c, []) == c;
    assert [u][..0] == [] && ObeyAll(c, [u]) == Obey(c, u);
    assert [u, "G90"][..1] == [u];
    assert Modes(meta) == if meta.machineClass == "mill" then [u, "G90"] else [u];
  }

  // ---------------------------------------------------------------- the body

  lemma GoodMeans(b: Block, cls: string)
    requires Good(b, cls)
    ensures Means(b) == BlockWrites(b)
  {
  }

  lemma {:induction false} PutConcat(c: Control, a: seq<Write>, b: seq<Write>)
    ensures PutAll(c, a + b) == PutAll(PutAll(c, a), b)
  {
    hide Put;
    if b == [] {
      assert a + b == a;
    } else {
      assert (a + b)[..|a + b| - 1] == a + b[..|b| - 1];
      PutConcat(c, a, b[..|b| - 1]);
    }
  }

  lemma LineIsNoMode(line: string)
    requires !ParseLine(line).Quiet?
    ensures line != "G20" && line != "G21" && line != "G90"
  {
    FixedLinesQuiet();
    hide ParseLine;
  }

  lemma {:induction false} BodyPuts(c: Control, lines: seq<string>, cls: string)
    requires AllGood(Blocks(lines), cls)
    ensures ObeyAll(c, lines) == PutAll(c, AllWrites(Blocks(lines)))
  {
    hide ParseLine, Good, BlockWrites, Means;
    if lines != [] {
      var n := |lines| - 1;
      var blocks := Blocks(lines);
      assert Blocks(lines[..n]) == blocks[..n];
      BodyPuts(c, lines[..n], cls);
      assert Good(blocks[n], cls) && !blocks[n].Quiet?;
      LineIsNoMode(lines[n]);
      GoodMeans(blocks[n], cls);
      PutConcat(c, AllWrites(blocks[..n]), BlockWrites(blocks[n]));
    }
  }

  /** In absolute mode, or on a lathe, what is put is what the assignments say, in the unit in force. */
  lemma {:induction false} PutIsExec(c: Control, ws: seq<Write>, cell: Cell)
    requires (c.lathe || c.absolute) && OnGrid(ws)
    ensures var r := PutAll(c, ws);
            && r == c.(cells := r.cells)
            && Get(r.cells, cell) == match Get(Exec(map[], ws), cell)
                                     case Some(v) => Some(Length(v, c.inch))
                                     case None => Get(c.cells, cell)
  {
    if ws != [] {
      PutIsExec(c, ws[..|ws| - 1], cell);
    }
  }

  // ---------------------------------------------------------------- the whole program

  lemma TailIdle()
    ensures AllIdle(["M30", "%"])
  {
    FixedLinesQuiet();
    hide ParseLine;
  }

  lemma RunLines(c: Control, rows: Rows, meta: Meta, selected: seq<int>, upper: CaseMap)
    requires Buildable(meta, selected) && Printable(rows, meta, selected) && c.lathe == (meta.machineClass == "lathe")
    ensures var d := c.(inch := meta.unit == "inch", absolute := c.absolute || !c.lathe);
            ObeyAll(c, SplitLines(ProgramText(rows, meta, selected, upper))) ==
            PutAll(d, BodyWrites(rows, selected, meta.machineClass, meta.unit))
  {
    var cls, unit := meta.machineClass, meta.unit;
    TextSplits(rows, meta, selected, upper);
    HeaderIs(meta, |selected|, upper);
    PreambleIdle(meta, |selected|, upper);
    TailIdle();
    BodyParses(rows, selected, cls, unit);
    hide SplitLines, ProgramText, Preamble, Modes, BodyLines, HeaderLines, Blocks;
    hide AllIdle, BodyWrites, AllGood, ObeyAll;
    var p, m, b := Preamble(meta, |selected|, upper), Modes(meta), BodyLines(rows, selected, cls, unit);
    ObeyConcat(c, p + m + b, ["M30", "%"]);
    ObeyConcat(c, p + m, b);
    ObeyConcat(c, p, m);
    IdleKeeps(c, p);
    ModesSet(c, meta);
    var d := c.(inch := unit == "inch", absolute := c.absolute || !c.lathe);
    BodyPuts(d, b, cls);
    IdleKeeps(ObeyAll(d, b), ["M30", "%"]);
  }

  /** Whatever modes and table it starts from, a control that runs a printable program ends in the export's
      unit — a mill in absolute mode, a lathe without ever starting a cycle — with every bank of a selected
      register at the exported value in that unit, and with every other cell as it was. */
  lemma ProgramLeaves(
    c: Control, rows: Rows, meta: Meta, selected: seq<int>, upper: CaseMap, n: int, bank: RegisterType)
    requires Buildable(meta, selected) && Printable(rows, meta, selected) && c.lathe == (meta.machineClass == "lathe")
    ensures var r := ObeyAll(c, SplitLines(ProgramText(rows, meta, selected, upper)));
            && r.lathe == c.lathe && r.cycling == c.cycling
            && (r.inch <==> meta.unit == "inch") && (r.lathe || r.absolute)
            && Get(r.cells, (n, bank)) ==
               if n in selected && bank in BanksOf(meta.machineClass)
               then Some(Length(Counts(Exported(rows, n, bank, meta.unit)), meta.unit == "inch"))
               else Get(c.cells, (n, bank))
  {
    var ws := BodyWrites(rows, selected, meta.machineClass, meta.unit);
    var d := c.(inch := meta.unit == "inch", absolute := c.absolute || !c.lathe);
    RunLines(c, rows, meta, selected, upper);
    BodyCell(map[], rows, selected, meta.machineClass, meta.unit, n, bank);
    PutIsExec(d, ws, (n, bank));
    hide BodyWrites, BanksOf, Exported, PutAll, Exec, ObeyAll, SplitLines, ProgramText;
  }

  /** So every bank of a chosen register, but the tip code, ends at its stored value: in inches exactly, in
      millimetres within half a micrometre. */
  lemma LengthsArrive(
    c: Control, rows: Rows, meta: Meta, selected: seq<int>, upper: CaseMap, n: int, bank: RegisterType)
    requires IsSelection(selected, rows, meta) && Chosen(rows, meta, n)
    requires Buildable(meta, selected) && Printable(rows, meta, selected) && c.lathe == (meta.machineClass == "lathe")
    requires bank in BanksOf(meta.machineClass) && bank != Tip
    ensures var r := ObeyAll(c, SplitLines(ProgramText(rows, meta, selected, upper)));
            && (n, bank) in r.cells
            && var l := r.cells[(n, bank)];
               && (l.inch <==> meta.unit == "inch")
               && (l.inch ==> l.counts == Stored(rows, n, bank))
               && -5 <= l.counts - Stored(rows, n, bank) <= 5
  {
    ProgramLeaves(c, rows, meta, selected, upper, n, bank);
    ExportedClose(rows, n, bank, meta.unit);
    hide ObeyAll, SplitLines, ProgramText, BanksOf, Exported, Chosen;
    assert n in selected;
  }

  // ---------------------------------------------------------------- where the modes stand

  /** Of the lines of the text exactly one is a unit code, the export's own; G90 is there exactly for a mill;
      and both stand before every line that writes. */
  lemma ModesStand(rows: Rows, meta: Meta, selected: seq<int>, upper: CaseMap) returns (u: nat)
    requires Buildable(meta, selected) && Printable(rows, meta, selected)
    ensures var lines := SplitLines(ProgramText(rows, meta, selected, upper));
            && u < |lines| && lines[u] == (if meta.unit == "inch" then "G20" else "G21")
            && (forall i | 0 <= i < |lines| && i != u :: lines[i] != "G20" && lines[i] != "G21")
            && ("G90" in lines <==> meta.machineClass == "mill")
            && (forall i | 0 <= i < |lines| && !ParseLine(lines[i]).Quiet? :: i > u)
            && (forall i, j | 0 <= i < j < |lines| && !ParseLine(lines[i]).Quiet? :: lines[j] != "G90")
  {
    hide *;
    TextParts(rows, meta, selected, upper);
    u := |Preamble(meta, |selected|, upper)|;
    ModesAmong(Preamble(meta, |selected|, upper), Modes(meta),
               BodyLines(rows, selected, meta.machineClass, meta.unit), ["M30", "%"], meta.machineClass == "mill");
    ModesAre(meta);
  }

  lemma ModesAre(meta: Meta)
    ensures var m := Modes(meta);
            && |m| >= 1 && m[0] == (if meta.unit == "inch" then "G20" else "G21")
            && m[1..] == (if meta.machineClass == "mill" then ["G90"] else [])
            && ParseLine(m[0]).Quiet? && (meta.machineClass == "mill" ==> ParseLine(m[1]).Quiet?)
  {
    FixedLinesQuiet();
    hide ParseLine;
  }

  lemma TextParts(rows: Rows, meta: Meta, selected: seq<int>, upper: CaseMap)
    requires Buildable(meta, selected) && Printable(rows, meta, selected)
    ensures var p, m := Preamble(meta, |selected|, upper), Modes(meta);
            var b := BodyLines(rows, selected, meta.machineClass, meta.unit);
            && SplitLines(ProgramText(rows, meta, selected, upper)) == p + m + b + ["M30", "%"]
            && AllIdle(p) && AllIdle(["M30", "%"]) && Busy(b)
            && m != [] && m[1..] == (if meta.machineClass == "mill" then ["G90"] else [])
            && (m[0] == "G20" || m[0] == "G21")
            && ParseLine(m[0]).Quiet? && (meta.machineClass == "mill" ==> ParseLine(m[1]).Quiet?)
  {
    var cls, unit := meta.machineClass, meta.unit;
    BodyParses(rows, selected, cls, unit);
    hide SplitLines, ProgramText, Preamble, Modes, BodyLines, HeaderLines, Blocks;
    hide ParseLine, AllGood, AllIdle, Busy, BodyWrites;
    TextSplits(rows, meta, selected, upper);
    HeaderIs(meta, |selected|, upper);
    PreambleIdle(meta, |selected|, upper);
    TailIdle();
    ModesAre(meta);
    BodyIsBusy(BodyLines(rows, selected, cls, unit), cls);
  }

  /** Lines that write, and are no mode. */
  ghost predicate Busy(lines: seq<string>) {
    forall i | 0 <= i < |lines| ::
      !ParseLine(lines[i]).Quiet? && lines[i] != "G20" && lines[i] != "G21" && lines[i] != "G90"
  }

  lemma BodyIsBusy(lines: seq<string>, cls: string)
    requires AllGood(Blocks(lines), cls)
    ensures Busy(lines)
  {
    hide ParseLine, Good;
    forall i | 0 <= i < |lines|
      ensures !ParseLine(lines[i]).Quiet? && lines[i] != "G20" && lines[i] != "G21" && lines[i] != "G90"
    {
      assert Blocks(lines)[i] == ParseLine(lines[i]) && !Blocks(lines)[i].Quiet?;
      LineIsNoMode(lines[i]);
    }
  }

  lemma ModesAmong(p: seq<string>, m: seq<string>, b: seq<string>, t: seq<string>, mill: bool)
    requires AllIdle(p) && AllIdle(t) && Busy(b)
    requires m != [] && m[1..] == (if mill then ["G90"] else []) && (m[0] == "G20" || m[0] == "G21")
    requires ParseLine(m[0]).Quiet? && (mill ==> ParseLine(m[1]).Quiet?)
    ensures var lines := p + m + b + t;
            && lines[|p|] == m[0]
            && (forall i | 0 <= i < |lines| && i != |p| :: lines[i] != "G20" && lines[i] != "G21")
            && ("G90" in lines <==> mill)
            && (forall i | 0 <= i < |lines| && !ParseLine(lines[i]).Quiet? :: i > |p|)
            && (forall i, j | 0 <= i < j < |lines| && !ParseLine(lines[i]).Quiet? :: lines[j] != "G90")
  {
    hide ParseLine;
    var lines := p + m + b + t;
    forall i | 0 <= i < |lines| && i != |p|
      ensures lines[i] != "G20" && lines[i] != "G21"
      ensures lines[i] == "G90" ==> mill && i == |p| + 1
      ensures !ParseLine(lines[i]).Quiet? ==> |p| + |m| <= i
    {
      if i < |p| { assert Idle(p[i]) && lines[i] == p[i]; }
      else if i < |p| + |m| { assert lines[i] == m[1..][i - |p| - 1]; }
      else if i < |p| + |m| + |b| { assert lines[i] == b[i - |p| - |m|]; }
      else { assert Idle(t[i - |p| - |m| - |b|]) && lines[i] == t[i - |p| - |m| - |b|]; }
    }
    if mill { assert lines[|p| + 1] == m[1..][0]; }
  }

  // ---------------------------------------------------------------- what the header says

  /** The line is the text as a comment. */
  ghost predicate Punched(line: string, text: string, upper: CaseMap) {
    var u := Upper(text, upper);
    && |line| == |u| + 2 && line[0] == '(' && line[|line| - 1] == ')'
    && forall i | 0 <= i < |u| :: line[i + 1] == if PunchChar(u[i]) then u[i] else '-'
  }

  /** The line is the program number, in four digits or more, and the title. */
  ghost predicate ProgramNumbered(line: string, digits: string, number: int, upper: CaseMap) {
    && |digits| >= 4 && AllDigits(digits) && NatValue(digits) == number
    && |line| > 1 + |digits| && line[..1 + |digits|] == "O" + digits
    && Punched(line[1 + |digits|..], "POTTRACKER OFFSET EXPORT", upper)
  }

  /** Which of the two scope notes it is. */
  ghost predicate ScopeText(text: string, meta: Meta, selectedCount: nat) {
    if meta.sparse then
      text == "SPARSE - " + NatText(selectedCount) + " OF " + IntText(meta.registerCount)
              + " REGS - UNLISTED REGS UNTOUCHED"
    else text == "FULL TABLE - WRITES ALL " + IntText(meta.registerCount) + " REGS INCL ZEROS"
  }

  /** What a reader of the text finds at its head and its end: the tape marks and the end of program, a program
      number of four digits or more, the machine, the time, the freshness and the scope, the warning exactly if
      the form is unverified, and the unit. */
  lemma HeaderSays(rows: Rows, meta: Meta, selected: seq<int>, upper: CaseMap) returns (digits: string, scope: string)
    requires meta.programNumber >= 0
    ensures var lines := SplitLines(ProgramText(rows, meta, selected, upper));
            var at := if meta.formVerified then 6 else 7;
            && |lines| >= at + 4 && lines[0] == "%" && lines[|lines| - 2] == "M30" && lines[|lines| - 1] == "%"
            && ProgramNumbered(lines[1], digits, meta.programNumber, upper)
            && Punched(lines[2], "MACHINE " + meta.machineName, upper)
            && Punched(lines[3], "GENERATED " + meta.generatedAt, upper)
            && Punched(lines[4], meta.mirrorNote, upper)
            && ScopeText(scope, meta, |selected|) && Punched(lines[5], scope, upper)
            && (!meta.formVerified ==> Punched(lines[6], "FORM UNVERIFIED ON THIS MACHINE - DO NOT RUN", upper))
            && Punched(lines[at], "UNIT " + meta.unit, upper)
            && lines[at + 1] == if meta.unit == "inch" then "G20" else "G21"
  {
    digits, scope := ProgramDigits(meta.programNumber), ScopeNote(meta, |selected|);
    ProgramLineNumbered(meta, upper);
    ScopeNoteIs(meta, |selected|);
    hide *;
    PreambleSays(meta, |selected|, upper);
    LinesAt(rows, meta, selected, upper);
  }

  lemma ScopeNoteIs(meta: Meta, selectedCount: nat)
    ensures ScopeText(ScopeNote(meta, selectedCount), meta, selectedCount)
  {
    hide NatText, IntText;
  }

  /** Where the parts of the text stand. */
  lemma LinesAt(rows: Rows, meta: Meta, selected: seq<int>, upper: CaseMap)
    ensures var p, lines := Preamble(meta, |selected|, upper), SplitLines(ProgramText(rows, meta, selected, upper));
            && |lines| >= |p| + 3 && (forall i | 0 <= i < |p| :: lines[i] == p[i])
            && lines[|p|] == (if meta.unit == "inch" then "G20" else "G21")
            && lines[|lines| - 2] == "M30" && lines[|lines| - 1] == "%"
  {
    hide Preamble, HeaderLines, BodyLines, SplitLines, ProgramText;
    TextSplits(rows, meta, selected, upper);
    HeaderIs(meta, |selected|, upper);
  }

  lemma CommentPunched(text: string, upper: CaseMap)
    ensures Punched(Comment(text, upper), text, upper)
  {
    CommentReads(text, upper);
    hide Comment, Upper, PunchChar;
  }

  lemma PreambleSays(meta: Meta, selectedCount: nat, upper: CaseMap)
    ensures var p, at := Preamble(meta, selectedCount, upper), if meta.formVerified then 6 else 7;
            && |p| == at + 1 && p[0] == "%" && p[1] == ProgramLine(meta, upper)
            && Punched(p[2], "MACHINE " + meta.machineName, upper)
            && Punched(p[3], "GENERATED " + meta.generatedAt, upper)
            && Punched(p[4], meta.mirrorNote, upper)
            && Punched(p[5], ScopeNote(meta, selectedCount), upper)
            && (!meta.formVerified ==> Punched(p[6], "FORM UNVERIFIED ON THIS MACHINE - DO NOT RUN", upper))
            && Punched(p[at], "UNIT " + meta.unit, upper)
  {
    hide Comment, Punched, ProgramLine, ScopeNote;
    CommentPunched("MACHINE " + meta.machineName, upper);
    CommentPunched("GENERATED " + meta.generatedAt, upper);
    CommentPunched(meta.mirrorNote, upper);
    CommentPunched(ScopeNote(meta, selectedCount), upper);
    CommentPunched("FORM UNVERIFIED ON THIS MACHINE - DO NOT RUN", upper);
    CommentPunched("UNIT " + meta.unit, upper);
  }

  lemma ProgramLineNumbered(meta: Meta, upper: CaseMap)
    requires meta.programNumber >= 0
    ensures ProgramNumbered(ProgramLine(meta, upper), ProgramDigits(meta.programNumber), meta.programNumber, upper)
  {
    hide Padded, ProgramDigits, ProgramLine, Comment, Punched;
    PaddedReads(meta.programNumber, 4);
    ProgramLineIs(meta, upper);
    CommentPunched("POTTRACKER OFFSET EXPORT", upper);
  }

  lemma ProgramLineIs(meta: Meta, upper: CaseMap)
    requires meta.programNumber >= 0
    ensures var line, digits := ProgramLine(meta, upper), ProgramDigits(meta.programNumber);
            && digits == Padded(meta.programNumber, 4)
            && |line| > 1 + |digits| && line[..1 + |digits|] == "O" + digits
            && line[1 + |digits|..] == Comment("POTTRACKER OFFSET EXPORT", upper)
  {
    var c, digits := Comment("POTTRACKER OFFSET EXPORT", upper), ProgramDigits(meta.programNumber);
    assert c[0] == '(';
    hide Comment, Padded;
    assert ProgramLine(meta, upper) == ("O" + digits) + c;
  }
}
