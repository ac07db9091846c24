/**
 The clone-row planner (`src/techdb_insert.py`): which rows a run would insert into the TechDB copy and
 under which IDs, dry or for real.

 A table maps IDs to the values of its other columns.  What the database makes of an inserted row — column
 affinities, constraints — is its own affair: `keep` gives the row as stored, or nothing when the insert
 is refused.
 */
module TechDbPlan {
  import opened Wrappers
  import PlainText
  import Ordering

  datatype Value = Null | Number(value: real) | Text(text: string)

  type Values = map<string, Value>

  datatype Table = Table(columns: seq<string>, rows: map<int, Values>,
                         keep: (map<int, Values>, Values) -> Option<Values>)

  type Db = map<string, Table>

  /** Explicit `--set` values; the ID is not among them. */
  type Overrides = m: Values | "ID" !in m

  datatype Template = Template(table: string, id: Option<int>)

  datatype Settings = Settings(templates: map<string, Template>, extra: Overrides)

  datatype RegistryRow = RegistryRow(
    rowid: int, shopLabel: Option<string>, toolClass: string, vendor: Option<string>, partNo: Option<string>,
    techdbId: Option<int>, techdbTable: Option<string>)

  datatype Refusal =
    | TapNotMapped | NoTemplate | ProtectedTable | TemplateUnconfirmed
    | TableMissing | NoIdColumn | TemplateRowMissing | EmptyLabel | ColumnsMissing

  datatype Planned = Planned(rowid: int, table: string, id: int, overrides: Overrides, values: Values)

  datatype Decision = Insert(plan: Planned) | Skip(rowid: int, refusal: Refusal)

  // ---------------------------------------------------------------- one row

  function LowerChar(c: char): char {
    if 'A' <= c <= 'Z' then c - 'A' + 'a' else c
  }

  function Lower(s: string): string { seq(|s|, i requires 0 <= i < |s| => LowerChar(s[i])) }

  predicate Protected(table: string) {
    var lowered := Lower(table);
    lowered == "techdbverinfotable" || (|lowered| >= 4 && lowered[|lowered| - 4..] == "desc")
  }

  /** The same letter, large or small. */
  ghost predicate SameLetter(c: char, small: char) {
    c == small || ('a' <= small <= 'z' && c == small - 'a' + 'A')
  }

  /** The text is the word, letter by letter, whatever the case. */
  ghost predicate Spells(s: string, word: string) {
    |s| == |word| && forall i | 0 <= i < |s| :: SameLetter(s[i], word[i])
  }

  ghost predicate NoCapitals(word: string) {
    forall i | 0 <= i < |word| :: !('A' <= word[i] <= 'Z')
  }

  lemma LowerSpells(s: string, word: string)
    requires NoCapitals(word)
    ensures Lower(s) == word <==> Spells(s, word)
  {
    if |s| == |word| {
      forall i | 0 <= i < |s| ensures LowerChar(s[i]) == word[i] <==> SameLetter(s[i], word[i]) {
        assert !('A' <= word[i] <= 'Z');
      }
    }
  }

  /** The version table, and every table whose name ends in "desc". */
  ghost predicate Forbidden(table: string) {
    Spells(table, "techdbverinfotable") || (|table| >= 4 && Spells(table[|table| - 4..], "desc"))
  }

  lemma ProtectedIff(table: string)
    ensures Protected(table) <==> Forbidden(table)
  {
    LowerSpells(table, "techdbverinfotable");
    if |table| >= 4 {
      LowerSpells(table[|table| - 4..], "desc");
      assert Lower(table)[|table| - 4..] == Lower(table[|table| - 4..]);
    }
    hide Lower, Spells;
    assert |Lower(table)| == |table| by { LowerLength(table); }
  }

  lemma LowerLength(s: string)
    ensures |Lower(s)| == |s|
  {
  }

  /** The class's table and template row. */
  function ResolveTemplate(toolClass: string, templates: map<string, Template>): Result<(string, int), Refusal> {
    if toolClass !in templates then Err(if toolClass == "TAP" then TapNotMapped else NoTemplate)
    else
      var t := templates[toolClass];
      if Protected(t.table) then Err(ProtectedTable)
      else if t.id.None? then Err(TemplateUnconfirmed)
      else Ok((t.table, t.id.value))
  }

  function Stripped(cell: Option<string>): string {
    if cell.None? then "" else PlainText.Strip(cell.value)
  }

  function JoinWords(a: string, b: string): string {
    if a == "" then b else if b == "" then a else a + " " + b
  }

  function BuildOverrides(row: RegistryRow): Result<Overrides, Refusal> {
    var name := Stripped(row.shopLabel);
    if name == "" then Err(EmptyLabel)
    else Ok(map["Comment" := Text(name), "Description" := Text(name),
                "Vendor" := Text(JoinWords(Stripped(row.vendor), Stripped(row.partNo)))])
  }

  /** The template's values with the overrides written over them. */
  function Cloned(columns: seq<string>, template: Values, overrides: Overrides): Values {
    map c | c in columns && c != "ID" ::
      if c in overrides then overrides[c] else if c in template then template[c] else Null
  }

  ghost predicate IsGreatest(ids: set<int>, m: int) {
    m in ids && forall i | i in ids :: i <= m
  }

  lemma {:induction false} HasGreatest(ids: set<int>)
    requires ids != {}
    ensures exists m :: IsGreatest(ids, m)
    decreases |ids|
  {
    Ordering.SomeMember(ids);
    var x :| x in ids;
    var rest := ids - {x};
    if rest == {} {
      OneMember(ids, x);
    } else {
      assert |rest| < |ids|;
      HasGreatest(rest);
      var m :| IsGreatest(rest, m);
      OneMore(ids, x, m);
    }
  }

  lemma OneMember(ids: set<int>, x: int)
    requires x in ids && ids - {x} == {}
    ensures IsGreatest(ids, x)
  {
    assert forall i | i in ids :: i == x || i in ids - {x};
  }

  lemma OneMore(ids: set<int>, x: int, m: int)
    requires x in ids && IsGreatest(ids - {x}, m)
    ensures IsGreatest(ids, if m >= x then m else x)
  {
    assert forall i | i in ids :: i == x || i in ids - {x};
  }

  /** `COALESCE(MAX(ID), 0) + 1` */
  ghost function NextFreeId(ids: set<int>): (n: int)
    ensures forall i | i in ids :: i < n
    ensures if ids == {} then n == 1 else n - 1 in ids
  {
    if ids == {} then 1 else
      HasGreatest(ids);
      var m :| IsGreatest(ids, m);
      m + 1
  }

  function HighWater(given: map<string, int>, table: string): int {
    if table in given then given[table] else 0
  }

  ghost function NewId(db: Db, given: map<string, int>, table: string): int
    requires table in db
  {
    var free, next := NextFreeId(db[table].rows.Keys), HighWater(given, table) + 1;
    if free >= next then free else next
  }

  /** The checks in the order the planner makes them. */
  ghost function PlanRow(db: Db, given: map<string, int>, cfg: Settings, row: RegistryRow): Result<Planned, Refusal> {
    match ResolveTemplate(row.toolClass, cfg.templates)
    case Err(e) => Err(e)
    case Ok((table, templateId)) =>
      if table !in db || db[table].columns == [] then Err(TableMissing)
      else if "ID" !in db[table].columns then Err(NoIdColumn)
      else if templateId !in db[table].rows then Err(TemplateRowMissing)
      else match BuildOverrides(row)
        case Err(e) => Err(e)
        case Ok(own) =>
          var overrides: Overrides := own + cfg.extra;
          if exists c :: c in overrides && c !in db[table].columns then Err(ColumnsMissing)
          else Ok(Planned(row.rowid, table, NewId(db, given, table), overrides,
                          Cloned(db[table].columns, db[table].rows[templateId], overrides)))
  }

  // ---------------------------------------------------------------- the loop

  datatype Failure = InsertRejected | ReadBackMismatch

  datatype Progress = Progress(
    db: Db, given: map<string, int>, decisions: seq<Decision>, failure: Option<Failure>)

  function Inserted(db: Db, plan: Planned, stored: Values): Db
    requires plan.table in db
  {
    db[plan.table := db[plan.table].(rows := db[plan.table].rows[plan.id := stored])]
  }

  /** Every override reads back as written. */
  predicate ReadsBack(stored: Values, overrides: Overrides) {
    forall c | c in overrides :: c in stored && stored[c] == overrides[c]
  }

  /** `INSERT`, then read-after-write verification. */
  function Attempt(db: Db, plan: Planned): Result<Db, Failure>
    requires plan.table in db
  {
    match db[plan.table].keep(db[plan.table].rows, plan.values)
    case None => Err(InsertRejected)
    case Some(stored) =>
      if ReadsBack(stored, plan.overrides) then Ok(Inserted(db, plan, stored)) else Err(ReadBackMismatch)
  }

  /** A failed attempt leaves the run. */
  function Execute(p: Progress, plan: Planned): Progress
    requires plan.table in p.db
  {
    match Attempt(p.db, plan)
    case Ok(db) => Progress(db, p.given[plan.table := plan.id], p.decisions + [Insert(plan)], p.failure)
    case Err(f) => p.(failure := Some(f))
  }

  ghost function Step(apply: bool, cfg: Settings, p: Progress, row: RegistryRow): Progress {
    if p.failure.Some? then p else
    match PlanRow(p.db, p.given, cfg, row)
    case Err(e) => p.(decisions := p.decisions + [Skip(row.rowid, e)])
    case Ok(plan) =>
      if apply then Execute(p, plan)
      else p.(given := p.given[plan.table := plan.id], decisions := p.decisions + [Insert(plan)])
  }

  ghost function Plan(apply: bool, cfg: Settings, db: Db, rows: seq<RegistryRow>): Progress {
    if rows == [] then Progress(db, map[], [], None)
    else Step(apply, cfg, Plan(apply, cfg, db, rows[..|rows| - 1]), rows[|rows| - 1])
  }
}
