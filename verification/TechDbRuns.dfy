/**
 What every planning run keeps: fresh ascending IDs, existing rows untouched, and how far a dry run
 predicts the real one.
 */
module TechDbRuns {
  import opened Wrappers
  import PlainText
  import opened TechDbPlan

  // ---------------------------------------------------------------- IDs

  /** The IDs planned for a table. */
  function PlannedIds(decisions: seq<Decision>, table: string): set<int> {
    if decisions == [] then {} else
    var d := decisions[|decisions| - 1];
    PlannedIds(decisions[..|decisions| - 1], table) + if d.Insert? && d.plan.table == table then {d.plan.id} else {}
  }

  lemma PlannedIdsSnoc(decisions: seq<Decision>, d: Decision, table: string)
    ensures PlannedIds(decisions + [d], table)
            == PlannedIds(decisions, table) + if d.Insert? && d.plan.table == table then {d.plan.id} else {}
  {
    assert (decisions + [d])[..|decisions|] == decisions;
  }

  lemma {:induction false} PlannedIdsCollects(decisions: seq<Decision>, i: nat)
    requires i < |decisions| && decisions[i].Insert?
    ensures decisions[i].plan.id in PlannedIds(decisions, decisions[i].plan.table)
  {
    if i < |decisions| - 1 { PlannedIdsCollects(decisions[..|decisions| - 1], i); }
  }

  /** One table's counter: the highest ID planned so far, every one of them above what was there. */
  ghost predicate TableNumbered(start: set<int>, ids: set<int>, given: map<string, int>, table: string) {
    && (table in given <==> ids != {})
    && (table in given ==> given[table] in ids && forall i | i in ids :: i <= given[table])
    && (forall i | i in ids :: i >= 1 && forall j | j in start :: j < i)
  }

  ghost predicate Numbered(db: Db, given: map<string, int>, decisions: seq<Decision>) {
    forall t | t in db :: TableNumbered(db[t].rows.Keys, PlannedIds(decisions, t), given, t)
  }

  /** Within a table, IDs go up. */
  ghost predicate IdsAscend(decisions: seq<Decision>) {
    forall i, j | 0 <= i < j < |decisions| && decisions[i].Insert? && decisions[j].Insert?
                  && decisions[i].plan.table == decisions[j].plan.table ::
      decisions[i].plan.id < decisions[j].plan.id
  }

  /** What a planned row always satisfies. */
  lemma PlannedShape(db: Db, given: map<string, int>, cfg: Settings, row: RegistryRow)
    ensures var r := PlanRow(db, given, cfg, row);
            r.Ok? ==> && r.value.table in db && r.value.rowid == row.rowid
                      && r.value.id == NewId(db, given, r.value.table)
                      && !Protected(r.value.table)
                      && forall c | c in r.value.overrides :: c in db[r.value.table].columns
  {
  }

  /** A registry cell as it is written: without the white space around it, empty when it is null. */
  ghost function Trimmed(cell: Option<string>): string {
    match cell case None => "" case Some(text) => PlainText.Strip(text)
  }

  /** The columns a planned row writes for itself are there. */
  ghost predicate HasColumns(columns: seq<string>, extra: Overrides) {
    "Comment" in columns && "Description" in columns && "Vendor" in columns && forall c | c in extra :: c in columns
  }

  lemma ColumnsIff(columns: seq<string>, row: RegistryRow, extra: Overrides)
    requires BuildOverrides(row).Ok?
    ensures (exists c :: c in BuildOverrides(row).value + extra && c !in columns) <==> !HasColumns(columns, extra)
  {
    hide JoinWords, Stripped;
    var own := BuildOverrides(row).value;
    assert forall c :: c in own + extra <==> c in extra || c == "Comment" || c == "Description" || c == "Vendor";
  }

  lemma LabelIff(row: RegistryRow)
    ensures BuildOverrides(row).Err? <==> Trimmed(row.shopLabel) == ""
    ensures BuildOverrides(row).Err? ==> BuildOverrides(row).error == EmptyLabel
  {
    hide PlainText.Strip, JoinWords;
  }

  /** How a row is refused: by the first of these that holds. */
  lemma RefusedIff(db: Db, given: map<string, int>, cfg: Settings, row: RegistryRow)
    ensures var e := PlanRow(db, given, cfg, row);
            if row.toolClass !in cfg.templates then
              e == Err(if row.toolClass == "TAP" then TapNotMapped else NoTemplate)
            else
              var t := cfg.templates[row.toolClass];
              if Forbidden(t.table) then e == Err(ProtectedTable)
              else if t.id.None? then e == Err(TemplateUnconfirmed)
              else if t.table !in db || db[t.table].columns == [] then e == Err(TableMissing)
              else if "ID" !in db[t.table].columns then e == Err(NoIdColumn)
              else if t.id.value !in db[t.table].rows then e == Err(TemplateRowMissing)
              else if Trimmed(row.shopLabel) == "" then e == Err(EmptyLabel)
              else if !HasColumns(db[t.table].columns, cfg.extra) then e == Err(ColumnsMissing)
              else e.Ok?
  {
    hide Protected, NewId, Forbidden, BuildOverrides, HasColumns, Trimmed, Cloned;
    LabelIff(row);
    if row.toolClass in cfg.templates {
      var t := cfg.templates[row.toolClass];
      ProtectedIff(t.table);
      if t.table in db && BuildOverrides(row).Ok? { ColumnsIff(db[t.table].columns, row, cfg.extra); }
    }
  }

  /** A row is planned exactly if its class is configured with a confirmed template outside the protected
      tables, that template row is in the copy, the row has a label, and every override has a column. */
  lemma PlannedIff(db: Db, given: map<string, int>, cfg: Settings, row: RegistryRow)
    ensures PlanRow(db, given, cfg, row).Ok? <==>
            && row.toolClass in cfg.templates
            && var t := cfg.templates[row.toolClass];
               && !Forbidden(t.table) && t.id.Some?
               && t.table in db && "ID" in db[t.table].columns && t.id.value in db[t.table].rows
               && Trimmed(row.shopLabel) != "" && HasColumns(db[t.table].columns, cfg.extra)
  {
    hide PlanRow, Forbidden, Trimmed, HasColumns;
    RefusedIff(db, given, cfg, row);
  }

  lemma SkipNumbers(db: Db, given: map<string, int>, decisions: seq<Decision>, d: Decision)
    requires Numbered(db, given, decisions) && IdsAscend(decisions) && d.Skip?
    ensures Numbered(db, given, decisions + [d]) && IdsAscend(decisions + [d])
  {
    forall t | t in db ensures TableNumbered(db[t].rows.Keys, PlannedIds(decisions + [d], t), given, t) {
      PlannedIdsSnoc(decisions, d, t);
      assert TableNumbered(db[t].rows.Keys, PlannedIds(decisions, t), given, t);
    }
  }

  lemma NewIdIsFresh(db: Db, given: map<string, int>, decisions: seq<Decision>, table: string)
    requires table in db && Numbered(db, given, decisions)
    ensures var n := NewId(db, given, table);
            && n >= 1 && (forall i | i in PlannedIds(decisions, table) :: i < n)
            && (forall i | i in db[table].rows.Keys :: i < n)
  {
    assert TableNumbered(db[table].rows.Keys, PlannedIds(decisions, table), given, table);
  }

  lemma InsertNumbers(db: Db, given: map<string, int>, decisions: seq<Decision>, plan: Planned)
    requires Numbered(db, given, decisions) && IdsAscend(decisions)
    requires plan.table in db && plan.id == NewId(db, given, plan.table)
    ensures Numbered(db, given[plan.table := plan.id], decisions + [Insert(plan)])
    ensures IdsAscend(decisions + [Insert(plan)])
  {
    NewIdIsFresh(db, given, decisions, plan.table);
    hide NewId;
    var next := decisions + [Insert(plan)];
    forall t | t in db ensures TableNumbered(db[t].rows.Keys, PlannedIds(next, t), given[plan.table := plan.id], t) {
      PlannedIdsSnoc(decisions, Insert(plan), t);
      assert TableNumbered(db[t].rows.Keys, PlannedIds(decisions, t), given, t);
    }
    forall i | 0 <= i < |decisions| && decisions[i].Insert? && decisions[i].plan.table == plan.table
      ensures decisions[i].plan.id < plan.id
    {
      PlannedIdsCollects(decisions, i);
    }
  }

  // ---------------------------------------------------------------- the databases

  /** A table that has grown by rows under the given IDs and is otherwise as it was. */
  ghost predicate TableGrown(t: Table, u: Table, ids: set<int>) {
    && u.columns == t.columns && u.keep == t.keep
    && u.rows.Keys == t.rows.Keys + ids
    && forall i | i in t.rows :: u.rows[i] == t.rows[i]
  }

  ghost predicate Grown(db: Db, after: Db, decisions: seq<Decision>) {
    after.Keys == db.Keys && forall t | t in db :: TableGrown(db[t], after[t], PlannedIds(decisions, t))
  }

  /** The IDs already in the grown table change nothing for the next one: they are the counter's own. */
  lemma SameNewId(db: Db, after: Db, given: map<string, int>, decisions: seq<Decision>, table: string)
    requires table in db && Numbered(db, given, decisions) && Grown(db, after, decisions)
    ensures NewId(after, given, table) == NewId(db, given, table)
  {
    assert TableNumbered(db[table].rows.Keys, PlannedIds(decisions, table), given, table);
    assert TableGrown(db[table], after[table], PlannedIds(decisions, table));
    var ids := after[table].rows.Keys;
    var n, m := NextFreeId(db[table].rows.Keys), NextFreeId(ids);
    if table in given {
      assert given[table] in ids && given[table] < m;
      assert m - 1 in ids;
      if m - 1 in PlannedIds(decisions, table) {
        assert m - 1 <= given[table];
      }
    }
  }

  lemma SkipGrows(db: Db, after: Db, decisions: seq<Decision>, d: Decision)
    requires Grown(db, after, decisions) && d.Skip?
    ensures Grown(db, after, decisions + [d])
  {
    hide TableGrown, PlannedIds;
    forall t | t in db ensures TableGrown(db[t], after[t], PlannedIds(decisions + [d], t)) {
      PlannedIdsSnoc(decisions, d, t);
      assert PlannedIds(decisions + [d], t) == PlannedIds(decisions, t);
      assert TableGrown(db[t], after[t], PlannedIds(decisions, t));
    }
  }

  lemma InsertGrows(db: Db, after: Db, decisions: seq<Decision>, plan: Planned, stored: Values)
    requires Grown(db, after, decisions) && plan.table in db && plan.id !in after[plan.table].rows
    ensures Grown(db, Inserted(after, plan, stored), decisions + [Insert(plan)])
  {
    hide PlannedIds;
    var next := Inserted(after, plan, stored);
    forall t | t in db ensures TableGrown(db[t], next[t], PlannedIds(decisions + [Insert(plan)], t)) {
      PlannedIdsSnoc(decisions, Insert(plan), t);
      assert TableGrown(db[t], after[t], PlannedIds(decisions, t));
    }
  }

  // ---------------------------------------------------------------- every run

  /** What holds after every row: of a dry run with the database as it was, of a real one with the
      database grown by exactly the planned rows. */
  ghost predicate Consistent(apply: bool, db: Db, p: Progress) {
    && Numbered(db, p.given, p.decisions) && IdsAscend(p.decisions)
    && (if apply then Grown(db, p.db, p.decisions) else p.db == db)
  }

  lemma StepConsistent(apply: bool, cfg: Settings, db: Db, p: Progress, row: RegistryRow)
    requires p.failure.None? && Consistent(apply, db, p)
    ensures var q := Step(apply, cfg, p, row); q.failure.None? ==> Consistent(apply, db, q)
  {
    PlannedShape(p.db, p.given, cfg, row);
    var r := PlanRow(p.db, p.given, cfg, row);
    hide PlanRow, Numbered, IdsAscend, Grown;
    if r.Err? {
      SkipNumbers(db, p.given, p.decisions, Skip(row.rowid, r.error));
      if apply { SkipGrows(db, p.db, p.decisions, Skip(row.rowid, r.error)); }
    } else {
      var plan := r.value;
      assert plan.table in db by { if apply { GrownKeys(db, p.db, p.decisions); } }
      if apply { SameNewId(db, p.db, p.given, p.decisions, plan.table); }
      InsertNumbers(db, p.given, p.decisions, plan);
      if apply {
        NewIdNotThere(p.db, p.given, plan.table);
        var kept := p.db[plan.table].keep(p.db[plan.table].rows, plan.values);
        if kept.Some? { InsertGrows(db, p.db, p.decisions, plan, kept.value); }
      }
    }
  }

  lemma GrownKeys(db: Db, after: Db, decisions: seq<Decision>)
    requires Grown(db, after, decisions)
    ensures after.Keys == db.Keys
  {
  }

  lemma NewIdNotThere(db: Db, given: map<string, int>, table: string)
    requires table in db
    ensures NewId(db, given, table) !in db[table].rows
  {
  }

  lemma {:induction false} PlanConsistent(apply: bool, cfg: Settings, db: Db, rows: seq<RegistryRow>)
    ensures var p := Plan(apply, cfg, db, rows); p.failure.None? ==> Consistent(apply, db, p)
  {
    if rows == [] {
      assert forall t | t in db :: PlannedIds([], t) == {};
    } else {
      var front := rows[..|rows| - 1];
      PlanConsistent(apply, cfg, db, front);
      var p := Plan(apply, cfg, db, front);
      if p.failure.None? {
        StepConsistent(apply, cfg, db, p, rows[|rows| - 1]);
      }
    }
  }

  function DecisionOf(r: Result<Planned, Refusal>, row: RegistryRow): Decision {
    if r.Ok? then Insert(r.value) else Skip(row.rowid, r.error)
  }

  /** What a row adds: a dry run always a decision, a real one that or a failure. */
  lemma StepDecides(cfg: Settings, p: Progress, row: RegistryRow)
    requires p.failure.None?
    ensures var r := PlanRow(p.db, p.given, cfg, row);
            var given := if r.Ok? then p.given[r.value.table := r.value.id] else p.given;
            var d, a := Step(false, cfg, p, row), Step(true, cfg, p, row);
            && (d.given, d.decisions, d.failure) == (given, p.decisions + [DecisionOf(r, row)], None)
            && (a.failure.None? ==> (a.given, a.decisions) == (given, p.decisions + [DecisionOf(r, row)]))
            && (a.failure.Some? ==> a.decisions == p.decisions)
  {
    PlannedShape(p.db, p.given, cfg, row);
    hide PlanRow, NewId, Protected, Attempt;
  }

  /** The rows decided on, one decision each. */
  lemma {:induction false} OneDecisionEach(apply: bool, cfg: Settings, db: Db, rows: seq<RegistryRow>)
    ensures var p := Plan(apply, cfg, db, rows);
            p.failure.None? ==>
              && |p.decisions| == |rows|
              && forall i | 0 <= i < |rows| :: RowOf(p.decisions[i]) == rows[i].rowid
  {
    if rows != [] {
      var front, last := rows[..|rows| - 1], rows[|rows| - 1];
      OneDecisionEach(apply, cfg, db, front);
      var p := Plan(apply, cfg, db, front);
      if p.failure.None? {
        PlannedShape(p.db, p.given, cfg, last);
        StepDecides(cfg, p, last);
        hide PlanRow, Step, NewId, Protected;
        assert forall i | 0 <= i < |front| :: front[i] == rows[i];
      } else {
        FailedStays(apply, cfg, p, last);
        hide Step;
      }
    }
  }

  function RowOf(d: Decision): int {
    if d.Insert? then d.plan.rowid else d.rowid
  }

  /** Dry or real: every planned ID is positive, above every ID the table had, and above those planned
      for the table before it; a real run leaves every existing row as it was and adds nothing but the
      planned rows. */
  lemma PlansAreFresh(apply: bool, cfg: Settings, db: Db, rows: seq<RegistryRow>, k: nat)
    requires var p := Plan(apply, cfg, db, rows); p.failure.None? && k < |p.decisions| && p.decisions[k].Insert?
    ensures var p := Plan(apply, cfg, db, rows);
            var plan := p.decisions[k].plan;
            && IdsAscend(p.decisions)
            && (plan.table in db ==> plan.id >= 1 && forall i | i in db[plan.table].rows :: i < plan.id)
            && (if apply then Grown(db, p.db, p.decisions) else p.db == db)
  {
    PlanConsistent(apply, cfg, db, rows);
    var p := Plan(apply, cfg, db, rows);
    hide Plan;
    var plan := p.decisions[k].plan;
    PlannedIdsCollects(p.decisions, k);
    if plan.table in db {
      assert TableNumbered(db[plan.table].rows.Keys, PlannedIds(p.decisions, plan.table), p.given, plan.table);
    }
  }

  // ---------------------------------------------------------------- what is inserted

  /** What a planned row says in one column, if nothing explicit is set there. */
  ghost function DefaultCell(row: RegistryRow, template: Values, c: string): Value {
    var name, vendor, part := Trimmed(row.shopLabel), Trimmed(row.vendor), Trimmed(row.partNo);
    if c == "Comment" || c == "Description" then Text(name)
    else if c == "Vendor" then Text(vendor + (if vendor != "" && part != "" then " " else "") + part)
    else if c in template then template[c] else Null
  }

  /** A planned row has every column but the ID, and is its template's with the label, the vendor and part
      number and the explicit values written over it, explicit values last. */
  lemma ClonedRow(db: Db, given: map<string, int>, cfg: Settings, row: RegistryRow)
    requires PlanRow(db, given, cfg, row).Ok?
    ensures var plan := PlanRow(db, given, cfg, row).value;
            && row.toolClass in cfg.templates
            && var t := cfg.templates[row.toolClass];
               && plan.rowid == row.rowid && plan.table == t.table && t.table in db
               && t.id.Some? && t.id.value in db[t.table].rows
               && (forall c :: c in plan.values <==> c in db[t.table].columns && c != "ID")
               && (forall c | c in plan.values ::
                     plan.values[c] == if c in cfg.extra then cfg.extra[c]
                                       else DefaultCell(row, db[t.table].rows[t.id.value], c))
               && (forall c :: c in plan.overrides <==>
                     c in cfg.extra || c == "Comment" || c == "Description" || c == "Vendor")
               && (forall c | c in plan.overrides :: c in plan.values && plan.overrides[c] == plan.values[c])
  {
    PlanIs(db, given, cfg, row);
    OwnCells(row);
    hide PlanRow, Trimmed, BuildOverrides;
  }

  /** The three cells every planned row writes itself. */
  lemma OwnCells(row: RegistryRow)
    ensures BuildOverrides(row).Ok? ==>
              forall c, template: Values ::
                && (c in BuildOverrides(row).value <==> c == "Comment" || c == "Description" || c == "Vendor")
                && (c in BuildOverrides(row).value ==> BuildOverrides(row).value[c] == DefaultCell(row, template, c))
  {
    hide PlainText.Strip;
    assert Trimmed(row.shopLabel) == Stripped(row.shopLabel) && Trimmed(row.vendor) == Stripped(row.vendor);
    assert Trimmed(row.partNo) == Stripped(row.partNo);
    hide Trimmed, Stripped;
    var vendor, part := Stripped(row.vendor), Stripped(row.partNo);
    assert JoinWords(vendor, part) == vendor + (if vendor != "" && part != "" then " " else "") + part;
  }

  lemma PlanIs(db: Db, given: map<string, int>, cfg: Settings, row: RegistryRow)
    requires PlanRow(db, given, cfg, row).Ok?
    ensures var plan := PlanRow(db, given, cfg, row).value;
            && row.toolClass in cfg.templates && BuildOverrides(row).Ok?
            && var t := cfg.templates[row.toolClass];
               && plan.rowid == row.rowid && plan.table == t.table && t.table in db
               && t.id.Some? && t.id.value in db[t.table].rows
               && plan.overrides == BuildOverrides(row).value + cfg.extra
               && (forall c | c in plan.overrides :: c in db[t.table].columns)
               && plan.values == Cloned(db[t.table].columns, db[t.table].rows[t.id.value], plan.overrides)
  {
    hide BuildOverrides, Protected, NewId, Cloned;
  }

  /** No run, dry or real, failed or not, plans a row for a protected table or touches one. */
  lemma {:induction false} ProtectedUntouched(apply: bool, cfg: Settings, db: Db, rows: seq<RegistryRow>, table: string)
    requires table in db && Forbidden(table)
    ensures var p := Plan(apply, cfg, db, rows);
            && table in p.db && p.db[table] == db[table]
            && forall k | 0 <= k < |p.decisions| && p.decisions[k].Insert? :: p.decisions[k].plan.table != table
  {
    if rows != [] {
      var front, last := rows[..|rows| - 1], rows[|rows| - 1];
      ProtectedUntouched(apply, cfg, db, front, table);
      var p := Plan(apply, cfg, db, front);
      PlannedShape(p.db, p.given, cfg, last);
      ProtectedIff(table);
      hide PlanRow, NewId, Forbidden, Protected, ReadsBack;
    }
  }

  /** The ID is 1, or the one before it is in the table or planned for it. */
  ghost predicate Follows(db: Db, decisions: seq<Decision>, plan: Planned) {
    && plan.table in db
    && (plan.id == 1 || plan.id - 1 in db[plan.table].rows || plan.id - 1 in PlannedIds(decisions, plan.table))
  }

  /** The last row of a run that has not failed. */
  lemma LastDecision(apply: bool, cfg: Settings, db: Db, rows: seq<RegistryRow>)
    requires rows != [] && Plan(apply, cfg, db, rows).failure.None?
    ensures var p, q := Plan(apply, cfg, db, rows[..|rows| - 1]), Plan(apply, cfg, db, rows);
            var r := PlanRow(p.db, p.given, cfg, rows[|rows| - 1]);
            && p.failure.None? && q.decisions == p.decisions + [DecisionOf(r, rows[|rows| - 1])]
            && (r.Ok? ==> r.value.table in p.db && r.value.id == NewId(p.db, p.given, r.value.table))
  {
    var p, last := Plan(apply, cfg, db, rows[..|rows| - 1]), rows[|rows| - 1];
    assert Plan(apply, cfg, db, rows) == Step(apply, cfg, p, last);
    hide Plan, NewId;
    if p.failure.None? {
      StepDecides(cfg, p, last);
      PlannedShape(p.db, p.given, cfg, last);
    }
    hide PlanRow;
  }

  /** Some row of the run could not be planned when its turn came. */
  ghost predicate SomeRefused(apply: bool, cfg: Settings, db: Db, rows: seq<RegistryRow>) {
    rows != [] &&
    (SomeRefused(apply, cfg, db, rows[..|rows| - 1])
     || var p := Plan(apply, cfg, db, rows[..|rows| - 1]); PlanRow(p.db, p.given, cfg, rows[|rows| - 1]).Err?)
  }

  /** A run that does not fail records a skip exactly if some row was refused. */
  lemma {:induction false} SkipsIff(apply: bool, cfg: Settings, db: Db, rows: seq<RegistryRow>)
    requires Plan(apply, cfg, db, rows).failure.None?
    ensures SomeRefused(apply, cfg, db, rows) <==> exists k :: 0 <= k < |Plan(apply, cfg, db, rows).decisions|
                                                              && Plan(apply, cfg, db, rows).decisions[k].Skip?
  {
    if rows != [] {
      var front := rows[..|rows| - 1];
      var p, q := Plan(apply, cfg, db, front), Plan(apply, cfg, db, rows);
      LastDecision(apply, cfg, db, rows);
      hide Plan, PlanRow;
      SkipsIff(apply, cfg, db, front);
      assert forall k | 0 <= k < |p.decisions| :: q.decisions[k] == p.decisions[k];
      assert q.decisions[|p.decisions|].Skip? <==> PlanRow(p.db, p.given, cfg, rows[|rows| - 1]).Err?;
    }
  }

  /** Planned IDs leave no gap: each is 1 or follows an ID the table had or the run has planned in it. */
  lemma {:induction false} NoGaps(apply: bool, cfg: Settings, db: Db, rows: seq<RegistryRow>, k: nat)
    requires var p := Plan(apply, cfg, db, rows); p.failure.None? && k < |p.decisions| && p.decisions[k].Insert?
    ensures var p := Plan(apply, cfg, db, rows); Follows(db, p.decisions[..k], p.decisions[k].plan)
  {
    if rows == [] {
      assert false;
    } else {
      hide Plan, PlanRow, NewId, Follows, Consistent;
      var front := rows[..|rows| - 1];
      var p, q := Plan(apply, cfg, db, front), Plan(apply, cfg, db, rows);
      LastDecision(apply, cfg, db, rows);
      PlanConsistent(apply, cfg, db, front);
      if k < |p.decisions| {
        NoGaps(apply, cfg, db, front, k);
        assert q.decisions[..k] == p.decisions[..k];
      } else {
        assert q.decisions[..k] == p.decisions;
        FollowsOne(apply, db, p, q.decisions[k].plan);
      }
    }
  }

  lemma FollowsOne(apply: bool, db: Db, p: Progress, plan: Planned)
    requires Consistent(apply, db, p) && plan.table in p.db && plan.id == NewId(p.db, p.given, plan.table)
    ensures Follows(db, p.decisions, plan)
  {
    assert TableNumbered(db[plan.table].rows.Keys, PlannedIds(p.decisions, plan.table), p.given, plan.table);
    if apply { assert TableGrown(db[plan.table], p.db[plan.table], PlannedIds(p.decisions, plan.table)); }
  }

  /** Every insert is still there at the end, with every override as written. */
  ghost predicate AllReadBack(db: Db, decisions: seq<Decision>) {
    forall k | 0 <= k < |decisions| && decisions[k].Insert? ::
      var plan := decisions[k].plan;
      plan.table in db && plan.id in db[plan.table].rows && Says(db[plan.table].rows[plan.id], plan.overrides)
  }

  /** The stored row holds every override as it was asked for. */
  ghost predicate Says(stored: Values, overrides: Overrides) {
    forall c | c in overrides :: c in stored && stored[c] == overrides[c]
  }

  /** An insert fails exactly if the database refuses it or stores something else than it was told; otherwise
      the table has one row more, under the planned ID, and the rest is as it was. */
  lemma AttemptIff(db: Db, plan: Planned)
    requires plan.table in db && plan.id !in db[plan.table].rows
    ensures var t := db[plan.table];
            var kept := t.keep(t.rows, plan.values);
            match Attempt(db, plan)
            case Err(InsertRejected) => kept.None?
            case Err(ReadBackMismatch) => kept.Some? && !Says(kept.value, plan.overrides)
            case Ok(after) =>
              && kept.Some? && Says(kept.value, plan.overrides)
              && after.Keys == db.Keys
              && (forall other | other in db && other != plan.table :: after[other] == db[other])
              && after[plan.table].columns == t.columns && after[plan.table].keep == t.keep
              && after[plan.table].rows.Keys == t.rows.Keys + {plan.id}
              && after[plan.table].rows[plan.id] == kept.value
              && forall i | i in t.rows :: after[plan.table].rows[i] == t.rows[i]
  {
  }

  lemma ReadBackSnoc(db: Db, decisions: seq<Decision>, plan: Planned, stored: Values)
    requires AllReadBack(db, decisions) && plan.table in db && plan.id !in db[plan.table].rows
    requires Says(stored, plan.overrides)
    ensures AllReadBack(Inserted(db, plan, stored), decisions + [Insert(plan)])
  {
    hide Says;
  }

  lemma {:induction false} InsertsReadBack(cfg: Settings, db: Db, rows: seq<RegistryRow>)
    ensures var p := Plan(true, cfg, db, rows); p.failure.None? ==> AllReadBack(p.db, p.decisions)
  {
    if rows != [] {
      var front, last := rows[..|rows| - 1], rows[|rows| - 1];
      InsertsReadBack(cfg, db, front);
      var p := Plan(true, cfg, db, front);
      if p.failure.None? {
        PlannedShape(p.db, p.given, cfg, last);
        var r := PlanRow(p.db, p.given, cfg, last);
        hide PlanRow, NewId, AllReadBack;
        if r.Ok? {
          NewIdNotThere(p.db, p.given, r.value.table);
          var kept := p.db[r.value.table].keep(p.db[r.value.table].rows, r.value.values);
          if kept.Some? && ReadsBack(kept.value, r.value.overrides) {
            ReadBackSnoc(p.db, p.decisions, r.value, kept.value);
          }
        }
      }
    }
  }

  // ---------------------------------------------------------------- dry run and real run

  /** The row's template row is missing from the copy, but an earlier row of the run is planned under
      its ID. */
  ghost predicate Borrows(cfg: Settings, db: Db, decisions: seq<Decision>, row: RegistryRow) {
    var t := ResolveTemplate(row.toolClass, cfg.templates);
    t.Ok? && t.value.0 in db && "ID" in db[t.value.0].columns
    && t.value.1 !in db[t.value.0].rows && t.value.1 in PlannedIds(decisions, t.value.0)
  }

  /** Read off a dry run: no row borrows. */
  ghost predicate NoneBorrows(cfg: Settings, db: Db, rows: seq<RegistryRow>) {
    rows == [] ||
    (NoneBorrows(cfg, db, rows[..|rows| - 1])
     && !Borrows(cfg, db, Plan(false, cfg, db, rows[..|rows| - 1]).decisions, rows[|rows| - 1]))
  }

  lemma SamePlan(cfg: Settings, db: Db, after: Db, given: map<string, int>, decisions: seq<Decision>, row: RegistryRow)
    requires Numbered(db, given, decisions) && Grown(db, after, decisions)
    ensures PlanRow(db, given, cfg, row) == PlanRow(after, given, cfg, row) <==> !Borrows(cfg, db, decisions, row)
  {
    var r := ResolveTemplate(row.toolClass, cfg.templates);
    if r.Ok? && r.value.0 in db {
      SameNewId(db, after, given, decisions, r.value.0);
      assert TableGrown(db[r.value.0], after[r.value.0], PlannedIds(decisions, r.value.0));
    }
    hide Numbered, NewId, BuildOverrides, Cloned, PlannedIds, ResolveTemplate;
  }

  lemma SnocEqual<T>(a: seq<T>, b: seq<T>, x: T, y: T)
    requires |a| == |b|
    ensures a + [x] == b + [y] <==> a == b && x == y
  {
    if a + [x] == b + [y] {
      assert a == (a + [x])[..|a|] == (b + [y])[..|b|] == b;
      assert x == (a + [x])[|a|];
    }
  }

  /** One more row, after decisions that agree. */
  lemma StepsAgree(cfg: Settings, db: Db, d: Progress, a: Progress, row: RegistryRow)
    requires Consistent(false, db, d) && Consistent(true, db, a) && d.failure.None? && a.failure.None?
    requires d.decisions == a.decisions && d.given == a.given
    ensures var d', a' := Step(false, cfg, d, row), Step(true, cfg, a, row);
            && d'.failure.None?
            && (a'.failure.None? ==> (a'.decisions == d'.decisions <==> !Borrows(cfg, db, d.decisions, row)))
            && (!Borrows(cfg, db, d.decisions, row) ==>
                a'.decisions <= d'.decisions && (a'.failure.None? ==> a'.given == d'.given))
  {
    SamePlan(cfg, db, a.db, d.given, d.decisions, row);
    StepDecides(cfg, d, row);
    StepDecides(cfg, a, row);
    hide PlanRow, Borrows, Numbered, Grown, IdsAscend, Step;
    var r, q := PlanRow(db, d.given, cfg, row), PlanRow(a.db, d.given, cfg, row);
    SnocEqual(d.decisions, a.decisions, DecisionOf(r, row), DecisionOf(q, row));
  }

  /** One more row, after decisions that do not. */
  lemma StepsStayApart(cfg: Settings, d: Progress, a: Progress, row: RegistryRow)
    requires d.failure.None? && a.failure.None? && |d.decisions| == |a.decisions| && d.decisions != a.decisions
    ensures Step(true, cfg, a, row).failure.None? ==>
            Step(true, cfg, a, row).decisions != Step(false, cfg, d, row).decisions
  {
    StepDecides(cfg, d, row);
    StepDecides(cfg, a, row);
    hide PlanRow, Step;
    var r, q := PlanRow(d.db, d.given, cfg, row), PlanRow(a.db, a.given, cfg, row);
    SnocEqual(d.decisions, a.decisions, DecisionOf(r, row), DecisionOf(q, row));
  }

  /** A dry run predicts the real one, decision for decision, exactly if no row borrows a template the
      run itself would insert; and it predicts a run that fails up to its failure. */
  lemma {:induction false} DryRunPredictsIff(cfg: Settings, db: Db, rows: seq<RegistryRow>)
    ensures var d, a := Plan(false, cfg, db, rows), Plan(true, cfg, db, rows);
            && d.failure.None?
            && (a.failure.None? ==> (a.decisions == d.decisions <==> NoneBorrows(cfg, db, rows)))
            && (NoneBorrows(cfg, db, rows) ==> a.decisions <= d.decisions && (a.failure.None? ==> a.given == d.given))
  {
    if rows != [] {
      var front, last := rows[..|rows| - 1], rows[|rows| - 1];
      DryRunPredictsIff(cfg, db, front);
      var d, a := Plan(false, cfg, db, front), Plan(true, cfg, db, front);
      PlanConsistent(false, cfg, db, front);
      PlanConsistent(true, cfg, db, front);
      OneDecisionEach(false, cfg, db, front);
      OneDecisionEach(true, cfg, db, front);
      DryStepGrows(cfg, d, last);
      hide Step, Borrows, Consistent;
      if a.failure.None? {
        if a.decisions == d.decisions {
          StepsAgree(cfg, db, d, a, last);
        } else {
          StepsStayApart(cfg, d, a, last);
        }
      } else {
        FailedStays(true, cfg, a, last);
      }
    }
  }

  lemma DryStepGrows(cfg: Settings, d: Progress, row: RegistryRow)
    requires d.failure.None?
    ensures Step(false, cfg, d, row).failure.None? && d.decisions <= Step(false, cfg, d, row).decisions
  {
    hide PlanRow;
  }

  lemma FailedStays(apply: bool, cfg: Settings, a: Progress, row: RegistryRow)
    requires a.failure.Some?
    ensures Step(apply, cfg, a, row) == a
  {
  }

  /** In particular when every template row is in the copy at the start. */
  lemma {:induction false} TemplatesPresentPredict(cfg: Settings, db: Db, rows: seq<RegistryRow>)
    requires forall c | c in cfg.templates && cfg.templates[c].id.Some? && cfg.templates[c].table in db ::
               cfg.templates[c].id.value in db[cfg.templates[c].table].rows
    ensures NoneBorrows(cfg, db, rows)
    ensures var d, a := Plan(false, cfg, db, rows), Plan(true, cfg, db, rows);
            a.failure.None? ==> a.decisions == d.decisions
  {
    if rows != [] { TemplatesPresentPredict(cfg, db, rows[..|rows| - 1]); }
    DryRunPredictsIff(cfg, db, rows);
    hide Plan, PlannedIds;
  }

  // ---------------------------------------------------------------- a dry run that mispredicts

  function AcceptAll(rows: map<int, Values>, row: Values): Option<Values> { Some(row) }

  const MILL_COLUMNS := ["ID", "Comment", "Description", "Vendor"]

  function Mills(rows: map<int, Values>): Db { map["in_MILLC" := Table(MILL_COLUMNS, rows, AcceptAll)] }

  const TWO_CLASSES := Settings(map["A" := Template("in_MILLC", Some(1)), "B" := Template("in_MILLC", Some(2))], map[])

  const FIRST_TOOL := RegistryRow(1, Some("N1"), "A", None, None, None, None)
  const SECOND_TOOL := RegistryRow(2, Some("N1"), "B", None, None, None, None)

  lemma MillsResolve()
    ensures ResolveTemplate("A", TWO_CLASSES.templates) == Ok(("in_MILLC", 1))
    ensures ResolveTemplate("B", TWO_CLASSES.templates) == Ok(("in_MILLC", 2))
  {
    var lowered := Lower("in_MILLC");
    assert lowered[4] == 'i' && lowered[0] == 'i';
    assert lowered[|lowered| - 4..][0] == lowered[4];
  }

  lemma MillPlans(rows: map<int, Values>, given: map<string, int>, row: RegistryRow)
    requires row == FIRST_TOOL || row == SECOND_TOOL
    ensures var r := PlanRow(Mills(rows), given, TWO_CLASSES, row);
            if row.rowid in rows
            then r.Ok? && r.value.table == "in_MILLC" && r.value.id == NewId(Mills(rows), given, "in_MILLC")
                 && ReadsBack(r.value.values, r.value.overrides)
            else r == Err(TemplateRowMissing)
  {
    MillsResolve();
    hide PlainText.Strip, Lower, NewId, ResolveTemplate, HighWater, JoinWords, NextFreeId;
    assert "N1"[0] == 'N' && "N1"[1] == '1';
    PlainText.StripsToItself("N1");
    assert MILL_COLUMNS[0] == "ID" && MILL_COLUMNS[1] == "Comment" && MILL_COLUMNS[2] == "Description"
      && MILL_COLUMNS[3] == "Vendor";
  }

  /** The first `n - 1` IDs are taken. */
  lemma NextMill(rows: map<int, Values>, given: map<string, int>, n: int)
    requires n >= 2 && n - 1 in rows && n !in rows && (forall i | i in rows :: i < n)
    requires HighWater(given, "in_MILLC") < n
    ensures NewId(Mills(rows), given, "in_MILLC") == n
  {
  }

  lemma PlanSnoc(apply: bool, cfg: Settings, db: Db, rows: seq<RegistryRow>, row: RegistryRow)
    ensures Plan(apply, cfg, db, rows + [row]) == Step(apply, cfg, Plan(apply, cfg, db, rows), row)
  {
    assert (rows + [row])[..|rows|] == rows;
  }

  lemma PlanOfTwo(apply: bool, db: Db)
    ensures Plan(apply, TWO_CLASSES, db, [FIRST_TOOL, SECOND_TOOL])
            == Step(apply, TWO_CLASSES, Step(apply, TWO_CLASSES, Progress(db, map[], [], None), FIRST_TOOL),
                    SECOND_TOOL)
  {
    hide Step;
    PlanSnoc(apply, TWO_CLASSES, db, [], FIRST_TOOL);
    PlanSnoc(apply, TWO_CLASSES, db, [FIRST_TOOL], SECOND_TOOL);
    assert [] + [FIRST_TOOL] == [FIRST_TOOL] && [FIRST_TOOL] + [SECOND_TOOL] == [FIRST_TOOL, SECOND_TOOL];
  }

  lemma MillInserts(rows: map<int, Values>, given: map<string, int>, decisions: seq<Decision>, row: RegistryRow, n: int)
    requires row == FIRST_TOOL || row == SECOND_TOOL
    requires n >= 2 && row.rowid in rows && n - 1 in rows && n !in rows && (forall i | i in rows :: i < n)
    requires HighWater(given, "in_MILLC") < n
    ensures var plan := PlanRow(Mills(rows), given, TWO_CLASSES, row);
            && plan.Ok? && plan.value.id == n
            && Step(true, TWO_CLASSES, Progress(Mills(rows), given, decisions, None), row)
               == Progress(Mills(rows[n := plan.value.values]), given["in_MILLC" := n],
                           decisions + [Insert(plan.value)], None)
            && Step(false, TWO_CLASSES, Progress(Mills(rows), given, decisions, None), row)
               == Progress(Mills(rows), given["in_MILLC" := n], decisions + [Insert(plan.value)], None)
  {
    MillPlans(rows, given, row);
    NextMill(rows, given, n);
    hide PlanRow, NewId, ReadsBack;
    var plan := PlanRow(Mills(rows), given, TWO_CLASSES, row).value;
    assert Inserted(Mills(rows), plan, plan.values) == Mills(rows[n := plan.values]);
  }

  /** The second class's template row 2 does not exist, but the first row will be inserted as 2: the dry
      run skips the second row, the real run clones the first into it. */
  lemma BorrowedTemplateMispredicts()
    ensures var db, rows := Mills(map[1 := map[]]), [FIRST_TOOL, SECOND_TOOL];
            var d, a := Plan(false, TWO_CLASSES, db, rows), Plan(true, TWO_CLASSES, db, rows);
            && a.failure.None? && |d.decisions| == 2 == |a.decisions|
            && d.decisions[0] == a.decisions[0]
            && d.decisions[1] == Skip(2, TemplateRowMissing)
            && a.decisions[1].Insert? && a.decisions[1].plan.id == 3
  {
    hide PlanRow, NewId, ReadsBack, Mills, Plan, Step;
    var start: map<int, Values> := map[1 := map[]];
    PlanOfTwo(false, Mills(start));
    PlanOfTwo(true, Mills(start));
    MillInserts(start, map[], [], FIRST_TOOL, 2);
    var plan := PlanRow(Mills(start), map[], TWO_CLASSES, FIRST_TOOL).value;
    var given: map<string, int> := map[]["in_MILLC" := 2];
    var decisions := [] + [Insert(plan)];
    MillSkips(start, given, decisions);
    MillInserts(start[2 := plan.values], given, decisions, SECOND_TOOL, 3);
  }

  lemma MillSkips(rows: map<int, Values>, given: map<string, int>, decisions: seq<Decision>)
    requires 2 !in rows
    ensures Step(false, TWO_CLASSES, Progress(Mills(rows), given, decisions, None), SECOND_TOOL)
            == Progress(Mills(rows), given, decisions + [Skip(2, TemplateRowMissing)], None)
  {
    MillPlans(rows, given, SECOND_TOOL);
    hide PlanRow;
  }
}
