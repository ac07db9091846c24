/**
 A whole run of `src/techdb_insert.py`: the pending registry rows, the plan, and the two commits — TechDB
 first, registry second — with what the disk holds at every moment the process could die.
 */
module TechDbInsert {
  import opened Wrappers
  import Ordering
  import opened TechDbPlan
  import opened TechDbRuns

  // ---------------------------------------------------------------- the registry

  predicate IsPending(row: RegistryRow, only: Option<string>) {
    row.techdbId.None? && (only.None? || row.shopLabel == only)
  }

  function PendingRows(registry: seq<RegistryRow>, only: Option<string>): seq<RegistryRow> {
    if registry == [] then [] else
    var last := registry[|registry| - 1];
    PendingRows(registry[..|registry| - 1], only) + if IsPending(last, only) then [last] else []
  }

  /** The planned inserts, in order. */
  function PlansOf(decisions: seq<Decision>): seq<Planned> {
    if decisions == [] then [] else
    var last := decisions[|decisions| - 1];
    PlansOf(decisions[..|decisions| - 1]) + if last.Insert? then [last.plan] else []
  }

  predicate AnySkipped(decisions: seq<Decision>) {
    exists i | 0 <= i < |decisions| :: decisions[i].Skip?
  }

  /** `UPDATE … WHERE rowid = ?` */
  function LinkOne(row: RegistryRow, plan: Planned): RegistryRow {
    if row.rowid == plan.rowid then row.(techdbId := Some(plan.id), techdbTable := Some(plan.table)) else row
  }

  function WriteBack(registry: seq<RegistryRow>, plan: Planned): seq<RegistryRow> {
    seq(|registry|, i requires 0 <= i < |registry| => LinkOne(registry[i], plan))
  }

  function Matching(registry: seq<RegistryRow>, rowid: int): nat {
    if registry == [] then 0 else
    Matching(registry[..|registry| - 1], rowid) + if registry[|registry| - 1].rowid == rowid then 1 else 0
  }

  /** Every plan written back, or the first row that did not match exactly once. */
  function WriteAll(registry: seq<RegistryRow>, plans: seq<Planned>): Result<seq<RegistryRow>, int> {
    if plans == [] then Ok(registry) else
    match WriteAll(registry, plans[..|plans| - 1])
    case Err(e) => Err(e)
    case Ok(w) =>
      var plan := plans[|plans| - 1];
      if Matching(w, plan.rowid) != 1 then Err(plan.rowid) else Ok(WriteBack(w, plan))
  }

  /** The registry after another program has removed some rows. */
  function Remaining(registry: seq<RegistryRow>, gone: set<int>): seq<RegistryRow> {
    if registry == [] then [] else
    var last := registry[|registry| - 1];
    Remaining(registry[..|registry| - 1], gone) + if last.rowid in gone then [] else [last]
  }

  /** A row no run has given an identity yet, and the one asked for if one was. */
  ghost predicate Waiting(row: RegistryRow, only: Option<string>) {
    row.techdbId == None && (only.Some? ==> row.shopLabel == only)
  }

  /** Where the pending rows stand in the registry. */
  ghost predicate Picks(registry: seq<RegistryRow>, only: Option<string>, picked: seq<RegistryRow>, at: seq<nat>) {
    && |at| == |picked|
    && (forall k | 0 <= k < |at| :: at[k] < |registry| && picked[k] == registry[at[k]])
    && (forall j, k | 0 <= j < k < |at| :: at[j] < at[k])
    && (forall i: nat | i < |registry| :: Waiting(registry[i], only) <==> i in at)
  }

  /** The pending rows are the waiting ones, each once, in the registry's order. */
  lemma {:induction false} PendingArePicked(registry: seq<RegistryRow>, only: Option<string>) returns (at: seq<nat>)
    ensures Picks(registry, only, PendingRows(registry, only), at)
  {
    at := [];
    if registry != [] {
      var n := |registry| - 1;
      at := PendingArePicked(registry[..n], only);
      PickOneMore(registry, only, PendingRows(registry[..n], only), at);
      assert Waiting(registry[n], only) <==> IsPending(registry[n], only);
      if Waiting(registry[n], only) { at := at + [n]; }
      hide Picks, Waiting, IsPending;
    }
  }

  lemma PickOneMore(registry: seq<RegistryRow>, only: Option<string>, picked: seq<RegistryRow>, at: seq<nat>)
    requires registry != [] && Picks(registry[..|registry| - 1], only, picked, at)
    ensures var n := |registry| - 1;
            if Waiting(registry[n], only) then Picks(registry, only, picked + [registry[n]], at + [n])
            else Picks(registry, only, picked, at)
  {
    hide Waiting;
    var n := |registry| - 1;
    assert forall i | 0 <= i < n :: registry[..n][i] == registry[i];
    forall i: nat | i < |registry|
      ensures Waiting(registry[i], only) <==> i in at || (i == n && Waiting(registry[n], only))
    {
      if i < n { assert registry[..n][i] == registry[i]; }
    }
  }

  // ---------------------------------------------------------------- the write-back

  ghost predicate HasRow(db: Db, table: string, id: int) {
    table in db && id in db[table].rows
  }

  /** A written row is as it was, or names the insert planned for it. */
  ghost predicate LinkedByPlan(was: RegistryRow, row: RegistryRow, plans: seq<Planned>) {
    if exists k :: 0 <= k < |plans| && plans[k].rowid == was.rowid
    then exists k :: 0 <= k < |plans| && plans[k].rowid == was.rowid
                     && row == was.(techdbId := Some(plans[k].id), techdbTable := Some(plans[k].table))
    else row == was
  }

  lemma LinkSnoc(was: RegistryRow, row: RegistryRow, plans: seq<Planned>, plan: Planned)
    requires LinkedByPlan(was, row, plans)
    ensures LinkedByPlan(was, LinkOne(row, plan), plans + [plan])
  {
    var more := plans + [plan];
    if plan.rowid == was.rowid {
      assert more[|plans|] == plan && LinkOne(row, plan) == LinkOne(was, plan);
    } else if exists k :: 0 <= k < |plans| && plans[k].rowid == was.rowid {
      var k :| 0 <= k < |plans| && plans[k].rowid == was.rowid
               && row == was.(techdbId := Some(plans[k].id), techdbTable := Some(plans[k].table));
      assert more[k] == plans[k];
    } else {
      assert forall k | 0 <= k < |more| :: more[k].rowid != was.rowid;
    }
  }

  /** A completed write-back touches exactly the planned rows, and gives each its planned identity. */
  lemma {:induction false} WriteAllLinks(registry: seq<RegistryRow>, plans: seq<Planned>)
    ensures var w := WriteAll(registry, plans);
            w.Ok? ==>
              && |w.value| == |registry|
              && forall i | 0 <= i < |registry| :: LinkedByPlan(registry[i], w.value[i], plans)
  {
    if plans != [] {
      var front, plan := plans[..|plans| - 1], plans[|plans| - 1];
      WriteAllLinks(registry, front);
      if WriteAll(registry, plans).Ok? {
        var w := WriteAll(registry, front).value;
        forall i | 0 <= i < |registry| ensures LinkedByPlan(registry[i], WriteBack(w, plan)[i], plans) {
          LinkSnoc(registry[i], w[i], front, plan);
          assert front + [plan] == plans;
        }
      }
    }
  }

  /** So the next run finds pending exactly the rows this one did not plan. */
  lemma RerunTakesUnplanned(registry: seq<RegistryRow>, plans: seq<Planned>, i: nat)
    requires WriteAll(registry, plans).Ok? && i < |registry|
    ensures var w := WriteAll(registry, plans).value;
            && |w| == |registry|
            && (w[i].techdbId.None? <==>
                registry[i].techdbId.None? && forall k | 0 <= k < |plans| :: plans[k].rowid != registry[i].rowid)
            && (w[i].techdbId.None? ==> w[i] == registry[i])
  {
    WriteAllLinks(registry, plans);
    hide WriteAll;
    assert LinkedByPlan(registry[i], WriteAll(registry, plans).value[i], plans);
  }

  ghost predicate DistinctRows(registry: seq<RegistryRow>) {
    forall i, j | 0 <= i < j < |registry| :: registry[i].rowid != registry[j].rowid
  }

  ghost predicate Present(registry: seq<RegistryRow>, rowid: int) {
    exists i :: 0 <= i < |registry| && registry[i].rowid == rowid
  }

  lemma {:induction false} MatchesOnceIff(registry: seq<RegistryRow>, rowid: int)
    requires DistinctRows(registry)
    ensures Matching(registry, rowid) <= 1
    ensures Matching(registry, rowid) == 1 <==> Present(registry, rowid)
  {
    if registry != [] {
      var front, n := registry[..|registry| - 1], |registry| - 1;
      MatchesOnceIff(front, rowid);
      if registry[n].rowid == rowid {
        assert forall i | 0 <= i < |front| :: front[i] == registry[i] && registry[i].rowid != registry[n].rowid;
      } else if i :| 0 <= i < |registry| && registry[i].rowid == rowid {
        assert front[i] == registry[i];
      }
    }
  }

  ghost predicate AllPresent(registry: seq<RegistryRow>, plans: seq<Planned>) {
    forall k | 0 <= k < |plans| :: Present(registry, plans[k].rowid)
  }

  /** The write-back fails exactly if a planned row is no longer there. */
  lemma {:induction false} WriteBackSucceedsIff(registry: seq<RegistryRow>, plans: seq<Planned>)
    requires DistinctRows(registry)
    ensures WriteAll(registry, plans).Ok? <==> AllPresent(registry, plans)
  {
    if plans != [] {
      var front, plan := plans[..|plans| - 1], plans[|plans| - 1];
      WriteBackSucceedsIff(registry, front);
      AllPresentSnoc(registry, plans);
      if WriteAll(registry, front).Ok? {
        var w := WriteAll(registry, front).value;
        WriteAllLinks(registry, front);
        SameRowids(registry, w, front, plan.rowid);
        hide Matching, Present, AllPresent, DistinctRows, LinkedByPlan;
        MatchesOnceIff(w, plan.rowid);
      }
    }
  }

  lemma AllPresentSnoc(registry: seq<RegistryRow>, plans: seq<Planned>)
    requires plans != []
    ensures AllPresent(registry, plans)
            <==> AllPresent(registry, plans[..|plans| - 1]) && Present(registry, plans[|plans| - 1].rowid)
  {
    hide Present;
    var front := plans[..|plans| - 1];
    assert forall k | 0 <= k < |front| :: front[k] == plans[k];
  }

  lemma SameRowids(registry: seq<RegistryRow>, w: seq<RegistryRow>, plans: seq<Planned>, rowid: int)
    requires DistinctRows(registry)
    requires |w| == |registry| && forall i | 0 <= i < |registry| :: LinkedByPlan(registry[i], w[i], plans)
    ensures DistinctRows(w) && (Present(registry, rowid) <==> Present(w, rowid))
  {
    assert forall i | 0 <= i < |registry| :: LinkedByPlan(registry[i], w[i], plans) && w[i].rowid == registry[i].rowid;
    hide LinkedByPlan;
    if i :| 0 <= i < |registry| && registry[i].rowid == rowid { assert w[i].rowid == rowid; }
  }

  // ---------------------------------------------------------------- crash points

  /** What survives the process at a moment. */
  datatype Disk = Disk(techdb: Db, registry: seq<RegistryRow>)

  /** Every registry row that is not as some row was before names a committed TechDB row. */
  ghost predicate LinksCommitted(before: seq<RegistryRow>, disk: Disk) {
    forall i | 0 <= i < |disk.registry| && disk.registry[i] !in before ::
      var row := disk.registry[i];
      row.techdbId.Some? && row.techdbTable.Some? && HasRow(disk.techdb, row.techdbTable.value, row.techdbId.value)
  }

  lemma {:induction false} RemainingAreRows(registry: seq<RegistryRow>, gone: set<int>, row: RegistryRow)
    ensures row in Remaining(registry, gone) <==> row in registry && row.rowid !in gone
  {
    if registry != [] {
      var front, last := registry[..|registry| - 1], registry[|registry| - 1];
      RemainingAreRows(front, gone, row);
      assert registry == front + [last];
    }
  }

  lemma NothingNew(registry: seq<RegistryRow>, gone: set<int>, db: Db)
    ensures LinksCommitted(registry, Disk(db, Remaining(registry, gone)))
  {
    var left := Remaining(registry, gone);
    forall i | 0 <= i < |left| ensures left[i] in registry {
      RemainingAreRows(registry, gone, left[i]);
    }
  }

  lemma {:induction false} PlansAreDecisions(decisions: seq<Decision>, k: nat)
    requires k < |PlansOf(decisions)|
    ensures exists i :: 0 <= i < |decisions| && decisions[i] == Insert(PlansOf(decisions)[k])
  {
    var front, last := decisions[..|decisions| - 1], decisions[|decisions| - 1];
    if k < |PlansOf(front)| {
      PlansAreDecisions(front, k);
      var i :| 0 <= i < |front| && front[i] == Insert(PlansOf(front)[k]);
      assert decisions[i] == Insert(PlansOf(decisions)[k]);
    } else {
      assert decisions[|decisions| - 1] == Insert(PlansOf(decisions)[k]);
    }
  }

  /** Once the TechDB rows are committed, a completed write-back names only committed rows. */
  lemma WrittenLinksCommitted(cfg: Settings, db: Db, rows: seq<RegistryRow>, registry: seq<RegistryRow>, gone: set<int>)
    requires var p := Plan(true, cfg, db, rows);
             p.failure.None? && WriteAll(Remaining(registry, gone), PlansOf(p.decisions)).Ok?
    ensures var p := Plan(true, cfg, db, rows);
            LinksCommitted(registry, Disk(p.db, WriteAll(Remaining(registry, gone), PlansOf(p.decisions)).value))
  {
    var p, left := Plan(true, cfg, db, rows), Remaining(registry, gone);
    var plans := PlansOf(p.decisions);
    var w := WriteAll(left, plans).value;
    WriteAllLinks(left, plans);
    InsertsReadBack(cfg, db, rows);
    hide Plan, WriteAll, PlansOf, LinkedByPlan, HasRow, AllReadBack;
    forall i | 0 <= i < |w| && w[i] !in registry
      ensures w[i].techdbId.Some? && w[i].techdbTable.Some? && HasRow(p.db, w[i].techdbTable.value, w[i].techdbId.value)
    {
      RemainingAreRows(registry, gone, left[i]);
      assert LinkedByPlan(left[i], w[i], plans) && w[i] != left[i];
      LinkIsCommitted(p.db, p.decisions, left[i], w[i]);
    }
  }

  lemma LinkIsCommitted(db: Db, decisions: seq<Decision>, was: RegistryRow, row: RegistryRow)
    requires AllReadBack(db, decisions) && LinkedByPlan(was, row, PlansOf(decisions)) && row != was
    ensures row.techdbId.Some? && row.techdbTable.Some? && HasRow(db, row.techdbTable.value, row.techdbId.value)
  {
    hide PlansOf, Says;
    var plans := PlansOf(decisions);
    var k :| 0 <= k < |plans| && plans[k].rowid == was.rowid
             && row == was.(techdbId := Some(plans[k].id), techdbTable := Some(plans[k].table));
    PlansAreDecisions(decisions, k);
  }

  // ---------------------------------------------------------------- a crash between the commits

  /** At least the same rows in the same tables. */
  ghost predicate Within(db: Db, after: Db) {
    forall t | t in db :: t in after && after[t].columns == db[t].columns && db[t].rows.Keys <= after[t].rows.Keys
  }

  /** One row adds at most one TechDB row, and one decision. */
  lemma StepAdds(cfg: Settings, p: Progress, row: RegistryRow)
    ensures var q := Step(true, cfg, p, row);
            && Within(p.db, q.db)
            && (q.failure.None? ==> p.failure.None?
                                    && q.decisions == p.decisions + [DecisionOf(PlanRow(p.db, p.given, cfg, row), row)])
  {
    PlannedShape(p.db, p.given, cfg, row);
    hide PlanRow, ReadsBack, NewId, Protected;
  }

  lemma {:induction false} RunsOnlyAdd(cfg: Settings, db: Db, rows: seq<RegistryRow>, k: nat)
    requires k <= |rows|
    ensures Within(Plan(true, cfg, db, rows[..k]).db, Plan(true, cfg, db, rows).db)
    decreases |rows|
  {
    if k == |rows| {
      assert rows[..k] == rows;
    } else {
      var front := rows[..|rows| - 1];
      RunsOnlyAdd(cfg, db, front, k);
      assert front[..k] == rows[..k];
      hide Step;
      StepAdds(cfg, Plan(true, cfg, db, front), rows[|rows| - 1]);
    }
  }

  lemma StillPlans(cfg: Settings, db: Db, after: Db, given: map<string, int>, later: map<string, int>, row: RegistryRow)
    requires Within(db, after) && PlanRow(db, given, cfg, row).Ok?
    ensures var r := PlanRow(after, later, cfg, row);
            r.Ok? && r.value.table == PlanRow(db, given, cfg, row).value.table
  {
    hide NewId, Cloned, BuildOverrides, ResolveTemplate;
  }

  /** A decision is the planner's on the database as the rows before it left it. */
  lemma {:induction false} DecisionAt(cfg: Settings, db: Db, rows: seq<RegistryRow>, k: nat)
    requires k < |rows| && Plan(true, cfg, db, rows).failure.None?
    ensures var p, s := Plan(true, cfg, db, rows), Plan(true, cfg, db, rows[..k]);
            && s.failure.None? && |p.decisions| == |rows|
            && var r := PlanRow(s.db, s.given, cfg, rows[k]);
               p.decisions[k] == DecisionOf(r, rows[k])
    decreases |rows|
  {
    var n := |rows| - 1;
    var front := rows[..n];
    OneDecisionEach(true, cfg, db, rows);
    OneDecisionEach(true, cfg, db, front);
    StepAdds(cfg, Plan(true, cfg, db, front), rows[n]);
    assert Plan(true, cfg, db, rows) == Step(true, cfg, Plan(true, cfg, db, front), rows[n]);
    hide Plan, Step, PlanRow, Within, RowOf;
    if k < n {
      DecisionAt(cfg, db, front, k);
      assert front[..k] == rows[..k];
    }
  }

  /** If the process dies after the TechDB commit and before the registry's, the rows are still pending,
      and the next run plans every one of them again, in the same table and under another ID. */
  lemma CrashedRunRepeats(cfg: Settings, db: Db, rows: seq<RegistryRow>, k: nat)
    requires var p := Plan(true, cfg, db, rows);
             p.failure.None? && Plan(true, cfg, p.db, rows).failure.None?
             && k < |p.decisions| && p.decisions[k].Insert?
    ensures var p := Plan(true, cfg, db, rows);
            var q := Plan(true, cfg, p.db, rows);
            && k < |q.decisions| && q.decisions[k].Insert?
            && q.decisions[k].plan.table == p.decisions[k].plan.table
            && !HasRow(p.db, q.decisions[k].plan.table, q.decisions[k].plan.id)
            && HasRow(p.db, p.decisions[k].plan.table, p.decisions[k].plan.id)
  {
    var p := Plan(true, cfg, db, rows);
    OneDecisionEach(true, cfg, db, rows);
    InsertsReadBack(cfg, db, rows);
    DecisionAt(cfg, db, rows, k);
    DecisionAt(cfg, p.db, rows, k);
    var s, t := Plan(true, cfg, db, rows[..k]), Plan(true, cfg, p.db, rows[..k]);
    RunsOnlyAdd(cfg, db, rows, k);
    RunsOnlyAdd(cfg, p.db, rows[..k], 0);
    assert rows[..k][..0] == [];
    assert Plan(true, cfg, p.db, []).db == p.db;
    hide Plan, PlanRow, NewId, ReadsBack;
    assert Within(s.db, t.db);
    StillPlans(cfg, s.db, t.db, s.given, t.given, rows[k]);
    PlannedShape(t.db, t.given, cfg, rows[k]);
    NewIdNotThere(t.db, t.given, PlanRow(t.db, t.given, cfg, rows[k]).value.table);
  }

  // ---------------------------------------------------------------- the run

  datatype Exit = Code(code: nat) | SetNeedsLabel | Failed(failure: Failure) | WriteBackMismatch(rowid: int)

  method FindPending(registry: seq<RegistryRow>, only: Option<string>) returns (rows: seq<RegistryRow>)
    ensures rows == PendingRows(registry, only)
  {
    rows := [];
    for i := 0 to |registry|
      invariant rows == PendingRows(registry[..i], only)
    {
      assert registry[..i + 1][..i] == registry[..i];
      if IsPending(registry[i], only) { rows := rows + [registry[i]]; }
    }
    assert registry[..|registry|] == registry;
  }

  method FindNextFreeId(rows: map<int, Values>) returns (n: int)
    ensures n == NextFreeId(rows.Keys)
  {
    var left := rows.Keys;
    if left == {} { return 1; }
    var greatest := Ordering.Greatest(left);
    n := greatest + 1;
  }

  method DecideRow(db: Db, given: map<string, int>, cfg: Settings, row: RegistryRow)
    returns (r: Result<Planned, Refusal>)
    ensures r == PlanRow(db, given, cfg, row)
  {
    var resolved := ResolveTemplate(row.toolClass, cfg.templates);
    if resolved.Err? { return Err(resolved.error); }
    var (table, templateId) := resolved.value;
    if table !in db || db[table].columns == [] { return Err(TableMissing); }
    var columns := db[table].columns;
    if "ID" !in columns { return Err(NoIdColumn); }
    if templateId !in db[table].rows { return Err(TemplateRowMissing); }
    var id := FindNextFreeId(db[table].rows);
    if id < HighWater(given, table) + 1 { id := HighWater(given, table) + 1; }
    var own := BuildOverrides(row);
    if own.Err? { return Err(own.error); }
    var overrides: Overrides := own.value + cfg.extra;
    if exists c | c in overrides :: c !in columns { return Err(ColumnsMissing); }
    return Ok(Planned(row.rowid, table, id, overrides, Cloned(columns, db[table].rows[templateId], overrides)));
  }

  /** The two database files, and the one open TechDB transaction. */
  class Inserter {
    var techdb: Db
    var registry: seq<RegistryRow>
    ghost var disks: seq<Disk>  // every state a crash could leave, in order

    constructor (copy: Db, tools: seq<RegistryRow>)
      ensures techdb == copy && registry == tools && disks == [Disk(copy, tools)]
    {
      techdb, registry, disks := copy, tools, [Disk(copy, tools)];
    }

    /** The planning loop; `work` is what the TechDB connection sees. */
    method PlanAll(apply: bool, cfg: Settings, rows: seq<RegistryRow>)
      returns (work: Db, planned: seq<Planned>, skips: bool, failure: Option<Failure>)
      ensures var p := Plan(apply, cfg, techdb, rows);
              && failure == p.failure
              && (failure.None? ==> work == p.db && planned == PlansOf(p.decisions) && skips == AnySkipped(p.decisions))
    {
      work, planned, skips, failure := techdb, [], false, None;
      var given: map<string, int> := map[];
      ghost var p := Progress(techdb, map[], [], None);
      for i := 0 to |rows|
        invariant failure.None? && p == Plan(apply, cfg, techdb, rows[..i])
        invariant p == Progress(work, given, p.decisions, None)
        invariant planned == PlansOf(p.decisions) && skips == AnySkipped(p.decisions)
      {
        hide Plan, PlanRow, PlansOf, AnySkipped, Attempt;
        var r := DecideRow(work, given, cfg, rows[i]);
        PlanExtends(apply, cfg, techdb, rows, i, p, r);
        if r.Err? {
          p := p.(decisions := p.decisions + [DecisionOf(r, rows[i])]);
          skips := true;
          continue;
        }
        var plan := r.value;
        if apply {
          var attempt := Attempt(work, plan);
          if attempt.Err? {
            failure := Some(attempt.error);
            return;
          }
          work := attempt.value;
        }
        given := given[plan.table := plan.id];
        planned := planned + [plan];
        p := Progress(work, given, p.decisions + [DecisionOf(r, rows[i])], None);
      }
      assert rows[..|rows|] == rows;
    }

    /** `gone`: registry rows another program removes between the two commits. */
    method Run(apply: bool, only: Option<string>, cfg: Settings, gone: set<int>) returns (exit: Exit)
      modifies this
      ensures var rows := PendingRows(old(registry), only);
              var p := Plan(apply, cfg, old(techdb), rows);
              var plans := PlansOf(p.decisions);
              var done := Code(if exists k | 0 <= k < |p.decisions| :: p.decisions[k].Skip? then 1 else 0);
              if cfg.extra != map[] && only.None? then
                exit == SetNeedsLabel && techdb == old(techdb) && registry == old(registry) && disks == old(disks)
              else if p.failure.Some? then
                exit == Failed(p.failure.value) && techdb == old(techdb) && registry == old(registry)
                  && disks == old(disks)
              else if !apply || plans == [] then
                exit == done
                && techdb == old(techdb) && registry == old(registry) && disks == old(disks)
              else
                var left := Remaining(old(registry), gone);
                var w := WriteAll(left, plans);
                && techdb == p.db
                && registry == (if w.Ok? then w.value else left)
                && exit == (if w.Ok? then done else WriteBackMismatch(w.error))
                && disks == old(disks) + [Disk(p.db, left)] + if w.Ok? then [Disk(p.db, w.value)] else []
      ensures |old(disks)| <= |disks|
              && forall i | |old(disks)| <= i < |disks| :: LinksCommitted(old(registry), disks[i])
    {
      hide Plan, PlansOf, AnySkipped, PendingRows, Remaining, LinksCommitted, WriteAll;
      if cfg.extra != map[] && only.None? { return SetNeedsLabel; }
      var rows := FindPending(registry, only);
      if rows == [] {
        NothingPlanned(apply, cfg, techdb);
        return Code(0);
      }
      var work, planned, skips, failure := PlanAll(apply, cfg, rows);
      if failure.Some? { return Failed(failure.value); }
      exit := Code(if skips then 1 else 0);
      ghost var decisions := Plan(apply, cfg, techdb, rows).decisions;
      SkippedIff(decisions);
      if apply && planned != [] {
        RunLinksCommitted(cfg, techdb, rows, registry, gone, planned);
        var mismatch := Commit(work, planned, gone);
        if mismatch.Some? { exit := WriteBackMismatch(mismatch.value); }
      }
    }

    /** TechDB first, registry second. */
    method Commit(work: Db, planned: seq<Planned>, gone: set<int>) returns (mismatch: Option<int>)
      modifies this
      ensures var left := Remaining(old(registry), gone);
              var w := WriteAll(left, planned);
              && techdb == work
              && registry == (if w.Ok? then w.value else left)
              && mismatch == (if w.Ok? then None else Some(w.error))
              && disks == old(disks) + [Disk(work, left)] + if w.Ok? then [Disk(work, w.value)] else []
    {
      techdb := work;
      registry := Remaining(registry, gone);
      disks := disks + [Disk(techdb, registry)];
      mismatch := WriteBackAll(planned);
    }

    /** The registry transaction: every update, then the commit; a row that does not match rolls it back. */
    method WriteBackAll(planned: seq<Planned>) returns (mismatch: Option<int>)
      modifies this`registry, this`disks
      ensures var w := WriteAll(old(registry), planned);
              if w.Ok? then mismatch == None && registry == w.value && disks == old(disks) + [Disk(techdb, w.value)]
              else mismatch == Some(w.error) && registry == old(registry) && disks == old(disks)
    {
      var work := registry;
      for i := 0 to |planned|
        invariant WriteAll(registry, planned[..i]) == Ok(work)
        invariant registry == old(registry) && disks == old(disks)
      {
        assert planned[..i + 1][..i] == planned[..i];
        if Matching(work, planned[i].rowid) != 1 {
          MismatchStays(registry, planned, i + 1);
          return Some(planned[i].rowid);
        }
        work := WriteBack(work, planned[i]);
      }
      assert planned[..|planned|] == planned;
      registry := work;
      disks := disks + [Disk(techdb, registry)];
      return None;
    }
  }

  /** Both states the two commits can leave. */
  lemma RunLinksCommitted(
    cfg: Settings, db: Db, rows: seq<RegistryRow>, registry: seq<RegistryRow>, gone: set<int>, plans: seq<Planned>)
    requires var p := Plan(true, cfg, db, rows); p.failure.None? && plans == PlansOf(p.decisions)
    ensures var left := Remaining(registry, gone);
            var w := WriteAll(left, plans);
            && LinksCommitted(registry, Disk(Plan(true, cfg, db, rows).db, left))
            && (w.Ok? ==> LinksCommitted(registry, Disk(Plan(true, cfg, db, rows).db, w.value)))
  {
    hide Plan, PlansOf, Remaining, LinksCommitted, WriteAll;
    NothingNew(registry, gone, Plan(true, cfg, db, rows).db);
    if WriteAll(Remaining(registry, gone), plans).Ok? {
      WrittenLinksCommitted(cfg, db, rows, registry, gone);
    }
  }

  /** What one more row comes to, given what was decided about it. */
  lemma PlanExtends(
    apply: bool, cfg: Settings, db: Db, rows: seq<RegistryRow>, i: nat, p: Progress, r: Result<Planned, Refusal>)
    requires i < |rows| && p == Plan(apply, cfg, db, rows[..i]) && p.failure.None?
    requires r == PlanRow(p.db, p.given, cfg, rows[i])
    ensures var q, d := Plan(apply, cfg, db, rows[..i + 1]), p.decisions + [DecisionOf(r, rows[i])];
            && PlansOf(d) == PlansOf(p.decisions) + (if r.Ok? then [r.value] else [])
            && AnySkipped(d) == (AnySkipped(p.decisions) || r.Err?)
            && if r.Err? then q == p.(decisions := d)
               else
                 var given := p.given[r.value.table := r.value.id];
                 && r.value.table in p.db
                 && if !apply then q == p.(given := given, decisions := d)
                    else match Attempt(p.db, r.value)
                      case Ok(next) => q == Progress(next, given, d, None)
                      case Err(f) => Plan(apply, cfg, db, rows).failure == Some(f)
  {
    PlannedShape(p.db, p.given, cfg, rows[i]);
    DecisionsSnoc(p.decisions, DecisionOf(r, rows[i]));
    assert rows[..i + 1][..i] == rows[..i];
    hide PlanRow, NewId, Protected, Attempt, PlansOf, AnySkipped;
    if apply && Plan(apply, cfg, db, rows[..i + 1]).failure.Some? { FailureStays(cfg, db, rows, i + 1); }
  }

  lemma NothingPlanned(apply: bool, cfg: Settings, db: Db)
    ensures var p := Plan(apply, cfg, db, []); p.failure.None? && PlansOf(p.decisions) == [] && p.decisions == []
  {
  }

  lemma SkippedIff(decisions: seq<Decision>)
    ensures AnySkipped(decisions) <==> exists k | 0 <= k < |decisions| :: decisions[k].Skip?
  {
  }

  lemma DecisionsSnoc(decisions: seq<Decision>, d: Decision)
    ensures PlansOf(decisions + [d]) == PlansOf(decisions) + if d.Insert? then [d.plan] else []
    ensures AnySkipped(decisions + [d]) == (AnySkipped(decisions) || d.Skip?)
  {
    assert (decisions + [d])[..|decisions|] == decisions;
    assert (decisions + [d])[|decisions|] == d;
    assert forall i | 0 <= i < |decisions| :: (decisions + [d])[i] == decisions[i];
  }

  lemma {:induction false} FailureStays(cfg: Settings, db: Db, rows: seq<RegistryRow>, n: nat)
    requires n <= |rows| && Plan(true, cfg, db, rows[..n]).failure.Some?
    ensures Plan(true, cfg, db, rows).failure == Plan(true, cfg, db, rows[..n]).failure
    decreases |rows|
  {
    hide PlanRow;
    if n == |rows| {
      assert rows[..n] == rows;
    } else {
      assert rows[..|rows| - 1][..n] == rows[..n];
      FailureStays(cfg, db, rows[..|rows| - 1], n);
    }
  }

  lemma {:induction false} MismatchStays(registry: seq<RegistryRow>, plans: seq<Planned>, n: nat)
    requires n <= |plans| && WriteAll(registry, plans[..n]).Err?
    ensures WriteAll(registry, plans) == WriteAll(registry, plans[..n])
    decreases |plans|
  {
    if n == |plans| {
      assert plans[..n] == plans;
    } else {
      assert plans[..|plans| - 1][..n] == plans[..n];
      MismatchStays(registry, plans[..|plans| - 1], n);
    }
  }
}
