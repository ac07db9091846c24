/**
 The mirror tables and the audit log (`shared/focas/snapshot.py`, `shared/focas/snapshot_diff.py`).

 `Persist` is the function a poll applies to the store; the class `MirrorStore` applies it in place,
 in the order the source does.
 */
module SnapshotStore {
  import opened Wrappers
  import opened KeyedLedger
  import opened FocasModels

  // ---------------------------------------------------------------- the audit log

  datatype Source = PresetterVerified | ManualEdit

  datatype EventType =
    | OffsetChange | PotMove | ToolLifeChange | MacroChange | PotReinitSuspected | WorkOffsetChange
    | OtherEvent(name: string)

  datatype Entity =
    | OffsetEntity(offset: OffsetKey)
    | PotEntity(pot: nat)
    | MacroEntity(number: nat)
    | ToolLifeEntity(tool: nat)
    | WorkOffsetEntity(workOffset: WorkOffsetKey)
    | MachineEntity(machine: int)
    | OtherEntity(kind: string, id: string)

  datatype Payload =
    | OffsetValue(mm: int, source: Option<Source>)
    | PotValue(t: Option<nat>)
    | MacroValue(value: Option<real>)
    | ToolLifeValue(life: ToolLife)
    | WorkOffsetValue(units: int)
    | ReinitValue(pots: seq<nat>, count: nat)

  datatype AuditRow = AuditRow(
    machine: int, event: EventType, entity: Entity,
    before: Option<Payload>, after: Option<Payload>, success: bool, occurredAt: int)

  /** Rows only this machine's poller writes. */
  predicate Own(machine: int, row: AuditRow) {
    row.machine == machine && !row.event.OtherEvent?
  }

  // ---------------------------------------------------------------- rows from events

  /** The G31 skip variables the tool presetter latches. */
  const SKIP_VARS: set<nat> := {5061, 5062, 5063}

  const REINIT_MIN_POTS: nat := 4

  /** Only a genuine H-geometry transition is attributed. */
  function SourceOf(c: Change<OffsetKey, int>, presetterActive: bool): Option<Source> {
    if c.key.bank.HGeom? && c.before.Some? then Some(if presetterActive then PresetterVerified else ManualEdit)
    else None
  }

  function OffsetRow(machine: int, active: bool, c: Change<OffsetKey, int>): AuditRow {
    AuditRow(machine, OffsetChange, OffsetEntity(c.key),
             if c.before.None? then None else Some(OffsetValue(c.before.value, None)),
             Some(OffsetValue(c.after, SourceOf(c, active))), true, c.at)
  }

  function PotRow(machine: int, c: Change<nat, Option<nat>>): AuditRow {
    AuditRow(machine, PotMove, PotEntity(c.key),
             if c.before.None? then None else Some(PotValue(c.before.value)),
             Some(PotValue(c.after)), true, c.at)
  }

  function MacroRow(machine: int, c: Change<nat, Option<real>>): AuditRow {
    AuditRow(machine, MacroChange, MacroEntity(c.key),
             if c.before.None? then None else Some(MacroValue(c.before.value)),
             Some(MacroValue(c.after)), true, c.at)
  }

  function ToolLifeRow(machine: int, c: Change<nat, ToolLife>): AuditRow {
    AuditRow(machine, ToolLifeChange, ToolLifeEntity(c.key),
             if c.before.None? then None else Some(ToolLifeValue(c.before.value)),
             Some(ToolLifeValue(c.after)), true, c.at)
  }

  function WorkOffsetRow(machine: int, c: Change<WorkOffsetKey, int>): AuditRow {
    AuditRow(machine, WorkOffsetChange, WorkOffsetEntity(c.key),
             if c.before.None? then None else Some(WorkOffsetValue(c.before.value)),
             Some(WorkOffsetValue(c.after)), true, c.at)
  }

  function ReinitRows(machine: int, reverted: seq<nat>, at: int): seq<AuditRow> {
    if |reverted| < REINIT_MIN_POTS then [] else
    [AuditRow(machine, PotReinitSuspected, MachineEntity(machine), None,
              Some(ReinitValue(reverted, |reverted|)), false, at)]
  }

  /** `_Audit` rows for a domain's events, in order. */
  function Render<K, V>(events: seq<Change<K, V>>, row: Change<K, V> -> AuditRow): seq<AuditRow> {
    if events == [] then [] else
    Render(events[..|events| - 1], row) + [row(events[|events| - 1])]
  }

  function OffsetRows(machine: int, active: bool): Change<OffsetKey, int> -> AuditRow {
    c => OffsetRow(machine, active, c)
  }
  function PotRows(machine: int): Change<nat, Option<nat>> -> AuditRow { c => PotRow(machine, c) }
  function MacroRows(machine: int): Change<nat, Option<real>> -> AuditRow { c => MacroRow(machine, c) }
  function ToolLifeRows(machine: int): Change<nat, ToolLife> -> AuditRow { c => ToolLifeRow(machine, c) }
  function WorkOffsetRows(machine: int): Change<WorkOffsetKey, int> -> AuditRow { c => WorkOffsetRow(machine, c) }

  // ---------------------------------------------------------------- the mirror

  /** `focas_tool_life` has no `last_changed_at`. */
  datatype ToolLifeRecord = ToolLifeRecord(life: ToolLife, polledAt: int)

  datatype StatusRecord = StatusRecord(
    status: MachineStatus, lastToolWord: Option<nat>, lastToolAt: Option<int>, polledAt: int, changedAt: int)

  datatype Mirror = Mirror(
    offsets: Table<OffsetKey, int>,
    pots: Table<nat, Option<nat>>,
    macros: Table<nat, Option<real>>,
    toolLife: map<nat, ToolLifeRecord>,
    workOffsets: Table<WorkOffsetKey, int>,
    status: Option<StatusRecord>)

  datatype Store = Store(mirror: Mirror, log: seq<AuditRow>)

  const EMPTY_STORE := Store(Mirror(map[], map[], map[], map[], map[], None), [])

  function ToolLifeValues(t: map<nat, ToolLifeRecord>): map<nat, ToolLife> {
    map k | k in t :: t[k].life
  }

  function UpsertToolLife(t: map<nat, ToolLifeRecord>, readings: seq<Reading<nat, ToolLife>>, at: int)
    : map<nat, ToolLifeRecord>
  {
    if readings == [] then t else
    var r := readings[|readings| - 1];
    UpsertToolLife(t, readings[..|readings| - 1], at)[r.key := ToolLifeRecord(r.value, at)]
  }

  /** The word when it is a lathe `Tnnww` that carries an offset (`ww != 00`). */
  function LastRealTWord(word: Option<nat>): Option<nat> {
    if word.Some? && word.value >= 100 && word.value % 100 != 0 then word else None
  }

  /** The seven fields whose movement counts as a change; the program name is display only. */
  predicate SameStatus(a: MachineStatus, b: MachineStatus) {
    a.(programName := None) == b.(programName := None)
  }

  predicate StatusChanged(stored: Option<StatusRecord>, s: MachineStatus) {
    stored.None? || !SameStatus(stored.value.status, s)
  }

  /** The status conflict rule: overwrite, but keep the last real T word over a cancel. */
  function UpsertStatus(stored: Option<StatusRecord>, s: MachineStatus, at: int): StatusRecord {
    var word := LastRealTWord(s.currentT);
    var wordAt := if word.Some? then Some(at) else None;
    if stored.None? then StatusRecord(s, word, wordAt, at, at)
    else StatusRecord(s, Or(word, stored.value.lastToolWord), Or(wordAt, stored.value.lastToolAt), at,
                      if SameStatus(stored.value.status, s) then stored.value.changedAt else at)
  }

  // ---------------------------------------------------------------- pot reinitialisation

  /** The pot had another identity and now reads its own ordinal. */
  predicate RevertedPot(current: map<nat, Option<nat>>, r: Reading<nat, Option<nat>>) {
    r.value == Some(r.key) && r.key in current && current[r.key].Some? && current[r.key] != Some(r.key)
  }

  function Reverted(current: map<nat, Option<nat>>, pots: seq<Reading<nat, Option<nat>>>): seq<nat> {
    if pots == [] then [] else
    var r := pots[|pots| - 1];
    Reverted(current, pots[..|pots| - 1]) + if RevertedPot(current, r) then [r.key] else []
  }

  function Insert(s: seq<nat>, x: nat): seq<nat> {
    if s == [] || s[|s| - 1] <= x then s + [x]
    else Insert(s[..|s| - 1], x) + [s[|s| - 1]]
  }

  function Sorted(s: seq<nat>): (r: seq<nat>)
    ensures |r| == |s|
  {
    if s == [] then [] else
    InsertLength(Sorted(s[..|s| - 1]), s[|s| - 1]);
    Insert(Sorted(s[..|s| - 1]), s[|s| - 1])
  }

  lemma {:induction false} InsertLength(s: seq<nat>, x: nat)
    ensures |Insert(s, x)| == |s| + 1
  {
    if !(s == [] || s[|s| - 1] <= x) {
      InsertLength(s[..|s| - 1], x);
    }
  }

  ghost predicate Ordered(s: seq<nat>) {
    forall i, j | 0 <= i < j < |s| :: s[i] <= s[j]
  }

  lemma {:induction false} InsertContents(s: seq<nat>, x: nat)
    ensures multiset(Insert(s, x)) == multiset(s) + multiset{x}
  {
    if !(s == [] || s[|s| - 1] <= x) {
      InsertContents(s[..|s| - 1], x);
      assert s == s[..|s| - 1] + [s[|s| - 1]];
    }
  }

  lemma {:induction false} InsertOrdered(s: seq<nat>, x: nat)
    requires Ordered(s)
    ensures Ordered(Insert(s, x))
  {
    if !(s == [] || s[|s| - 1] <= x) {
      var most, last := s[..|s| - 1], s[|s| - 1];
      InsertOrdered(most, x);
      var r := Insert(most, x);
      forall i | 0 <= i < |r| ensures r[i] <= last {
        InsertContents(most, x);
        assert r[i] in multiset(r);
        assert r[i] in most || r[i] == x;
      }
    }
  }

  /** `sorted` sorts. */
  lemma {:induction false} SortedSorts(s: seq<nat>)
    ensures multiset(Sorted(s)) == multiset(s) && Ordered(Sorted(s))
  {
    if s != [] {
      SortedSorts(s[..|s| - 1]);
      InsertContents(Sorted(s[..|s| - 1]), s[|s| - 1]);
      InsertOrdered(Sorted(s[..|s| - 1]), s[|s| - 1]);
      assert s == s[..|s| - 1] + [s[|s| - 1]];
    }
  }

  method DetectPotReinit(current: map<nat, Option<nat>>, pots: seq<Reading<nat, Option<nat>>>)
    returns (reverted: seq<nat>)
    ensures reverted == Sorted(Reverted(current, pots))
  {
    var found := [];
    for i := 0 to |pots|
      invariant found == Reverted(current, pots[..i])
    {
      assert pots[..i + 1][..i] == pots[..i];
      if RevertedPot(current, pots[i]) {
        found := found + [pots[i].key];
      }
    }
    assert pots[..|pots|] == pots;
    reverted := Sorted(found);
  }

  // ---------------------------------------------------------------- presetter attribution

  /** The audit row that proves a macro's change at `at` was a transition. */
  predicate TransitionRow(machine: int, row: AuditRow, number: nat, at: int) {
    row.machine == machine && row.event.MacroChange? && row.entity == MacroEntity(number)
    && row.occurredAt == at && row.before.Some?
  }

  predicate ChangedAtLastPoll(t: Table<nat, Option<real>>, number: nat) {
    number in t && t[number].changedAt == t[number].polledAt
  }

  /** Some skip variable's last mirrored change landed in the cycle that last observed it. */
  ghost predicate SkipChangedLastCycle(machine: int, s: Store) {
    exists number | number in SKIP_VARS && ChangedAtLastPoll(s.mirror.macros, number) ::
      exists i :: 0 <= i < |s.log| && TransitionRow(machine, s.log[i], number, s.mirror.macros[number].changedAt)
  }

  /** The reading moves a skip variable that had a mirrored value. */
  predicate SkipMoves(current: map<nat, Option<real>>, r: Reading<nat, Option<real>>) {
    r.key in SKIP_VARS && r.key in current && current[r.key] != r.value
  }

  ghost predicate PresetterActive(machine: int, s: Store, snapshot: MachineSnapshot) {
    || (exists i :: 0 <= i < |snapshot.macros| && SkipMoves(Values(s.mirror.macros), snapshot.macros[i]))
    || SkipChangedLastCycle(machine, s)
  }

  // ---------------------------------------------------------------- one poll

  ghost function NewRows(machine: int, s: Store, snapshot: MachineSnapshot): seq<AuditRow> {
    var m, at := s.mirror, snapshot.polledAt;
    Render(Diff(Values(m.offsets), snapshot.offsets, at), OffsetRows(machine, PresetterActive(machine, s, snapshot)))
    + Render(Diff(Values(m.pots), snapshot.pots, at), PotRows(machine))
    + Render(Diff(Values(m.macros), snapshot.macros, at), MacroRows(machine))
    + Render(Diff(ToolLifeValues(m.toolLife), snapshot.toolLife, at), ToolLifeRows(machine))
    + Render(Diff(Values(m.workOffsets), snapshot.workOffsets, at), WorkOffsetRows(machine))
    + ReinitRows(machine, Sorted(Reverted(Values(m.pots), snapshot.pots)), at)
  }

  ghost function Persist(machine: int, s: Store, snapshot: MachineSnapshot): Store {
    var m, at := s.mirror, snapshot.polledAt;
    Store(
      Mirror(
        UpsertAll(m.offsets, snapshot.offsets, at),
        UpsertAll(m.pots, snapshot.pots, at),
        UpsertAll(m.macros, snapshot.macros, at),
        UpsertToolLife(m.toolLife, snapshot.toolLife, at),
        UpsertAll(m.workOffsets, snapshot.workOffsets, at),
        Some(UpsertStatus(m.status, snapshot.status, at))),
      s.log + NewRows(machine, s, snapshot))
  }

  datatype PersistResult = PersistResult(
    offsetsObserved: nat, offsetsChanged: nat, potsObserved: nat, potsChanged: nat,
    toolLifeObserved: nat, toolLifeChanged: nat, macrosObserved: nat, macrosChanged: nat,
    potReinitSuspected: bool, statusChanged: bool, workOffsetsObserved: nat, workOffsetsChanged: nat)
  {
    function AuditRows(): nat {
      offsetsChanged + potsChanged + toolLifeChanged + macrosChanged + workOffsetsChanged
      + if potReinitSuspected then 1 else 0
    }
  }

  /** What `persist` reports: per domain, readings observed and readings that moved. */
  ghost function Summary(s: Store, snapshot: MachineSnapshot): PersistResult {
    var m, at := s.mirror, snapshot.polledAt;
    PersistResult(
      |snapshot.offsets|, |Diff(Values(m.offsets), snapshot.offsets, at)|,
      |snapshot.pots|, |Diff(Values(m.pots), snapshot.pots, at)|,
      |snapshot.toolLife|, |Diff(ToolLifeValues(m.toolLife), snapshot.toolLife, at)|,
      |snapshot.macros|, |Diff(Values(m.macros), snapshot.macros, at)|,
      |Reverted(Values(m.pots), snapshot.pots)| >= REINIT_MIN_POTS, StatusChanged(m.status, snapshot.status),
      |snapshot.workOffsets|, |Diff(Values(m.workOffsets), snapshot.workOffsets, at)|)
  }

  lemma {:induction false} RenderLength<K, V>(events: seq<Change<K, V>>, row: Change<K, V> -> AuditRow)
    ensures |Render(events, row)| == |events|
  {
    if events != [] { RenderLength(events[..|events| - 1], row); }
  }

  /** The mirror of one machine and the shared log, updated in place. */
  class MirrorStore {
    const machine: int
    var offsets: Table<OffsetKey, int>
    var pots: Table<nat, Option<nat>>
    var macros: Table<nat, Option<real>>
    var toolLife: map<nat, ToolLifeRecord>
    var workOffsets: Table<WorkOffsetKey, int>
    var status: Option<StatusRecord>
    var log: seq<AuditRow>

    constructor (machine: int)
      ensures this.machine == machine && Contents() == EMPTY_STORE
    {
      this.machine := machine;
      offsets, pots, macros, toolLife, workOffsets, status, log := map[], map[], map[], map[], map[], None, [];
    }

    ghost function Contents(): Store
      reads this
    {
      Store(Mirror(offsets, pots, macros, toolLife, workOffsets, status), log)
    }

    method HasTransitionRow(number: nat, at: int) returns (hit: bool)
      ensures hit <==> exists i :: 0 <= i < |log| && TransitionRow(machine, log[i], number, at)
    {
      hit := false;
      for i := 0 to |log|
        invariant !hit
        invariant forall j | 0 <= j < i :: !TransitionRow(machine, log[j], number, at)
      {
        if TransitionRow(machine, log[i], number, at) { return true; }
      }
    }

    method SkipChanged() returns (changed: bool)
      ensures changed <==> SkipChangedLastCycle(machine, Contents())
    {
      var rows := set number | number in SKIP_VARS && ChangedAtLastPoll(macros, number);
      changed := false;
      while rows != {}
        invariant !changed
        invariant rows <= set number | number in SKIP_VARS && ChangedAtLastPoll(macros, number)
        invariant forall number | number in SKIP_VARS && ChangedAtLastPoll(macros, number) && number !in rows ::
                    forall i | 0 <= i < |log| :: !TransitionRow(machine, log[i], number, macros[number].changedAt)
        decreases rows
      {
        var number :| number in rows;
        var hit := HasTransitionRow(number, macros[number].changedAt);
        if hit { return true; }
        rows := rows - {number};
      }
    }

    method AnySkipMoves(readings: seq<Reading<nat, Option<real>>>) returns (moves: bool)
      ensures moves <==> exists i :: 0 <= i < |readings| && SkipMoves(Values(macros), readings[i])
    {
      for i := 0 to |readings|
        invariant forall j | 0 <= j < i :: !SkipMoves(Values(macros), readings[j])
      {
        if SkipMoves(Values(macros), readings[i]) { return true; }
      }
      moves := false;
    }

    /** Diff against the mirror, upsert, append the change events. */
    method PersistSnapshot(snapshot: MachineSnapshot) returns (r: PersistResult)
      modifies this
      ensures Contents() == Persist(machine, old(Contents()), snapshot)
      ensures r == Summary(old(Contents()), snapshot) && r.AuditRows() == |log| - |old(log)|
    {
      hide NewRows, Summary, ReinitRows;
      var rows, reverted;
      rows, reverted, r := DiffSnapshot(snapshot);
      UpsertSnapshot(snapshot);
      RecordAudits(rows);
      RecordAudits(ReinitRows(machine, reverted, snapshot.polledAt));
    }

    /** Every domain's events, from the stored state. */
    method DiffSnapshot(snapshot: MachineSnapshot)
      returns (rows: seq<AuditRow>, reverted: seq<nat>, r: PersistResult)
      ensures rows + ReinitRows(machine, reverted, snapshot.polledAt) == NewRows(machine, Contents(), snapshot)
      ensures r.AuditRows() == |rows| + |ReinitRows(machine, reverted, snapshot.polledAt)|
      ensures r == Summary(Contents(), snapshot)
    {
      var at := snapshot.polledAt;
      var active := AnySkipMoves(snapshot.macros);
      if !active { active := SkipChanged(); }

      var dOffsets := DiffReadings(Values(offsets), snapshot.offsets, at);
      var dPots := DiffReadings(Values(pots), snapshot.pots, at);
      reverted := DetectPotReinit(Values(pots), snapshot.pots);
      var dMacros := DiffReadings(Values(macros), snapshot.macros, at);
      var dLife := DiffReadings(ToolLifeValues(toolLife), snapshot.toolLife, at);
      var dWork := DiffReadings(Values(workOffsets), snapshot.workOffsets, at);

      RenderLength(dOffsets, OffsetRows(machine, active));
      RenderLength(dPots, PotRows(machine));
      RenderLength(dMacros, MacroRows(machine));
      RenderLength(dLife, ToolLifeRows(machine));
      RenderLength(dWork, WorkOffsetRows(machine));
      rows := Render(dOffsets, OffsetRows(machine, active)) + Render(dPots, PotRows(machine))
        + Render(dMacros, MacroRows(machine)) + Render(dLife, ToolLifeRows(machine))
        + Render(dWork, WorkOffsetRows(machine));
      r := PersistResult(
        |snapshot.offsets|, |dOffsets|, |snapshot.pots|, |dPots|, |snapshot.toolLife|, |dLife|,
        |snapshot.macros|, |dMacros|, |reverted| >= REINIT_MIN_POTS, StatusChanged(status, snapshot.status),
        |snapshot.workOffsets|, |dWork|);
    }

    method UpsertSnapshot(snapshot: MachineSnapshot)
      modifies this
      ensures Contents().mirror == Persist(machine, old(Contents()), snapshot).mirror && log == old(log)
    {
      var at := snapshot.polledAt;
      offsets := UpsertReadings(offsets, snapshot.offsets, at);
      pots := UpsertReadings(pots, snapshot.pots, at);
      macros := UpsertReadings(macros, snapshot.macros, at);
      UpsertToolLifeRows(snapshot.toolLife, at);
      status := Some(UpsertStatus(status, snapshot.status, at));
      workOffsets := UpsertReadings(workOffsets, snapshot.workOffsets, at);
    }

    method UpsertToolLifeRows(readings: seq<Reading<nat, ToolLife>>, at: int)
      modifies this`toolLife
      ensures toolLife == UpsertToolLife(old(toolLife), readings, at)
    {
      for i := 0 to |readings|
        invariant toolLife == UpsertToolLife(old(toolLife), readings[..i], at)
      {
        assert readings[..i + 1][..i] == readings[..i];
        toolLife := toolLife[readings[i].key := ToolLifeRecord(readings[i].value, at)];
      }
      assert readings[..|readings|] == readings;
    }

    method RecordAudits(rows: seq<AuditRow>)
      modifies this`log
      ensures log == old(log) + rows
    {
      for i := 0 to |rows|
        invariant log == old(log) + rows[..i]
      {
        log := log + [rows[i]];
      }
    }
  }
}
