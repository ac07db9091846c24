/**
 What every run of `persist` leaves behind.

 A run interleaves polls of one machine with rows other writers append to the shared log (other
 machines' pollers, operator writes).  Each audited domain of the real store is shown to be a
 `KeyedLedger` run, which carries that module's theorems to the tables and the log.
 */
module SnapshotHistory {
  import opened Wrappers
  import opened KeyedLedger
  import opened FocasModels
  import opened SnapshotStore

  datatype Entry = Poll(snapshot: MachineSnapshot) | Foreign(row: AuditRow)

  ghost function Apply(machine: int, s: Store, e: Entry): Store {
    match e
    case Poll(snapshot) => Persist(machine, s, snapshot)
    case Foreign(row) => s.(log := s.log + [row])
  }

  ghost function Replayed(machine: int, run: seq<Entry>): Store {
    if run == [] then EMPTY_STORE else
    Apply(machine, Replayed(machine, run[..|run| - 1]), run[|run| - 1])
  }

  /** Poll stamps strictly increase. */
  ghost predicate Chronological(run: seq<Entry>) {
    forall i, j | 0 <= i < j < |run| && run[i].Poll? && run[j].Poll? ::
      run[i].snapshot.polledAt < run[j].snapshot.polledAt
  }

  /** Snapshots have passed their validators, and other writers never use this machine's poller events. */
  ghost predicate Legal(machine: int, run: seq<Entry>) {
    && Chronological(run)
    && (forall i | 0 <= i < |run| && run[i].Poll? :: Validated(run[i].snapshot))
    && (forall i | 0 <= i < |run| && run[i].Foreign? :: !Own(machine, run[i].row))
  }

  // ---------------------------------------------------------------- the sweeps of one domain

  function SweepsOf<K, V>(run: seq<Entry>, domain: MachineSnapshot -> seq<Reading<K, V>>): seq<Sweep<K, V>> {
    if run == [] then [] else
    var e := run[|run| - 1];
    SweepsOf(run[..|run| - 1], domain) + if e.Poll? then [Sweep(e.snapshot.polledAt, domain(e.snapshot))] else []
  }

  /** Every sweep comes from a poll of the run. */
  lemma {:induction false} SweepsFromPolls<K, V>(run: seq<Entry>, domain: MachineSnapshot -> seq<Reading<K, V>>, i: nat)
    requires i < |SweepsOf(run, domain)|
    ensures exists j :: 0 <= j < |run| && run[j].Poll?
              && SweepsOf(run, domain)[i] == Sweep(run[j].snapshot.polledAt, domain(run[j].snapshot))
  {
    var most, e := run[..|run| - 1], run[|run| - 1];
    if i < |SweepsOf(most, domain)| {
      SweepsFromPolls(most, domain, i);
      var j :| 0 <= j < |most| && most[j].Poll?
        && SweepsOf(most, domain)[i] == Sweep(most[j].snapshot.polledAt, domain(most[j].snapshot));
      assert run[j] == most[j];
    } else {
      assert run[|run| - 1] == e;
    }
  }

  lemma {:induction false} SweepsIncrease<K, V>(run: seq<Entry>, domain: MachineSnapshot -> seq<Reading<K, V>>)
    requires Chronological(run)
    ensures Increasing(SweepsOf(run, domain))
  {
    if run != [] {
      var most, e := run[..|run| - 1], run[|run| - 1];
      ChronologicalPrefix(run);
      SweepsIncrease(most, domain);
      if e.Poll? {
        forall i | 0 <= i < |SweepsOf(most, domain)| ensures SweepsOf(most, domain)[i].at < e.snapshot.polledAt {
          SweepsFromPolls(most, domain, i);
          var j :| 0 <= j < |most| && most[j].Poll?
            && SweepsOf(most, domain)[i] == Sweep(most[j].snapshot.polledAt, domain(most[j].snapshot));
          assert run[j] == most[j];
        }
      }
    }
  }

  lemma ChronologicalPrefix(run: seq<Entry>)
    requires Chronological(run) && run != []
    ensures Chronological(run[..|run| - 1])
  {
    var most := run[..|run| - 1];
    assert forall i | 0 <= i < |most| :: most[i] == run[i];
  }

  lemma LegalPrefix(machine: int, run: seq<Entry>)
    requires Legal(machine, run) && run != []
    ensures Legal(machine, run[..|run| - 1])
  {
    var most := run[..|run| - 1];
    assert forall i | 0 <= i < |most| :: most[i] == run[i];
  }

  lemma SweepsDistinct<K, V>(machine: int, run: seq<Entry>, domain: MachineSnapshot -> seq<Reading<K, V>>)
    requires Legal(machine, run)
    requires forall s: MachineSnapshot | Validated(s) :: Distinct(domain(s))
    ensures DistinctKeys(SweepsOf(run, domain))
  {
    forall i | 0 <= i < |SweepsOf(run, domain)| ensures Distinct(SweepsOf(run, domain)[i].readings) {
      SweepsFromPolls(run, domain, i);
      var j :| 0 <= j < |run| && run[j].Poll?
        && SweepsOf(run, domain)[i] == Sweep(run[j].snapshot.polledAt, domain(run[j].snapshot));
      assert Validated(run[j].snapshot);
    }
  }

  // ---------------------------------------------------------------- reading events back from rows

  /** The event a row records for one domain, if it is a row of that domain. */
  function OffsetEvent(machine: int, row: AuditRow): Option<Change<OffsetKey, int>> {
    if row.machine == machine && row.event.OffsetChange? && row.entity.OffsetEntity? && row.success
       && row.after.Some? && row.after.value.OffsetValue?
       && (row.before.None? || row.before.value.OffsetValue?)
    then Some(Change(row.entity.offset, if row.before.None? then None else Some(row.before.value.mm),
                     row.after.value.mm, row.occurredAt))
    else None
  }

  function PotEvent(machine: int, row: AuditRow): Option<Change<nat, Option<nat>>> {
    if row.machine == machine && row.event.PotMove? && row.entity.PotEntity? && row.success
       && row.after.Some? && row.after.value.PotValue?
       && (row.before.None? || row.before.value.PotValue?)
    then Some(Change(row.entity.pot, if row.before.None? then None else Some(row.before.value.t),
                     row.after.value.t, row.occurredAt))
    else None
  }

  function MacroEvent(machine: int, row: AuditRow): Option<Change<nat, Option<real>>> {
    if row.machine == machine && row.event.MacroChange? && row.entity.MacroEntity? && row.success
       && row.after.Some? && row.after.value.MacroValue?
       && (row.before.None? || row.before.value.MacroValue?)
    then Some(Change(row.entity.number, if row.before.None? then None else Some(row.before.value.value),
                     row.after.value.value, row.occurredAt))
    else None
  }

  function ToolLifeEvent(machine: int, row: AuditRow): Option<Change<nat, ToolLife>> {
    if row.machine == machine && row.event.ToolLifeChange? && row.entity.ToolLifeEntity? && row.success
       && row.after.Some? && row.after.value.ToolLifeValue?
       && (row.before.None? || row.before.value.ToolLifeValue?)
    then Some(Change(row.entity.tool, if row.before.None? then None else Some(row.before.value.life),
                     row.after.value.life, row.occurredAt))
    else None
  }

  function WorkOffsetEvent(machine: int, row: AuditRow): Option<Change<WorkOffsetKey, int>> {
    if row.machine == machine && row.event.WorkOffsetChange? && row.entity.WorkOffsetEntity? && row.success
       && row.after.Some? && row.after.value.WorkOffsetValue?
       && (row.before.None? || row.before.value.WorkOffsetValue?)
    then Some(Change(row.entity.workOffset, if row.before.None? then None else Some(row.before.value.units),
                     row.after.value.units, row.occurredAt))
    else None
  }

  function OffsetEvents(machine: int): AuditRow -> Option<Change<OffsetKey, int>> { r => OffsetEvent(machine, r) }
  function PotEvents(machine: int): AuditRow -> Option<Change<nat, Option<nat>>> { r => PotEvent(machine, r) }
  function MacroEvents(machine: int): AuditRow -> Option<Change<nat, Option<real>>> { r => MacroEvent(machine, r) }
  function ToolLifeEvents(machine: int): AuditRow -> Option<Change<nat, ToolLife>> { r => ToolLifeEvent(machine, r) }
  function WorkOffsetEvents(machine: int): AuditRow -> Option<Change<WorkOffsetKey, int>> {
    r => WorkOffsetEvent(machine, r)
  }

  /** One domain's history, read back from the log. */
  function History<K, V>(log: seq<AuditRow>, event: AuditRow -> Option<Change<K, V>>): seq<Change<K, V>> {
    if log == [] then [] else
    var e := event(log[|log| - 1]);
    History(log[..|log| - 1], event) + if e.Some? then [e.value] else []
  }

  lemma {:induction false} HistoryConcat<K, V>(
    a: seq<AuditRow>, b: seq<AuditRow>, event: AuditRow -> Option<Change<K, V>>)
    ensures History(a + b, event) == History(a, event) + History(b, event)
  {
    if b == [] {
      assert a + b == a;
    } else {
      assert (a + b)[..|a + b| - 1] == a + b[..|b| - 1];
      HistoryConcat(a, b[..|b| - 1], event);
    }
  }

  lemma {:induction false} HistoryOfRendered<K, V>(
    changes: seq<Change<K, V>>, row: Change<K, V> -> AuditRow, event: AuditRow -> Option<Change<K, V>>)
    requires forall c :: event(row(c)) == Some(c)
    ensures History(Render(changes, row), event) == changes
  {
    if changes != [] {
      HistoryOfRendered(changes[..|changes| - 1], row, event);
    }
  }

  lemma {:induction false} HistoryMembers<K, V>(
    log: seq<AuditRow>, event: AuditRow -> Option<Change<K, V>>, c: Change<K, V>)
    ensures c in History(log, event) <==> exists i :: 0 <= i < |log| && event(log[i]) == Some(c)
  {
    if log != [] {
      var most, last := log[..|log| - 1], log[|log| - 1];
      HistoryMembers(most, event, c);
      if c in History(most, event) {
        var i :| 0 <= i < |most| && event(most[i]) == Some(c);
        assert event(log[i]) == Some(c);
      }
      if i :| 0 <= i < |log| && event(log[i]) == Some(c) {
        if i < |most| { assert event(most[i]) == Some(c); }
      }
    }
  }

  ghost predicate AllOf(rows: seq<AuditRow>, t: EventType) {
    forall i | 0 <= i < |rows| :: rows[i].event == t
  }

  lemma {:induction false} RenderEvents<K, V>(changes: seq<Change<K, V>>, row: Change<K, V> -> AuditRow, t: EventType)
    requires forall c :: row(c).event == t
    ensures AllOf(Render(changes, row), t)
  {
    if changes != [] { RenderEvents(changes[..|changes| - 1], row, t); }
  }

  /** `event` reads rows of type `t` only. */
  ghost predicate ReadsOnly<K(!new), V(!new)>(event: AuditRow -> Option<Change<K, V>>, t: EventType) {
    forall row: AuditRow | row.event != t :: event(row) == None
  }

  lemma {:induction false} OthersSilent<K(!new), V(!new)>(
    rows: seq<AuditRow>, event: AuditRow -> Option<Change<K, V>>, t: EventType, u: EventType)
    requires AllOf(rows, u) && ReadsOnly(event, t) && t != u
    ensures History(rows, event) == []
  {
    if rows != [] {
      OthersSilent(rows[..|rows| - 1], event, t, u);
      assert rows[|rows| - 1].event == u;
    }
  }

  /** The six groups of rows one poll appends. */
  datatype Groups = Groups(offsets: seq<AuditRow>, pots: seq<AuditRow>, macros: seq<AuditRow>,
                           life: seq<AuditRow>, work: seq<AuditRow>, reinit: seq<AuditRow>)

  ghost function GroupsOf(machine: int, s: Store, snapshot: MachineSnapshot): Groups {
    var m, at := s.mirror, snapshot.polledAt;
    Groups(
      Render(Diff(Values(m.offsets), snapshot.offsets, at), OffsetRows(machine, PresetterActive(machine, s, snapshot))),
      Render(Diff(Values(m.pots), snapshot.pots, at), PotRows(machine)),
      Render(Diff(Values(m.macros), snapshot.macros, at), MacroRows(machine)),
      Render(Diff(ToolLifeValues(m.toolLife), snapshot.toolLife, at), ToolLifeRows(machine)),
      Render(Diff(Values(m.workOffsets), snapshot.workOffsets, at), WorkOffsetRows(machine)),
      ReinitRows(machine, Sorted(Reverted(Values(m.pots), snapshot.pots)), at))
  }

  ghost predicate Typed(g: Groups) {
    AllOf(g.offsets, OffsetChange) && AllOf(g.pots, PotMove) && AllOf(g.macros, MacroChange)
    && AllOf(g.life, ToolLifeChange) && AllOf(g.work, WorkOffsetChange) && AllOf(g.reinit, PotReinitSuspected)
  }

  ghost function Joined(g: Groups): seq<AuditRow> {
    g.offsets + g.pots + g.macros + g.life + g.work + g.reinit
  }

  lemma GroupsTyped(machine: int, s: Store, snapshot: MachineSnapshot)
    ensures Typed(GroupsOf(machine, s, snapshot))
    ensures NewRows(machine, s, snapshot) == Joined(GroupsOf(machine, s, snapshot))
  {
    hide Render, Diff, Values, ToolLifeValues, Sorted, Reverted, PresetterActive;
    var m, at := s.mirror, snapshot.polledAt;
    RenderEvents(Diff(Values(m.offsets), snapshot.offsets, at),
                 OffsetRows(machine, PresetterActive(machine, s, snapshot)), OffsetChange);
    RenderEvents(Diff(Values(m.pots), snapshot.pots, at), PotRows(machine), PotMove);
    RenderEvents(Diff(Values(m.macros), snapshot.macros, at), MacroRows(machine), MacroChange);
    RenderEvents(Diff(ToolLifeValues(m.toolLife), snapshot.toolLife, at), ToolLifeRows(machine), ToolLifeChange);
    RenderEvents(Diff(Values(m.workOffsets), snapshot.workOffsets, at), WorkOffsetRows(machine), WorkOffsetChange);
    assert AllOf(ReinitRows(machine, Sorted(Reverted(Values(m.pots), snapshot.pots)), at), PotReinitSuspected);
    hide AllOf, ReinitRows, OffsetRows, PotRows, MacroRows, ToolLifeRows, WorkOffsetRows;
  }

  ghost function Group(g: Groups, t: EventType): seq<AuditRow> {
    match t
    case OffsetChange => g.offsets
    case PotMove => g.pots
    case MacroChange => g.macros
    case ToolLifeChange => g.life
    case WorkOffsetChange => g.work
    case PotReinitSuspected => g.reinit
    case OtherEvent(_) => []
  }

  lemma HistoryOfGroups<K, V>(g: Groups, event: AuditRow -> Option<Change<K, V>>)
    ensures History(Joined(g), event) ==
            History(g.offsets, event) + History(g.pots, event) + History(g.macros, event)
            + History(g.life, event) + History(g.work, event) + History(g.reinit, event)
  {
    HistoryConcat(g.offsets, g.pots, event);
    HistoryConcat(g.offsets + g.pots, g.macros, event);
    HistoryConcat(g.offsets + g.pots + g.macros, g.life, event);
    HistoryConcat(g.offsets + g.pots + g.macros + g.life, g.work, event);
    HistoryConcat(g.offsets + g.pots + g.macros + g.life + g.work, g.reinit, event);
  }

  /** A domain reads its own group and nothing else. */
  lemma OwnGroupOnly<K(!new), V(!new)>(g: Groups, event: AuditRow -> Option<Change<K, V>>, t: EventType)
    requires Typed(g) && ReadsOnly(event, t) && !t.OtherEvent?
    ensures History(Joined(g), event) == History(Group(g, t), event)
  {
    HistoryOfGroups(g, event);
    if !t.OffsetChange? { OthersSilent(g.offsets, event, t, OffsetChange); }
    if !t.PotMove? { OthersSilent(g.pots, event, t, PotMove); }
    if !t.MacroChange? { OthersSilent(g.macros, event, t, MacroChange); }
    if !t.ToolLifeChange? { OthersSilent(g.life, event, t, ToolLifeChange); }
    if !t.WorkOffsetChange? { OthersSilent(g.work, event, t, WorkOffsetChange); }
    if !t.PotReinitSuspected? { OthersSilent(g.reinit, event, t, PotReinitSuspected); }
  }

  /** What one entry adds to a domain's history. */
  lemma HistoryOfEntry<K(!new), V(!new)>(
    machine: int, s: Store, e: Entry, event: AuditRow -> Option<Change<K, V>>, t: EventType)
    requires ReadsOnly(event, t) && !t.OtherEvent?
    requires forall row: AuditRow | row.machine != machine :: event(row) == None
    requires e.Foreign? ==> !Own(machine, e.row)
    ensures History(Apply(machine, s, e).log, event) ==
            History(s.log, event) + if e.Poll? then History(Group(GroupsOf(machine, s, e.snapshot), t), event) else []
  {
    if e.Poll? {
      var g := GroupsOf(machine, s, e.snapshot);
      GroupsTyped(machine, s, e.snapshot);
      HistoryConcat(s.log, Joined(g), event);
      OwnGroupOnly(g, event, t);
    } else {
      HistoryConcat(s.log, [e.row], event);
      assert event(e.row) == None;
      assert History([e.row], event) == [];
    }
  }

  // ---------------------------------------------------------------- each domain is a ledger

  lemma LedgerOfEntry<K, V>(run: seq<Entry>, domain: MachineSnapshot -> seq<Reading<K, V>>)
    requires run != []
    ensures var before, e := KeyedLedger.Run(SweepsOf(run[..|run| - 1], domain)), run[|run| - 1];
            KeyedLedger.Run(SweepsOf(run, domain)) ==
            if e.Poll? then Step(before, Sweep(e.snapshot.polledAt, domain(e.snapshot))) else before
  {
    var sweeps, e := SweepsOf(run[..|run| - 1], domain), run[|run| - 1];
    if e.Poll? {
      var sweep := Sweep(e.snapshot.polledAt, domain(e.snapshot));
      assert (sweeps + [sweep])[..|sweeps|] == sweeps;
    } else {
      assert SweepsOf(run, domain) == sweeps;
    }
  }

  /** The offset table and rows of a run are the ledger run of its offset sweeps; likewise below. */
  lemma OffsetRowsRead(machine: int, s: Store, snapshot: MachineSnapshot)
    ensures History(Group(GroupsOf(machine, s, snapshot), OffsetChange), OffsetEvents(machine))
         == Diff(Values(s.mirror.offsets), snapshot.offsets, snapshot.polledAt)
  {
    hide Diff, Values, ToolLifeValues, PresetterActive, Sorted, Reverted, ReinitRows;
    HistoryOfRendered(Diff(Values(s.mirror.offsets), snapshot.offsets, snapshot.polledAt),
                      OffsetRows(machine, PresetterActive(machine, s, snapshot)), OffsetEvents(machine));
  }

  lemma {:induction false} OffsetsAreALedger(machine: int, run: seq<Entry>)
    requires Legal(machine, run)
    ensures Replayed(machine, run).mirror.offsets == KeyedLedger.Run(SweepsOf(run, Offsets)).table
    ensures History(Replayed(machine, run).log, OffsetEvents(machine)) ==
            KeyedLedger.Run(SweepsOf(run, Offsets)).history
  {
    if run != [] {
      var most, e := run[..|run| - 1], run[|run| - 1];
      LegalPrefix(machine, run);
      OffsetsAreALedger(machine, most);
      LedgerOfEntry(run, Offsets);
      var s := Replayed(machine, most);
      HistoryOfEntry(machine, s, e, OffsetEvents(machine), OffsetChange);
      if e.Poll? { OffsetRowsRead(machine, s, e.snapshot); }
    }
  }

  lemma PotRowsRead(machine: int, s: Store, snapshot: MachineSnapshot)
    ensures History(Group(GroupsOf(machine, s, snapshot), PotMove), PotEvents(machine))
         == Diff(Values(s.mirror.pots), snapshot.pots, snapshot.polledAt)
  {
    hide Diff, Values, ToolLifeValues, PresetterActive, Sorted, Reverted, ReinitRows;
    HistoryOfRendered(Diff(Values(s.mirror.pots), snapshot.pots, snapshot.polledAt),
                      PotRows(machine), PotEvents(machine));
  }

  lemma {:induction false} PotsAreALedger(machine: int, run: seq<Entry>)
    requires Legal(machine, run)
    ensures Replayed(machine, run).mirror.pots == KeyedLedger.Run(SweepsOf(run, Pots)).table
    ensures History(Replayed(machine, run).log, PotEvents(machine)) == KeyedLedger.Run(SweepsOf(run, Pots)).history
  {
    if run != [] {
      var most, e := run[..|run| - 1], run[|run| - 1];
      LegalPrefix(machine, run);
      PotsAreALedger(machine, most);
      LedgerOfEntry(run, Pots);
      var s := Replayed(machine, most);
      HistoryOfEntry(machine, s, e, PotEvents(machine), PotMove);
      if e.Poll? { PotRowsRead(machine, s, e.snapshot); }
    }
  }

  lemma MacroRowsRead(machine: int, s: Store, snapshot: MachineSnapshot)
    ensures History(Group(GroupsOf(machine, s, snapshot), MacroChange), MacroEvents(machine))
         == Diff(Values(s.mirror.macros), snapshot.macros, snapshot.polledAt)
  {
    hide Diff, Values, ToolLifeValues, PresetterActive, Sorted, Reverted, ReinitRows;
    HistoryOfRendered(Diff(Values(s.mirror.macros), snapshot.macros, snapshot.polledAt),
                      MacroRows(machine), MacroEvents(machine));
  }

  lemma {:induction false} MacrosAreALedger(machine: int, run: seq<Entry>)
    requires Legal(machine, run)
    ensures Replayed(machine, run).mirror.macros == KeyedLedger.Run(SweepsOf(run, Macros)).table
    ensures History(Replayed(machine, run).log, MacroEvents(machine)) == KeyedLedger.Run(SweepsOf(run, Macros)).history
  {
    if run != [] {
      var most, e := run[..|run| - 1], run[|run| - 1];
      LegalPrefix(machine, run);
      MacrosAreALedger(machine, most);
      LedgerOfEntry(run, Macros);
      var s := Replayed(machine, most);
      HistoryOfEntry(machine, s, e, MacroEvents(machine), MacroChange);
      if e.Poll? { MacroRowsRead(machine, s, e.snapshot); }
    }
  }

  lemma WorkOffsetRowsRead(machine: int, s: Store, snapshot: MachineSnapshot)
    ensures History(Group(GroupsOf(machine, s, snapshot), WorkOffsetChange), WorkOffsetEvents(machine))
         == Diff(Values(s.mirror.workOffsets), snapshot.workOffsets, snapshot.polledAt)
  {
    hide Diff, Values, ToolLifeValues, PresetterActive, Sorted, Reverted, ReinitRows;
    HistoryOfRendered(Diff(Values(s.mirror.workOffsets), snapshot.workOffsets, snapshot.polledAt),
                      WorkOffsetRows(machine), WorkOffsetEvents(machine));
  }

  lemma {:induction false} WorkOffsetsAreALedger(machine: int, run: seq<Entry>)
    requires Legal(machine, run)
    ensures Replayed(machine, run).mirror.workOffsets == KeyedLedger.Run(SweepsOf(run, WorkOffsets)).table
    ensures History(Replayed(machine, run).log, WorkOffsetEvents(machine)) ==
            KeyedLedger.Run(SweepsOf(run, WorkOffsets)).history
  {
    if run != [] {
      var most, e := run[..|run| - 1], run[|run| - 1];
      LegalPrefix(machine, run);
      WorkOffsetsAreALedger(machine, most);
      LedgerOfEntry(run, WorkOffsets);
      var s := Replayed(machine, most);
      HistoryOfEntry(machine, s, e, WorkOffsetEvents(machine), WorkOffsetChange);
      if e.Poll? { WorkOffsetRowsRead(machine, s, e.snapshot); }
    }
  }

  lemma ToolLifeRowsRead(machine: int, s: Store, snapshot: MachineSnapshot)
    ensures History(Group(GroupsOf(machine, s, snapshot), ToolLifeChange), ToolLifeEvents(machine))
         == Diff(ToolLifeValues(s.mirror.toolLife), snapshot.toolLife, snapshot.polledAt)
  {
    hide Diff, Values, ToolLifeValues, PresetterActive, Sorted, Reverted, ReinitRows;
    HistoryOfRendered(Diff(ToolLifeValues(s.mirror.toolLife), snapshot.toolLife, snapshot.polledAt),
                      ToolLifeRows(machine), ToolLifeEvents(machine));
  }

  lemma {:induction false} UpsertToolLifeValues(
    t: map<nat, ToolLifeRecord>, readings: seq<Reading<nat, ToolLife>>, at: int)
    ensures ToolLifeValues(UpsertToolLife(t, readings, at)) == Overwrite(ToolLifeValues(t), readings)
  {
    if readings != [] { UpsertToolLifeValues(t, readings[..|readings| - 1], at); }
  }

  lemma {:induction false} ToolLivesAreALedger(machine: int, run: seq<Entry>)
    requires Legal(machine, run)
    ensures ToolLifeValues(Replayed(machine, run).mirror.toolLife) ==
            Values(KeyedLedger.Run(SweepsOf(run, ToolLives)).table)
    ensures History(Replayed(machine, run).log, ToolLifeEvents(machine)) ==
            KeyedLedger.Run(SweepsOf(run, ToolLives)).history
  {
    if run != [] {
      var most, e := run[..|run| - 1], run[|run| - 1];
      LegalPrefix(machine, run);
      ToolLivesAreALedger(machine, most);
      LedgerOfEntry(run, ToolLives);
      var s := Replayed(machine, most);
      HistoryOfEntry(machine, s, e, ToolLifeEvents(machine), ToolLifeChange);
      if e.Poll? {
        ToolLifeRowsRead(machine, s, e.snapshot);
        UpsertToolLifeValues(s.mirror.toolLife, e.snapshot.toolLife, e.snapshot.polledAt);
        UpsertValues(KeyedLedger.Run(SweepsOf(most, ToolLives)).table, e.snapshot.toolLife, e.snapshot.polledAt);
      }
    }
  }

  // ---------------------------------------------------------------- the log is the state

  /** The log replays to the mirror. */
  ghost predicate Accounts<K(!new), V(!new)>(
    log: seq<AuditRow>, event: AuditRow -> Option<Change<K, V>>, mirrored: map<K, V>)
  {
    Replay(History(log, event)) == mirrored && Chained(History(log, event))
  }

  lemma LegalSweeps<K, V>(machine: int, run: seq<Entry>, domain: MachineSnapshot -> seq<Reading<K, V>>)
    requires Legal(machine, run)
    requires forall s: MachineSnapshot | Validated(s) :: Distinct(domain(s))
    ensures DistinctKeys(SweepsOf(run, domain)) && Increasing(SweepsOf(run, domain))
  {
    SweepsDistinct(machine, run, domain);
    SweepsIncrease(run, domain);
  }

  /** Event sourcing over every run: the log's `after` values fold to exactly the mirrored values and
      each entity's rows chain, always in the validated domains, and in the other two exactly when no
      poll reverts a key within itself or moves one twice. */
  lemma LogReplaysToMirror(machine: int, run: seq<Entry>)
    requires Legal(machine, run)
    ensures var s := Replayed(machine, run);
            && Accounts(s.log, OffsetEvents(machine), Values(s.mirror.offsets))
            && Accounts(s.log, PotEvents(machine), Values(s.mirror.pots))
            && Accounts(s.log, MacroEvents(machine), Values(s.mirror.macros))
            && (Accounts(s.log, ToolLifeEvents(machine), ToolLifeValues(s.mirror.toolLife)) <==>
                AllSteady(SweepsOf(run, ToolLives)))
            && (Accounts(s.log, WorkOffsetEvents(machine), Values(s.mirror.workOffsets)) <==>
                AllSteady(SweepsOf(run, WorkOffsets)))
  {
    OffsetsAreALedger(machine, run);
    PotsAreALedger(machine, run);
    MacrosAreALedger(machine, run);
    ToolLivesAreALedger(machine, run);
    WorkOffsetsAreALedger(machine, run);
    LegalSweeps(machine, run, Offsets);
    LegalSweeps(machine, run, Pots);
    LegalSweeps(machine, run, Macros);
    LedgerReplays(SweepsOf(run, Offsets));
    LedgerReplays(SweepsOf(run, Pots));
    LedgerReplays(SweepsOf(run, Macros));
    LedgerReplaysIff(SweepsOf(run, ToolLives));
    LedgerReplaysIff(SweepsOf(run, WorkOffsets));
    hide Replayed, SweepsOf, KeyedLedger.Run, History, Replay, Chained, AllSteady, Legal;
  }

  /** One poll keeps the log accounting for the tool-life mirror exactly when it did before and no
      tool's readings revert within the poll and none moves twice; no later poll mends it. */
  lemma ToolLifeAccountsIff(machine: int, s: Store, snapshot: MachineSnapshot)
    ensures var s' := Persist(machine, s, snapshot);
            Accounts(s'.log, ToolLifeEvents(machine), ToolLifeValues(s'.mirror.toolLife)) <==>
            Accounts(s.log, ToolLifeEvents(machine), ToolLifeValues(s.mirror.toolLife))
            && Steady(ToolLifeValues(s.mirror.toolLife), snapshot.toolLife)
  {
    HistoryOfEntry(machine, s, Poll(snapshot), ToolLifeEvents(machine), ToolLifeChange);
    ToolLifeRowsRead(machine, s, snapshot);
    UpsertToolLifeValues(s.mirror.toolLife, snapshot.toolLife, snapshot.polledAt);
    AccountedIff(History(s.log, ToolLifeEvents(machine)), ToolLifeValues(s.mirror.toolLife),
                 snapshot.toolLife, snapshot.polledAt);
  }

  /** Likewise for work offsets. */
  lemma WorkOffsetsAccountIff(machine: int, s: Store, snapshot: MachineSnapshot)
    ensures var s' := Persist(machine, s, snapshot);
            Accounts(s'.log, WorkOffsetEvents(machine), Values(s'.mirror.workOffsets)) <==>
            Accounts(s.log, WorkOffsetEvents(machine), Values(s.mirror.workOffsets))
            && Steady(Values(s.mirror.workOffsets), snapshot.workOffsets)
  {
    HistoryOfEntry(machine, s, Poll(snapshot), WorkOffsetEvents(machine), WorkOffsetChange);
    WorkOffsetRowsRead(machine, s, snapshot);
    UpsertValues(s.mirror.workOffsets, snapshot.workOffsets, snapshot.polledAt);
    AccountedIff(History(s.log, WorkOffsetEvents(machine)), Values(s.mirror.workOffsets),
                 snapshot.workOffsets, snapshot.polledAt);
  }

  /** What one poll adds to the tool-life history, and what it leaves mirrored. */
  lemma ToolLifePoll(machine: int, s: Store, snapshot: MachineSnapshot)
    ensures var s', cur := Persist(machine, s, snapshot), ToolLifeValues(s.mirror.toolLife);
            && History(s'.log, ToolLifeEvents(machine)) ==
               History(s.log, ToolLifeEvents(machine)) + Diff(cur, snapshot.toolLife, snapshot.polledAt)
            && ToolLifeValues(s'.mirror.toolLife) == Overwrite(cur, snapshot.toolLife)
  {
    HistoryOfEntry(machine, s, Poll(snapshot), ToolLifeEvents(machine), ToolLifeChange);
    ToolLifeRowsRead(machine, s, snapshot);
    UpsertToolLifeValues(s.mirror.toolLife, snapshot.toolLife, snapshot.polledAt);
  }

  lemma DiffOfTwo<K, V>(current: map<K, V>, k: K, a: V, b: V, at: int)
    ensures var before := Get(current, k);
            Diff(current, [Reading(k, a), Reading(k, b)], at) ==
            (if before == Some(a) then [] else [Change(k, before, a, at)])
            + (if before == Some(b) then [] else [Change(k, before, b, at)])
    ensures Overwrite(current, [Reading(k, a), Reading(k, b)]) == current[k := b]
  {
    var readings, before := [Reading(k, a), Reading(k, b)], Get(current, k);
    assert readings[..1] == [Reading(k, a)] && readings[..1][..0] == [];
    assert Diff(current, readings[..1], at) == if before == Some(a) then [] else [Change(k, before, a, at)] by {
      assert Diff(current, readings[..1][..0], at) == [];
    }
    assert Overwrite(current, readings[..1][..0]) == current;
    assert Overwrite(current, readings[..1]) == current[k := a];
    assert current[k := a][k := b] == current[k := b];
  }

  lemma FirstReadTwice(machine: int, s: Store, snapshot: MachineSnapshot, t: nat, a: ToolLife, b: ToolLife)
    requires t !in s.mirror.toolLife && snapshot.toolLife == [Reading(t, a), Reading(t, b)]
    ensures var s' := Persist(machine, s, snapshot);
            && History(s'.log, ToolLifeEvents(machine)) ==
               History(s.log, ToolLifeEvents(machine))
               + [Change(t, None, a, snapshot.polledAt), Change(t, None, b, snapshot.polledAt)]
            && Get(ToolLifeValues(s'.mirror.toolLife), t) == Some(b)
            && !Accounts(s'.log, ToolLifeEvents(machine), ToolLifeValues(s'.mirror.toolLife))
  {
    var cur, at := ToolLifeValues(s.mirror.toolLife), snapshot.polledAt;
    assert Get(cur, t) == None;
    ToolLifePoll(machine, s, snapshot);
    DiffOfTwo(cur, t, a, b, at);
    ToolLifeAccountsIff(machine, s, snapshot);
    hide Persist, Diff, Overwrite, ToolLifeValues, Accounts, History;
    assert [Change(t, None, a, at)] + [Change(t, None, b, at)] == [Change(t, None, a, at), Change(t, None, b, at)];
    assert Moved(cur, snapshot.toolLife[0]) && Moved(cur, snapshot.toolLife[1]);
    assert !MovedOnce(cur, snapshot.toolLife);
  }

  lemma ReadTwiceAgain(machine: int, s: Store, snapshot: MachineSnapshot, t: nat, a: ToolLife, b: ToolLife)
    requires Get(ToolLifeValues(s.mirror.toolLife), t) == Some(b)
    requires snapshot.toolLife == [Reading(t, a), Reading(t, b)]
    ensures var s' := Persist(machine, s, snapshot);
            var h := History(s'.log, ToolLifeEvents(machine));
            && h == History(s.log, ToolLifeEvents(machine))
                    + (if a == b then [] else [Change(t, Some(b), a, snapshot.polledAt)])
            && Get(ToolLifeValues(s'.mirror.toolLife), t) == Some(b)
            && (a != b ==> Get(Replay(h), t) == Some(a))
  {
    var cur := ToolLifeValues(s.mirror.toolLife);
    ToolLifePoll(machine, s, snapshot);
    DiffOfTwo(cur, t, a, b, snapshot.polledAt);
    hide Persist, Diff, Overwrite, ToolLifeValues, History, Replay;
    if a != b { ReplaySnoc(History(s.log, ToolLifeEvents(machine)), Change(t, Some(b), a, snapshot.polledAt)); }
  }

  /** A tool that stands in two life groups.  Its first poll writes two baseline rows, so the chain is
      broken for good; and where the groups disagree, every further poll of the same readings writes a
      change that never happened and leaves the log saying one life and the mirror the other. */
  lemma DuplicateKeyBreaksReplay(
    machine: int, s: Store, snapshot: MachineSnapshot, later: int, t: nat, a: ToolLife, b: ToolLife)
    requires t !in s.mirror.toolLife && snapshot.toolLife == [Reading(t, a), Reading(t, b)]
    ensures var s' := Persist(machine, s, snapshot);
            var again := Persist(machine, s', snapshot.(polledAt := later));
            var h' := History(s'.log, ToolLifeEvents(machine));
            var h := History(again.log, ToolLifeEvents(machine));
            && h' == History(s.log, ToolLifeEvents(machine))
                     + [Change(t, None, a, snapshot.polledAt), Change(t, None, b, snapshot.polledAt)]
            && h == h' + (if a == b then [] else [Change(t, Some(b), a, later)])
            && !Accounts(s'.log, ToolLifeEvents(machine), ToolLifeValues(s'.mirror.toolLife))
            && !Accounts(again.log, ToolLifeEvents(machine), ToolLifeValues(again.mirror.toolLife))
            && Get(ToolLifeValues(again.mirror.toolLife), t) == Some(b)
            && (a != b ==> Get(Replay(h), t) == Some(a))
  {
    hide *;
    var s' := Persist(machine, s, snapshot);
    FirstReadTwice(machine, s, snapshot, t, a, b);
    ReadTwiceAgain(machine, s', snapshot.(polledAt := later), t, a, b);
    ToolLifeAccountsIff(machine, s', snapshot.(polledAt := later));
  }

  /** A row exists exactly when it has an audit row, and its `last_changed_at` is the time of the latest
      one, never after `last_polled_at`. */
  ghost predicate Stamped<K(!new), V(!new)>(
    log: seq<AuditRow>, event: AuditRow -> Option<Change<K, V>>, t: Table<K, V>)
  {
    forall k :: RowStamped(t, History(log, event), k)
  }

  /** The stamps of the validated domains are right in every run; those of the work offsets in every run
      that reverts no key within a poll. */
  lemma StampsMatchLog(machine: int, run: seq<Entry>)
    requires Legal(machine, run)
    ensures var s := Replayed(machine, run);
            && Stamped(s.log, OffsetEvents(machine), s.mirror.offsets)
            && Stamped(s.log, PotEvents(machine), s.mirror.pots)
            && Stamped(s.log, MacroEvents(machine), s.mirror.macros)
            && (NoneReverts(SweepsOf(run, WorkOffsets)) ==>
                  Stamped(s.log, WorkOffsetEvents(machine), s.mirror.workOffsets))
  {
    OffsetsAreALedger(machine, run);
    PotsAreALedger(machine, run);
    MacrosAreALedger(machine, run);
    WorkOffsetsAreALedger(machine, run);
    LegalSweeps(machine, run, Offsets);
    LegalSweeps(machine, run, Pots);
    LegalSweeps(machine, run, Macros);
    SweepsIncrease(run, WorkOffsets);
    LedgerStamped(SweepsOf(run, Offsets));
    LedgerStamped(SweepsOf(run, Pots));
    LedgerStamped(SweepsOf(run, Macros));
    if NoneReverts(SweepsOf(run, WorkOffsets)) {
      forall k ensures RowStamped(Replayed(machine, run).mirror.workOffsets,
                                  History(Replayed(machine, run).log, WorkOffsetEvents(machine)), k)
      {
        StampsAgree(SweepsOf(run, WorkOffsets), k);
      }
    }
    hide Replayed, SweepsOf, KeyedLedger.Run, History, RowStamped, Legal, NoneReverts;
  }

  lemma LedgerStamped<K(!new), V>(sweeps: seq<Sweep<K, V>>)
    requires DistinctKeys(sweeps) && Increasing(sweeps)
    ensures forall k :: RowStamped(KeyedLedger.Run(sweeps).table, KeyedLedger.Run(sweeps).history, k)
  {
    DistinctSteady(sweeps);
    forall k { StampsAgree(sweeps, k); }
  }

  /** One poll keeps the work offsets' stamps right exactly when it reverts no key. */
  lemma WorkOffsetStampsIff(machine: int, s: Store, snapshot: MachineSnapshot)
    requires Stamped(s.log, WorkOffsetEvents(machine), s.mirror.workOffsets)
    requires PolledBy(s.mirror.workOffsets, snapshot.polledAt)
    ensures var s' := Persist(machine, s, snapshot);
            Stamped(s'.log, WorkOffsetEvents(machine), s'.mirror.workOffsets) <==>
            NoRevert(Values(s.mirror.workOffsets), snapshot.workOffsets)
  {
    var t, h := s.mirror.workOffsets, History(s.log, WorkOffsetEvents(machine));
    HistoryOfEntry(machine, s, Poll(snapshot), WorkOffsetEvents(machine), WorkOffsetChange);
    WorkOffsetRowsRead(machine, s, snapshot);
    NoRevertIff(Values(t), snapshot.workOffsets);
    forall k
      ensures RowStamped(UpsertAll(t, snapshot.workOffsets, snapshot.polledAt),
                         h + Diff(Values(t), snapshot.workOffsets, snapshot.polledAt), k)
         <==> !Reverts(Values(t), snapshot.workOffsets, k)
    {
      assert RowStamped(t, h, k);
      StampKeptIff(t, h, snapshot.workOffsets, snapshot.polledAt, k);
    }
  }

  ghost predicate Reads<K, V>(readings: seq<Reading<K, V>>, k: K) {
    exists i :: 0 <= i < |readings| && readings[i].key == k
  }

  lemma {:induction false} UnreadRowKept<K, V>(t: Table<K, V>, readings: seq<Reading<K, V>>, at: int, k: K)
    requires !Reads(readings, k)
    ensures Get(UpsertAll(t, readings, at), k) == Get(t, k)
  {
    if readings != [] {
      var most := readings[..|readings| - 1];
      assert forall i | 0 <= i < |most| :: most[i] == readings[i];
      assert !Reads(most, k);
      UnreadRowKept(t, most, at, k);
      assert readings[|readings| - 1].key != k;
    }
  }

  lemma {:induction false} UnreadToolKept(
    t: map<nat, ToolLifeRecord>, readings: seq<Reading<nat, ToolLife>>, at: int, k: nat)
    requires !Reads(readings, k)
    ensures Get(UpsertToolLife(t, readings, at), k) == Get(t, k)
  {
    if readings != [] {
      var most := readings[..|readings| - 1];
      assert forall i | 0 <= i < |most| :: most[i] == readings[i];
      assert !Reads(most, k);
      UnreadToolKept(t, most, at, k);
      assert readings[|readings| - 1].key != k;
    }
  }

  /** A partial snapshot (the fast status tier reads no tables) leaves absent keys and old rows alone. */
  lemma PartialSnapshotKeepsRest(machine: int, s: Store, snapshot: MachineSnapshot)
    ensures var s' := Persist(machine, s, snapshot);
            && (forall k | !Reads(snapshot.offsets, k) :: Get(s'.mirror.offsets, k) == Get(s.mirror.offsets, k))
            && (forall k | !Reads(snapshot.pots, k) :: Get(s'.mirror.pots, k) == Get(s.mirror.pots, k))
            && (forall k | !Reads(snapshot.macros, k) :: Get(s'.mirror.macros, k) == Get(s.mirror.macros, k))
            && (forall k | !Reads(snapshot.toolLife, k) :: Get(s'.mirror.toolLife, k) == Get(s.mirror.toolLife, k))
            && (forall k | !Reads(snapshot.workOffsets, k) ::
                Get(s'.mirror.workOffsets, k) == Get(s.mirror.workOffsets, k))
            && s.log <= s'.log
  {
    var at := snapshot.polledAt;
    forall k | !Reads(snapshot.offsets, k) { UnreadRowKept(s.mirror.offsets, snapshot.offsets, at, k); }
    forall k | !Reads(snapshot.pots, k) { UnreadRowKept(s.mirror.pots, snapshot.pots, at, k); }
    forall k | !Reads(snapshot.macros, k) { UnreadRowKept(s.mirror.macros, snapshot.macros, at, k); }
    forall k | !Reads(snapshot.toolLife, k) { UnreadToolKept(s.mirror.toolLife, snapshot.toolLife, at, k); }
    forall k | !Reads(snapshot.workOffsets, k) { UnreadRowKept(s.mirror.workOffsets, snapshot.workOffsets, at, k); }
  }

  // ---------------------------------------------------------------- idempotence

  lemma {:induction false} ToolRecord(
    t: map<nat, ToolLifeRecord>, readings: seq<Reading<nat, ToolLife>>, at: int, k: nat)
    ensures var v := LastReading(readings, k);
            Get(UpsertToolLife(t, readings, at), k) == if v.Some? then Some(ToolLifeRecord(v.value, at)) else Get(t, k)
  {
    if readings != [] { ToolRecord(t, readings[..|readings| - 1], at, k); }
  }

  ghost predicate ToolsRestamped(
    t: map<nat, ToolLifeRecord>, u: map<nat, ToolLifeRecord>, readings: seq<Reading<nat, ToolLife>>, at: int)
  {
    && u.Keys == t.Keys
    && forall k | k in t :: u[k] == if LastReading(readings, k).Some? then t[k].(polledAt := at) else t[k]
  }

  lemma RereadTools(t: map<nat, ToolLifeRecord>, readings: seq<Reading<nat, ToolLife>>, at: int, later: int)
    ensures var u := UpsertToolLife(t, readings, at);
            ToolsRestamped(u, UpsertToolLife(u, readings, later), readings, later)
  {
    var u := UpsertToolLife(t, readings, at);
    var r := UpsertToolLife(u, readings, later);
    hide UpsertToolLife, LastReading;
    forall k ensures k in r <==> k in u
      ensures k in u ==> r[k] == if LastReading(readings, k).Some? then u[k].(polledAt := later) else u[k]
    {
      ToolRecord(t, readings, at, k);
      ToolRecord(u, readings, later, k);
      assert (k in u <==> Get(u, k).Some?) && (k in r <==> Get(r, k).Some?);
    }
  }

  /** After the same readings, taken again at `later`: the rows read have the new poll time, the status
      row too, and where it saw a real T word the time of it; every value and change time is as it was. */
  ghost predicate OnlyStampsMove(m: Mirror, n: Mirror, snapshot: MachineSnapshot, later: int) {
    && Restamped(m.offsets, n.offsets, snapshot.offsets, later)
    && Restamped(m.pots, n.pots, snapshot.pots, later)
    && Restamped(m.macros, n.macros, snapshot.macros, later)
    && ToolsRestamped(m.toolLife, n.toolLife, snapshot.toolLife, later)
    && Restamped(m.workOffsets, n.workOffsets, snapshot.workOffsets, later)
    && m.status.Some?
    && n.status == Some(m.status.value.(
         polledAt := later,
         lastToolAt :=
           if LastRealTWord(snapshot.status.currentT).Some? then Some(later) else m.status.value.lastToolAt))
  }

  /** Persisting the same readings again, at any later time, appends nothing exactly when each tool and
      each work offset was read as one value; and then moves nothing but the poll stamps. */
  lemma RepeatedPollIsSilent(machine: int, s: Store, snapshot: MachineSnapshot, later: int)
    requires Validated(snapshot)
    ensures var s' := Persist(machine, s, snapshot);
            var again := Persist(machine, s', snapshot.(polledAt := later));
            && (again.log == s'.log <==> OneValueEach(snapshot.toolLife) && OneValueEach(snapshot.workOffsets))
            && (OneValueEach(snapshot.workOffsets) ==> OnlyStampsMove(s'.mirror, again.mirror, snapshot, later))
            && !StatusChanged(s'.mirror.status, snapshot.status)
  {
    var s', again := Persist(machine, s, snapshot), snapshot.(polledAt := later);
    RepeatedRowsNone(machine, s, snapshot, later);
    DistinctOneValue(snapshot.offsets);
    DistinctOneValue(snapshot.pots);
    DistinctOneValue(snapshot.macros);
    ReadAgainRestamps(s.mirror.offsets, snapshot.offsets, snapshot.polledAt, later);
    ReadAgainRestamps(s.mirror.pots, snapshot.pots, snapshot.polledAt, later);
    ReadAgainRestamps(s.mirror.macros, snapshot.macros, snapshot.polledAt, later);
    RereadTools(s.mirror.toolLife, snapshot.toolLife, snapshot.polledAt, later);
    if OneValueEach(snapshot.workOffsets) {
      ReadAgainRestamps(s.mirror.workOffsets, snapshot.workOffsets, snapshot.polledAt, later);
    }
    hide NewRows, Restamped, ToolsRestamped, UpsertAll, UpsertToolLife, OneValueEach, Distinct;
  }

  lemma RepeatedRowsNone(machine: int, s: Store, snapshot: MachineSnapshot, later: int)
    requires Validated(snapshot)
    ensures NewRows(machine, Persist(machine, s, snapshot), snapshot.(polledAt := later)) == [] <==>
            OneValueEach(snapshot.toolLife) && OneValueEach(snapshot.workOffsets)
  {
    UpsertValues(s.mirror.offsets, snapshot.offsets, snapshot.polledAt);
    UpsertValues(s.mirror.pots, snapshot.pots, snapshot.polledAt);
    UpsertValues(s.mirror.macros, snapshot.macros, snapshot.polledAt);
    UpsertToolLifeValues(s.mirror.toolLife, snapshot.toolLife, snapshot.polledAt);
    UpsertValues(s.mirror.workOffsets, snapshot.workOffsets, snapshot.polledAt);
    DistinctOneValue(snapshot.offsets);
    DistinctOneValue(snapshot.pots);
    DistinctOneValue(snapshot.macros);
    SameReadingsSilentIff(Values(s.mirror.offsets), snapshot.offsets, later);
    SameReadingsSilentIff(Values(s.mirror.pots), snapshot.pots, later);
    SameReadingsSilentIff(Values(s.mirror.macros), snapshot.macros, later);
    SameReadingsSilentIff(ToolLifeValues(s.mirror.toolLife), snapshot.toolLife, later);
    SameReadingsSilentIff(Values(s.mirror.workOffsets), snapshot.workOffsets, later);
    NoPotReverts(Values(s.mirror.pots), snapshot.pots);
    RenderLength(Diff(Overwrite(ToolLifeValues(s.mirror.toolLife), snapshot.toolLife), snapshot.toolLife, later),
                 ToolLifeRows(machine));
    RenderLength(Diff(Overwrite(Values(s.mirror.workOffsets), snapshot.workOffsets), snapshot.workOffsets, later),
                 WorkOffsetRows(machine));
    hide Diff, Overwrite, UpsertAll, UpsertToolLife, PresetterActive, Values, ToolLifeValues, OneValueEach;
  }

  lemma {:induction false} NoneReverted(current: map<nat, Option<nat>>, pots: seq<Reading<nat, Option<nat>>>)
    requires forall i | 0 <= i < |pots| :: !RevertedPot(current, pots[i])
    ensures Reverted(current, pots) == []
  {
    if pots != [] { NoneReverted(current, pots[..|pots| - 1]); }
  }

  lemma NoPotReverts(current: map<nat, Option<nat>>, pots: seq<Reading<nat, Option<nat>>>)
    requires Distinct(pots)
    ensures Reverted(Overwrite(current, pots), pots) == []
  {
    forall i | 0 <= i < |pots| ensures !RevertedPot(Overwrite(current, pots), pots[i]) {
      LastOfDistinct(pots, i);
      OverwriteGets(current, pots, pots[i].key);
      assert Get(Overwrite(current, pots), pots[i].key) == Some(pots[i].value);
    }
    NoneReverted(Overwrite(current, pots), pots);
  }

  // ---------------------------------------------------------------- the status row

  /** The last poll of the run, and the last poll that saw a real T word. */
  ghost predicate LastPoll(run: seq<Entry>, i: nat) {
    && i < |run| && run[i].Poll?
    && forall j | i < j < |run| :: !run[j].Poll?
  }

  /** A lathe's `Tnnww`: a station and an offset that is not the cancel `00`. */
  ghost predicate RealWord(word: Option<nat>) {
    exists station: nat, offset: nat :: station >= 1 && 1 <= offset <= 99 && word == Some(TWord(station, offset))
  }

  function TWord(station: nat, offset: nat): nat { 100 * station + offset }

  lemma RealWordIff(word: Option<nat>)
    ensures LastRealTWord(word) == if RealWord(word) then word else None
  {
    if RealWord(word) {
      var station: nat, offset: nat :|
        station >= 1 && 1 <= offset <= 99 && word == Some(TWord(station, offset));
      assert TWord(station, offset) % 100 == offset;
    }
    if LastRealTWord(word).Some? {
      assert word == Some(TWord(word.value / 100, word.value % 100));
    }
  }

  ghost predicate SawRealWord(run: seq<Entry>, i: nat) {
    i < |run| && run[i].Poll? && RealWord(run[i].snapshot.status.currentT)
  }

  ghost predicate LastRealWord(run: seq<Entry>, i: nat) {
    SawRealWord(run, i) && forall j | i < j < |run| :: !SawRealWord(run, j)
  }

  /** Foreign rows do not change which poll was the last. */
  lemma LastPollSnoc(run: seq<Entry>, i: nat)
    requires run != [] && !run[|run| - 1].Poll?
    ensures LastPoll(run, i) <==> LastPoll(run[..|run| - 1], i)
  {
    var most := run[..|run| - 1];
    assert forall j | 0 <= j < |most| :: most[j] == run[j];
  }

  lemma NewestPollIsLast(run: seq<Entry>, i: nat)
    requires run != [] && run[|run| - 1].Poll?
    ensures LastPoll(run, i) <==> i == |run| - 1
  {
  }

  /** The status row is the last poll's status. */
  lemma {:induction false} StatusRowIsLastPoll(machine: int, run: seq<Entry>)
    ensures var status := Replayed(machine, run).mirror.status;
            && (status.Some? <==> exists i: nat :: LastPoll(run, i))
            && (forall i: nat | LastPoll(run, i) ::
                  status == Some(status.value.(status := run[i].snapshot.status, polledAt := run[i].snapshot.polledAt)))
  {
    if run != [] {
      var most, n := run[..|run| - 1], |run| - 1;
      StatusRowIsLastPoll(machine, most);
      hide NewRows, UpsertAll, UpsertToolLife;
      if run[n].Poll? {
        NewestPollIsLast(run, n);
        forall i: nat | LastPoll(run, i) ensures i == n { NewestPollIsLast(run, i); }
      } else {
        forall i: nat ensures LastPoll(run, i) <==> LastPoll(most, i) { LastPollSnoc(run, i); }
        forall i: nat | LastPoll(run, i) ensures i < n && run[i] == most[i] { LastPollSnoc(run, i); }
        if i: nat :| LastPoll(most, i) { LastPollSnoc(run, i); }
      }
      hide LastPoll, LastRealTWord;
    }
  }

  lemma LastRealWordSnoc(run: seq<Entry>, i: nat)
    requires run != [] && !SawRealWord(run, |run| - 1)
    ensures LastRealWord(run, i) <==> LastRealWord(run[..|run| - 1], i)
  {
    var most := run[..|run| - 1];
    forall j: nat ensures SawRealWord(run, j) <==> SawRealWord(most, j) {
      assert j < |most| ==> most[j] == run[j];
    }
  }

  /** Its tool memory is the last real T word and when it was seen, however many cancels followed. */
  lemma {:induction false} StatusRowRemembersTool(machine: int, run: seq<Entry>)
    ensures var status := Replayed(machine, run).mirror.status;
            && (status.Some? ==>
                  && (status.value.lastToolWord.Some? <==> exists i: nat :: LastRealWord(run, i))
                  && (status.value.lastToolAt.Some? <==> status.value.lastToolWord.Some?))
            && (forall i: nat | LastRealWord(run, i) ::
                  && status.Some?
                  && status.value.lastToolWord == run[i].snapshot.status.currentT
                  && status.value.lastToolAt == Some(run[i].snapshot.polledAt))
  {
    if run != [] {
      var most, n := run[..|run| - 1], |run| - 1;
      StatusRowRemembersTool(machine, most);
      if run[n].Poll? { RealWordIff(run[n].snapshot.status.currentT); }
      hide RealWord, LastRealTWord;
      if SawRealWord(run, n) {
        assert LastRealWord(run, n);
        forall i: nat | LastRealWord(run, i) ensures i == n { }
      } else {
        forall i: nat ensures LastRealWord(run, i) <==> LastRealWord(most, i) { LastRealWordSnoc(run, i); }
        if i: nat :| LastRealWord(most, i) {
          assert most[i] == run[i] && LastRealWord(run, i);
        }
      }
    }
  }

  /** A poll whose word is absent, a mill's tool number or a cancel leaves that memory alone. */
  lemma CancelKeepsMemory(machine: int, s: Store, snapshot: MachineSnapshot)
    requires s.mirror.status.Some?
    requires var t := snapshot.status.currentT; t.None? || t.value < 100 || exists nn: nat :: t.value == 100 * nn
    ensures var r := Persist(machine, s, snapshot).mirror.status;
            && r.Some? && r.value.lastToolWord == s.mirror.status.value.lastToolWord
            && r.value.lastToolAt == s.mirror.status.value.lastToolAt
  {
    hide NewRows, UpsertAll, UpsertToolLife;
  }

  lemma {:induction false} StatusStampsOrdered(machine: int, run: seq<Entry>)
    requires Chronological(run)
    ensures var status := Replayed(machine, run).mirror.status;
            status.Some? ==> status.value.changedAt <= status.value.polledAt
  {
    if run != [] {
      var most := run[..|run| - 1];
      ChronologicalPrefix(run);
      StatusStampsOrdered(machine, most);
      StatusRowIsLastPoll(machine, most);
      if Replayed(machine, most).mirror.status.Some? {
        var i: nat :| LastPoll(most, i);
        assert run[i] == most[i];
      }
    }
  }

  /** The seven fields that count: not the program's name. */
  ghost predicate Alike(a: MachineStatus, b: MachineStatus) {
    && a.currentT == b.currentT && a.nextT == b.nextT && a.mode == b.mode && a.running == b.running
    && a.emergencyStop == b.emergencyStop && a.activeWcs == b.activeWcs && a.programNumber == b.programNumber
  }

  /** After any run, a poll reports a change exactly if it is the first or differs in one of those fields
      from the poll before it. */
  lemma StatusChangedIffMoved(machine: int, run: seq<Entry>, snapshot: MachineSnapshot)
    ensures StatusChanged(Replayed(machine, run).mirror.status, snapshot.status) <==>
            forall i: nat | LastPoll(run, i) :: !Alike(run[i].snapshot.status, snapshot.status)
  {
    StatusRowIsLastPoll(machine, run);
    hide Replayed, LastPoll;
  }

  /** Polls `j` to the last all saw the same status, and the one before `j`, if any, another. */
  ghost predicate Stretch(run: seq<Entry>, j: nat) {
    && j < |run| && run[j].Poll?
    && (forall k | j <= k < |run| && run[k].Poll? :: Alike(run[j].snapshot.status, run[k].snapshot.status))
    && forall i: nat | LastPoll(run[..j], i) :: !Alike(run[i].snapshot.status, run[j].snapshot.status)
  }

  /** Over every run the status row's `last_changed_at` is the time of the poll that began the stretch of
      polls the last one belongs to. */
  lemma {:induction false} StatusHeldSince(machine: int, run: seq<Entry>) returns (j: nat)
    ensures var status := Replayed(machine, run).mirror.status;
            status.Some? ==> Stretch(run, j) && status.value.changedAt == run[j].snapshot.polledAt
  {
    j := 0;
    if run != [] {
      var n := |run| - 1;
      var most := run[..n];
      var s := Replayed(machine, most);
      assert Replayed(machine, run) == Apply(machine, s, run[n]);
      hide Replayed, Alike, LastPoll, Persist;
      j := StatusHeldSince(machine, most);
      if !run[n].Poll? {
        if s.mirror.status.Some? { StretchStays(run, j); }
      } else {
        StatusStep(machine, s, run[n].snapshot);
        StatusChangedIffMoved(machine, most, run[n].snapshot);
        hide StatusChanged, Stretch;
        if StatusChanged(s.mirror.status, run[n].snapshot.status) {
          j := n;
          StretchStarts(run);
        } else {
          var i: nat :| LastPoll(most, i) && Alike(most[i].snapshot.status, run[n].snapshot.status);
          StretchGoesOn(run, i, j);
        }
      }
    }
  }

  lemma StatusStep(machine: int, s: Store, snapshot: MachineSnapshot)
    ensures var status := Persist(machine, s, snapshot).mirror.status;
            && status.Some?
            && status.value.changedAt ==
               if StatusChanged(s.mirror.status, snapshot.status) then snapshot.polledAt
               else s.mirror.status.value.changedAt
  {
    hide NewRows, UpsertAll, UpsertToolLife, LastRealTWord;
  }

  lemma StretchStarts(run: seq<Entry>)
    requires run != [] && run[|run| - 1].Poll?
    requires forall i: nat | LastPoll(run[..|run| - 1], i) ::
               !Alike(run[i].snapshot.status, run[|run| - 1].snapshot.status)
    ensures Stretch(run, |run| - 1)
  {
    hide LastPoll;
  }

  lemma StretchGoesOn(run: seq<Entry>, i: nat, j: nat)
    requires run != [] && run[|run| - 1].Poll? && Stretch(run[..|run| - 1], j) && LastPoll(run[..|run| - 1], i)
    requires Alike(run[..|run| - 1][i].snapshot.status, run[|run| - 1].snapshot.status)
    ensures Stretch(run, j) && run[..|run| - 1][j] == run[j]
  {
    var most := run[..|run| - 1];
    assert most[..j] == run[..j] && most[j] == run[j] && most[i] == run[i];
    assert i >= j;
    forall k | j <= k < |run| && run[k].Poll? ensures Alike(run[j].snapshot.status, run[k].snapshot.status) {
      if k < |most| { assert most[k] == run[k]; }
    }
  }

  lemma StretchStays(run: seq<Entry>, j: nat)
    requires run != [] && !run[|run| - 1].Poll? && Stretch(run[..|run| - 1], j)
    ensures Stretch(run, j) && run[..|run| - 1][j] == run[j]
  {
    var most := run[..|run| - 1];
    assert most[..j] == run[..j] && most[j] == run[j];
    forall k | j <= k < |run| && run[k].Poll? ensures Alike(run[j].snapshot.status, run[k].snapshot.status) {
      assert most[k] == run[k];
    }
  }

  /** After any run, the flag a poll reports is the SQL rule's own decision: it holds exactly when the
      row's `last_changed_at` becomes this poll's time. */
  lemma StatusChangedIffStampMoves(machine: int, run: seq<Entry>, snapshot: MachineSnapshot)
    requires Chronological(run + [Poll(snapshot)])
    ensures var s := Replayed(machine, run);
            StatusChanged(s.mirror.status, snapshot.status) <==>
            Persist(machine, s, snapshot).mirror.status.value.changedAt == snapshot.polledAt
  {
    var all, status := run + [Poll(snapshot)], Replayed(machine, run).mirror.status;
    assert all[..|run|] == run && all[|run|] == Poll(snapshot);
    ChronologicalPrefix(all);
    StatusStampsOrdered(machine, run);
    StatusRowIsLastPoll(machine, run);
    if status.Some? {
      var i: nat :| LastPoll(run, i);
      assert all[i] == run[i];
    }
  }
}
