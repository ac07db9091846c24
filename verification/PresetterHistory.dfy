/**
 What a `presetter_verified` tag means.

 The tag is decided by a two-table query against the mirror and the log.  Here the decision is stated
 over what the control was seen to do: the observations of the skip variables, cycle by cycle.
 */
module PresetterHistory {
  import opened Wrappers
  import opened KeyedLedger
  import opened FocasModels
  import opened SnapshotStore
  import opened SnapshotHistory

  /** The G31 skip variables, which the tool presetter latches. */
  ghost predicate SkipVar(number: nat) { 5061 <= number <= 5063 }

  /** The observations of a macro variable over a run. */
  ghost function Seen(run: seq<Entry>, number: nat): seq<Sighting<Option<real>>> {
    Sightings(SweepsOf(run, Macros), number)
  }

  /** This poll observes the variable at another value than its previous observation. */
  ghost predicate MovesNow(run: seq<Entry>, snapshot: MachineSnapshot, number: nat) {
    Reads(snapshot.macros, number) && JustMoved(Seen(run + [Poll(snapshot)], number))
  }

  /** The variable's own last observation, however many cycles ago, was a move. */
  ghost predicate MovedLastSeen(run: seq<Entry>, number: nat) {
    JustMoved(Seen(run, number))
  }

  /** Some skip variable moved in this poll or at its own last observation. */
  ghost predicate PresetterFired(run: seq<Entry>, snapshot: MachineSnapshot) {
    exists number :: SkipVar(number) && (MovesNow(run, snapshot, number) || MovedLastSeen(run, number))
  }

  /** Every row this machine's poller wrote has the shape its domain reads back. */
  lemma {:induction false} OwnRowsReadable(machine: int, run: seq<Entry>)
    requires Legal(machine, run)
    ensures forall i | 0 <= i < |Replayed(machine, run).log| && Own(machine, Replayed(machine, run).log[i]) ::
              Readable(machine, Replayed(machine, run).log[i])
  {
    if run != [] {
      var most, e := run[..|run| - 1], run[|run| - 1];
      LegalPrefix(machine, run);
      OwnRowsReadable(machine, most);
      if e.Poll? { NewRowsReadable(machine, Replayed(machine, most), e.snapshot); }
    }
  }

  /** A row of this machine's poller is well shaped for its domain. */
  ghost predicate Readable(machine: int, row: AuditRow) {
    match row.event
    case OffsetChange => OffsetEvent(machine, row).Some? && row.success
    case PotMove => PotEvent(machine, row).Some?
    case MacroChange => MacroEvent(machine, row).Some?
    case ToolLifeChange => ToolLifeEvent(machine, row).Some?
    case WorkOffsetChange => WorkOffsetEvent(machine, row).Some?
    case PotReinitSuspected => true
    case OtherEvent(_) => true
  }

  ghost predicate AllReadable(machine: int, rows: seq<AuditRow>) {
    forall i | 0 <= i < |rows| :: Readable(machine, rows[i])
  }

  lemma {:induction false} RenderReadable<K, V>(machine: int, changes: seq<Change<K, V>>, row: Change<K, V> -> AuditRow)
    requires forall c :: Readable(machine, row(c))
    ensures AllReadable(machine, Render(changes, row))
  {
    if changes != [] { RenderReadable(machine, changes[..|changes| - 1], row); }
  }

  lemma GroupsReadable(machine: int, s: Store, snapshot: MachineSnapshot)
    ensures var g := GroupsOf(machine, s, snapshot);
            && AllReadable(machine, g.offsets) && AllReadable(machine, g.pots) && AllReadable(machine, g.macros)
            && AllReadable(machine, g.life) && AllReadable(machine, g.work) && AllReadable(machine, g.reinit)
  {
    var m, at := s.mirror, snapshot.polledAt;
    RenderReadable(machine, Diff(Values(m.offsets), snapshot.offsets, at),
                   OffsetRows(machine, PresetterActive(machine, s, snapshot)));
    RenderReadable(machine, Diff(Values(m.pots), snapshot.pots, at), PotRows(machine));
    RenderReadable(machine, Diff(Values(m.macros), snapshot.macros, at), MacroRows(machine));
    RenderReadable(machine, Diff(ToolLifeValues(m.toolLife), snapshot.toolLife, at), ToolLifeRows(machine));
    RenderReadable(machine, Diff(Values(m.workOffsets), snapshot.workOffsets, at), WorkOffsetRows(machine));
    assert AllReadable(machine, ReinitRows(machine, Sorted(Reverted(Values(m.pots), snapshot.pots)), at));
    hide AllReadable, Render, Diff, Values, ToolLifeValues, Sorted, Reverted, ReinitRows, PresetterActive;
  }

  lemma ConcatReadable(machine: int, a: seq<AuditRow>, b: seq<AuditRow>)
    requires AllReadable(machine, a) && AllReadable(machine, b)
    ensures AllReadable(machine, a + b)
  {
    hide Readable;
  }

  lemma NewRowsReadable(machine: int, s: Store, snapshot: MachineSnapshot)
    ensures AllReadable(machine, NewRows(machine, s, snapshot))
  {
    hide AllReadable, NewRows, GroupsOf, Typed;
    var g := GroupsOf(machine, s, snapshot);
    GroupsTyped(machine, s, snapshot);
    GroupsReadable(machine, s, snapshot);
    ConcatReadable(machine, g.offsets, g.pots);
    ConcatReadable(machine, g.offsets + g.pots, g.macros);
    ConcatReadable(machine, g.offsets + g.pots + g.macros, g.life);
    ConcatReadable(machine, g.offsets + g.pots + g.macros + g.life, g.work);
    ConcatReadable(machine, g.offsets + g.pots + g.macros + g.life + g.work, g.reinit);
  }

  lemma TransitionRowIsEvent(machine: int, log: seq<AuditRow>, number: nat, at: int, i: nat)
    requires i < |log| && TransitionRow(machine, log[i], number, at) && Readable(machine, log[i])
    ensures exists c :: c in History(log, MacroEvents(machine)) && c.key == number && c.at == at && c.before.Some?
  {
    var c := MacroEvent(machine, log[i]).value;
    HistoryMembers(log, MacroEvents(machine), c);
    hide History;
    assert c.key == number && c.at == at && c.before.Some?;
  }

  lemma EventIsTransitionRow(machine: int, log: seq<AuditRow>, c: Change<nat, Option<real>>)
    requires c in History(log, MacroEvents(machine)) && c.before.Some?
    ensures exists i :: 0 <= i < |log| && TransitionRow(machine, log[i], c.key, c.at)
  {
    HistoryMembers(log, MacroEvents(machine), c);
    hide History;
    var i :| 0 <= i < |log| && MacroEvents(machine)(log[i]) == Some(c);
    assert TransitionRow(machine, log[i], c.key, c.at);
  }

  /** The log query is the ledger's question. */
  lemma TransitionRowIff(machine: int, run: seq<Entry>, number: nat, at: int)
    requires Legal(machine, run)
    ensures var log := Replayed(machine, run).log;
            (exists i :: 0 <= i < |log| && TransitionRow(machine, log[i], number, at)) <==>
            (exists c :: c in History(log, MacroEvents(machine)) && c.key == number && c.at == at && c.before.Some?)
  {
    var log := Replayed(machine, run).log;
    OwnRowsReadable(machine, run);
    if i :| 0 <= i < |log| && TransitionRow(machine, log[i], number, at) {
      assert Readable(machine, log[i]);
      TransitionRowIsEvent(machine, log, number, at, i);
    }
    hide Replayed, History, Readable, TransitionRow, Legal;
    if c :| c in History(log, MacroEvents(machine)) && c.key == number && c.at == at && c.before.Some? {
      EventIsTransitionRow(machine, log, c);
    }
  }

  /** The two-table query for one variable. */
  ghost predicate ChangedInLog(machine: int, s: Store, number: nat) {
    && ChangedAtLastPoll(s.mirror.macros, number)
    && exists i :: 0 <= i < |s.log| && TransitionRow(machine, s.log[i], number, s.mirror.macros[number].changedAt)
  }

  lemma ChangedInLogIff(machine: int, run: seq<Entry>, number: nat)
    requires Legal(machine, run)
    ensures ChangedInLog(machine, Replayed(machine, run), number) <==> MovedLastSeen(run, number)
  {
    var s := Replayed(machine, run);
    hide Replayed, Legal, History, JustMoved, KeyedLedger.Run, Sightings, TransitionRow;
    MacrosAreALedger(machine, run);
    LegalSweeps(machine, run, Macros);
    if number in s.mirror.macros {
      TransitionRowIff(machine, run, number, s.mirror.macros[number].changedAt);
    }
    ChangedLastCycleIff(SweepsOf(run, Macros), number);
  }

  lemma SkipChangedIff(machine: int, run: seq<Entry>)
    requires Legal(machine, run)
    ensures SkipChangedLastCycle(machine, Replayed(machine, run)) <==>
            exists number :: SkipVar(number) && MovedLastSeen(run, number)
  {
    var s := Replayed(machine, run);
    hide Replayed, Legal, MovedLastSeen, TransitionRow, ChangedAtLastPoll;
    forall number: nat ensures ChangedInLog(machine, s, number) <==> MovedLastSeen(run, number) {
      ChangedInLogIff(machine, run, number);
    }
    assert forall number: nat :: number in SKIP_VARS <==> SkipVar(number);
    assert SkipChangedLastCycle(machine, s) <==>
           exists number :: number in SKIP_VARS && ChangedInLog(machine, s, number);
  }

  lemma SeenSnoc(run: seq<Entry>, number: nat)
    requires run != []
    ensures var most, e := run[..|run| - 1], run[|run| - 1];
            Seen(run, number) ==
            if e.Poll? && LastReading(e.snapshot.macros, number).Some?
            then Seen(most, number) + [Sighting(e.snapshot.polledAt, LastReading(e.snapshot.macros, number).value)]
            else Seen(most, number)
  {
    var sweeps, e := SweepsOf(run[..|run| - 1], Macros), run[|run| - 1];
    if e.Poll? {
      var sweep := Sweep(e.snapshot.polledAt, Macros(e.snapshot));
      assert (sweeps + [sweep])[..|sweeps|] == sweeps;
    } else {
      assert SweepsOf(run, Macros) == sweeps;
    }
  }

  lemma MacroIsLastSeen(machine: int, run: seq<Entry>, number: nat)
    requires Legal(machine, run)
    ensures var seen := Seen(run, number);
            Get(Values(Replayed(machine, run).mirror.macros), number) ==
            if seen == [] then None else Some(seen[|seen| - 1].value)
  {
    var macros := Replayed(machine, run).mirror.macros;
    hide Replayed, Legal, History;
    MacrosAreALedger(machine, run);
    LegalSweeps(machine, run, Macros);
    hide KeyedLedger.Run, Sightings, HeldSince;
    RowTellsSightings(SweepsOf(run, Macros), number);
    ValueOfCell(macros, number);
  }

  lemma ValueOfCell<K, V>(t: Table<K, V>, k: K)
    ensures Get(Values(t), k) == if Get(t, k).Some? then Some(Get(t, k).value.value) else None
  {
  }

  lemma JustMovedSnoc<V>(s: seq<Sighting<V>>, x: Sighting<V>)
    ensures JustMoved(s + [x]) <==> s != [] && s[|s| - 1].value != x.value
  {
    var s' := s + [x];
    assert s'[|s|] == x && (s != [] ==> s'[|s| - 1] == s[|s| - 1]);
  }

  lemma SkipMoveIff(machine: int, run: seq<Entry>, snapshot: MachineSnapshot, i: nat)
    requires Legal(machine, run) && Validated(snapshot) && i < |snapshot.macros|
    ensures var r := snapshot.macros[i];
            SkipMoves(Values(Replayed(machine, run).mirror.macros), r) <==>
            SkipVar(r.key) && MovesNow(run, snapshot, r.key)
  {
    var macros, r := Values(Replayed(machine, run).mirror.macros), snapshot.macros[i];
    hide Replayed, Seen, Legal, Validated, Values, JustMoved, Reads;
    MacroIsLastSeen(machine, run, r.key);
    SeenNow(run, snapshot, i);
    JustMovedSnoc(Seen(run, r.key), Sighting(snapshot.polledAt, r.value));
    assert r.key in macros <==> Get(macros, r.key).Some?;
  }

  lemma SeenNow(run: seq<Entry>, snapshot: MachineSnapshot, i: nat)
    requires Validated(snapshot) && i < |snapshot.macros|
    ensures var r := snapshot.macros[i];
            Seen(run + [Poll(snapshot)], r.key) == Seen(run, r.key) + [Sighting(snapshot.polledAt, r.value)]
            && Reads(snapshot.macros, r.key)
  {
    var all := run + [Poll(snapshot)];
    LastOfDistinct(snapshot.macros, i);
    assert all[..|run|] == run && all[|run|] == Poll(snapshot);
    SeenSnoc(all, snapshot.macros[i].key);
    hide Seen;
  }

  lemma SkipMovesIff(machine: int, run: seq<Entry>, snapshot: MachineSnapshot)
    requires Legal(machine, run) && Validated(snapshot)
    ensures var macros := Values(Replayed(machine, run).mirror.macros);
            (exists i :: 0 <= i < |snapshot.macros| && SkipMoves(macros, snapshot.macros[i])) <==>
            (exists number :: SkipVar(number) && MovesNow(run, snapshot, number))
  {
    hide Replayed, JustMoved, Seen;
    var macros := Values(Replayed(machine, run).mirror.macros);
    if number :| SkipVar(number) && MovesNow(run, snapshot, number) {
      var i :| 0 <= i < |snapshot.macros| && snapshot.macros[i].key == number;
      SkipMoveIff(machine, run, snapshot, i);
    }
    if i :| 0 <= i < |snapshot.macros| && SkipMoves(macros, snapshot.macros[i]) {
      SkipMoveIff(machine, run, snapshot, i);
    }
  }

  /** The flag is the history: after every run, it holds exactly when some skip variable was seen to
      move in this cycle or at its own last observed cycle. */
  lemma PresetterActiveIffFired(machine: int, run: seq<Entry>, snapshot: MachineSnapshot)
    requires Legal(machine, run + [Poll(snapshot)])
    ensures PresetterActive(machine, Replayed(machine, run), snapshot) <==> PresetterFired(run, snapshot)
  {
    var all := run + [Poll(snapshot)];
    assert all[..|run|] == run && all[|run|] == Poll(snapshot);
    LegalPrefix(machine, all);
    SkipChangedIff(machine, run);
    SkipMovesIff(machine, run, snapshot);
    if PresetterFired(run, snapshot) {
      var number :| SkipVar(number) && (MovesNow(run, snapshot, number) || MovedLastSeen(run, number));
    }
  }

  // ---------------------------------------------------------------- tags over a whole log

  /** The offset row was written by poll `i` of the run. */
  ghost predicate WrittenBy(run: seq<Entry>, i: nat, row: AuditRow) {
    i < |run| && run[i].Poll? && run[i].snapshot.polledAt == row.occurredAt
  }

  function TagOf(row: AuditRow): Option<Source> {
    if row.after.Some? && row.after.value.OffsetValue? then row.after.value.source else None
  }

  /** The tag an offset row of poll `i` must carry. */
  ghost function DueTag(run: seq<Entry>, i: nat, row: AuditRow): Option<Source>
    requires i < |run| && run[i].Poll?
  {
    if row.entity.OffsetEntity? && row.entity.offset.bank.HGeom? && row.before.Some?
    then Some(if PresetterFired(run[..i], run[i].snapshot) then PresetterVerified else ManualEdit)
    else None
  }

  ghost predicate OffsetRowOf(machine: int, row: AuditRow) {
    row.machine == machine && row.event.OffsetChange?
  }

  ghost predicate TaggedRight(machine: int, run: seq<Entry>, row: AuditRow) {
    exists i: nat :: WrittenBy(run, i, row) && TagOf(row) == DueTag(run, i, row)
  }

  lemma {:induction false} RenderTags(machine: int, active: bool, changes: seq<Change<OffsetKey, int>>, at: int)
    requires forall i | 0 <= i < |changes| :: changes[i].at == at
    ensures var rows := Render(changes, OffsetRows(machine, active));
            forall i | 0 <= i < |rows| ::
              && rows[i].occurredAt == at && rows[i].entity.OffsetEntity?
              && TagOf(rows[i]) == if rows[i].entity.offset.bank.HGeom? && rows[i].before.Some?
                                   then Some(if active then PresetterVerified else ManualEdit) else None
  {
    if changes != [] {
      var n := |changes| - 1;
      RenderTags(machine, active, changes[..n], at);
      RenderLength(changes[..n], OffsetRows(machine, active));
      assert Render(changes, OffsetRows(machine, active))[n] == OffsetRow(machine, active, changes[n]);
    }
  }

  lemma {:induction false} DiffStamps<K, V>(current: map<K, V>, readings: seq<Reading<K, V>>, at: int)
    ensures forall i | 0 <= i < |Diff(current, readings, at)| :: Diff(current, readings, at)[i].at == at
  {
    if readings != [] { DiffStamps(current, readings[..|readings| - 1], at); }
  }

  lemma NewOffsetRowsTagged(machine: int, run: seq<Entry>, snapshot: MachineSnapshot, k: nat)
    requires Legal(machine, run + [Poll(snapshot)])
    requires k < |NewRows(machine, Replayed(machine, run), snapshot)|
    requires OffsetRowOf(machine, NewRows(machine, Replayed(machine, run), snapshot)[k])
    ensures TaggedRight(machine, run + [Poll(snapshot)], NewRows(machine, Replayed(machine, run), snapshot)[k])
  {
    var s, all := Replayed(machine, run), run + [Poll(snapshot)];
    var g, row := GroupsOf(machine, s, snapshot), NewRows(machine, s, snapshot)[k];
    GroupsTyped(machine, s, snapshot);
    InOffsetGroup(g, k);
    var changes := Diff(Values(s.mirror.offsets), snapshot.offsets, snapshot.polledAt);
    DiffStamps(Values(s.mirror.offsets), snapshot.offsets, snapshot.polledAt);
    RenderTags(machine, PresetterActive(machine, s, snapshot), changes, snapshot.polledAt);
    PresetterActiveIffFired(machine, run, snapshot);
    assert all[|run|] == Poll(snapshot) && all[..|run|] == run;
    assert g.offsets == Render(changes, OffsetRows(machine, PresetterActive(machine, s, snapshot)));
    assert row == g.offsets[k] && row.occurredAt == snapshot.polledAt;
    assert WrittenBy(all, |run|, row);
  }

  lemma InOffsetGroup(g: Groups, k: nat)
    requires Typed(g) && k < |Joined(g)| && Joined(g)[k].event.OffsetChange?
    ensures k < |g.offsets| && Joined(g)[k] == g.offsets[k]
  {
    var rest := g.pots + g.macros + g.life + g.work + g.reinit;
    assert Joined(g) == g.offsets + rest;
  }

  lemma TaggedRightGrows(machine: int, run: seq<Entry>, e: Entry, row: AuditRow)
    requires TaggedRight(machine, run, row)
    ensures TaggedRight(machine, run + [e], row)
  {
    var i: nat :| WrittenBy(run, i, row) && TagOf(row) == DueTag(run, i, row);
    assert (run + [e])[i] == run[i] && (run + [e])[..i] == run[..i];
    assert WrittenBy(run + [e], i, row);
  }

  ghost predicate AllTaggedRight(machine: int, run: seq<Entry>, log: seq<AuditRow>) {
    forall k | 0 <= k < |log| && OffsetRowOf(machine, log[k]) :: TaggedRight(machine, run, log[k])
  }

  /** In every log, each offset row carries exactly the tag its cycle called for: none on wear or
      diameter banks and none on a first capture; on an H-geometry transition, the presetter's when a
      skip variable had fired, a manual edit otherwise. */
  lemma {:induction false} EveryOffsetRowTaggedRight(machine: int, run: seq<Entry>)
    requires Legal(machine, run)
    ensures AllTaggedRight(machine, run, Replayed(machine, run).log)
  {
    if run != [] {
      var most, e := run[..|run| - 1], run[|run| - 1];
      assert most + [e] == run;
      LegalPrefix(machine, run);
      EveryOffsetRowTaggedRight(machine, most);
      var s, log := Replayed(machine, most), Replayed(machine, run).log;
      assert AllTaggedRight(machine, most, s.log);
      forall k | 0 <= k < |log| && OffsetRowOf(machine, log[k]) ensures TaggedRight(machine, run, log[k]) {
        if k < |s.log| {
          assert log[k] == s.log[k] && OffsetRowOf(machine, s.log[k]);
          assert TaggedRight(machine, most, s.log[k]);
          TaggedRightGrows(machine, most, e, log[k]);
        } else if e.Poll? {
          NewOffsetRowsTagged(machine, most, e.snapshot, k - |s.log|);
        }
      }
    }
  }

  // ---------------------------------------------------------------- when every cycle reads all three

  /** The polls of a run, in order. */
  ghost function PollsOf(run: seq<Entry>): seq<MachineSnapshot> {
    if run == [] then [] else
    PollsOf(run[..|run| - 1]) + if run[|run| - 1].Poll? then [run[|run| - 1].snapshot] else []
  }

  ghost predicate ReadsAllSkips(snapshot: MachineSnapshot) {
    forall number | SkipVar(number) :: Reads(snapshot.macros, number)
  }

  /** The variable's readings in polls `k - 1` and `k` differ. */
  ghost predicate MovedInCycle(polls: seq<MachineSnapshot>, k: int, number: nat) {
    1 <= k < |polls| && LastReading(polls[k].macros, number) != LastReading(polls[k - 1].macros, number)
  }

  lemma {:induction false} SomeReading<K, V>(readings: seq<Reading<K, V>>, k: K)
    requires Reads(readings, k)
    ensures LastReading(readings, k).Some?
  {
    if readings[|readings| - 1].key != k {
      var i :| 0 <= i < |readings| && readings[i].key == k;
      assert readings[..|readings| - 1][i].key == k;
      SomeReading(readings[..|readings| - 1], k);
    }
  }

  lemma {:induction false} SeenEveryCycle(run: seq<Entry>, number: nat)
    requires SkipVar(number) && forall i | 0 <= i < |PollsOf(run)| :: ReadsAllSkips(PollsOf(run)[i])
    ensures var polls, seen := PollsOf(run), Seen(run, number);
            && |seen| == |polls|
            && forall i | 0 <= i < |polls| :: LastReading(polls[i].macros, number) == Some(seen[i].value)
  {
    if run != [] {
      var most, e := run[..|run| - 1], run[|run| - 1];
      assert forall i | 0 <= i < |PollsOf(most)| :: PollsOf(most)[i] == PollsOf(run)[i];
      SeenEveryCycle(most, number);
      SeenSnoc(run, number);
      if e.Poll? {
        assert PollsOf(run)[|PollsOf(most)|] == e.snapshot;
        assert ReadsAllSkips(e.snapshot);
        SomeReading(e.snapshot.macros, number);
      }
    }
  }

  /** When every cycle reads all three variables, the straddling sweep is the whole story: poll `k`
      attributes its H-geometry changes to the presetter exactly when a skip moved in cycle `k` or
      `k - 1`. */
  lemma FiredThisOrPreviousCycle(run: seq<Entry>, snapshot: MachineSnapshot)
    requires forall i | 0 <= i < |PollsOf(run + [Poll(snapshot)])| :: ReadsAllSkips(PollsOf(run + [Poll(snapshot)])[i])
    ensures var polls := PollsOf(run + [Poll(snapshot)]);
            var k := |polls| - 1;
            PresetterFired(run, snapshot) <==>
            exists number :: SkipVar(number)
              && (MovedInCycle(polls, k, number) || MovedInCycle(polls, k - 1, number))
  {
    hide Seen, JustMoved, LastReading, Reads;
    PollsSnoc(run, snapshot);
    forall number | SkipVar(number)
      ensures MovesNow(run, snapshot, number) <==> MovedInCycle(PollsOf(run + [Poll(snapshot)]), |PollsOf(run)|, number)
      ensures MovedLastSeen(run, number) <==> MovedInCycle(PollsOf(run + [Poll(snapshot)]), |PollsOf(run)| - 1, number)
    {
      MovesAreCycles(run, snapshot, number);
    }
  }

  lemma PollsSnoc(run: seq<Entry>, snapshot: MachineSnapshot)
    ensures PollsOf(run + [Poll(snapshot)]) == PollsOf(run) + [snapshot]
  {
    assert (run + [Poll(snapshot)])[..|run|] == run;
  }

  lemma MovesAreCycles(run: seq<Entry>, snapshot: MachineSnapshot, number: nat)
    requires forall i | 0 <= i < |PollsOf(run + [Poll(snapshot)])| :: ReadsAllSkips(PollsOf(run + [Poll(snapshot)])[i])
    requires SkipVar(number)
    ensures MovesNow(run, snapshot, number) <==> MovedInCycle(PollsOf(run + [Poll(snapshot)]), |PollsOf(run)|, number)
    ensures MovedLastSeen(run, number) <==> MovedInCycle(PollsOf(run + [Poll(snapshot)]), |PollsOf(run)| - 1, number)
  {
    var polls, before := PollsOf(run + [Poll(snapshot)]), PollsOf(run);
    PollsSnoc(run, snapshot);
    assert polls[|before|] == snapshot && ReadsAllSkips(snapshot);
    assert forall i | 0 <= i < |before| :: before[i] == polls[i];
    MovedLastIsCycle(run, number);
    MovedLastIsCycle(run + [Poll(snapshot)], number);
    hide Seen, PollsOf, LastReading, JustMoved, ReadsAllSkips;
  }

  lemma MovedLastIsCycle(run: seq<Entry>, number: nat)
    requires SkipVar(number) && forall i | 0 <= i < |PollsOf(run)| :: ReadsAllSkips(PollsOf(run)[i])
    ensures JustMoved(Seen(run, number)) <==> MovedInCycle(PollsOf(run), |PollsOf(run)| - 1, number)
  {
    SeenEveryCycle(run, number);
    hide Seen, PollsOf, LastReading, ReadsAllSkips;
  }
}
