/**
 The reset alarm — several pots that read their own ordinals again in one poll
 (`shared/focas/snapshot_diff.py`, `detect_pot_reinit`) — and what a poll reports of the rows it wrote.
 */
module PotReinit {
  import opened Wrappers
  import opened KeyedLedger
  import opened FocasModels
  import opened SnapshotStore
  import opened SnapshotHistory

  /** The poll reads the pot as its own ordinal; when last seen it held another tool. */
  ghost predicate SnapsBack(run: seq<Entry>, snapshot: MachineSnapshot, pot: nat) {
    var seen := Sightings(SweepsOf(run, Pots), pot);
    && (exists i :: 0 <= i < |snapshot.pots| && snapshot.pots[i] == Reading(pot, Some(pot)))
    && seen != [] && seen[|seen| - 1].value.Some? && seen[|seen| - 1].value != Some(pot)
  }

  ghost predicate Climbing(s: seq<nat>) {
    forall i, j | 0 <= i < j < |s| :: s[i] < s[j]
  }

  /** The alarms among some rows. */
  function Alarms(rows: seq<AuditRow>): seq<AuditRow> {
    if rows == [] then [] else
    Alarms(rows[..|rows| - 1]) + if rows[|rows| - 1].event.PotReinitSuspected? then [rows[|rows| - 1]] else []
  }

  lemma {:induction false} AlarmsConcat(a: seq<AuditRow>, b: seq<AuditRow>)
    ensures Alarms(a + b) == Alarms(a) + Alarms(b)
  {
    if b == [] {
      assert a + b == a;
    } else {
      assert (a + b)[..|a + b| - 1] == a + b[..|b| - 1];
      AlarmsConcat(a, b[..|b| - 1]);
    }
  }

  lemma {:induction false} NoAlarms(rows: seq<AuditRow>, t: EventType)
    requires AllOf(rows, t) && !t.PotReinitSuspected?
    ensures Alarms(rows) == []
  {
    if rows != [] { NoAlarms(rows[..|rows| - 1], t); }
  }

  lemma AlarmsOfGroups(g: Groups)
    requires Typed(g)
    ensures Alarms(Joined(g)) == Alarms(g.reinit)
  {
    hide Alarms;
    AlarmsConcat(g.offsets, g.pots);
    AlarmsConcat(g.offsets + g.pots, g.macros);
    AlarmsConcat(g.offsets + g.pots + g.macros, g.life);
    AlarmsConcat(g.offsets + g.pots + g.macros + g.life, g.work);
    AlarmsConcat(g.offsets + g.pots + g.macros + g.life + g.work, g.reinit);
    NoAlarms(g.offsets, OffsetChange);
    NoAlarms(g.pots, PotMove);
    NoAlarms(g.macros, MacroChange);
    NoAlarms(g.life, ToolLifeChange);
    NoAlarms(g.work, WorkOffsetChange);
  }

  // ---------------------------------------------------------------- the pots

  lemma PotIsLastSeen(machine: int, run: seq<Entry>, pot: nat)
    requires Legal(machine, run)
    ensures var seen := Sightings(SweepsOf(run, Pots), pot);
            Get(Values(Replayed(machine, run).mirror.pots), pot) ==
            if seen == [] then None else Some(seen[|seen| - 1].value)
  {
    var pots := Replayed(machine, run).mirror.pots;
    hide Replayed, Legal, History;
    PotsAreALedger(machine, run);
    LegalSweeps(machine, run, Pots);
    hide KeyedLedger.Run, Sightings, HeldSince;
    RowTellsSightings(SweepsOf(run, Pots), pot);
    assert pot in pots <==> Get(pots, pot).Some?;
  }

  lemma {:induction false} RevertedHas(current: map<nat, Option<nat>>, pots: seq<Reading<nat, Option<nat>>>, pot: nat)
    ensures pot in Reverted(current, pots) <==>
            && (exists i :: 0 <= i < |pots| && pots[i] == Reading(pot, Some(pot)))
            && Get(current, pot).Some? && Get(current, pot).value.Some? && Get(current, pot).value != Some(pot)
  {
    if pots != [] {
      var n := |pots| - 1;
      RevertedHas(current, pots[..n], pot);
      assert forall i | 0 <= i < n :: pots[..n][i] == pots[i];
      if i :| 0 <= i < |pots| && pots[i] == Reading(pot, Some(pot)) {
        assert i < n ==> pots[..n][i] == Reading(pot, Some(pot));
      }
    }
  }

  ghost predicate NoneTwice(s: seq<nat>) {
    forall i, j | 0 <= i < j < |s| :: s[i] != s[j]
  }

  lemma {:induction false} RevertedOnce(current: map<nat, Option<nat>>, pots: seq<Reading<nat, Option<nat>>>)
    requires Distinct(pots)
    ensures NoneTwice(Reverted(current, pots))
  {
    if pots != [] {
      var n := |pots| - 1;
      RevertedOnce(current, pots[..n]);
      RevertedHas(current, pots[..n], pots[n].key);
    }
  }

  lemma {:induction false} CountsOnce(s: seq<nat>, x: nat)
    requires NoneTwice(s)
    ensures multiset(s)[x] == if x in s then 1 else 0
  {
    if s != [] {
      var n := |s| - 1;
      CountsOnce(s[..n], x);
      assert s == s[..n] + [s[n]];
    }
  }

  lemma SortedClimbs(s: seq<nat>)
    requires NoneTwice(s)
    ensures Climbing(Sorted(s)) && forall x :: x in Sorted(s) <==> x in s
  {
    var r := Sorted(s);
    SortedSorts(s);
    forall x ensures x in r <==> x in s {
      assert x in r <==> x in multiset(r);
      assert x in s <==> x in multiset(s);
    }
    forall i, j | 0 <= i < j < |r| ensures r[i] < r[j] {
      CountsOnce(s, r[i]);
      if r[i] == r[j] { CountedTwice(r, i, j); }
    }
  }

  lemma CountedTwice(r: seq<nat>, i: nat, j: nat)
    requires i < j < |r| && r[i] == r[j]
    ensures multiset(r)[r[i]] >= 2
  {
    assert r == r[..j] + [r[j]] + r[j + 1..];
    assert r[..j][i] == r[i] && r[i] in multiset(r[..j]);
  }

  /** Over every run: a poll raises the alarm exactly if four pots or more snap back in it; the alarm is one
      row, the last it writes, not a success, that lists them in order and says how many. */
  lemma ReinitAlarmIff(machine: int, run: seq<Entry>, snapshot: MachineSnapshot) returns (back: seq<nat>)
    requires Legal(machine, run + [Poll(snapshot)])
    ensures Climbing(back) && forall pot :: pot in back <==> SnapsBack(run, snapshot, pot)
    ensures var rows := NewRows(machine, Replayed(machine, run), snapshot);
            var alarm := AuditRow(machine, PotReinitSuspected, MachineEntity(machine), None,
                                  Some(ReinitValue(back, |back|)), false, snapshot.polledAt);
            && Alarms(rows) == (if |back| >= 4 then [alarm] else [])
            && (|back| >= 4 ==> rows[|rows| - 1] == alarm)
  {
    var all, s := run + [Poll(snapshot)], Replayed(machine, run);
    assert all[..|run|] == run && all[|run|] == Poll(snapshot);
    LegalPrefix(machine, all);
    assert Distinct(snapshot.pots);
    back := Sorted(Reverted(Values(s.mirror.pots), snapshot.pots));
    hide Replayed, Legal, SnapsBack, NewRows, Reverted, Sorted, Alarms, Climbing;
    BackSnaps(machine, run, snapshot);
    AlarmRows(machine, s, snapshot);
  }

  lemma BackSnaps(machine: int, run: seq<Entry>, snapshot: MachineSnapshot)
    requires Legal(machine, run) && Distinct(snapshot.pots)
    ensures var back := Sorted(Reverted(Values(Replayed(machine, run).mirror.pots), snapshot.pots));
            Climbing(back) && forall pot :: pot in back <==> SnapsBack(run, snapshot, pot)
  {
    hide Replayed, Legal, Reverted, Sorted, Climbing, Sightings, NoneTwice;
    var current := Values(Replayed(machine, run).mirror.pots);
    RevertedOnce(current, snapshot.pots);
    SortedClimbs(Reverted(current, snapshot.pots));
    forall pot ensures pot in Reverted(current, snapshot.pots) <==> SnapsBack(run, snapshot, pot) {
      PotIsLastSeen(machine, run, pot);
      RevertedHas(current, snapshot.pots, pot);
    }
  }

  lemma AlarmRows(machine: int, s: Store, snapshot: MachineSnapshot)
    ensures var rows, back := NewRows(machine, s, snapshot), Sorted(Reverted(Values(s.mirror.pots), snapshot.pots));
            var alarm := AuditRow(machine, PotReinitSuspected, MachineEntity(machine), None,
                                  Some(ReinitValue(back, |back|)), false, snapshot.polledAt);
            && Alarms(rows) == (if |back| >= 4 then [alarm] else [])
            && (|back| >= 4 ==> rows != [] && rows[|rows| - 1] == alarm)
  {
    hide NewRows, Sorted, Reverted, Render, Diff, Values, PresetterActive;
    GroupsTyped(machine, s, snapshot);
    AlarmsOfGroups(GroupsOf(machine, s, snapshot));
    AlarmsOfOne(GroupsOf(machine, s, snapshot).reinit);
  }

  lemma AlarmsOfOne(rows: seq<AuditRow>)
    ensures rows == [] ==> Alarms(rows) == []
    ensures |rows| == 1 && rows[0].event.PotReinitSuspected? ==> Alarms(rows) == rows
  {
    assert |rows| == 1 ==> rows[..0] == [] && rows == [rows[0]];
  }

  // ---------------------------------------------------------------- what a poll reports

  function CountOf(rows: seq<AuditRow>, t: EventType): nat {
    if rows == [] then 0 else CountOf(rows[..|rows| - 1], t) + if rows[|rows| - 1].event == t then 1 else 0
  }

  lemma {:induction false} CountConcat(a: seq<AuditRow>, b: seq<AuditRow>, t: EventType)
    ensures CountOf(a + b, t) == CountOf(a, t) + CountOf(b, t)
  {
    if b == [] {
      assert a + b == a;
    } else {
      assert (a + b)[..|a + b| - 1] == a + b[..|b| - 1];
      CountConcat(a, b[..|b| - 1], t);
    }
  }

  lemma {:induction false} CountAllOf(rows: seq<AuditRow>, t: EventType, u: EventType)
    requires AllOf(rows, t)
    ensures CountOf(rows, u) == if t == u then |rows| else 0
  {
    if rows != [] { CountAllOf(rows[..|rows| - 1], t, u); }
  }

  lemma CountInGroups(g: Groups, t: EventType)
    requires Typed(g) && !t.OtherEvent?
    ensures CountOf(Joined(g), t) == |Group(g, t)|
  {
    hide CountOf;
    CountConcat(g.offsets, g.pots, t);
    CountConcat(g.offsets + g.pots, g.macros, t);
    CountConcat(g.offsets + g.pots + g.macros, g.life, t);
    CountConcat(g.offsets + g.pots + g.macros + g.life, g.work, t);
    CountConcat(g.offsets + g.pots + g.macros + g.life + g.work, g.reinit, t);
    CountAllOf(g.offsets, OffsetChange, t);
    CountAllOf(g.pots, PotMove, t);
    CountAllOf(g.macros, MacroChange, t);
    CountAllOf(g.life, ToolLifeChange, t);
    CountAllOf(g.work, WorkOffsetChange, t);
    CountAllOf(g.reinit, PotReinitSuspected, t);
  }

  /** A poll reports, per domain, the readings it took and the rows it wrote, and an alarm exactly if it
      raised one. */
  lemma SummaryCountsRows(machine: int, s: Store, snapshot: MachineSnapshot)
    ensures var r, rows := Summary(s, snapshot), NewRows(machine, s, snapshot);
            && r.offsetsObserved == |snapshot.offsets| && r.offsetsChanged == CountOf(rows, OffsetChange)
            && r.potsObserved == |snapshot.pots| && r.potsChanged == CountOf(rows, PotMove)
            && r.macrosObserved == |snapshot.macros| && r.macrosChanged == CountOf(rows, MacroChange)
            && r.toolLifeObserved == |snapshot.toolLife| && r.toolLifeChanged == CountOf(rows, ToolLifeChange)
            && r.workOffsetsObserved == |snapshot.workOffsets|
            && r.workOffsetsChanged == CountOf(rows, WorkOffsetChange)
            && (r.potReinitSuspected <==> CountOf(rows, PotReinitSuspected) == 1)
            && (r.statusChanged <==> StatusChanged(s.mirror.status, snapshot.status))
  {
    var m, at, g := s.mirror, snapshot.polledAt, GroupsOf(machine, s, snapshot);
    GroupsTyped(machine, s, snapshot);
    CountInGroups(g, OffsetChange);
    CountInGroups(g, PotMove);
    CountInGroups(g, MacroChange);
    CountInGroups(g, ToolLifeChange);
    CountInGroups(g, WorkOffsetChange);
    CountInGroups(g, PotReinitSuspected);
    RenderLength(Diff(Values(m.offsets), snapshot.offsets, at),
                 OffsetRows(machine, PresetterActive(machine, s, snapshot)));
    RenderLength(Diff(Values(m.pots), snapshot.pots, at), PotRows(machine));
    RenderLength(Diff(Values(m.macros), snapshot.macros, at), MacroRows(machine));
    RenderLength(Diff(ToolLifeValues(m.toolLife), snapshot.toolLife, at), ToolLifeRows(machine));
    RenderLength(Diff(Values(m.workOffsets), snapshot.workOffsets, at), WorkOffsetRows(machine));
    hide CountOf, Render, Diff, NewRows, StatusChanged, PresetterActive, Typed;
  }
}
