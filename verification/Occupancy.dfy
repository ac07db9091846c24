/**
 Pot occupancy (`apps/tooling/api/services/occupancy.py`): pot identity, measured presence and the
 assignment records joined into one verdict per pot.
 */
module Occupancy {
  import opened Wrappers
  import opened KeyedLedger
  import opened FocasModels
  import opened SnapshotStore
  import opened SnapshotHistory
  import opened PresetterHistory
  import opened OffsetViews
  import opened Ordering
  import Assignments

  datatype PotState = Probe | Loaded | Empty | Unverified
  datatype Location = Spindle | Next

  datatype PotOccupancy = PotOccupancy(
    pot: nat, t: Option<nat>, state: PotState, verified: bool, h: Option<nat>, offset: Option<int>)

  /** Probe first, then identity, assignment and measured length. */
  function ClassifyPot(
    pot: nat, t: Option<nat>, probeT: Option<nat>, h: Option<nat>, offset: Option<int>, verified: bool)
    : (o: PotOccupancy)
    ensures o.pot == pot
  {
    if probeT.Some? && t == probeT then PotOccupancy(pot, t, Probe, false, None, None)
    else if t.None? then PotOccupancy(pot, None, Empty, false, None, None)
    else if h.None? then PotOccupancy(pot, t, if t == Some(pot) then Empty else Unverified, false, None, None)
    else if offset.None? || offset.value == 0 then PotOccupancy(pot, t, Empty, false, h, offset)
    else PotOccupancy(pot, t, Loaded, verified, h, offset)
  }

  /** The spindle wins when both name the tool. */
  function PotLocation(t: Option<nat>, head: Option<nat>, next: Option<nat>): Option<Location> {
    if t.None? then None
    else if t == head then Some(Spindle)
    else if t == next then Some(Next)
    else None
  }

  datatype PotOut = PotOut(occupancy: PotOccupancy, location: Option<Location>, polledAt: int, changedAt: int)

  // ---------------------------------------------------------------- the three lookups

  predicate ActiveOn(rows: map<nat, Assignments.Assignment>, id: nat, machine: nat, t: nat, h: nat) {
    id in rows && !rows[id].deleted && rows[id].machine == machine && rows[id].t == t && rows[id].h == h
  }

  /** `{t: h}` over the machine's active assignments. */
  ghost predicate IsTToH(m: map<nat, nat>, rows: map<nat, Assignments.Assignment>, machine: nat) {
    && (forall t | t in m :: exists id :: ActiveOn(rows, id, machine, t, m[t]))
    && (forall id | id in rows && !rows[id].deleted && rows[id].machine == machine :: rows[id].t in m)
  }

  method BuildTToH(rows: map<nat, Assignments.Assignment>, machine: nat) returns (m: map<nat, nat>)
    ensures IsTToH(m, rows, machine)
  {
    m := map[];
    var left := rows.Keys;
    while left != {}
      invariant left <= rows.Keys
      invariant forall t | t in m :: exists id :: ActiveOn(rows, id, machine, t, m[t])
      invariant forall id | id in rows && id !in left && !rows[id].deleted && rows[id].machine == machine ::
                rows[id].t in m
      decreases left
    {
      var id :| id in left;
      left := left - {id};
      var row := rows[id];
      if !row.deleted && row.machine == machine {
        assert ActiveOn(rows, id, machine, row.t, row.h);
        m := m[row.t := row.h];
      }
    }
  }

  // ---------------------------------------------------------------- one entry per pot

  function PotEntry(
    s: Mirror, probeT: Option<nat>, tToH: map<nat, nat>, sources: map<nat, Option<Source>>, pot: nat): (o: PotOut)
    requires pot in s.pots
    ensures o.occupancy.pot == pot
  {
    var cell := s.pots[pot];
    var t := cell.value;
    var h := if t.Some? then Get(tToH, t.value) else None;
    var offset :=
      if h.Some? && OffsetKey(h.value, HGeom) in s.offsets
      then Some(s.offsets[OffsetKey(h.value, HGeom)].value) else None;
    var verified := h.Some? && Get(sources, h.value) == Some(Some(PresetterVerified));
    var head, next :=
      if s.status.None? then None else s.status.value.status.currentT,
      if s.status.None? then None else s.status.value.status.nextT;
    PotOut(ClassifyPot(pot, t, probeT, h, offset, verified), PotLocation(t, head, next), cell.polledAt, cell.changedAt)
  }

  ghost predicate IsEntry(
    o: PotOut, s: Mirror, probeT: Option<nat>, tToH: map<nat, nat>, sources: map<nat, Option<Source>>)
  {
    o.occupancy.pot in s.pots && o == PotEntry(s, probeT, tToH, sources, o.occupancy.pot)
  }

  /** One row per mirrored pot, in pot order. */
  method ListPots(
    machine: nat, machines: map<nat, Assignments.Machine>, s: Store, rows: map<nat, Assignments.Assignment>)
    returns (out: Result<seq<PotOut>, Assignments.Error>,
             ghost tToH: map<nat, nat>, ghost sources: map<nat, Option<Source>>)
    ensures machine !in machines <==> out.Err?
    ensures out.Err? ==> out.error.NotFound?
    ensures out.Ok? ==>
            && IsTToH(tToH, rows, machine) && IsSources(sources, machine, s.log)
            && |out.value| == |s.mirror.pots|
            && (forall i | 0 <= i < |out.value| ::
                IsEntry(out.value[i], s.mirror, machines[machine].probeT, tToH, sources))
            && (forall i, j | 0 <= i < j < |out.value| :: out.value[i].occupancy.pot < out.value[j].occupancy.pot)
  {
    tToH, sources := map[], map[];
    if machine !in machines { return Err(Assignments.NotFound), tToH, sources; }
    var probeT := machines[machine].probeT;
    var t2h := BuildTToH(rows, machine);
    var srcs := LatestHGeomSource(machine, s.log);
    tToH, sources := t2h, srcs;
    var list := EntriesInOrder(s.mirror, probeT, t2h, srcs);
    out := Ok(list);
  }

  method EntriesInOrder(s: Mirror, probeT: Option<nat>, tToH: map<nat, nat>, sources: map<nat, Option<Source>>)
    returns (list: seq<PotOut>)
    ensures |list| == |s.pots|
    ensures forall i | 0 <= i < |list| :: IsEntry(list[i], s, probeT, tToH, sources)
    ensures forall i, j | 0 <= i < j < |list| :: list[i].occupancy.pot < list[j].occupancy.pot
  {
    var order := SortedMembers(s.pots.Keys);
    list := [];
    for k := 0 to |order|
      invariant |list| == k
      invariant forall i | 0 <= i < k :: list[i].occupancy.pot == order[i] && IsEntry(list[i], s, probeT, tToH, sources)
    {
      assert order[k] in s.pots;
      list := list + [PotEntry(s, probeT, tToH, sources, order[k])];
    }
  }

  // ---------------------------------------------------------------- what a verdict means

  /** The active assignments give each tool number one register and each register one tool number. */
  lemma AssignmentsAreOneToOne(reg: Assignments.Registry, machine: nat, tToH: map<nat, nat>, t: nat, u: nat)
    requires Assignments.Sound(reg) && IsTToH(tToH, reg.rows, machine)
    requires t in tToH && u in tToH
    ensures tToH[t] == tToH[u] ==> t == u
    ensures forall id, h | ActiveOn(reg.rows, id, machine, t, h) :: h == tToH[t]
  {
    var a :| ActiveOn(reg.rows, a, machine, t, tToH[t]);
    var b :| ActiveOn(reg.rows, b, machine, u, tToH[u]);
    assert Assignments.Holds(reg.rows, a, machine, Assignments.HColumn, Some(tToH[t]));
    assert Assignments.Holds(reg.rows, b, machine, Assignments.HColumn, Some(tToH[u]));
    assert Assignments.Holds(reg.rows, a, machine, Assignments.TColumn, Some(t));
    forall id, h | ActiveOn(reg.rows, id, machine, t, h) ensures h == tToH[t] {
      assert Assignments.Holds(reg.rows, id, machine, Assignments.TColumn, Some(t));
    }
  }

  /** The evidence behind a verified pot: which assignment, which log row, which poll. */
  ghost predicate Measured(machine: nat, run: seq<Entry>, offset: int, h: nat, row: AuditRow, i: nat) {
    var s, key := Replayed(machine, run), OffsetKey(h, HGeom);
    && WrittenBy(run, i, row)
    && OffsetEvent(machine, row) == Latest(History(s.log, OffsetEvents(machine)), key)
    && OffsetEvent(machine, row).Some? && OffsetEvent(machine, row).value.after == offset
    && OffsetEvent(machine, row).value.before.Some?
    && PresetterFired(run[..i], run[i].snapshot)
  }

  /** An active assignment maps the tool to the register, and no active one maps another tool to it. */
  ghost predicate OnlyMapping(reg: Assignments.Registry, machine: nat, t: nat, h: nat) {
    && (exists id :: ActiveOn(reg.rows, id, machine, t, h))
    && (forall id, u | ActiveOn(reg.rows, id, machine, u, h) :: u == t)
  }

  lemma MappingIsOnly(reg: Assignments.Registry, machine: nat, tToH: map<nat, nat>, t: nat)
    requires Assignments.Sound(reg) && IsTToH(tToH, reg.rows, machine) && t in tToH
    ensures OnlyMapping(reg, machine, t, tToH[t])
  {
    var id :| ActiveOn(reg.rows, id, machine, t, tToH[t]);
    forall id', u | ActiveOn(reg.rows, id', machine, u, tToH[t]) ensures u == t {
      assert Assignments.Holds(reg.rows, id, machine, Assignments.HColumn, Some(tToH[t]));
      assert Assignments.Holds(reg.rows, id', machine, Assignments.HColumn, Some(tToH[t]));
    }
  }

  /** An active assignment maps the tool to the register and no other tool to it; the register's mirrored
      length is the non-zero `offset`; its latest change wrote that value over an earlier one; and in the
      poll that saw it a skip variable had been seen to move, in that cycle or at its own last
      observation. */
  ghost predicate Justified(machine: nat, run: seq<Entry>, reg: Assignments.Registry, t: nat, h: nat, offset: int) {
    var s := Replayed(machine, run);
    && OnlyMapping(reg, machine, t, h)
    && OffsetKey(h, HGeom) in s.mirror.offsets
    && s.mirror.offsets[OffsetKey(h, HGeom)].value == offset != 0
    && exists k: nat, i: nat :: k < |s.log| && Measured(machine, run, offset, h, s.log[k], i)
  }

  /** In every reachable state a pot is shown loaded and verified exactly when its tool is not the probe
      and is justified end to end; and then by the register and the length shown. */
  lemma VerifiedMeansMeasured(machine: nat, run: seq<Entry>, reg: Assignments.Registry,
                              probeT: Option<nat>, tToH: map<nat, nat>, sources: map<nat, Option<Source>>, pot: nat)
    requires Legal(machine, run) && Assignments.Sound(reg)
    requires IsTToH(tToH, reg.rows, machine) && IsSources(sources, machine, Replayed(machine, run).log)
    requires pot in Replayed(machine, run).mirror.pots
    ensures var s := Replayed(machine, run);
            var t, o := s.mirror.pots[pot].value, PotEntry(s.mirror, probeT, tToH, sources, pot).occupancy;
            && (o.state.Loaded? && o.verified <==>
                t.Some? && t != probeT && exists h: nat, v: int :: Justified(machine, run, reg, t.value, h, v))
            && (o.state.Loaded? && o.verified ==>
                  && o.t == t && o.h.Some? && o.offset.Some?
                  && Justified(machine, run, reg, t.value, o.h.value, o.offset.value))
  {
    hide Replayed, Measured, IsSources, Legal, OnlyMapping, PotEntry, IsTToH;
    var s := Replayed(machine, run);
    var t, o := s.mirror.pots[pot].value, PotEntry(s.mirror, probeT, tToH, sources, pot).occupancy;
    VerifiedEntryIff(s.mirror, probeT, tToH, sources, pot);
    if o.state.Loaded? && o.verified {
      MappingIsOnly(reg, machine, tToH, t.value);
      var k, i := TagHasEvidence(machine, run, sources, o.h.value);
      assert Justified(machine, run, reg, t.value, o.h.value, o.offset.value);
    }
    if h: nat, v: int :| t.Some? && t != probeT && Justified(machine, run, reg, t.value, h, v) {
      OnlyMappingMaps(reg, machine, tToH, t.value, h);
      var k: nat, i: nat :| k < |s.log| && Measured(machine, run, v, h, s.log[k], i);
      EvidenceGivesTag(machine, run, sources, h, v, k, i);
    }
  }

  lemma OnlyMappingMaps(reg: Assignments.Registry, machine: nat, tToH: map<nat, nat>, t: nat, h: nat)
    requires Assignments.Sound(reg) && IsTToH(tToH, reg.rows, machine) && OnlyMapping(reg, machine, t, h)
    ensures t in tToH && tToH[t] == h
  {
    var id :| ActiveOn(reg.rows, id, machine, t, h);
    AssignmentsAreOneToOne(reg, machine, tToH, t, t);
  }

  /** What a loaded and verified entry is computed from. */
  lemma VerifiedEntryIff(
    s: Mirror, probeT: Option<nat>, tToH: map<nat, nat>, sources: map<nat, Option<Source>>, pot: nat)
    requires pot in s.pots
    ensures var t, o := s.pots[pot].value, PotEntry(s, probeT, tToH, sources, pot).occupancy;
            && (o.state.Loaded? && o.verified <==>
                && t.Some? && t != probeT && t.value in tToH
                && OffsetKey(tToH[t.value], HGeom) in s.offsets
                && s.offsets[OffsetKey(tToH[t.value], HGeom)].value != 0
                && tToH[t.value] in sources && sources[tToH[t.value]] == Some(PresetterVerified))
            && (o.state.Loaded? ==>
                && t.Some? && t.value in tToH && o.t == t && o.h == Some(tToH[t.value])
                && OffsetKey(tToH[t.value], HGeom) in s.offsets
                && o.offset == Some(s.offsets[OffsetKey(tToH[t.value], HGeom)].value))
  {
  }

  /** A presetter tag in the lookup leads to the row and the poll behind it. */
  lemma TagHasEvidence(machine: nat, run: seq<Entry>, sources: map<nat, Option<Source>>, h: nat)
    returns (k: nat, i: nat)
    requires Legal(machine, run) && IsSources(sources, machine, Replayed(machine, run).log)
    requires h in sources && sources[h] == Some(PresetterVerified)
    ensures var s, key := Replayed(machine, run), OffsetKey(h, HGeom);
            && key in s.mirror.offsets && k < |s.log|
            && Measured(machine, run, s.mirror.offsets[key].value, h, s.log[k], i)
  {
    k := SourceIsLatestTag(machine, run, sources, h);
    i := TagHasPoll(machine, run, k);
  }

  /** And the evidence leads to the tag. */
  lemma EvidenceGivesTag(
    machine: nat, run: seq<Entry>, sources: map<nat, Option<Source>>, h: nat, offset: int, k: nat, i: nat)
    requires Legal(machine, run) && IsSources(sources, machine, Replayed(machine, run).log)
    requires k < |Replayed(machine, run).log| && Measured(machine, run, offset, h, Replayed(machine, run).log[k], i)
    ensures h in sources && sources[h] == Some(PresetterVerified)
  {
    var log, key := Replayed(machine, run).log, OffsetKey(h, HGeom);
    OffsetStamp(machine, run, key);
    var newest := SourceIsLatestTag(machine, run, sources, h);
    LatestIsOfKey(History(log, OffsetEvents(machine)), key);
    EveryOffsetRowTaggedRight(machine, run);
    hide Replayed, History, Latest, IsSources, PresetterFired;
    SameEventSameTag(machine, run, log[k], log[newest], key, i);
  }

  lemma {:induction false} LatestIsOfKey<K, V>(h: seq<Change<K, V>>, k: K)
    ensures Latest(h, k).Some? ==> Latest(h, k).value.key == k
  {
    if h != [] { LatestIsOfKey(h[..|h| - 1], k); }
  }

  /** Rows of one event come from one poll, which decides their tag. */
  lemma SameEventSameTag(machine: nat, run: seq<Entry>, row: AuditRow, other: AuditRow, key: OffsetKey, i: nat)
    requires Chronological(run) && WrittenBy(run, i, row) && PresetterFired(run[..i], run[i].snapshot)
    requires OffsetEvent(machine, row) == OffsetEvent(machine, other)
    requires OffsetEvent(machine, row).Some? && OffsetEvent(machine, row).value.key == key && key.bank.HGeom?
    requires OffsetEvent(machine, row).value.before.Some? && TaggedRight(machine, run, other)
    ensures TagOf(other) == Some(PresetterVerified)
  {
    var j: nat :| WrittenBy(run, j, other) && TagOf(other) == DueTag(run, j, other);
    hide PresetterFired;
    assert row.occurredAt == other.occurredAt;
    assert i == j;
  }

  lemma TagHasPoll(machine: nat, run: seq<Entry>, k: nat) returns (i: nat)
    requires Legal(machine, run) && k < |Replayed(machine, run).log|
    requires OffsetRowOf(machine, Replayed(machine, run).log[k])
    requires TagOf(Replayed(machine, run).log[k]) == Some(PresetterVerified)
    ensures var row := Replayed(machine, run).log[k];
            WrittenBy(run, i, row) && row.before.Some? && PresetterFired(run[..i], run[i].snapshot)
  {
    var row := Replayed(machine, run).log[k];
    EveryOffsetRowTaggedRight(machine, run);
    assert TaggedRight(machine, run, row);
    i :| WrittenBy(run, i, row) && TagOf(row) == DueTag(run, i, row);
  }

  /** What an entry shows besides its verdict: the pot's tool and times as mirrored; the register the tool is
      assigned to and that register's mirrored length, but neither for the probe; and where the tool is when
      the status row names it, in the spindle rather than next. */
  lemma EntryShows(s: Mirror, probeT: Option<nat>, tToH: map<nat, nat>, sources: map<nat, Option<Source>>, pot: nat)
    requires pot in s.pots
    ensures var e, t := PotEntry(s, probeT, tToH, sources, pot), s.pots[pot].value;
            var o := e.occupancy;
            var shown := t.Some? && t != probeT && t.value in tToH;
            && o.pot == pot && o.t == t && e.polledAt == s.pots[pot].polledAt && e.changedAt == s.pots[pot].changedAt
            && o.h == (if shown then Some(tToH[t.value]) else None)
            && (o.offset.Some? <==> shown && OffsetKey(tToH[t.value], HGeom) in s.offsets)
            && (o.offset.Some? ==> o.offset.value == s.offsets[OffsetKey(tToH[t.value], HGeom)].value)
            && (e.location == Some(Spindle) <==>
                t.Some? && s.status.Some? && s.status.value.status.currentT == t)
            && (e.location == Some(Next) <==>
                t.Some? && s.status.Some? && s.status.value.status.currentT != t && s.status.value.status.nextT == t)
  {
  }

  /** The four verdicts, as conditions a reader can check. */
  lemma VerdictIff(s: Mirror, probeT: Option<nat>, tToH: map<nat, nat>, sources: map<nat, Option<Source>>, pot: nat)
    requires pot in s.pots
    ensures var t := s.pots[pot].value;
            var o := PotEntry(s, probeT, tToH, sources, pot).occupancy;
            var mapped := t.Some? && t.value in tToH;
            var length := if mapped then Get(s.offsets, OffsetKey(tToH[t.value], HGeom)) else None;
            var present := length.Some? && length.value.value != 0;
            && (o.state == Probe <==> t.Some? && t == probeT)
            && (o.state == Loaded <==> present && t != probeT)
            && (o.state == Unverified <==> t.Some? && !mapped && t != probeT && t != Some(pot))
            && (o.state == Empty <==> t.None? || (t != probeT && if mapped then !present else t == Some(pot)))
            && (o.verified <==> o.state == Loaded && Get(sources, tToH[t.value]) == Some(Some(PresetterVerified)))
  {
  }
}
