/**
 The two readers of the offset history: `machines.offset_changes` and the source lookup of
 `occupancy.py`.  Both reduce the log with `DISTINCT ON (entity_id) ... ORDER BY occurred_at DESC,
 id DESC` and take the entity's text apart again.
 */
module OffsetViews {
  import opened Wrappers
  import opened DecimalText
  import opened KeyedLedger
  import opened FocasModels
  import opened SnapshotStore
  import opened SnapshotHistory
  import opened PresetterHistory

  // ---------------------------------------------------------------- entity text

  function BankText(b: RegisterType): string {
    match b
    case HGeom => "h_geom" case HWear => "h_wear" case DGeom => "d_geom" case DWear => "d_wear"
    case XGeom => "x_geom" case XWear => "x_wear" case ZGeom => "z_geom" case ZWear => "z_wear"
    case RGeom => "r_geom" case RWear => "r_wear" case Tip => "tip"
  }

  lemma BankTextInjective(a: RegisterType, b: RegisterType)
    requires BankText(a) == BankText(b)
    ensures a == b
  {
    assert BankText(a)[0] == BankText(b)[0];
    assert BankText(a)[|BankText(a)| - 1] == BankText(b)[|BankText(b)| - 1];
  }

  function OffsetId(k: OffsetKey): string {
    NatText(k.register) + ['/'] + BankText(k.bank)
  }

  /** `audit_log.entity_id`; the text of entities other than offsets is never taken apart here. */
  function EntityId(e: Entity): string {
    match e
    case OffsetEntity(k) => OffsetId(k)
    case OtherEntity(_, id) => id
    case PotEntity(n) => NatText(n)
    case MacroEntity(n) => NatText(n)
    case ToolLifeEntity(n) => NatText(n)
    case WorkOffsetEntity(_) => ""
    case MachineEntity(_) => ""
  }

  predicate IsOffsetEntity(e: Entity) {
    e.OffsetEntity? || (e.OtherEntity? && e.kind == "offset")
  }

  /** Splitting an offset's text gives back its register and its bank. */
  lemma OffsetIdSplits(k: OffsetKey)
    ensures Partition(OffsetId(k), '/') == (NatText(k.register), true, BankText(k.bank))
    ensures AllDigits(NatText(k.register)) && NatText(k.register) != []
    ensures NatValue(NatText(k.register)) == k.register
  {
    NatTextReads(k.register);
    assert '/' !in NatText(k.register);
    PartitionAt(NatText(k.register), '/', BankText(k.bank));
  }

  lemma OffsetIdInjective(a: OffsetKey, b: OffsetKey)
    requires OffsetId(a) == OffsetId(b)
    ensures a == b
  {
    OffsetIdSplits(a);
    OffsetIdSplits(b);
    BankTextInjective(a.bank, b.bank);
  }

  /** `LIKE '%/h_geom'`, where `_` stands for any one character. */
  predicate LikeHGeom(id: string) {
    |id| >= 7 && var tail := id[|id| - 7..]; tail[..2] == "/h" && tail[3..] == "geom"
  }

  lemma LikeTail(a: string, t: string)
    requires |t| == 6
    ensures LikeHGeom(a + ['/'] + t) <==> t[0] == 'h' && t[2..] == "geom"
  {
    var id := a + ['/'] + t;
    var tail := id[|id| - 7..];
    assert tail == ['/'] + t && tail[3..] == t[2..];
    assert tail[..2] == ['/', t[0]];
    assert (['/', t[0]] == "/h") <==> t[0] == 'h';
  }

  lemma LikeHGeomIff(k: OffsetKey)
    ensures LikeHGeom(OffsetId(k)) <==> k.bank.HGeom?
  {
    hide NatText;
    var id, t := OffsetId(k), BankText(k.bank);
    if k.bank.Tip? {
      assert id[|id| - 1] == 'p';
      if |id| >= 7 { assert id[|id| - 7..][3..][3] == 'p'; }
    } else {
      LikeTail(NatText(k.register), t);
      assert t[2..][0] == t[2];
      if k.bank.HGeom? { assert t[2..] == "geom"; }
    }
  }

  // ---------------------------------------------------------------- DISTINCT ON

  predicate Concerns(row: AuditRow, keep: AuditRow -> bool, id: string) {
    keep(row) && EntityId(row.entity) == id
  }

  /** Among the kept rows of an entity text, the index of the one that comes first in descending
      `(occurred_at, id)`; the row id grows with the index. */
  function NewestIndex(log: seq<AuditRow>, keep: AuditRow -> bool, id: string): (i: Option<nat>)
    ensures i.Some? ==> i.value < |log| && Concerns(log[i.value], keep, id)
  {
    if log == [] then None else
    var n := |log| - 1;
    var prior := NewestIndex(log[..n], keep, id);
    if Concerns(log[n], keep, id) && (prior.None? || log[prior.value].occurredAt <= log[n].occurredAt)
    then Some(n) else prior
  }

  /** Row `j` comes no earlier than row `i` in descending `(occurred_at, id)`. */
  predicate NotNewer(log: seq<AuditRow>, j: nat, i: nat)
    requires i < |log| && j < |log|
  {
    log[j].occurredAt < log[i].occurredAt || (log[j].occurredAt == log[i].occurredAt && j <= i)
  }

  lemma {:induction false} NewestIndexIsNewest(log: seq<AuditRow>, keep: AuditRow -> bool, id: string, j: nat)
    requires j < |log| && Concerns(log[j], keep, id)
    ensures NewestIndex(log, keep, id).Some? && NotNewer(log, j, NewestIndex(log, keep, id).value)
  {
    var n := |log| - 1;
    if j < n {
      assert log[..n][j] == log[j];
      NewestIndexIsNewest(log[..n], keep, id, j);
    }
  }

  /** `SELECT DISTINCT ON (entity_id)`: every entity text with a kept row, with its newest. */
  function DistinctOn(log: seq<AuditRow>, keep: AuditRow -> bool): (m: map<string, nat>)
    ensures forall id | id in m :: NewestIndex(log, keep, id) == Some(m[id])
    ensures forall id | id in m :: m[id] < |log| && Concerns(log[m[id]], keep, id)
  {
    map id | id in (set i | 0 <= i < |log| && NewestIndex(log, keep, EntityId(log[i].entity)).Some?
                    :: EntityId(log[i].entity))
      :: NewestIndex(log, keep, id).value
  }

  lemma DistinctOnCovers(log: seq<AuditRow>, keep: AuditRow -> bool, i: nat)
    requires i < |log| && keep(log[i])
    ensures EntityId(log[i].entity) in DistinctOn(log, keep)
  {
    NewestIndexIsNewest(log, keep, EntityId(log[i].entity), i);
  }

  // ---------------------------------------------------------------- machines.offset_changes

  predicate ChangeRow(machine: int, row: AuditRow) {
    row.machine == machine && row.event.OffsetChange? && IsOffsetEntity(row.entity) && row.success
  }

  function ChangeRows(machine: int): AuditRow -> bool { r => ChangeRow(machine, r) }

  datatype OffsetChangeOut = OffsetChangeOut(
    register: nat, bank: string, changedAt: int, oldValue: Option<int>, newValue: Option<int>, source: Option<Source>)

  function MmOf(p: Option<Payload>): Option<int> {
    if p.Some? && p.value.OffsetValue? then Some(p.value.mm) else None
  }

  /** `register.isdigit()` and a non-empty bank. */
  predicate ShapedId(id: string) {
    var (register, _, bank) := Partition(id, '/');
    register != [] && AllDigits(register) && bank != []
  }

  /** A digit string, a slash and something. */
  ghost predicate ShapedParts(id: string, register: string, bank: string) {
    register != "" && AllDigits(register) && bank != "" && id == register + ['/'] + bank
  }

  lemma {:induction false} PartitionJoins(s: string, sep: char)
    ensures var (a, found, b) := Partition(s, sep);
            sep !in a && s == a + (if found then [sep] + b else []) && (!found ==> b == [])
  {
    if s != [] && s[0] != sep {
      PartitionJoins(s[1..], sep);
      assert s == [s[0]] + s[1..];
    }
  }

  /** Texts of any other shape are left out of the listing. */
  lemma ShapedIff(id: string)
    ensures ShapedId(id) <==> exists register, bank :: ShapedParts(id, register, bank)
  {
    PartitionJoins(id, '/');
    if ShapedId(id) {
      var (register, _, bank) := Partition(id, '/');
      assert ShapedParts(id, register, bank);
    }
    if register, bank :| ShapedParts(id, register, bank) {
      PartitionAt(register, '/', bank);
    }
  }

  /** A successful change of an offset of this machine, whoever wrote the row. */
  ghost predicate Genuine(machine: int, row: AuditRow) {
    && row.machine == machine && row.event == OffsetChange && row.success
    && match row.entity case OffsetEntity(_) => true case OtherEntity(kind, _) => kind == "offset" case _ => false
  }

  /** The listing takes, for each text such a row has, the newest: the latest, and of those the one written
      last. */
  lemma ListedAreNewest(machine: int, log: seq<AuditRow>, j: nat)
    requires j < |log| && Genuine(machine, log[j])
    ensures var m, id := DistinctOn(log, ChangeRows(machine)), EntityId(log[j].entity);
            && id in m && m[id] < |log| && Genuine(machine, log[m[id]]) && EntityId(log[m[id]].entity) == id
            && (log[j].occurredAt < log[m[id]].occurredAt
                || (log[j].occurredAt == log[m[id]].occurredAt && j <= m[id]))
  {
    DistinctOnCovers(log, ChangeRows(machine), j);
    NewestIndexIsNewest(log, ChangeRows(machine), EntityId(log[j].entity), j);
  }

  lemma ListedAreGenuine(machine: int, log: seq<AuditRow>, id: string)
    requires id in DistinctOn(log, ChangeRows(machine))
    ensures var i := DistinctOn(log, ChangeRows(machine))[id];
            i < |log| && Genuine(machine, log[i]) && EntityId(log[i].entity) == id
  {
  }

  function OutOf(id: string, row: AuditRow): OffsetChangeOut
    requires ShapedId(id)
  {
    var (register, _, bank) := Partition(id, '/');
    OffsetChangeOut(NatValue(register), bank, row.occurredAt, MmOf(row.before), MmOf(row.after), TagOf(row))
  }

  /** Python's order on strings. */
  predicate TextLE(a: string, b: string) {
    a == [] || (b != [] && (a[0] < b[0] || (a[0] == b[0] && TextLE(a[1..], b[1..]))))
  }

  lemma {:induction false} TextTotal(a: string, b: string)
    ensures TextLE(a, b) || TextLE(b, a)
  {
    if a != [] && b != [] && a[0] == b[0] { TextTotal(a[1..], b[1..]); }
  }

  lemma {:induction false} TextTransitive(a: string, b: string, c: string)
    requires TextLE(a, b) && TextLE(b, c)
    ensures TextLE(a, c)
  {
    if a != [] && a[0] == b[0] == c[0] { TextTransitive(a[1..], b[1..], c[1..]); }
  }

  predicate OutLE(a: OffsetChangeOut, b: OffsetChangeOut) {
    a.register < b.register || (a.register == b.register && TextLE(a.bank, b.bank))
  }

  lemma OutTransitive(a: OffsetChangeOut, b: OffsetChangeOut, c: OffsetChangeOut)
    requires OutLE(a, b) && OutLE(b, c)
    ensures OutLE(a, c)
  {
    if a.register == b.register == c.register { TextTransitive(a.bank, b.bank, c.bank); }
  }

  ghost predicate OutSorted(s: seq<OffsetChangeOut>) {
    forall i, j | 0 <= i < j < |s| :: OutLE(s[i], s[j])
  }

  lemma InsertedSorted(s: seq<OffsetChangeOut>, x: OffsetChangeOut, k: nat)
    requires OutSorted(s) && k <= |s|
    requires forall i | 0 <= i < k :: OutLE(s[i], x)
    requires forall j | k <= j < |s| :: OutLE(x, s[j])
    ensures OutSorted(s[..k] + [x] + s[k..])
  {
    hide OutLE;
  }

  lemma AllBelow(s: seq<OffsetChangeOut>, x: OffsetChangeOut, k: nat)
    requires OutSorted(s) && k <= |s| && (k == 0 || OutLE(s[k - 1], x))
    ensures forall i | 0 <= i < k :: OutLE(s[i], x)
  {
    forall i | 0 <= i < k ensures OutLE(s[i], x) {
      if i < k - 1 { OutTransitive(s[i], s[k - 1], x); }
    }
  }

  lemma OutTotal(a: OffsetChangeOut, b: OffsetChangeOut)
    ensures OutLE(a, b) || OutLE(b, a)
  {
    TextTotal(a.bank, b.bank);
  }

  /** One step of the in-place sort: put `x` where it belongs. */
  method InsertOut(s: seq<OffsetChangeOut>, x: OffsetChangeOut) returns (r: seq<OffsetChangeOut>)
    requires OutSorted(s)
    ensures OutSorted(r) && |r| == |s| + 1
    ensures forall e :: e in r <==> e in s || e == x
  {
    hide OutLE, OutSorted;
    var k := |s|;
    while k > 0 && !OutLE(s[k - 1], x)
      invariant 0 <= k <= |s|
      invariant forall j | k <= j < |s| :: OutLE(x, s[j])
    {
      OutTotal(s[k - 1], x);
      k := k - 1;
    }
    AllBelow(s, x, k);
    InsertedSorted(s, x, k);
    r := s[..k] + [x] + s[k..];
    assert s == s[..k] + s[k..];
  }

  /** The chosen rows whose text has the shape of an offset's. */
  ghost function ShapedIds(rows: map<string, nat>): set<string> {
    set id | id in rows && ShapedId(id)
  }

  /** `out` lists exactly the entries of `ids`, in order. */
  ghost predicate Lists(out: seq<OffsetChangeOut>, log: seq<AuditRow>, rows: map<string, nat>, ids: set<string>)
    requires forall id | id in ids :: id in rows && rows[id] < |log| && ShapedId(id)
  {
    && OutSorted(out) && |out| == |ids|
    && forall e :: e in out <==> exists id :: id in ids && e == OutOf(id, log[rows[id]])
  }

  lemma ListsOneMore(out: seq<OffsetChangeOut>, out': seq<OffsetChangeOut>, log: seq<AuditRow>,
                     rows: map<string, nat>, ids: set<string>, id: string)
    requires forall i | i in ids + {id} :: i in rows && rows[i] < |log| && ShapedId(i)
    requires id !in ids && Lists(out, log, rows, ids)
    requires OutSorted(out') && |out'| == |out| + 1
    requires forall e :: e in out' <==> e in out || e == OutOf(id, log[rows[id]])
    ensures Lists(out', log, rows, ids + {id})
  {
    forall e ensures e in out' <==> exists i :: i in ids + {id} && e == OutOf(i, log[rows[i]]) {
      if e in out {
        var i :| i in ids && e == OutOf(i, log[rows[i]]);
        assert i in ids + {id};
      } else if e in out' {
        assert id in ids + {id};
      }
    }
  }

  /** The loop over the rows the query returned: skip foreign-shaped texts, collect, sort. */
  method ListRows(log: seq<AuditRow>, rows: map<string, nat>) returns (out: seq<OffsetChangeOut>)
    requires forall id | id in rows :: rows[id] < |log|
    ensures Lists(out, log, rows, ShapedIds(rows))
  {
    out := [];
    var left := rows.Keys;
    ghost var done: set<string> := {};
    while left != {}
      invariant left <= rows.Keys && done == ShapedIds(rows) - left
      invariant Lists(out, log, rows, done)
      decreases left
    {
      var id :| id in left;
      left := left - {id};
      if ShapedId(id) {
        var out' := InsertOut(out, OutOf(id, log[rows[id]]));
        ListsOneMore(out, out', log, rows, done, id);
        out, done := out', done + {id};
      }
    }
  }

  datatype ViewError = MachineNotFound

  /** The latest change per offset, ordered by register and bank. */
  method OffsetChanges(machine: int, machines: set<int>, log: seq<AuditRow>)
    returns (out: Result<seq<OffsetChangeOut>, ViewError>)
    ensures out.Err? <==> machine !in machines
    ensures var rows := DistinctOn(log, ChangeRows(machine)); out.Ok? ==> Lists(out.value, log, rows, ShapedIds(rows))
  {
    if machine !in machines { return Err(MachineNotFound); }
    var listed := ListRows(log, DistinctOn(log, ChangeRows(machine)));
    out := Ok(listed);
  }

  // ---------------------------------------------------------------- the views in every reachable state

  /** The row records a change of this offset. */
  predicate IsEventOf(machine: int, row: AuditRow, key: OffsetKey) {
    OffsetEvent(machine, row).Some? && OffsetEvent(machine, row).value.key == key
  }

  /** The last row of the log that records a change of the offset is its latest event. */
  lemma {:induction false} LatestEventIsLastRow(machine: int, log: seq<AuditRow>, key: OffsetKey, i: nat)
    requires i < |log| && IsEventOf(machine, log[i], key)
    requires forall j | i < j < |log| :: !IsEventOf(machine, log[j], key)
    ensures Latest(History(log, OffsetEvents(machine)), key) == OffsetEvent(machine, log[i])
  {
    var n := |log| - 1;
    var most := log[..n];
    assert forall j | 0 <= j < n :: most[j] == log[j];
    var h := History(most, OffsetEvents(machine));
    var e := OffsetEvent(machine, log[n]);
    if e.Some? {
      assert History(log, OffsetEvents(machine)) == h + [e.value];
      assert (h + [e.value])[..|h|] == h;
    } else {
      assert History(log, OffsetEvents(machine)) == h;
    }
    if i < n {
      LatestEventIsLastRow(machine, most, key, i);
      assert !IsEventOf(machine, log[n], key);
    }
  }

  lemma {:induction false} NoEventNoLatest(machine: int, log: seq<AuditRow>, key: OffsetKey)
    requires forall j | 0 <= j < |log| :: !IsEventOf(machine, log[j], key)
    ensures Latest(History(log, OffsetEvents(machine)), key) == None
  {
    if log != [] {
      var n := |log| - 1;
      NoEventNoLatest(machine, log[..n], key);
      var h, e := History(log[..n], OffsetEvents(machine)), OffsetEvent(machine, log[n]);
      if e.Some? {
        assert (h + [e.value])[..|h|] == h;
        assert !IsEventOf(machine, log[n], key);
      } else {
        assert History(log, OffsetEvents(machine)) == h;
      }
    }
  }

  ghost predicate OwnTimesOrdered(machine: int, log: seq<AuditRow>) {
    forall i, j | 0 <= i < j < |log| && Own(machine, log[i]) && Own(machine, log[j]) ::
      log[i].occurredAt <= log[j].occurredAt
  }

  ghost predicate AllAt(rows: seq<AuditRow>, at: int) {
    forall i | 0 <= i < |rows| :: rows[i].occurredAt == at
  }

  lemma {:induction false} RenderAt<K, V>(changes: seq<Change<K, V>>, row: Change<K, V> -> AuditRow, at: int)
    requires forall c :: row(c).occurredAt == c.at
    requires forall i | 0 <= i < |changes| :: changes[i].at == at
    ensures AllAt(Render(changes, row), at)
  {
    if changes != [] { RenderAt(changes[..|changes| - 1], row, at); }
  }

  lemma DiffRowsAt<K, V>(current: map<K, V>, readings: seq<Reading<K, V>>, at: int, row: Change<K, V> -> AuditRow)
    requires forall c :: row(c).occurredAt == c.at
    ensures AllAt(Render(Diff(current, readings, at), row), at)
  {
    DiffStamps(current, readings, at);
    RenderAt(Diff(current, readings, at), row, at);
  }

  /** Every row of a poll carries the poll's time. */
  lemma GroupsAt(machine: int, s: Store, snapshot: MachineSnapshot)
    ensures var g, at := GroupsOf(machine, s, snapshot), snapshot.polledAt;
            && AllAt(g.offsets, at) && AllAt(g.pots, at) && AllAt(g.macros, at)
            && AllAt(g.life, at) && AllAt(g.work, at) && AllAt(g.reinit, at)
  {
    var m, at := s.mirror, snapshot.polledAt;
    DiffRowsAt(Values(m.offsets), snapshot.offsets, at, OffsetRows(machine, PresetterActive(machine, s, snapshot)));
    DiffRowsAt(Values(m.pots), snapshot.pots, at, PotRows(machine));
    DiffRowsAt(Values(m.macros), snapshot.macros, at, MacroRows(machine));
    DiffRowsAt(ToolLifeValues(m.toolLife), snapshot.toolLife, at, ToolLifeRows(machine));
    DiffRowsAt(Values(m.workOffsets), snapshot.workOffsets, at, WorkOffsetRows(machine));
    assert AllAt(ReinitRows(machine, Sorted(Reverted(Values(m.pots), snapshot.pots)), at), at);
    hide AllAt, Render, Diff, Values, ToolLifeValues, Sorted, Reverted, ReinitRows, PresetterActive;
  }

  lemma ConcatAt(a: seq<AuditRow>, b: seq<AuditRow>, at: int)
    requires AllAt(a, at) && AllAt(b, at)
    ensures AllAt(a + b, at)
  {
  }

  lemma NewRowsAt(machine: int, s: Store, snapshot: MachineSnapshot)
    ensures AllAt(NewRows(machine, s, snapshot), snapshot.polledAt)
  {
    hide AllAt, NewRows, GroupsOf, Typed;
    var g, at := GroupsOf(machine, s, snapshot), snapshot.polledAt;
    GroupsTyped(machine, s, snapshot);
    GroupsAt(machine, s, snapshot);
    ConcatAt(g.offsets, g.pots, at);
    ConcatAt(g.offsets + g.pots, g.macros, at);
    ConcatAt(g.offsets + g.pots + g.macros, g.life, at);
    ConcatAt(g.offsets + g.pots + g.macros + g.life, g.work, at);
    ConcatAt(g.offsets + g.pots + g.macros + g.life + g.work, g.reinit, at);
  }

  ghost predicate OwnUntil(machine: int, log: seq<AuditRow>, now: int) {
    forall i | 0 <= i < |log| && Own(machine, log[i]) :: log[i].occurredAt <= now
  }

  lemma OrderedConcat(machine: int, a: seq<AuditRow>, b: seq<AuditRow>, at: int, now: int)
    requires OwnTimesOrdered(machine, a) && OwnUntil(machine, a, at) && AllAt(b, at) && at <= now
    ensures OwnTimesOrdered(machine, a + b) && OwnUntil(machine, a + b, now)
  {
  }

  /** Own rows come in order of time, and none is later than the last poll. */
  lemma {:induction false} OwnRowsOrdered(machine: int, run: seq<Entry>, now: int)
    requires Legal(machine, run)
    requires forall i | 0 <= i < |run| && run[i].Poll? :: run[i].snapshot.polledAt <= now
    ensures OwnTimesOrdered(machine, Replayed(machine, run).log)
    ensures OwnUntil(machine, Replayed(machine, run).log, now)
  {
    if run != [] {
      var most, e := run[..|run| - 1], run[|run| - 1];
      LegalPrefix(machine, run);
      assert forall i | 0 <= i < |most| :: most[i] == run[i];
      assert run[|run| - 1] == e;
      if e.Poll? {
        var s, at := Replayed(machine, most), e.snapshot.polledAt;
        assert Replayed(machine, run).log == s.log + NewRows(machine, s, e.snapshot);
        assert at <= now && forall i | 0 <= i < |most| && most[i].Poll? :: most[i].snapshot.polledAt <= at;
        hide Replayed, NewRows, OwnTimesOrdered, OwnUntil, AllAt;
        OwnRowsOrdered(machine, most, at);
        NewRowsAt(machine, s, e.snapshot);
        OrderedConcat(machine, s.log, NewRows(machine, s, e.snapshot), at, now);
      } else {
        OwnRowsOrdered(machine, most, now);
        assert Replayed(machine, run).log == Replayed(machine, most).log + [e.row] && !Own(machine, e.row);
        hide Replayed, Legal;
      }
    }
  }

  lemma {:induction false} SomeBound(run: seq<Entry>) returns (now: int)
    ensures forall i | 0 <= i < |run| && run[i].Poll? :: run[i].snapshot.polledAt <= now
  {
    now := 0;
    if run != [] {
      var n := |run| - 1;
      now := SomeBound(run[..n]);
      assert forall i | 0 <= i < n :: run[..n][i] == run[i];
      if run[n].Poll? && run[n].snapshot.polledAt > now { now := run[n].snapshot.polledAt; }
    }
  }

  /** `keep` picks out exactly the offset's rows. */
  ghost predicate Picks(machine: int, log: seq<AuditRow>, keep: AuditRow -> bool, key: OffsetKey) {
    forall i | 0 <= i < |log| :: Concerns(log[i], keep, OffsetId(key)) <==> IsEventOf(machine, log[i], key)
  }

  /** The row `DISTINCT ON` returns for an offset is the offset's latest event. */
  lemma NewestIsLatest(machine: int, run: seq<Entry>, keep: AuditRow -> bool, key: OffsetKey)
    requires Legal(machine, run) && Picks(machine, Replayed(machine, run).log, keep, key)
    ensures var log := Replayed(machine, run).log;
            var newest := NewestIndex(log, keep, OffsetId(key));
            Latest(History(log, OffsetEvents(machine)), key) ==
            if newest.None? then None else OffsetEvent(machine, log[newest.value])
  {
    var log, id := Replayed(machine, run).log, OffsetId(key);
    var newest := NewestIndex(log, keep, id);
    var now := SomeBound(run);
    OwnRowsOrdered(machine, run, now);
    if newest.None? {
      forall j | 0 <= j < |log| ensures !IsEventOf(machine, log[j], key) {
        if Concerns(log[j], keep, id) { NewestIndexIsNewest(log, keep, id, j); }
      }
      NoEventNoLatest(machine, log, key);
    } else {
      var i := newest.value;
      assert IsEventOf(machine, log[i], key) && Own(machine, log[i]);
      forall j | i < j < |log| ensures !IsEventOf(machine, log[j], key) {
        if Concerns(log[j], keep, id) {
          NewestIndexIsNewest(log, keep, id, j);
        }
      }
      LatestEventIsLastRow(machine, log, key, i);
    }
  }

  lemma OffsetRowsAreEvents(machine: int, run: seq<Entry>, i: nat)
    requires Legal(machine, run) && i < |Replayed(machine, run).log|
    requires OffsetRowOf(machine, Replayed(machine, run).log[i])
    ensures var row := Replayed(machine, run).log[i];
            OffsetEvent(machine, row).Some? && row.success
              && row.entity == OffsetEntity(OffsetEvent(machine, row).value.key)
  {
    OwnRowsReadable(machine, run);
    assert Own(machine, Replayed(machine, run).log[i]);
  }

  lemma ChangeRowsPick(machine: int, run: seq<Entry>, key: OffsetKey)
    requires Legal(machine, run)
    ensures Picks(machine, Replayed(machine, run).log, ChangeRows(machine), key)
  {
    var log := Replayed(machine, run).log;
    forall i | 0 <= i < |log|
      ensures Concerns(log[i], ChangeRows(machine), OffsetId(key)) <==> IsEventOf(machine, log[i], key)
    {
      if OffsetRowOf(machine, log[i]) {
        OffsetRowsAreEvents(machine, run, i);
        if Concerns(log[i], ChangeRows(machine), OffsetId(key)) { OffsetIdInjective(log[i].entity.offset, key); }
      }
    }
  }

  /** The mirrored offset as the listing shows it. */
  ghost function MirroredEntry(s: Store, machine: int, key: OffsetKey, source: Option<Source>): OffsetChangeOut
    requires key in s.mirror.offsets && Latest(History(s.log, OffsetEvents(machine)), key).Some?
  {
    OffsetChangeOut(key.register, BankText(key.bank), s.mirror.offsets[key].changedAt,
                    Latest(History(s.log, OffsetEvents(machine)), key).value.before,
                    Some(s.mirror.offsets[key].value), source)
  }

  lemma ListedMatchesMirror(machine: int, run: seq<Entry>, key: OffsetKey)
    requires Legal(machine, run)
    ensures var s := Replayed(machine, run);
            var rows := DistinctOn(s.log, ChangeRows(machine));
            && ShapedId(OffsetId(key))
            && (OffsetId(key) in rows <==> key in s.mirror.offsets)
            && (key in s.mirror.offsets ==>
                  && Latest(History(s.log, OffsetEvents(machine)), key).Some?
                  && OutOf(OffsetId(key), s.log[rows[OffsetId(key)]]) ==
                     MirroredEntry(s, machine, key, TagOf(s.log[rows[OffsetId(key)]])))
  {
    hide Replayed, Latest, NewestIndex, DistinctOn, ChangeRows, Legal, History, OutOf, OffsetId, ShapedId, OffsetEvent;
    var s := Replayed(machine, run);
    var rows := DistinctOn(s.log, ChangeRows(machine));
    RowIsLatest(machine, run, key);
    OffsetStamp(machine, run, key);
    IdIsShaped(key);
    if key in s.mirror.offsets { OutOfEvent(machine, key, s.log[rows[OffsetId(key)]]); }
  }

  lemma IdIsShaped(key: OffsetKey)
    ensures ShapedId(OffsetId(key))
  {
    OffsetIdSplits(key);
    hide OffsetId, NatText;
  }

  lemma OutOfEvent(machine: int, key: OffsetKey, row: AuditRow)
    requires OffsetEvent(machine, row).Some?
    ensures ShapedId(OffsetId(key))
    ensures var c := OffsetEvent(machine, row).value;
            OutOf(OffsetId(key), row) ==
              OffsetChangeOut(key.register, BankText(key.bank), c.at, c.before, Some(c.after), TagOf(row))
  {
    OffsetIdSplits(key);
    IdIsShaped(key);
    hide OffsetId, NatText, NatValue, BankText, Partition, ShapedId;
  }

  /** The listed row of an offset is the one that records its latest event. */
  lemma RowIsLatest(machine: int, run: seq<Entry>, key: OffsetKey)
    requires Legal(machine, run)
    ensures var log := Replayed(machine, run).log;
            var rows, latest := DistinctOn(log, ChangeRows(machine)), Latest(History(log, OffsetEvents(machine)), key);
            && (OffsetId(key) in rows <==> latest.Some?)
            && (latest.Some? ==> OffsetEvent(machine, log[rows[OffsetId(key)]]) == latest)
  {
    hide Replayed, Latest, OffsetId, History, Legal;
    ChangeRowsPick(machine, run, key);
    NewestIsLatest(machine, run, ChangeRows(machine), key);
    var log := Replayed(machine, run).log;
    var newest := NewestIndex(log, ChangeRows(machine), OffsetId(key));
    if newest.Some? { DistinctOnCovers(log, ChangeRows(machine), newest.value); }
    hide OffsetEvent;
  }

  ghost function IdsOf(keys: set<OffsetKey>): set<string> {
    set key | key in keys :: OffsetId(key)
  }

  lemma ShapedIdsAreMirrored(machine: int, run: seq<Entry>)
    requires Legal(machine, run)
    ensures var s := Replayed(machine, run);
            ShapedIds(DistinctOn(s.log, ChangeRows(machine))) == IdsOf(s.mirror.offsets.Keys)
  {
    var s := Replayed(machine, run);
    var rows := DistinctOn(s.log, ChangeRows(machine));
    forall id ensures id in ShapedIds(rows) <==> id in IdsOf(s.mirror.offsets.Keys) {
      if id in ShapedIds(rows) {
        assert Concerns(s.log[rows[id]], ChangeRows(machine), id);
        OffsetRowsAreEvents(machine, run, rows[id]);
        ListedMatchesMirror(machine, run, s.log[rows[id]].entity.offset);
      }
      if id in IdsOf(s.mirror.offsets.Keys) {
        var key :| key in s.mirror.offsets && id == OffsetId(key);
        ListedMatchesMirror(machine, run, key);
      }
    }
  }

  ghost predicate ShowsMirrored(machine: int, s: Store, out: seq<OffsetChangeOut>, key: OffsetKey)
    requires key in s.mirror.offsets
  {
    && Latest(History(s.log, OffsetEvents(machine)), key).Some?
    && exists i :: 0 <= i < |out| && out[i] == MirroredEntry(s, machine, key, out[i].source)
  }

  /** In every reachable state the listing has exactly one entry per mirrored offset: its new value is
      the mirrored value, its time the row's `last_changed_at`, its old value the latest event's. */
  lemma OffsetChangesMatchMirror(machine: int, run: seq<Entry>, out: seq<OffsetChangeOut>)
    requires Legal(machine, run)
    requires var log := Replayed(machine, run).log;
             var rows := DistinctOn(log, ChangeRows(machine)); Lists(out, log, rows, ShapedIds(rows))
    ensures var s := Replayed(machine, run);
            && |out| == |s.mirror.offsets|
            && forall key | key in s.mirror.offsets :: ShowsMirrored(machine, s, out, key)
  {
    var s := Replayed(machine, run);
    var rows := DistinctOn(s.log, ChangeRows(machine));
    ShapedIdsAreMirrored(machine, run);
    IdsAreAsMany(s.mirror.offsets.Keys);
    forall key | key in s.mirror.offsets ensures ShowsMirrored(machine, s, out, key) {
      ListedMatchesMirror(machine, run, key);
      var id := OffsetId(key);
      assert id in ShapedIds(rows);
      assert OutOf(id, s.log[rows[id]]) in out;
    }
  }

  lemma {:induction false} IdsAreAsMany(keys: set<OffsetKey>)
    ensures |IdsOf(keys)| == |keys|
    decreases keys
  {
    if keys != {} {
      var k :| k in keys;
      var rest := keys - {k};
      IdsAreAsMany(rest);
      forall key | key in rest ensures OffsetId(key) != OffsetId(k) {
        if OffsetId(key) == OffsetId(k) { OffsetIdInjective(key, k); }
      }
      assert IdsOf(keys) == IdsOf(rest) + {OffsetId(k)};
    }
  }

  // ---------------------------------------------------------------- occupancy's source lookup

  predicate HGeomRow(machine: int, row: AuditRow) {
    row.machine == machine && row.event.OffsetChange? && LikeHGeom(EntityId(row.entity))
  }

  function HGeomRows(machine: int): AuditRow -> bool { r => HGeomRow(machine, r) }

  /** `int(text)` of the register part, when it is digits. */
  function RegisterOf(id: string): Option<nat> {
    var (register, _, _) := Partition(id, '/');
    if register != [] && AllDigits(register) then Some(NatValue(register)) else None
  }

  /** The text is a numeral, or one followed by a slash and anything. */
  ghost predicate StartsWithRegister(id: string, text: string, rest: string) {
    text != "" && AllDigits(text) && (id == text || id == text + ['/'] + rest)
  }

  lemma RegisterIff(id: string)
    ensures RegisterOf(id).Some? <==> exists text, rest :: StartsWithRegister(id, text, rest)
    ensures forall text, rest | StartsWithRegister(id, text, rest) :: RegisterOf(id) == Some(NatValue(text))
  {
    PartitionJoins(id, '/');
    var (register, found, rest) := Partition(id, '/');
    if RegisterOf(id).Some? { assert StartsWithRegister(id, register, rest); }
    forall text, rest | StartsWithRegister(id, text, rest) ensures RegisterOf(id) == Some(NatValue(text)) {
      if id == text { NoPartition(text, '/'); } else { PartitionAt(text, '/', rest); }
    }
  }

  lemma {:induction false} NoPartition(s: string, sep: char)
    requires sep !in s
    ensures Partition(s, sep) == (s, false, [])
  {
    if s != [] {
      NoPartition(s[1..], sep);
      assert s == [s[0]] + s[1..];
    }
  }

  /** `out` holds, under each register, the tag of the newest H-geometry row some text gives it. */
  ghost predicate IsSources(out: map<nat, Option<Source>>, machine: int, log: seq<AuditRow>) {
    var rows := DistinctOn(log, HGeomRows(machine));
    && (forall r | r in out :: exists id :: id in rows && RegisterOf(id) == Some(r) && out[r] == TagOf(log[rows[id]]))
    && (forall id | id in rows && RegisterOf(id).Some? :: RegisterOf(id).value in out)
  }

  /** The source of each register's newest H-geometry change. */
  method LatestHGeomSource(machine: int, log: seq<AuditRow>) returns (out: map<nat, Option<Source>>)
    ensures IsSources(out, machine, log)
  {
    out := CollectSources(log, DistinctOn(log, HGeomRows(machine)));
  }

  method CollectSources(log: seq<AuditRow>, rows: map<string, nat>) returns (out: map<nat, Option<Source>>)
    requires forall id | id in rows :: rows[id] < |log|
    ensures forall r | r in out ::
              exists id :: id in rows && RegisterOf(id) == Some(r) && out[r] == TagOf(log[rows[id]])
    ensures forall id | id in rows && RegisterOf(id).Some? :: RegisterOf(id).value in out
  {
    out := map[];
    var left := rows.Keys;
    while left != {}
      invariant left <= rows.Keys
      invariant forall r | r in out ::
                  exists id :: id in rows && RegisterOf(id) == Some(r) && out[r] == TagOf(log[rows[id]])
      invariant forall id | id in rows && id !in left && RegisterOf(id).Some? :: RegisterOf(id).value in out
      decreases left
    {
      var id :| id in left;
      left := left - {id};
      var register := RegisterOf(id);
      if register.Some? { out := out[register.value := TagOf(log[rows[id]])]; }
    }
  }

  lemma HGeomRowsPick(machine: int, run: seq<Entry>, register: nat)
    requires Legal(machine, run)
    ensures Picks(machine, Replayed(machine, run).log, HGeomRows(machine), OffsetKey(register, HGeom))
  {
    var log, key := Replayed(machine, run).log, OffsetKey(register, HGeom);
    forall i | 0 <= i < |log|
      ensures Concerns(log[i], HGeomRows(machine), OffsetId(key)) <==> IsEventOf(machine, log[i], key)
    {
      if OffsetRowOf(machine, log[i]) {
        OffsetRowsAreEvents(machine, run, i);
        LikeHGeomIff(log[i].entity.offset);
        if Concerns(log[i], HGeomRows(machine), OffsetId(key)) { OffsetIdInjective(log[i].entity.offset, key); }
      }
    }
  }

  /** What the lookup says of a register is the tag of the register's latest H-geometry change, whose
      value is the mirrored one; it knows a register exactly when its H-geometry is mirrored. */
  lemma SourceIsLatestTag(machine: int, run: seq<Entry>, out: map<nat, Option<Source>>, register: nat)
    returns (k: nat)
    requires Legal(machine, run) && IsSources(out, machine, Replayed(machine, run).log)
    ensures var s, key := Replayed(machine, run), OffsetKey(register, HGeom);
            && (register in out <==> key in s.mirror.offsets)
            && (register in out ==>
                  && k < |s.log| && out[register] == TagOf(s.log[k]) && OffsetRowOf(machine, s.log[k])
                  && OffsetEvent(machine, s.log[k]) == Latest(History(s.log, OffsetEvents(machine)), key)
                  && OffsetEvent(machine, s.log[k]).Some?
                  && OffsetEvent(machine, s.log[k]).value.after == s.mirror.offsets[key].value)
  {
    var s, key := Replayed(machine, run), OffsetKey(register, HGeom);
    var log, rows := s.log, DistinctOn(s.log, HGeomRows(machine));
    OffsetStamp(machine, run, key);
    HGeomRowsPick(machine, run, register);
    NewestIsLatest(machine, run, HGeomRows(machine), key);
    OffsetIdSplits(key);
    k := 0;
    if register in out {
      var id :| id in rows && RegisterOf(id) == Some(register) && out[register] == TagOf(log[rows[id]]);
      k := rows[id];
      HGeomTextNames(machine, run, k, register);
    }
    if key in s.mirror.offsets {
      var i := NewestIndex(log, HGeomRows(machine), OffsetId(key)).value;
      DistinctOnCovers(log, HGeomRows(machine), i);
    }
  }

  /** A kept text with this register part is the register's own H-geometry text. */
  lemma HGeomTextNames(machine: int, run: seq<Entry>, i: nat, register: nat)
    requires Legal(machine, run) && i < |Replayed(machine, run).log|
    requires var row := Replayed(machine, run).log[i];
             HGeomRow(machine, row) && RegisterOf(EntityId(row.entity)) == Some(register)
    ensures Replayed(machine, run).log[i].entity == OffsetEntity(OffsetKey(register, HGeom))
  {
    OffsetRowsAreEvents(machine, run, i);
    var k := Replayed(machine, run).log[i].entity.offset;
    OffsetIdSplits(k);
    LikeHGeomIff(k);
  }

  /** The offset row and its latest event, for one offset. */
  lemma OffsetStamp(machine: int, run: seq<Entry>, key: OffsetKey)
    requires Legal(machine, run)
    ensures var s := Replayed(machine, run);
            var latest := Latest(History(s.log, OffsetEvents(machine)), key);
            && (key in s.mirror.offsets <==> latest.Some?)
            && (key in s.mirror.offsets ==>
                  latest.value.after == s.mirror.offsets[key].value
                    && latest.value.at == s.mirror.offsets[key].changedAt)
  {
    hide Replayed, Legal, History, Latest;
    StampsMatchLog(machine, run);
    var r := Replayed(machine, run);
    assert RowStamped(r.mirror.offsets, History(r.log, OffsetEvents(machine)), key);
  }
}
