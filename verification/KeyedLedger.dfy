/**
 One audited mirror domain, independent of what it mirrors.

 The five domains of the poller (offsets, pots, macro variables, tool life, work offsets) are the
 same machine: a table of keyed values, a sweep of readings that overwrites part of it, and a change
 event for each reading that moved a value.  This module states that machine once, over any key and
 value type, and proves what the append-only history of events says about the table.
 */
module KeyedLedger {
  import opened Wrappers

  /** One value read from the control. */
  datatype Reading<K, V> = Reading(key: K, value: V)

  /** All the readings of one poll. */
  datatype Sweep<K, V> = Sweep(at: int, readings: seq<Reading<K, V>>)

  /** A mirrored row. */
  datatype Cell<V> = Cell(value: V, polledAt: int, changedAt: int)

  /** A change event; `before` is absent for the first observation of a key. */
  datatype Change<K, V> = Change(key: K, before: Option<V>, after: V, at: int)

  type Table<K, V> = map<K, Cell<V>>

  // ---------------------------------------------------------------- the diff layer

  /** The reading is not what `current` holds for its key. */
  predicate Moved<K, V(==)>(current: map<K, V>, r: Reading<K, V>) {
    r.key !in current || current[r.key] != r.value
  }

  function Event<K, V>(current: map<K, V>, r: Reading<K, V>, at: int): Change<K, V> {
    Change(r.key, Get(current, r.key), r.value, at)
  }

  /** The change events of one sweep, every reading compared with the state before the sweep. */
  function Diff<K, V(==)>(current: map<K, V>, readings: seq<Reading<K, V>>, at: int): seq<Change<K, V>> {
    if readings == [] then [] else
    var r := readings[|readings| - 1];
    Diff(current, readings[..|readings| - 1], at) + if Moved(current, r) then [Event(current, r, at)] else []
  }

  method DiffReadings<K, V(==)>(current: map<K, V>, readings: seq<Reading<K, V>>, at: int)
    returns (events: seq<Change<K, V>>)
    ensures events == Diff(current, readings, at)
  {
    events := [];
    for i := 0 to |readings|
      invariant events == Diff(current, readings[..i], at)
    {
      assert readings[..i + 1][..i] == readings[..i];
      if Moved(current, readings[i]) {
        events := events + [Event(current, readings[i], at)];
      }
    }
    assert readings[..|readings|] == readings;
  }

  // ---------------------------------------------------------------- the upsert rules

  /** The conflict rule: `changedAt` advances only when the stored value moves. */
  function Upsert<K, V(==)>(t: Table<K, V>, r: Reading<K, V>, at: int): Table<K, V> {
    t[r.key := Cell(r.value, at, if r.key in t && t[r.key].value == r.value then t[r.key].changedAt else at)]
  }

  function UpsertAll<K, V(==)>(t: Table<K, V>, readings: seq<Reading<K, V>>, at: int): Table<K, V> {
    if readings == [] then t else
    Upsert(UpsertAll(t, readings[..|readings| - 1], at), readings[|readings| - 1], at)
  }

  method UpsertReadings<K, V(==)>(t: Table<K, V>, readings: seq<Reading<K, V>>, at: int)
    returns (t': Table<K, V>)
    ensures t' == UpsertAll(t, readings, at)
  {
    t' := t;
    for i := 0 to |readings|
      invariant t' == UpsertAll(t, readings[..i], at)
    {
      assert readings[..i + 1][..i] == readings[..i];
      t' := Upsert(t', readings[i], at);
    }
    assert readings[..|readings|] == readings;
  }

  function Values<K, V>(t: Table<K, V>): map<K, V> {
    map k | k in t :: t[k].value
  }

  /** What a sweep does to the values alone: the last reading of a key wins. */
  function Overwrite<K, V>(m: map<K, V>, readings: seq<Reading<K, V>>): map<K, V> {
    if readings == [] then m else
    var r := readings[|readings| - 1];
    Overwrite(m, readings[..|readings| - 1])[r.key := r.value]
  }

  lemma {:induction false} UpsertValues<K, V>(t: Table<K, V>, readings: seq<Reading<K, V>>, at: int)
    ensures Values(UpsertAll(t, readings, at)) == Overwrite(Values(t), readings)
  {
    if readings != [] {
      UpsertValues(t, readings[..|readings| - 1], at);
    }
  }

  // ---------------------------------------------------------------- the ledger

  /** The state the history alone describes. */
  function Replay<K, V>(h: seq<Change<K, V>>): map<K, V> {
    if h == [] then map[] else
    var c := h[|h| - 1];
    Replay(h[..|h| - 1])[c.key := c.after]
  }

  /** The most recent event of a key. */
  function Latest<K(==), V>(h: seq<Change<K, V>>, k: K): Option<Change<K, V>> {
    if h == [] then None
    else if h[|h| - 1].key == k then Some(h[|h| - 1])
    else Latest(h[..|h| - 1], k)
  }

  /** Every event continues its key's chain and really changes something. */
  ghost predicate Chained<K, V>(h: seq<Change<K, V>>) {
    forall j | 0 <= j < |h| :: Continues(h, j)
  }

  /** Event `j` starts from the `after` of its key's previous event (from nothing when it is the
      key's first) and ends somewhere else. */
  ghost predicate Continues<K, V>(h: seq<Change<K, V>>, j: nat)
    requires j < |h|
  {
    && h[j].before == After(Latest(h[..j], h[j].key))
    && h[j].before != Some(h[j].after)
  }

  function After<K, V>(c: Option<Change<K, V>>): Option<V> {
    if c.None? then None else Some(c.value.after)
  }

  lemma {:induction false} LatestReplays<K, V>(h: seq<Change<K, V>>, k: K)
    ensures Get(Replay(h), k) == After(Latest(h, k))
  {
    if h != [] {
      LatestReplays(h[..|h| - 1], k);
    }
  }

  lemma ChainedPrefix<K, V>(h: seq<Change<K, V>>, c: Change<K, V>)
    ensures Chained(h + [c]) <==>
            Chained(h) && c.before == Get(Replay(h), c.key) && c.before != Some(c.after)
  {
    var h' := h + [c];
    forall j | 0 <= j < |h| ensures Continues(h', j) <==> Continues(h, j) {
      assert h'[..j] == h[..j];
    }
    assert h'[..|h|] == h;
    LatestReplays(h, c.key);
    assert Continues(h', |h|) <==> c.before == Get(Replay(h), c.key) && c.before != Some(c.after);
    if Chained(h) && Continues(h', |h|) {
      forall j | 0 <= j < |h'| ensures Continues(h', j) {
        if j < |h| { assert Continues(h, j); }
      }
    }
    if Chained(h') {
      forall j | 0 <= j < |h| ensures Continues(h, j) { assert Continues(h', j); }
      assert Continues(h', |h|);
    }
  }

  lemma ReplaySnoc<K, V>(h: seq<Change<K, V>>, c: Change<K, V>)
    ensures Replay(h + [c]) == Replay(h)[c.key := c.after]
  {
    assert (h + [c])[..|h|] == h;
  }

  /** The readings of one sweep name each key once. */
  ghost predicate Distinct<K, V>(readings: seq<Reading<K, V>>) {
    forall i, j | 0 <= i < j < |readings| :: readings[i].key != readings[j].key
  }

  /** The value of the last reading of a key. */
  function LastReading<K(==), V>(readings: seq<Reading<K, V>>, k: K): Option<V> {
    if readings == [] then None
    else if readings[|readings| - 1].key == k then Some(readings[|readings| - 1].value)
    else LastReading(readings[..|readings| - 1], k)
  }

  /** The value of the last reading of a key that moved it. */
  function LastMoved<K(==), V(==)>(current: map<K, V>, readings: seq<Reading<K, V>>, k: K): Option<V> {
    if readings == [] then None else
    var r := readings[|readings| - 1];
    if r.key == k && Moved(current, r) then Some(r.value)
    else LastMoved(current, readings[..|readings| - 1], k)
  }

  function Or<V>(a: Option<V>, b: Option<V>): Option<V> {
    if a.Some? then a else b
  }

  lemma {:induction false} OverwriteGets<K, V>(m: map<K, V>, readings: seq<Reading<K, V>>, k: K)
    ensures Get(Overwrite(m, readings), k) == Or(LastReading(readings, k), Get(m, k))
  {
    if readings != [] {
      OverwriteGets(m, readings[..|readings| - 1], k);
    }
  }

  lemma {:induction false} DiffGets<K, V>(
    h: seq<Change<K, V>>, current: map<K, V>, readings: seq<Reading<K, V>>, at: int, k: K)
    ensures Get(Replay(h + Diff(current, readings, at)), k)
         == Or(LastMoved(current, readings, k), Get(Replay(h), k))
  {
    if readings == [] {
      assert h + Diff(current, readings, at) == h;
    } else {
      var most, r := readings[..|readings| - 1], readings[|readings| - 1];
      DiffGets(h, current, most, at, k);
      if Moved(current, r) {
        var before := h + Diff(current, most, at);
        assert h + Diff(current, readings, at) == before + [Event(current, r, at)];
        ReplaySnoc(before, Event(current, r, at));
      } else {
        assert h + Diff(current, readings, at) == h + Diff(current, most, at);
      }
    }
  }

  /** No key ends the sweep back at its stored value after a reading that differed from it. */
  ghost predicate NoRevert<K, V>(current: map<K, V>, readings: seq<Reading<K, V>>) {
    forall i | 0 <= i < |readings| && LastReading(readings, readings[i].key) == Get(current, readings[i].key)
      :: !Moved(current, readings[i])
  }

  lemma {:induction false} LastMovedFacts<K, V>(current: map<K, V>, readings: seq<Reading<K, V>>, k: K)
    ensures var v := LastReading(readings, k);
            v.Some? && v != Get(current, k) ==> LastMoved(current, readings, k) == v
    ensures LastMoved(current, readings, k).Some? <==>
            exists i :: 0 <= i < |readings| && readings[i].key == k && Moved(current, readings[i])
    ensures LastMoved(current, readings, k).Some? ==>
            LastReading(readings, k).Some? && LastMoved(current, readings, k) != Get(current, k)
  {
    if readings != [] {
      var most, r := readings[..|readings| - 1], readings[|readings| - 1];
      LastMovedFacts(current, most, k);
      assert forall i | 0 <= i < |most| :: most[i] == readings[i];
      if r.key == k && Moved(current, r) {
        assert readings[|readings| - 1].key == k;
      } else if LastMoved(current, most, k).Some? {
        var i :| 0 <= i < |most| && most[i].key == k && Moved(current, most[i]);
        assert readings[i].key == k && Moved(current, readings[i]);
      }
    }
  }

  /** One sweep keeps "the history replays to the table" exactly when no key reverts within it. */
  lemma ReplayKeptIff<K, V>(h: seq<Change<K, V>>, readings: seq<Reading<K, V>>, at: int)
    ensures Replay(h + Diff(Replay(h), readings, at)) == Overwrite(Replay(h), readings)
       <==> NoRevert(Replay(h), readings)
  {
    var cur := Replay(h);
    var a, b := Replay(h + Diff(cur, readings, at)), Overwrite(cur, readings);
    forall k ensures Get(a, k) == Or(LastMoved(cur, readings, k), Get(cur, k))
             ensures Get(b, k) == Or(LastReading(readings, k), Get(cur, k))
    {
      DiffGets(h, cur, readings, at, k);
      OverwriteGets(cur, readings, k);
    }
    if NoRevert(cur, readings) {
      forall k ensures Get(a, k) == Get(b, k) {
        LastMovedFacts(cur, readings, k);
      }
      SameByGet(a, b);
    } else {
      var i :| 0 <= i < |readings| && LastReading(readings, readings[i].key) == Get(cur, readings[i].key)
               && Moved(cur, readings[i]);
      LastMovedFacts(cur, readings, readings[i].key);
      assert Get(a, readings[i].key) != Get(b, readings[i].key);
    }
  }

  /** No key has two readings that both differ from its stored value. */
  ghost predicate MovedOnce<K, V>(current: map<K, V>, readings: seq<Reading<K, V>>) {
    forall i, j | 0 <= i < j < |readings| && readings[i].key == readings[j].key
      :: !(Moved(current, readings[i]) && Moved(current, readings[j]))
  }

  /** One sweep keeps the chains intact exactly when it moves no key twice. */
  lemma {:induction false} ChainKeptIff<K, V>(h: seq<Change<K, V>>, readings: seq<Reading<K, V>>, at: int)
    requires Chained(h)
    ensures Chained(h + Diff(Replay(h), readings, at)) <==> MovedOnce(Replay(h), readings)
  {
    var cur := Replay(h);
    if readings == [] {
      assert h + Diff(cur, readings, at) == h;
    } else {
      var most, r := readings[..|readings| - 1], readings[|readings| - 1];
      ChainKeptIff(h, most, at);
      assert most + [r] == readings;
      MovedOnceSnoc(cur, most, r);
      if Moved(cur, r) {
        ChainGrowsIff(h, most, r, at);
      } else {
        assert h + Diff(cur, readings, at) == h + Diff(cur, most, at);
      }
      hide MovedOnce, Chained, Replay;
    }
  }

  /** One more reading that moves its key continues the chains exactly if none before it moved the key. */
  lemma ChainGrowsIff<K, V>(h: seq<Change<K, V>>, most: seq<Reading<K, V>>, r: Reading<K, V>, at: int)
    requires Moved(Replay(h), r)
    ensures Chained(h + Diff(Replay(h), most + [r], at)) <==>
            && Chained(h + Diff(Replay(h), most, at))
            && forall i | 0 <= i < |most| && most[i].key == r.key :: !Moved(Replay(h), most[i])
  {
    var cur := Replay(h);
    var h' := h + Diff(cur, most, at);
    assert (most + [r])[..|most|] == most && h + Diff(cur, most + [r], at) == h' + [Event(cur, r, at)];
    ChainedPrefix(h', Event(cur, r, at));
    DiffGets(h, cur, most, at, r.key);
    LastMovedFacts(cur, most, r.key);
    hide Chained, Diff, LastMoved;
  }

  lemma MovedOnceSnoc<K, V>(current: map<K, V>, readings: seq<Reading<K, V>>, r: Reading<K, V>)
    ensures MovedOnce(current, readings + [r]) <==>
            && MovedOnce(current, readings)
            && (Moved(current, r) ==>
                  forall i | 0 <= i < |readings| && readings[i].key == r.key :: !Moved(current, readings[i]))
  {
    var all := readings + [r];
    assert forall i | 0 <= i < |readings| :: all[i] == readings[i];
    assert all[|readings|] == r;
    if MovedOnce(current, all) {
      forall i, j | 0 <= i < j < |readings| && readings[i].key == readings[j].key
        ensures !(Moved(current, readings[i]) && Moved(current, readings[j]))
      {
        assert all[i].key == all[j].key;
      }
    }
  }

  lemma ChainedFront<K, V>(h: seq<Change<K, V>>, more: seq<Change<K, V>>)
    requires Chained(h + more)
    ensures Chained(h)
  {
    forall j | 0 <= j < |h| ensures Continues(h, j) {
      assert Continues(h + more, j) && (h + more)[..j] == h[..j];
    }
  }

  /** An unbroken chain shows that a key moved by the sweep was compared with the value its history had. */
  lemma {:induction false} ChainStarts<K, V>(
    h: seq<Change<K, V>>, current: map<K, V>, readings: seq<Reading<K, V>>, at: int, k: K)
    requires Chained(h + Diff(current, readings, at))
    ensures LastMoved(current, readings, k).Some? ==> Get(current, k) == Get(Replay(h), k)
  {
    if readings == [] {
      assert h + Diff(current, readings, at) == h;
    } else {
      var most, r := readings[..|readings| - 1], readings[|readings| - 1];
      if Moved(current, r) {
        var before := h + Diff(current, most, at);
        assert h + Diff(current, readings, at) == before + [Event(current, r, at)];
        ChainedPrefix(before, Event(current, r, at));
        DiffGets(h, current, most, at, r.key);
      } else {
        assert h + Diff(current, readings, at) == h + Diff(current, most, at);
      }
      hide Chained, Replay;
      ChainStarts(h, current, most, at, k);
    }
  }

  /** A later sweep never mends the ledger: where it accounts after a sweep it did before. */
  lemma AccountedBefore<K, V>(h: seq<Change<K, V>>, current: map<K, V>, readings: seq<Reading<K, V>>, at: int)
    requires Chained(h + Diff(current, readings, at))
    requires Replay(h + Diff(current, readings, at)) == Overwrite(current, readings)
    ensures Chained(h) && Replay(h) == current
  {
    ChainedFront(h, Diff(current, readings, at));
    forall k ensures Get(Replay(h), k) == Get(current, k) {
      ChainStarts(h, current, readings, at, k);
      DiffGets(h, current, readings, at, k);
      OverwriteGets(current, readings, k);
      LastMovedFacts(current, readings, k);
    }
    SameByGet(Replay(h), current);
  }

  /** No key reverts within the sweep and none moves twice. */
  ghost predicate Steady<K, V>(current: map<K, V>, readings: seq<Reading<K, V>>) {
    NoRevert(current, readings) && MovedOnce(current, readings)
  }

  /** After a sweep the history replays to the values, in unbroken chains, exactly if it did before and
      the sweep was steady. */
  lemma AccountedIff<K, V>(h: seq<Change<K, V>>, current: map<K, V>, readings: seq<Reading<K, V>>, at: int)
    ensures var h' := h + Diff(current, readings, at);
            Chained(h') && Replay(h') == Overwrite(current, readings) <==>
            Chained(h) && Replay(h) == current && Steady(current, readings)
  {
    var h' := h + Diff(current, readings, at);
    if Chained(h') && Replay(h') == Overwrite(current, readings) {
      AccountedBefore(h, current, readings, at);
    }
    if Chained(h) && Replay(h) == current {
      ReplayKeptIff(h, readings, at);
      ChainKeptIff(h, readings, at);
    }
  }

  /** Naming each key once is enough for both. */
  lemma DistinctIsEnough<K, V>(current: map<K, V>, readings: seq<Reading<K, V>>)
    requires Distinct(readings)
    ensures Steady(current, readings)
  {
    forall i | 0 <= i < |readings| ensures LastReading(readings, readings[i].key) == Some(readings[i].value) {
      LastOfDistinct(readings, i);
    }
  }

  lemma {:induction false} LastOfDistinct<K, V>(readings: seq<Reading<K, V>>, i: nat)
    requires Distinct(readings) && i < |readings|
    ensures LastReading(readings, readings[i].key) == Some(readings[i].value)
  {
    if i != |readings| - 1 {
      LastOfDistinct(readings[..|readings| - 1], i);
    }
  }

  // ---------------------------------------------------------------- whole runs

  /** The domain after a run of sweeps. */
  datatype State<K, V> = State(table: Table<K, V>, history: seq<Change<K, V>>)

  function Step<K, V(==)>(s: State<K, V>, sweep: Sweep<K, V>): State<K, V> {
    State(UpsertAll(s.table, sweep.readings, sweep.at),
          s.history + Diff(Values(s.table), sweep.readings, sweep.at))
  }

  function Run<K, V(==)>(sweeps: seq<Sweep<K, V>>): State<K, V> {
    if sweeps == [] then State(map[], []) else
    Step(Run(sweeps[..|sweeps| - 1]), sweeps[|sweeps| - 1])
  }

  ghost predicate DistinctKeys<K, V>(sweeps: seq<Sweep<K, V>>) {
    forall i | 0 <= i < |sweeps| :: Distinct(sweeps[i].readings)
  }

  ghost predicate Increasing<K, V>(sweeps: seq<Sweep<K, V>>) {
    forall i, j | 0 <= i < j < |sweeps| :: sweeps[i].at < sweeps[j].at
  }

  /** Every sweep is steady against the values it found. */
  ghost predicate AllSteady<K, V>(sweeps: seq<Sweep<K, V>>) {
    forall i | 0 <= i < |sweeps| :: Steady(Values(Run(sweeps[..i]).table), sweeps[i].readings)
  }

  /** No sweep reverts a key. */
  ghost predicate NoneReverts<K, V>(sweeps: seq<Sweep<K, V>>) {
    forall i | 0 <= i < |sweeps| :: NoRevert(Values(Run(sweeps[..i]).table), sweeps[i].readings)
  }

  lemma AllSteadySnoc<K, V>(sweeps: seq<Sweep<K, V>>)
    requires sweeps != []
    ensures var n := |sweeps| - 1;
            AllSteady(sweeps) <==>
            AllSteady(sweeps[..n]) && Steady(Values(Run(sweeps[..n]).table), sweeps[n].readings)
  {
    var n := |sweeps| - 1;
    hide Steady, Run;
    assert forall i | 0 <= i < n :: sweeps[..n][..i] == sweeps[..i] && sweeps[..n][i] == sweeps[i];
  }

  /** Event sourcing: over any run, the history replays to the mirrored values with every key's events
      chained exactly when every sweep was steady. */
  lemma {:induction false} LedgerReplaysIff<K, V>(sweeps: seq<Sweep<K, V>>)
    ensures Chained(Run(sweeps).history) && Replay(Run(sweeps).history) == Values(Run(sweeps).table) <==>
            AllSteady(sweeps)
  {
    if sweeps != [] {
      var before, sweep := sweeps[..|sweeps| - 1], sweeps[|sweeps| - 1];
      LedgerReplaysIff(before);
      AllSteadySnoc(sweeps);
      var s := Run(before);
      UpsertValues(s.table, sweep.readings, sweep.at);
      AccountedIff(s.history, Values(s.table), sweep.readings, sweep.at);
      hide Chained, Replay, AllSteady, Steady, Diff, UpsertAll;
    }
  }

  /** Naming each key once is enough. */
  lemma DistinctSteady<K, V>(sweeps: seq<Sweep<K, V>>)
    requires DistinctKeys(sweeps)
    ensures AllSteady(sweeps) && NoneReverts(sweeps)
  {
    forall i | 0 <= i < |sweeps| ensures Steady(Values(Run(sweeps[..i]).table), sweeps[i].readings) {
      DistinctIsEnough(Values(Run(sweeps[..i]).table), sweeps[i].readings);
    }
  }

  lemma LedgerReplays<K, V>(sweeps: seq<Sweep<K, V>>)
    requires DistinctKeys(sweeps)
    ensures Replay(Run(sweeps).history) == Values(Run(sweeps).table)
    ensures Chained(Run(sweeps).history)
  {
    DistinctSteady(sweeps);
    LedgerReplaysIff(sweeps);
  }

  // ---------------------------------------------------------------- what the control was seen to do

  /** One observation of a key. */
  datatype Sighting<V> = Sighting(at: int, value: V)

  /** Every observation of a key over a run, oldest first. */
  function Sightings<K(==), V>(sweeps: seq<Sweep<K, V>>, k: K): seq<Sighting<V>> {
    if sweeps == [] then [] else
    var sweep := sweeps[|sweeps| - 1];
    var v := LastReading(sweep.readings, k);
    Sightings(sweeps[..|sweeps| - 1], k) + if v.Some? then [Sighting(sweep.at, v.value)] else []
  }

  /** Observation `i` is the first one or differs from the one before it. */
  predicate Turn<V(==)>(s: seq<Sighting<V>>, i: nat)
    requires i < |s|
  {
    i == 0 || s[i].value != s[i - 1].value
  }

  /** The last observation differs from the one before it: a genuine move, not a first capture. */
  predicate JustMoved<V(==)>(s: seq<Sighting<V>>) {
    |s| >= 2 && s[|s| - 1].value != s[|s| - 2].value
  }

  /** The events a key's observations call for. */
  function Turns<K, V(==)>(k: K, s: seq<Sighting<V>>): seq<Change<K, V>> {
    if s == [] then [] else
    var n := |s| - 1;
    Turns(k, s[..n]) +
    if Turn(s, n) then [Change(k, if n == 0 then None else Some(s[n - 1].value), s[n].value, s[n].at)] else []
  }

  /** When the value last observed was first observed in its present stretch. */
  function HeldSince<V(==)>(s: seq<Sighting<V>>): int
    requires s != []
  {
    var n := |s| - 1;
    if Turn(s, n) then s[n].at else HeldSince(s[..n])
  }

  function OfKey<K(==), V>(h: seq<Change<K, V>>, k: K): seq<Change<K, V>> {
    if h == [] then [] else
    var c := h[|h| - 1];
    OfKey(h[..|h| - 1], k) + if c.key == k then [c] else []
  }

  lemma {:induction false} OfKeyConcat<K, V>(a: seq<Change<K, V>>, b: seq<Change<K, V>>, k: K)
    ensures OfKey(a + b, k) == OfKey(a, k) + OfKey(b, k)
  {
    if b == [] {
      assert a + b == a;
    } else {
      assert (a + b)[..|a + b| - 1] == a + b[..|b| - 1];
      OfKeyConcat(a, b[..|b| - 1], k);
    }
  }

  lemma OfKeySnoc<K, V>(h: seq<Change<K, V>>, c: Change<K, V>, k: K)
    ensures OfKey(h + [c], k) == OfKey(h, k) + if c.key == k then [c] else []
  {
    assert (h + [c])[..|h|] == h;
  }

  lemma {:induction false} NoReadingIff<K, V>(readings: seq<Reading<K, V>>, k: K)
    ensures LastReading(readings, k).None? <==> forall i | 0 <= i < |readings| :: readings[i].key != k
  {
    if readings != [] {
      NoReadingIff(readings[..|readings| - 1], k);
    }
  }

  lemma DistinctFront<K, V>(readings: seq<Reading<K, V>>)
    requires Distinct(readings) && readings != []
    ensures Distinct(readings[..|readings| - 1])
    ensures LastReading(readings[..|readings| - 1], readings[|readings| - 1].key) == None
  {
    var most := readings[..|readings| - 1];
    assert forall i | 0 <= i < |most| :: most[i] == readings[i];
    NoReadingIff(most, readings[|readings| - 1].key);
  }

  lemma {:induction false} DiffOfKey<K, V>(current: map<K, V>, readings: seq<Reading<K, V>>, at: int, k: K)
    requires Distinct(readings)
    ensures var v := LastReading(readings, k);
            OfKey(Diff(current, readings, at), k) ==
            if v.Some? && v != Get(current, k) then [Change(k, Get(current, k), v.value, at)] else []
  {
    if readings != [] {
      var most, r := readings[..|readings| - 1], readings[|readings| - 1];
      DistinctFront(readings);
      DiffOfKey(current, most, at, k);
      OfKeySnoc(Diff(current, most, at), Event(current, r, at), k);
      hide OfKey, Distinct;
      assert Diff(current, most, at) + [] == Diff(current, most, at);
    }
  }

  /** A row read by the sweep holds the last reading, changed at the sweep if any reading moved it. */
  lemma {:induction false} UpsertCell<K, V>(t: Table<K, V>, readings: seq<Reading<K, V>>, at: int, k: K)
    ensures var v := LastReading(readings, k);
            Get(UpsertAll(t, readings, at), k) ==
            if v.None? then Get(t, k)
            else Some(Cell(v.value, at,
                           if LastMoved(Values(t), readings, k).Some? || k !in t then at else t[k].changedAt))
  {
    if readings != [] {
      var most, r := readings[..|readings| - 1], readings[|readings| - 1];
      UpsertCell(t, most, at, k);
      LastMovedFacts(Values(t), most, k);
      UpsertGets(UpsertAll(t, most, at), r, at, k);
      hide UpsertAll, Upsert;
    }
  }

  lemma UpsertGets<K, V>(t: Table<K, V>, r: Reading<K, V>, at: int, k: K)
    ensures Get(Upsert(t, r, at), k) ==
            if r.key != k then Get(t, k)
            else Some(Cell(r.value, at,
                           if Get(t, k).Some? && Get(t, k).value.value == r.value then Get(t, k).value.changedAt
                           else at))
  {
  }

  /** A key that the sweep names once moves exactly if its reading differs. */
  lemma DistinctMoved<K, V>(current: map<K, V>, readings: seq<Reading<K, V>>, k: K)
    requires Distinct(readings)
    ensures var v := LastReading(readings, k);
            LastMoved(current, readings, k) == if v != Get(current, k) then v else None
  {
    LastMovedFacts(current, readings, k);
    DistinctIsEnough(current, readings);
    if LastMoved(current, readings, k).Some? {
      var i :| 0 <= i < |readings| && readings[i].key == k && Moved(current, readings[i]);
      LastOfDistinct(readings, i);
    }
  }

  /** A mirrored row is exactly what the key's own observations dictate, whatever the other keys and
      the partial sweeps in between did. */
  lemma {:induction false} RowTellsSightings<K, V>(sweeps: seq<Sweep<K, V>>, k: K)
    requires DistinctKeys(sweeps)
    ensures var s := Sightings(sweeps, k);
            Get(Run(sweeps).table, k) ==
            if s == [] then None else Some(Cell(s[|s| - 1].value, s[|s| - 1].at, HeldSince(s)))
  {
    if sweeps != [] {
      var before, sweep := sweeps[..|sweeps| - 1], sweeps[|sweeps| - 1];
      RowTellsSightings(before, k);
      var t, s := Run(before).table, Sightings(before, k);
      UpsertCell(t, sweep.readings, sweep.at, k);
      DistinctMoved(Values(t), sweep.readings, k);
      assert k in t <==> Get(t, k).Some?;
      var v := LastReading(sweep.readings, k);
      if v.Some? {
        var s' := s + [Sighting(sweep.at, v.value)];
        assert s'[..|s|] == s && Sightings(sweeps, k) == s';
      } else {
        assert Sightings(sweeps, k) == s;
      }
    }
  }

  lemma TurnsSnoc<K, V>(k: K, s: seq<Sighting<V>>, x: Sighting<V>)
    ensures Turns(k, s + [x]) ==
            Turns(k, s) +
            if s == [] || s[|s| - 1].value != x.value
            then [Change(k, if s == [] then None else Some(s[|s| - 1].value), x.value, x.at)] else []
  {
    var s' := s + [x];
    assert s'[..|s|] == s && s'[|s|] == x;
    if s != [] { assert s'[|s| - 1] == s[|s| - 1]; }
  }

  /** So are its events: one per turn of the observed value, in order. */
  lemma {:induction false} HistoryTellsSightings<K, V>(sweeps: seq<Sweep<K, V>>, k: K)
    requires DistinctKeys(sweeps)
    ensures OfKey(Run(sweeps).history, k) == Turns(k, Sightings(sweeps, k))
  {
    if sweeps != [] {
      var before, sweep := sweeps[..|sweeps| - 1], sweeps[|sweeps| - 1];
      HistoryTellsSightings(before, k);
      var st, s := Run(before), Sightings(before, k);
      var now := Get(Values(st.table), k);
      var v := LastReading(sweep.readings, k);
      assert OfKey(Run(sweeps).history, k) ==
             Turns(k, s) + if v.Some? && v != now then [Change(k, now, v.value, sweep.at)] else [] by {
        DiffOfKey(Values(st.table), sweep.readings, sweep.at, k);
        OfKeyConcat(st.history, Diff(Values(st.table), sweep.readings, sweep.at), k);
      }
      assert now == if s == [] then None else Some(s[|s| - 1].value) by {
        RowTellsSightings(before, k);
        assert k in st.table <==> Get(st.table, k).Some?;
      }
      if v.Some? {
        TurnsSnoc(k, s, Sighting(sweep.at, v.value));
      } else {
        assert Sightings(sweeps, k) == s;
      }
    }
  }

  /** Observation times grow, and none is later than `last`. */
  ghost predicate TimesGrow<V>(s: seq<Sighting<V>>, last: int) {
    Growing(s) && forall i | 0 <= i < |s| :: s[i].at <= last
  }

  ghost predicate Growing<V>(s: seq<Sighting<V>>) {
    forall i, j | 0 <= i < j < |s| :: s[i].at < s[j].at
  }

  lemma TimesGrowSnoc<V>(s: seq<Sighting<V>>, last: int, x: Sighting<V>)
    requires TimesGrow(s, last) && last < x.at
    ensures TimesGrow(s + [x], x.at) && TimesGrow(s, x.at)
  {
  }

  lemma SightingsSnoc<K, V>(sweeps: seq<Sweep<K, V>>, k: K)
    requires sweeps != []
    ensures var v := LastReading(sweeps[|sweeps| - 1].readings, k);
            Sightings(sweeps, k) == Sightings(sweeps[..|sweeps| - 1], k)
                                    + if v.Some? then [Sighting(sweeps[|sweeps| - 1].at, v.value)] else []
  {
    hide LastReading;
  }

  /** Observation times grow with the run and stay within it. */
  lemma {:induction false} SightingTimes<K, V>(sweeps: seq<Sweep<K, V>>, k: K)
    requires Increasing(sweeps)
    ensures TimesGrow(Sightings(sweeps, k), if sweeps == [] then 0 else sweeps[|sweeps| - 1].at)
    ensures sweeps == [] ==> Sightings(sweeps, k) == []
  {
    if sweeps != [] {
      var n := |sweeps| - 1;
      var before := sweeps[..n];
      SightingTimes(before, k);
      SightingsSnoc(sweeps, k);
      hide Sightings, LastReading;
      var v := LastReading(sweeps[n].readings, k);
      if before != [] { assert before[n - 1] == sweeps[n - 1] && sweeps[n - 1].at < sweeps[n].at; }
      var s := Sightings(before, k);
      if s != [] {
        TimesGrowSnoc(s, sweeps[n - 1].at, Sighting(sweeps[n].at, if v.Some? then v.value else s[0].value));
      }
    }
  }

  /** The events of `k` in its observations carry the observation times. */
  lemma {:induction false} TurnIsSighting<K, V>(k: K, s: seq<Sighting<V>>, c: Change<K, V>)
    requires c in Turns(k, s)
    ensures c.key == k && exists i :: 0 <= i < |s| && s[i].at == c.at
  {
    var n := |s| - 1;
    if c in Turns(k, s[..n]) {
      TurnIsSighting(k, s[..n], c);
      var i :| 0 <= i < n && s[..n][i].at == c.at;
      assert s[i].at == c.at;
    } else {
      assert s[n].at == c.at;
    }
  }

  lemma EarlierTurn<K, V>(k: K, s: seq<Sighting<V>>, c: Change<K, V>)
    requires Growing(s) && s != [] && c in Turns(k, s[..|s| - 1])
    ensures c.at < s[|s| - 1].at
  {
    TurnIsSighting(k, s[..|s| - 1], c);
    var i :| 0 <= i < |s| - 1 && s[..|s| - 1][i].at == c.at;
    assert s[i].at < s[|s| - 1].at;
  }

  /** The last observation is a genuine move exactly if its value began with it, by an event that has a
      `before`. */
  lemma LastTurnIff<K, V>(k: K, s: seq<Sighting<V>>)
    requires Growing(s) && s != []
    ensures JustMoved(s) <==>
            HeldSince(s) == s[|s| - 1].at && exists c :: c in Turns(k, s) && c.at == s[|s| - 1].at && c.before.Some?
  {
    var n := |s| - 1;
    var last := Change(k, if n == 0 then None else Some(s[n - 1].value), s[n].value, s[n].at);
    if JustMoved(s) {
      assert Turn(s, n) && last in Turns(k, s);
    }
    if c :| c in Turns(k, s) && c.at == s[n].at && c.before.Some? {
      if c in Turns(k, s[..n]) {
        EarlierTurn(k, s, c);
      } else {
        assert c == last;
      }
    }
  }

  /** The two-table question "did this row change in its last observed cycle, and not by being first
      seen?" — equal stamps, and an event at that instant that has a `before`. */
  ghost predicate ChangedLastCycle<K, V>(t: Table<K, V>, h: seq<Change<K, V>>, k: K) {
    && k in t && t[k].changedAt == t[k].polledAt
    && exists c :: c in h && c.key == k && c.at == t[k].changedAt && c.before.Some?
  }

  lemma {:induction false} InOfKey<K, V>(h: seq<Change<K, V>>, c: Change<K, V>, k: K)
    ensures c in OfKey(h, k) <==> c in h && c.key == k
  {
    if h != [] {
      InOfKey(h[..|h| - 1], c, k);
      assert h == h[..|h| - 1] + [h[|h| - 1]];
    }
  }

  /** The question is answered by the observations alone. */
  lemma ChangedLastCycleIff<K, V>(sweeps: seq<Sweep<K, V>>, k: K)
    requires DistinctKeys(sweeps) && Increasing(sweeps)
    ensures ChangedLastCycle(Run(sweeps).table, Run(sweeps).history, k) <==> JustMoved(Sightings(sweeps, k))
  {
    var s, st := Sightings(sweeps, k), Run(sweeps);
    RowTellsSightings(sweeps, k);
    HistoryTellsSightings(sweeps, k);
    SightingTimes(sweeps, k);
    hide Run, Sightings, DistinctKeys, Increasing, Turns, OfKey, HeldSince;
    assert k in st.table <==> Get(st.table, k).Some?;
    if s != [] {
      LastTurnIff(k, s);
      if c :| c in st.history && c.key == k && c.at == s[|s| - 1].at && c.before.Some? {
        InOfKey(st.history, c, k);
      }
      if c :| c in Turns(k, s) && c.at == s[|s| - 1].at && c.before.Some? {
        InOfKey(st.history, c, k);
      }
    }
  }

  lemma {:induction false} LatestAfterDiff<K, V>(
    h: seq<Change<K, V>>, current: map<K, V>, readings: seq<Reading<K, V>>, at: int, k: K)
    ensures Latest(h + Diff(current, readings, at), k) ==
            if LastMoved(current, readings, k).None? then Latest(h, k)
            else Some(Change(k, Get(current, k), LastMoved(current, readings, k).value, at))
  {
    if readings == [] {
      assert h + Diff(current, readings, at) == h;
    } else {
      var most, r := readings[..|readings| - 1], readings[|readings| - 1];
      LatestAfterDiff(h, current, most, at, k);
      var before := h + Diff(current, most, at);
      if Moved(current, r) {
        assert h + Diff(current, readings, at) == before + [Event(current, r, at)];
        assert (before + [Event(current, r, at)])[..|before|] == before;
      } else {
        assert h + Diff(current, readings, at) == before;
      }
    }
  }

  /** The row exists exactly when the key has an event, and then holds the value and the time of the
      latest one, never later than its poll time. */
  ghost predicate RowStamped<K, V>(t: Table<K, V>, h: seq<Change<K, V>>, k: K) {
    && (k in t <==> Latest(h, k).Some?)
    && (k in t ==> var c := Latest(h, k).value;
                   t[k].value == c.after && t[k].changedAt == c.at <= t[k].polledAt)
  }

  ghost predicate Reverts<K, V>(current: map<K, V>, readings: seq<Reading<K, V>>, k: K) {
    LastReading(readings, k) == Get(current, k) && LastMoved(current, readings, k).Some?
  }

  lemma NoRevertIff<K(!new), V>(current: map<K, V>, readings: seq<Reading<K, V>>)
    ensures NoRevert(current, readings) <==> forall k :: !Reverts(current, readings, k)
  {
    forall k ensures LastMoved(current, readings, k).Some? <==>
                     exists i :: 0 <= i < |readings| && readings[i].key == k && Moved(current, readings[i])
    {
      LastMovedFacts(current, readings, k);
    }
    if !NoRevert(current, readings) {
      var i :| 0 <= i < |readings| && LastReading(readings, readings[i].key) == Get(current, readings[i].key)
               && Moved(current, readings[i]);
      assert Reverts(current, readings, readings[i].key);
    }
  }

  /** A sweep keeps a row's stamps right exactly if it does not revert the key. */
  lemma StampKeptIff<K, V>(t: Table<K, V>, h: seq<Change<K, V>>, readings: seq<Reading<K, V>>, at: int, k: K)
    requires RowStamped(t, h, k) && (k in t ==> t[k].polledAt <= at)
    ensures RowStamped(UpsertAll(t, readings, at), h + Diff(Values(t), readings, at), k) <==>
            !Reverts(Values(t), readings, k)
  {
    var u := UpsertAll(t, readings, at);
    UpsertCell(t, readings, at, k);
    LatestAfterDiff(h, Values(t), readings, at, k);
    LastMovedFacts(Values(t), readings, k);
    assert (k in u <==> Get(u, k).Some?) && (k in t <==> Get(t, k).Some?);
    hide UpsertAll, Diff, Latest, LastReading, LastMoved;
  }

  /** No row was polled after `at`. */
  ghost predicate PolledBy<K, V>(t: Table<K, V>, at: int) {
    forall k | k in t :: t[k].polledAt <= at
  }

  lemma UpsertPolledBy<K, V>(t: Table<K, V>, readings: seq<Reading<K, V>>, at: int)
    requires PolledBy(t, at)
    ensures PolledBy(UpsertAll(t, readings, at), at)
  {
    var u := UpsertAll(t, readings, at);
    hide UpsertAll;
    forall k | k in u ensures u[k].polledAt <= at {
      assert Get(u, k) == Some(u[k]);
      UpsertCell(t, readings, at, k);
      assert k in t ==> Get(t, k) == Some(t[k]);
    }
  }

  lemma {:induction false} RunPolledBy<K, V>(sweeps: seq<Sweep<K, V>>, at: int)
    requires Increasing(sweeps) && forall i | 0 <= i < |sweeps| :: sweeps[i].at <= at
    ensures PolledBy(Run(sweeps).table, at)
  {
    if sweeps != [] {
      var n := |sweeps| - 1;
      RunPolledBy(sweeps[..n], sweeps[n].at);
      UpsertPolledBy(Run(sweeps[..n]).table, sweeps[n].readings, sweeps[n].at);
      assert PolledBy(Run(sweeps).table, sweeps[n].at);
    }
  }

  /** Each row's stamps agree with its history in every run that reverts no key within a sweep. */
  lemma {:induction false} StampsAgree<K(!new), V>(sweeps: seq<Sweep<K, V>>, k: K)
    requires NoneReverts(sweeps) && Increasing(sweeps)
    ensures RowStamped(Run(sweeps).table, Run(sweeps).history, k)
  {
    if sweeps != [] {
      var n := |sweeps| - 1;
      var before := sweeps[..n];
      NoneRevertsFront(sweeps);
      StampsAgree(before, k);
      RunPolledBy(before, sweeps[n].at);
      NoRevertIff(Values(Run(before).table), sweeps[n].readings);
      StampKeptIff(Run(before).table, Run(before).history, sweeps[n].readings, sweeps[n].at, k);
      hide RowStamped, NoneReverts, NoRevert, Reverts, UpsertAll, Diff;
    }
  }

  lemma NoneRevertsFront<K, V>(sweeps: seq<Sweep<K, V>>)
    requires NoneReverts(sweeps) && sweeps != []
    ensures var n := |sweeps| - 1;
            NoneReverts(sweeps[..n]) && NoRevert(Values(Run(sweeps[..n]).table), sweeps[n].readings)
  {
    var n := |sweeps| - 1;
    hide NoRevert, Run;
    forall i | 0 <= i < n ensures NoRevert(Values(Run(sweeps[..n][..i]).table), sweeps[..n][i].readings) {
      assert sweeps[..n][..i] == sweeps[..i];
    }
  }

  /** A table whose rows of the keys just read were polled at `at` and are otherwise as they were. */
  ghost predicate Restamped<K, V>(t: Table<K, V>, u: Table<K, V>, readings: seq<Reading<K, V>>, at: int) {
    && u.Keys == t.Keys
    && forall k | k in t :: u[k] == if LastReading(readings, k).Some? then t[k].(polledAt := at) else t[k]
  }

  function ReadKeys<K(==), V>(readings: seq<Reading<K, V>>): set<K> {
    if readings == [] then {} else ReadKeys(readings[..|readings| - 1]) + {readings[|readings| - 1].key}
  }

  lemma {:induction false} UpsertKeys<K, V>(t: Table<K, V>, readings: seq<Reading<K, V>>, at: int)
    ensures UpsertAll(t, readings, at).Keys == t.Keys + ReadKeys(readings)
  {
    if readings != [] { UpsertKeys(t, readings[..|readings| - 1], at); }
  }

  /** Where a sweep reads a key more than once, it reads the same value. */
  ghost predicate OneValueEach<K, V>(readings: seq<Reading<K, V>>) {
    forall i | 0 <= i < |readings| :: LastReading(readings, readings[i].key) == Some(readings[i].value)
  }

  lemma DistinctOneValue<K, V>(readings: seq<Reading<K, V>>)
    requires Distinct(readings)
    ensures OneValueEach(readings)
  {
    forall i | 0 <= i < |readings| ensures LastReading(readings, readings[i].key) == Some(readings[i].value) {
      LastOfDistinct(readings, i);
    }
  }

  lemma MovedAgainIff<K, V>(current: map<K, V>, readings: seq<Reading<K, V>>, i: nat)
    requires i < |readings|
    ensures Moved(Overwrite(current, readings), readings[i]) <==>
            LastReading(readings, readings[i].key) != Some(readings[i].value)
  {
    var m := Overwrite(current, readings);
    OverwriteGets(current, readings, readings[i].key);
    NoReadingIff(readings, readings[i].key);
    hide LastReading, Overwrite;
    assert readings[i].key in m <==> Get(m, readings[i].key).Some?;
  }

  /** Reading the stored values again moves poll times and nothing else. */
  lemma ReadAgainRestamps<K, V>(t: Table<K, V>, readings: seq<Reading<K, V>>, at: int, later: int)
    requires OneValueEach(readings)
    ensures var u := UpsertAll(t, readings, at); Restamped(u, UpsertAll(u, readings, later), readings, later)
  {
    var u := UpsertAll(t, readings, at);
    var r := UpsertAll(u, readings, later);
    hide UpsertAll, LastReading;
    UpsertKeys(t, readings, at);
    UpsertKeys(u, readings, later);
    forall k | k in u ensures r[k] == if LastReading(readings, k).Some? then u[k].(polledAt := later) else u[k] {
      RereadCell(t, readings, at, later, k);
    }
  }

  lemma RereadCell<K, V>(t: Table<K, V>, readings: seq<Reading<K, V>>, at: int, later: int, k: K)
    requires OneValueEach(readings)
    ensures var u := UpsertAll(t, readings, at);
            var r := UpsertAll(u, readings, later);
            && (k in r <==> k in u)
            && (k in u ==> r[k] == if LastReading(readings, k).Some? then u[k].(polledAt := later) else u[k])
  {
    var u := UpsertAll(t, readings, at);
    var r := UpsertAll(u, readings, later);
    UpsertCell(t, readings, at, k);
    UpsertCell(u, readings, later, k);
    UpsertValues(t, readings, at);
    LastMovedFacts(Values(u), readings, k);
    hide UpsertAll, LastReading, LastMoved;
    assert (k in u <==> Get(u, k).Some?) && (k in r <==> Get(r, k).Some?);
    forall i | 0 <= i < |readings| ensures !Moved(Values(u), readings[i]) {
      MovedAgainIff(Values(t), readings, i);
    }
  }

  /** Reading the stored values again adds no event exactly if each key was read as one value. */
  lemma SameReadingsSilentIff<K, V>(current: map<K, V>, readings: seq<Reading<K, V>>, at: int)
    ensures Diff(Overwrite(current, readings), readings, at) == [] <==> OneValueEach(readings)
  {
    forall i | 0 <= i < |readings|
      ensures Moved(Overwrite(current, readings), readings[i]) <==>
              LastReading(readings, readings[i].key) != Some(readings[i].value)
    {
      MovedAgainIff(current, readings, i);
    }
    NothingMovedIff(Overwrite(current, readings), readings, at);
  }

  lemma {:induction false} NothingMovedIff<K, V>(current: map<K, V>, readings: seq<Reading<K, V>>, at: int)
    ensures Diff(current, readings, at) == [] <==> forall i | 0 <= i < |readings| :: !Moved(current, readings[i])
  {
    if readings != [] {
      NothingMovedIff(current, readings[..|readings| - 1], at);
    }
  }
}
