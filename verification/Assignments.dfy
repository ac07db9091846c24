/** Tool assignments and their validation gate (`apps/tooling/api/services/assignments.py`). */
module Assignments {
  import opened Wrappers

  datatype Machine = Machine(probeT: Option<nat>, probeH: Option<nat>, hasTsc: bool, enabled: bool)
  datatype Tool = Tool(requiresTsc: bool, retired: bool)

  datatype Assignment = Assignment(
    tool: nat, machine: nat, t: nat, h: nat, d: Option<nat>,
    pendingReview: bool, confirmedBy: Option<nat>, deleted: bool)

  datatype Column = TColumn | HColumn | DColumn

  /** Machine and tool rows stay as they are; only assignments move. */
  datatype Registry = Registry(machines: map<nat, Machine>, tools: map<nat, Tool>, rows: map<nat, Assignment>)

  datatype Error =
    | NotFound | Retired | Disabled | Deleted
    | ProbeLocked(column: Column) | Taken(column: Column) | NoTsc
    | NotNull  // the database refuses a NULL T or H number

  function Slot(row: Assignment, c: Column): Option<nat> {
    match c case TColumn => Some(row.t) case HColumn => Some(row.h) case DColumn => row.d
  }

  predicate Holds(rows: map<nat, Assignment>, id: nat, machine: nat, c: Column, value: Option<nat>) {
    id in rows && !rows[id].deleted && rows[id].machine == machine && Slot(rows[id], c) == value
  }

  /** Another active row of the machine holds the value. */
  predicate ActiveConflict(
    rows: map<nat, Assignment>, machine: nat, c: Column, value: Option<nat>, exclude: Option<nat>)
  {
    value.Some? && exists id | id in rows :: Holds(rows, id, machine, c, value) && Some(id) != exclude
  }

  /** The gate: probe lock, then uniqueness, then capability. */
  function Validate(rows: map<nat, Assignment>, machineId: nat, machine: Machine, tool: Tool,
                    t: Option<nat>, h: Option<nat>, d: Option<nat>, exclude: Option<nat>): Option<Error>
  {
    if machine.probeT.Some? && t == machine.probeT then Some(ProbeLocked(TColumn))
    else if machine.probeH.Some? && h == machine.probeH then Some(ProbeLocked(HColumn))
    else if ActiveConflict(rows, machineId, TColumn, t, exclude) then Some(Taken(TColumn))
    else if ActiveConflict(rows, machineId, HColumn, h, exclude) then Some(Taken(HColumn))
    else if ActiveConflict(rows, machineId, DColumn, d, exclude) then Some(Taken(DColumn))
    else if tool.requiresTsc && !machine.hasTsc then Some(NoTsc)
    else None
  }

  // ---------------------------------------------------------------- the operations

  /** A request names the columns it sets; a set column may be set to null. */
  datatype Patch = Patch(t: Option<Option<nat>>, h: Option<Option<nat>>, d: Option<Option<nat>>)

  datatype Op =
    | Create(id: nat, tool: nat, machine: nat, t: nat, h: nat, d: Option<nat>)
    | Update(id: nat, patch: Patch)
    | Confirm(id: nat, user: nat)
    | SoftDelete(id: nat)

  function Patched(p: Option<Option<nat>>, current: Option<nat>): Option<nat> {
    if p.Some? then p.value else current
  }

  function CreateSpec(reg: Registry, op: Op): Result<Registry, Error>
    requires op.Create?
  {
    if op.tool !in reg.tools then Err(NotFound)
    else if reg.tools[op.tool].retired then Err(Retired)
    else if op.machine !in reg.machines then Err(NotFound)
    else if !reg.machines[op.machine].enabled then Err(Disabled)
    else
      var refused := Validate(reg.rows, op.machine, reg.machines[op.machine], reg.tools[op.tool],
                              Some(op.t), Some(op.h), op.d, None);
      if refused.Some? then Err(refused.value)
      else Ok(reg.(rows := reg.rows[op.id := Assignment(op.tool, op.machine, op.t, op.h, op.d, true, None, false)]))
  }

  /** The row of an operation that needs an active one. */
  function ActiveRow(reg: Registry, id: nat): Result<Assignment, Error> {
    if id !in reg.rows then Err(NotFound) else if reg.rows[id].deleted then Err(Deleted) else Ok(reg.rows[id])
  }

  function UpdateSpec(reg: Registry, op: Op): Result<Registry, Error>
    requires op.Update?
  {
    var current := ActiveRow(reg, op.id);
    if current.Err? then Err(current.error) else
    var row := current.value;
    var t, h, d := Patched(op.patch.t, Some(row.t)), Patched(op.patch.h, Some(row.h)), Patched(op.patch.d, row.d);
    if row.machine !in reg.machines || row.tool !in reg.tools then Err(NotFound) else
    var refused := Validate(reg.rows, row.machine, reg.machines[row.machine], reg.tools[row.tool], t, h, d,
                            Some(op.id));
    if refused.Some? then Err(refused.value)
    else if t.None? || h.None? then Err(NotNull)
    else Ok(reg.(rows := reg.rows[op.id := row.(t := t.value, h := h.value, d := d, pendingReview := true)]))
  }

  function ConfirmSpec(reg: Registry, op: Op): Result<Registry, Error>
    requires op.Confirm?
  {
    var current := ActiveRow(reg, op.id);
    if current.Err? then Err(current.error)
    else Ok(reg.(rows := reg.rows[op.id := current.value.(pendingReview := false, confirmedBy := Some(op.user))]))
  }

  function SoftDeleteSpec(reg: Registry, op: Op): Result<Registry, Error>
    requires op.SoftDelete?
  {
    var current := ActiveRow(reg, op.id);
    if current.Err? then Err(current.error)
    else Ok(reg.(rows := reg.rows[op.id := current.value.(deleted := true)]))
  }

  function Perform(reg: Registry, op: Op): Result<Registry, Error> {
    match op
    case Create(_, _, _, _, _, _) => CreateSpec(reg, op)
    case Update(_, _) => UpdateSpec(reg, op)
    case Confirm(_, _) => ConfirmSpec(reg, op)
    case SoftDelete(_) => SoftDeleteSpec(reg, op)
  }

  /** A refused operation leaves the registry as it was. */
  function After(reg: Registry, op: Op): Registry {
    var r := Perform(reg, op);
    if r.Ok? then r.value else reg
  }

  function AfterAll(reg: Registry, ops: seq<Op>): Registry {
    if ops == [] then reg else After(AfterAll(reg, ops[..|ops| - 1]), ops[|ops| - 1])
  }

  // ---------------------------------------------------------------- the invariant

  ghost predicate Unique(rows: map<nat, Assignment>) {
    forall id, id', machine, c: Column, value: Option<nat> ::
      value.Some? && Holds(rows, id, machine, c, value) && Holds(rows, id', machine, c, value) ==> id == id'
  }

  /** An active row is off the probe's registers and on a machine that can run its tool. */
  ghost predicate Allowed(reg: Registry, row: Assignment) {
    && row.machine in reg.machines && row.tool in reg.tools
    && (var m := reg.machines[row.machine];
        && m.probeT != Some(row.t) && m.probeH != Some(row.h)
        && (reg.tools[row.tool].requiresTsc ==> m.hasTsc))
  }

  ghost predicate Sound(reg: Registry) {
    && Unique(reg.rows)
    && forall id | id in reg.rows && !reg.rows[id].deleted :: Allowed(reg, reg.rows[id])
  }

  /** Generated identifiers are new. */
  ghost predicate FreshIds(reg: Registry, ops: seq<Op>) {
    && (forall i | 0 <= i < |ops| && ops[i].Create? :: ops[i].id !in reg.rows)
    && (forall i, j | 0 <= i < j < |ops| && ops[i].Create? && ops[j].Create? :: ops[i].id != ops[j].id)
  }

  /** Putting an active row under `id` keeps `Unique` exactly when none of its slots is taken. */
  lemma UniqueWithRow(rows: map<nat, Assignment>, id: nat, row: Assignment)
    requires Unique(rows) && !row.deleted
    ensures Unique(rows[id := row]) <==>
            forall c: Column :: !ActiveConflict(rows, row.machine, c, Slot(row, c), Some(id))
  {
    var rows' := rows[id := row];
    forall c: Column, id'
      ensures id' != id ==>
              (Holds(rows', id', row.machine, c, Slot(row, c)) <==> Holds(rows, id', row.machine, c, Slot(row, c))) { }
    if forall c: Column :: !ActiveConflict(rows, row.machine, c, Slot(row, c), Some(id)) {
      forall a, b, machine, c: Column, value: Option<nat>
        | value.Some? && Holds(rows', a, machine, c, value) && Holds(rows', b, machine, c, value)
        ensures a == b
      {
        if a == id && b != id {
          assert Holds(rows, b, row.machine, c, value);
          assert ActiveConflict(rows, row.machine, c, Slot(row, c), Some(id));
        }
        if b == id && a != id {
          assert Holds(rows, a, row.machine, c, value);
          assert ActiveConflict(rows, row.machine, c, Slot(row, c), Some(id));
        }
        if a != id && b != id { assert Holds(rows, a, machine, c, value) && Holds(rows, b, machine, c, value); }
      }
    }
    if c: Column :| ActiveConflict(rows, row.machine, c, Slot(row, c), Some(id)) {
      var id' :| id' in rows && Holds(rows, id', row.machine, c, Slot(row, c)) && Some(id') != Some(id);
      assert Holds(rows', id', row.machine, c, Slot(row, c)) && Holds(rows', id, row.machine, c, Slot(row, c));
    }
  }

  /** The gate refuses a row exactly when it would break the invariant. */
  lemma ValidateIff(reg: Registry, id: nat, row: Assignment, exclude: Option<nat>)
    requires Sound(reg) && !row.deleted && row.machine in reg.machines && row.tool in reg.tools
    requires exclude == Some(id) || (exclude == None && id !in reg.rows)
    ensures Validate(reg.rows, row.machine, reg.machines[row.machine], reg.tools[row.tool],
                     Some(row.t), Some(row.h), row.d, exclude).None?
       <==> Sound(reg.(rows := reg.rows[id := row]))
  {
    var reg' := reg.(rows := reg.rows[id := row]);
    UniqueWithRow(reg.rows, id, row);
    forall c: Column
      ensures ActiveConflict(reg.rows, row.machine, c, Slot(row, c), exclude)
         <==> ActiveConflict(reg.rows, row.machine, c, Slot(row, c), Some(id))
    { }
    assert Slot(row, TColumn) == Some(row.t) && Slot(row, HColumn) == Some(row.h) && Slot(row, DColumn) == row.d;
    if Sound(reg') {
      assert reg'.rows[id] == row && Allowed(reg', row);
    }
    if Validate(reg.rows, row.machine, reg.machines[row.machine], reg.tools[row.tool], Some(row.t), Some(row.h),
                row.d, exclude).None? {
      forall c: Column ensures !ActiveConflict(reg.rows, row.machine, c, Slot(row, c), Some(id)) {
        assert c == TColumn || c == HColumn || c == DColumn;
      }
      forall other | other in reg'.rows && !reg'.rows[other].deleted ensures Allowed(reg', reg'.rows[other]) {
        if other != id { assert Allowed(reg, reg.rows[other]); }
      }
    }
  }

  /** A create succeeds exactly when tool and machine are usable and the new row keeps the invariant. */
  lemma CreateSucceedsIff(reg: Registry, op: Op)
    requires Sound(reg) && op.Create? && op.id !in reg.rows
    ensures var row := Assignment(op.tool, op.machine, op.t, op.h, op.d, true, None, false);
            Perform(reg, op).Ok? <==>
            && op.tool in reg.tools && !reg.tools[op.tool].retired
            && op.machine in reg.machines && reg.machines[op.machine].enabled
            && Sound(reg.(rows := reg.rows[op.id := row]))
  {
    if op.tool in reg.tools && op.machine in reg.machines {
      ValidateIff(reg, op.id, Assignment(op.tool, op.machine, op.t, op.h, op.d, true, None, false), None);
    }
  }

  function PatchedRow(row: Assignment, p: Patch): Option<Assignment> {
    var t, h, d := Patched(p.t, Some(row.t)), Patched(p.h, Some(row.h)), Patched(p.d, row.d);
    if t.None? || h.None? then None else Some(row.(t := t.value, h := h.value, d := d, pendingReview := true))
  }

  /** A register move succeeds exactly when the row is active, keeps its T and H, and the moved row
      keeps the invariant; a move back onto its own registers is never a conflict. */
  lemma UpdateSucceedsIff(reg: Registry, op: Op)
    requires Sound(reg) && op.Update?
    ensures Perform(reg, op).Ok? <==>
            && op.id in reg.rows && !reg.rows[op.id].deleted
            && PatchedRow(reg.rows[op.id], op.patch).Some?
            && Sound(reg.(rows := reg.rows[op.id := PatchedRow(reg.rows[op.id], op.patch).value]))
  {
    if op.id in reg.rows && !reg.rows[op.id].deleted {
      var row := PatchedRow(reg.rows[op.id], op.patch);
      assert Allowed(reg, reg.rows[op.id]);
      if row.Some? { ValidateIff(reg, op.id, row.value, Some(op.id)); }
    }
  }

  /** Every accepted operation keeps the invariant. */
  lemma OperationKeepsSound(reg: Registry, op: Op)
    requires Sound(reg) && (op.Create? ==> op.id !in reg.rows)
    ensures Sound(After(reg, op))
  {
    match op
    case Create(_, _, _, _, _, _) => CreateSucceedsIff(reg, op);
    case Update(_, _) => UpdateSucceedsIff(reg, op);
    case Confirm(id, user) =>
      if Perform(reg, op).Ok? {
        SameSlotsSound(reg, id, reg.rows[id].(pendingReview := false, confirmedBy := Some(user)));
      }
    case SoftDelete(id) =>
      if Perform(reg, op).Ok? { DeletedSound(reg, id); }
  }

  lemma SameSlotsSound(reg: Registry, id: nat, row: Assignment)
    requires Sound(reg) && id in reg.rows && !reg.rows[id].deleted
    requires row.(pendingReview := false, confirmedBy := None) ==
             reg.rows[id].(pendingReview := false, confirmedBy := None)
    ensures Sound(reg.(rows := reg.rows[id := row]))
  {
    var rows' := reg.rows[id := row];
    forall a, machine, c: Column, value: Option<nat>
      ensures Holds(rows', a, machine, c, value) <==> Holds(reg.rows, a, machine, c, value)
    { }
    forall other | other in rows' && !rows'[other].deleted ensures Allowed(reg.(rows := rows'), rows'[other]) {
      assert Allowed(reg, reg.rows[other]);
    }
  }

  lemma DeletedSound(reg: Registry, id: nat)
    requires Sound(reg) && id in reg.rows && !reg.rows[id].deleted
    ensures Sound(reg.(rows := reg.rows[id := reg.rows[id].(deleted := true)]))
  {
    var rows' := reg.rows[id := reg.rows[id].(deleted := true)];
    forall a, machine, c: Column, value: Option<nat>
      ensures Holds(rows', a, machine, c, value) ==> Holds(reg.rows, a, machine, c, value)
    { }
    forall other | other in rows' && !rows'[other].deleted ensures Allowed(reg.(rows := rows'), rows'[other]) {
      assert Allowed(reg, reg.rows[other]);
    }
  }

  lemma {:induction false} IdsComeFromCreates(reg: Registry, ops: seq<Op>, id: nat)
    requires id in AfterAll(reg, ops).rows && id !in reg.rows
    ensures exists i :: 0 <= i < |ops| && ops[i].Create? && ops[i].id == id
  {
    if ops != [] {
      var most := ops[..|ops| - 1];
      if id in AfterAll(reg, most).rows {
        IdsComeFromCreates(reg, most, id);
        var i :| 0 <= i < |most| && most[i].Create? && most[i].id == id;
        assert ops[i] == most[i];
      } else {
        assert ops[|ops| - 1].Create? && ops[|ops| - 1].id == id;
      }
    }
  }

  /** Every sequence of operations, accepted or refused, keeps T, H and D numbers unique per machine
      among active rows, off the probe, and TSC tools on TSC machines. */
  lemma {:induction false} EveryRunSound(reg: Registry, ops: seq<Op>)
    requires Sound(reg) && FreshIds(reg, ops)
    ensures Sound(AfterAll(reg, ops))
    ensures AfterAll(reg, ops).machines == reg.machines && AfterAll(reg, ops).tools == reg.tools
  {
    if ops != [] {
      var most, op := ops[..|ops| - 1], ops[|ops| - 1];
      assert forall i | 0 <= i < |most| :: most[i] == ops[i];
      EveryRunSound(reg, most);
      if op.Create? && op.id in AfterAll(reg, most).rows {
        IdsComeFromCreates(reg, most, op.id);
      }
      OperationKeepsSound(AfterAll(reg, most), op);
    }
  }

  // ---------------------------------------------------------------- what an operation leaves

  /** Only the row under `id` has moved. */
  ghost predicate OnlyRow(reg: Registry, reg': Registry, id: nat) {
    && reg'.machines == reg.machines && reg'.tools == reg.tools
    && id in reg'.rows && reg'.rows.Keys == reg.rows.Keys + {id}
    && forall other | other in reg.rows && other != id :: reg'.rows[other] == reg.rows[other]
  }

  /** Whoever asks for one of the row's slots on its machine, other than the row itself, finds it taken. */
  ghost predicate HoldsItsSlots(reg: Registry, id: nat)
    requires id in reg.rows
  {
    forall c: Column, exclude: Option<nat> | Slot(reg.rows[id], c).Some? && exclude != Some(id) ::
      ActiveConflict(reg.rows, reg.rows[id].machine, c, Slot(reg.rows[id], c), exclude)
  }

  lemma ActiveHoldsSlots(reg: Registry, id: nat)
    requires id in reg.rows && !reg.rows[id].deleted
    ensures HoldsItsSlots(reg, id)
  {
    forall c: Column, exclude: Option<nat> | Slot(reg.rows[id], c).Some? && exclude != Some(id)
      ensures ActiveConflict(reg.rows, reg.rows[id].machine, c, Slot(reg.rows[id], c), exclude)
    {
      assert Holds(reg.rows, id, reg.rows[id].machine, c, Slot(reg.rows[id], c));
    }
  }

  /** A created row is active, is what was asked for, awaits review, and from then on holds its slots. */
  lemma CreateLeaves(reg: Registry, op: Op)
    requires op.Create? && Perform(reg, op).Ok?
    ensures var reg' := After(reg, op);
            && OnlyRow(reg, reg', op.id) && HoldsItsSlots(reg', op.id)
            && var row := reg'.rows[op.id];
               && row.tool == op.tool && row.machine == op.machine
               && row.t == op.t && row.h == op.h && row.d == op.d
               && row.pendingReview && row.confirmedBy.None? && !row.deleted
  {
    ActiveHoldsSlots(After(reg, op), op.id);
  }

  /** A moved row has the registers asked for, and its own where none was; it stays active on its machine
      with its tool and its last confirmation, awaits review again, and holds the new slots. */
  lemma UpdateLeaves(reg: Registry, op: Op)
    requires op.Update? && Perform(reg, op).Ok?
    ensures op.id in reg.rows
    ensures var reg' := After(reg, op);
            && OnlyRow(reg, reg', op.id) && HoldsItsSlots(reg', op.id)
            && var row, row' := reg.rows[op.id], reg'.rows[op.id];
               && (match op.patch.t case None => row'.t == row.t case Some(t) => Some(row'.t) == t)
               && (match op.patch.h case None => row'.h == row.h case Some(h) => Some(row'.h) == h)
               && (match op.patch.d case None => row'.d == row.d case Some(d) => row'.d == d)
               && row'.tool == row.tool && row'.machine == row.machine && row'.confirmedBy == row.confirmedBy
               && row'.pendingReview && !row.deleted && !row'.deleted
  {
    ActiveHoldsSlots(After(reg, op), op.id);
  }

  /** A confirmed row is no longer pending and names who confirmed it; a deleted one is only that. */
  lemma SettleLeaves(reg: Registry, op: Op)
    requires (op.Confirm? || op.SoftDelete?) && Perform(reg, op).Ok?
    ensures op.id in reg.rows
    ensures var reg' := After(reg, op);
            && OnlyRow(reg, reg', op.id)
            && var row, row' := reg.rows[op.id], reg'.rows[op.id];
               && !row.deleted && (row'.deleted <==> op.SoftDelete?)
               && row' == row.(deleted := row'.deleted, pendingReview := row'.pendingReview,
                               confirmedBy := row'.confirmedBy)
               && (op.Confirm? ==> !row'.pendingReview && row'.confirmedBy == Some(op.user))
               && (op.SoftDelete? ==> row'.pendingReview == row.pendingReview && row'.confirmedBy == row.confirmedBy)
  {
  }

  /** When a confirm or a delete is refused, and how. */
  lemma SettleRefusedIff(reg: Registry, op: Op)
    requires op.Confirm? || op.SoftDelete?
    ensures Perform(reg, op) == Err(NotFound) <==> op.id !in reg.rows
    ensures Perform(reg, op) == Err(Deleted) <==> op.id in reg.rows && reg.rows[op.id].deleted
    ensures Perform(reg, op).Ok? <==> op.id in reg.rows && !reg.rows[op.id].deleted
  {
  }

  /** Another active row of the machine has the value in that column. */
  ghost predicate TakenByOther(reg: Registry, id: nat, machine: nat, c: Column, value: Option<nat>) {
    value.Some? && exists other :: other in reg.rows && other != id && !reg.rows[other].deleted
                                   && reg.rows[other].machine == machine && Slot(reg.rows[other], c) == value
  }

  /** `e` is the first register rule that the row asked for breaks. */
  ghost predicate Breaks(reg: Registry, id: nat, machine: nat, tool: nat,
                         t: Option<nat>, h: Option<nat>, d: Option<nat>, e: Error)
    requires machine in reg.machines && tool in reg.tools
  {
    var m := reg.machines[machine];
    var probeT, probeH := m.probeT.Some? && m.probeT == t, m.probeH.Some? && m.probeH == h;
    var takenT := TakenByOther(reg, id, machine, TColumn, t);
    var takenH := TakenByOther(reg, id, machine, HColumn, h);
    var takenD := TakenByOther(reg, id, machine, DColumn, d);
    match e
    case ProbeLocked(TColumn) => probeT
    case ProbeLocked(HColumn) => !probeT && probeH
    case Taken(TColumn) => !probeT && !probeH && takenT
    case Taken(HColumn) => !probeT && !probeH && !takenT && takenH
    case Taken(DColumn) => !probeT && !probeH && !takenT && !takenH && takenD
    case NoTsc => !probeT && !probeH && !takenT && !takenH && !takenD && reg.tools[tool].requiresTsc && !m.hasTsc
    case _ => false
  }

  lemma ConflictIff(reg: Registry, id: nat, machine: nat, c: Column, value: Option<nat>, exclude: Option<nat>)
    requires exclude == Some(id) || (exclude == None && id !in reg.rows)
    ensures ActiveConflict(reg.rows, machine, c, value, exclude) <==> TakenByOther(reg, id, machine, c, value)
  {
    if TakenByOther(reg, id, machine, c, value) {
      var other :| other in reg.rows && other != id && !reg.rows[other].deleted
                   && reg.rows[other].machine == machine && Slot(reg.rows[other], c) == value;
      assert Holds(reg.rows, other, machine, c, value);
    }
  }

  lemma ValidateBreaks(reg: Registry, id: nat, machine: nat, tool: nat, t: Option<nat>, h: Option<nat>, d: Option<nat>,
                       exclude: Option<nat>, e: Error)
    requires machine in reg.machines && tool in reg.tools
    requires exclude == Some(id) || (exclude == None && id !in reg.rows)
    ensures Validate(reg.rows, machine, reg.machines[machine], reg.tools[tool], t, h, d, exclude) == Some(e) <==>
            Breaks(reg, id, machine, tool, t, h, d, e)
  {
    ConflictIff(reg, id, machine, TColumn, t, exclude);
    ConflictIff(reg, id, machine, HColumn, h, exclude);
    ConflictIff(reg, id, machine, DColumn, d, exclude);
    hide ActiveConflict, TakenByOther;
  }

  /** How a create is refused. */
  lemma CreateRefusedIff(reg: Registry, op: Op, e: Error)
    requires op.Create? && op.id !in reg.rows
    ensures Perform(reg, op) == Err(e) <==>
            if op.tool !in reg.tools then e == NotFound
            else if reg.tools[op.tool].retired then e == Retired
            else if op.machine !in reg.machines then e == NotFound
            else if !reg.machines[op.machine].enabled then e == Disabled
            else Breaks(reg, op.id, op.machine, op.tool, Some(op.t), Some(op.h), op.d, e)
  {
    if op.tool in reg.tools && op.machine in reg.machines {
      ValidateBreaks(reg, op.id, op.machine, op.tool, Some(op.t), Some(op.h), op.d, None, e);
    }
    hide Validate, Breaks;
  }

  /** How a move is refused: also on a disabled machine it is judged by the register rules alone. */
  lemma UpdateRefusedIff(reg: Registry, op: Op, e: Error)
    requires Sound(reg) && op.Update?
    ensures Perform(reg, op) == Err(e) <==>
            if op.id !in reg.rows then e == NotFound
            else if reg.rows[op.id].deleted then e == Deleted
            else
              var row, p := reg.rows[op.id], op.patch;
              var t, h, d := Patched(p.t, Some(row.t)), Patched(p.h, Some(row.h)), Patched(p.d, row.d);
              && Allowed(reg, row)
              && (Breaks(reg, op.id, row.machine, row.tool, t, h, d, e)
                  || (e == NotNull && (t.None? || h.None?)
                      && forall other :: !Breaks(reg, op.id, row.machine, row.tool, t, h, d, other)))
  {
    if op.id in reg.rows && !reg.rows[op.id].deleted {
      var row, p := reg.rows[op.id], op.patch;
      var t, h, d := Patched(p.t, Some(row.t)), Patched(p.h, Some(row.h)), Patched(p.d, row.d);
      assert Allowed(reg, row);
      forall other
        ensures Validate(reg.rows, row.machine, reg.machines[row.machine], reg.tools[row.tool], t, h, d,
                         Some(op.id)) == Some(other) <==>
                Breaks(reg, op.id, row.machine, row.tool, t, h, d, other)
      {
        ValidateBreaks(reg, op.id, row.machine, row.tool, t, h, d, Some(op.id), other);
      }
      hide Validate, Breaks;
    }
  }

  // ---------------------------------------------------------------- reviews over whole runs

  predicate Accepted(reg: Registry, op: Op) { Perform(reg, op).Ok? }

  /** The last accepted operation on the row, not counting deletion. */
  function LastChange(reg: Registry, ops: seq<Op>, id: nat): Option<Op> {
    if ops == [] then None else
    var most, op := ops[..|ops| - 1], ops[|ops| - 1];
    if op.id == id && !op.SoftDelete? && Accepted(AfterAll(reg, most), op) then Some(op) else LastChange(reg, most, id)
  }

  /** After any run from an empty table a row exists exactly if it was created, and awaits review exactly
      unless the last accepted operation on it was a confirmation — which it then names. */
  lemma {:induction false} ReviewedIff(reg: Registry, ops: seq<Op>, id: nat)
    requires reg.rows == map[]
    ensures var rows, last := AfterAll(reg, ops).rows, LastChange(reg, ops, id);
            && (id in rows <==> last.Some?)
            && (id in rows ==> (rows[id].pendingReview <==> !last.value.Confirm?))
            && (id in rows && last.value.Confirm? ==> rows[id].confirmedBy == Some(last.value.user))
  {
    if ops != [] {
      var most, op := ops[..|ops| - 1], ops[|ops| - 1];
      ReviewedIff(reg, most, id);
      var before := AfterAll(reg, most);
      if Perform(before, op).Ok? {
        if op.Create? { CreateLeaves(before, op); }
        if op.Update? { UpdateLeaves(before, op); }
        if op.Confirm? || op.SoftDelete? { SettleLeaves(before, op); }
      }
      hide Perform;
    }
  }

  /** Deleting frees exactly the row's own slots: a value was taken by others before iff it is taken
      at all afterwards. */
  lemma DeleteFreesOwnSlots(reg: Registry, id: nat, machine: nat, c: Column, value: nat)
    requires Sound(reg) && Perform(reg, SoftDelete(id)).Ok?
    ensures var reg' := After(reg, SoftDelete(id));
            ActiveConflict(reg'.rows, machine, c, Some(value), None) <==>
            ActiveConflict(reg.rows, machine, c, Some(value), None) && !Holds(reg.rows, id, machine, c, Some(value))
  {
    var rows' := After(reg, SoftDelete(id)).rows;
    forall a
      ensures Holds(rows', a, machine, c, Some(value)) <==> Holds(reg.rows, a, machine, c, Some(value)) && a != id { }
    if ActiveConflict(reg.rows, machine, c, Some(value), None) {
      var a :| a in reg.rows && Holds(reg.rows, a, machine, c, Some(value));
      if a != id { assert Holds(rows', a, machine, c, Some(value)); }
    }
    if ActiveConflict(rows', machine, c, Some(value), None) {
      var a :| a in rows' && Holds(rows', a, machine, c, Some(value));
      assert Holds(reg.rows, a, machine, c, Some(value));
    }
  }

  // ---------------------------------------------------------------- the service, in place

  class AssignmentTable {
    const machines: map<nat, Machine>
    const tools: map<nat, Tool>
    var rows: map<nat, Assignment>

    constructor (machines: map<nat, Machine>, tools: map<nat, Tool>)
      ensures Contents() == Registry(machines, tools, map[])
    {
      this.machines, this.tools := machines, tools;
      rows := map[];
    }

    ghost function Contents(): Registry
      reads this
    {
      Registry(machines, tools, rows)
    }

    method ValidateRegisters(
      machine: nat, tool: nat, t: Option<nat>, h: Option<nat>, d: Option<nat>, exclude: Option<nat>)
      returns (refused: Option<Error>)
      requires machine in machines && tool in tools
      ensures refused == Validate(rows, machine, machines[machine], tools[tool], t, h, d, exclude)
    {
      var m := machines[machine];
      if m.probeT.Some? && t == m.probeT { return Some(ProbeLocked(TColumn)); }
      if m.probeH.Some? && h == m.probeH { return Some(ProbeLocked(HColumn)); }
      if ActiveConflict(rows, machine, TColumn, t, exclude) { return Some(Taken(TColumn)); }
      if ActiveConflict(rows, machine, HColumn, h, exclude) { return Some(Taken(HColumn)); }
      if ActiveConflict(rows, machine, DColumn, d, exclude) { return Some(Taken(DColumn)); }
      if tools[tool].requiresTsc && !m.hasTsc { return Some(NoTsc); }
      return None;
    }

    method CreateAssignment(id: nat, tool: nat, machine: nat, t: nat, h: nat, d: Option<nat>)
      returns (error: Option<Error>)
      requires id !in rows
      modifies this
      ensures Contents() == After(old(Contents()), Create(id, tool, machine, t, h, d))
      ensures error.None? <==> Perform(old(Contents()), Create(id, tool, machine, t, h, d)).Ok?
      ensures error.Some? ==> Perform(old(Contents()), Create(id, tool, machine, t, h, d)).error == error.value
    {
      if tool !in tools { return Some(NotFound); }
      if tools[tool].retired { return Some(Retired); }
      if machine !in machines { return Some(NotFound); }
      if !machines[machine].enabled { return Some(Disabled); }
      error := ValidateRegisters(machine, tool, Some(t), Some(h), d, None);
      if error.Some? { return; }
      rows := rows[id := Assignment(tool, machine, t, h, d, true, None, false)];
    }

    method UpdateAssignment(id: nat, patch: Patch) returns (error: Option<Error>)
      modifies this
      ensures Contents() == After(old(Contents()), Update(id, patch))
      ensures error.None? <==> Perform(old(Contents()), Update(id, patch)).Ok?
      ensures error.Some? ==> Perform(old(Contents()), Update(id, patch)).error == error.value
    {
      if id !in rows { return Some(NotFound); }
      var row := rows[id];
      if row.deleted { return Some(Deleted); }
      var t, h, d := Patched(patch.t, Some(row.t)), Patched(patch.h, Some(row.h)), Patched(patch.d, row.d);
      if row.machine !in machines || row.tool !in tools { return Some(NotFound); }
      error := ValidateRegisters(row.machine, row.tool, t, h, d, Some(id));
      if error.Some? { return; }
      if t.None? || h.None? { return Some(NotNull); }
      rows := rows[id := row.(t := t.value, h := h.value, d := d, pendingReview := true)];
    }

    method ConfirmAssignment(id: nat, user: nat) returns (error: Option<Error>)
      modifies this
      ensures Contents() == After(old(Contents()), Confirm(id, user))
      ensures error.None? <==> Perform(old(Contents()), Confirm(id, user)).Ok?
      ensures error.Some? ==> Perform(old(Contents()), Confirm(id, user)).error == error.value
    {
      if id !in rows { return Some(NotFound); }
      if rows[id].deleted { return Some(Deleted); }
      rows := rows[id := rows[id].(pendingReview := false, confirmedBy := Some(user))];
      return None;
    }

    method SoftDeleteAssignment(id: nat) returns (error: Option<Error>)
      modifies this
      ensures Contents() == After(old(Contents()), SoftDelete(id))
      ensures error.None? <==> Perform(old(Contents()), SoftDelete(id)).Ok?
      ensures error.Some? ==> Perform(old(Contents()), SoftDelete(id)).error == error.value
    {
      if id !in rows { return Some(NotFound); }
      if rows[id].deleted { return Some(Deleted); }
      rows := rows[id := rows[id].(deleted := true)];
      return None;
    }
  }
}
