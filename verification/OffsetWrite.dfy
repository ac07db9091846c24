/**
 The offset write lifecycle (`apps/tooling/api/services/offset_write.py`) behind its gate
 (`write_safety.py`), with the labelled mock as the write target (`shared/focas/mock.py`).

 `Execute` and its companions say what one call does to the session and the target; the classes do it
 in place.  Values are whole numbers of 0.0001 mm.
 */
module OffsetWrite {
  import opened Wrappers
  import opened FocasModels
  import PlainText

  // ---------------------------------------------------------------- offset math

  const ABS_MAX := 99999999      // 9999.9999 mm
  const LARGE_DIFF := 5000       // 0.5 mm

  predicate WithinBounds(v: int) { -ABS_MAX <= v <= ABS_MAX }

  function DiffMm(a: int, b: int): nat { if a <= b then b - a else a - b }

  predicate IsLargeDiff(a: int, b: int) { DiffMm(a, b) > LARGE_DIFF }

  /** H geometry only; D wear never, whatever the writable set becomes. */
  predicate IsWritable(bank: RegisterType) { bank.HGeom? && !bank.DWear? }

  // ---------------------------------------------------------------- the gate

  datatype GateReason = ProbeRegister | MachineRunning | UnsafeMode | NoAsk | BadPassword

  /** What the operator presents with one execute call, and the configured password. */
  datatype Attempt = Attempt(
    user: nat, status: MachineStatus, approved: bool, password: string, configured: Option<string>, acknowledged: bool)

  predicate SafeMode(m: MachineMode) {
    m.Mdi? || m.Edit? || m.Hnd? || m.Jog? || m.Ref?
  }

  /** No configured password means none can verify. */
  predicate PasswordOk(a: Attempt) {
    a.configured.Some? && a.configured.value != "" && a.password == a.configured.value
  }

  function AuthorizeWrite(a: Attempt, isProbe: bool): Option<GateReason> {
    if isProbe then Some(ProbeRegister)
    else if a.status.running then Some(MachineRunning)
    else if !SafeMode(a.status.mode) then Some(UnsafeMode)
    else if !a.approved then Some(NoAsk)
    else if !PasswordOk(a) then Some(BadPassword)
    else None
  }

  // ---------------------------------------------------------------- rows

  type Key = (nat, RegisterType)

  datatype Error =
    | NotFound | NotWritable | OutOfBounds | NoReason | ProbeLocked
    | AlreadyExecuted | Blocked(reason: GateReason) | Drift | NeedsAcknowledgement | WriteRejected | ReadBackMismatch

  datatype Request = Request(
    machine: nat, key: Key, intended: int, staged: Option<int>, reason: string, requestedBy: nat,
    executed: bool, confirmedBy: Option<nat>, verified: Option<int>, success: Option<bool>, error: Option<Error>)

  datatype Audit = Audit(
    key: Key, machine: nat, user: nat, before: Option<int>, after: Option<int>,
    success: bool, error: Option<Error>, reason: string)

  datatype Target = Target(values: map<Key, int>, reject: bool, corruptDelta: int, writes: seq<(Key, int)>)

  /** What was true when the target's write was called. */
  datatype WriteEvent = WriteEvent(id: nat, key: Key, value: int, live: int, attempt: Attempt, probeH: Option<nat>)

  datatype World = World(
    machines: map<nat, Option<nat>>,  // machine id to its probe H register
    requests: map<nat, Request>, audits: seq<Audit>, target: Target, trace: seq<WriteEvent>)

  function LiveValue(t: Target, key: Key): int {
    if key in t.values then t.values[key] else 0
  }

  predicate IsProbeTarget(probeH: Option<nat>, key: Key) {
    probeH.Some? && key.0 == probeH.value
  }

  // ---------------------------------------------------------------- create

  datatype NewRequest = NewRequest(machine: nat, key: Key, intended: int, reason: string, user: nat)

  /** `not reason.strip()` */
  predicate Blank(s: string) { PlainText.Strip(s) == "" }

  function CreateError(w: World, n: NewRequest): Option<Error> {
    if !IsWritable(n.key.1) then Some(NotWritable)
    else if !WithinBounds(n.intended) then Some(OutOfBounds)
    else if Blank(n.reason) then Some(NoReason)
    else if n.machine !in w.machines then Some(NotFound)
    else if IsProbeTarget(w.machines[n.machine], n.key) then Some(ProbeLocked)
    else None
  }

  function CreateRequest(w: World, id: nat, n: NewRequest): World {
    if CreateError(w, n).Some? then w else
    w.(requests := w.requests[id := Request(n.machine, n.key, n.intended, Some(LiveValue(w.target, n.key)),
                                            PlainText.Strip(n.reason), n.user,
                                            false, None, None, None, None)])
  }

  // ---------------------------------------------------------------- execute

  function AuditOf(r: Request, user: nat, after: Option<int>, success: bool, error: Option<Error>): Audit {
    Audit(r.key, r.machine, user, r.staged, after, success, error, r.reason)
  }

  /** Mark executed-and-failed, and audit. */
  function Fail(w: World, id: nat, user: nat, error: Error, verified: Option<int>): World
    requires id in w.requests
  {
    var r := w.requests[id];
    w.(requests := w.requests[id := r.(executed := true, confirmedBy := Some(user), verified := verified,
                                       success := Some(false), error := Some(error))],
       audits := w.audits + [AuditOf(r, user, None, false, Some(error))])
  }

  function Succeed(w: World, id: nat, user: nat, verified: int): World
    requires id in w.requests
  {
    var r := w.requests[id];
    w.(requests := w.requests[id := r.(executed := true, confirmedBy := Some(user), verified := Some(verified),
                                       success := Some(true), error := None)],
       audits := w.audits + [AuditOf(r, user, Some(verified), true, None)])
  }

  /** The target's write: recorded, then refused or stored. */
  function Written(t: Target, key: Key, value: int): Target {
    var t' := t.(writes := t.writes + [(key, value)]);
    if t.reject then t' else t'.(values := t.values[key := value + t.corruptDelta])
  }

  /** The first refusal, in guard order, before anything is written. */
  function ExecuteError(w: World, id: nat, a: Attempt): Option<Error> {
    if id !in w.requests then Some(NotFound) else
    var r := w.requests[id];
    if r.executed then Some(AlreadyExecuted)
    else if r.machine !in w.machines then Some(NotFound)
    else
      var gate := AuthorizeWrite(a, IsProbeTarget(w.machines[r.machine], r.key));
      var live := LiveValue(w.target, r.key);
      if gate.Some? then Some(Blocked(gate.value))
      else if r.staged.Some? && live != r.staged.value then Some(Drift)
      else if !WithinBounds(r.intended) then Some(OutOfBounds)
      else if IsLargeDiff(live, r.intended) && !a.acknowledged then Some(NeedsAcknowledgement)
      else None
  }

  /** One execute call: the new world, and the error raised, if any. */
  function Execute(w: World, id: nat, a: Attempt): (World, Option<Error>) {
    var refused := ExecuteError(w, id, a);
    if refused.Some? then
      match refused.value
      case Blocked(_) =>
        (w.(audits := w.audits + [AuditOf(w.requests[id], a.user, None, false, refused)]), refused)
      case Drift =>
        (Fail(w, id, a.user, Drift, Some(LiveValue(w.target, w.requests[id].key))), refused)
      case _ => (w, refused)
    else
      var r := w.requests[id];
      var event := WriteEvent(id, r.key, r.intended, LiveValue(w.target, r.key), a, w.machines[r.machine]);
      var w' := w.(target := Written(w.target, r.key, r.intended), trace := w.trace + [event]);
      var verified := LiveValue(w'.target, r.key);
      if w.target.reject then (Fail(w', id, a.user, WriteRejected, None), Some(WriteRejected))
      else if verified != r.intended
        then (Fail(w', id, a.user, ReadBackMismatch, Some(verified)), Some(ReadBackMismatch))
      else (Succeed(w', id, a.user, verified), None)
  }

  /** One after another; a missing id ends the batch, every other refusal only its item. */
  function Batch(w: World, ids: seq<nat>, a: Attempt): (World, seq<Option<Error>>)
  {
    if ids == [] then (w, []) else
    var (before, results) := Batch(w, ids[..|ids| - 1], a);
    if |results| < |ids| - 1 then (before, results) else
    var (after, outcome) := Execute(before, ids[|ids| - 1], a);
    if outcome == Some(NotFound) then (before, results) else (after, results + [outcome])
  }

  // ---------------------------------------------------------------- runs

  /** Service calls, and what else can happen around them: another hand on the control, the mock's
      failure modes, a changed machine row. */
  datatype Op =
    | Create(id: nat, request: NewRequest)
    | Run(id: nat, attempt: Attempt)
    | RunBatch(ids: seq<nat>, attempt: Attempt)
    | Outside(key: Key, value: int)
    | SetFaults(reject: bool, corruptDelta: int)
    | SetProbe(machine: nat, probeH: Option<nat>)

  function Apply(w: World, op: Op): World {
    match op
    case Create(id, n) => if id in w.requests then w else CreateRequest(w, id, n)
    case Run(id, a) => Execute(w, id, a).0
    case RunBatch(ids, a) => Batch(w, ids, a).0
    case Outside(key, v) => w.(target := w.target.(values := w.target.values[key := v]))
    case SetFaults(reject, delta) => w.(target := w.target.(reject := reject, corruptDelta := delta))
    case SetProbe(machine, probeH) => w.(machines := w.machines[machine := probeH])
  }

  function After(w: World, ops: seq<Op>): World {
    if ops == [] then w else Apply(After(w, ops[..|ops| - 1]), ops[|ops| - 1])
  }

  /** Nothing staged, audited or written yet. */
  ghost predicate Fresh(w: World) {
    w.requests == map[] && w.audits == [] && w.trace == [] && w.target.writes == []
  }

  // ---------------------------------------------------------------- the walls, in plain terms

  /** Not running, and in one of the five manual modes. */
  ghost predicate Manual(s: MachineStatus) {
    !s.running && s.mode in {Mdi, Edit, Hnd, Jog, Ref}
  }

  /** A password was typed, and it is the configured one. */
  ghost predicate Entered(a: Attempt) {
    a.password != "" && a.configured == Some(a.password)
  }

  /** At most 0.5 mm, or acknowledged. */
  ghost predicate Plausible(live: int, value: int, a: Attempt) {
    live - 5000 <= value <= live + 5000 || a.acknowledged
  }

  // ---------------------------------------------------------------- safety over whole runs

  /** The write was allowed when it happened: an H geometry of at most 9999.9999 mm, off the probe. */
  ghost predicate SafeWrite(e: WriteEvent) {
    && e.key.1 == HGeom && -99999999 <= e.value <= 99999999
    && e.probeH != Some(e.key.0)
    && Manual(e.attempt.status) && e.attempt.approved && Entered(e.attempt)
    && Plausible(e.live, e.value, e.attempt)
  }

  ghost predicate Staged(r: Request) {
    && r.key.1 == HGeom && -99999999 <= r.intended <= 99999999 && r.staged.Some? && r.reason != ""
    && (r.executed <==> r.success.Some?)
    && (r.success == Some(true) ==> r.verified == Some(r.intended) && r.error == None)
    && (r.success == Some(false) ==> r.error.Some?)
  }

  /** The write belongs to a terminal request, and carried out what it staged. */
  ghost predicate Accounted(w: World, e: WriteEvent) {
    && SafeWrite(e) && e.id in w.requests && w.requests[e.id].executed
    && e.key == w.requests[e.id].key && e.value == w.requests[e.id].intended
    && Some(e.live) == w.requests[e.id].staged
  }

  /** What every reachable world satisfies. */
  ghost predicate Safe(w: World) {
    && (forall id | id in w.requests :: Staged(w.requests[id]))
    && (forall i | 0 <= i < |w.trace| :: Accounted(w, w.trace[i]))
    && (forall i, j | 0 <= i < j < |w.trace| :: w.trace[i].id != w.trace[j].id)
    && |w.trace| == |w.target.writes|
    && (forall i | 0 <= i < |w.trace| :: w.target.writes[i] == (w.trace[i].key, w.trace[i].value))
  }

  /** Settling a request without writing. */
  lemma SettledSafe(w: World, w': World, id: nat)
    requires Safe(w) && id in w.requests && id in w'.requests
    requires var r, r' := w.requests[id], w'.requests[id];
             Staged(r') && (r.executed ==> r'.executed)
               && (r'.key, r'.intended, r'.staged) == (r.key, r.intended, r.staged)
    requires w'.requests == w.requests[id := w'.requests[id]]
    requires w'.trace == w.trace && w'.target.writes == w.target.writes
    ensures Safe(w')
  {
    forall i | 0 <= i < |w'.trace| ensures Accounted(w', w'.trace[i]) { assert Accounted(w, w.trace[i]); }
  }

  /** Writing for a pending request and settling it. */
  lemma WroteSafe(w: World, w': World, id: nat, e: WriteEvent)
    requires Safe(w) && id in w.requests && !w.requests[id].executed && id in w'.requests
    requires Staged(w'.requests[id]) && e.id == id && Accounted(w', e)
    requires w'.requests == w.requests[id := w'.requests[id]]
    requires w'.trace == w.trace + [e] && w'.target.writes == w.target.writes + [(e.key, e.value)]
    ensures Safe(w')
  {
    forall i | 0 <= i < |w.trace| ensures Accounted(w', w.trace[i]) && w.trace[i].id != id {
      assert Accounted(w, w.trace[i]);
    }
  }

  lemma ExecuteSafe(w: World, id: nat, a: Attempt)
    requires Safe(w)
    ensures Safe(Execute(w, id, a).0)
  {
    var w' := Execute(w, id, a).0;
    if ExecuteError(w, id, a).Some? {
      hide Safe;
      if id in w.requests {
        StagedStays(w, id, a);
        SettledSafe(w, w', id);
      }
    } else {
      var e := w'.trace[|w.trace|];
      StagedStays(w, id, a);
      assert Accounted(w', e);
      hide Safe;
      WroteSafe(w, w', id, e);
    }
  }

  lemma StagedStays(w: World, id: nat, a: Attempt)
    requires Safe(w) && id in w.requests
    ensures var w' := Execute(w, id, a).0; id in w'.requests && Staged(w'.requests[id])
  {
    assert Staged(w.requests[id]);
    hide Safe;
  }

  lemma {:induction false} BatchSafe(w: World, ids: seq<nat>, a: Attempt)
    requires Safe(w)
    ensures Safe(Batch(w, ids, a).0)
  {
    hide Execute, Safe;
    if ids != [] {
      BatchSafe(w, ids[..|ids| - 1], a);
      ExecuteSafe(Batch(w, ids[..|ids| - 1], a).0, ids[|ids| - 1], a);
    }
  }

  lemma ApplySafe(w: World, op: Op)
    requires Safe(w)
    ensures Safe(Apply(w, op))
  {
    match op
    case Run(id, a) => ExecuteSafe(w, id, a);
    case RunBatch(ids, a) => BatchSafe(w, ids, a);
    case Create(id, n) =>
    case Outside(key, v) =>
    case SetFaults(reject, delta) =>
    case SetProbe(machine, probeH) =>
  }

  /** Over every run, with faults, other hands and changing probe rows: each request reaches the
      target's write at most once and is terminal from then on; every value written is an in-bounds H
      geometry off the probe register, in a safe idle mode, asked for and entered, and a large change
      only when acknowledged; nothing else was ever commanded; success means the read-back was the
      intended value. */
  lemma {:induction false} EveryWriteSafe(w: World, ops: seq<Op>)
    requires Fresh(w)
    ensures Safe(After(w, ops))
  {
    if ops != [] {
      EveryWriteSafe(w, ops[..|ops| - 1]);
      hide Apply, Safe;
      ApplySafe(After(w, ops[..|ops| - 1]), ops[|ops| - 1]);
    }
  }

  ghost predicate Closed(w: World, id: nat, r: Request) {
    r.executed && id in w.requests && w.requests[id] == r
  }

  lemma ExecuteClosed(w: World, other: nat, a: Attempt, id: nat, r: Request)
    requires Closed(w, id, r)
    ensures Closed(Execute(w, other, a).0, id, r)
  {
    if other != id { OthersStay(w, other, a); }
  }

  lemma {:induction false} BatchClosed(w: World, ids: seq<nat>, a: Attempt, id: nat, r: Request)
    requires Closed(w, id, r)
    ensures Closed(Batch(w, ids, a).0, id, r)
  {
    hide Execute, Closed;
    if ids != [] {
      BatchClosed(w, ids[..|ids| - 1], a, id, r);
      ExecuteClosed(Batch(w, ids[..|ids| - 1], a).0, ids[|ids| - 1], a, id, r);
    }
  }

  /** What a request ended with is final: no later call, fault or other hand changes it, and every
      later attempt on it is refused without effect. */
  lemma {:induction false} ExecutedStays(w: World, ops: seq<Op>, id: nat, a: Attempt)
    requires id in w.requests && w.requests[id].executed
    ensures Closed(After(w, ops), id, w.requests[id])
    ensures Execute(After(w, ops), id, a) == (After(w, ops), Some(AlreadyExecuted))
  {
    if ops != [] {
      var before, op, r := After(w, ops[..|ops| - 1]), ops[|ops| - 1], w.requests[id];
      ExecutedStays(w, ops[..|ops| - 1], id, a);
      match op
      case Run(other, attempt) => ExecuteClosed(before, other, attempt, id, r);
      case RunBatch(ids, attempt) => hide Batch; BatchClosed(before, ids, attempt, id, r);
      case _ =>
    }
  }

  /** What an operator can see before the call: the request is open, its machine known, its register not
      the probe's, the machine idle in a manual mode, the write asked for and the password right, the
      register still at its staged value, and a change of more than 0.5 mm acknowledged. */
  ghost predicate MayWrite(w: World, id: nat, a: Attempt) {
    && GateOpen(w, id, a)
    && w.requests[id].staged == Some(LiveValue(w.target, w.requests[id].key))
    && Plausible(LiveValue(w.target, w.requests[id].key), w.requests[id].intended, a)
  }

  ghost predicate Open(w: World, id: nat) {
    id in w.requests && !w.requests[id].executed && w.requests[id].machine in w.machines
  }

  ghost predicate GateOpen(w: World, id: nat, a: Attempt) {
    && Open(w, id)
    && w.machines[w.requests[id].machine] != Some(w.requests[id].key.0)
    && Manual(a.status) && a.approved && Entered(a)
  }

  /** In every reachable world the target is written exactly then; and the call leaves every other
      request as it is, and every register but its own. */
  lemma WrittenIff(w: World, id: nat, a: Attempt)
    requires Safe(w)
    ensures var w' := Execute(w, id, a).0;
            && (!MayWrite(w, id, a) ==> w'.target == w.target && w'.trace == w.trace)
            && (MayWrite(w, id, a) ==>
                  w'.target.writes == w.target.writes + [(w.requests[id].key, w.requests[id].intended)])
            && (MayWrite(w, id, a) ==> forall key | key != w.requests[id].key ::
                  LiveValue(w'.target, key) == LiveValue(w.target, key))
            && OthersKept(w, w', id)
  {
    if id in w.requests { assert Staged(w.requests[id]); }
    OthersStay(w, id, a);
    hide Safe;
  }

  ghost predicate OthersKept(w: World, w': World, id: nat) {
    forall other | other != id ::
      (other in w'.requests <==> other in w.requests)
        && (other in w.requests ==> w'.requests[other] == w.requests[other])
  }

  lemma OthersStay(w: World, id: nat, a: Attempt)
    ensures OthersKept(w, Execute(w, id, a).0, id)
  {
    hide ExecuteError;
  }

  // ---------------------------------------------------------------- what a refusal is, and what it leaves

  /** Only the ledger has moved, by one row. */
  ghost predicate OnlyAudited(w: World, w': World) {
    |w'.audits| == |w.audits| + 1 && w.audits <= w'.audits && w' == w.(audits := w'.audits)
  }

  /** An open request meets the walls in this order; a wall that stands blocks it, and leaves it pending
      with one row in the ledger. */
  lemma WallsBlock(w: World, id: nat, a: Attempt)
    requires Open(w, id)
    ensures var (w', error) := Execute(w, id, a);
            var probe := w.machines[w.requests[id].machine] == Some(w.requests[id].key.0);
            && (error == Some(Blocked(ProbeRegister)) <==> probe)
            && (error == Some(Blocked(MachineRunning)) <==> !probe && a.status.running)
            && (error == Some(Blocked(UnsafeMode)) <==>
                !probe && !a.status.running && a.status.mode !in {Mdi, Edit, Hnd, Jog, Ref})
            && (error == Some(Blocked(NoAsk)) <==> !probe && Manual(a.status) && !a.approved)
            && (error == Some(Blocked(BadPassword)) <==> !probe && Manual(a.status) && a.approved && !Entered(a))
            && (error.Some? && error.value.Blocked? ==> OnlyAudited(w, w'))
  {
  }

  /** Without the configured password nothing is ever written: an open request is refused, by the password
      wall itself when the others stand open. */
  lemma WrongPasswordWritesNothing(w: World, id: nat, a: Attempt)
    requires a.password == "" || a.configured != Some(a.password)
    ensures var (w', error) := Execute(w, id, a);
            && w'.target == w.target && w'.trace == w.trace && w'.requests == w.requests
            && (Open(w, id) ==> error.Some? && error.value.Blocked?)
            && (Open(w, id) && w.machines[w.requests[id].machine] != Some(w.requests[id].key.0) ==>
                Manual(a.status) && a.approved ==> error == Some(Blocked(BadPassword)))
  {
  }

  /** The errors of a request that the gate would let through, and what each outcome leaves in it. */
  lemma OutcomeIff(w: World, id: nat, a: Attempt)
    requires Safe(w)
    ensures var (w', error) := Execute(w, id, a);
            && (error == Some(NotFound) <==>
                id !in w.requests || (!w.requests[id].executed && w.requests[id].machine !in w.machines))
            && (error == Some(AlreadyExecuted) <==> id in w.requests && w.requests[id].executed)
            && (error == Some(Drift) <==>
                GateOpen(w, id, a) && w.requests[id].staged != Some(LiveValue(w.target, w.requests[id].key)))
            && (error == Some(NeedsAcknowledgement) <==>
                && GateOpen(w, id, a) && w.requests[id].staged == Some(LiveValue(w.target, w.requests[id].key))
                && !Plausible(LiveValue(w.target, w.requests[id].key), w.requests[id].intended, a))
            && (error == Some(WriteRejected) <==> MayWrite(w, id, a) && w.target.reject)
            && (error == Some(ReadBackMismatch) <==>
                MayWrite(w, id, a) && !w.target.reject && w.target.corruptDelta != 0)
            && (error == None <==> MayWrite(w, id, a) && !w.target.reject && w.target.corruptDelta == 0)
  {
    if id in w.requests { assert Staged(w.requests[id]); }
    hide Safe;
  }

  /** A value out of bounds, which create never stages, would be refused after the gate and before the write. */
  lemma UnboundedRefused(w: World, id: nat, a: Attempt)
    requires GateOpen(w, id, a) && w.requests[id].staged == Some(LiveValue(w.target, w.requests[id].key))
    ensures Execute(w, id, a).1 == Some(OutOfBounds) <==> !(-99999999 <= w.requests[id].intended <= 99999999)
    ensures Execute(w, id, a).1 == Some(OutOfBounds) ==> Execute(w, id, a).0 == w
  {
  }

  /** What the call leaves in its request and its register. */
  lemma OutcomeLeaves(w: World, id: nat, a: Attempt)
    requires Safe(w) && id in w.requests
    ensures var (w', error) := Execute(w, id, a);
            var r := w.requests[id];
            var terminal := error.None? || error.value in {Drift, WriteRejected, ReadBackMismatch};
            && id in w'.requests
            && (!terminal ==> w'.requests == w.requests && w'.target == w.target)
            && (terminal ==>
                  && w'.requests[id] == r.(executed := true, confirmedBy := Some(a.user), success := Some(error.None?),
                                           error := error, verified := w'.requests[id].verified)
                  && w'.requests[id].verified ==
                     if error == Some(WriteRejected) then None else Some(LiveValue(w'.target, r.key)))
            && LiveValue(w'.target, r.key) ==
               if error.None? then r.intended
               else if error == Some(ReadBackMismatch) then r.intended + w.target.corruptDelta
               else LiveValue(w.target, r.key)
  {
    assert Staged(w.requests[id]);
    BoundsHoldAtExecute(w, id, a);
    hide Safe;
  }

  /** What a row of the ledger says: whose register, what it held when the request was staged, what it
      reads after a success, who tried, why it was asked for and how it ended. */
  lemma AuditRowTells(w: World, id: nat, a: Attempt)
    requires Safe(w) && |Execute(w, id, a).0.audits| != |w.audits|
    ensures id in w.requests
    ensures var (w', error) := Execute(w, id, a);
            var r := w.requests[id];
            w'.audits == w.audits + [Audit(r.key, r.machine, a.user, r.staged,
                                           if error.None? then Some(LiveValue(w'.target, r.key)) else None,
                                           error.None?, error, r.reason)]
  {
    if id in w.requests { assert Staged(w.requests[id]); }
    hide Safe;
  }

  /** When a request may be staged, and what is staged: the register's live value beside the intended
      one, and a reason with something in it. */
  lemma StagedIff(w: World, id: nat, n: NewRequest)
    requires id !in w.requests
    ensures var w' := Apply(w, Create(id, n));
            var bank, bounded, known := n.key.1 == HGeom, -99999999 <= n.intended <= 99999999, n.machine in w.machines;
            var reason := PlainText.Strip(n.reason) != "";
            && (CreateError(w, n) == Some(NotWritable) <==> !bank)
            && (CreateError(w, n) == Some(OutOfBounds) <==> bank && !bounded)
            && (CreateError(w, n) == Some(NoReason) <==> bank && bounded && !reason)
            && (CreateError(w, n) == Some(NotFound) <==> bank && bounded && reason && !known)
            && (CreateError(w, n) == Some(ProbeLocked) <==>
                bank && bounded && reason && known && w.machines[n.machine] == Some(n.key.0))
            && (CreateError(w, n).Some? <==> id !in w'.requests)
            && (CreateError(w, n).Some? ==> w' == w)
            && (id in w'.requests ==>
                  && w' == w.(requests := w'.requests)
                  && w'.requests - {id} == w.requests
                  && var r := w'.requests[id];
                     && r.staged == Some(LiveValue(w.target, n.key)) && r.intended == n.intended
                     && r.key == n.key && r.machine == n.machine && r.requestedBy == n.user
                     && r.reason == PlainText.Strip(n.reason)
                     && !r.executed && r.confirmedBy.None? && r.verified.None? && r.success.None? && r.error.None?)
  {
    hide PlainText.Strip;
  }

  // ---------------------------------------------------------------- what is audited

  /** Create has bounded the value, so the bounds check of an execute never fires. */
  lemma BoundsHoldAtExecute(w: World, id: nat, a: Attempt)
    requires Safe(w)
    ensures ExecuteError(w, id, a) != Some(OutOfBounds)
  {
    if id in w.requests { assert Staged(w.requests[id]); }
  }

  /** In every reachable world: an attempt on an open request leaves one audit row, except one that the
      gate lets through, that finds the register at its staged value, and whose change of more than
      0.5 mm is not acknowledged.  That one, like an attempt on any other request, changes nothing. */
  lemma AuditedIff(w: World, id: nat, a: Attempt)
    requires Safe(w)
    ensures var w' := Execute(w, id, a).0;
            var audited := Open(w, id) && (!GateOpen(w, id, a)
                                           || w.requests[id].staged != Some(LiveValue(w.target, w.requests[id].key))
                                           || Plausible(LiveValue(w.target, w.requests[id].key),
                                                        w.requests[id].intended, a));
            && (audited ==> |w'.audits| == |w.audits| + 1 && w.audits <= w'.audits)
            && (!audited ==> w' == w)
  {
    if id in w.requests { assert Staged(w.requests[id]); }
    BoundsHoldAtExecute(w, id, a);
    hide Safe;
  }

  const MANUAL_STATUS := MachineStatus(Mdi, false, false, None, None, None, None, None)
  const PERMIT := Attempt(9, MANUAL_STATUS, true, "p", Some("p"), false)
  const H7: Key := (7, HGeom)
  const EMPTY := World(map[1 := None], map[], [], Target(map[], false, 0, []), [])

  lemma ReasonStays()
    ensures PlainText.Strip("r") == "r"
  {
    var reason := "r";
    assert reason[0] == 'r' && |reason| == 1;
    PlainText.StripsToItself(reason);
  }

  /** A permitted attempt that the ledger never hears of: 1 mm staged at 0, executed without
      acknowledgement. */
  lemma UnauditedAttempt()
    ensures var w := After(EMPTY, [Create(5, NewRequest(1, H7, 10000, "r", 9))]);
            && Fresh(EMPTY) && 5 in w.requests
            && Execute(w, 5, PERMIT) == (w, Some(NeedsAcknowledgement))
  {
    var create := Create(5, NewRequest(1, H7, 10000, "r", 9));
    AfterSnoc(EMPTY, [], create);
    assert [] + [create] == [create];
    ReasonStays();
    hide PlainText.Strip;
  }

  // ---------------------------------------------------------------- the chain of successful writes

  /** The target stores what it accepts and nobody else writes. */
  ghost predicate FaithfulOp(op: Op) {
    !op.Outside? && (op.SetFaults? ==> op.corruptDelta == 0)
  }

  ghost predicate Faithful(w: World, ops: seq<Op>) {
    w.target.corruptDelta == 0 && forall i | 0 <= i < |ops| :: FaithfulOp(ops[i])
  }

  /** The (before, after) pairs of a register's successful audits. */
  function Successes(audits: seq<Audit>, key: Key): seq<(int, int)> {
    if audits == [] then [] else
    var a := audits[|audits| - 1];
    Successes(audits[..|audits| - 1], key)
    + if a.success && a.key == key && a.before.Some? && a.after.Some? then [(a.before.value, a.after.value)] else []
  }

  /** From `first`, each write starts where the previous one ended, and the last ends at `last`. */
  ghost predicate ChainFrom(s: seq<(int, int)>, first: int, last: int) {
    if s == [] then first == last
    else s[|s| - 1].1 == last && ChainFrom(s[..|s| - 1], first, s[|s| - 1].0)
  }

  lemma SuccessesSnoc(audits: seq<Audit>, a: Audit, key: Key)
    ensures Successes(audits + [a], key) ==
            Successes(audits, key)
            + if a.success && a.key == key && a.before.Some? && a.after.Some?
              then [(a.before.value, a.after.value)] else []
  {
    assert (audits + [a])[..|audits|] == audits;
  }

  ghost predicate Chained(w0: World, w: World, key: Key) {
    w.target.corruptDelta == 0
      && ChainFrom(Successes(w.audits, key), LiveValue(w0.target, key), LiveValue(w.target, key))
  }

  lemma ExecuteChained(w0: World, w: World, id: nat, a: Attempt, key: Key)
    requires Safe(w) && Chained(w0, w, key)
    ensures Chained(w0, Execute(w, id, a).0, key)
  {
    if id in w.requests { assert Staged(w.requests[id]); }
    hide Safe, ChainFrom;
    var (w', outcome) := Execute(w, id, a);
    if |w'.audits| == |w.audits| + 1 {
      var row := w'.audits[|w.audits|];
      assert w'.audits == w.audits + [row];
      SuccessesSnoc(w.audits, row, key);
      hide Successes;
      if outcome.None? && row.key == key {
        var s, step := Successes(w.audits, key), (row.before.value, row.after.value);
        assert (s + [step])[..|s|] == s;
        assert row.before.value == LiveValue(w.target, key) && row.after.value == LiveValue(w'.target, key);
        ChainSnoc(s, step, LiveValue(w0.target, key));
      } else {
        assert Successes(w'.audits, key) == Successes(w.audits, key);
      }
    }
  }

  lemma ChainSnoc(s: seq<(int, int)>, step: (int, int), first: int)
    requires ChainFrom(s, first, step.0)
    ensures ChainFrom(s + [step], first, step.1)
  {
    assert (s + [step])[..|s|] == s;
  }

  lemma {:induction false} BatchChained(w0: World, w: World, ids: seq<nat>, a: Attempt, key: Key)
    requires Safe(w) && Chained(w0, w, key)
    ensures Chained(w0, Batch(w, ids, a).0, key)
  {
    hide Execute, Safe, Chained;
    if ids != [] {
      BatchSafe(w, ids[..|ids| - 1], a);
      BatchChained(w0, w, ids[..|ids| - 1], a, key);
      ExecuteChained(w0, Batch(w, ids[..|ids| - 1], a).0, ids[|ids| - 1], a, key);
    }
  }

  /** With a faithful target and no other hand, over any mix of calls and refusals, a register's
      successful audits chain: each `before` is the register's value just before, each `after` the
      value just after, from the first value to the current one. */
  lemma {:induction false} SuccessesChain(w: World, ops: seq<Op>, key: Key)
    requires Fresh(w) && Faithful(w, ops)
    ensures Chained(w, After(w, ops), key)
  {
    if ops != [] {
      var most, op := ops[..|ops| - 1], ops[|ops| - 1];
      assert forall i | 0 <= i < |most| :: most[i] == ops[i];
      SuccessesChain(w, most, key);
      EveryWriteSafe(w, most);
      assert FaithfulOp(op);
      hide Safe;
      match op
      case Run(id, a) => ExecuteChained(w, After(w, most), id, a, key);
      case RunBatch(ids, a) => BatchChained(w, After(w, most), ids, a, key);
      case _ =>
    }
  }

  // ---------------------------------------------------------------- how often a value can be left

  /** Successful writes that changed the register away from `v`, and to `v`. */
  function Departures(s: seq<(int, int)>, v: int): nat {
    if s == [] then 0 else
    var p := s[|s| - 1];
    Departures(s[..|s| - 1], v) + if p.0 == v && p.1 != v then 1 else 0
  }

  function Arrivals(s: seq<(int, int)>, v: int): nat {
    if s == [] then 0 else
    var p := s[|s| - 1];
    Arrivals(s[..|s| - 1], v) + if p.1 == v && p.0 != v then 1 else 0
  }

  function At(x: int, v: int): nat { if x == v then 1 else 0 }

  lemma {:induction false} ChainBalances(s: seq<(int, int)>, first: int, last: int, v: int)
    requires ChainFrom(s, first, last)
    ensures Departures(s, v) + At(last, v) == Arrivals(s, v) + At(first, v)
  {
    if s != [] { ChainBalances(s[..|s| - 1], first, s[|s| - 1].0, v); }
  }

  /** Conservation: of the requests staged at a value, the successful value-changing ones number
      exactly the writes that brought the register to that value, plus one if it started there, less
      one if it is there now. */
  lemma DeparturesBalance(w: World, ops: seq<Op>, key: Key, v: int)
    requires Fresh(w) && Faithful(w, ops)
    ensures var w' := After(w, ops);
            var s := Successes(w'.audits, key);
            Departures(s, v) + At(LiveValue(w'.target, key), v) == Arrivals(s, v) + At(LiveValue(w.target, key), v)
  {
    SuccessesChain(w, ops, key);
    ChainBalances(Successes(After(w, ops).audits, key), LiveValue(w.target, key),
                  LiveValue(After(w, ops).target, key), v);
  }

  /** Each successful write starts where the one before it ended. */
  lemma {:induction false} ChainLinks(s: seq<(int, int)>, first: int, last: int, k: nat)
    requires ChainFrom(s, first, last) && 0 < k < |s|
    ensures s[k].0 == s[k - 1].1
  {
    if k < |s| - 1 {
      ChainLinks(s[..|s| - 1], first, s[|s| - 1].0, k);
    } else {
      assert s[..|s| - 1][k - 1] == s[k - 1];
    }
  }

  /** In a chain that leaves `v` at `i` and stands at `v` again at `j`, some write in between came back. */
  lemma ReturnBetween(s: seq<(int, int)>, first: int, last: int, v: int, i: nat, j: nat) returns (k: nat)
    requires ChainFrom(s, first, last) && i < j < |s|
    requires s[i].0 == v && s[i].1 != v && s[j].0 == v
    ensures i < k < j && s[k].0 != v && s[k].1 == v
  {
    k := i + 1;
    ChainLinks(s, first, last, k);
    while s[k].1 != v
      invariant i < k < j && s[k].0 != v
      decreases j - k
    {
      ChainLinks(s, first, last, k + 1);
      k := k + 1;
    }
  }

  /** So between two successful writes of requests staged at the same value, the first of which changed
      it, some other write of the run put that value back. */
  lemma SecondDepartureNeedsReturn(w: World, ops: seq<Op>, key: Key, v: int, i: nat, j: nat) returns (k: nat)
    requires Fresh(w) && Faithful(w, ops)
    requires var s := Successes(After(w, ops).audits, key); i < j < |s| && s[i].0 == v && s[i].1 != v && s[j].0 == v
    ensures var s := Successes(After(w, ops).audits, key); i < k < j && s[k].0 != v && s[k].1 == v
  {
    SuccessesChain(w, ops, key);
    hide After, Successes, Faithful;
    k := ReturnBetween(Successes(After(w, ops).audits, key), LiveValue(w.target, key),
                       LiveValue(After(w, ops).target, key), v, i, j);
  }

  /** Every successful audit row is some executed request's: its register, the value it was staged at and
      the value it intended. */
  ghost predicate Backed(w: World) {
    forall i | 0 <= i < |w.audits| && w.audits[i].success ::
      exists id :: BackedBy(w, w.audits[i], id)
  }

  ghost predicate BackedBy(w: World, a: Audit, id: nat) {
    && id in w.requests && w.requests[id].executed && w.requests[id].key == a.key
    && a.before == w.requests[id].staged && a.after == Some(w.requests[id].intended)
  }

  lemma StillBacked(w: World, w': World)
    requires Backed(w) && w.audits <= w'.audits
    requires forall id | id in w.requests && w.requests[id].executed ::
               id in w'.requests && w'.requests[id] == w.requests[id]
    requires forall i | |w.audits| <= i < |w'.audits| && w'.audits[i].success ::
               exists id :: BackedBy(w', w'.audits[i], id)
    ensures Backed(w')
  {
    forall i | 0 <= i < |w'.audits| && w'.audits[i].success ensures exists id :: BackedBy(w', w'.audits[i], id) {
      if i < |w.audits| {
        var id :| BackedBy(w, w.audits[i], id);
        assert BackedBy(w', w'.audits[i], id);
      }
    }
  }

  lemma ExecuteBacked(w: World, id: nat, a: Attempt)
    requires Backed(w)
    ensures Backed(Execute(w, id, a).0)
  {
    var (w', outcome) := Execute(w, id, a);
    OthersStay(w, id, a);
    if outcome.None? { assert BackedBy(w', w'.audits[|w.audits|], id); }
    hide Backed;
    StillBacked(w, w');
  }

  lemma {:induction false} BatchBacked(w: World, ids: seq<nat>, a: Attempt)
    requires Backed(w)
    ensures Backed(Batch(w, ids, a).0)
  {
    hide Execute, Backed;
    if ids != [] {
      BatchBacked(w, ids[..|ids| - 1], a);
      ExecuteBacked(Batch(w, ids[..|ids| - 1], a).0, ids[|ids| - 1], a);
    }
  }

  lemma {:induction false} EverySuccessBacked(w: World, ops: seq<Op>)
    requires Fresh(w)
    ensures Backed(After(w, ops))
  {
    if ops != [] {
      var most, op := ops[..|ops| - 1], ops[|ops| - 1];
      EverySuccessBacked(w, most);
      var h := After(w, most);
      match op
      case Run(id, a) => ExecuteBacked(h, id, a);
      case RunBatch(ids, a) => BatchBacked(h, ids, a);
      case _ => StillBacked(h, Apply(h, op));
    }
  }

  lemma {:induction false} SuccessIsAudit(audits: seq<Audit>, key: Key, k: nat) returns (i: nat)
    requires k < |Successes(audits, key)|
    ensures i < |audits| && audits[i].success && audits[i].key == key
            && audits[i].after == Some(Successes(audits, key)[k].1)
  {
    var most := audits[..|audits| - 1];
    if k < |Successes(most, key)| {
      i := SuccessIsAudit(most, key, k);
    } else {
      i := |audits| - 1;
    }
  }

  /** No request was ever staged to put the register at `v`. */
  ghost predicate NoneIntends(w: World, key: Key, v: int) {
    forall id | id in w.requests :: !(w.requests[id].key == key && w.requests[id].intended == v)
  }

  lemma {:induction false} NoArrivals(s: seq<(int, int)>, v: int)
    requires forall k | 0 <= k < |s| :: s[k].1 != v
    ensures Arrivals(s, v) == 0
  {
    if s != [] {
      assert forall k | 0 <= k < |s| - 1 :: s[..|s| - 1][k] == s[k];
      NoArrivals(s[..|s| - 1], v);
    }
  }

  /** Then the requests staged at `v` do exclude each other: at most one of them changes the register. */
  lemma AtMostOneUnlessIntended(w: World, ops: seq<Op>, key: Key, v: int)
    requires Fresh(w) && Faithful(w, ops) && NoneIntends(After(w, ops), key, v)
    ensures Departures(Successes(After(w, ops).audits, key), v) <= 1
  {
    var w' := After(w, ops);
    var s := Successes(w'.audits, key);
    DeparturesBalance(w, ops, key, v);
    EverySuccessBacked(w, ops);
    hide After, Successes, Departures;
    forall k | 0 <= k < |s| ensures s[k].1 != v {
      var i := SuccessIsAudit(w'.audits, key, k);
      var id :| BackedBy(w', w'.audits[i], id);
    }
    NoArrivals(s, v);
  }

  /** And the next attempt on a request staged at `v` changes the register away from it exactly if every
      guard is open — the register is back at `v` among them — and the target takes the write. */
  lemma NextDepartureIff(w: World, id: nat, a: Attempt, v: int)
    requires Safe(w) && id in w.requests && w.requests[id].staged == Some(v) && w.requests[id].intended != v
    requires w.target.corruptDelta == 0
    ensures var r, w' := w.requests[id], Execute(w, id, a).0;
            (w'.audits == w.audits + [AuditOf(r, a.user, Some(r.intended), true, None)] <==>
             MayWrite(w, id, a) && !w.target.reject)
  {
    assert Staged(w.requests[id]);
    hide Safe;
    var w' := Execute(w, id, a).0;
    assert (|w'.audits| == |w.audits| + 1 ==> !w'.audits[|w.audits|].success) <==>
           ExecuteError(w, id, a).Some? || w.target.reject;
  }

  function Pending(intended: int, staged: int): Request {
    Request(1, H7, intended, Some(staged), "r", 9, false, None, None, None, None)
  }

  function Settled(intended: int, staged: int): Request {
    Pending(intended, staged).(executed := true, confirmedBy := Some(9), verified := Some(intended),
                               success := Some(true))
  }

  function Wrote(from: int, to: int): Audit {
    Audit(H7, 1, 9, Some(from), Some(to), true, None, "r")
  }

  /** A permitted small write of a pending request. */
  lemma PermittedRun(w: World, id: nat, intended: int)
    requires id in w.requests && w.requests[id] == Pending(intended, LiveValue(w.target, H7))
    requires 1 in w.machines && w.machines[1] == None && !w.target.reject && w.target.corruptDelta == 0
    requires -10 <= intended <= 10 && -10 <= LiveValue(w.target, H7) <= 10
    ensures var w' := Apply(w, Run(id, PERMIT));
            && w'.requests == w.requests[id := Settled(intended, LiveValue(w.target, H7))]
            && w'.audits == w.audits + [Wrote(LiveValue(w.target, H7), intended)]
            && w'.machines == w.machines && !w'.target.reject && w'.target.corruptDelta == 0
            && LiveValue(w'.target, H7) == intended
  {
  }

  lemma StagedCreate(w: World, id: nat, intended: int)
    requires id !in w.requests && 1 in w.machines && w.machines[1] == None && -10 <= intended <= 10
    ensures Apply(w, Create(id, NewRequest(1, H7, intended, "r", 9)))
         == w.(requests := w.requests[id := Pending(intended, LiveValue(w.target, H7))])
  {
    ReasonStays();
    hide PlainText.Strip;
  }

  /** Two requests staged at 0, and the first one executed. */
  function LeaveOnce(): seq<Op> {
    [] + [Create(1, NewRequest(1, H7, 1, "r", 9))] + [Create(2, NewRequest(1, H7, 2, "r", 9))] + [Run(1, PERMIT)]
  }

  /** Then the register is written back to 0, and the second executed. */
  function LeaveTwice(): seq<Op> {
    LeaveOnce() + [Create(3, NewRequest(1, H7, 0, "r", 9))] + [Run(3, PERMIT)] + [Run(2, PERMIT)]
  }

  lemma LeftOnce()
    ensures var w := After(EMPTY, LeaveOnce());
            && w.machines == EMPTY.machines && !w.target.reject && w.target.corruptDelta == 0
            && LiveValue(w.target, H7) == 1
            && w.requests == map[1 := Settled(1, 0), 2 := Pending(2, 0)]
            && w.audits == [Wrote(0, 1)]
  {
    assert After(EMPTY, []) == EMPTY;
    hide Apply, After;
    var c1, c2 := Create(1, NewRequest(1, H7, 1, "r", 9)), Create(2, NewRequest(1, H7, 2, "r", 9));
    AfterSnoc(EMPTY, [], c1);
    StagedCreate(EMPTY, 1, 1);
    var w1 := Apply(EMPTY, c1);
    AfterSnoc(EMPTY, [] + [c1], c2);
    StagedCreate(w1, 2, 2);
    AfterSnoc(EMPTY, [] + [c1] + [c2], Run(1, PERMIT));
    PermittedRun(Apply(w1, c2), 1, 1);
  }

  /** And it can: 0 to 1, back to 0, and the second request staged at 0 succeeds. */
  lemma StagedTwiceWrittenTwice()
    ensures Fresh(EMPTY) && Faithful(EMPTY, LeaveTwice())
    ensures After(EMPTY, LeaveTwice()).audits == [Wrote(0, 1), Wrote(1, 0), Wrote(0, 2)]
  {
    LeftOnce();
    var w3 := After(EMPTY, LeaveOnce());
    hide Apply, After;
    var c3 := Create(3, NewRequest(1, H7, 0, "r", 9));
    AfterSnoc(EMPTY, LeaveOnce(), c3);
    StagedCreate(w3, 3, 0);
    var w4 := Apply(w3, c3);
    AfterSnoc(EMPTY, LeaveOnce() + [c3], Run(3, PERMIT));
    PermittedRun(w4, 3, 0);
    var w5 := Apply(w4, Run(3, PERMIT));
    AfterSnoc(EMPTY, LeaveOnce() + [c3] + [Run(3, PERMIT)], Run(2, PERMIT));
    PermittedRun(w5, 2, 2);
  }

  lemma AfterSnoc(w: World, ops: seq<Op>, op: Op)
    ensures After(w, ops + [op]) == Apply(After(w, ops), op)
  {
    assert (ops + [op])[..|ops|] == ops;
  }

  /** A request that reaches the drift check ends failed by drift exactly when the register is no
      longer at its staged value. */
  lemma DriftIff(w: World, id: nat, a: Attempt)
    requires Safe(w) && id in w.requests && !w.requests[id].executed && w.requests[id].machine in w.machines
    requires AuthorizeWrite(a, IsProbeTarget(w.machines[w.requests[id].machine], w.requests[id].key)).None?
    ensures var r, (w', outcome) := w.requests[id], Execute(w, id, a);
            && (outcome == Some(Drift) <==> Some(LiveValue(w.target, r.key)) != r.staged)
            && (outcome == Some(Drift) ==> w'.requests[id].executed && w'.requests[id].success == Some(false)
                                           && w'.target == w.target)
  {
    assert Staged(w.requests[id]);
  }

  /** The register's value is where its latest successful write left it. */
  lemma LiveIsLastSuccess(w: World, ops: seq<Op>, key: Key)
    requires Fresh(w) && Faithful(w, ops)
    ensures var s := Successes(After(w, ops).audits, key);
            LiveValue(After(w, ops).target, key) == if s == [] then LiveValue(w.target, key) else s[|s| - 1].1
  {
    SuccessesChain(w, ops, key);
  }

  /** After a write that left `v`, and as long as no later successful write of the register stored `v`
      again, every request staged at `v` that passes the gate ends failed by drift. */
  lemma LaterRequestsDrift(w: World, ops: seq<Op>, key: Key, v: int, id: nat, a: Attempt, k: nat)
    requires Fresh(w) && Faithful(w, ops)
    requires var s := Successes(After(w, ops).audits, key);
             k < |s| && s[k].0 == v && s[k].1 != v && forall j | k < j < |s| :: s[j].1 != v
    requires var w' := After(w, ops);
             && id in w'.requests && !w'.requests[id].executed && w'.requests[id].key == key
             && w'.requests[id].staged == Some(v) && w'.requests[id].machine in w'.machines
             && AuthorizeWrite(a, IsProbeTarget(w'.machines[w'.requests[id].machine], key)).None?
    ensures Execute(After(w, ops), id, a).1 == Some(Drift)
  {
    EveryWriteSafe(w, ops);
    LiveIsLastSuccess(w, ops, key);
    DriftIff(After(w, ops), id, a);
    hide After, Successes, Execute, Safe;
  }

  // ---------------------------------------------------------------- batches

  lemma BatchSnoc(w: World, ids: seq<nat>, id: nat, a: Attempt)
    requires |Batch(w, ids, a).1| == |ids|
    ensures var (before, results) := Batch(w, ids, a);
            var (after, outcome) := Execute(before, id, a);
            Batch(w, ids + [id], a) ==
            if outcome == Some(NotFound) then (before, results) else (after, results + [outcome])
  {
    assert (ids + [id])[..|ids|] == ids;
  }

  /** Splitting a batch changes nothing: the second part runs where a complete first part has left off. */
  lemma {:induction false} BatchesJoin(w: World, a: seq<nat>, b: seq<nat>, attempt: Attempt)
    requires |Batch(w, a, attempt).1| == |a|
    ensures var (mid, results) := Batch(w, a, attempt);
            var (end, more) := Batch(mid, b, attempt);
            Batch(w, a + b, attempt) == (end, results + more)
  {
    if b == [] {
      assert a + b == a && Batch(w, a, attempt).1 + [] == Batch(w, a, attempt).1;
    } else {
      var most, last := b[..|b| - 1], b[|b| - 1];
      BatchesJoin(w, a, most, attempt);
      assert (a + b)[..|a + b| - 1] == a + most && (a + b)[|a + b| - 1] == last;
      var mid := Batch(w, a, attempt).0;
      BatchLength(mid, most, attempt);
      hide Execute;
      var (before, more) := Batch(mid, most, attempt);
      var results := Batch(w, a, attempt).1;
      var outcome := Execute(before, last, attempt).1;
      assert results + more + [outcome] == results + (more + [outcome]);
    }
  }

  lemma {:induction false} BatchLength(w: World, ids: seq<nat>, a: Attempt)
    ensures |Batch(w, ids, a).1| <= |ids|
  {
    hide Execute;
    if ids != [] { BatchLength(w, ids[..|ids| - 1], a); }
  }

  /** The same target, machines and requests, but for the request `i` and for what was audited. */
  ghost predicate AgreeBut(w: World, v: World, i: nat) {
    && w.target == v.target && w.machines == v.machines && w.trace == v.trace
    && w.requests.Keys == v.requests.Keys
    && forall id | id in w.requests && id != i :: w.requests[id] == v.requests[id]
  }

  lemma ErrorAgrees(w: World, v: World, i: nat, id: nat, a: Attempt)
    requires AgreeBut(w, v, i) && id != i
    ensures ExecuteError(w, id, a) == ExecuteError(v, id, a)
  {
    hide AuthorizeWrite;
  }

  lemma ExecuteAgrees(w: World, v: World, i: nat, id: nat, a: Attempt)
    requires AgreeBut(w, v, i) && id != i
    ensures Execute(w, id, a).1 == Execute(v, id, a).1
    ensures AgreeBut(Execute(w, id, a).0, Execute(v, id, a).0, i)
  {
    ErrorAgrees(w, v, i, id, a);
    if id in w.requests { assert w.requests[id] == v.requests[id]; }
    if ExecuteError(w, id, a).Some? {
      hide ExecuteError;
    } else {
      WriteAgrees(w, v, i, id, a);
    }
  }

  lemma WriteAgrees(w: World, v: World, i: nat, id: nat, a: Attempt)
    requires AgreeBut(w, v, i) && id != i && ExecuteError(w, id, a).None? && ExecuteError(v, id, a).None?
    ensures Execute(w, id, a).1 == Execute(v, id, a).1
    ensures AgreeBut(Execute(w, id, a).0, Execute(v, id, a).0, i)
  {
    assert id in w.requests && w.requests[id] == v.requests[id];
    hide ExecuteError, AuditOf;
  }

  lemma {:induction false} BatchAgrees(w: World, v: World, i: nat, ids: seq<nat>, a: Attempt)
    requires AgreeBut(w, v, i) && i !in ids
    ensures Batch(w, ids, a).1 == Batch(v, ids, a).1
    ensures AgreeBut(Batch(w, ids, a).0, Batch(v, ids, a).0, i)
  {
    if ids != [] {
      var most, id := ids[..|ids| - 1], ids[|ids| - 1];
      BatchAgrees(w, v, i, most, a);
      assert id in ids;
      ExecuteAgrees(Batch(w, most, a).0, Batch(v, most, a).0, i, id, a);
      hide Execute, AgreeBut;
    }
  }

  lemma RefusedAgrees(w: World, i: nat, a: Attempt)
    requires i in w.requests && ExecuteError(w, i, a).Some?
    ensures AgreeBut(Execute(w, i, a).0, w, i) && Execute(w, i, a).1 == ExecuteError(w, i, a)
  {
    hide ExecuteError;
  }

  /** Isolation: wherever in a batch an item is refused before its write — blocked, drifted, implausible
      or already executed — every other item fares as if it had not been in the batch. */
  lemma RefusedItemIsolated(w: World, before: seq<nat>, i: nat, rest: seq<nat>, a: Attempt)
    requires |Batch(w, before, a).1| == |before| && i !in rest
    requires var mid := Batch(w, before, a).0;
             i in mid.requests && ExecuteError(mid, i, a).Some? && ExecuteError(mid, i, a) != Some(NotFound)
    ensures var error := ExecuteError(Batch(w, before, a).0, i, a);
            var with, without := Batch(w, before + [i] + rest, a), Batch(w, before + rest, a);
            && |before| <= |without.1| && without.1 == Batch(w, before, a).1 + without.1[|before|..]
            && with.1 == Batch(w, before, a).1 + [error] + without.1[|before|..]
            && AgreeBut(with.0, without.0, i)
  {
    hide Batch, Execute, ExecuteError, AgreeBut;
    var (mid, results) := Batch(w, before, a);
    var (after, error) := Execute(mid, i, a);
    RefusedAgrees(mid, i, a);
    BatchSnoc(w, before, i, a);
    BatchesJoin(w, before + [i], rest, a);
    BatchesJoin(w, before, rest, a);
    BatchAgrees(after, mid, i, rest, a);
    assert Batch(w, before + rest, a).1[|before|..] == Batch(mid, rest, a).1;
  }

  // ---------------------------------------------------------------- isolation, whatever an item did

  /** The request is `i`, or its register is the one that item `i` may have moved. */
  ghost predicate Exempt(r: Request, id: nat, i: nat, moved: Option<Key>) {
    id == i || moved == Some(r.key)
  }

  ghost predicate SameOff(w: World, v: World, id: nat, i: nat, moved: Option<Key>)
    requires id in w.requests && id in v.requests
  {
    var r, q := w.requests[id], v.requests[id];
    r == q || (Exempt(r, id, i, moved) && (r.key, r.machine) == (q.key, q.machine) && r.machine in w.machines)
  }

  /** The same machines, fault flags, registers and requests, but for the register `moved`, its requests
      and the request `i`. */
  ghost predicate AgreeOff(w: World, v: World, i: nat, moved: Option<Key>) {
    && w.machines == v.machines && w.target.reject == v.target.reject && w.target.corruptDelta == v.target.corruptDelta
    && (forall key | moved != Some(key) :: LiveValue(w.target, key) == LiveValue(v.target, key))
    && w.requests.Keys == v.requests.Keys
    && (forall id | id in w.requests :: SameOff(w, v, id, i, moved))
  }

  /** What an execute leaves alone: everything but its own request's outcome and its own register. */
  ghost predicate TouchesOnly(w: World, w': World, id: nat) {
    && w'.machines == w.machines
    && w'.target.reject == w.target.reject && w'.target.corruptDelta == w.target.corruptDelta
    && w'.requests.Keys == w.requests.Keys
    && (forall other | other in w.requests && other != id :: w'.requests[other] == w.requests[other])
    && (id in w.requests ==>
          var r, r' := w.requests[id], w'.requests[id];
          && (r'.key, r'.machine) == (r.key, r.machine)
          && (r.machine in w.machines || r' == r)
          && (forall key | key != r.key :: LiveValue(w'.target, key) == LiveValue(w.target, key)))
    && (id !in w.requests ==> w'.target == w.target)
  }

  lemma ExecuteTouches(w: World, id: nat, a: Attempt)
    ensures TouchesOnly(w, Execute(w, id, a).0, id)
    ensures Execute(w, id, a).1 == Some(NotFound) <==>
            id !in w.requests || (!w.requests[id].executed && w.requests[id].machine !in w.machines)
  {
    hide AuthorizeWrite, AuditOf;
  }

  /** An item that is not exempt meets the same register, request and flags in both worlds. */
  lemma ExecuteAgreesOff(w: World, v: World, i: nat, moved: Option<Key>, id: nat, a: Attempt)
    requires AgreeOff(w, v, i, moved)
    requires id in w.requests && id == i ==> moved == Some(w.requests[id].key)
    ensures AgreeOff(Execute(w, id, a).0, Execute(v, id, a).0, i, moved)
    ensures Execute(w, id, a).1 == Some(NotFound) <==> Execute(v, id, a).1 == Some(NotFound)
    ensures id in w.requests && !Exempt(w.requests[id], id, i, moved) ==> Execute(w, id, a).1 == Execute(v, id, a).1
  {
    ExecuteTouches(w, id, a);
    ExecuteTouches(v, id, a);
    if id in w.requests {
      assert SameOff(w, v, id, i, moved);
      if Exempt(w.requests[id], id, i, moved) {
        hide Execute;
        ExemptAgrees(w, v, Execute(w, id, a).0, Execute(v, id, a).0, i, moved, id);
      } else {
        SettledAlike(w, v, id, a);
        hide Execute;
        PlainAgrees(w, v, Execute(w, id, a).0, Execute(v, id, a).0, i, moved, id);
      }
    } else {
      hide Execute;
      PlainAgrees(w, v, Execute(w, id, a).0, Execute(v, id, a).0, i, moved, id);
    }
  }

  lemma ExemptAgrees(w: World, v: World, w': World, v': World, i: nat, moved: Option<Key>, id: nat)
    requires AgreeOff(w, v, i, moved) && TouchesOnly(w, w', id) && TouchesOnly(v, v', id)
    requires id in w.requests && moved == Some(w.requests[id].key)
    ensures AgreeOff(w', v', i, moved)
  {
    assert SameOff(w, v, id, i, moved);
    forall other | other in w'.requests ensures SameOff(w', v', other, i, moved) {
      assert SameOff(w, v, other, i, moved);
    }
  }

  lemma PlainAgrees(w: World, v: World, w': World, v': World, i: nat, moved: Option<Key>, id: nat)
    requires AgreeOff(w, v, i, moved) && TouchesOnly(w, w', id) && TouchesOnly(v, v', id)
    requires id in w.requests ==>
               && id in v.requests && w'.requests[id] == v'.requests[id] && v.requests[id].key == w.requests[id].key
               && LiveValue(w'.target, w.requests[id].key) == LiveValue(v'.target, w.requests[id].key)
    ensures AgreeOff(w', v', i, moved)
  {
    forall other | other in w'.requests ensures SameOff(w', v', other, i, moved) {
      assert SameOff(w, v, other, i, moved);
    }
    forall key | moved != Some(key) ensures LiveValue(w'.target, key) == LiveValue(v'.target, key) {
      assert LiveValue(w.target, key) == LiveValue(v.target, key);
    }
  }

  /** The same request at the same register under the same flags ends the same way. */
  lemma SettledAlike(w: World, v: World, id: nat, a: Attempt)
    requires id in w.requests && id in v.requests && w.requests[id] == v.requests[id] && w.machines == v.machines
    requires w.target.reject == v.target.reject && w.target.corruptDelta == v.target.corruptDelta
    requires LiveValue(w.target, w.requests[id].key) == LiveValue(v.target, w.requests[id].key)
    ensures var (w', e) := Execute(w, id, a);
            var (v', f) := Execute(v, id, a);
            && e == f && id in w'.requests && id in v'.requests && w'.requests[id] == v'.requests[id]
            && LiveValue(w'.target, w.requests[id].key) == LiveValue(v'.target, w.requests[id].key)
  {
    hide AuthorizeWrite, AuditOf;
    assert ExecuteError(w, id, a) == ExecuteError(v, id, a);
    hide ExecuteError;
  }

  ghost predicate SameKeys(w: World, w': World) {
    && w'.requests.Keys == w.requests.Keys
    && forall id | id in w.requests :: w'.requests[id].key == w.requests[id].key
  }

  lemma {:induction false} BatchKeepsKeys(w: World, ids: seq<nat>, a: Attempt)
    ensures SameKeys(w, Batch(w, ids, a).0)
  {
    if ids != [] {
      var most, id := ids[..|ids| - 1], ids[|ids| - 1];
      BatchKeepsKeys(w, most, a);
      ExecuteTouches(Batch(w, most, a).0, id, a);
      hide Execute;
    }
  }

  ghost predicate SameResultsOff(
    w: World, ids: seq<nat>, with: seq<Option<Error>>, without: seq<Option<Error>>, i: nat, moved: Option<Key>)
  {
    && |with| == |without| <= |ids|
    && forall j | 0 <= j < |with| && ids[j] in w.requests && !Exempt(w.requests[ids[j]], ids[j], i, moved) ::
         with[j] == without[j]
  }

  lemma SameResultsGrow(
    w: World, ids: seq<nat>, with: seq<Option<Error>>, without: seq<Option<Error>>, i: nat, moved: Option<Key>,
    id: nat, x: Option<Error>, y: Option<Error>)
    requires SameResultsOff(w, ids, with, without, i, moved)
    requires id in w.requests && !Exempt(w.requests[id], id, i, moved) ==> x == y
    ensures SameResultsOff(w, ids + [id], with, without, i, moved)
    ensures |with| == |ids| ==> SameResultsOff(w, ids + [id], with + [x], without + [y], i, moved)
  {
    assert forall j | 0 <= j < |ids| :: (ids + [id])[j] == ids[j];
    hide Exempt;
  }

  /** The world before the last id of a batch, and what that id came to. */
  lemma BatchLast(w: World, ids: seq<nat>, a: Attempt)
    requires ids != []
    ensures var most, id := ids[..|ids| - 1], ids[|ids| - 1];
            var (before, results) := Batch(w, most, a);
            var (after, outcome) := Execute(before, id, a);
            Batch(w, ids, a) == if |results| < |most| || outcome == Some(NotFound) then (before, results)
                                else (after, results + [outcome])
  {
    hide Execute;
  }

  lemma {:induction false} BatchAgreesOff(w: World, v: World, i: nat, moved: Option<Key>, ids: seq<nat>, a: Attempt)
    requires AgreeOff(w, v, i, moved)
    requires i in ids && i in w.requests ==> moved == Some(w.requests[i].key)
    ensures SameResultsOff(w, ids, Batch(w, ids, a).1, Batch(v, ids, a).1, i, moved)
    ensures AgreeOff(Batch(w, ids, a).0, Batch(v, ids, a).0, i, moved)
  {
    if ids != [] {
      var most, id := ids[..|ids| - 1], ids[|ids| - 1];
      assert id in ids && most + [id] == ids;
      BatchAgreesOff(w, v, i, moved, most, a);
      BatchKeepsKeys(w, most, a);
      BatchLast(w, ids, a);
      BatchLast(v, ids, a);
      hide Batch, Execute, AgreeOff, SameResultsOff;
      var (b, with) := Batch(w, most, a);
      var (c, without) := Batch(v, most, a);
      assert |with| == |without| <= |most| by { SameResultsLength(w, most, with, without, i, moved); }
      ExecuteAgreesOff(b, c, i, moved, id, a);
      SameResultsGrow(w, most, with, without, i, moved, id, Execute(b, id, a).1, Execute(c, id, a).1);
    }
  }

  lemma SameResultsLength(
    w: World, ids: seq<nat>, with: seq<Option<Error>>, without: seq<Option<Error>>, i: nat, moved: Option<Key>)
    requires SameResultsOff(w, ids, with, without, i, moved)
    ensures |with| == |without| <= |ids|
  {
  }

  ghost predicate KeptOutside(w: World, w': World, ids: seq<nat>) {
    && w'.requests.Keys == w.requests.Keys
    && forall id | id in w.requests && id !in ids :: w'.requests[id] == w.requests[id]
  }

  lemma {:induction false} BatchLeavesOthers(w: World, ids: seq<nat>, a: Attempt)
    ensures KeptOutside(w, Batch(w, ids, a).0, ids)
  {
    if ids != [] {
      var most, id := ids[..|ids| - 1], ids[|ids| - 1];
      assert most + [id] == ids;
      BatchLeavesOthers(w, most, a);
      ExecuteTouches(Batch(w, most, a).0, id, a);
      hide Execute;
    }
  }

  /** The register item `i` leaves at another value, or may yet move when the batch names it again. */
  ghost function MovedBy(mid: World, i: nat, rest: seq<nat>, a: Attempt): Option<Key>
    requires i in mid.requests
  {
    var key := mid.requests[i].key;
    if i !in rest && LiveValue(Execute(mid, i, a).0.target, key) == LiveValue(mid.target, key) then None else Some(key)
  }

  lemma ItemAgreesOff(mid: World, i: nat, rest: seq<nat>, a: Attempt)
    requires i in mid.requests && Execute(mid, i, a).1 != Some(NotFound)
    ensures AgreeOff(Execute(mid, i, a).0, mid, i, MovedBy(mid, i, rest, a))
  {
    ExecuteTouches(mid, i, a);
    var after, moved := Execute(mid, i, a).0, MovedBy(mid, i, rest, a);
    hide Execute;
    forall id | id in after.requests ensures SameOff(after, mid, id, i, moved) { }
  }

  /** Isolation in full: whatever an item of a batch came to — written, refused, rejected by the control or
      read back wrong — every other item, but those on a register that it moved, fares as if it had not
      been in the batch; and the two worlds end the same but for that register, `i`, and requests of the batch
      on that register. */
  lemma ItemIsolated(w: World, before: seq<nat>, i: nat, rest: seq<nat>, a: Attempt)
    requires |Batch(w, before, a).1| == |before|
    requires Execute(Batch(w, before, a).0, i, a).1 != Some(NotFound)
    ensures var (mid, results) := Batch(w, before, a);
            var with, without := Batch(w, before + [i] + rest, a), Batch(w, before + rest, a);
            var n := |before|;
            && i in mid.requests
            && n < |with.1| && n <= |without.1|
            && with.1[..n] == results == without.1[..n] && with.1[n] == Execute(mid, i, a).1
            && SameResultsOff(mid, rest, with.1[n + 1..], without.1[n..], i, MovedBy(mid, i, rest, a))
            && AgreeOff(with.0, without.0, i, MovedBy(mid, i, rest, a))
            && KeptOutside(with.0, without.0, [i] + rest)
  {
    var (mid, results) := Batch(w, before, a);
    ExecuteTouches(mid, i, a);
    ItemAgreesOff(mid, i, rest, a);
    hide Batch, Execute, AgreeOff, SameResultsOff;
    var after, moved := Execute(mid, i, a).0, MovedBy(mid, i, rest, a);
    BatchSnoc(w, before, i, a);
    BatchesJoin(w, before + [i], rest, a);
    BatchesJoin(w, before, rest, a);
    BatchAgreesOff(after, mid, i, moved, rest, a);
    SameResultsAt(after, mid, rest, Batch(after, rest, a).1, Batch(mid, rest, a).1, i, moved);
    OthersKeptBoth(mid, i, rest, a);
    assert Batch(w, before + [i] + rest, a).1[|before| + 1..] == Batch(after, rest, a).1;
    assert Batch(w, before + rest, a).1[|before|..] == Batch(mid, rest, a).1;
  }

  lemma OthersKeptBoth(mid: World, i: nat, rest: seq<nat>, a: Attempt)
    ensures KeptOutside(Batch(Execute(mid, i, a).0, rest, a).0, Batch(mid, rest, a).0, [i] + rest)
  {
    ExecuteTouches(mid, i, a);
    BatchLeavesOthers(Execute(mid, i, a).0, rest, a);
    BatchLeavesOthers(mid, rest, a);
    hide Batch, Execute;
  }

  lemma SameResultsAt(w: World, mid: World, ids: seq<nat>, with: seq<Option<Error>>, without: seq<Option<Error>>,
                      i: nat, moved: Option<Key>)
    requires SameResultsOff(w, ids, with, without, i, moved) && SameKeys(mid, w)
    ensures SameResultsOff(mid, ids, with, without, i, moved)
  {
  }

  // ---------------------------------------------------------------- the service, in place

  /** The labelled mock control. */
  class MockOffsetWriter {
    var values: map<Key, int>
    var reject: bool
    var corruptDelta: int
    var writes: seq<(Key, int)>

    constructor (values: map<Key, int>, reject: bool, corruptDelta: int)
      ensures Contents() == Target(values, reject, corruptDelta, [])
    {
      this.values, this.reject, this.corruptDelta, this.writes := values, reject, corruptDelta, [];
    }

    ghost function Contents(): Target
      reads this
    {
      Target(values, reject, corruptDelta, writes)
    }

    method ReadOffset(key: Key) returns (v: int)
      ensures v == LiveValue(Contents(), key)
    {
      v := if key in values then values[key] else 0;
    }

    method WriteOffset(key: Key, value: int) returns (ok: bool)
      modifies this
      ensures Contents() == Written(old(Contents()), key, value)
      ensures ok <==> !old(reject)
    {
      writes := writes + [(key, value)];
      if reject { return false; }
      values := values[key := value + corruptDelta];
      return true;
    }
  }

  class OffsetWriteService {
    var machines: map<nat, Option<nat>>
    var requests: map<nat, Request>
    var audits: seq<Audit>
    const target: MockOffsetWriter
    ghost var trace: seq<WriteEvent>

    constructor (machines: map<nat, Option<nat>>, target: MockOffsetWriter)
      ensures Contents() == World(machines, map[], [], target.Contents(), [])
    {
      this.machines, this.requests, this.audits, this.target, this.trace := machines, map[], [], target, [];
    }

    ghost function Contents(): World
      reads this, target
    {
      World(machines, requests, audits, target.Contents(), trace)
    }

    method CreateOffsetRequest(id: nat, n: NewRequest) returns (error: Option<Error>)
      requires id !in requests
      modifies this
      ensures Contents() == Apply(old(Contents()), Create(id, n))
      ensures error == CreateError(old(Contents()), n)
    {
      if !IsWritable(n.key.1) { return Some(NotWritable); }
      if !WithinBounds(n.intended) { return Some(OutOfBounds); }
      if Blank(n.reason) { return Some(NoReason); }
      if n.machine !in machines { return Some(NotFound); }
      if IsProbeTarget(machines[n.machine], n.key) { return Some(ProbeLocked); }
      var current := target.ReadOffset(n.key);
      requests := requests[id := Request(n.machine, n.key, n.intended, Some(current), PlainText.Strip(n.reason), n.user,
                                         false, None, None, None, None)];
      return None;
    }

    method RecordAudit(row: Audit)
      modifies this`audits
      ensures audits == old(audits) + [row]
    {
      audits := audits + [row];
    }

    method FailRequest(id: nat, user: nat, error: Error, verified: Option<int>)
      requires id in requests
      modifies this`requests, this`audits
      ensures Contents() == Fail(old(Contents()), id, user, error, verified)
    {
      var r := requests[id];
      requests := requests[id := r.(executed := true, confirmedBy := Some(user), verified := verified,
                                    success := Some(false), error := Some(error))];
      RecordAudit(AuditOf(r, user, None, false, Some(error)));
    }

    /** Gate, drift, plausibility, write, read back. */
    method ExecuteRequest(id: nat, a: Attempt) returns (error: Option<Error>)
      modifies this, target
      ensures (Contents(), error) == Execute(old(Contents()), id, a)
    {
      if id !in requests { return Some(NotFound); }
      var r := requests[id];
      if r.executed { return Some(AlreadyExecuted); }
      if r.machine !in machines { return Some(NotFound); }
      var probeH := machines[r.machine];

      var gate := AuthorizeWrite(a, IsProbeTarget(probeH, r.key));
      if gate.Some? {
        RecordAudit(AuditOf(r, a.user, None, false, Some(Blocked(gate.value))));
        return Some(Blocked(gate.value));
      }

      var live := target.ReadOffset(r.key);
      if r.staged.Some? && live != r.staged.value {
        FailRequest(id, a.user, Drift, Some(live));
        return Some(Drift);
      }

      if !WithinBounds(r.intended) { return Some(OutOfBounds); }
      if IsLargeDiff(live, r.intended) && !a.acknowledged { return Some(NeedsAcknowledgement); }

      trace := trace + [WriteEvent(id, r.key, r.intended, live, a, probeH)];
      var ok := target.WriteOffset(r.key, r.intended);
      if !ok {
        FailRequest(id, a.user, WriteRejected, None);
        return Some(WriteRejected);
      }
      var verified := target.ReadOffset(r.key);
      if verified != r.intended {
        FailRequest(id, a.user, ReadBackMismatch, Some(verified));
        return Some(ReadBackMismatch);
      }
      requests := requests[id := r.(executed := true, confirmedBy := Some(a.user), verified := Some(verified),
                                    success := Some(true), error := None)];
      RecordAudit(AuditOf(r, a.user, Some(verified), true, None));
      return None;
    }

    /** Each item on its own; a missing id escapes the loop with the earlier effects kept. */
    method ExecuteBatch(ids: seq<nat>, a: Attempt) returns (results: seq<Option<Error>>, complete: bool)
      modifies this, target
      ensures (Contents(), results) == Batch(old(Contents()), ids, a)
      ensures complete <==> |results| == |ids|
    {
      ghost var start := Contents();
      results := [];
      assert Batch(start, ids[..0], a) == (start, []);
      hide Batch, Execute, Contents;
      for i := 0 to |ids|
        invariant (Contents(), results) == Batch(start, ids[..i], a) && |results| == i
      {
        BatchStep(start, ids, i, a);
        var error := ExecuteRequest(ids[i], a);
        if error == Some(NotFound) {
          StoppedStays(start, ids, i + 1, a);
          return results, false;
        }
        results := results + [error];
      }
      assert ids[..|ids|] == ids;
      complete := true;
    }
  }

  lemma BatchStep(w: World, ids: seq<nat>, i: nat, a: Attempt)
    requires i < |ids| && |Batch(w, ids[..i], a).1| == i
    ensures var (before, results) := Batch(w, ids[..i], a);
            var (after, outcome) := Execute(before, ids[i], a);
            Batch(w, ids[..i + 1], a) ==
            if outcome == Some(NotFound) then (after, results) else (after, results + [outcome])
  {
    BatchSnoc(w, ids[..i], ids[i], a);
    assert ids[..i] + [ids[i]] == ids[..i + 1];
    hide Batch;
  }

  lemma {:induction false} StoppedStays(w: World, ids: seq<nat>, k: nat, a: Attempt)
    requires k <= |ids| && |Batch(w, ids[..k], a).1| < k
    ensures Batch(w, ids, a) == Batch(w, ids[..k], a)
    ensures |Batch(w, ids, a).1| < |ids|
  {
    if k < |ids| {
      var n := |ids| - 1;
      assert ids[..n][..k] == ids[..k];
      StoppedStays(w, ids[..n], k, a);
    } else {
      assert ids[..k] == ids;
    }
  }
}
