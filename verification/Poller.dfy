/**
 The asynchronous poller (`shared/focas/poller.py`): its success and failure handlers, its bounded queue
 that drops the oldest snapshot, and the one consumer that iterates over `snapshots()`.

 A run is any interleaving of the steps of the polling task, of its FOCAS thread — which goes on with a
 connect the task no longer waits for — and of the consumer; a step that is not enabled does nothing.
 `produced`, `fates` and `marks` record what the handlers were given.
 */
module Poller {
  import opened Wrappers

  // ---------------------------------------------------------------- settings

  /** Times in milliseconds. */
  datatype Settings = Settings(machineId: string, interval: int, threshold: int, cooldown: int, capacity: int)

  datatype SettingsError = NoMachine | IntervalTooShort | BadThreshold | BadCooldown | BadCapacity

  const INTERVAL_FLOOR := 1

  function CheckSettings(s: Settings): Option<SettingsError> {
    if s.machineId == "" then Some(NoMachine)
    else if s.interval < INTERVAL_FLOOR then Some(IntervalTooShort)
    else if s.threshold < 1 then Some(BadThreshold)
    else if s.cooldown < 0 then Some(BadCooldown)
    else if s.capacity < 1 then Some(BadCapacity)
    else None
  }

  /** Settings are refused by the first bound they break. */
  lemma SettingsRefusedIff(s: Settings)
    ensures var named, paced, broken, cooled := s.machineId != "", s.interval >= 1, s.threshold >= 1, s.cooldown >= 0;
            && (CheckSettings(s) == Some(NoMachine) <==> !named)
            && (CheckSettings(s) == Some(IntervalTooShort) <==> named && !paced)
            && (CheckSettings(s) == Some(BadThreshold) <==> named && paced && !broken)
            && (CheckSettings(s) == Some(BadCooldown) <==> named && paced && broken && !cooled)
            && (CheckSettings(s) == Some(BadCapacity) <==> named && paced && broken && cooled && s.capacity < 1)
            && (CheckSettings(s) == None <==> named && paced && broken && cooled && s.capacity >= 1)
  {
  }

  // ---------------------------------------------------------------- state

  datatype PollerState = Init | Healthy | Degraded | CircuitOpen | Shutdown

  datatype Consumer<T> = Waiting | Holding(item: T) | Draining | Ended

  /** What became of a snapshot that left the queue. */
  datatype Fate = Handed | Dropped

  datatype Mark = Success | Failure | Exited

  /** The job on the FOCAS thread, and whether its connect, if it needs one, has been tried. */
  datatype Flight = Grounded | Opening(tried: bool) | Reading(tried: bool)

  datatype Model<T> = Model(
    cfg: Settings, source: bool, opens: nat, closes: nat, state: PollerState, stop: bool, running: bool, flight: Flight,
    leaving: bool,  // in the `finally` block
    consecutive: nat, completed: nat, failed: nat, queue: seq<T>, consumer: Consumer<T>, yielded: seq<T>,
    produced: seq<T>, fates: seq<Fate>, marks: seq<Mark>)

  function Fresh<T>(cfg: Settings): Model<T> {
    Model(cfg, false, 0, 0, Init, false, false, Grounded, false, 0, 0, 0, [], Waiting, [], [], [], [])
  }

  // ---------------------------------------------------------------- handlers

  /** Bounded fan-out: fresher data wins for a slow consumer. */
  function Enqueue<T>(s: Model<T>, snap: T): Model<T> {
    if |s.queue| >= s.cfg.capacity && s.queue != []
    then s.(produced := s.produced + [snap], queue := s.queue[1..] + [snap], fates := s.fates + [Dropped])
    else s.(produced := s.produced + [snap], queue := s.queue + [snap])
  }

  function OnSuccess<T>(s: Model<T>, snap: T): Model<T> {
    Enqueue(s.(completed := s.completed + 1, consecutive := 0, state := Healthy, marks := s.marks + [Success]), snap)
  }

  function Disconnect<T>(s: Model<T>): Model<T> {
    if s.source then s.(source := false, closes := s.closes + 1) else s
  }

  function Tally<T>(s: Model<T>): Model<T> {
    s.(failed := s.failed + 1, consecutive := s.consecutive + 1, marks := s.marks + [Failure])
  }

  /** The breaker. */
  function Judged<T>(s: Model<T>): Model<T> {
    s.(state := if s.consecutive >= s.cfg.threshold then CircuitOpen else Degraded)
  }

  function OnFailure<T>(s: Model<T>, reconnect: bool): Model<T> {
    Judged(if reconnect then Disconnect(Tally(s)) else Tally(s))
  }

  function Connect<T>(s: Model<T>, ok: bool): Model<T> {
    if ok then s.(source := true, opens := s.opens + 1) else OnFailure(s.(source := false), false)
  }

  datatype Read<T> = ReadOk(snap: T) | StaleHandle | OtherError

  /** What a read comes to; without a source the poll itself fails. */
  function OnRead<T>(s: Model<T>, read: Read<T>): Model<T> {
    if !s.source then OnFailure(s, false)
    else match read
      case ReadOk(snap) => OnSuccess(s, snap)
      case StaleHandle => OnFailure(s, true)
      case OtherError => OnFailure(s, false)
  }

  /** One poll that nothing interrupts; without a source it first tries to connect. */
  function PollOnce<T>(s: Model<T>, connectOk: bool, read: Read<T>): Model<T> {
    OnRead(if s.source then s else Connect(s, connectOk), read)
  }

  // ---------------------------------------------------------------- steps

  datatype Step<T> =
    | Start
    | ThreadConnect(ok: bool)  // on the FOCAS thread, whether or not the task still waits for it
    | Opened                   // the task sees the first connect done
    | BeginPoll
    | EndPoll(read: Read<T>)
    | Stop
    | Exit      // `finally` is entered: by stop, by an exception or by cancellation
    | Release   // the FOCAS thread closes the source; a connect it had not begun was cancelled with the task
    | Take      // the consumer's getter completes
    | Yield
    | SeeStop   // stop was seen first
    | Drain
    | Return

  predicate ConnectPending(f: Flight) { !f.Grounded? && !f.tried }

  predicate Enabled<T>(s: Model<T>, step: Step<T>) {
    match step
    case Start => !s.running
    case ThreadConnect(_) => ConnectPending(s.flight)
    case Opened => s.flight == Opening(true) && !s.leaving
    case BeginPoll => s.running && !s.leaving && !s.stop && s.flight.Grounded?
    case EndPoll(_) => s.flight == Reading(true) && !s.leaving
    case Stop => true
    case Exit => s.running && !s.leaving
    case Release => s.leaving
    case Take => s.consumer.Waiting? && s.queue != []
    case Yield => s.consumer.Holding?
    case SeeStop => s.consumer.Waiting? && s.stop
    case Drain => s.consumer.Draining? && s.queue != []
    case Return => s.consumer.Draining? && s.queue == []
  }

  predicate IsConsumer<T>(step: Step<T>) {
    step.Take? || step.Yield? || step.SeeStop? || step.Drain? || step.Return?
  }

  function Tried<T>(s: Model<T>, ok: bool): Model<T>
    requires ConnectPending(s.flight)
  {
    Connect(s, ok).(flight := if s.flight.Opening? then Opening(true) else Reading(true))
  }

  function Exiting<T>(s: Model<T>): Model<T> {
    s.(stop := true, state := Shutdown, marks := s.marks + [Exited], leaving := true)
  }

  function Released<T>(s: Model<T>): Model<T> {
    Disconnect(s).(running := false, leaving := false, flight := Grounded)
  }

  /** The `finally` block of `run()`: a connect still pending on the FOCAS thread comes out as `late`
      before the source is closed, or had not begun and is cancelled. */
  function Left<T>(s: Model<T>, late: Option<bool>): Model<T> {
    var x := Exiting(s);
    Released(if ConnectPending(x.flight) && late.Some? then Tried(x, late.value) else x)
  }

  function DrainOne<T>(s: Model<T>): Model<T>
    requires s.queue != []
  {
    s.(queue := s.queue[1..], yielded := s.yielded + [s.queue[0]], fates := s.fates + [Handed])
  }

  function Do<T>(s: Model<T>, step: Step<T>): Model<T> {
    if !Enabled(s, step) then s else
    match step
    case Start => s.(stop := false, running := true, flight := Opening(false))
    case ThreadConnect(ok) => Tried(s, ok)
    case Opened => s.(flight := Grounded)
    case BeginPoll => s.(flight := Reading(s.source))
    case EndPoll(read) => OnRead(s.(flight := Grounded), read)
    case Stop => s.(stop := true)
    case Exit => Exiting(s)
    case Release => Released(s)
    case Take => s.(queue := s.queue[1..], consumer := Holding(s.queue[0]), fates := s.fates + [Handed])
    case Yield => s.(consumer := Waiting, yielded := s.yielded + [s.consumer.item])
    case SeeStop => s.(consumer := Draining)
    case Drain => DrainOne(s)
    case Return => s.(consumer := Ended)
  }

  function After<T>(s: Model<T>, steps: seq<Step<T>>): Model<T> {
    if steps == [] then s else Do(After(s, steps[..|steps| - 1]), steps[|steps| - 1])
  }

  lemma AfterSnoc<T>(s: Model<T>, steps: seq<Step<T>>, step: Step<T>)
    ensures After(s, steps + [step]) == Do(After(s, steps), step)
  {
    assert (steps + [step])[..|steps|] == steps;
  }

  /** Left alone, a poll is its steps in order; likewise leaving. */
  lemma UninterruptedSteps<T>(s: Model<T>, ok: bool, read: Read<T>)
    ensures Enabled(s, BeginPoll) ==>
              var begun := Do(s, BeginPoll);
              Do(if s.source then begun else Do(begun, ThreadConnect(ok)), EndPoll(read)) == PollOnce(s, ok, read)
    ensures Enabled(s, Exit) ==>
              var out := Do(s, Exit);
              && Do(out, Release) == Left(s, None)
              && Do(if ConnectPending(s.flight) then Do(out, ThreadConnect(ok)) else out, Release) == Left(s, Some(ok))
  {
    hide Enqueue;
  }

  // ---------------------------------------------------------------- stop

  /** Stop was asked for, or the loop left, since it last started. */
  ghost function StopAsked<T>(s: Model<T>, steps: seq<Step<T>>): bool {
    if steps == [] then false else
    var front, last := steps[..|steps| - 1], steps[|steps| - 1];
    if last.Stop? || (last.Exit? && After(s, front).running && !After(s, front).leaving) then true
    else if last.Start? && !After(s, front).running then false
    else StopAsked(s, front)
  }

  /** Over every run the stop event is set exactly then. */
  lemma {:induction false} StopIff<T>(cfg: Settings, steps: seq<Step<T>>)
    ensures After(Fresh(cfg), steps).stop <==> StopAsked(Fresh(cfg), steps)
  {
    if steps != [] {
      var front, last := steps[..|steps| - 1], steps[|steps| - 1];
      StopIff(cfg, front);
      StepStop(After(Fresh(cfg), front), last);
      hide Do;
    }
  }

  lemma StepStop<T>(s: Model<T>, step: Step<T>)
    ensures Do(s, step).stop ==
            if step.Stop? || (step.Exit? && s.running && !s.leaving) then true
            else if step.Start? && !s.running then false
            else s.stop
  {
    if step.EndPoll? { ReadKeepsStop(s.(flight := Grounded), step.read); }
    hide OnRead;
  }

  lemma ReadKeepsStop<T>(s: Model<T>, read: Read<T>)
    ensures OnRead(s, read).stop == s.stop
  {
  }

  /** The consumer's iteration begins to end only once stop has been set. */
  lemma {:induction false} EndsOnlyWhenStopped<T>(cfg: Settings, steps: seq<Step<T>>)
    requires forall i | 0 <= i < |steps| :: !steps[i].Stop? && !steps[i].Exit?
    ensures var s := After(Fresh(cfg), steps); !s.stop && (s.consumer.Waiting? || s.consumer.Holding?)
  {
    if steps != [] {
      var front, last := steps[..|steps| - 1], steps[|steps| - 1];
      assert forall i | 0 <= i < |front| :: front[i] == steps[i];
      EndsOnlyWhenStopped(cfg, front);
      StepStop(After(Fresh(cfg), front), last);
      StepConsumer(After(Fresh(cfg), front), last);
      hide Do;
    }
  }

  lemma StepConsumer<T>(s: Model<T>, step: Step<T>)
    requires !s.stop && (s.consumer.Waiting? || s.consumer.Holding?)
    ensures Do(s, step).consumer.Waiting? || Do(s, step).consumer.Holding?
  {
    if step.EndPoll? { ReadKeepsConsumer(s.(flight := Grounded), step.read); }
    hide OnRead;
  }

  lemma ReadKeepsConsumer<T>(s: Model<T>, read: Read<T>)
    ensures OnRead(s, read).consumer == s.consumer
  {
  }

  /** A started poller, its first connect over, is ready to poll whether it connected or not. */
  lemma StartsPolling<T>(s: Model<T>, ok: bool)
    requires !s.running && !s.source && !s.leaving
    ensures var r := Do(Do(Do(s, Start), ThreadConnect(ok)), Opened);
            && r.running && !r.stop && r.source == ok && Enabled(r, BeginPoll) && !Enabled(r, Opened)
            && r.consecutive == s.consecutive + (if ok then 0 else 1)
  {
  }

  // ---------------------------------------------------------------- the queue

  /** Yielded, in the consumer's hands, or queued: in this order. */
  function InHand<T>(s: Model<T>): seq<T> {
    if s.consumer.Holding? then [s.consumer.item] else []
  }

  function Delivered<T>(s: Model<T>): seq<T> {
    s.yielded + InHand(s) + s.queue
  }

  /** The snapshots handed over, in order. */
  function HandedOver<T>(produced: seq<T>, fates: seq<Fate>): seq<T>
    requires |fates| <= |produced|
  {
    if fates == [] then [] else
    var n := |fates| - 1;
    HandedOver(produced, fates[..n]) + if fates[n].Handed? then [produced[n]] else []
  }

  lemma {:induction false} HandedOverPrefix<T>(produced: seq<T>, more: seq<T>, fates: seq<Fate>)
    requires |fates| <= |produced|
    ensures HandedOver(produced + more, fates) == HandedOver(produced, fates)
  {
    if fates != [] { HandedOverPrefix(produced, more, fates[..|fates| - 1]); }
  }

  lemma HandedOverSnoc<T>(produced: seq<T>, fates: seq<Fate>, fate: Fate)
    requires |fates| < |produced|
    ensures HandedOver(produced, fates + [fate]) ==
            HandedOver(produced, fates) + if fate.Handed? then [produced[|fates|]] else []
  {
    assert (fates + [fate])[..|fates|] == fates;
  }

  /** The queue is within its bound and holds the latest snapshots; every one before them was either
      handed to the consumer, in order, or dropped. */
  ghost predicate Balanced<T>(capacity: int, queue: seq<T>, handed: seq<T>, produced: seq<T>, fates: seq<Fate>) {
    && |queue| <= capacity
    && |fates| + |queue| == |produced|
    && queue == produced[|fates|..]
    && handed == HandedOver(produced, fates)
  }

  ghost predicate Accounted<T>(s: Model<T>) {
    Balanced(s.cfg.capacity, s.queue, s.yielded + InHand(s), s.produced, s.fates)
  }

  lemma PutBalanced<T>(capacity: int, queue: seq<T>, handed: seq<T>, produced: seq<T>, fates: seq<Fate>, snap: T)
    requires Balanced(capacity, queue, handed, produced, fates) && capacity >= 1
    ensures |queue| < capacity ==> Balanced(capacity, queue + [snap], handed, produced + [snap], fates)
    ensures |queue| == capacity ==>
              Balanced(capacity, queue[1..] + [snap], handed, produced + [snap], fates + [Dropped])
  {
    HandedOverPrefix(produced, [snap], fates);
    if |queue| == capacity { HandedOverSnoc(produced + [snap], fates, Dropped); }
    hide HandedOver;
  }

  lemma HandBalanced<T>(capacity: int, queue: seq<T>, handed: seq<T>, produced: seq<T>, fates: seq<Fate>)
    requires Balanced(capacity, queue, handed, produced, fates) && queue != []
    ensures Balanced(capacity, queue[1..], handed + [queue[0]], produced, fates + [Handed])
  {
    HandedOverSnoc(produced, fates, Handed);
    hide HandedOver;
  }

  lemma SuccessAccounted<T>(s: Model<T>, snap: T)
    requires Accounted(s) && s.cfg.capacity >= 1
    ensures Accounted(OnSuccess(s, snap))
  {
    PutBalanced(s.cfg.capacity, s.queue, s.yielded + InHand(s), s.produced, s.fates, snap);
    assert |s.queue| <= s.cfg.capacity;
    hide Balanced;
  }

  lemma ReadAccounted<T>(s: Model<T>, read: Read<T>)
    requires Accounted(s) && s.cfg.capacity >= 1
    ensures Accounted(OnRead(s, read)) && OnRead(s, read).cfg == s.cfg
  {
    hide Balanced;
    if s.source && read.ReadOk? { SuccessAccounted(s, read.snap); }
  }

  lemma TakeAccounted<T>(s: Model<T>)
    requires Accounted(s) && s.queue != []
    ensures s.consumer.Waiting? ==> Accounted(Do(s, Take))
    ensures s.consumer.Draining? ==> Accounted(Do(s, Drain))
  {
    HandBalanced(s.cfg.capacity, s.queue, s.yielded + InHand(s), s.produced, s.fates);
    hide Balanced;
    assert s.yielded + [] == s.yielded;
    assert s.yielded + [s.queue[0]] + [] == s.yielded + [s.queue[0]];
  }

  lemma YieldAccounted<T>(s: Model<T>)
    requires Accounted(s) && s.consumer.Holding?
    ensures Accounted(Do(s, Yield))
  {
    hide Balanced;
    assert s.yielded + [s.consumer.item] + [] == s.yielded + [s.consumer.item];
  }

  lemma StepAccounted<T>(s: Model<T>, step: Step<T>)
    requires Accounted(s) && s.cfg.capacity >= 1
    ensures Accounted(Do(s, step)) && Do(s, step).cfg == s.cfg
  {
    hide Balanced;
    if Enabled(s, step) {
      match step
      case EndPoll(read) => ReadAccounted(s.(flight := Grounded), read); hide OnRead;
      case Take => TakeAccounted(s);
      case Drain => TakeAccounted(s);
      case Yield => YieldAccounted(s);
      case _ =>
    }
  }

  /** Whatever the interleaving: the queue never exceeds its bound, and what was yielded, what the
      consumer holds and what is queued are, in order, the snapshots produced less those dropped. */
  lemma {:induction false} EveryRunAccounted<T>(cfg: Settings, steps: seq<Step<T>>)
    requires CheckSettings(cfg).None?
    ensures var s := After(Fresh(cfg), steps); Accounted(s) && s.cfg == cfg
  {
    if steps != [] {
      EveryRunAccounted(cfg, steps[..|steps| - 1]);
      hide Accounted, Do;
      StepAccounted(After(Fresh(cfg), steps[..|steps| - 1]), steps[|steps| - 1]);
    }
  }

  function Drops(fates: seq<Fate>): nat {
    if fates == [] then 0 else Drops(fates[..|fates| - 1]) + if fates[|fates| - 1].Dropped? then 1 else 0
  }

  lemma {:induction false} DropsCount<T>(produced: seq<T>, fates: seq<Fate>)
    requires |fates| <= |produced|
    ensures |HandedOver(produced, fates)| + Drops(fates) == |fates|
    ensures Drops(fates) == 0 ==> HandedOver(produced, fates) == produced[..|fates|]
  {
    if fates != [] {
      var n := |fates| - 1;
      DropsCount(produced, fates[..n]);
      assert produced[..n + 1] == produced[..n] + [produced[n]];
    }
  }

  /** Conservation; and nothing was dropped exactly if everything produced is there, in order. */
  lemma NothingLostIff<T>(cfg: Settings, steps: seq<Step<T>>)
    requires CheckSettings(cfg).None?
    ensures var s := After(Fresh(cfg), steps);
            && |Delivered(s)| + Drops(s.fates) == |s.produced|
            && (Drops(s.fates) == 0 <==> Delivered(s) == s.produced)
  {
    EveryRunAccounted(cfg, steps);
    var s := After(Fresh(cfg), steps);
    hide After;
    DropsCount(s.produced, s.fates);
    hide HandedOver, Drops;
    assert s.produced == s.produced[..|s.fates|] + s.produced[|s.fates|..];
  }

  lemma DropsSnoc(fates: seq<Fate>, fate: Fate)
    ensures Drops(fates + [fate]) == Drops(fates) + if fate.Dropped? then 1 else 0
  {
    assert (fates + [fate])[..|fates|] == fates;
  }

  /** A step drops at most one snapshot: on a successful poll, from a full queue, its oldest. */
  lemma DropsOnlyOldestWhenFull<T>(s: Model<T>, step: Step<T>)
    requires Accounted(s) && s.cfg.capacity >= 1 && Drops(Do(s, step).fates) != Drops(s.fates)
    ensures var r := Do(s, step);
            && step.EndPoll? && step.read.ReadOk? && |s.queue| == s.cfg.capacity
            && r.fates == s.fates + [Dropped] && s.produced[|s.fates|] == s.queue[0]
            && r.queue == s.queue[1..] + [step.read.snap]
            && r.yielded == s.yielded && r.consumer == s.consumer
  {
    DropsSnoc(s.fates, Handed);
    hide Drops, HandedOver;
  }

  // ---------------------------------------------------------------- the state

  /** Failures since the last success. */
  function Trailing(marks: seq<Mark>): nat {
    if marks == [] then 0 else
    match marks[|marks| - 1]
    case Success => 0
    case Failure => Trailing(marks[..|marks| - 1]) + 1
    case Exited => Trailing(marks[..|marks| - 1])
  }

  function Count(marks: seq<Mark>, m: Mark): nat {
    if marks == [] then 0 else Count(marks[..|marks| - 1], m) + if marks[|marks| - 1] == m then 1 else 0
  }

  function StateOf(marks: seq<Mark>, threshold: int): PollerState {
    if marks == [] then Init else
    match marks[|marks| - 1]
    case Success => Healthy
    case Failure => if Trailing(marks) >= threshold then CircuitOpen else Degraded
    case Exited => Shutdown
  }

  /** Counters and state are what the handler calls make them, and handles balance. */
  ghost predicate Tracked<T>(s: Model<T>) {
    && s.consecutive == Trailing(s.marks)
    && s.completed == Count(s.marks, Success) == |s.produced|
    && s.failed == Count(s.marks, Failure)
    && s.state == StateOf(s.marks, s.cfg.threshold)
    && s.opens == s.closes + (if s.source then 1 else 0)
    && (!s.running ==> !s.source && s.flight.Grounded? && !s.leaving)
    && (ConnectPending(s.flight) ==> !s.source)
  }

  lemma MarkSnoc(marks: seq<Mark>, m: Mark)
    ensures var more := marks + [m];
            && Trailing(more) == (if m.Success? then 0 else if m.Failure? then Trailing(marks) + 1 else Trailing(marks))
            && (forall k :: Count(more, k) == Count(marks, k) + if k == m then 1 else 0)
  {
    assert (marks + [m])[..|marks|] == marks;
  }

  lemma FailureTracked<T>(s: Model<T>, reconnect: bool)
    requires Tracked(s) && s.running
    ensures Tracked(OnFailure(s, reconnect)) && OnFailure(s, reconnect).running
  {
    MarkSnoc(s.marks, Failure);
    hide Trailing, Count;
  }

  lemma ConnectTracked<T>(s: Model<T>, ok: bool)
    requires Tracked(s) && s.running && ConnectPending(s.flight)
    ensures Tracked(Tried(s, ok))
  {
    hide Trailing, Count, OnFailure, StateOf;
    if !ok { FailureTracked(s, false); }
  }

  lemma ReadTracked<T>(s: Model<T>, read: Read<T>)
    requires Tracked(s) && s.running && s.flight.Grounded?
    ensures Tracked(OnRead(s, read))
  {
    hide Trailing, Count, OnFailure;
    if s.source && read.ReadOk? {
      MarkSnoc(s.marks, Success);
    } else {
      FailureTracked(s, s.source && read.StaleHandle?);
    }
  }

  lemma StepTracked<T>(s: Model<T>, step: Step<T>)
    requires Tracked(s)
    ensures Tracked(Do(s, step))
  {
    if Enabled(s, step) {
      if step.EndPoll? { ReadTracked(s.(flight := Grounded), step.read); }
      if step.ThreadConnect? { ConnectTracked(s, step.ok); }
      MarkSnoc(s.marks, Exited);
    }
    hide Trailing, Count, OnRead, Tried;
  }

  lemma StepKeepsSettings<T>(s: Model<T>, step: Step<T>)
    ensures Do(s, step).cfg == s.cfg
  {
    if step.EndPoll? { assert OnRead(s.(flight := Grounded), step.read).cfg == s.cfg; }
    hide OnRead;
  }

  lemma TrackedState<T>(s: Model<T>)
    requires Tracked(s)
    ensures s.state.Healthy? ==> s.consecutive == 0
    ensures s.state.Degraded? ==> 1 <= s.consecutive < s.cfg.threshold
    ensures s.state.CircuitOpen? ==> s.consecutive >= s.cfg.threshold && s.consecutive >= 1
  {
    hide Count;
  }

  /** Over every run: the state says how many handler calls have failed since the last success —
      HEALTHY none, DEGRADED fewer than the threshold, CIRCUIT_OPEN at least that many — the counters count
      the handler calls, a late one on the FOCAS thread included, and every source opened is closed or
      held, none once the loop has exited. */
  lemma {:induction false} EveryRunTracked<T>(cfg: Settings, steps: seq<Step<T>>)
    ensures var s := After(Fresh(cfg), steps);
            && Tracked(s) && s.cfg == cfg
            && (s.state.Healthy? ==> s.consecutive == 0)
            && (s.state.Degraded? ==> 1 <= s.consecutive < cfg.threshold)
            && (s.state.CircuitOpen? ==> s.consecutive >= cfg.threshold && s.consecutive >= 1)
  {
    if steps != [] {
      var front, last := steps[..|steps| - 1], steps[|steps| - 1];
      EveryRunTracked(cfg, front);
      hide Do, Tracked;
      StepTracked(After(Fresh(cfg), front), last);
      StepKeepsSettings(After(Fresh(cfg), front), last);
    }
    TrackedState(After(Fresh(cfg), steps));
  }

  /** What a read comes to.  A snapshot clears the failures, goes to the back of the queue and keeps the
      source; a stale handle closes it, any other error keeps it, and both count one failure. */
  lemma ReadLeaves<T>(s: Model<T>, read: Read<T>)
    requires s.source
    ensures var r := OnRead(s, read);
            && r.source == !read.StaleHandle? && r.opens == s.opens
            && r.closes == s.closes + (if read.StaleHandle? then 1 else 0)
            && match read
               case ReadOk(snap) =>
                 && r.state == Healthy && r.consecutive == 0 && r.completed == s.completed + 1 && r.failed == s.failed
                 && r.queue != [] && r.queue[|r.queue| - 1] == snap && r.produced == s.produced + [snap]
               case _ =>
                 && r.state == (if s.consecutive + 1 >= s.cfg.threshold then CircuitOpen else Degraded)
                 && r.consecutive == s.consecutive + 1 && r.completed == s.completed && r.failed == s.failed + 1
                 && r.queue == s.queue && r.produced == s.produced
  {
  }

  lemma StepKeepsCloses<T>(s: Model<T>, step: Step<T>)
    ensures Do(s, step).closes >= s.closes
  {
    if step.EndPoll? { ReadKeepsCloses(s.(flight := Grounded), step.read); }
    hide OnRead, Trailing, Count;
  }

  lemma ReadKeepsCloses<T>(s: Model<T>, read: Read<T>)
    ensures OnRead(s, read).closes >= s.closes
  {
  }

  lemma {:induction false} ClosesGrow<T>(s: Model<T>, steps: seq<Step<T>>, i: nat)
    requires i <= |steps|
    ensures After(s, steps[..i]).closes <= After(s, steps).closes
  {
    if i < |steps| {
      var n := |steps| - 1;
      assert steps[..n][..i] == steps[..i];
      ClosesGrow(s, steps[..n], i);
      StepKeepsCloses(After(s, steps[..n]), steps[n]);
      hide Do;
    } else {
      assert steps[..i] == steps;
    }
  }

  lemma StaleStepCloses<T>(s: Model<T>)
    requires s.source && Enabled(s, EndPoll(StaleHandle))
    ensures Do(s, EndPoll(StaleHandle)).closes == s.closes + 1
  {
    ReadLeaves(s.(flight := Grounded), StaleHandle);
    hide OnRead;
  }

  /** In every run, whatever source is held after a read found its handle stale is a new one. */
  lemma FreshSourceAfterStale<T>(cfg: Settings, steps: seq<Step<T>>, i: nat)
    requires i < |steps| && steps[i] == EndPoll(StaleHandle)
    requires var s := After(Fresh(cfg), steps[..i]); s.source && Enabled(s, steps[i])
    requires After(Fresh(cfg), steps).source
    ensures After(Fresh(cfg), steps).opens > After(Fresh(cfg), steps[..i]).opens
  {
    hide Do, After, OnRead, Enabled, Trailing, Count, StateOf;
    EveryRunTracked(cfg, steps);
    EveryRunTracked(cfg, steps[..i]);
    StaleStepCloses(After(Fresh(cfg), steps[..i]));
    AfterSnoc(Fresh(cfg), steps[..i], steps[i]);
    assert steps[..i] + [steps[i]] == steps[..i + 1];
    ClosesGrow(Fresh(cfg), steps, i + 1);
  }

  /** A poll that cannot reconnect fails twice: once for the connect and once for the poll. */
  lemma FailedReconnectCountsTwice<T>(s: Model<T>, read: Read<T>)
    requires !s.source
    ensures var r := PollOnce(s, false, read);
            && r.consecutive == s.consecutive + 2 && r.failed == s.failed + 2 && !r.source
            && r.state == (if s.consecutive + 2 >= s.cfg.threshold then CircuitOpen else Degraded)
            && r == s.(consecutive := r.consecutive, failed := r.failed, state := r.state, marks := r.marks)
  {
  }

  lemma OutagePoll<T>(s: Model<T>)
    requires s.running && !s.leaving && !s.stop && s.flight.Grounded? && !s.source
    ensures var r := Do(Do(Do(s, BeginPoll), ThreadConnect(false)), EndPoll(OtherError));
            && r.running && !r.leaving && !r.stop && r.flight.Grounded? && !r.source && r.cfg == s.cfg
            && r.consecutive == s.consecutive + 2 && r.queue == s.queue
            && r.state == if r.consecutive >= s.cfg.threshold then CircuitOpen else Degraded
  {
    UninterruptedSteps(s, false, OtherError);
    FailedReconnectCountsTwice(s, OtherError);
    hide Do, PollOnce;
  }

  function Outage<T>(n: nat): seq<Step<T>> {
    if n == 0 then [] else Outage(n - 1) + [BeginPoll] + [ThreadConnect(false)] + [EndPoll(OtherError)]
  }

  /** So an outage of `n` polls opens the breaker exactly once twice that many failures reach the
      threshold. */
  lemma {:induction false} OutageOpensBreaker<T>(s: Model<T>, n: nat)
    requires s.running && !s.leaving && !s.stop && s.flight.Grounded? && !s.source
    ensures var r := After(s, Outage(n));
            && r.running && !r.leaving && !r.stop && r.flight.Grounded? && !r.source && r.cfg == s.cfg
            && r.consecutive == s.consecutive + 2 * n && r.queue == s.queue
            && (n > 0 ==> r.state == if s.consecutive + 2 * n >= s.cfg.threshold then CircuitOpen else Degraded)
  {
    if n > 0 {
      OutageOpensBreaker(s, n - 1);
      var before: seq<Step<T>> := Outage(n - 1);
      var h := After(s, before);
      AfterSnoc(s, before, BeginPoll);
      AfterSnoc(s, before + [BeginPoll], ThreadConnect(false));
      AfterSnoc(s, before + [BeginPoll] + [ThreadConnect(false)], EndPoll(OtherError));
      OutagePoll(h);
      hide Do, After;
    }
  }

  // ---------------------------------------------------------------- the state after the run

  ghost predicate Releases<T>(steps: seq<Step<T>>) {
    exists i :: 0 <= i < |steps| && steps[i].Release?
  }

  /** How the first connect among the steps turned out, if one came before the source was closed. */
  ghost function LateOutcome<T>(steps: seq<Step<T>>): Option<bool> {
    if steps == [] then None else
    var front, last := steps[..|steps| - 1], steps[|steps| - 1];
    if LateOutcome(front).None? && last.ThreadConnect? && !Releases(front) then Some(last.ok) else LateOutcome(front)
  }

  /** Where a run stands after entering `finally` at `s`, if the connect it interrupted came out as
      `late`. */
  ghost predicate LeftWith<T>(s: Model<T>, late: Option<bool>, released: bool, r: Model<T>) {
    && r.cfg == s.cfg && r.running == r.leaving == !released
    && (ConnectPending(r.flight) <==> ConnectPending(s.flight) && late.None? && !released)
    && if ConnectPending(s.flight) && late == Some(false) then
         && r.consecutive == s.consecutive + 1
         && r.state == if r.consecutive >= s.cfg.threshold then CircuitOpen else Degraded
       else r.state == Shutdown && r.consecutive == s.consecutive
  }

  lemma LeftStep<T>(s: Model<T>, late: Option<bool>, released: bool, r: Model<T>, step: Step<T>)
    requires LeftWith(s, late, released, r) && !step.Start? && Tracked(r)
    ensures LeftWith(s, if late.None? && step.ThreadConnect? && !released then Some(step.ok) else late,
                     released || step.Release?, Do(r, step))
  {
    hide Trailing, Count, StateOf;
  }

  lemma ReleasesSnoc<T>(steps: seq<Step<T>>)
    requires steps != []
    ensures Releases(steps) <==> Releases(steps[..|steps| - 1]) || steps[|steps| - 1].Release?
  {
    var front := steps[..|steps| - 1];
    if i :| 0 <= i < |steps| && steps[i].Release? {
      assert i < |front| ==> front[i].Release?;
    }
    if i :| 0 <= i < |front| && front[i].Release? {
      assert steps[i].Release?;
    }
  }

  lemma {:induction false} LeavingRun<T>(s: Model<T>, steps: seq<Step<T>>)
    requires Tracked(s) && Enabled(s, Exit) && forall i | 0 <= i < |steps| :: !steps[i].Start?
    ensures var r := After(Do(s, Exit), steps);
            Tracked(r) && LeftWith(s, LateOutcome(steps), Releases(steps), r)
  {
    if steps == [] {
      StepTracked(s, Exit);
      hide Trailing, Count, StateOf;
    } else {
      var front, last := steps[..|steps| - 1], steps[|steps| - 1];
      assert forall i | 0 <= i < |front| :: front[i] == steps[i];
      hide Do, Tracked, LeftWith, Enabled, Releases;
      LeavingRun(s, front);
      ReleasesSnoc(steps);
      StepTracked(After(Do(s, Exit), front), last);
      LeftStep(s, LateOutcome(front), Releases(front), After(Do(s, Exit), front), last);
    }
  }

  /** A run ends in SHUTDOWN exactly if leaving it did not interrupt a connect that then failed: a task
      cancelled once its FOCAS thread has begun to connect goes on to count that failure, and ends
      DEGRADED or CIRCUIT_OPEN. */
  lemma EndsShutdownIff<T>(s: Model<T>, steps: seq<Step<T>>)
    requires Tracked(s) && Enabled(s, Exit) && forall i | 0 <= i < |steps| :: !steps[i].Start?
    requires !After(Do(s, Exit), steps).running
    ensures var r := After(Do(s, Exit), steps);
            var interrupted := ConnectPending(s.flight) && LateOutcome(steps) == Some(false);
            && (r.state == Shutdown <==> !interrupted)
            && r.consecutive == s.consecutive + (if interrupted then 1 else 0)
            && (interrupted ==> r.state == if r.consecutive >= s.cfg.threshold then CircuitOpen else Degraded)
            && !r.source && r.opens == r.closes
  {
    LeavingRun(s, steps);
    hide After, Do, Enabled, Trailing, Count, StateOf;
  }

  /** Such a run: cancelled while the first connect is under way, which then fails. */
  lemma CancelledConnectEndsDegraded<T>(cfg: Settings)
    requires CheckSettings(cfg).None? && cfg.threshold >= 2
    ensures var r := After<T>(Fresh(cfg), [] + [Start] + [Exit] + [ThreadConnect(false)] + [Release]);
            !r.running && r.state == Degraded && r.failed == 1
  {
    var s: Model<T> := Fresh(cfg);
    AfterSnoc(s, [], Start);
    AfterSnoc(s, [] + [Start], Exit);
    AfterSnoc(s, [] + [Start] + [Exit], ThreadConnect(false));
    AfterSnoc(s, [] + [Start] + [Exit] + [ThreadConnect(false)], Release);
  }

  // ---------------------------------------------------------------- the end of iteration

  /** Consumer steps left at most, once stop is set. */
  function Rank<T>(s: Model<T>): nat {
    3 * |s.queue| + match s.consumer case Waiting => 2 case Holding(_) => 3 case Draining => 1 case Ended => 0
  }

  ghost predicate ConsumerCanMove<T(!new)>(s: Model<T>) {
    exists step: Step<T> :: IsConsumer(step) && Enabled(s, step)
  }

  /** The consumer is never stuck while something is queued, or once stop is set. */
  lemma ConsumerMoves<T(!new)>(s: Model<T>)
    ensures (s.queue != [] || s.stop) && !s.consumer.Ended? ==> ConsumerCanMove(s)
  {
    if (s.queue != [] || s.stop) && !s.consumer.Ended? {
      var step: Step<T> := match s.consumer
        case Waiting => if s.queue != [] then Take else SeeStop
        case Holding(_) => Yield
        case Draining => if s.queue != [] then Drain else Return
        case Ended => Return;
      assert IsConsumer(step) && Enabled(s, step);
    }
  }

  /** Enabled steps of anyone, but no new start. */
  ghost predicate RunsOut<T>(s: Model<T>, steps: seq<Step<T>>) {
    steps == [] || (RunsOut(s, steps[..|steps| - 1]) && !steps[|steps| - 1].Start?
                    && Enabled(After(s, steps[..|steps| - 1]), steps[|steps| - 1]))
  }

  function ConsumerSteps<T>(steps: seq<Step<T>>): nat {
    if steps == [] then 0 else ConsumerSteps(steps[..|steps| - 1]) + if IsConsumer(steps[|steps| - 1]) then 1 else 0
  }

  /** A poll under way may still bring one snapshot. */
  function InFlight<T>(s: Model<T>): nat {
    if s.flight.Reading? && !s.leaving then 1 else 0
  }

  /** `r` follows `s` with stop set throughout: at most the poll in flight has brought a snapshot, and an
      ended iteration can only have left that one behind. */
  ghost predicate Winding<T>(s: Model<T>, r: Model<T>, taken: nat) {
    && r.stop && s.produced <= r.produced
    && |r.produced| + InFlight(r) <= |s.produced| + InFlight(s)
    && taken + Rank(r) + 3 * InFlight(r) <= Rank(s) + 3 * InFlight(s)
    && (r.produced == s.produced ==> Delivered(r) == Delivered(s))
    && Drops(r.fates) <= Drops(s.fates) + |r.produced| - |s.produced|
    && (r.consumer.Ended? ==> |r.queue| <= |r.produced| - |s.produced|)
  }

  lemma ConsumerStep<T>(s: Model<T>, step: Step<T>)
    requires IsConsumer(step) && Enabled(s, step)
    ensures var r := Do(s, step);
            && Rank(r) < Rank(s) && Delivered(r) == Delivered(s) && r.stop == s.stop && r.produced == s.produced
            && (r.consumer.Ended? ==> r.queue == [])
  {
  }

  lemma ConsumerStepKeeps<T>(s: Model<T>, step: Step<T>)
    requires IsConsumer(step) && Enabled(s, step)
    ensures var r := Do(s, step); InFlight(r) == InFlight(s) && Drops(r.fates) == Drops(s.fates)
  {
    DropsSnoc(s.fates, Handed);
    hide Drops;
  }

  lemma LateSnapshot<T>(s: Model<T>, snap: T)
    requires s.source
    ensures var r := OnRead(s, ReadOk(snap));
            && r.produced == s.produced + [snap] && |r.queue| <= |s.queue| + 1 && Drops(r.fates) <= Drops(s.fates) + 1
            && r.stop == s.stop && r.consumer == s.consumer && r.yielded == s.yielded && r.flight == s.flight
  {
    DropsSnoc(s.fates, Dropped);
    hide Drops;
  }

  lemma OtherStep<T>(s: Model<T>, step: Step<T>)
    requires !IsConsumer(step) && !step.Start? && Enabled(s, step) && s.stop
    ensures var r := Do(s, step);
            && r.stop && r.consumer == s.consumer && r.yielded == s.yielded
            && if step.EndPoll? && s.source && step.read.ReadOk? then
                 && InFlight(s) == 1 && InFlight(r) == 0 && r.produced == s.produced + [step.read.snap]
                 && |r.queue| <= |s.queue| + 1 && Drops(r.fates) <= Drops(s.fates) + 1
               else InFlight(r) <= InFlight(s) && (r.queue, r.produced, r.fates) == (s.queue, s.produced, s.fates)
  {
    hide Drops, Enqueue;
    if step.EndPoll? && s.source && step.read.ReadOk? {
      LateSnapshot(s.(flight := Grounded), step.read.snap);
      hide OnRead;
    }
  }

  lemma WindingStep<T>(s: Model<T>, m: Model<T>, taken: nat, step: Step<T>)
    requires Winding(s, m, taken) && !step.Start? && Enabled(m, step)
    ensures Winding(s, Do(m, step), taken + if IsConsumer(step) then 1 else 0)
  {
    if IsConsumer(step) {
      ConsumerStep(m, step);
      ConsumerStepKeeps(m, step);
      hide Do, Enabled, Rank, Delivered, Drops, InFlight, IsConsumer;
    } else {
      OtherStep(m, step);
      var r := Do(m, step);
      assert Rank(r) <= Rank(m) + 3 * (|r.produced| - |m.produced|);
      assert r.produced == m.produced ==> Delivered(r) == Delivered(m);
      hide Do, Enabled, Rank, Delivered, Drops, InFlight, IsConsumer;
    }
  }

  lemma {:induction false} RunWinds<T>(s: Model<T>, steps: seq<Step<T>>)
    requires s.stop && !s.consumer.Ended? && RunsOut(s, steps)
    ensures Winding(s, After(s, steps), ConsumerSteps(steps))
  {
    if steps != [] {
      var front, last := steps[..|steps| - 1], steps[|steps| - 1];
      RunWinds(s, front);
      hide Winding, Do;
      WindingStep(s, After(s, front), ConsumerSteps(front), last);
    }
  }

  /** Once stop is set — as every way out of `run()` sets it — the consumer's iteration ends after
      boundedly many steps of its own, whichever way the getter and the stop event race and whatever the
      task and its thread still do.  It has then yielded everything it held or was queued; only a snapshot
      that the poll in flight brought meanwhile can have pushed the oldest out or be left behind. */
  lemma StopEndsIteration<T(!new)>(s: Model<T>, steps: seq<Step<T>>)
    requires s.stop && !s.consumer.Ended? && RunsOut(s, steps)
    ensures var r := After(s, steps);
            && Winding(s, r, ConsumerSteps(steps))
            && (r.consumer.Ended? <==> !ConsumerCanMove(r))
            && (r.consumer.Ended? && r.produced == s.produced ==> r.queue == [] && r.yielded == Delivered(s))
  {
    hide After, ConsumerSteps, RunsOut, Rank, Do, Drops, InFlight;
    RunWinds(s, steps);
    ConsumerMoves(After(s, steps));
  }

  // ---------------------------------------------------------------- the poller object

  class PollerTask<T> {
    const cfg: Settings
    var source: bool
    var opens: nat
    var closes: nat
    var state: PollerState
    var stop: bool
    var running: bool
    var flight: Flight
    var leaving: bool
    var consecutive: nat
    var completed: nat
    var failed: nat
    var queue: seq<T>
    var consumer: Consumer<T>
    var yielded: seq<T>
    ghost var produced: seq<T>
    ghost var fates: seq<Fate>
    ghost var marks: seq<Mark>

    ghost function Contents(): Model<T>
      reads this
    {
      Model(cfg, source, opens, closes, state, stop, running, flight, leaving, consecutive, completed, failed, queue,
            consumer,
            yielded, produced, fates, marks)
    }

    constructor (settings: Settings)
      requires CheckSettings(settings).None?
      ensures Contents() == Fresh(settings)
    {
      cfg, source, opens, closes, state, stop := settings, false, 0, 0, Init, false;
      running, flight, leaving := false, Grounded, false;
      consecutive, completed, failed, queue, consumer, yielded := 0, 0, 0, [], Waiting, [];
      produced, fates, marks := [], [], [];
    }

    method Succeeded(snap: T)
      modifies this
      ensures Contents() == OnSuccess(old(Contents()), snap)
    {
      hide Enqueue;
      completed, consecutive, state := completed + 1, 0, Healthy;
      marks := marks + [Success];
      ghost var s := old(Contents());
      assert Contents() == s.(completed := s.completed + 1, consecutive := 0, state := Healthy,
                              marks := s.marks + [Success]);
      Put(snap);
    }

    method Put(snap: T)
      modifies this`queue, this`produced, this`fates
      ensures Contents() == Enqueue(old(Contents()), snap)
    {
      produced := produced + [snap];
      if |queue| >= cfg.capacity && queue != [] {
        queue, fates := queue[1..], fates + [Dropped];
      }
      queue := queue + [snap];
    }

    method Failed(reconnect: bool)
      modifies this
      ensures Contents() == OnFailure(old(Contents()), reconnect)
    {
      failed, consecutive := failed + 1, consecutive + 1;
      marks := marks + [Failure];
      assert Contents() == Tally(old(Contents()));
      hide Tally, Disconnect;
      if reconnect { Release(); }
      ghost var d := Contents();
      state := if consecutive >= cfg.threshold then CircuitOpen else Degraded;
      assert Contents() == Judged(d);
      hide Judged;
    }

    method Release()
      modifies this`source, this`closes
      ensures Contents() == Disconnect(old(Contents()))
    {
      if source { source, closes := false, closes + 1; }
    }

    method Open(ok: bool)
      modifies this
      ensures Contents() == Connect(old(Contents()), ok)
    {
      hide OnFailure;
      if ok {
        source, opens := true, opens + 1;
      } else {
        source := false;
        Failed(false);
      }
    }

    method Poll(connectOk: bool, read: Read<T>)
      modifies this
      ensures Contents() == PollOnce(old(Contents()), connectOk, read)
    {
      hide OnFailure, OnSuccess, Connect;
      if !source { Open(connectOk); }
      ghost var c := Contents();
      if !source {
        Failed(false);
      } else {
        match read {
          case ReadOk(snap) => Succeeded(snap);
          case StaleHandle => Failed(true);
          case OtherError => Failed(false);
        }
      }
    }

    /** The `finally` block; `late` is how a connect still pending on the FOCAS thread comes out, if it had
        begun. */
    method Leave(late: Option<bool>)
      modifies this
      ensures Contents() == Left(old(Contents()), late)
    {
      hide Connect, Disconnect, Tried;
      stop, state, leaving, marks := true, Shutdown, true, marks + [Exited];
      assert Contents() == Exiting(old(Contents()));
      hide Exiting;
      if ConnectPending(flight) && late.Some? { LateConnect(late.value); }
      CloseUp();
    }

    method LateConnect(ok: bool)
      requires ConnectPending(flight)
      modifies this
      ensures Contents() == Tried(old(Contents()), ok)
    {
      hide Connect;
      var tried := if flight.Opening? then Opening(true) else Reading(true);
      Open(ok);
      flight := tried;
    }

    method CloseUp()
      modifies this
      ensures Contents() == Released(old(Contents()))
    {
      Release();
      running, leaving, flight := false, false, Grounded;
    }

    method YieldQueued()
      requires queue != []
      modifies this`queue, this`yielded, this`fates
      ensures Contents() == DrainOne(old(Contents()))
    {
      yielded, queue, fates := yielded + [queue[0]], queue[1..], fates + [Handed];
    }

    /** The consumer's drain after stop: what is queued is yielded in order. */
    method DrainQueue()
      requires consumer.Draining?
      modifies this`queue, this`yielded, this`fates, this`consumer
      ensures consumer.Ended? && queue == [] && yielded == old(yielded) + old(queue)
      ensures Contents() == Drained(old(Contents())).(consumer := Ended)
    {
      DrainedYields(Contents());
      while queue != []
        invariant Drained(Contents()) == Drained(old(Contents()))
        decreases |queue|
      {
        YieldQueued();
      }
      ghost var d := Contents();
      consumer := Ended;
      assert Contents() == d.(consumer := Ended);
    }
  }

  /** `Poller(...)`: bad settings raise. */
  method Create<T>(settings: Settings) returns (r: Result<PollerTask<T>, SettingsError>)
    ensures match CheckSettings(settings)
            case Some(e) => r == Err(e)
            case None => r.Ok? && fresh(r.value) && r.value.Contents() == Fresh(settings)
  {
    var error := CheckSettings(settings);
    if error.Some? { return Err(error.value); }
    var task := new PollerTask(settings);
    return Ok(task);
  }

  /** Drain steps for as long as something is queued. */
  function Drained<T>(s: Model<T>): Model<T>
    decreases |s.queue|
  {
    if s.queue == [] then s else Drained(DrainOne(s))
  }

  lemma {:induction false} DrainedYields<T>(s: Model<T>)
    ensures var r := Drained(s); r.queue == [] && r.yielded == s.yielded + s.queue
    decreases |s.queue|
  {
    if s.queue != [] { DrainedYields(DrainOne(s)); }
  }
}
