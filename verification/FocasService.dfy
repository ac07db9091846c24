/**
 The self-healing poll supervisor (`shared/focas/service.py`).

 Everything outside the supervisor — the client factory, the reads, the persist function, the clock,
 the sleep, the stop event — is a script of replies, one consumed per outside call.  A script is any
 finite run's worth of replies; when it is used up, stop is set.  Time is in milliseconds.
 */
module FocasService {
  import opened Wrappers

  datatype Config = Config(
    interval: int, threshold: int, cooldown: int, backoff: int, backoffMax: int,
    statusInterval: Option<int>,
    lightRead: bool)  // the source exposes `read_status_snapshot`

  const CHUNK := 1000

  datatype ReadOutcome = ReadOk | HandleError | FocasFailure | Crash

  /** One outside call: how each kind of call would turn out, how long it takes, by how much a sleep
      overshoots, and whether stop fires meanwhile. */
  datatype Reply = Reply(connectOk: bool, read: ReadOutcome, persistOk: bool, elapsed: nat, overshoot: nat, stop: bool)

  datatype ServiceState = Connecting | Healthy | Degraded | CircuitOpen | Stopped

  datatype Event =
    | Opened(source: nat)
    | ConnectFailed
    | Closed(source: nat)
    | FullRead(source: nat, at: int, outcome: ReadOutcome)
    | StatusRead(source: nat, at: int, outcome: ReadOutcome)
    | Tripped(at: int)
    | Slept(asked: int, stopped: bool)  // the chunk asked for, and whether stop was already set
    | Ticked(from: int, until: int)

  datatype Service = Service(
    cfg: Config, script: seq<Reply>, now: int, stop: bool, crashed: bool,
    source: Option<nat>, openings: nat, state: ServiceState,
    consecutive: int, connectFailures: nat, cyclesOk: nat, cyclesFailed: nat, fastTicksOk: nat,
    persisted: seq<bool>, log: seq<Event>)

  function Start(cfg: Config, script: seq<Reply>, now: int): Service {
    Service(cfg, script, now, false, false, None, 0, Connecting, 0, 0, 0, 0, 0, [], [])
  }

  // ---------------------------------------------------------------- outside calls

  const LAST_REPLY := Reply(true, ReadOk, true, 0, 0, true)

  function NextReply(s: Service): Reply {
    if s.script == [] then LAST_REPLY else s.script[0]
  }

  function Consumed(s: Service): Service {
    s.(script := if s.script == [] then [] else s.script[1..], stop := s.stop || NextReply(s).stop)
  }

  /** A call that takes its time. */
  function Called(s: Service): Service {
    Consumed(s).(now := s.now + NextReply(s).elapsed)
  }

  function Note(s: Service, e: Event): Service {
    s.(log := s.log + [e])
  }

  /** The script and the clock only move on. */
  ghost predicate Later(s: Service, r: Service) {
    && |r.script| <= |s.script| && (s.stop ==> r.stop) && (s.crashed ==> r.crashed) && s.now <= r.now
    && r.cfg == s.cfg
  }

  // ---------------------------------------------------------------- sleeping

  function Min(a: int, b: int): int { if a <= b then a else b }

  /** `_sleep(chunk)` */
  function SleepChunk(s: Service, chunk: int): Service {
    Note(Consumed(s).(now := s.now + chunk + NextReply(s).overshoot), Slept(chunk, s.stop))
  }

  function SleepUntil(s: Service, deadline: int): (r: Service)
    ensures Later(s, r)
    ensures r.stop || r.now >= deadline
    ensures (r.source, r.openings, r.state, r.consecutive, r.crashed) ==
            (s.source, s.openings, s.state, s.consecutive, s.crashed)
    ensures (r.cyclesOk, r.cyclesFailed, r.fastTicksOk, r.connectFailures) ==
            (s.cyclesOk, s.cyclesFailed, s.fastTicksOk, s.connectFailures)
    decreases if deadline > s.now then deadline - s.now else 0
  {
    if s.stop || deadline - s.now <= 0 then s
    else SleepUntil(SleepChunk(s, Min(deadline - s.now, CHUNK)), deadline)
  }

  function SleepInterruptible(s: Service, ms: int): (r: Service)
    ensures Later(s, r)
    ensures r.stop || r.now >= s.now + ms
    ensures (r.source, r.openings, r.state, r.consecutive, r.crashed) ==
            (s.source, s.openings, s.state, s.consecutive, s.crashed)
    ensures (r.cyclesOk, r.cyclesFailed, r.fastTicksOk, r.connectFailures) ==
            (s.cyclesOk, s.cyclesFailed, s.fastTicksOk, s.connectFailures)
  {
    if ms <= 0 then s else SleepUntil(s, s.now + ms)
  }

  /** `max(0, interval - elapsed)` */
  function SleepRemaining(s: Service, cycleStart: int): (r: Service)
    ensures Later(s, r)
  {
    var left := s.cfg.interval - (s.now - cycleStart);
    SleepInterruptible(s, if left > 0 then left else 0)
  }

  // ---------------------------------------------------------------- connecting and closing

  function CloseSource(s: Service): Service {
    if s.source.None? then s else Note(s, Closed(s.source.value)).(source := None)
  }

  /** Back off, longer after every failure in a row. */
  function Refused(c: Service): (r: Service)
    ensures Later(c, r)
  {
    var f := Note(c.(connectFailures := c.connectFailures + 1), ConnectFailed);
    SleepInterruptible(f, Min(f.cfg.backoffMax, f.cfg.backoff * f.connectFailures))
  }

  function Accepted(c: Service): Service {
    Note(c.(source := Some(c.openings), openings := c.openings + 1, connectFailures := 0, consecutive := 0,
            state := Healthy),
         Opened(c.openings))
  }

  function Connect(s: Service): (r: Service)
    requires s.source.None?
    ensures Later(s, r)
    ensures |r.script| < |s.script| || r.stop
  {
    var c := Called(s.(state := Connecting));
    if NextReply(s).connectOk then Accepted(c) else Refused(c)
  }

  // ---------------------------------------------------------------- one cycle

  /** A database error is recorded and nothing more. */
  function DoPersist(s: Service): Service {
    Called(s).(persisted := s.persisted + [NextReply(s).persistOk])
  }

  function OnReadFailure(s: Service): (r: Service)
    ensures Later(s, r)
  {
    var f := s.(cyclesFailed := s.cyclesFailed + 1);
    if f.consecutive >= f.cfg.threshold then
      var t := CloseSource(Note(f.(state := CircuitOpen), Tripped(f.now)));
      SleepInterruptible(t, t.cfg.cooldown).(consecutive := 0)
    else f.(state := Degraded)
  }

  /** One light read and persist. */
  function FastTick(s: Service): (r: Service)
    requires s.source.Some?
    ensures Later(s, r)
  {
    var c := Note(Called(s), StatusRead(s.source.value, s.now, NextReply(s).read));
    match NextReply(s).read
    case HandleError => Note(CloseSource(c), Ticked(s.now, c.now))
    case FocasFailure => Note(c, Ticked(s.now, c.now))
    case Crash => Note(c.(crashed := true), Ticked(s.now, c.now))
    case ReadOk =>
      var p := DoPersist(c);
      Note(p.(fastTicksOk := p.fastTicksOk + 1), Ticked(s.now, p.now))
  }

  /** The status tier between full cycles. */
  function FastLoop(s: Service, deadline: int, fast: int): (r: Service)
    requires fast > 0
    ensures Later(s, r)
    decreases if deadline > s.now then deadline - s.now else 0
  {
    if s.stop || s.crashed || s.source.None? then s else
    var remaining := deadline - s.now;
    if remaining <= 0 then s
    else if remaining <= fast then SleepInterruptible(s, remaining)
    else
      var t := SleepInterruptible(s, fast);
      if t.stop || t.source.None? then t else FastLoop(FastTick(t), deadline, fast)
  }

  function BetweenCycles(s: Service, cycleStart: int): (r: Service)
    ensures Later(s, r)
  {
    if s.cfg.statusInterval.None? || s.cfg.statusInterval.value <= 0 || !s.cfg.lightRead
      then SleepRemaining(s, cycleStart)
    else FastLoop(s, cycleStart + s.cfg.interval, s.cfg.statusInterval.value)
  }

  function RunCycle(s: Service): (r: Service)
    requires s.source.Some?
    ensures Later(s, r)
    ensures |r.script| < |s.script| || r.stop
  {
    var start := s.now;
    var c := Note(Called(s), FullRead(s.source.value, start, NextReply(s).read));
    match NextReply(s).read
    case Crash => c.(crashed := true)
    case HandleError =>
      OnReadFailure(CloseSource(c.(consecutive := c.consecutive + 1)))
    case FocasFailure =>
      var f := OnReadFailure(c.(consecutive := c.consecutive + 1));
      if f.consecutive < f.cfg.threshold then SleepRemaining(f, start) else f
    case ReadOk =>
      var p := DoPersist(c.(consecutive := 0, cyclesOk := c.cyclesOk + 1));
      BetweenCycles(p.(state := Healthy), start)
  }

  // ---------------------------------------------------------------- the run

  /** One pass of the main loop. */
  function Pass(s: Service): (r: Service)
    ensures Later(s, r)
    ensures |r.script| < |s.script| || r.stop
  {
    if s.source.None? then
      var c := Connect(s);
      if c.source.None? then c else RunCycle(c)
    else RunCycle(s)
  }

  /** The main loop, up to stop or a crash. */
  function Loop(s: Service): (r: Service)
    ensures r.stop || r.crashed
    decreases |s.script| + if s.stop then 0 else 1
  {
    if s.stop || s.crashed then s else Loop(Pass(s))
  }

  /** The `finally` block. */
  function Finish(s: Service): Service {
    CloseSource(s).(state := Stopped)
  }

  function Run(cfg: Config, script: seq<Reply>, now: int): Service {
    Finish(Loop(Start(cfg, script, now)))
  }
}
