/**
 The supervisor object itself: the methods of `FocasService`, each proved to do to its fields what the
 functions of module `FocasService` say, so that everything proved about their runs holds of it.
 */
module FocasSupervisor {
  import opened Wrappers
  import opened FocasService

  class Supervisor {
    const cfg: Config
    // the outside world
    var script: seq<Reply>
    var now: int
    var stop: bool
    // the object
    var crashed: bool  // an exception other than a FOCAS error is on its way out
    var source: Option<nat>
    var openings: nat
    var state: ServiceState
    var consecutive: int
    var connectFailures: nat
    var cyclesOk: nat
    var cyclesFailed: nat
    var fastTicksOk: nat
    // what happened
    ghost var persisted: seq<bool>
    ghost var log: seq<Event>

    ghost function Contents(): Service
      reads this
    {
      Service(cfg, script, now, stop, crashed, source, openings, state, consecutive, connectFailures,
              cyclesOk, cyclesFailed, fastTicksOk, persisted, log)
    }

    constructor (config: Config, replies: seq<Reply>, clock: int)
      ensures Contents() == Start(config, replies, clock)
    {
      cfg, script, now, stop, crashed := config, replies, clock, false, false;
      source, openings, state := None, 0, Connecting;
      consecutive, connectFailures, cyclesOk, cyclesFailed, fastTicksOk := 0, 0, 0, 0, 0;
      persisted, log := [], [];
    }

    // -------------------------------------------------------------- outside calls

    method TakeReply() returns (reply: Reply)
      modifies this`script, this`stop
      ensures reply == NextReply(old(Contents()))
      ensures Contents() == Consumed(old(Contents()))
    {
      reply := LAST_REPLY;
      if script != [] {
        reply := script[0];
        script := script[1..];
      }
      stop := stop || reply.stop;
    }

    method Call() returns (reply: Reply)
      modifies this`script, this`stop, this`now
      ensures reply == NextReply(old(Contents()))
      ensures Contents() == Called(old(Contents()))
    {
      reply := TakeReply();
      now := now + reply.elapsed;
    }

    method SleepOnce(chunk: int)
      modifies this`script, this`stop, this`now, this`log
      ensures Contents() == SleepChunk(old(Contents()), chunk)
    {
      ghost var stopped := stop;
      var reply := TakeReply();
      now := now + chunk + reply.overshoot;
      log := log + [Slept(chunk, stopped)];
    }

    // -------------------------------------------------------------- sleeping

    method SleepFor(ms: int)
      modifies this`script, this`stop, this`now, this`log
      ensures Contents() == SleepInterruptible(old(Contents()), ms)
    {
      if ms <= 0 { return; }
      var deadline := now + ms;
      while !stop
        invariant SleepUntil(Contents(), deadline) == SleepUntil(old(Contents()), deadline)
        decreases !stop, if deadline > now then deadline - now else 0
      {
        var remaining := deadline - now;
        if remaining <= 0 { return; }
        SleepOnce(Min(remaining, CHUNK));
      }
    }

    method SleepRest(cycleStart: int)
      modifies this`script, this`stop, this`now, this`log
      ensures Contents() == SleepRemaining(old(Contents()), cycleStart)
    {
      hide SleepInterruptible;
      var elapsed := now - cycleStart;
      SleepFor(if cfg.interval - elapsed > 0 then cfg.interval - elapsed else 0);
    }

    // -------------------------------------------------------------- connecting and closing

    method Close()
      modifies this`source, this`log
      ensures Contents() == CloseSource(old(Contents()))
    {
      if source.Some? {
        log := log + [Closed(source.value)];
        source := None;
      }
    }

    /** The `except` branch of a failed connect. */
    method BackOff()
      modifies this
      ensures Contents() == Refused(old(Contents()))
    {
      hide SleepInterruptible;
      ghost var s := Contents();
      connectFailures := connectFailures + 1;
      log := log + [ConnectFailed];
      assert Contents() == Note(s.(connectFailures := s.connectFailures + 1), ConnectFailed);
      hide Note;
      SleepFor(Min(cfg.backoffMax, cfg.backoff * connectFailures));
    }

    method Adopt()
      modifies this
      ensures Contents() == Accepted(old(Contents()))
    {
      source := Some(openings);
      log := log + [Opened(openings)];
      openings, connectFailures, consecutive, state := openings + 1, 0, 0, Healthy;
    }

    method TryConnect()
      requires source.None?
      modifies this
      ensures Contents() == Connect(old(Contents()))
    {
      hide Called, Refused, Accepted;
      state := Connecting;
      var reply := Call();
      if reply.connectOk {
        Adopt();
      } else {
        BackOff();
      }
    }

    // -------------------------------------------------------------- one cycle

    method PersistSnapshot()
      modifies this`script, this`stop, this`now, this`persisted
      ensures Contents() == DoPersist(old(Contents()))
    {
      var reply := Call();
      persisted := persisted + [reply.persistOk];
    }

    /** The breaker opens: release the source, cool down, count afresh. */
    method Trip()
      modifies this
      ensures var s := old(Contents());
              var t := CloseSource(Note(s.(state := CircuitOpen), Tripped(s.now)));
              Contents() == SleepInterruptible(t, t.cfg.cooldown).(consecutive := 0)
    {
      hide SleepInterruptible, Later;
      ghost var s := Contents();
      state := CircuitOpen;
      log := log + [Tripped(now)];
      assert Contents() == Note(s.(state := CircuitOpen), Tripped(s.now));
      hide Note;
      Close();
      hide CloseSource;
      SleepFor(cfg.cooldown);
      ghost var slept := Contents();
      consecutive := 0;
      assert Contents() == slept.(consecutive := 0);
    }

    method ReadFailed()
      modifies this
      ensures Contents() == OnReadFailure(old(Contents()))
    {
      hide SleepInterruptible, CloseSource, Note, Later;
      ghost var s := Contents();
      cyclesFailed := cyclesFailed + 1;
      assert Contents() == s.(cyclesFailed := s.cyclesFailed + 1);
      if consecutive >= cfg.threshold {
        Trip();
      } else {
        state := Degraded;
      }
    }

    method Tick()
      requires source.Some?
      modifies this
      ensures Contents() == FastTick(old(Contents()))
    {
      ghost var from := now;
      ghost var reading := source.value;
      var reply := Call();
      log := log + [StatusRead(reading, from, reply.read)];
      match reply.read {
        case HandleError => Close();
        case FocasFailure =>
        case Crash => crashed := true;
        case ReadOk =>
          PersistSnapshot();
          fastTicksOk := fastTicksOk + 1;
      }
      log := log + [Ticked(from, now)];
    }

    method WaitBetweenCycles(cycleStart: int)
      modifies this
      ensures Contents() == BetweenCycles(old(Contents()), cycleStart)
    {
      hide SleepInterruptible, FastTick, SleepRemaining;
      if cfg.statusInterval.None? || cfg.statusInterval.value <= 0 || !cfg.lightRead {
        SleepRest(cycleStart);
        return;
      }
      var fast, deadline := cfg.statusInterval.value, cycleStart + cfg.interval;
      while !stop && !crashed && source.Some?
        invariant FastLoop(Contents(), deadline, fast) == FastLoop(old(Contents()), deadline, fast)
        decreases !stop, if deadline > now then deadline - now else 0
      {
        var remaining := deadline - now;
        if remaining <= 0 { return; }
        if remaining <= fast {
          SleepFor(remaining);
          return;
        }
        SleepFor(fast);
        if stop || source.None? { return; }
        Tick();
      }
    }

    method StaleRead()
      modifies this
      ensures var s := old(Contents()); Contents() == OnReadFailure(CloseSource(s.(consecutive := s.consecutive + 1)))
    {
      hide OnReadFailure, CloseSource;
      ghost var s := Contents();
      consecutive := consecutive + 1;
      assert Contents() == s.(consecutive := s.consecutive + 1);
      Close();
      ReadFailed();
    }

    method ErroredRead(cycleStart: int)
      modifies this
      ensures var s := old(Contents());
              var f := OnReadFailure(s.(consecutive := s.consecutive + 1));
              Contents() == if f.consecutive < f.cfg.threshold then SleepRemaining(f, cycleStart) else f
    {
      hide OnReadFailure, SleepRemaining;
      ghost var s := Contents();
      consecutive := consecutive + 1;
      assert Contents() == s.(consecutive := s.consecutive + 1);
      ReadFailed();
      if consecutive < cfg.threshold { SleepRest(cycleStart); }
    }

    method GoodRead(cycleStart: int)
      modifies this
      ensures var s := old(Contents());
              var p := DoPersist(s.(consecutive := 0, cyclesOk := s.cyclesOk + 1));
              Contents() == BetweenCycles(p.(state := Healthy), cycleStart)
    {
      hide DoPersist, BetweenCycles;
      ghost var s := Contents();
      consecutive, cyclesOk := 0, cyclesOk + 1;
      assert Contents() == s.(consecutive := 0, cyclesOk := s.cyclesOk + 1);
      PersistSnapshot();
      ghost var p := Contents();
      state := Healthy;
      assert Contents() == p.(state := Healthy);
      WaitBetweenCycles(cycleStart);
    }

    method Cycle()
      requires source.Some?
      modifies this
      ensures Contents() == RunCycle(old(Contents()))
    {
      hide Called, DoPersist, OnReadFailure, SleepRemaining, BetweenCycles, NextReply, CloseSource, Later;
      var cycleStart := now;
      var reply := Call();
      ghost var called := Contents();
      log := log + [FullRead(source.value, cycleStart, reply.read)];
      assert Contents() == Note(called, FullRead(called.source.value, cycleStart, reply.read));
      hide Note;
      match reply.read {
        case Crash => crashed := true;
        case HandleError => StaleRead();
        case FocasFailure => ErroredRead(cycleStart);
        case ReadOk => GoodRead(cycleStart);
      }
    }

    // -------------------------------------------------------------- the run

    /** Poll until stop is set or an exception escapes; either way the source is released. */
    method RunService()
      modifies this
      ensures Contents() == Finish(Loop(old(Contents())))
    {
      hide Connect, RunCycle;
      while !stop && !crashed
        invariant Loop(Contents()) == Loop(old(Contents()))
        decreases |script| + if stop then 0 else 1
      {
        if source.None? {
          TryConnect();
          if source.Some? { Cycle(); }
        } else {
          Cycle();
        }
      }
      Close();
      state := Stopped;
    }
  }
}
