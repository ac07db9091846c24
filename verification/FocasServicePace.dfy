/**
 How often the supervisor touches the control: the back-off between failed connects and the interval
 between full reads.
 */
module FocasServicePace {
  import opened FocasService
  import opened FocasServiceRuns

  /** Failed connects since the last successful one. */
  function ConnectStreak(log: seq<Event>): nat {
    if log == [] then 0 else
    match log[|log| - 1]
    case ConnectFailed => ConnectStreak(log[..|log| - 1]) + 1
    case Opened(_) => 0
    case _ => ConnectStreak(log[..|log| - 1])
  }

  lemma StreakSnoc(log: seq<Event>, e: Event)
    ensures ConnectStreak(log + [e])
            == if e.ConnectFailed? then ConnectStreak(log) + 1 else if e.Opened? then 0 else ConnectStreak(log)
  {
    assert (log + [e])[..|log|] == log;
  }

  ghost predicate CountsConnects(s: Service) {
    s.connectFailures == ConnectStreak(s.log)
  }

  /** Whatever happens after `s`, no connect is tried. */
  ghost predicate NoConnect(s: Service, r: Service) {
    r.connectFailures == s.connectFailures && ConnectStreak(r.log) == ConnectStreak(s.log)
  }

  lemma {:induction false} SleepUntilNoConnect(s: Service, deadline: int)
    ensures NoConnect(s, SleepUntil(s, deadline))
    decreases if deadline > s.now then deadline - s.now else 0
  {
    if !(s.stop || deadline - s.now <= 0) {
      var chunk := Min(deadline - s.now, CHUNK);
      StreakSnoc(s.log, Slept(chunk, s.stop));
      hide ConnectStreak;
      SleepUntilNoConnect(SleepChunk(s, chunk), deadline);
    }
  }

  lemma SleepNoConnect(s: Service, ms: int)
    ensures NoConnect(s, SleepInterruptible(s, ms))
  {
    hide SleepUntil, ConnectStreak;
    SleepUntilNoConnect(s, s.now + ms);
  }

  lemma CloseNoConnect(s: Service)
    ensures NoConnect(s, CloseSource(s))
  {
    if s.source.Some? { StreakSnoc(s.log, Closed(s.source.value)); }
    hide ConnectStreak;
  }

  lemma FailureNoConnect(s: Service)
    ensures NoConnect(s, OnReadFailure(s))
  {
    var f := s.(cyclesFailed := s.cyclesFailed + 1);
    StreakSnoc(f.log, Tripped(f.now));
    var t := Note(f.(state := CircuitOpen), Tripped(f.now));
    hide ConnectStreak, SleepInterruptible;
    CloseNoConnect(t);
    SleepNoConnect(CloseSource(t), t.cfg.cooldown);
  }

  lemma TickNoConnect(s: Service)
    requires s.source.Some?
    ensures NoConnect(s, FastTick(s))
  {
    var c := Note(Called(s), StatusRead(s.source.value, s.now, NextReply(s).read));
    StreakSnoc(s.log, StatusRead(s.source.value, s.now, NextReply(s).read));
    CloseNoConnect(c);
    StreakSnoc(CloseSource(c).log, Ticked(s.now, c.now));
    StreakSnoc(c.log, Ticked(s.now, c.now));
    StreakSnoc(c.log, Ticked(s.now, DoPersist(c).now));
    hide ConnectStreak;
  }

  lemma {:induction false} FastLoopNoConnect(s: Service, deadline: int, fast: int)
    requires fast > 0
    ensures NoConnect(s, FastLoop(s, deadline, fast))
    decreases if deadline > s.now then deadline - s.now else 0
  {
    hide SleepInterruptible, FastTick, ConnectStreak;
    if !(s.stop || s.crashed || s.source.None?) && deadline - s.now > 0 {
      SleepNoConnect(s, deadline - s.now);
      SleepNoConnect(s, fast);
      var t := SleepInterruptible(s, fast);
      if deadline - s.now > fast && !(t.stop || t.source.None?) {
        TickNoConnect(t);
        FastLoopNoConnect(FastTick(t), deadline, fast);
      }
    }
  }

  lemma BetweenNoConnect(s: Service, start: int)
    ensures NoConnect(s, BetweenCycles(s, start)) && NoConnect(s, SleepRemaining(s, start))
  {
    hide SleepInterruptible, FastLoop, ConnectStreak;
    var left := s.cfg.interval - (s.now - start);
    SleepNoConnect(s, if left > 0 then left else 0);
    if s.cfg.statusInterval.Some? && s.cfg.statusInterval.value > 0 {
      FastLoopNoConnect(s, start + s.cfg.interval, s.cfg.statusInterval.value);
    }
  }

  lemma CycleNoConnect(s: Service)
    requires s.source.Some?
    ensures NoConnect(s, RunCycle(s))
  {
    hide ConnectStreak, SleepRemaining, BetweenCycles, OnReadFailure;
    var c := Note(Called(s), FullRead(s.source.value, s.now, NextReply(s).read));
    StreakSnoc(s.log, FullRead(s.source.value, s.now, NextReply(s).read));
    match NextReply(s).read
    case Crash =>
    case HandleError =>
      var d := c.(consecutive := c.consecutive + 1);
      CloseNoConnect(d);
      FailureNoConnect(CloseSource(d));
    case FocasFailure =>
      var d := c.(consecutive := c.consecutive + 1);
      FailureNoConnect(d);
      BetweenNoConnect(OnReadFailure(d), s.now);
    case ReadOk =>
      BetweenNoConnect(DoPersist(c.(consecutive := 0, cyclesOk := c.cyclesOk + 1)).(state := Healthy), s.now);
  }

  lemma ConnectCounts(s: Service)
    requires s.source.None? && CountsConnects(s)
    ensures CountsConnects(Connect(s))
  {
    hide ConnectStreak, SleepInterruptible;
    var c := Called(s.(state := Connecting));
    StreakSnoc(c.log, ConnectFailed);
    StreakSnoc(c.log, Opened(c.openings));
    var f := Note(c.(connectFailures := c.connectFailures + 1), ConnectFailed);
    SleepNoConnect(f, Min(f.cfg.backoffMax, f.cfg.backoff * f.connectFailures));
  }

  lemma {:induction false} HeadCountsConnects(s: Service, n: nat)
    requires CountsConnects(s)
    ensures CountsConnects(Head(s, n))
  {
    hide ConnectStreak, Connect, RunCycle;
    if n > 0 {
      HeadCountsConnects(s, n - 1);
      var h := Head(s, n - 1);
      if !(h.stop || h.crashed) {
        if h.source.None? {
          ConnectCounts(h);
          if Connect(h).source.Some? { CycleNoConnect(Connect(h)); }
        } else {
          CycleNoConnect(h);
        }
      }
    }
  }

  /** At every loop head the connect-failure count is the number of failed connects in a row, whatever
      reads, ticks and sleeps came in between. */
  lemma EveryHeadCountsConnects(cfg: Config, script: seq<Reply>, now: int, n: nat)
    ensures CountsConnects(Head(Start(cfg, script, now), n))
  {
    assert CountsConnects(Start(cfg, script, now));
    hide CountsConnects, Start;
    HeadCountsConnects(Start(cfg, script, now), n);
  }

  /** The k-th failed connect in a row keeps the supervisor off the control for k times the back-off, up
      to the maximum, unless it is stopped. */
  lemma FailedConnectBacksOff(s: Service)
    requires s.source.None? && CountsConnects(s) && !NextReply(s).connectOk
    ensures var r := Connect(s);
            var k := ConnectStreak(s.log) + 1;
            && r.source.None? && ConnectStreak(r.log) == k
            && (r.stop || r.now >= s.now + NextReply(s).elapsed + Min(s.cfg.backoffMax, s.cfg.backoff * k))
  {
    ConnectCounts(s);
    hide ConnectStreak, SleepInterruptible;
  }

  lemma {:induction false} FastLoopReachesDeadline(s: Service, deadline: int, fast: int)
    requires fast > 0
    ensures var r := FastLoop(s, deadline, fast); r.stop || r.crashed || r.source.None? || r.now >= deadline
    decreases if deadline > s.now then deadline - s.now else 0
  {
    hide SleepInterruptible, FastTick;
    if !(s.stop || s.crashed || s.source.None?) && deadline - s.now > fast {
      var t := SleepInterruptible(s, fast);
      if !(t.stop || t.source.None?) { FastLoopReachesDeadline(FastTick(t), deadline, fast); }
    }
  }

  lemma BetweenKeepsInterval(s: Service, start: int)
    ensures var r := BetweenCycles(s, start); r.stop || r.crashed || r.source.None? || r.now >= start + s.cfg.interval
    ensures var r := SleepRemaining(s, start); r.stop || r.now >= start + s.cfg.interval
  {
    hide SleepInterruptible, FastLoop;
    if s.cfg.statusInterval.Some? && s.cfg.statusInterval.value > 0 {
      FastLoopReachesDeadline(s, start + s.cfg.interval, s.cfg.statusInterval.value);
    }
  }

  /** Unless stopped or crashed, a cycle that still holds its source ends no sooner than the interval
      after it began: full reads of one source are at least an interval apart. */
  lemma CyclesKeepInterval(s: Service)
    requires s.source.Some?
    ensures var r := RunCycle(s);
            r.stop || r.crashed || r.source.None? || (r.source == s.source && r.now >= s.now + s.cfg.interval)
  {
    hide SleepRemaining, BetweenCycles, SleepInterruptible;
    var c := Note(Called(s), FullRead(s.source.value, s.now, NextReply(s).read));
    match NextReply(s).read
    case Crash =>
    case HandleError =>
    case FocasFailure =>
      var f := OnReadFailure(c.(consecutive := c.consecutive + 1));
      BetweenKeepsInterval(f, s.now);
      RemainingKeepsSource(f, s.now);
    case ReadOk =>
      var p := DoPersist(c.(consecutive := 0, cyclesOk := c.cyclesOk + 1)).(state := Healthy);
      BetweenKeepsInterval(p, s.now);
      RemainingKeepsSource(p, s.now);
  }

  lemma RemainingKeepsSource(s: Service, start: int)
    ensures SleepRemaining(s, start).source == s.source
    ensures BetweenCycles(s, start).source == s.source || BetweenCycles(s, start).source.None?
  {
    hide SleepInterruptible, FastLoop;
    if s.cfg.statusInterval.Some? && s.cfg.statusInterval.value > 0 {
      FastTierKeepsState(s, start + s.cfg.interval, s.cfg.statusInterval.value);
    }
  }
}
