/** When the light status tier of the supervisor reads: as often as its interval allows, or never. */
module FocasServiceTier {
  import opened Wrappers
  import opened FocasService
  import opened FocasServiceRuns

  // ---------------------------------------------------------------- never, unless it is configured

  /** A status interval above zero, and a source that can be read lightly. */
  ghost predicate TierOn(cfg: Config) {
    cfg.statusInterval.Some? && cfg.statusInterval.value > 0 && cfg.lightRead
  }

  ghost predicate NoLightReads(log: seq<Event>) {
    forall i | 0 <= i < |log| :: !log[i].StatusRead?
  }

  lemma {:induction false} SleepUntilNoReads(s: Service, deadline: int)
    requires NoLightReads(s.log)
    ensures NoLightReads(SleepUntil(s, deadline).log)
    decreases if deadline > s.now then deadline - s.now else 0
  {
    if !(s.stop || deadline - s.now <= 0) {
      SleepUntilNoReads(SleepChunk(s, Min(deadline - s.now, CHUNK)), deadline);
    }
  }

  lemma SleepNoReads(s: Service, ms: int)
    requires NoLightReads(s.log)
    ensures NoLightReads(SleepInterruptible(s, ms).log)
  {
    hide NoLightReads, SleepUntil;
    SleepUntilNoReads(s, s.now + ms);
  }

  lemma RemainingNoReads(s: Service, cycleStart: int)
    requires NoLightReads(s.log)
    ensures NoLightReads(SleepRemaining(s, cycleStart).log)
  {
    var left := s.cfg.interval - (s.now - cycleStart);
    hide NoLightReads, SleepInterruptible;
    SleepNoReads(s, if left > 0 then left else 0);
  }

  lemma NoteNoReads(log: seq<Event>, e: Event)
    requires NoLightReads(log) && !e.StatusRead?
    ensures NoLightReads(log + [e])
  {
  }

  lemma CloseNoReads(s: Service)
    requires NoLightReads(s.log)
    ensures NoLightReads(CloseSource(s).log)
  {
    hide NoLightReads;
    if s.source.Some? { NoteNoReads(s.log, Closed(s.source.value)); }
  }

  lemma FailureNoReads(s: Service)
    requires NoLightReads(s.log)
    ensures NoLightReads(OnReadFailure(s).log)
  {
    hide NoLightReads, SleepInterruptible, CloseSource;
    var f := s.(cyclesFailed := s.cyclesFailed + 1);
    var t := Note(f.(state := CircuitOpen), Tripped(f.now));
    NoteNoReads(f.log, Tripped(f.now));
    CloseNoReads(t);
    SleepNoReads(CloseSource(t), CloseSource(t).cfg.cooldown);
  }

  lemma CycleNoReads(s: Service)
    requires NoLightReads(s.log) && s.source.Some? && !TierOn(s.cfg)
    ensures NoLightReads(RunCycle(s).log)
  {
    hide NoLightReads, OnReadFailure, SleepRemaining, FastLoop, CloseSource;
    var e := FullRead(s.source.value, s.now, NextReply(s).read);
    var c := Note(Called(s), e);
    NoteNoReads(s.log, e);
    match NextReply(s).read
    case Crash =>
    case HandleError =>
      CloseNoReads(c.(consecutive := c.consecutive + 1));
      FailureNoReads(CloseSource(c.(consecutive := c.consecutive + 1)));
    case FocasFailure =>
      FailureNoReads(c.(consecutive := c.consecutive + 1));
      RemainingNoReads(OnReadFailure(c.(consecutive := c.consecutive + 1)), s.now);
    case ReadOk =>
      RemainingNoReads(DoPersist(c.(consecutive := 0, cyclesOk := c.cyclesOk + 1)).(state := Healthy), s.now);
  }

  lemma ConnectNoReads(s: Service)
    requires NoLightReads(s.log) && s.source.None?
    ensures NoLightReads(Connect(s).log)
  {
    hide NoLightReads, SleepInterruptible;
    var c := Called(s.(state := Connecting));
    var f := Note(c.(connectFailures := c.connectFailures + 1), ConnectFailed);
    NoteNoReads(c.log, ConnectFailed);
    NoteNoReads(c.log, Opened(c.openings));
    SleepNoReads(f, Min(f.cfg.backoffMax, f.cfg.backoff * f.connectFailures));
  }

  lemma {:induction false} LoopNoReads(s: Service)
    requires NoLightReads(s.log) && !TierOn(s.cfg)
    ensures NoLightReads(Loop(s).log)
    decreases |s.script| + if s.stop then 0 else 1
  {
    hide NoLightReads, TierOn, Connect, RunCycle;
    if !(s.stop || s.crashed) {
      if s.source.None? {
        ConnectNoReads(s);
        if Connect(s).source.Some? { CycleNoReads(Connect(s)); }
      } else {
        CycleNoReads(s);
      }
      LoopNoReads(Pass(s));
    }
  }

  /** A run without the tier takes no light read. */
  lemma NoTierNoReads(cfg: Config, script: seq<Reply>, start: int)
    requires !TierOn(cfg)
    ensures NoLightReads(Run(cfg, script, start).log)
  {
    LoopNoReads(Start(cfg, script, start));
    hide Loop;
  }

  // ---------------------------------------------------------------- as often as it may

  /** How long the ticks took. */
  function TickTime(log: seq<Event>): int {
    if log == [] then 0 else
    TickTime(log[..|log| - 1]) + match log[|log| - 1] case Ticked(from, until) => until - from case _ => 0
  }

  lemma TickTimeSnoc(log: seq<Event>, e: Event)
    ensures TickTime(log + [e]) == TickTime(log) + match e case Ticked(from, until) => until - from case _ => 0
  {
    assert (log + [e])[..|log|] == log;
  }

  lemma {:induction false} SleepUntilTickTime(s: Service, deadline: int)
    ensures TickTime(SleepUntil(s, deadline).log) == TickTime(s.log)
    decreases if deadline > s.now then deadline - s.now else 0
  {
    if !(s.stop || deadline - s.now <= 0) {
      var chunk := Min(deadline - s.now, CHUNK);
      TickTimeSnoc(s.log, Slept(chunk, s.stop));
      hide TickTime;
      SleepUntilTickTime(SleepChunk(s, chunk), deadline);
    }
  }

  lemma TickTakes(s: Service)
    requires s.source.Some?
    ensures TickTime(FastTick(s).log) == TickTime(s.log) + FastTick(s).now - s.now
  {
    hide TickTime;
    var e := StatusRead(s.source.value, s.now, NextReply(s).read);
    var c := Note(Called(s), e);
    TickTimeSnoc(s.log, e);
    if c.source.Some? { TickTimeSnoc(c.log, Closed(c.source.value)); }
    var d := if NextReply(s).read.HandleError? then CloseSource(c) else c;
    TickTimeSnoc(d.log, Ticked(s.now, FastTick(s).now));
  }

  /** Unless the wait ended early, its ticks, the time they took and one more interval cover the window. */
  ghost predicate Filled(s: Service, r: Service, deadline: int, fast: int) {
    var n := Ticks(r.log) - Ticks(s.log);
    r.stop || r.crashed || r.source.None?
    || (n + 1) * fast + (TickTime(r.log) - TickTime(s.log)) >= deadline - s.now
  }

  lemma FilledAfterTick(s: Service, u: Service, r: Service, deadline: int, fast: int)
    requires Filled(u, r, deadline, fast)
    requires Ticks(u.log) == Ticks(s.log) + 1
    requires TickTime(u.log) == TickTime(s.log) + u.now - (s.now + fast)
    ensures Filled(s, r, deadline, fast)
  {
    hide Ticks, TickTime;
    var n := Ticks(r.log) - Ticks(u.log);
    assert (n + 2) * fast == (n + 1) * fast + fast;
  }

  lemma FilledBySleep(s: Service, r: Service, deadline: int, fast: int)
    requires Ticks(r.log) == Ticks(s.log) && TickTime(r.log) == TickTime(s.log)
    requires deadline - s.now <= fast || r.stop || r.crashed || r.source.None?
    ensures Filled(s, r, deadline, fast)
  {
  }

  /** With exact sleeps, a wait that is not stopped, crashed or dropped leaves no room for another tick. */
  lemma {:induction false} TicksFillWindow(s: Service, deadline: int, fast: int)
    requires fast > 0 && Exact(s.script)
    ensures Filled(s, FastLoop(s, deadline, fast), deadline, fast)
    decreases if deadline > s.now then deadline - s.now else 0
  {
    hide SleepUntil, FastTick, Ticks, TickTime, Exact, Filled;
    var r := FastLoop(s, deadline, fast);
    if s.stop || s.crashed || s.source.None? || deadline - s.now <= fast {
      SleepUntilTicks(s, s.now + (deadline - s.now));
      SleepUntilTickTime(s, s.now + (deadline - s.now));
      FilledBySleep(s, r, deadline, fast);
    } else {
      var t := SleepInterruptible(s, fast);
      SleepUntilTicks(s, s.now + fast);
      SleepUntilTickTime(s, s.now + fast);
      ExactWait(s, fast);
      if t.stop || t.source.None? {
        FilledBySleep(s, r, deadline, fast);
      } else {
        TickTicks(t);
        TickTakes(t);
        TickEvents(t);
        TicksFillWindow(FastTick(t), deadline, fast);
        FilledAfterTick(s, FastTick(t), r, deadline, fast);
      }
    }
  }

  /** So the wait after a good cycle is filled with light reads whenever the tier is on. */
  lemma TierFillsWait(s: Service, cycleStart: int)
    requires TierOn(s.cfg) && Exact(s.script)
    ensures Filled(s, BetweenCycles(s, cycleStart), cycleStart + s.cfg.interval, s.cfg.statusInterval.value)
  {
    hide FastLoop, Exact, Filled, SleepRemaining;
    TicksFillWindow(s, cycleStart + s.cfg.interval, s.cfg.statusInterval.value);
  }
}
