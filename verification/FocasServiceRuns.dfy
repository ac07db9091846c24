/** What every run of the supervisor keeps, and what a run does not depend on. */
module FocasServiceRuns {
  import opened Wrappers
  import opened FocasService

  // ---------------------------------------------------------------- handles

  function Openings(log: seq<Event>): nat {
    if log == [] then 0 else Openings(log[..|log| - 1]) + if log[|log| - 1].Opened? then 1 else 0
  }

  function Closings(log: seq<Event>): nat {
    if log == [] then 0 else Closings(log[..|log| - 1]) + if log[|log| - 1].Closed? then 1 else 0
  }

  /** The source held after a log. */
  function Held(log: seq<Event>): Option<nat> {
    if log == [] then None else
    var e := log[|log| - 1];
    if e.Opened? then Some(e.source) else if e.Closed? then None else Held(log[..|log| - 1])
  }

  /** A source is opened when none is held and is a new one; only the held source is read or closed. */
  ghost predicate HandleStep(log: seq<Event>, e: Event) {
    match e
    case Opened(id) => Held(log) == None && id == Openings(log)
    case Closed(id) => Held(log) == Some(id)
    case FullRead(id, _, _) => Held(log) == Some(id)
    case StatusRead(id, _, _) => Held(log) == Some(id)
    case _ => true
  }

  ghost predicate WellHandled(log: seq<Event>) {
    log == [] || (WellHandled(log[..|log| - 1]) && HandleStep(log[..|log| - 1], log[|log| - 1]))
  }

  ghost predicate HandlesOk(s: Service) {
    WellHandled(s.log) && Held(s.log) == s.source && Openings(s.log) == s.openings
  }

  lemma LogSnoc(log: seq<Event>, e: Event)
    ensures Openings(log + [e]) == Openings(log) + if e.Opened? then 1 else 0
    ensures Closings(log + [e]) == Closings(log) + if e.Closed? then 1 else 0
    ensures Held(log + [e]) == if e.Opened? then Some(e.source) else if e.Closed? then None else Held(log)
    ensures WellHandled(log + [e]) <==> WellHandled(log) && HandleStep(log, e)
  {
    assert (log + [e])[..|log|] == log;
  }

  /** Every opened source is closed, but for the one held. */
  lemma {:induction false} OpenedIsClosedOrHeld(log: seq<Event>)
    requires WellHandled(log)
    ensures Openings(log) == Closings(log) + if Held(log).Some? then 1 else 0
  {
    if log != [] { OpenedIsClosedOrHeld(log[..|log| - 1]); }
  }

  lemma {:induction false} SleepUntilHandles(s: Service, deadline: int)
    requires HandlesOk(s)
    ensures HandlesOk(SleepUntil(s, deadline))
    decreases if deadline > s.now then deadline - s.now else 0
  {
    if !(s.stop || deadline - s.now <= 0) {
      var chunk := Min(deadline - s.now, CHUNK);
      LogSnoc(s.log, Slept(chunk, s.stop));
      SleepUntilHandles(SleepChunk(s, chunk), deadline);
    }
  }

  lemma CloseHandles(s: Service)
    requires HandlesOk(s)
    ensures HandlesOk(CloseSource(s)) && CloseSource(s).source == None
  {
    if s.source.Some? { LogSnoc(s.log, Closed(s.source.value)); }
  }

  lemma ConnectHandles(s: Service)
    requires HandlesOk(s) && s.source.None?
    ensures HandlesOk(Connect(s))
  {
    hide WellHandled, Held, SleepUntil;
    var c := Called(s.(state := Connecting));
    if !NextReply(s).connectOk {
      LogSnoc(c.log, ConnectFailed);
      var f := Note(c.(connectFailures := c.connectFailures + 1), ConnectFailed);
      SleepUntilHandles(f, f.now + Min(f.cfg.backoffMax, f.cfg.backoff * f.connectFailures));
    } else {
      LogSnoc(c.log, Opened(c.openings));
    }
  }

  lemma SleepHandles(s: Service, ms: int)
    requires HandlesOk(s)
    ensures HandlesOk(SleepInterruptible(s, ms))
  {
    hide HandlesOk, SleepUntil;
    SleepUntilHandles(s, s.now + ms);
  }

  /** Events that neither open, close nor read a source change nothing about handles. */
  lemma NoteHandles(s: Service, e: Event)
    requires HandlesOk(s) && !e.Opened? && !e.Closed? && !e.FullRead? && !e.StatusRead?
    ensures HandlesOk(Note(s, e))
  {
    LogSnoc(s.log, e);
  }

  lemma SameHandles(s: Service, r: Service)
    requires HandlesOk(s) && (r.log, r.source, r.openings) == (s.log, s.source, s.openings)
    ensures HandlesOk(r)
  {
  }

  lemma FailureHandles(s: Service)
    requires HandlesOk(s)
    ensures HandlesOk(OnReadFailure(s))
  {
    hide HandlesOk, SleepInterruptible, CloseSource;
    var f := s.(cyclesFailed := s.cyclesFailed + 1);
    SameHandles(s, f.(state := CircuitOpen));
    NoteHandles(f.(state := CircuitOpen), Tripped(f.now));
    CloseHandles(Note(f.(state := CircuitOpen), Tripped(f.now)));
    var t := CloseSource(Note(f.(state := CircuitOpen), Tripped(f.now)));
    SleepHandles(t, t.cfg.cooldown);
    SameHandles(SleepInterruptible(t, t.cfg.cooldown), SleepInterruptible(t, t.cfg.cooldown).(consecutive := 0));
    SameHandles(s, f.(state := Degraded));
  }

  lemma SleepRemainingHandles(s: Service, cycleStart: int)
    requires HandlesOk(s)
    ensures HandlesOk(SleepRemaining(s, cycleStart))
  {
    hide HandlesOk, SleepUntil;
    SleepUntilHandles(s, s.now + s.cfg.interval - (s.now - cycleStart));
  }

  lemma TickHandles(s: Service)
    requires HandlesOk(s) && s.source.Some?
    ensures HandlesOk(FastTick(s))
  {
    var c := Note(Called(s), StatusRead(s.source.value, s.now, NextReply(s).read));
    assert HandlesOk(c) by { LogSnoc(s.log, StatusRead(s.source.value, s.now, NextReply(s).read)); }
    hide HandlesOk, CloseSource;
    CloseHandles(c);
    NoteHandles(CloseSource(c), Ticked(s.now, c.now));
    NoteHandles(c, Ticked(s.now, c.now));
    SameHandles(c, c.(crashed := true));
    NoteHandles(c.(crashed := true), Ticked(s.now, c.now));
    var p := DoPersist(c);
    SameHandles(c, p.(fastTicksOk := p.fastTicksOk + 1));
    NoteHandles(p.(fastTicksOk := p.fastTicksOk + 1), Ticked(s.now, p.now));
  }

  lemma {:induction false} FastLoopHandles(s: Service, deadline: int, fast: int)
    requires fast > 0 && HandlesOk(s)
    ensures HandlesOk(FastLoop(s, deadline, fast))
    decreases if deadline > s.now then deadline - s.now else 0
  {
    hide HandlesOk, SleepUntil, FastTick;
    if !(s.stop || s.crashed || s.source.None?) && deadline - s.now > 0 {
      SleepUntilHandles(s, s.now + (deadline - s.now));
      SleepUntilHandles(s, s.now + fast);
      var t := SleepInterruptible(s, fast);
      if deadline - s.now > fast && !(t.stop || t.source.None?) {
        TickHandles(t);
        FastLoopHandles(FastTick(t), deadline, fast);
      }
    }
  }

  lemma CycleHandles(s: Service)
    requires HandlesOk(s) && s.source.Some?
    ensures HandlesOk(RunCycle(s))
  {
    hide WellHandled, Held, SleepRemaining, FastLoop, OnReadFailure, CloseSource;
    var c := Note(Called(s), FullRead(s.source.value, s.now, NextReply(s).read));
    LogSnoc(s.log, FullRead(s.source.value, s.now, NextReply(s).read));
    assert HandlesOk(c);
    match NextReply(s).read
    case Crash =>
    case HandleError =>
      var d := c.(consecutive := c.consecutive + 1);
      CloseHandles(d);
      FailureHandles(CloseSource(d));
    case FocasFailure =>
      var d := c.(consecutive := c.consecutive + 1);
      FailureHandles(d);
      SleepRemainingHandles(OnReadFailure(d), s.now);
    case ReadOk =>
      var p := DoPersist(c.(consecutive := 0, cyclesOk := c.cyclesOk + 1)).(state := Healthy);
      SleepRemainingHandles(p, s.now);
      if p.cfg.statusInterval.Some? && p.cfg.statusInterval.value > 0 {
        FastLoopHandles(p, s.now + p.cfg.interval, p.cfg.statusInterval.value);
      }
  }

  lemma {:induction false} LoopHandles(s: Service)
    requires HandlesOk(s)
    ensures HandlesOk(Loop(s))
    decreases |s.script| + if s.stop then 0 else 1
  {
    hide HandlesOk, Connect, RunCycle;
    if !(s.stop || s.crashed) {
      if s.source.None? {
        ConnectHandles(s);
        if Connect(s).source.Some? { CycleHandles(Connect(s)); }
      } else {
        CycleHandles(s);
      }
      LoopHandles(Pass(s));
    }
  }

  /** Over every run, ended by stop or by a crash: no source is used after its close, none is opened
      while another is held, and at exit as many were closed as opened. */
  lemma HandlesBalance(cfg: Config, script: seq<Reply>, now: int)
    ensures var r := Run(cfg, script, now);
            WellHandled(r.log) && r.source == None && Openings(r.log) == Closings(r.log)
  {
    var s := Start(cfg, script, now);
    assert HandlesOk(s);
    LoopHandles(s);
    CloseHandles(Loop(s));
    hide Loop, HandleStep;
    OpenedIsClosedOrHeld(Run(cfg, script, now).log);
  }

  // ---------------------------------------------------------------- the state at each loop head

  /** What the reported state says about the counters and the source. */
  ghost predicate StateOk(s: Service) {
    && (s.consecutive == 0 || 0 < s.consecutive < s.cfg.threshold)
    && (s.state == Healthy ==> s.consecutive == 0)
    && (s.state == Degraded ==> s.consecutive >= 1)
    && (s.state == CircuitOpen ==> s.source == None && s.consecutive == 0)
    && (s.state == Connecting ==> s.source == None)
    && s.state != Stopped
  }

  /** A status tick touches neither the failure count nor the cycle counts nor the state; at most it
      drops the source. */
  lemma TickKeepsState(s: Service)
    requires s.source.Some?
    ensures var r := FastTick(s);
            && (r.consecutive, r.cyclesOk, r.cyclesFailed, r.connectFailures, r.state)
               == (s.consecutive, s.cyclesOk, s.cyclesFailed, s.connectFailures, s.state)
            && (r.source == s.source || r.source == None)
  {
  }

  /** So does the whole fast tier. */
  lemma {:induction false} FastTierKeepsState(s: Service, deadline: int, fast: int)
    requires fast > 0
    ensures var r := FastLoop(s, deadline, fast);
            && (r.consecutive, r.cyclesOk, r.cyclesFailed, r.connectFailures, r.state)
               == (s.consecutive, s.cyclesOk, s.cyclesFailed, s.connectFailures, s.state)
            && (r.source == s.source || r.source == None)
    decreases if deadline > s.now then deadline - s.now else 0
  {
    hide SleepUntil, FastTick;
    if !(s.stop || s.crashed || s.source.None?) && deadline - s.now > fast {
      var t := SleepInterruptible(s, fast);
      if !(t.stop || t.source.None?) {
        TickKeepsState(t);
        FastTierKeepsState(FastTick(t), deadline, fast);
      }
    }
  }

  lemma FailureStateOk(s: Service)
    requires 1 <= s.consecutive
    requires s.consecutive == 1 || s.consecutive <= s.cfg.threshold
    ensures StateOk(OnReadFailure(s)) && OnReadFailure(s).cfg == s.cfg
  {
    hide SleepInterruptible;
  }

  lemma CycleStateOk(s: Service)
    requires StateOk(s) && s.source.Some?
    ensures RunCycle(s).crashed || StateOk(RunCycle(s))
  {
    hide FastLoop, OnReadFailure, SleepUntil;
    var c := Note(Called(s), FullRead(s.source.value, s.now, NextReply(s).read));
    match NextReply(s).read
    case Crash =>
    case HandleError =>
      FailureStateOk(CloseSource(c.(consecutive := c.consecutive + 1)));
    case FocasFailure =>
      FailureStateOk(c.(consecutive := c.consecutive + 1));
    case ReadOk =>
      var p := DoPersist(c.(consecutive := 0, cyclesOk := c.cyclesOk + 1)).(state := Healthy);
      if p.cfg.statusInterval.Some? && p.cfg.statusInterval.value > 0 {
        FastTierKeepsState(p, s.now + p.cfg.interval, p.cfg.statusInterval.value);
      }
  }

  lemma ConnectStateOk(s: Service)
    requires StateOk(s) && s.source.None?
    ensures StateOk(Connect(s))
    ensures Connect(s).source.Some? ==> Connect(s).state == Healthy && Connect(s).connectFailures == 0
  {
    hide SleepUntil;
  }

  /** The state a run is in after `n` passes of its loop. */
  function Head(s: Service, n: nat): Service {
    if n == 0 then s else
    var h := Head(s, n - 1);
    if h.stop || h.crashed then h else Pass(h)
  }

  lemma {:induction false} HeadStateOk(s: Service, n: nat)
    requires StateOk(s)
    ensures Head(s, n).crashed || StateOk(Head(s, n))
    ensures Head(s, n).cfg == s.cfg
  {
    hide StateOk, Connect, RunCycle;
    if n > 0 {
      HeadStateOk(s, n - 1);
      var h := Head(s, n - 1);
      if !(h.stop || h.crashed) {
        if h.source.None? {
          ConnectStateOk(h);
          if Connect(h).source.Some? { CycleStateOk(Connect(h)); }
        } else {
          CycleStateOk(h);
        }
      }
    }
  }

  lemma {:induction false} LoopIsHead(s: Service) returns (n: nat)
    ensures Loop(s) == Head(s, n)
    decreases |s.script| + if s.stop then 0 else 1
  {
    hide Pass;
    n := 0;
    if !(s.stop || s.crashed) {
      var k := LoopIsHead(Pass(s));
      HeadShift(s, k);
      n := k + 1;
    }
  }

  lemma {:induction false} HeadShift(s: Service, n: nat)
    requires !s.stop && !s.crashed
    ensures Head(s, n + 1) == Head(Pass(s), n)
  {
    hide Pass;
    if n > 0 { HeadShift(s, n - 1); } else { assert Head(s, 0) == s; }
  }

  /** At every loop head of every run the reported state is truthful: failures stay below the
      threshold, HEALTHY means none, DEGRADED some, and with the circuit open or connecting no source
      is held. */
  lemma EveryHeadTruthful(cfg: Config, script: seq<Reply>, now: int, n: nat)
    ensures var h := Head(Start(cfg, script, now), n); h.crashed || StateOk(h)
  {
    HeadStateOk(Start(cfg, script, now), n);
  }

  // ---------------------------------------------------------------- cycles counted

  function FullReads(log: seq<Event>): nat {
    if log == [] then 0 else FullReads(log[..|log| - 1]) + if log[|log| - 1].FullRead? then 1 else 0
  }

  lemma FullReadsSnoc(log: seq<Event>, e: Event)
    ensures FullReads(log + [e]) == FullReads(log) + if e.FullRead? then 1 else 0
  {
    assert (log + [e])[..|log|] == log;
  }

  lemma {:induction false} SleepUntilReads(s: Service, deadline: int)
    ensures FullReads(SleepUntil(s, deadline).log) == FullReads(s.log)
    decreases if deadline > s.now then deadline - s.now else 0
  {
    if !(s.stop || deadline - s.now <= 0) {
      var chunk := Min(deadline - s.now, CHUNK);
      FullReadsSnoc(s.log, Slept(chunk, s.stop));
      SleepUntilReads(SleepChunk(s, chunk), deadline);
    }
  }

  lemma CloseReads(s: Service)
    ensures FullReads(CloseSource(s).log) == FullReads(s.log)
  {
    if s.source.Some? { FullReadsSnoc(s.log, Closed(s.source.value)); }
    hide FullReads;
  }

  lemma TickReads(s: Service)
    requires s.source.Some?
    ensures FullReads(FastTick(s).log) == FullReads(s.log)
  {
    hide FullReads;
    var c := Note(Called(s), StatusRead(s.source.value, s.now, NextReply(s).read));
    FullReadsSnoc(s.log, StatusRead(s.source.value, s.now, NextReply(s).read));
    CloseReads(c);
    var d := if NextReply(s).read.HandleError? then CloseSource(c) else c;
    FullReadsSnoc(d.log, Ticked(s.now, FastTick(s).now));
    hide CloseSource;
  }

  lemma {:induction false} FastLoopReads(s: Service, deadline: int, fast: int)
    requires fast > 0
    ensures FullReads(FastLoop(s, deadline, fast).log) == FullReads(s.log)
    decreases if deadline > s.now then deadline - s.now else 0
  {
    hide SleepUntil, FastTick, FullReads;
    if !(s.stop || s.crashed || s.source.None?) && deadline - s.now > 0 {
      SleepUntilReads(s, s.now + (deadline - s.now));
      SleepUntilReads(s, s.now + fast);
      var t := SleepInterruptible(s, fast);
      if deadline - s.now > fast && !(t.stop || t.source.None?) {
        TickReads(t);
        FastLoopReads(FastTick(t), deadline, fast);
      }
    }
  }

  lemma FailureReads(s: Service)
    ensures FullReads(OnReadFailure(s).log) == FullReads(s.log)
  {
    hide SleepUntil, FullReads;
    var f := s.(cyclesFailed := s.cyclesFailed + 1);
    FullReadsSnoc(f.log, Tripped(f.now));
    var t := Note(f.(state := CircuitOpen), Tripped(f.now));
    if t.source.Some? { FullReadsSnoc(t.log, Closed(t.source.value)); }
    SleepUntilReads(CloseSource(t), t.now + t.cfg.cooldown);
  }

  lemma RemainingReads(s: Service, start: int)
    ensures var r := SleepRemaining(s, start);
            FullReads(r.log) == FullReads(s.log) && r.cyclesOk == s.cyclesOk && r.cyclesFailed == s.cyclesFailed
  {
    hide SleepUntil, FullReads;
    SleepUntilReads(s, s.now + (s.cfg.interval - (s.now - start)));
  }

  lemma BetweenReads(s: Service, start: int)
    ensures var r := BetweenCycles(s, start);
            FullReads(r.log) == FullReads(s.log) && r.cyclesOk == s.cyclesOk && r.cyclesFailed == s.cyclesFailed
  {
    hide SleepRemaining, FastLoop, FullReads;
    RemainingReads(s, start);
    if s.cfg.statusInterval.Some? && s.cfg.statusInterval.value > 0 {
      FastTierKeepsState(s, start + s.cfg.interval, s.cfg.statusInterval.value);
      FastLoopReads(s, start + s.cfg.interval, s.cfg.statusInterval.value);
    }
  }

  /** Each completed cycle is one full read counted once, as ok or as failed. */
  lemma CycleCounts(s: Service)
    requires s.source.Some?
    ensures var r := RunCycle(s);
            && FullReads(r.log) == FullReads(s.log) + 1
            && r.cyclesOk + r.cyclesFailed ==
               s.cyclesOk + s.cyclesFailed + if NextReply(s).read.Crash? then 0 else 1
  {
    hide FullReads, SleepUntil, SleepRemaining, BetweenCycles;
    var c := Note(Called(s), FullRead(s.source.value, s.now, NextReply(s).read));
    FullReadsSnoc(s.log, FullRead(s.source.value, s.now, NextReply(s).read));
    match NextReply(s).read
    case Crash =>
    case HandleError =>
      var d := c.(consecutive := c.consecutive + 1);
      FullReadsSnoc(d.log, Closed(s.source.value));
      FailureReads(CloseSource(d));
    case FocasFailure =>
      var d := c.(consecutive := c.consecutive + 1);
      FailureReads(d);
      RemainingReads(OnReadFailure(d), s.now);
    case ReadOk =>
      BetweenReads(DoPersist(c.(consecutive := 0, cyclesOk := c.cyclesOk + 1)).(state := Healthy), s.now);
  }

  lemma ConnectReads(s: Service)
    requires s.source.None?
    ensures FullReads(Connect(s).log) == FullReads(s.log)
  {
    hide SleepUntil, FullReads;
    var c := Called(s.(state := Connecting));
    FullReadsSnoc(c.log, ConnectFailed);
    FullReadsSnoc(c.log, Opened(c.openings));
    var f := Note(c.(connectFailures := c.connectFailures + 1), ConnectFailed);
    SleepUntilReads(f, f.now + Min(f.cfg.backoffMax, f.cfg.backoff * f.connectFailures));
  }

  /** A run that crashed did so in the read it logged last. */
  ghost predicate CrashedIn(log: seq<Event>, full: bool) {
    log != [] && if full then log[|log| - 1].FullRead? else log[|log| - 1].Ticked?
  }

  lemma {:induction false} FastLoopCrash(s: Service, deadline: int, fast: int)
    requires fast > 0 && !s.crashed
    ensures var r := FastLoop(s, deadline, fast); r.crashed ==> CrashedIn(r.log, false)
    decreases if deadline > s.now then deadline - s.now else 0
  {
    hide SleepInterruptible, FastTick;
    if !(s.stop || s.source.None?) && deadline - s.now > fast {
      var t := SleepInterruptible(s, fast);
      if !(t.stop || t.source.None?) {
        TickEvents(t);
        if !FastTick(t).crashed { FastLoopCrash(FastTick(t), deadline, fast); }
      }
    }
  }

  lemma CycleCrash(s: Service)
    requires s.source.Some? && !s.crashed
    ensures var r := RunCycle(s);
            && (NextReply(s).read.Crash? ==> r.crashed)
            && (r.crashed ==> CrashedIn(r.log, NextReply(s).read.Crash?))
  {
    hide SleepInterruptible, FastLoop;
    if NextReply(s).read.ReadOk? {
      var c := Note(Called(s), FullRead(s.source.value, s.now, NextReply(s).read));
      var p := DoPersist(c.(consecutive := 0, cyclesOk := c.cyclesOk + 1)).(state := Healthy);
      if p.cfg.statusInterval.Some? && p.cfg.statusInterval.value > 0 {
        FastLoopCrash(p, s.now + p.cfg.interval, p.cfg.statusInterval.value);
      }
    }
  }

  /** ok + failed is the number of full reads, but for one that crashed. */
  ghost predicate Counted(s: Service) {
    FullReads(s.log) == s.cyclesOk + s.cyclesFailed + if s.crashed && CrashedIn(s.log, true) then 1 else 0
  }

  lemma {:induction false} HeadCounts(s: Service, n: nat)
    requires Counted(s) && !s.crashed
    ensures Counted(Head(s, n))
    ensures Head(s, n).crashed ==> CrashedIn(Head(s, n).log, true) || CrashedIn(Head(s, n).log, false)
  {
    hide FullReads, RunCycle, Connect;
    if n > 0 {
      HeadCounts(s, n - 1);
      var h := Head(s, n - 1);
      if !(h.stop || h.crashed) {
        if h.source.None? {
          ConnectReads(h);
          ConnectCounts(h);
          if Connect(h).source.Some? { CycleCounts(Connect(h)); CycleCrash(Connect(h)); }
        } else {
          CycleCounts(h);
          CycleCrash(h);
        }
      }
    }
  }

  lemma ConnectCounts(s: Service)
    requires s.source.None?
    ensures (Connect(s).cyclesOk, Connect(s).cyclesFailed, Connect(s).crashed) ==
            (s.cyclesOk, s.cyclesFailed, s.crashed)
  {
    hide SleepUntil;
  }

  /** At every loop head and at the end: ok + failed is the number of full reads, one more if the last
      one crashed; a run that crashes does so in a full read or in a tick. */
  lemma EveryCycleCounted(cfg: Config, script: seq<Reply>, now: int, n: nat)
    ensures var h := Head(Start(cfg, script, now), n);
            && Counted(h)
            && (h.crashed ==> CrashedIn(h.log, true) || CrashedIn(h.log, false))
  {
    HeadCounts(Start(cfg, script, now), n);
  }

  // ---------------------------------------------------------------- the cooldown

  function LastTrip(log: seq<Event>): Option<int> {
    if log == [] then None else
    var e := log[|log| - 1];
    if e.Tripped? then Some(e.at) else LastTrip(log[..|log| - 1])
  }

  /** A source was opened since the breaker last tripped. */
  predicate Reopened(log: seq<Event>) {
    log != [] && (var e := log[|log| - 1]; e.Opened? || (!e.Tripped? && Reopened(log[..|log| - 1])))
  }

  /** A read after a trip waits out the cooldown and uses a source opened since. */
  predicate CoolStep(log: seq<Event>, e: Event, cooldown: int) {
    (e.FullRead? || e.StatusRead?) && LastTrip(log).Some? ==> e.at >= LastTrip(log).value + cooldown && Reopened(log)
  }

  ghost predicate CooledLog(log: seq<Event>, cooldown: int) {
    log == [] || (CooledLog(log[..|log| - 1], cooldown) && CoolStep(log[..|log| - 1], log[|log| - 1], cooldown))
  }

  lemma CoolSnoc(log: seq<Event>, e: Event, cooldown: int)
    ensures LastTrip(log + [e]) == if e.Tripped? then Some(e.at) else LastTrip(log)
    ensures Reopened(log + [e]) <==> e.Opened? || (!e.Tripped? && Reopened(log))
    ensures CooledLog(log + [e], cooldown) <==> CooledLog(log, cooldown) && CoolStep(log, e, cooldown)
  {
    assert (log + [e])[..|log|] == log;
  }

  /** A read would be in order now. */
  ghost predicate Ready(s: Service) {
    LastTrip(s.log).Some? ==>
      s.now >= LastTrip(s.log).value + s.cfg.cooldown && (s.source.Some? ==> Reopened(s.log))
  }

  ghost predicate Cool(s: Service) {
    CooledLog(s.log, s.cfg.cooldown) && (s.stop || Ready(s))
  }

  /** Events other than trips, openings and reads, with time passing. */
  lemma NoteCool(s: Service, r: Service, e: Event)
    requires CooledLog(s.log, s.cfg.cooldown) && Ready(s) && r.cfg == s.cfg && r.now >= s.now && r.log == s.log + [e]
    requires !e.Tripped? && !e.FullRead? && !e.StatusRead? && (r.source.None? || r.source == s.source)
    ensures CooledLog(r.log, r.cfg.cooldown) && Ready(r)
  {
    CoolSnoc(s.log, e, s.cfg.cooldown);
  }

  /** Sleeping adds no trip, opening or read. */
  lemma {:induction false} SleepUntilCool(s: Service, deadline: int)
    ensures var r := SleepUntil(s, deadline);
            && LastTrip(r.log) == LastTrip(s.log) && (Reopened(r.log) <==> Reopened(s.log))
            && (CooledLog(r.log, s.cfg.cooldown) <==> CooledLog(s.log, s.cfg.cooldown))
    decreases if deadline > s.now then deadline - s.now else 0
  {
    if !(s.stop || deadline - s.now <= 0) {
      var chunk := Min(deadline - s.now, CHUNK);
      CoolSnoc(s.log, Slept(chunk, s.stop), s.cfg.cooldown);
      hide CooledLog, LastTrip, Reopened;
      SleepUntilCool(SleepChunk(s, chunk), deadline);
    }
  }

  lemma SleepCool(s: Service, ms: int)
    ensures var r := SleepInterruptible(s, ms);
            && LastTrip(r.log) == LastTrip(s.log) && (Reopened(r.log) <==> Reopened(s.log))
            && (CooledLog(r.log, s.cfg.cooldown) <==> CooledLog(s.log, s.cfg.cooldown))
            && (Ready(s) ==> Ready(r)) && (Cool(s) ==> Cool(r))
  {
    SleepUntilCool(s, s.now + ms);
    hide SleepUntil, CooledLog, LastTrip, Reopened;
  }

  lemma ConnectCool(s: Service)
    requires Cool(s) && !s.stop && s.source.None?
    ensures CooledLog(Connect(s).log, s.cfg.cooldown) && Ready(Connect(s))
  {
    hide SleepUntil, CooledLog, LastTrip, Reopened;
    var c := Called(s.(state := Connecting));
    var f := Note(c.(connectFailures := c.connectFailures + 1), ConnectFailed);
    NoteCool(s, f, ConnectFailed);
    SleepCool(f, Min(f.cfg.backoffMax, f.cfg.backoff * f.connectFailures));
    CoolSnoc(c.log, Opened(c.openings), s.cfg.cooldown);
  }

  lemma FailureCool(s: Service)
    requires CooledLog(s.log, s.cfg.cooldown) && Ready(s)
    ensures Cool(OnReadFailure(s))
  {
    hide SleepUntil, CooledLog, LastTrip, Reopened;
    var f := s.(cyclesFailed := s.cyclesFailed + 1);
    if f.consecutive >= f.cfg.threshold {
      var n := Note(f.(state := CircuitOpen), Tripped(f.now));
      CoolSnoc(f.log, Tripped(f.now), s.cfg.cooldown);
      var t := CloseSource(n);
      if n.source.Some? { CoolSnoc(n.log, Closed(n.source.value), s.cfg.cooldown); }
      SleepCool(t, t.cfg.cooldown);
    }
  }

  lemma TickCool(s: Service)
    requires CooledLog(s.log, s.cfg.cooldown) && Ready(s) && s.source.Some?
    ensures CooledLog(FastTick(s).log, s.cfg.cooldown) && Ready(FastTick(s))
  {
    hide CooledLog, LastTrip, Reopened;
    var c := Note(Called(s), StatusRead(s.source.value, s.now, NextReply(s).read));
    CoolSnoc(s.log, StatusRead(s.source.value, s.now, NextReply(s).read), s.cfg.cooldown);
    assert CooledLog(c.log, c.cfg.cooldown) && Ready(c);
    var d := CloseSource(c);
    NoteCool(c, d, Closed(s.source.value));
    hide Ready;
    var r := FastTick(s);
    NoteCool(if NextReply(s).read.HandleError? then d else c, r, Ticked(s.now, r.now));
  }

  lemma {:induction false} FastLoopCool(s: Service, deadline: int, fast: int)
    requires fast > 0 && CooledLog(s.log, s.cfg.cooldown) && Ready(s)
    ensures Cool(FastLoop(s, deadline, fast))
    decreases if deadline > s.now then deadline - s.now else 0
  {
    hide SleepUntil, FastTick, CooledLog, LastTrip, Reopened;
    if !(s.stop || s.crashed || s.source.None?) && deadline - s.now > 0 {
      SleepCool(s, deadline - s.now);
      SleepCool(s, fast);
      var t := SleepInterruptible(s, fast);
      if deadline - s.now > fast && !(t.stop || t.source.None?) {
        TickCool(t);
        FastLoopCool(FastTick(t), deadline, fast);
      }
    }
  }

  lemma CycleCool(s: Service)
    requires CooledLog(s.log, s.cfg.cooldown) && Ready(s) && s.source.Some?
    ensures Cool(RunCycle(s))
  {
    hide SleepUntil, CooledLog, LastTrip, Reopened, FastLoop, OnReadFailure;
    var c := Note(Called(s), FullRead(s.source.value, s.now, NextReply(s).read));
    CoolSnoc(s.log, FullRead(s.source.value, s.now, NextReply(s).read), s.cfg.cooldown);
    assert CooledLog(c.log, c.cfg.cooldown) && Ready(c);
    match NextReply(s).read
    case Crash =>
    case HandleError =>
      var d := CloseSource(c.(consecutive := c.consecutive + 1));
      NoteCool(c, d, Closed(s.source.value));
      FailureCool(d);
    case FocasFailure =>
      var d := c.(consecutive := c.consecutive + 1);
      FailureCool(d);
      var f := OnReadFailure(d);
      SleepCool(f, f.cfg.interval - (f.now - s.now));
      SleepCool(f, 0);
    case ReadOk =>
      var p := DoPersist(c.(consecutive := 0, cyclesOk := c.cyclesOk + 1)).(state := Healthy);
      SleepCool(p, p.cfg.interval - (p.now - s.now));
      SleepCool(p, 0);
      if p.cfg.statusInterval.Some? && p.cfg.statusInterval.value > 0 {
        FastLoopCool(p, s.now + p.cfg.interval, p.cfg.statusInterval.value);
      }
  }

  lemma {:induction false} LoopCool(s: Service)
    requires Cool(s)
    ensures CooledLog(Loop(s).log, s.cfg.cooldown)
    decreases |s.script| + if s.stop then 0 else 1
  {
    hide CooledLog, Ready, Connect, RunCycle;
    if !(s.stop || s.crashed) {
      if s.source.None? {
        ConnectCool(s);
        if Connect(s).source.Some? { CycleCool(Connect(s)); }
      } else {
        CycleCool(s);
      }
      LoopCool(Pass(s));
    }
  }

  /** In every run, whatever the clock, a read that follows a trip of the breaker comes at least the
      cooldown later and on a source opened after the trip. */
  lemma ReadsWaitOutCooldown(cfg: Config, script: seq<Reply>, now: int)
    ensures CooledLog(Run(cfg, script, now).log, cfg.cooldown)
  {
    var s := Start(cfg, script, now);
    assert Cool(s);
    LoopCool(s);
    var r := Loop(s);
    LoopKeepsConfig(s);
    if r.source.Some? { CoolSnoc(r.log, Closed(r.source.value), cfg.cooldown); }
    hide Loop;
  }

  lemma {:induction false} LoopKeepsConfig(s: Service)
    ensures Loop(s).cfg == s.cfg
    decreases |s.script| + if s.stop then 0 else 1
  {
    hide Pass;
    if !(s.stop || s.crashed) { LoopKeepsConfig(Pass(s)); }
  }

  // ---------------------------------------------------------------- what the breaker does and does not catch

  /** With any threshold from one up, the guard after a failed read never spares the wait: a tripped
      breaker has already reset the count, so the rest of the interval is slept on top of the cooldown. */
  lemma TrippedCycleAlsoWaitsInterval(s: Service)
    requires s.source.Some? && s.consecutive >= 0 && NextReply(s).read.FocasFailure?
    ensures var c := Note(Called(s), FullRead(s.source.value, s.now, NextReply(s).read));
            var f := OnReadFailure(c.(consecutive := c.consecutive + 1));
            RunCycle(s) == if s.cfg.threshold >= 1 then SleepRemaining(f, s.now) else f
  {
    hide SleepUntil;
  }

  ghost predicate NoFocasFailure(script: seq<Reply>) {
    forall i | 0 <= i < |script| :: !script[i].read.FocasFailure?
  }

  ghost predicate NoTrip(log: seq<Event>) {
    forall i | 0 <= i < |log| :: !log[i].Tripped?
  }

  ghost predicate Unfailing(s: Service) {
    NoFocasFailure(s.script) && NoTrip(s.log)
  }

  lemma {:induction false} SleepUntilUnfailing(s: Service, deadline: int)
    requires Unfailing(s)
    ensures Unfailing(SleepUntil(s, deadline))
    decreases if deadline > s.now then deadline - s.now else 0
  {
    if !(s.stop || deadline - s.now <= 0) {
      SleepUntilUnfailing(SleepChunk(s, Min(deadline - s.now, CHUNK)), deadline);
    }
  }

  lemma SleepUnfailing(s: Service, ms: int)
    requires Unfailing(s)
    ensures Unfailing(SleepInterruptible(s, ms))
  {
    hide Unfailing, SleepUntil;
    SleepUntilUnfailing(s, s.now + ms);
  }

  lemma {:induction false} FastLoopUnfailing(s: Service, deadline: int, fast: int)
    requires fast > 0 && Unfailing(s)
    ensures Unfailing(FastLoop(s, deadline, fast))
    decreases if deadline > s.now then deadline - s.now else 0
  {
    hide SleepInterruptible, Unfailing, FastTick;
    if !(s.stop || s.crashed || s.source.None?) && deadline - s.now > 0 {
      SleepUnfailing(s, deadline - s.now);
      SleepUnfailing(s, fast);
      var t := SleepInterruptible(s, fast);
      if deadline - s.now > fast && !(t.stop || t.source.None?) {
        TickUnfailing(t);
        FastLoopUnfailing(FastTick(t), deadline, fast);
      }
    }
  }

  lemma TickUnfailing(s: Service)
    requires Unfailing(s) && s.source.Some?
    ensures Unfailing(FastTick(s))
  {
  }

  lemma CycleUnfailing(s: Service)
    requires Unfailing(s) && s.source.Some? && s.consecutive == 0 && s.cfg.threshold >= 2
    ensures var r := RunCycle(s); Unfailing(r) && (r.source.Some? ==> r.consecutive == 0)
  {
    hide SleepInterruptible, FastLoop;
    var c := Note(Called(s), FullRead(s.source.value, s.now, NextReply(s).read));
    assert Unfailing(c) && !NextReply(s).read.FocasFailure?;
    if NextReply(s).read.ReadOk? {
      var p := DoPersist(c.(consecutive := 0, cyclesOk := c.cyclesOk + 1)).(state := Healthy);
      assert Unfailing(p);
      hide Unfailing;
      SleepUnfailing(p, p.cfg.interval - (p.now - s.now));
      SleepUnfailing(p, 0);
      if p.cfg.statusInterval.Some? && p.cfg.statusInterval.value > 0 {
        FastTierKeepsState(p, s.now + p.cfg.interval, p.cfg.statusInterval.value);
        FastLoopUnfailing(p, s.now + p.cfg.interval, p.cfg.statusInterval.value);
      }
    }
  }

  lemma ConnectUnfailing(s: Service)
    requires Unfailing(s) && s.source.None?
    ensures var r := Connect(s); Unfailing(r) && (r.source.Some? ==> r.consecutive == 0)
  {
    hide SleepInterruptible;
    var c := Called(s.(state := Connecting));
    var f := Note(c.(connectFailures := c.connectFailures + 1), ConnectFailed);
    assert Unfailing(f);
    SleepUnfailing(f, Min(f.cfg.backoffMax, f.cfg.backoff * f.connectFailures));
  }

  lemma {:induction false} HeadUnfailing(s: Service, n: nat)
    requires Unfailing(s) && s.cfg.threshold >= 2 && (s.source.Some? ==> s.consecutive == 0)
    ensures var h := Head(s, n);
            Unfailing(h) && h.cfg == s.cfg && (h.source.Some? ==> h.consecutive == 0)
  {
    hide Unfailing, Connect, RunCycle;
    if n > 0 {
      HeadUnfailing(s, n - 1);
      var h := Head(s, n - 1);
      if !(h.stop || h.crashed) {
        if h.source.None? {
          ConnectUnfailing(h);
          if Connect(h).source.Some? { CycleUnfailing(Connect(h)); }
        } else {
          CycleUnfailing(h);
        }
      }
    }
  }

  /** Stale handles alone never trip a breaker of two or more: each one drops the source, and the next
      successful connect clears the count.  However many follow one another, no cooldown is taken. */
  lemma StaleHandlesNeverTrip(cfg: Config, script: seq<Reply>, now: int)
    requires cfg.threshold >= 2 && NoFocasFailure(script)
    ensures NoTrip(Run(cfg, script, now).log)
  {
    var s := Start(cfg, script, now);
    var n := LoopIsHead(s);
    HeadUnfailing(s, n);
  }

  /** Below that, each of them trips it at once. */
  lemma StaleHandleTripsAtOne(s: Service)
    requires s.source.Some? && s.cfg.threshold <= 1 && s.consecutive >= 0 && NextReply(s).read.HandleError?
    ensures var r := RunCycle(s);
            && r.state == CircuitOpen && r.source.None?
            && (r.stop || r.now >= s.now + NextReply(s).elapsed + s.cfg.cooldown)
  {
    hide SleepUntil;
  }

  // ---------------------------------------------------------------- persistence does not interfere

  /** The same but for how persists turn out. */
  ghost predicate SameScripts(a: seq<Reply>, b: seq<Reply>) {
    |a| == |b| && forall i | 0 <= i < |a| :: a[i].(persistOk := true) == b[i].(persistOk := true)
  }

  ghost predicate Same(a: Service, b: Service) {
    SameScripts(a.script, b.script) && a.(script := [], persisted := []) == b.(script := [], persisted := [])
  }

  lemma SameConsumed(a: Service, b: Service)
    requires Same(a, b)
    ensures NextReply(a).(persistOk := true) == NextReply(b).(persistOk := true)
    ensures Same(Consumed(a), Consumed(b)) && Same(Called(a), Called(b)) && Same(DoPersist(a), DoPersist(b))
  {
  }

  lemma {:induction false} SameSleepUntil(a: Service, b: Service, deadline: int)
    requires Same(a, b)
    ensures Same(SleepUntil(a, deadline), SleepUntil(b, deadline))
    decreases if deadline > a.now then deadline - a.now else 0
  {
    if !(a.stop || deadline - a.now <= 0) {
      SameConsumed(a, b);
      var chunk := Min(deadline - a.now, CHUNK);
      hide SameScripts;
      SameSleepUntil(SleepChunk(a, chunk), SleepChunk(b, chunk), deadline);
    }
  }

  lemma SameSleep(a: Service, b: Service, ms: int)
    requires Same(a, b)
    ensures Same(SleepInterruptible(a, ms), SleepInterruptible(b, ms))
  {
    SameSleepUntil(a, b, a.now + ms);
    hide SleepUntil, SameScripts;
  }

  lemma SameFailure(a: Service, b: Service)
    requires Same(a, b)
    ensures Same(OnReadFailure(a), OnReadFailure(b))
  {
    hide SleepInterruptible, SameScripts;
    var f, g := a.(cyclesFailed := a.cyclesFailed + 1), b.(cyclesFailed := b.cyclesFailed + 1);
    SameSleep(CloseSource(Note(f.(state := CircuitOpen), Tripped(f.now))),
              CloseSource(Note(g.(state := CircuitOpen), Tripped(g.now))), a.cfg.cooldown);
  }

  lemma SameNote(a: Service, b: Service, e: Event)
    requires Same(a, b)
    ensures Same(Note(a, e), Note(b, e)) && Same(Note(CloseSource(a), e), Note(CloseSource(b), e))
    ensures Same(Note(a.(crashed := true), e), Note(b.(crashed := true), e))
    ensures Same(Note(a.(fastTicksOk := a.fastTicksOk + 1), e), Note(b.(fastTicksOk := b.fastTicksOk + 1), e))
  {
    hide SameScripts;
  }

  lemma SameTick(a: Service, b: Service)
    requires Same(a, b) && a.source.Some?
    ensures Same(FastTick(a), FastTick(b))
  {
    SameConsumed(a, b);
    SameNote(Called(a), Called(b), StatusRead(a.source.value, a.now, NextReply(a).read));
    var c := Note(Called(a), StatusRead(a.source.value, a.now, NextReply(a).read));
    var d := Note(Called(b), StatusRead(b.source.value, b.now, NextReply(b).read));
    SameConsumed(c, d);
    SameNote(c, d, Ticked(a.now, c.now));
    SameNote(DoPersist(c), DoPersist(d), Ticked(a.now, DoPersist(c).now));
    hide Same, SameScripts, Called, DoPersist, Consumed, Note, CloseSource;
  }

  lemma {:induction false} SameFastLoop(a: Service, b: Service, deadline: int, fast: int)
    requires fast > 0 && Same(a, b)
    ensures Same(FastLoop(a, deadline, fast), FastLoop(b, deadline, fast))
    decreases if deadline > a.now then deadline - a.now else 0
  {
    hide SleepInterruptible, FastTick, SameScripts;
    if !(a.stop || a.crashed || a.source.None?) && deadline - a.now > 0 {
      SameSleep(a, b, deadline - a.now);
      SameSleep(a, b, fast);
      var t, u := SleepInterruptible(a, fast), SleepInterruptible(b, fast);
      if deadline - a.now > fast && !(t.stop || t.source.None?) {
        SameTick(t, u);
        SameFastLoop(FastTick(t), FastTick(u), deadline, fast);
      }
    }
  }

  lemma SameRemaining(a: Service, b: Service, start: int)
    requires Same(a, b)
    ensures Same(SleepRemaining(a, start), SleepRemaining(b, start))
  {
    hide SleepInterruptible, SameScripts;
    var left := a.cfg.interval - (a.now - start);
    SameSleep(a, b, if left > 0 then left else 0);
  }

  lemma SameBetween(a: Service, b: Service, start: int)
    requires Same(a, b)
    ensures Same(BetweenCycles(a, start), BetweenCycles(b, start))
  {
    hide FastLoop, SleepRemaining, SameScripts;
    SameRemaining(a, b, start);
    if a.cfg.statusInterval.Some? && a.cfg.statusInterval.value > 0 {
      SameFastLoop(a, b, start + a.cfg.interval, a.cfg.statusInterval.value);
    }
  }

  lemma SameStale(a: Service, b: Service)
    requires Same(a, b)
    ensures Same(OnReadFailure(CloseSource(a.(consecutive := a.consecutive + 1))),
                 OnReadFailure(CloseSource(b.(consecutive := b.consecutive + 1))))
  {
    hide OnReadFailure, SameScripts;
    SameFailure(CloseSource(a.(consecutive := a.consecutive + 1)), CloseSource(b.(consecutive := b.consecutive + 1)));
  }

  lemma SameError(a: Service, b: Service, start: int)
    requires Same(a, b)
    ensures var f := OnReadFailure(a.(consecutive := a.consecutive + 1));
            var g := OnReadFailure(b.(consecutive := b.consecutive + 1));
            f.consecutive == g.consecutive && f.cfg == g.cfg
            && Same(f, g) && Same(SleepRemaining(f, start), SleepRemaining(g, start))
  {
    hide OnReadFailure, SameScripts, SleepRemaining;
    SameFailure(a.(consecutive := a.consecutive + 1), b.(consecutive := b.consecutive + 1));
    SameRemaining(OnReadFailure(a.(consecutive := a.consecutive + 1)),
                  OnReadFailure(b.(consecutive := b.consecutive + 1)), start);
  }

  lemma SameSuccess(a: Service, b: Service, start: int)
    requires Same(a, b)
    ensures Same(BetweenCycles(DoPersist(a.(consecutive := 0, cyclesOk := a.cyclesOk + 1)).(state := Healthy), start),
                 BetweenCycles(DoPersist(b.(consecutive := 0, cyclesOk := b.cyclesOk + 1)).(state := Healthy), start))
  {
    hide SameScripts, DoPersist, BetweenCycles;
    var g, h := a.(consecutive := 0, cyclesOk := a.cyclesOk + 1), b.(consecutive := 0, cyclesOk := b.cyclesOk + 1);
    SameConsumed(g, h);
    SameBetween(DoPersist(g).(state := Healthy), DoPersist(h).(state := Healthy), start);
  }

  lemma SameRead(a: Service, b: Service)
    requires Same(a, b) && a.source.Some?
    ensures b.source == a.source && a.now == b.now && a.cfg == b.cfg && NextReply(a).read == NextReply(b).read
    ensures var c := Note(Called(a), FullRead(a.source.value, a.now, NextReply(a).read));
            var d := Note(Called(b), FullRead(b.source.value, b.now, NextReply(b).read));
            Same(c, d) && Same(c.(crashed := true), d.(crashed := true))
  {
    SameConsumed(a, b);
    hide SameScripts, Called;
  }

  lemma SameCycle(a: Service, b: Service)
    requires Same(a, b) && a.source.Some?
    ensures Same(RunCycle(a), RunCycle(b))
  {
    hide Same, SameScripts, Called, DoPersist, SleepRemaining, BetweenCycles;
    hide OnReadFailure, Note, NextReply, CloseSource;
    SameRead(a, b);
    var c := Note(Called(a), FullRead(a.source.value, a.now, NextReply(a).read));
    var d := Note(Called(b), FullRead(b.source.value, b.now, NextReply(b).read));
    match NextReply(a).read {
      case Crash =>
      case HandleError => SameStale(c, d);
      case FocasFailure => SameError(c, d, a.now);
      case ReadOk => SameSuccess(c, d, a.now);
    }
  }

  lemma SameRefused(a: Service, b: Service)
    requires Same(a, b)
    ensures Same(Refused(a), Refused(b))
  {
    hide SameScripts, SleepInterruptible;
    var f := Note(a.(connectFailures := a.connectFailures + 1), ConnectFailed);
    var g := Note(b.(connectFailures := b.connectFailures + 1), ConnectFailed);
    SameSleep(f, g, Min(f.cfg.backoffMax, f.cfg.backoff * f.connectFailures));
  }

  lemma SameAccepted(a: Service, b: Service)
    requires Same(a, b)
    ensures Same(Accepted(a), Accepted(b))
  {
    hide SameScripts;
  }

  lemma SameConnect(a: Service, b: Service)
    requires Same(a, b) && a.source.None?
    ensures Same(Connect(a), Connect(b))
  {
    var c, d := a.(state := Connecting), b.(state := Connecting);
    SameConsumed(c, d);
    SameConsumed(a, b);
    hide Same, SameScripts, Called, Refused, Accepted, Consumed, DoPersist;
    SameRefused(Called(c), Called(d));
    SameAccepted(Called(c), Called(d));
  }

  lemma SamePass(a: Service, b: Service)
    requires Same(a, b) && !(a.stop || a.crashed)
    ensures Same(Pass(a), Pass(b))
  {
    hide SameScripts, Connect, RunCycle;
    if a.source.None? {
      SameConnect(a, b);
      if Connect(a).source.Some? { SameCycle(Connect(a), Connect(b)); }
    } else {
      SameCycle(a, b);
    }
  }

  lemma {:induction false} SameHeads(a: Service, b: Service, n: nat)
    requires Same(a, b)
    ensures Same(Head(a, n), Head(b, n))
  {
    hide SameScripts, Pass;
    if n > 0 {
      SameHeads(a, b, n - 1);
      var c, d := Head(a, n - 1), Head(b, n - 1);
      if !(c.stop || c.crashed) { SamePass(c, d); }
    }
  }

  lemma {:induction false} SameLoop(a: Service, b: Service)
    requires Same(a, b)
    ensures Same(Loop(a), Loop(b))
    decreases |a.script| + if a.stop then 0 else 1
  {
    hide SameScripts, Connect, RunCycle;
    if !(a.stop || a.crashed) {
      SamePass(a, b);
      SameLoop(Pass(a), Pass(b));
    }
  }

  /** Two runs with the same connects, reads, clock and stop, whatever their persists do, have the same
      state, counters, source and events at every loop head and at the end. */
  lemma PersistenceDoesNotInterfere(cfg: Config, a: seq<Reply>, b: seq<Reply>, now: int)
    requires SameScripts(a, b)
    ensures forall n: nat :: Same(Head(Start(cfg, a, now), n), Head(Start(cfg, b, now), n))
    ensures Same(Run(cfg, a, now), Run(cfg, b, now))
    ensures Run(cfg, a, now).log == Run(cfg, b, now).log
  {
    assert Same(Start(cfg, a, now), Start(cfg, b, now));
    hide Loop, SameScripts, Start, Head;
    forall n: nat { SameHeads(Start(cfg, a, now), Start(cfg, b, now), n); }
    SameLoop(Start(cfg, a, now), Start(cfg, b, now));
    SameFinish(Loop(Start(cfg, a, now)), Loop(Start(cfg, b, now)));
    hide Finish, Same;
  }

  lemma SameFinish(a: Service, b: Service)
    requires Same(a, b)
    ensures Same(Finish(a), Finish(b)) && Finish(a).log == Finish(b).log
  {
    hide SameScripts;
  }

  // ---------------------------------------------------------------- the clock

  /** No sleep overshoots and stop does not fire. */
  ghost predicate Exact(script: seq<Reply>) {
    forall i | 0 <= i < |script| :: script[i].overshoot == 0 && !script[i].stop
  }

  /** The sleep chunks of a log, from index `k` on. */
  ghost predicate OnlyChunks(log: seq<Event>, k: nat) {
    forall i | k <= i < |log| :: log[i].Slept? && 0 < log[i].asked <= 1000 && !log[i].stopped
  }

  function Asked(log: seq<Event>): int {
    if log == [] then 0 else
    var e := log[|log| - 1];
    Asked(log[..|log| - 1]) + if e.Slept? then e.asked else 0
  }

  lemma AskedSnoc(log: seq<Event>, e: Event)
    ensures Asked(log + [e]) == Asked(log) + if e.Slept? then e.asked else 0
  {
    assert (log + [e])[..|log|] == log;
  }

  /** A sleep takes chunks of at most a second, none once stop is set, and asks for no more than was
      requested. */
  lemma {:induction false} SleepTakesChunks(s: Service, deadline: int)
    ensures var r := SleepUntil(s, deadline);
            && s.log <= r.log && OnlyChunks(r.log, |s.log|)
            && (s.now <= deadline ==> Asked(r.log) - Asked(s.log) <= deadline - s.now)
            && (s.stop ==> r == s)
    decreases if deadline > s.now then deadline - s.now else 0
  {
    hide Asked, OnlyChunks;
    if s.stop || deadline - s.now <= 0 {
      NoChunks(s.log);
    } else {
      var chunk := Min(deadline - s.now, CHUNK);
      AskedSnoc(s.log, Slept(chunk, s.stop));
      SleepTakesChunks(SleepChunk(s, chunk), deadline);
      ChunkFirst(s.log, Slept(chunk, s.stop), SleepUntil(SleepChunk(s, chunk), deadline).log);
    }
  }

  lemma NoChunks(log: seq<Event>)
    ensures OnlyChunks(log, |log|)
  {
  }

  lemma ChunkFirst(log: seq<Event>, e: Event, more: seq<Event>)
    requires log + [e] <= more && OnlyChunks(more, |log| + 1)
    requires e.Slept? && 0 < e.asked <= 1000 && !e.stopped
    ensures log <= more && OnlyChunks(more, |log|)
  {
    assert more[|log|] == e;
  }

  /** With exact sleeps and no stop it asks for exactly what was requested and wakes exactly on time. */
  lemma {:induction false} SleepExactly(s: Service, deadline: int)
    requires Exact(s.script) && !s.stop && s.now <= deadline
    ensures var r := SleepUntil(s, deadline);
            !r.stop ==> r.now == deadline && Asked(r.log) - Asked(s.log) == deadline - s.now && Exact(r.script)
    decreases if deadline > s.now then deadline - s.now else 0
  {
    if deadline - s.now > 0 {
      var chunk := Min(deadline - s.now, CHUNK);
      AskedSnoc(s.log, Slept(chunk, s.stop));
      hide Asked;
      if !SleepChunk(s, chunk).stop {
        SleepExactly(SleepChunk(s, chunk), deadline);
      }
    }
  }

  function Ticks(log: seq<Event>): nat {
    if log == [] then 0 else Ticks(log[..|log| - 1]) + if log[|log| - 1].Ticked? then 1 else 0
  }

  lemma TicksSnoc(log: seq<Event>, e: Event)
    ensures Ticks(log + [e]) == Ticks(log) + if e.Ticked? then 1 else 0
  {
    assert (log + [e])[..|log|] == log;
  }

  lemma {:induction false} SleepUntilTicks(s: Service, deadline: int)
    ensures Ticks(SleepUntil(s, deadline).log) == Ticks(s.log)
    decreases if deadline > s.now then deadline - s.now else 0
  {
    if !(s.stop || deadline - s.now <= 0) {
      var chunk := Min(deadline - s.now, CHUNK);
      TicksSnoc(s.log, Slept(chunk, s.stop));
      hide Ticks;
      SleepUntilTicks(SleepChunk(s, chunk), deadline);
    }
  }

  lemma CloseTicks(s: Service)
    ensures Ticks(CloseSource(s).log) == Ticks(s.log)
  {
    if s.source.Some? { TicksSnoc(s.log, Closed(s.source.value)); }
    hide Ticks;
  }

  lemma TickTicks(s: Service)
    requires s.source.Some?
    ensures Ticks(FastTick(s).log) == Ticks(s.log) + 1
  {
    hide Ticks;
    var c := Note(Called(s), StatusRead(s.source.value, s.now, NextReply(s).read));
    TicksSnoc(s.log, StatusRead(s.source.value, s.now, NextReply(s).read));
    CloseTicks(c);
    var d := if NextReply(s).read.HandleError? then CloseSource(c) else c;
    TicksSnoc(d.log, Ticked(s.now, FastTick(s).now));
    hide CloseSource;
  }

  /** However long reads and sleeps take, `n` status ticks fit between two cycles only if
      `n * fast < interval`. */
  lemma {:induction false} TicksFitWindow(s: Service, deadline: int, fast: int)
    requires fast > 0
    ensures var n := Ticks(FastLoop(s, deadline, fast).log) - Ticks(s.log);
            n == 0 || (n > 0 && n * fast < deadline - s.now)
    decreases if deadline > s.now then deadline - s.now else 0
  {
    hide SleepUntil, FastTick, Ticks;
    if !(s.stop || s.crashed || s.source.None?) && deadline - s.now > 0 {
      SleepUntilTicks(s, s.now + (deadline - s.now));
      SleepUntilTicks(s, s.now + fast);
      var t := SleepInterruptible(s, fast);
      if deadline - s.now > fast && !(t.stop || t.source.None?) {
        TickTicks(t);
        TicksFitWindow(FastTick(t), deadline, fast);
        var n := Ticks(FastLoop(FastTick(t), deadline, fast).log) - Ticks(FastTick(t).log);
        assert (n + 1) * fast == n * fast + fast;
      }
    }
  }

  /** The ticks among the events from index `k` on all start before the deadline. */
  ghost predicate TicksStartBefore(log: seq<Event>, k: nat, deadline: int) {
    forall i | k <= i < |log| && log[i].Ticked? :: log[i].from < deadline
  }

  /** When the last tick among the events from index `k` on ended, or `entry` if there is none. */
  function LastEnd(log: seq<Event>, k: nat, entry: int): int {
    if |log| <= k then entry
    else if log[|log| - 1].Ticked? then log[|log| - 1].until
    else LastEnd(log[..|log| - 1], k, entry)
  }

  function Max(a: int, b: int): int { if a >= b then a else b }

  /** A wait for a tick's worth, when the deadline is further off than that. */
  lemma ExactWait(s: Service, fast: int)
    requires fast > 0 && Exact(s.script) && !s.stop
    ensures var t := SleepInterruptible(s, fast);
            && s.log <= t.log && OnlyChunks(t.log, |s.log|)
            && (!t.stop ==> t.now == s.now + fast && Exact(t.script))
  {
    SleepTakesChunks(s, s.now + fast);
    SleepExactly(s, s.now + fast);
    hide SleepUntil, Asked, OnlyChunks, Exact;
  }

  lemma ChunksAreNoTicks(log: seq<Event>, k: nat, deadline: int)
    requires OnlyChunks(log, k)
    ensures TicksStartBefore(log, k, deadline)
  {
  }

  lemma {:induction false} ChunksEndNothing(log: seq<Event>, k: nat, entry: int)
    requires OnlyChunks(log, k)
    ensures LastEnd(log, k, entry) == entry
  {
    if |log| > k { ChunksEndNothing(log[..|log| - 1], k, entry); }
  }

  /** Past a prefix, only what the prefix's last tick ended at matters. */
  lemma {:induction false} LastEndJoins(c: seq<Event>, d: seq<Event>, k: nat, entry: int)
    requires c <= d && k <= |c|
    ensures LastEnd(d, k, entry) == LastEnd(d, |c|, LastEnd(c, k, entry))
  {
    if |d| == |c| {
      assert c == d;
    } else {
      LastEndJoins(c, d[..|d| - 1], k, entry);
    }
  }

  /** With exact sleeps every tick starts before the deadline, and unless stopped, crashed or dropped
      the wait returns exactly at the later of the deadline and the end of its last tick, or of its own
      start if there was no tick. */
  lemma {:induction false} FastTierOnTime(s: Service, deadline: int, fast: int)
    requires fast > 0 && Exact(s.script)
    ensures var r := FastLoop(s, deadline, fast);
            && s.log <= r.log
            && TicksStartBefore(r.log, |s.log|, deadline)
            && (r.stop || r.crashed || r.source.None? || r.now == Max(deadline, LastEnd(r.log, |s.log|, s.now)))
    decreases if deadline > s.now then deadline - s.now else 0
  {
    hide SleepInterruptible, FastTick, Asked, Exact, OnlyChunks;
    if !(s.stop || s.crashed || s.source.None?) && deadline - s.now > 0 {
      var remaining := deadline - s.now;
      ExactWait(s, Min(remaining, fast));
      var t := SleepInterruptible(s, Min(remaining, fast));
      ChunksAreNoTicks(t.log, |s.log|, deadline);
      ChunksEndNothing(t.log, |s.log|, s.now);
      hide LastEnd, TicksStartBefore;
      if remaining > fast && !(t.stop || t.source.None?) {
        TickEvents(t);
        FastTierOnTime(FastTick(t), deadline, fast);
        OnTimeStep(s, t, FastTick(t), FastLoop(FastTick(t), deadline, fast), deadline);
      }
    }
  }

  lemma OnTimeStep(s: Service, t: Service, u: Service, r: Service, deadline: int)
    requires s.log <= t.log && OnlyChunks(t.log, |s.log|)
    requires t.log < u.log && u.log[|u.log| - 1] == Ticked(t.now, u.now) && TicksStartAt(u.log, |t.log|, t.now)
    requires t.now < deadline && u.log <= r.log && TicksStartBefore(r.log, |u.log|, deadline)
    ensures TicksStartBefore(r.log, |s.log|, deadline)
    ensures LastEnd(r.log, |s.log|, s.now) == LastEnd(r.log, |u.log|, u.now)
  {
    TicksJoin(s.log, t.log, u.log, r.log, deadline);
    LastEndJoins(u.log, r.log, |s.log|, s.now);
    assert LastEnd(u.log, |s.log|, s.now) == u.now;
    hide OnlyChunks, TicksStartBefore, TicksStartAt, LastEnd;
  }

  ghost predicate TicksStartAt(log: seq<Event>, k: nat, now: int) {
    forall i | k <= i < |log| && log[i].Ticked? :: log[i].from == now
  }

  lemma TicksJoin(a: seq<Event>, b: seq<Event>, c: seq<Event>, d: seq<Event>, deadline: int)
    requires a <= b <= c <= d && OnlyChunks(b, |a|) && TicksStartBefore(d, |c|, deadline)
    requires exists now :: now < deadline && TicksStartAt(c, |b|, now)
    ensures TicksStartBefore(d, |a|, deadline)
  {
    assert forall i | 0 <= i < |b| :: d[i] == b[i];
    assert forall i | 0 <= i < |c| :: d[i] == c[i];
  }

  lemma TickEvents(s: Service)
    requires s.source.Some?
    ensures var r := FastTick(s);
            && s.log < r.log && r.log[|r.log| - 1] == Ticked(s.now, r.now)
            && TicksStartAt(r.log, |s.log|, s.now)
            && (Exact(s.script) ==> Exact(r.script))
  {
    TickScript(s);
    hide Exact;
  }

  lemma TickScript(s: Service)
    requires s.source.Some?
    ensures Exact(s.script) ==> Exact(FastTick(s).script)
  {
    ScriptConsumed(s.script);
    ScriptConsumed(Consumed(s).script);
    hide Exact;
  }

  lemma ScriptConsumed(script: seq<Reply>)
    ensures Exact(script) ==> Exact(if script == [] then [] else script[1..])
  {
  }
}
