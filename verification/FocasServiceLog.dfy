/**
 What the log of a run tells.

 A second reading of the supervisor, from its events alone: the counters and the state are a replay of
 the log, the clock and the stop event a replay of the script along it, and a log in which a due close
 or trip is missing, late or uncalled for is never written.
 */
module FocasServiceLog {
  import opened Wrappers
  import opened FocasService
  import opened FocasServiceRuns

  // ---------------------------------------------------------------- the replay

  datatype Tale = Tale(
    calls: nat,       // replies used up
    spent: int,       // time since the start
    failures: nat,    // failed full reads in a row
    state: ServiceState, held: Option<nat>, crashed: bool,
    cyclesOk: nat, cyclesFailed: nat, fastTicksOk: nat, persisted: seq<bool>)

  function ReplyAt(script: seq<Reply>, k: nat): Reply {
    if k < |script| then script[k] else LAST_REPLY
  }

  /** A good read takes two outside calls: it is persisted. */
  function Stored(t: Tale, r: Reply, p: Reply): Tale {
    t.(calls := t.calls + 2, spent := t.spent + r.elapsed + p.elapsed, persisted := t.persisted + [p.persistOk])
  }

  function Advance(script: seq<Reply>, t: Tale, e: Event): Tale {
    var r, p := ReplyAt(script, t.calls), ReplyAt(script, t.calls + 1);
    var called := t.(calls := t.calls + 1, spent := t.spent + r.elapsed);
    match e
    case Opened(id) => called.(failures := 0, state := Healthy, held := Some(id))
    case ConnectFailed => called.(state := Connecting)
    case Closed(_) => t.(held := None)
    case FullRead(_, _, ReadOk) => Stored(t, r, p).(failures := 0, state := Healthy, cyclesOk := t.cyclesOk + 1)
    case FullRead(_, _, Crash) => called.(crashed := true)
    case FullRead(_, _, _) =>
      called.(failures := t.failures + 1, state := Degraded, cyclesFailed := t.cyclesFailed + 1)
    case StatusRead(_, _, ReadOk) => Stored(t, r, p).(fastTicksOk := t.fastTicksOk + 1)
    case StatusRead(_, _, Crash) => called.(crashed := true)
    case StatusRead(_, _, _) => called
    case Tripped(_) => t.(failures := 0, state := CircuitOpen)
    case Slept(asked, _) => t.(calls := t.calls + 1, spent := t.spent + asked + r.overshoot)
    case Ticked(_, _) => t
  }

  function Tell(script: seq<Reply>, log: seq<Event>): Tale {
    if log == [] then Tale(0, 0, 0, Connecting, None, false, 0, 0, 0, []) else
    Advance(script, Tell(script, log[..|log| - 1]), log[|log| - 1])
  }

  ghost predicate StopSeen(script: seq<Reply>, calls: nat) {
    exists k :: 0 <= k < calls && ReplyAt(script, k).stop
  }

  // ---------------------------------------------------------------- what must come next

  datatype Duty = ReadNow(source: nat) | CloseNow(source: nat) | TripNow | Free

  /** A source just opened is read in full; a stale handle is closed at once; the failed full read that
      reaches the threshold trips the breaker, and a trip closes the source that is still held. */
  function Due(threshold: int, script: seq<Reply>, log: seq<Event>): Duty {
    if log == [] then Free else
    var front, t := log[..|log| - 1], Tell(script, log);
    match log[|log| - 1]
    case Opened(id) => ReadNow(id)
    case FullRead(id, _, HandleError) => CloseNow(id)
    case StatusRead(id, _, HandleError) => CloseNow(id)
    case FullRead(_, _, FocasFailure) => if t.failures >= threshold then TripNow else Free
    case Closed(_) =>
      if front != [] && front[|front| - 1].FullRead? && front[|front| - 1].outcome.HandleError?
         && t.failures >= threshold
      then TripNow else Free
    case Tripped(_) => if t.held.Some? then CloseNow(t.held.value) else Free
    case _ => Free
  }

  /** The event is the one that is due, or nothing is due and it is neither a close nor a trip. */
  ghost predicate Dutiful(d: Duty, e: Event) {
    match d
    case ReadNow(id) => e.FullRead? && e.source == id
    case CloseNow(id) => e == Closed(id)
    case TripNow => e.Tripped?
    case Free => !e.Closed? && !e.Tripped?
  }

  /** The event is what the next reply answers, at the time the replies so far add up to. */
  ghost predicate Answered(script: seq<Reply>, start: int, log: seq<Event>, e: Event) {
    var t := Tell(script, log);
    var r, now := ReplyAt(script, t.calls), start + t.spent;
    match e
    case Opened(_) => r.connectOk
    case ConnectFailed => !r.connectOk
    case FullRead(_, at, outcome) => at == now && outcome == r.read
    case StatusRead(_, at, outcome) => at == now && outcome == r.read
    case Slept(_, stopped) => stopped <==> StopSeen(script, t.calls)
    case Tripped(at) => at == now
    case Ticked(_, until) => until == now
    case Closed(_) => true
  }

  ghost predicate Lawful(threshold: int, script: seq<Reply>, start: int, log: seq<Event>) {
    log == [] ||
    var front, e := log[..|log| - 1], log[|log| - 1];
    && Lawful(threshold, script, start, front)
    && Dutiful(Due(threshold, script, front), e) && Answered(script, start, front, e)
  }

  lemma TellSnoc(threshold: int, script: seq<Reply>, start: int, log: seq<Event>, e: Event)
    ensures Tell(script, log + [e]) == Advance(script, Tell(script, log), e)
    ensures Lawful(threshold, script, start, log + [e]) <==>
            && Lawful(threshold, script, start, log)
            && Dutiful(Due(threshold, script, log), e) && Answered(script, start, log, e)
  {
    assert (log + [e])[..|log|] == log;
    hide Advance, Answered, Dutiful;
  }

  // ---------------------------------------------------------------- a service that has told everything

  /** Script, clock and stop event are where the log has brought them. */
  ghost predicate Clocked(script: seq<Reply>, start: int, s: Service) {
    var t := Tell(script, s.log);
    && s.script == Rest(script, t.calls)
    && s.now == start + t.spent && (s.stop <==> StopSeen(script, t.calls))
  }

  /** Counters, state and source are the replay's. */
  ghost predicate Tallied(script: seq<Reply>, s: Service) {
    var t := Tell(script, s.log);
    && s.consecutive == t.failures && s.state == t.state && s.source == t.held && (s.crashed <==> t.crashed)
    && s.cyclesOk == t.cyclesOk && s.cyclesFailed == t.cyclesFailed && s.fastTicksOk == t.fastTicksOk
    && s.persisted == t.persisted
  }

  ghost predicate InOrder(script: seq<Reply>, start: int, s: Service) {
    && Clocked(script, start, s) && Lawful(s.cfg.threshold, script, start, s.log)
    && Due(s.cfg.threshold, script, s.log).Free?
  }

  ghost predicate Told(script: seq<Reply>, start: int, s: Service) {
    InOrder(script, start, s) && Tallied(script, s)
  }

  /** The same, but that a source just opened may be waiting for its first full read. */
  ghost predicate ReadyToRead(script: seq<Reply>, start: int, s: Service) {
    && Clocked(script, start, s) && Lawful(s.cfg.threshold, script, start, s.log) && Tallied(script, s)
    && s.source.Some?
    && (Due(s.cfg.threshold, script, s.log).Free? || Due(s.cfg.threshold, script, s.log) == ReadNow(s.source.value))
  }

  lemma StopSnoc(script: seq<Reply>, k: nat)
    ensures StopSeen(script, k + 1) <==> StopSeen(script, k) || ReplyAt(script, k).stop
  {
    if StopSeen(script, k) {
      var i :| 0 <= i < k && ReplyAt(script, i).stop;
      assert StopSeen(script, k + 1);
    }
    if ReplyAt(script, k).stop { assert StopSeen(script, k + 1); }
  }

  function Rest(script: seq<Reply>, k: nat): seq<Reply> {
    if k <= |script| then script[k..] else []
  }

  lemma RestNext(script: seq<Reply>, k: nat)
    ensures var rest := Rest(script, k);
            && (if rest == [] then LAST_REPLY else rest[0]) == ReplyAt(script, k)
            && (if rest == [] then [] else rest[1..]) == Rest(script, k + 1)
  {
  }

  /** The next reply is the script's, and using it up moves one place on. */
  lemma NextIsReply(script: seq<Reply>, start: int, s: Service)
    requires Clocked(script, start, s)
    ensures var k := Tell(script, s.log).calls;
            && NextReply(s) == ReplyAt(script, k)
            && Consumed(s).script == Rest(script, k + 1)
            && (Consumed(s).stop <==> StopSeen(script, k + 1))
  {
    hide Tell, StopSeen, ReplyAt, Rest;
    RestNext(script, Tell(script, s.log).calls);
    StopSnoc(script, Tell(script, s.log).calls);
  }

  /** One outside call and the event it leaves. */
  lemma CallTold(script: seq<Reply>, start: int, s: Service, c: Service, e: Event)
    requires Clocked(script, start, s) && Lawful(s.cfg.threshold, script, start, s.log)
    requires c.log == s.log + [e] && c.cfg == s.cfg
    requires Dutiful(Due(s.cfg.threshold, script, s.log), e) && Answered(script, start, s.log, e)
    requires (c.script, c.stop) == (Consumed(s).script, Consumed(s).stop)
    requires Advance(script, Tell(script, s.log), e).calls == Tell(script, s.log).calls + 1
    requires c.now == start + Advance(script, Tell(script, s.log), e).spent
    ensures Clocked(script, start, c) && Lawful(c.cfg.threshold, script, start, c.log)
    ensures Tell(script, c.log) == Advance(script, Tell(script, s.log), e)
  {
    hide Tell, StopSeen, ReplyAt, Rest, Advance, Lawful, Answered, Dutiful, Due, NextReply, Consumed;
    NextIsReply(script, start, s);
    TellSnoc(s.cfg.threshold, script, start, s.log, e);
  }

  /** The replay but for the clock. */
  ghost predicate SameButClock(t: Tale, u: Tale) {
    u == t.(calls := u.calls, spent := u.spent)
  }

  /** Everything but script, clock, stop event and log. */
  ghost predicate SameButSlept(s: Service, r: Service) {
    r == s.(script := r.script, now := r.now, stop := r.stop, log := r.log)
  }

  lemma SleepChunkTold(script: seq<Reply>, start: int, s: Service, chunk: int)
    requires InOrder(script, start, s)
    ensures var r := SleepChunk(s, chunk);
            && InOrder(script, start, r) && SameButSlept(s, r)
            && SameButClock(Tell(script, s.log), Tell(script, r.log))
  {
    hide Tell, StopSeen, ReplyAt, Rest, Lawful;
    NextIsReply(script, start, s);
    CallTold(script, start, s, SleepChunk(s, chunk), Slept(chunk, s.stop));
    LastIs(s.log, Slept(chunk, s.stop));
  }

  lemma LastIs(log: seq<Event>, e: Event)
    ensures (log + [e])[|log + [e]| - 1] == e && (log + [e])[..|log + [e]| - 1] == log
  {
  }

  lemma {:induction false} SleepUntilTold(script: seq<Reply>, start: int, s: Service, deadline: int)
    requires InOrder(script, start, s)
    ensures var r := SleepUntil(s, deadline);
            && InOrder(script, start, r) && SameButSlept(s, r)
            && SameButClock(Tell(script, s.log), Tell(script, r.log))
    decreases if deadline > s.now then deadline - s.now else 0
  {
    hide InOrder, Tell;
    if !(s.stop || deadline - s.now <= 0) {
      var chunk := Min(deadline - s.now, CHUNK);
      SleepChunkTold(script, start, s, chunk);
      SleepUntilTold(script, start, SleepChunk(s, chunk), deadline);
    }
  }

  lemma SleepTold(script: seq<Reply>, start: int, s: Service, ms: int)
    requires InOrder(script, start, s)
    ensures var r := SleepInterruptible(s, ms);
            && InOrder(script, start, r) && SameButSlept(s, r)
            && SameButClock(Tell(script, s.log), Tell(script, r.log))
            && (Tallied(script, s) ==> Tallied(script, r))
  {
    hide InOrder, Tell, SleepUntil, Tallied;
    SleepUntilTold(script, start, s, s.now + ms);
    if Tallied(script, s) { SleptTallied(script, s, SleepInterruptible(s, ms)); }
  }

  lemma SleptTallied(script: seq<Reply>, s: Service, r: Service)
    requires Tallied(script, s) && SameButSlept(s, r) && SameButClock(Tell(script, s.log), Tell(script, r.log))
    ensures Tallied(script, r)
  {
    hide Tell;
  }

  lemma RemainingTold(script: seq<Reply>, start: int, s: Service, cycleStart: int)
    requires Told(script, start, s)
    ensures Told(script, start, SleepRemaining(s, cycleStart))
  {
    var left := s.cfg.interval - (s.now - cycleStart);
    hide InOrder, Tallied, SleepInterruptible;
    SleepTold(script, start, s, if left > 0 then left else 0);
  }

  lemma ConnectTold(script: seq<Reply>, start: int, s: Service)
    requires Told(script, start, s) && s.source.None?
    ensures var r := Connect(s); if r.source.Some? then ReadyToRead(script, start, r) else Told(script, start, r)
  {
    hide Tell, Lawful, StopSeen, ReplyAt, Rest, SleepInterruptible;
    var c := Called(s.(state := Connecting));
    NextIsReply(script, start, s);
    if NextReply(s).connectOk {
      AcceptedTold(script, start, s, c);
    } else {
      var f := Note(c.(connectFailures := c.connectFailures + 1), ConnectFailed);
      RefusedTold(script, start, s, c, f);
      hide InOrder, Tallied;
      SleepTold(script, start, f, Min(f.cfg.backoffMax, f.cfg.backoff * f.connectFailures));
    }
  }

  lemma AcceptedTold(script: seq<Reply>, start: int, s: Service, c: Service)
    requires Told(script, start, s) && c == Called(s.(state := Connecting)) && NextReply(s).connectOk
    ensures ReadyToRead(script, start, Accepted(c))
  {
    hide Tell, Lawful, StopSeen, ReplyAt, Rest;
    NextIsReply(script, start, s);
    CallTold(script, start, s, Accepted(c), Opened(c.openings));
    LastIs(s.log, Opened(c.openings));
  }

  lemma RefusedTold(script: seq<Reply>, start: int, s: Service, c: Service, f: Service)
    requires Told(script, start, s) && c == Called(s.(state := Connecting)) && !NextReply(s).connectOk
    requires f == Note(c.(connectFailures := c.connectFailures + 1), ConnectFailed)
    ensures Told(script, start, f)
  {
    hide Tell, Lawful, StopSeen, ReplyAt, Rest;
    NextIsReply(script, start, s);
    CallTold(script, start, s, f, ConnectFailed);
    LastIs(s.log, ConnectFailed);
  }

  lemma DueAfterClose(threshold: int, script: seq<Reply>, start: int, log: seq<Event>, id: nat)
    requires log != []
    ensures var last := log[|log| - 1];
            Due(threshold, script, log + [Closed(id)]) ==
            if last.FullRead? && last.outcome.HandleError? && Tell(script, log).failures >= threshold
            then TripNow else Free
  {
    hide Tell;
    TellSnoc(threshold, script, start, log, Closed(id));
    LastIs(log, Closed(id));
  }

  /** A close that is due settles it, unless a trip is due next. */
  lemma CloseTold(script: seq<Reply>, start: int, s: Service)
    requires Clocked(script, start, s) && Lawful(s.cfg.threshold, script, start, s.log)
    requires s.source == Tell(script, s.log).held && s.source.Some?
    requires Due(s.cfg.threshold, script, s.log) == CloseNow(s.source.value)
    ensures var r, t := CloseSource(s), Tell(script, s.log);
            && Clocked(script, start, r) && Lawful(r.cfg.threshold, script, start, r.log)
            && Tell(script, r.log) == t.(held := None)
            && Due(r.cfg.threshold, script, r.log) ==
               if s.log[|s.log| - 1].FullRead? && t.failures >= s.cfg.threshold then TripNow else Free
  {
    hide Tell, Lawful, StopSeen, Rest;
    assert s.log != [];
    TellSnoc(s.cfg.threshold, script, start, s.log, Closed(s.source.value));
    DueAfterClose(s.cfg.threshold, script, start, s.log, s.source.value);
    var last := s.log[|s.log| - 1];
    assert last.FullRead? || last.StatusRead? || last.Tripped?;
    assert last.FullRead? ==> last.outcome.HandleError?;
    hide Due;
  }

  /** The breaker, after a failed full read whose source, if its handle was stale, is already closed. */
  lemma FailureTold(script: seq<Reply>, start: int, s: Service)
    requires Clocked(script, start, s) && Lawful(s.cfg.threshold, script, start, s.log)
    requires Tallied(script, s.(cyclesFailed := s.cyclesFailed + 1, state := Degraded))
    requires Due(s.cfg.threshold, script, s.log) == if s.consecutive >= s.cfg.threshold then TripNow else Free
    ensures Told(script, start, OnReadFailure(s))
  {
    hide Tell, Lawful, SleepInterruptible, Due;
    var f := s.(cyclesFailed := s.cyclesFailed + 1);
    if f.consecutive >= f.cfg.threshold {
      var t := CloseSource(Note(f.(state := CircuitOpen), Tripped(f.now)));
      TripTold(script, start, s);
      hide Clocked, InOrder, Tallied, CloseSource, Note;
      SleepTold(script, start, t, t.cfg.cooldown);
      var r := SleepInterruptible(t, t.cfg.cooldown);
      SleptTallied(script, t.(consecutive := 0), r.(consecutive := 0));
      SameOrder(script, start, r, r.(consecutive := 0));
    }
  }

  lemma TripTold(script: seq<Reply>, start: int, s: Service)
    requires Clocked(script, start, s) && Lawful(s.cfg.threshold, script, start, s.log)
    requires Tallied(script, s.(cyclesFailed := s.cyclesFailed + 1, state := Degraded))
    requires Due(s.cfg.threshold, script, s.log) == TripNow
    ensures var n := Note(s.(cyclesFailed := s.cyclesFailed + 1, state := CircuitOpen), Tripped(s.now));
            InOrder(script, start, CloseSource(n)) && Tallied(script, CloseSource(n).(consecutive := 0))
  {
    var n := Note(s.(cyclesFailed := s.cyclesFailed + 1, state := CircuitOpen), Tripped(s.now));
    TellSnoc(s.cfg.threshold, script, start, s.log, Tripped(s.now));
    assert n.log[|n.log| - 1] == Tripped(s.now);
    if n.source.Some? {
      CloseTold(script, start, n);
    }
    hide Tell, Lawful;
  }

  /** A read and its persist use up two replies. */
  lemma TwoCalls(script: seq<Reply>, start: int, s: Service, e: Event)
    requires Clocked(script, start, s)
    ensures var k, p := Tell(script, s.log).calls, DoPersist(Note(Called(s), e));
            && NextReply(s) == ReplyAt(script, k)
            && p.script == Rest(script, k + 2) && (p.stop <==> StopSeen(script, k + 2))
            && p.now == s.now + ReplyAt(script, k).elapsed + ReplyAt(script, k + 1).elapsed
            && p.persisted == s.persisted + [ReplyAt(script, k + 1).persistOk]
  {
    var k := Tell(script, s.log).calls;
    hide Tell, StopSeen, ReplyAt, Rest;
    NextIsReply(script, start, s);
    RestNext(script, k + 1);
    StopSnoc(script, k + 1);
  }

  /** A read that is persisted: the two calls behind it. */
  lemma StoredTold(script: seq<Reply>, start: int, s: Service, e: Event)
    requires ReadyToRead(script, start, s) && NextReply(s).read.ReadOk?
    requires e == FullRead(s.source.value, s.now, ReadOk)
          || (e == StatusRead(s.source.value, s.now, ReadOk) && InOrder(script, start, s))
    ensures var p := DoPersist(Note(Called(s), e));
            && InOrder(script, start, p) && Tell(script, p.log) == Advance(script, Tell(script, s.log), e)
            && p.persisted == Tell(script, p.log).persisted
  {
    var p := DoPersist(Note(Called(s), e));
    assert p.log == s.log + [e] && p.cfg == s.cfg;
    TwoCalls(script, start, s, e);
    hide Tell, Lawful, StopSeen, ReplyAt, Rest, DoPersist, Called, Note, NextReply;
    TellSnoc(s.cfg.threshold, script, start, s.log, e);
    LastIs(s.log, e);
  }

  /** A read that fails or crashes: the one call behind it. */
  lemma ReadTold(script: seq<Reply>, start: int, s: Service, e: Event)
    requires ReadyToRead(script, start, s) && !NextReply(s).read.ReadOk?
    requires e == FullRead(s.source.value, s.now, NextReply(s).read)
          || (e == StatusRead(s.source.value, s.now, NextReply(s).read) && InOrder(script, start, s))
    ensures var c := Note(Called(s), e);
            && Clocked(script, start, c) && Lawful(c.cfg.threshold, script, start, c.log)
            && Tell(script, c.log) == Advance(script, Tell(script, s.log), e)
  {
    hide Tell, Lawful, StopSeen, ReplyAt, Rest;
    NextIsReply(script, start, s);
    CallTold(script, start, s, Note(Called(s), e), e);
  }

  lemma TickedTold(script: seq<Reply>, start: int, s: Service, e: Event)
    requires Told(script, start, s) && e.Ticked? && e.until == s.now
    ensures Told(script, start, Note(s, e))
  {
    hide Tell, Lawful, StopSeen, ReplyAt, Rest;
    TellSnoc(s.cfg.threshold, script, start, s.log, e);
    LastIs(s.log, e);
  }

  /** The tally after a good read. */
  lemma StoredTallied(script: seq<Reply>, s: Service, p: Service, e: Event)
    requires Tallied(script, s) && Tell(script, p.log) == Advance(script, Tell(script, s.log), e)
    requires s.source.Some? && p.persisted == Tell(script, p.log).persisted
    requires e == FullRead(s.source.value, s.now, ReadOk) || e == StatusRead(s.source.value, s.now, ReadOk)
    requires (p.source, p.crashed, p.cyclesFailed) == (s.source, s.crashed, s.cyclesFailed)
    requires (p.consecutive, p.state, p.cyclesOk, p.fastTicksOk) ==
             if e.FullRead? then (0, Healthy, s.cyclesOk + 1, s.fastTicksOk)
             else (s.consecutive, s.state, s.cyclesOk, s.fastTicksOk + 1)
    ensures Tallied(script, p)
  {
    hide Tell, ReplyAt;
  }

  lemma GoodTickTold(script: seq<Reply>, start: int, s: Service)
    requires Told(script, start, s) && s.source.Some? && NextReply(s).read.ReadOk?
    ensures Told(script, start, FastTick(s))
  {
    hide Tell, InOrder, Tallied, Advance;
    var e := StatusRead(s.source.value, s.now, ReadOk);
    var p := DoPersist(Note(Called(s), e));
    var q := p.(fastTicksOk := p.fastTicksOk + 1);
    ToldIsReady(script, start, s);
    StoredTold(script, start, s, e);
    StoredTallied(script, s, q, e);
    SameOrder(script, start, p, q);
    TickedTold(script, start, q, Ticked(s.now, p.now));
  }

  lemma SameOrder(script: seq<Reply>, start: int, p: Service, q: Service)
    requires InOrder(script, start, p)
    requires (q.cfg, q.script, q.now, q.stop, q.log) == (p.cfg, p.script, p.now, p.stop, p.log)
    ensures InOrder(script, start, q)
  {
    hide Tell, Lawful, Due;
  }

  lemma BadTickTold(script: seq<Reply>, start: int, s: Service)
    requires Told(script, start, s) && s.source.Some? && !NextReply(s).read.ReadOk?
    ensures Told(script, start, FastTick(s))
  {
    var e := StatusRead(s.source.value, s.now, NextReply(s).read);
    var c := Note(Called(s), e);
    hide Tell, Lawful;
    ReadTold(script, start, s, e);
    LastIs(s.log, e);
    match NextReply(s).read
    case HandleError =>
      CloseTold(script, start, c);
      TickedTold(script, start, CloseSource(c), Ticked(s.now, c.now));
    case FocasFailure =>
      TickedTold(script, start, c, Ticked(s.now, c.now));
    case Crash =>
      TickedTold(script, start, c.(crashed := true), Ticked(s.now, c.now));
  }

  lemma {:induction false} FastLoopTold(script: seq<Reply>, start: int, s: Service, deadline: int, fast: int)
    requires fast > 0 && Told(script, start, s)
    ensures Told(script, start, FastLoop(s, deadline, fast))
    decreases if deadline > s.now then deadline - s.now else 0
  {
    hide SleepInterruptible, FastTick, InOrder, Tallied;
    if !(s.stop || s.crashed || s.source.None?) && deadline - s.now > 0 {
      SleepTold(script, start, s, deadline - s.now);
      SleepTold(script, start, s, fast);
      var t := SleepInterruptible(s, fast);
      if deadline - s.now > fast && !(t.stop || t.source.None?) {
        if NextReply(t).read.ReadOk? { GoodTickTold(script, start, t); } else { BadTickTold(script, start, t); }
        FastLoopTold(script, start, FastTick(t), deadline, fast);
      }
    }
  }

  lemma BetweenTold(script: seq<Reply>, start: int, s: Service, cycleStart: int)
    requires Told(script, start, s)
    ensures Told(script, start, BetweenCycles(s, cycleStart))
  {
    hide SleepRemaining, FastLoop, InOrder, Tallied;
    RemainingTold(script, start, s, cycleStart);
    if s.cfg.statusInterval.Some? && s.cfg.statusInterval.value > 0 {
      FastLoopTold(script, start, s, cycleStart + s.cfg.interval, s.cfg.statusInterval.value);
    }
  }

  lemma GoodCycleTold(script: seq<Reply>, start: int, s: Service)
    requires ReadyToRead(script, start, s) && NextReply(s).read.ReadOk?
    ensures Told(script, start, RunCycle(s))
  {
    hide Tell, InOrder, Tallied, Advance, BetweenCycles;
    var e := FullRead(s.source.value, s.now, ReadOk);
    var c := Note(Called(s), e);
    var p := DoPersist(c.(consecutive := 0, cyclesOk := c.cyclesOk + 1)).(state := Healthy);
    StoredTold(script, start, s, e);
    StoredTallied(script, s, p, e);
    SameOrder(script, start, DoPersist(c), p);
    hide DoPersist, Called, Note;
    BetweenTold(script, start, p, s.now);
  }

  lemma CrashCycleTold(script: seq<Reply>, start: int, s: Service)
    requires ReadyToRead(script, start, s) && NextReply(s).read.Crash?
    ensures Told(script, start, RunCycle(s))
  {
    hide Tell, Lawful, Rest, StopSeen;
    var e := FullRead(s.source.value, s.now, Crash);
    ReadTold(script, start, s, e);
    LastIs(s.log, e);
  }

  /** What the failed read has left in the tally, and that the close of a stale handle keeps it. */
  lemma FailedTallied(script: seq<Reply>, s: Service, d: Service, e: Event)
    requires Tallied(script, s) && e.FullRead? && !e.outcome.ReadOk? && !e.outcome.Crash?
    requires Tell(script, d.log) == Advance(script, Tell(script, s.log), e).(held := d.source)
    requires d == s.(script := d.script, now := d.now, stop := d.stop, log := d.log, source := d.source,
                     consecutive := s.consecutive + 1)
    ensures Tallied(script, d.(cyclesFailed := d.cyclesFailed + 1, state := Degraded))
  {
    hide Tell, ReplyAt;
  }

  lemma StaleCycleTold(script: seq<Reply>, start: int, s: Service)
    requires ReadyToRead(script, start, s) && NextReply(s).read.HandleError?
    ensures Told(script, start, RunCycle(s))
  {
    hide Tell, Lawful, OnReadFailure, Rest, StopSeen;
    var e := FullRead(s.source.value, s.now, HandleError);
    var c := Note(Called(s), e);
    var d := c.(consecutive := c.consecutive + 1);
    ReadTold(script, start, s, e);
    LastIs(s.log, e);
    CloseTold(script, start, d);
    FailedTallied(script, s, CloseSource(d), e);
    FailureTold(script, start, CloseSource(d));
  }

  lemma ErroredCycleTold(script: seq<Reply>, start: int, s: Service)
    requires ReadyToRead(script, start, s) && NextReply(s).read.FocasFailure?
    ensures Told(script, start, RunCycle(s))
  {
    hide Tell, Lawful, OnReadFailure, Rest, StopSeen, SleepRemaining;
    var e := FullRead(s.source.value, s.now, FocasFailure);
    var c := Note(Called(s), e);
    var d := c.(consecutive := c.consecutive + 1);
    ReadTold(script, start, s, e);
    LastIs(s.log, e);
    FailedTallied(script, s, d, e);
    FailureTold(script, start, d);
    hide InOrder, Tallied, Clocked, Due;
    RemainingTold(script, start, OnReadFailure(d), s.now);
  }

  lemma ToldIsReady(script: seq<Reply>, start: int, s: Service)
    requires Told(script, start, s) && s.source.Some?
    ensures ReadyToRead(script, start, s)
  {
    hide Tell, Lawful, Due;
  }

  lemma PassTold(script: seq<Reply>, start: int, s: Service)
    requires Told(script, start, s)
    ensures Told(script, start, Pass(s))
  {
    hide Connect, RunCycle, InOrder, Tallied, ReadyToRead;
    var c := if s.source.None? then Connect(s) else s;
    if s.source.None? { ConnectTold(script, start, s); }
    if c.source.Some? {
      if s.source.Some? { ToldIsReady(script, start, s); }
      match NextReply(c).read
      case ReadOk => GoodCycleTold(script, start, c);
      case HandleError => StaleCycleTold(script, start, c);
      case FocasFailure => ErroredCycleTold(script, start, c);
      case Crash => CrashCycleTold(script, start, c);
    }
  }

  // ---------------------------------------------------------------- over every run

  lemma {:induction false} HeadTold(script: seq<Reply>, start: int, s: Service, n: nat)
    requires Told(script, start, s)
    ensures Told(script, start, Head(s, n)) && Head(s, n).cfg == s.cfg
  {
    hide Pass, InOrder, Tallied;
    if n > 0 {
      HeadTold(script, start, s, n - 1);
      PassTold(script, start, Head(s, n - 1));
    }
  }

  lemma StartTold(cfg: Config, script: seq<Reply>, start: int)
    ensures Told(script, start, Start(cfg, script, start))
  {
  }

  /** At every loop head the counters, the state, the source, the persists and the crash flag are the
      replay of the log, the clock and the stop event that of the script along it; and the log is lawful,
      with nothing due. */
  lemma EveryHeadTold(cfg: Config, script: seq<Reply>, start: int, n: nat)
    ensures Told(script, start, Head(Start(cfg, script, start), n))
  {
    StartTold(cfg, script, start);
    hide InOrder, Tallied, Start;
    HeadTold(script, start, Start(cfg, script, start), n);
  }

  /** And over every run: the log is lawful, but that at the end the source still held is closed. */
  lemma EveryRunLawful(cfg: Config, script: seq<Reply>, start: int) returns (log: seq<Event>)
    ensures Lawful(cfg.threshold, script, start, log) && Due(cfg.threshold, script, log).Free?
    ensures var r := Run(cfg, script, start);
            && r.log == log + (match Held(log) case Some(id) => [Closed(id)] case None => [])
            && r.state == Stopped && r.source == None
  {
    var s := Start(cfg, script, start);
    var n := LoopIsHead(s);
    StartTold(cfg, script, start);
    HeadTold(script, start, s, n);
    log := Loop(s).log;
    assert HandlesOk(s);
    LoopHandles(s);
    hide Loop, Tell, Lawful, Due, Head, WellHandled, Held;
    assert log + [] == log;
  }

  lemma {:induction false} LawfulAt(threshold: int, script: seq<Reply>, start: int, log: seq<Event>, i: nat)
    requires Lawful(threshold, script, start, log) && i < |log|
    ensures Dutiful(Due(threshold, script, log[..i]), log[i]) && Answered(script, start, log[..i], log[i])
  {
    hide Dutiful, Answered, Due;
    var n := |log| - 1;
    if i < n {
      LawfulAt(threshold, script, start, log[..n], i);
      assert log[..n][..i] == log[..i];
    }
  }

  /** A read, full or light, that found a stale handle. */
  ghost predicate StaleRead(e: Event, id: nat) {
    (e.FullRead? || e.StatusRead?) && e.source == id && e.outcome.HandleError?
  }

  ghost predicate Names(e: Event, id: nat) {
    (e.Opened? || e.Closed? || e.FullRead? || e.StatusRead?) && e.source == id
  }

  lemma {:induction false} HeldIsOpened(log: seq<Event>)
    requires WellHandled(log)
    ensures Held(log).Some? ==> Held(log).value < Openings(log)
  {
    if log != [] { HeldIsOpened(log[..|log| - 1]); }
  }

  /** A closed source is never held or named again. */
  lemma {:induction false} ClosedForGood(log: seq<Event>, i: nat)
    requires WellHandled(log) && i < |log| && log[i].Closed?
    ensures Held(log) != Some(log[i].source) && log[i].source < Openings(log)
    ensures forall j | i < j < |log| :: !Names(log[j], log[i].source)
  {
    var n := |log| - 1;
    if i < n {
      ClosedForGood(log[..n], i);
      assert forall j | i < j < n :: log[..n][j] == log[j];
    } else {
      HeldIsOpened(log[..n]);
    }
  }

  /** Every event of a run but the close at its end keeps the law. */
  lemma RunLawfulAt(cfg: Config, script: seq<Reply>, start: int, i: nat)
    requires var log := Run(cfg, script, start).log;
             i < |log| && (i == |log| - 1 ==> !log[i].Closed?)
    ensures var log := Run(cfg, script, start).log;
            Dutiful(Due(cfg.threshold, script, log[..i]), log[i]) && Answered(script, start, log[..i], log[i])
  {
    hide Run, Dutiful, Answered, Due, Lawful, Held;
    var all := Run(cfg, script, start).log;
    var log := EveryRunLawful(cfg, script, start);
    assert i < |log|;
    assert log[i] == all[i] && log[..i] == all[..i];
    LawfulAt(cfg.threshold, script, start, log, i);
  }

  /** In every run a source whose handle proves stale, in a full read or in a light one, is closed by the
      very next event and never used again. */
  lemma StaleHandleReleased(cfg: Config, script: seq<Reply>, start: int, i: nat, id: nat)
    requires i < |Run(cfg, script, start).log| && StaleRead(Run(cfg, script, start).log[i], id)
    ensures var log := Run(cfg, script, start).log;
            && i + 1 < |log| && log[i + 1] == Closed(id)
            && forall j | i + 1 < j < |log| :: !Names(log[j], id)
  {
    HandlesBalance(cfg, script, start);
    hide Run;
    var all := Run(cfg, script, start).log;
    var log := EveryRunLawful(cfg, script, start);
    hide Lawful, Tell;
    if i < |log| {
      assert log[i] == all[i];
      if i == |log| - 1 {
        assert Due(cfg.threshold, script, log).CloseNow?;
      } else {
        NextIsDue(cfg, script, start, log, i, id);
        assert log[i + 1] == all[i + 1];
      }
    }
    hide WellHandled, Held, Openings;
    ClosedForGood(all, i + 1);
  }

  lemma NextIsDue(cfg: Config, script: seq<Reply>, start: int, log: seq<Event>, i: nat, id: nat)
    requires Lawful(cfg.threshold, script, start, log) && i + 1 < |log| && StaleRead(log[i], id)
    ensures log[i + 1] == Closed(id)
  {
    hide Lawful, Tell;
    LawfulAt(cfg.threshold, script, start, log, i + 1);
    assert log[..i + 1][|log[..i + 1]| - 1] == log[i];
  }

  /** And nothing else drops a source before the end of the run: a close follows a stale read of that
      source or a trip, and a trip follows a failed full read that reached the threshold.  A light read
      that merely fails keeps its source. */
  lemma DroppedOnlyWhenDue(cfg: Config, script: seq<Reply>, start: int, i: nat)
    requires i + 1 < |Run(cfg, script, start).log|
    ensures var log := Run(cfg, script, start).log;
            && (log[i].Closed? ==> i > 0 && (StaleRead(log[i - 1], log[i].source) || log[i - 1].Tripped?))
            && (log[i].Tripped? ==>
                  && Tell(script, log[..i]).failures >= cfg.threshold
                  && i > 0
                  && (|| (log[i - 1].FullRead? && log[i - 1].outcome.FocasFailure?)
                      || (i > 1 && log[i - 1].Closed? && log[i - 2].FullRead? && log[i - 2].outcome.HandleError?)))
  {
    hide Run, Tell;
    var log := Run(cfg, script, start).log;
    RunLawfulAt(cfg, script, start, i);
    if i > 0 { assert log[..i][|log[..i]| - 1] == log[i - 1]; }
    if i > 1 { assert log[..i][..i - 1][|log[..i][..i - 1]| - 1] == log[i - 2]; }
  }
}
