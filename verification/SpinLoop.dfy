/** Waiting for a buffer to satisfy a callback: poll, arm the monitor, recheck,
    wait. Stores to the buffer may happen between any two steps. */
module SpinLoop {
  import opened Wrappers

  type Buffer = seq<bv8>

  datatype Outcome = Found | TimedOut | Failed

  datatype Pc = Poll | Check | Arm | Recheck | Wait | Pause | Done(outcome: Outcome)

  /** `monitor`: the CPU has monitorx and the buffer fits its line. */
  datatype Params = Params(callback: Buffer -> bool, monitor: bool, timeout: real, started: real)

  predicate HaveTimeout(p: Params) { p.timeout > 0.000000001 }

  const WRAP := 0x1_0000_0000

  /** `passes` counts completed loop iterations without bound, `iteration` is the
      32-bit counter of the code, `readings` lists the passes at which the clock
      was read and `clock` is its last value. */
  datatype State = State(
    buffer: Buffer, pc: Pc, armed: bool, tripped: bool,
    iteration: nat, passes: nat, readings: seq<nat>, clock: Option<real>)

  datatype Event =
    | Store(value: Buffer)      // another thread writes the buffer
    | CallBack                  // the callback runs and returns
    | Raise                     // the callback or the clock fails
    | Tick(now: real)           // the timeout check of this iteration
    | ArmMonitor
    | Tripped                   // the armed monitor saw a store
    | TimerFired                // mwaitx gives up on its own
    | Resume                    // after the pause of the busy poll

  /** The low four bits of the counter are zero. */
  predicate ReadsClock(p: Params, iteration: nat) { HaveTimeout(p) && iteration % 16 == 0 }

  ghost predicate Next(p: Params, s: State, e: Event, t: State) {
    match e
    case Store(value) =>
      t == s.(buffer := value, tripped := s.tripped || s.armed)
    case CallBack =>
      if s.pc.Poll? then t == s.(pc := if p.callback(s.buffer) then Done(Found) else Check)
      else s.pc.Recheck? && t == s.(pc := if p.callback(s.buffer) then Done(Found) else Wait)
    case Raise =>
      (s.pc.Poll? || s.pc.Recheck? || (s.pc.Check? && ReadsClock(p, s.iteration))) && t == s.(pc := Done(Failed))
    case Tick(now) =>
      && s.pc.Check?
      && var read := s.(readings := s.readings + [s.passes], clock := Some(now));
         var on := s.(iteration := (s.iteration + 1) % WRAP, passes := s.passes + 1, pc := if p.monitor then Arm else Pause);
         if !ReadsClock(p, s.iteration) then t == on
         else if now - p.started >= p.timeout then t == read.(pc := Done(TimedOut))
         else t == on.(readings := read.readings, clock := read.clock)
    case ArmMonitor =>
      s.pc.Arm? && t == s.(armed := true, tripped := false, pc := Recheck)
    case Tripped =>
      s.pc.Wait? && s.tripped && t == s.(armed := false, pc := Poll)
    case TimerFired =>
      s.pc.Wait? && t == s.(armed := false, pc := Poll)
    case Resume =>
      s.pc.Pause? && t == s.(pc := Poll)
  }

  predicate Initial(s: State) {
    s == State(s.buffer, Poll, false, false, 0, 0, [], None)
  }

  /** A waiting thread has the monitor armed, and if the buffer already satisfies
      the callback the monitor has been tripped. */
  ghost predicate NoLostWakeup(p: Params, s: State) {
    && (s.pc.Recheck? || s.pc.Wait? ==> s.armed)
    && (s.pc.Wait? && p.callback(s.buffer) ==> s.tripped)
  }

  /** The clock was read at exactly the passes that are multiples of sixteen. */
  ghost predicate ClockOnTime(p: Params, s: State) {
    && s.iteration == s.passes % WRAP
    && (forall k :: 0 <= k < s.passes ==> (k in s.readings <==> HaveTimeout(p) && k % 16 == 0))
    && (forall k :: k in s.readings ==> HaveTimeout(p) && (k < s.passes || s.pc.Done?))
    && (s.pc == Done(TimedOut) ==> HaveTimeout(p) && s.clock.Some? && s.clock.value - p.started >= p.timeout)
  }

  lemma WrapKeepsLowBits(n: nat)
    ensures n % WRAP % 16 == n % 16
  {
    var q := n / WRAP;
    assert n == q * WRAP + n % WRAP;
    assert q * WRAP == (q * 0x1000_0000) * 16;
  }

  lemma WrapNext(n: nat)
    ensures (n % WRAP + 1) % WRAP == (n + 1) % WRAP
  {}

  lemma StepKeepsWakeup(p: Params, s: State, e: Event, t: State)
    requires NoLostWakeup(p, s) && Next(p, s, e, t)
    ensures NoLostWakeup(p, t)
  {}

  lemma StepKeepsClock(p: Params, s: State, e: Event, t: State)
    requires ClockOnTime(p, s) && Next(p, s, e, t)
    ensures ClockOnTime(p, t)
  {
    if e.Tick? {
      WrapKeepsLowBits(s.passes);
      WrapNext(s.passes);
    }
  }

  ghost predicate Run(p: Params, states: seq<State>, events: seq<Event>) {
    && |states| == |events| + 1 && Initial(states[0])
    && forall k :: 0 <= k < |events| ==> Next(p, states[k], events[k], states[k+1])
  }

  lemma {:induction false} RunKeeps(p: Params, states: seq<State>, events: seq<Event>, k: nat)
    requires Run(p, states, events) && k < |states|
    ensures NoLostWakeup(p, states[k]) && ClockOnTime(p, states[k])
  {
    hide Next, NoLostWakeup, ClockOnTime;
    if k == 0 {
      StartKeeps(p, states[0]);
    } else {
      RunKeeps(p, states, events, k - 1);
      StepKeepsWakeup(p, states[k-1], events[k-1], states[k]);
      StepKeepsClock(p, states[k-1], events[k-1], states[k]);
    }
  }

  lemma StartKeeps(p: Params, s: State)
    requires Initial(s)
    ensures NoLostWakeup(p, s) && ClockOnTime(p, s)
  {}

  /** No lost wakeup, in every interleaving: a thread that waits while the buffer
      satisfies the callback has a wakeup pending, which takes it back to the poll. */
  lemma WaiterIsWoken(p: Params, states: seq<State>, events: seq<Event>, k: nat)
    requires Run(p, states, events) && k < |states|
    requires states[k].pc.Wait? && p.callback(states[k].buffer)
    ensures Next(p, states[k], Tripped, states[k].(armed := false, pc := Poll))
  {
    RunKeeps(p, states, events, k);
  }

  /** With a timeout, any sixteen consecutive iterations read the clock, also
      across the wrap of the counter; a time-out is reported only after a reading
      at or past it. */
  lemma ClockReadEverySixteen(p: Params, states: seq<State>, events: seq<Event>, k: nat, from: nat)
    requires Run(p, states, events) && k < |states| && p.timeout > 0.000000001 && from + 16 <= states[k].passes
    ensures exists j :: from <= j < from + 16 && j in states[k].readings
    ensures states[k].pc == Done(TimedOut) ==>
      states[k].clock.Some? && states[k].clock.value - p.started >= p.timeout
  {
    RunKeeps(p, states, events, k);
    var j := from + (15 - (from + 15) % 16);
    assert j % 16 == 0;
    assert j in states[k].readings;
  }

  lemma FirstIn(readings: seq<nat>)
    requires readings != []
    ensures exists k :: k in readings
  {
    assert readings[0] in readings;
  }

  /** A timeout of a nanosecond or less is none: the clock is never read. */
  lemma NoTimeoutNoClock(p: Params, states: seq<State>, events: seq<Event>, k: nat)
    requires Run(p, states, events) && k < |states| && p.timeout <= 0.000000001
    ensures states[k].readings == [] && states[k].pc != Done(TimedOut)
  {
    RunKeeps(p, states, events, k);
    var readings := states[k].readings;
    if readings != [] {
      FirstIn(readings);
      assert false;
    }
  }

  // ---- The loop -------------------------------------------------------------------------

  /** What one iteration meets: the buffer at the first call, the clock, and the
      buffer at the recheck after arming; `None` stands for a failure. */
  datatype Pass = Pass(first: Option<Buffer>, now: Option<real>, second: Option<Buffer>)

  /** How the loop ends in pass k, if it does. */
  function Verdict(p: Params, o: Pass, k: nat): Option<Outcome> {
    if o.first.None? then Some(Failed)
    else if p.callback(o.first.value) then Some(Found)
    else if HaveTimeout(p) && k % 16 == 0 && o.now.None? then Some(Failed)
    else if HaveTimeout(p) && k % 16 == 0 && o.now.value - p.started >= p.timeout then Some(TimedOut)
    else if !p.monitor then None
    else if o.second.None? then Some(Failed)
    else if p.callback(o.second.value) then Some(Found)
    else None
  }

  /** The first call of the pass returned, and not with true. */
  predicate Unanswered(p: Params, o: Pass) { o.first.Some? && !p.callback(o.first.value) }

  /** The clock, if read in this pass, shows that the timeout is over. */
  predicate Late(p: Params, o: Pass) { o.now.Some? && o.now.value - p.started >= p.timeout }

  function Last(states: seq<State>): State
    requires |states| > 0
  {
    states[|states| - 1]
  }

  lemma Extend(p: Params, states: seq<State>, events: seq<Event>, e: Event, t: State)
    requires Run(p, states, events) && |states| > 0 && Next(p, Last(states), e, t)
    ensures Run(p, states + [t], events + [e])
  {
    hide Next;
    var states', events' := states + [t], events + [e];
    forall k | 0 <= k < |events'| ensures Next(p, states'[k], events'[k], states'[k+1]) {
      if k < |events| { assert states'[k] == states[k] && states'[k+1] == states[k+1]; }
    }
  }

  /** The buffer comes to hold `value` and the callback runs on it, or fails. */
  lemma CallOn(p: Params, states: seq<State>, events: seq<Event>, value: Option<Buffer>)
    returns (states': seq<State>, events': seq<Event>)
    requires Run(p, states, events) && |states| > 0 && (Last(states).pc.Poll? || Last(states).pc.Recheck?)
    ensures Run(p, states', events') && |states'| > 0 && states'[0] == states[0] && Last(states').passes == Last(states).passes
    ensures Last(states').pc == if value.None? then Done(Failed) else if p.callback(value.value) then Done(Found)
                                else if Last(states).pc.Poll? then Check else Wait
  {
    hide Run;
    var s := Last(states);
    if value.None? {
      var t := s.(pc := Done(Failed));
      Extend(p, states, events, Raise, t);
      states', events' := states + [t], events + [Raise];
    } else {
      var t := s.(buffer := value.value, tripped := s.tripped || s.armed);
      Extend(p, states, events, Store(value.value), t);
      var u := t.(pc := if p.callback(value.value) then Done(Found) else if s.pc.Poll? then Check else Wait);
      Extend(p, states + [t], events + [Store(value.value)], CallBack, u);
      states', events' := states + [t] + [u], events + [Store(value.value)] + [CallBack];
    }
  }

  /** The timeout check of a pass. */
  lemma CheckTime(p: Params, states: seq<State>, events: seq<Event>, now: Option<real>)
    returns (states': seq<State>, events': seq<Event>)
    requires Run(p, states, events) && |states| > 0 && Last(states).pc.Check?
    ensures Run(p, states', events') && |states'| > 0 && states'[0] == states[0]
    ensures var k := Last(states).passes;
      var timed := HaveTimeout(p) && k % 16 == 0;
      if timed && now.None? then Last(states').pc == Done(Failed)
      else if timed && now.value - p.started >= p.timeout then Last(states').pc == Done(TimedOut)
      else Last(states').pc == (if p.monitor then Arm else Pause) && Last(states').passes == k + 1
  {
    var s := Last(states);
    RunKeeps(p, states, events, |states| - 1);
    WrapKeepsLowBits(s.passes);
    hide Run;
    if ReadsClock(p, s.iteration) && now.None? {
      var t := s.(pc := Done(Failed));
      Extend(p, states, events, Raise, t);
      states', events' := states + [t], events + [Raise];
    } else {
      var at := if now.None? then 0.0 else now.value;
      var read := s.(readings := s.readings + [s.passes], clock := Some(at));
      var on := s.(iteration := (s.iteration + 1) % WRAP, passes := s.passes + 1, pc := if p.monitor then Arm else Pause);
      var t :=
        if !ReadsClock(p, s.iteration) then on
        else if at - p.started >= p.timeout then read.(pc := Done(TimedOut))
        else on.(readings := read.readings, clock := read.clock);
      Extend(p, states, events, Tick(at), t);
      states', events' := states + [t], events + [Tick(at)];
    }
  }

  /** One step that always succeeds. */
  lemma Step(p: Params, states: seq<State>, events: seq<Event>, e: Event, t: State)
    returns (states': seq<State>, events': seq<Event>)
    requires Run(p, states, events) && |states| > 0 && Next(p, Last(states), e, t)
    ensures Run(p, states', events') && |states'| > 0 && states'[0] == states[0] && Last(states') == t
  {
    Extend(p, states, events, e, t);
    states', events' := states + [t], events + [e];
  }

  /** A pass of the loop is a stretch of a run of the step relation: it ends in the
      verdict, or back at the poll one pass later. */
  lemma PassIsRun(p: Params, states: seq<State>, events: seq<Event>, o: Pass)
    returns (states': seq<State>, events': seq<Event>)
    requires Run(p, states, events) && |states| > 0 && Last(states).pc.Poll?
    ensures Run(p, states', events') && |states'| > 0 && states'[0] == states[0]
    ensures var v := Verdict(p, o, Last(states).passes);
      if v.Some? then Last(states').pc == Done(v.value)
      else Last(states').pc == Poll && Last(states').passes == Last(states).passes + 1
  {
    hide Run;
    states', events' := CallOn(p, states, events, o.first);
    if Last(states').pc.Done? { return; }
    states', events' := CheckTime(p, states', events', o.now);
    if Last(states').pc.Done? { return; }
    var s := Last(states');
    if !p.monitor {
      states', events' := Step(p, states', events', Resume, s.(pc := Poll));
      return;
    }
    states', events' := Step(p, states', events', ArmMonitor, s.(armed := true, tripped := false, pc := Recheck));
    states', events' := CallOn(p, states', events', o.second);
    if Last(states').pc.Done? { return; }
    states', events' := Step(p, states', events', TimerFired, Last(states').(armed := false, pc := Poll));
  }

  /** The loop on any finite script of what it meets: it ends in the first pass with
      a verdict, and what it does is a run of the step relation, so that everything
      proved of runs holds of it. */
  method Spin(p: Params, start: Buffer, script: seq<Pass>)
    returns (outcome: Option<Outcome>, passes: nat, ghost states: seq<State>, ghost events: seq<Event>)
    ensures passes <= |script| && forall k :: 0 <= k < passes ==> Verdict(p, script[k], k) == None
    ensures outcome == if passes == |script| then None else Verdict(p, script[passes], passes)
    ensures passes < |script| ==> outcome.Some?
    ensures forall k :: 0 <= k < passes && p.timeout > 0.000000001 && k % 16 == 0 ==> !Late(p, script[k])
    ensures outcome == Some(TimedOut) <==>
      passes < |script| && Unanswered(p, script[passes]) && p.timeout > 0.000000001 && passes % 16 == 0 && Late(p, script[passes])
    ensures Run(p, states, events) && states[0].buffer == start
    ensures if outcome.Some? then Last(states).pc == Done(outcome.value) else Last(states).pc == Poll && Last(states).passes == passes
  {
    hide Run;
    var haveTimeout := HaveTimeout(p);
    var iteration: nat := 0;
    passes := 0;
    states, events := Begin(p, start);
    while passes < |script|
      invariant passes <= |script| && iteration == passes % WRAP
      invariant forall k :: 0 <= k < passes ==> Verdict(p, script[k], k) == None
      invariant Run(p, states, events) && |states| > 0 && states[0].buffer == start
      invariant Last(states).pc == Poll && Last(states).passes == passes
    {
      var o := script[passes];
      WrapKeepsLowBits(passes);
      WrapNext(passes);
      states, events := PassIsRun(p, states, events, o);
      if o.first.None? { return Some(Failed), passes, states, events; }
      if p.callback(o.first.value) { return Some(Found), passes, states, events; }
      if haveTimeout && iteration % 16 == 0 {
        if o.now.None? { return Some(Failed), passes, states, events; }
        if o.now.value - p.started >= p.timeout { return Some(TimedOut), passes, states, events; }
      }
      iteration := (iteration + 1) % WRAP;
      if p.monitor {
        if o.second.None? { return Some(Failed), passes, states, events; }
        if p.callback(o.second.value) { return Some(Found), passes, states, events; }
      }
      passes := passes + 1;
    }
    outcome := None;
  }

  lemma Begin(p: Params, start: Buffer) returns (states: seq<State>, events: seq<Event>)
    ensures Run(p, states, events) && states[0].buffer == start && Last(states).pc == Poll && Last(states).passes == 0
  {
    states, events := [State(start, Poll, false, false, 0, 0, [], None)], [];
  }
}
