/** Concurrent calls to one provider, as interleaved thread steps over a monotone clock. */
module LlmCalls {
  import opened Text
  import opened CircuitBreaker

  type Tid = nat

  datatype Failure = RateLimit(retryable: bool) | Transient | Fatal

  datatype Outcome = Returned | RejectedOpen | CircuitOpened | Exhausted | NotRetried

  /** Where a call is in its code. */
  datatype Pc =
    | Waiting
    | Permitted
    | Locked
    | ClockRead(now: real)
    | Reserved(delay: real)
    | Sleeping(wake: real)
    | Ready(attempt: nat)
    | InCall(attempt: nat)
    | BackingOff(attempt: nat, wake: real)
    | Finished(outcome: Outcome)

  /** `metOpen`: the circuit was open when the call came in; `slot`: the number of its reservation;
      `first`: when it first invoked the provider. */
  datatype Call = Call(
    pc: Pc, metOpen: bool, invocations: nat, maxAttempts: nat, slot: Option<nat>, first: Option<real>)

  datatype State = State(
    clock: real,
    permits: nat,
    lock: Option<Tid>,
    provider: Provider,
    calls: map<Tid, Call>,
    slots: seq<real>,
    history429: seq<real>)

  datatype Action =
    | Tick(to: real)
    | Enter(maxAttempts: nat)
    | Acquire
    | TakeLock
    | ReadClock
    | ReserveAndUnlock
    | Proceed
    | Wake
    | Invoke
    | Succeed
    | Fail(failure: Failure, backoff: real)

  function Init(cfg: Config, clock: real): State { State(clock, cfg.permits, None, FRESH, map[], [], []) }

  predicate HoldsPermit(c: Call) { !c.pc.Waiting? && !c.pc.Finished? }

  predicate InLock(c: Call) { c.pc.Locked? || c.pc.ClockRead? }

  function Move(s: State, t: Tid, pc: Pc): State
    requires t in s.calls
  {
    s.(calls := s.calls[t := s.calls[t].(pc := pc)])
  }

  /** Leaving the `with` block gives the permit back, on return and on every raise. */
  function Leave(s: State, t: Tid, outcome: Outcome): State
    requires t in s.calls
  {
    Move(s, t, Finished(outcome)).(permits := s.permits + 1)
  }

  /** A rate limit is recorded with the breaker. */
  function Record(cfg: Config, s: State): State
  {
    s.(provider := Open(s.provider, s.clock, cfg).0, history429 := s.history429 + [s.clock])
  }

  /** The rest of the exception handler: raise, or back off and try again. */
  function Settle(s: State, t: Tid, failure: Failure, seconds: int, backoff: real): State
    requires t in s.calls && s.calls[t].pc.InCall?
  {
    var c := s.calls[t];
    if seconds != 0 then Leave(s, t, CircuitOpened)
    else if failure.Fatal? || (failure.RateLimit? && !failure.retryable) then Leave(s, t, NotRetried)
    else if c.pc.attempt >= c.maxAttempts then Leave(s, t, Exhausted)
    else Move(s, t, BackingOff(c.pc.attempt, s.clock + backoff))
  }

  /** The exception handler of the retry loop. */
  function Handle(cfg: Config, s: State, t: Tid, failure: Failure, backoff: real): State
    requires t in s.calls && s.calls[t].pc.InCall?
  {
    if failure.RateLimit? then Settle(Record(cfg, s), t, failure, Open(s.provider, s.clock, cfg).1, backoff)
    else Settle(s, t, failure, 0, backoff)
  }

  function EnterCall(s: State, t: Tid, maxAttempts: nat): State
  {
    var open := IsOpen(s.provider, s.clock);
    var pc := if open then Finished(RejectedOpen) else Waiting;
    s.(calls := s.calls[t := Call(pc, open, 0, Max(1, maxAttempts), None, None)])
  }

  function ReserveSlot(cfg: Config, s: State, t: Tid): State
    requires t in s.calls && s.calls[t].pc.ClockRead?
  {
    var now := s.calls[t].pc.now;
    s.(calls := s.calls[t := s.calls[t].(pc := Reserved(RMax(0.0, s.provider.nextAllowedAt - now)),
        slot := Some(|s.slots|))],
       lock := None, provider := Reserve(s.provider, now, cfg), slots := s.slots + [SlotAt(s.provider, now)])
  }

  function InvokeProvider(s: State, t: Tid): State
    requires t in s.calls && s.calls[t].pc.Ready?
  {
    var c := s.calls[t];
    s.(calls := s.calls[t := c.(
      pc := InCall(c.pc.attempt + 1), invocations := c.invocations + 1,
      first := if c.first.None? then Some(s.clock) else c.first)])
  }

  /** When a sleeping or backing-off call may go on, and where it then is. */
  function AfterWake(pc: Pc): Pc
    requires pc.Sleeping? || pc.BackingOff?
  {
    if pc.Sleeping? then Ready(0) else Ready(pc.attempt)
  }

  predicate Enabled(s: State, t: Tid, a: Action)
  {
    if a.Tick? then a.to >= s.clock
    else if a.Enter? then t !in s.calls
    else
      t in s.calls &&
      var pc := s.calls[t].pc;
      match a
      case Acquire => pc.Waiting? && s.permits > 0
      case TakeLock => pc.Permitted? && s.lock.None?
      case ReadClock => pc.Locked?
      case ReserveAndUnlock => pc.ClockRead?
      case Proceed => pc.Reserved?
      case Wake => (pc.Sleeping? || pc.BackingOff?) && s.clock >= pc.wake
      case Invoke => pc.Ready?
      case Succeed => pc.InCall?
      case Fail(_, _) => pc.InCall?
      case _ => false
  }

  /** One atomic step of call `t`, or of the clock. */
  function Step(cfg: Config, s: State, t: Tid, a: Action): State
    requires Enabled(s, t, a)
  {
    match a
    case Tick(to) => s.(clock := to)
    case Enter(maxAttempts) => EnterCall(s, t, maxAttempts)
    case Acquire => Move(s, t, Permitted).(permits := s.permits - 1)
    case TakeLock => Move(s, t, Locked).(lock := Some(t))
    case ReadClock => Move(s, t, ClockRead(s.clock))
    case ReserveAndUnlock => ReserveSlot(cfg, s, t)
    case Proceed =>
      var pc := s.calls[t].pc;
      Move(s, t, if pc.delay > 0.0 then Sleeping(s.clock + pc.delay) else Ready(0))
    case Wake => Move(s, t, AfterWake(s.calls[t].pc))
    case Invoke => InvokeProvider(s, t)
    case Succeed => Leave(s, t, Returned)
    case Fail(failure, backoff) => Handle(cfg, s, t, failure, backoff)
  }

  /** A run from the initial state, if every step is enabled when its turn comes. */
  function Run(cfg: Config, clock: real, steps: seq<(Tid, Action)>): Option<State>
  {
    if steps == [] then Some(Init(cfg, clock))
    else
      match Run(cfg, clock, steps[..|steps| - 1])
      case None => None
      case Some(s) =>
        var (t, a) := steps[|steps| - 1];
        if Enabled(s, t, a) then Some(Step(cfg, s, t, a)) else None
  }

  // ---------- what every step keeps ----------

  ghost function Holders(s: State): set<Tid> { set t | t in s.calls && HoldsPermit(s.calls[t]) }

  ghost predicate PermitsConserved(cfg: Config, s: State) { s.permits + |Holders(s)| == cfg.permits }

  ghost predicate LockExclusive(s: State)
  {
    && (s.lock.Some? ==> s.lock.value in s.calls)
    && forall t :: t in s.calls ==> (InLock(s.calls[t]) <==> s.lock == Some(t))
  }

  /** Successive slots are at least the interval apart; the next one cannot come sooner. */
  ghost predicate Spaced(slots: seq<real>, interval: real)
  {
    forall i :: 0 <= i < |slots| - 1 ==> slots[i + 1] >= slots[i] + interval
  }

  ghost predicate SlotsSpaced(cfg: Config, s: State)
  {
    && Spaced(s.slots, cfg.interval)
    && (s.slots != [] ==> s.provider.nextAllowedAt == s.slots[|s.slots| - 1] + cfg.interval)
  }

  /** What a call's position says about its slot, the clock and its invocations. */
  ghost predicate CallOk(s: State, c: Call)
  {
    && c.maxAttempts >= 1 && c.invocations <= c.maxAttempts
    && (c.metOpen ==> c.pc == Finished(RejectedOpen) && c.invocations == 0)
    && (c.invocations == 0 <==> c.first.None?)
    && (c.slot.Some? ==> c.slot.value < |s.slots|)
    && (c.first.Some? ==> c.slot.Some? && s.slots[c.slot.value] <= c.first.value <= s.clock)
    && match c.pc
       case ClockRead(now) => now <= s.clock && c.invocations == 0 && c.slot.None?
       case Reserved(delay) => c.slot.Some? && s.slots[c.slot.value] <= s.clock + delay && delay >= 0.0 &&
           c.invocations == 0
       case Sleeping(wake) => c.slot.Some? && s.slots[c.slot.value] <= wake && c.invocations == 0
       case Ready(attempt) =>
         c.slot.Some? && c.invocations == attempt < c.maxAttempts && (attempt == 0 ==> s.slots[c.slot.value] <= s.clock)
       case InCall(attempt) => c.slot.Some? && c.invocations == attempt && attempt >= 1
       case BackingOff(attempt, _) => c.slot.Some? && c.invocations == attempt < c.maxAttempts && attempt >= 1
       case Finished(_) => true
       case _ => c.invocations == 0 && c.slot.None?
  }

  ghost predicate CallsOk(s: State) { forall t :: t in s.calls ==> CallOk(s, s.calls[t]) }

  /** No two calls hold the same slot. */
  ghost predicate SlotsOwned(s: State)
  {
    forall t, u :: t in s.calls && u in s.calls && t != u && s.calls[t].slot.Some? ==>
        s.calls[t].slot != s.calls[u].slot
  }

  /** The pruned times are exactly those of the whole history within the window of the latest 429. */
  ghost predicate BreakerExact(cfg: Config, s: State)
  {
    && Sorted(s.history429)
    && (forall i :: 0 <= i < |s.history429| ==> s.history429[i] <= s.clock)
    && s.provider.recent429 ==
       if s.history429 == [] then [] else Within(s.history429, s.history429[|s.history429| - 1], cfg.window)
  }

  ghost predicate Inv(cfg: Config, s: State)
  {
    && PermitsConserved(cfg, s) && LockExclusive(s) && SlotsSpaced(cfg, s) && CallsOk(s) && SlotsOwned(s)
    && BreakerExact(cfg, s)
  }

  // ---------- preservation ----------

  lemma MovedHolders(s: State, s': State, t: Tid, c: Call)
    requires s'.calls == s.calls[t := c]
    ensures Holders(s') == (Holders(s) - {t}) + if HoldsPermit(c) then {t} else {}
  {
  }

  /** Enough for permits and lock: one call moves, and takes or returns what its position says. */
  lemma MovePermits(cfg: Config, s: State, s': State, t: Tid, c: Call)
    requires PermitsConserved(cfg, s) && s'.calls == s.calls[t := c]
    requires var before := t in s.calls && HoldsPermit(s.calls[t]);
             s'.permits == s.permits + (if before then 1 else 0) - (if HoldsPermit(c) then 1 else 0)
    ensures PermitsConserved(cfg, s')
  {
    hide HoldsPermit;
    MovedHolders(s, s', t, c);
    assert t in Holders(s) <==> t in s.calls && HoldsPermit(s.calls[t]);
  }

  lemma MoveLock(s: State, s': State, t: Tid, c: Call)
    requires LockExclusive(s) && s'.calls == s.calls[t := c]
    requires t in s.calls || s.lock != Some(t)
    requires s'.lock == s.lock || s.lock == Some(t) || (s.lock.None? && s'.lock == Some(t))
    requires InLock(c) <==> s'.lock == Some(t)
    requires s.lock == Some(t) && !InLock(c) ==> s'.lock.None?
    ensures LockExclusive(s')
  {
  }

  /** Calls other than the mover stay in order: the clock only grows and slots are only appended. */
  lemma MoveCalls(s: State, s': State, t: Tid, c: Call)
    requires CallsOk(s) && s'.calls == s.calls[t := c] && CallOk(s', c)
    requires s.clock <= s'.clock && s.slots <= s'.slots
    ensures CallsOk(s')
  {
    forall u | u in s'.calls ensures CallOk(s', s'.calls[u]) {
      if u != t { OlderCallOk(s, s', s.calls[u]); }
    }
  }

  lemma OlderCallOk(s: State, s': State, c: Call)
    requires CallOk(s, c) && s.clock <= s'.clock && s.slots <= s'.slots
    ensures CallOk(s', c)
  {
  }

  lemma TickKeeps(cfg: Config, s: State, to: real)
    requires Inv(cfg, s) && to >= s.clock
    ensures Inv(cfg, s.(clock := to))
  {
    var s' := s.(clock := to);
    assert Holders(s') == Holders(s);
    forall u | u in s'.calls ensures CallOk(s', s'.calls[u]) { OlderCallOk(s, s', s.calls[u]); }
  }

  lemma ReserveKeeps(cfg: Config, s: State, t: Tid)
    requires ValidConfig(cfg) && Inv(cfg, s) && t in s.calls && s.calls[t].pc.ClockRead?
    ensures Inv(cfg, ReserveSlot(cfg, s, t))
  {
    hide Holders, BreakerExact;
    var now := s.calls[t].pc.now;
    var s' := ReserveSlot(cfg, s, t);
    MovePermits(cfg, s, s', t, s'.calls[t]);
    MoveLock(s, s', t, s'.calls[t]);
    assert CallOk(s, s.calls[t]);
    assert s'.slots[|s.slots|] == SlotAt(s.provider, now);
    MoveCalls(s, s', t, s'.calls[t]);
    forall i | 0 <= i < |s'.slots| - 1 ensures s'.slots[i + 1] >= s'.slots[i] + cfg.interval {
      if i < |s.slots| - 1 { assert s'.slots[i] == s.slots[i] && s'.slots[i + 1] == s.slots[i + 1]; }
    }
    SameBreaker(cfg, s, s');
  }

  lemma SameBreaker(cfg: Config, s: State, s': State)
    requires BreakerExact(cfg, s) && s'.history429 == s.history429 && s.clock <= s'.clock
    requires s'.provider.recent429 == s.provider.recent429
    ensures BreakerExact(cfg, s')
  {
  }

  predicate IsPlain(a: Action) { !a.Tick? && !a.ReserveAndUnlock? && !a.Fail? }

  /** The mover itself stays in order. */
  lemma PlainMoverOk(cfg: Config, s: State, t: Tid, a: Action)
    requires CallsOk(s) && Enabled(s, t, a) && IsPlain(a)
    ensures var s' := Step(cfg, s, t, a);
            t in s'.calls && s'.calls == s.calls[t := s'.calls[t]] && CallOk(s', s'.calls[t])
    ensures var s' := Step(cfg, s, t, a);
            && s'.clock == s.clock && s'.slots == s.slots && s'.history429 == s.history429
            && s'.provider == s.provider
    ensures SlotsOwned(s) ==> SlotsOwned(Step(cfg, s, t, a))
  {
    if t in s.calls { assert CallOk(s, s.calls[t]); }
  }

  lemma PlainResources(cfg: Config, s: State, t: Tid, a: Action)
    requires LockExclusive(s) && Enabled(s, t, a) && IsPlain(a)
    ensures var s' := Step(cfg, s, t, a);
            && t in s'.calls && s'.calls == s.calls[t := s'.calls[t]]
            && s'.permits == s.permits + (if t in s.calls && HoldsPermit(s.calls[t]) then 1 else 0) -
                             (if HoldsPermit(s'.calls[t]) then 1 else 0)
            && LockExclusive(s')
  {
    var s' := Step(cfg, s, t, a);
    MoveLock(s, s', t, s'.calls[t]);
  }

  /** The steps of a single call that touch neither slots nor breaker. */
  lemma PlainStepKeeps(cfg: Config, s: State, t: Tid, a: Action)
    requires ValidConfig(cfg) && Inv(cfg, s) && Enabled(s, t, a) && IsPlain(a)
    ensures Inv(cfg, Step(cfg, s, t, a))
  {
    hide Step, Enabled, Holders, BreakerExact, CallOk, HoldsPermit, InLock;
    var s' := Step(cfg, s, t, a);
    PlainMoverOk(cfg, s, t, a);
    PlainResources(cfg, s, t, a);
    MovePermits(cfg, s, s', t, s'.calls[t]);
    MoveCalls(s, s', t, s'.calls[t]);
    SameBreaker(cfg, s, s');
  }

  lemma OpenExact(cfg: Config, s: State)
    requires BreakerExact(cfg, s)
    ensures Prune(s.provider.recent429 + [s.clock], s.clock, cfg.window) ==
            Within(s.history429 + [s.clock], s.clock, cfg.window)
  {
    var h := s.history429;
    if h == [] {
      PruneRefinesHistory([], s.clock, s.clock, cfg.window);
    } else {
      PruneRefinesHistory(h, h[|h| - 1], s.clock, cfg.window);
    }
  }

  lemma RecordKeeps(cfg: Config, s: State)
    requires Inv(cfg, s)
    ensures Inv(cfg, Record(cfg, s))
  {
    hide Prune, Within;
    var s' := Record(cfg, s);
    OpenExact(cfg, s);
    assert Holders(s') == Holders(s);
    forall u | u in s'.calls ensures CallOk(s', s'.calls[u]) { OlderCallOk(s, s', s.calls[u]); }
  }

  lemma SettleMover(s: State, t: Tid, failure: Failure, seconds: int, backoff: real)
    requires CallsOk(s) && LockExclusive(s) && t in s.calls && s.calls[t].pc.InCall?
    ensures var s' := Settle(s, t, failure, seconds, backoff);
            && t in s'.calls && s'.calls == s.calls[t := s'.calls[t]] && CallOk(s', s'.calls[t])
            && s'.clock == s.clock && s'.slots == s.slots && s'.history429 == s.history429 && s'.provider == s.provider
            && s'.permits == s.permits + 1 - (if HoldsPermit(s'.calls[t]) then 1 else 0)
            && s'.calls[t].slot == s.calls[t].slot && s'.lock == s.lock && !InLock(s'.calls[t])
  {
    assert CallOk(s, s.calls[t]);
  }

  lemma SettleKeeps(cfg: Config, s: State, t: Tid, failure: Failure, seconds: int, backoff: real)
    requires Inv(cfg, s) && t in s.calls && s.calls[t].pc.InCall?
    ensures Inv(cfg, Settle(s, t, failure, seconds, backoff))
  {
    hide Settle, Holders, BreakerExact, CallOk;
    var s' := Settle(s, t, failure, seconds, backoff);
    SettleMover(s, t, failure, seconds, backoff);
    MovePermits(cfg, s, s', t, s'.calls[t]);
    MoveLock(s, s', t, s'.calls[t]);
    MoveCalls(s, s', t, s'.calls[t]);
    SameBreaker(cfg, s, s');
  }

  lemma StepKeeps(cfg: Config, s: State, t: Tid, a: Action)
    requires ValidConfig(cfg) && Inv(cfg, s) && Enabled(s, t, a)
    ensures Inv(cfg, Step(cfg, s, t, a))
  {
    hide Inv;
    match a
    case Tick(to) => TickKeeps(cfg, s, to);
    case ReserveAndUnlock => ReserveKeeps(cfg, s, t);
    case Fail(failure, backoff) =>
      RecordKeeps(cfg, s);
      SettleKeeps(cfg, if failure.RateLimit? then Record(cfg, s) else s, t, failure,
                  if failure.RateLimit? then Open(s.provider, s.clock, cfg).1 else 0, backoff);
    case _ => PlainStepKeeps(cfg, s, t, a);
  }

  /** In every interleaving: permits, lock, slots, calls and breaker are as `Inv` says. */
  lemma {:induction false} RunKeeps(cfg: Config, clock: real, steps: seq<(Tid, Action)>)
    requires ValidConfig(cfg) && Run(cfg, clock, steps).Some?
    ensures Inv(cfg, Run(cfg, clock, steps).value)
  {
    hide Step, Enabled;
    if steps == [] {
      assert Holders(Init(cfg, clock)) == {};
    } else {
      RunKeeps(cfg, clock, steps[..|steps| - 1]);
      StepKeeps(cfg, Run(cfg, clock, steps[..|steps| - 1]).value, steps[|steps| - 1].0, steps[|steps| - 1].1);
    }
  }

  // ---------- what a caller sees ----------

  ghost function InFlight(s: State): set<Tid> { set t | t in s.calls && s.calls[t].pc.InCall? }

  lemma SubsetSize<T>(a: set<T>, b: set<T>)
    requires a <= b
    ensures |a| <= |b|
  {
    assert b == a + (b - a) && a !! (b - a);
  }

  /** Never more calls in flight than permits; once every call is over all permits are back. */
  lemma ConcurrencyBounded(cfg: Config, clock: real, steps: seq<(Tid, Action)>)
    requires ValidConfig(cfg) && Run(cfg, clock, steps).Some?
    ensures var s := Run(cfg, clock, steps).value;
            && |InFlight(s)| <= cfg.permits
            && ((forall t :: t in s.calls ==> s.calls[t].pc.Finished?) ==> s.permits == cfg.permits && s.lock.None?)
  {
    hide Run, CallsOk, SlotsOwned, BreakerExact;
    RunKeeps(cfg, clock, steps);
    var s := Run(cfg, clock, steps).value;
    SubsetSize(InFlight(s), Holders(s));
    if forall t :: t in s.calls ==> s.calls[t].pc.Finished? { assert Holders(s) == {}; }
  }

  /** A call that came in while the circuit was open never invokes the provider; every other call's
      first attempt waits for its own slot, and attempts are bounded. */
  lemma AttemptsDisciplined(cfg: Config, clock: real, steps: seq<(Tid, Action)>, t: Tid)
    requires ValidConfig(cfg) && Run(cfg, clock, steps).Some?
    requires t in Run(cfg, clock, steps).value.calls
    ensures var s := Run(cfg, clock, steps).value;
            var c := s.calls[t];
            && (c.metOpen ==> c.invocations == 0 && c.pc == Finished(RejectedOpen))
            && c.invocations <= c.maxAttempts
            && (c.invocations > 0 ==>
                  && c.first.Some? && c.slot.Some? && c.slot.value < |s.slots|
                  && s.slots[c.slot.value] <= c.first.value
                  && forall u :: u in s.calls && u != t ==> s.calls[u].slot != c.slot)
  {
    hide Run, PermitsConserved, LockExclusive, SlotsSpaced, BreakerExact;
    RunKeeps(cfg, clock, steps);
    assert CallOk(Run(cfg, clock, steps).value, Run(cfg, clock, steps).value.calls[t]);
  }

  /** How many of the slots lie in the window of length `length` that begins at `start`. */
  ghost function CountWithin(slots: seq<real>, start: real, length: real): nat
  {
    if slots == [] then 0
    else
      var last := slots[|slots| - 1];
      CountWithin(slots[..|slots| - 1], start, length) + if start <= last <= start + length then 1 else 0
  }

  /** `n` intervals laid end to end. */
  ghost function Gaps(n: nat, interval: real): real { if n == 0 then 0.0 else Gaps(n - 1, interval) + interval }

  lemma {:induction false} GapsIsProduct(n: nat, interval: real)
    ensures Gaps(n, interval) == n as real * interval
  {
    if n > 0 {
      GapsIsProduct(n - 1, interval);
      assert n as real * interval == (n - 1) as real * interval + interval;
    }
  }

  lemma {:induction false} SpacedCount(slots: seq<real>, interval: real, start: real, length: real)
    requires Spaced(slots, interval) && interval >= 0.0
    ensures var n := CountWithin(slots, start, length);
            && (n >= 1 ==> Gaps(n - 1, interval) <= length && slots[|slots| - 1] >= start)
            && (n >= 1 && slots[|slots| - 1] <= start + length ==> slots[|slots| - 1] >= start + Gaps(n - 1, interval))
  {
    if slots != [] {
      var init := slots[..|slots| - 1];
      assert forall i :: 0 <= i < |init| ==> init[i] == slots[i];
      SpacedCount(init, interval, start, length);
      if init != [] { assert slots[|init| - 1 + 1] >= slots[|init| - 1] + interval; }
    }
  }

  /** Any time window of length W holds at most W/m + 1 slots. */
  lemma SlotsInWindow(cfg: Config, clock: real, steps: seq<(Tid, Action)>, start: real, length: real)
    requires ValidConfig(cfg) && Run(cfg, clock, steps).Some? && cfg.interval > 0.0 && length >= 0.0
    ensures CountWithin(Run(cfg, clock, steps).value.slots, start, length) as real <= length / cfg.interval + 1.0
  {
    hide Run, PermitsConserved, LockExclusive, CallsOk, SlotsOwned, BreakerExact;
    RunKeeps(cfg, clock, steps);
    var slots := Run(cfg, clock, steps).value.slots;
    SpacedCount(slots, cfg.interval, start, length);
    var n := CountWithin(slots, start, length);
    if n >= 1 {
      GapsIsProduct(n - 1, cfg.interval);
      DivideThrough((n - 1) as real, cfg.interval, length);
    } else {
      DivideThrough(0.0, cfg.interval, length);
    }
  }

  lemma DivideThrough(x: real, m: real, length: real)
    requires m > 0.0 && x * m <= length
    ensures x <= length / m
  {
    var q := length / m;
    assert q * m == length;
    if x > q { assert (x - q) * m > 0.0; }
  }

  /** After any run, a rate-limited failure opens the circuit iff the 429s of the whole history
      within the window, this one included, reach the threshold. */
  lemma OpensIffEnoughRecent(cfg: Config, clock: real, steps: seq<(Tid, Action)>, t: Tid, retryable: bool,
      backoff: real)
    requires ValidConfig(cfg) && Run(cfg, clock, steps).Some?
    requires Enabled(Run(cfg, clock, steps).value, t, Fail(RateLimit(retryable), backoff))
    ensures var s := Run(cfg, clock, steps).value;
            var s' := Step(cfg, s, t, Fail(RateLimit(retryable), backoff));
            var recent := Within(s.history429 + [s.clock], s.clock, cfg.window);
            && s'.provider.recent429 == recent
            && s'.provider.openUntil ==
               (if |recent| >= cfg.threshold then s.clock + cfg.openSeconds as real else s.provider.openUntil)
            && (|recent| >= cfg.threshold && cfg.openSeconds != 0 ==> s'.calls[t].pc == Finished(CircuitOpened))
  {
    hide Run, PermitsConserved, LockExclusive, SlotsSpaced, CallsOk, SlotsOwned, Prune, Within;
    RunKeeps(cfg, clock, steps);
    OpenExact(cfg, Run(cfg, clock, steps).value);
  }

  /** The `i`th 429 reached the threshold together with those in the window before it. */
  predicate Tripped(cfg: Config, history: seq<real>, i: nat)
    requires i < |history|
  {
    |Within(history[..i + 1], history[i], cfg.window)| >= cfg.threshold
  }

  ghost predicate OpenedBy(cfg: Config, history: seq<real>, now: real)
  {
    exists i :: 0 <= i < |history| && Tripped(cfg, history, i) && now < history[i] + cfg.openSeconds as real
  }

  /** The time until which the circuit is open, read off the whole history. */
  ghost predicate RemembersTrips(cfg: Config, s: State)
  {
    forall now :: now >= 0.0 ==> (IsOpen(s.provider, now) <==> OpenedBy(cfg, s.history429, now))
  }

  lemma OpenedByAppend(cfg: Config, history: seq<real>, last: real, now: real)
    ensures OpenedBy(cfg, history + [last], now) <==>
            OpenedBy(cfg, history, now) ||
            (|Within(history + [last], last, cfg.window)| >= cfg.threshold && now < last + cfg.openSeconds as real)
  {
    hide Within;
    var all := history + [last];
    assert all[..|history| + 1] == all;
    forall i | 0 <= i < |history| ensures Tripped(cfg, all, i) == Tripped(cfg, history, i) {
      assert all[..i + 1] == history[..i + 1];
    }
    if OpenedBy(cfg, history, now) {
      var i :| 0 <= i < |history| && Tripped(cfg, history, i) && now < history[i] + cfg.openSeconds as real;
      assert Tripped(cfg, all, i) && all[i] == history[i];
    }
    if |Within(all, last, cfg.window)| >= cfg.threshold { assert Tripped(cfg, all, |history|); }
  }

  lemma RecordRemembers(cfg: Config, s: State)
    requires BreakerExact(cfg, s) && RemembersTrips(cfg, s)
    ensures RemembersTrips(cfg, Record(cfg, s))
  {
    hide Prune, Within, OpenedBy;
    OpenExact(cfg, s);
    var s' := Record(cfg, s);
    forall now | now >= 0.0 ensures IsOpen(s'.provider, now) <==> OpenedBy(cfg, s'.history429, now) {
      OpenedByAppend(cfg, s.history429, s.clock, now);
      if OpenedBy(cfg, s.history429, now) { OpenedBefore(cfg, s, now); }
      assert IsOpen(s.provider, now) <==> OpenedBy(cfg, s.history429, now);
    }
  }

  /** Earlier trips keep the circuit open no longer than one that happened now. */
  lemma OpenedBefore(cfg: Config, s: State, now: real)
    requires BreakerExact(cfg, s) && OpenedBy(cfg, s.history429, now)
    ensures now < s.clock + cfg.openSeconds as real
  {
  }

  lemma StepRemembers(cfg: Config, s: State, t: Tid, a: Action)
    requires BreakerExact(cfg, s) && RemembersTrips(cfg, s) && Enabled(s, t, a)
    ensures RemembersTrips(cfg, Step(cfg, s, t, a))
  {
    hide BreakerExact, OpenedBy;
    if a.Fail? && a.failure.RateLimit? {
      RecordRemembers(cfg, s);
      SameTrips(cfg, Record(cfg, s), Step(cfg, s, t, a));
    } else {
      SameTrips(cfg, s, Step(cfg, s, t, a));
    }
  }

  lemma SameTrips(cfg: Config, s: State, s': State)
    requires RemembersTrips(cfg, s)
    requires s'.provider.openUntil == s.provider.openUntil && s'.history429 == s.history429
    ensures RemembersTrips(cfg, s')
  {
    hide OpenedBy;
    forall now | now >= 0.0 ensures IsOpen(s'.provider, now) <==> OpenedBy(cfg, s'.history429, now) {
      assert IsOpen(s.provider, now) <==> OpenedBy(cfg, s.history429, now);
    }
  }

  /** After any run, the circuit is open at a moment iff some 429 of the whole history reached the
      threshold within its window less than the opening time before that moment. */
  lemma OpenIffTripped(cfg: Config, clock: real, steps: seq<(Tid, Action)>, now: real)
    requires ValidConfig(cfg) && Run(cfg, clock, steps).Some? && now >= 0.0
    ensures var s := Run(cfg, clock, steps).value;
            IsOpen(s.provider, now) <==> OpenedBy(cfg, s.history429, now)
  {
    hide Run, OpenedBy, IsOpen;
    RunRemembers(cfg, clock, steps);
  }

  lemma {:induction false} RunRemembers(cfg: Config, clock: real, steps: seq<(Tid, Action)>)
    requires ValidConfig(cfg) && Run(cfg, clock, steps).Some?
    ensures RemembersTrips(cfg, Run(cfg, clock, steps).value)
  {
    hide Step, Enabled, BreakerExact, PermitsConserved, LockExclusive, SlotsSpaced, CallsOk, SlotsOwned, RemembersTrips;
    if steps == [] {
      NothingTripped(cfg, clock);
    } else {
      var before := steps[..|steps| - 1];
      RunKeeps(cfg, clock, before);
      RunRemembers(cfg, clock, before);
      StepRemembers(cfg, Run(cfg, clock, before).value, steps[|steps| - 1].0, steps[|steps| - 1].1);
    }
  }

  lemma NothingTripped(cfg: Config, clock: real)
    ensures RemembersTrips(cfg, Init(cfg, clock))
  {
  }

  // ---------- the run tells how a call went ----------

  type Steps = seq<(Tid, Action)>

  /** The time after a run. */
  function ClockOf(clock: real, steps: Steps): real
  {
    if steps == [] then clock
    else if steps[|steps| - 1].1.Tick? then steps[|steps| - 1].1.to
    else ClockOf(clock, steps[..|steps| - 1])
  }

  /** The times of all rate-limited failures, oldest first. */
  function RateLimitTimes(clock: real, steps: Steps): seq<real>
  {
    if steps == [] then []
    else
      var before, a := steps[..|steps| - 1], steps[|steps| - 1].1;
      RateLimitTimes(clock, before) + if a.Fail? && a.failure.RateLimit? then [ClockOf(clock, before)] else []
  }

  /** How often call `t` invoked the provider. */
  function Invokes(steps: Steps, t: Tid): nat
  {
    if steps == [] then 0
    else Invokes(steps[..|steps| - 1], t) + if steps[|steps| - 1] == (t, Invoke) then 1 else 0
  }

  /** How often it may: at least once. */
  function Allowed(steps: Steps, t: Tid): nat
  {
    if steps == [] then 0
    else
      var (u, a) := steps[|steps| - 1];
      if u == t && a.Enter? then Max(1, a.maxAttempts) else Allowed(steps[..|steps| - 1], t)
  }

  /** A rate-limited failure now opens the circuit, for some time. */
  predicate OpensNow(cfg: Config, times: seq<real>, now: real)
  {
    cfg.openSeconds != 0 && |Within(times + [now], now, cfg.window)| >= cfg.threshold
  }

  predicate Retryable(failure: Failure) { failure.Transient? || (failure.RateLimit? && failure.retryable) }

  /** How the step ends its call, if it does: `tries` invocations have been made of `most`. */
  function EndBy(cfg: Config, open: bool, times: seq<real>, now: real, tries: nat, most: nat,
      a: Action): Option<Outcome>
  {
    match a
    case Enter(_) => if open then Some(RejectedOpen) else None
    case Succeed => Some(Returned)
    case Fail(failure, _) =>
      if failure.RateLimit? && OpensNow(cfg, times, now) then Some(CircuitOpened)
      else if !Retryable(failure) then Some(NotRetried)
      else if tries >= most then Some(Exhausted)
      else None
    case _ => None
  }

  /** How call `t` has ended, told by its last step. */
  function EndOf(cfg: Config, clock: real, steps: Steps, t: Tid): Option<Outcome>
  {
    if steps == [] || Run(cfg, clock, steps[..|steps| - 1]).None? then None
    else
      var before := steps[..|steps| - 1];
      var (u, a) := steps[|steps| - 1];
      if u != t || a.Tick? then EndOf(cfg, clock, before, t)
      else
        EndBy(cfg, IsOpen(Run(cfg, clock, before).value.provider, ClockOf(clock, before)),
            RateLimitTimes(clock, before),
              ClockOf(clock, before), Invokes(before, t), Allowed(before, t), a)
  }

  lemma StepTimes(cfg: Config, s: State, t: Tid, a: Action)
    requires Enabled(s, t, a)
    ensures var s' := Step(cfg, s, t, a);
            && s'.clock == (if a.Tick? then a.to else s.clock)
            && s'.history429 == s.history429 + if a.Fail? && a.failure.RateLimit? then [s.clock] else []
  {
  }

  /** Clock and history are what the run's own steps make them. */
  lemma {:induction false} RunTimes(cfg: Config, clock: real, steps: Steps)
    requires Run(cfg, clock, steps).Some?
    ensures Run(cfg, clock, steps).value.clock == ClockOf(clock, steps)
    ensures Run(cfg, clock, steps).value.history429 == RateLimitTimes(clock, steps)
  {
    hide Enabled, Step;
    if steps != [] {
      var before, last := steps[..|steps| - 1], steps[|steps| - 1];
      RunTimes(cfg, clock, before);
      StepTimes(cfg, Run(cfg, clock, before).value, last.0, last.1);
    }
  }

  /** A call against what the run says about it. */
  predicate ToldBy(c: Call, tries: nat, most: nat, end: Option<Outcome>)
  {
    c.invocations == tries && c.maxAttempts == most &&
        (if end.Some? then c.pc == Finished(end.value) else !c.pc.Finished?)
  }

  lemma OthersStay(cfg: Config, s: State, u: Tid, a: Action, t: Tid)
    requires Enabled(s, u, a) && (u != t || a.Tick?)
    ensures t in Step(cfg, s, u, a).calls <==> t in s.calls
    ensures t in s.calls ==> Step(cfg, s, u, a).calls[t] == s.calls[t]
  {
  }

  lemma FailTold(cfg: Config, s: State, t: Tid, a: Action)
    requires Inv(cfg, s) && Enabled(s, t, a) && a.Fail?
    ensures var c := s.calls[t];
            var end := EndBy(cfg, IsOpen(s.provider, s.clock), s.history429, s.clock, c.invocations, c.maxAttempts, a);
            && t in Step(cfg, s, t, a).calls
            && ToldBy(Step(cfg, s, t, a).calls[t], c.invocations, c.maxAttempts, end)
            && (end.None? ==> Step(cfg, s, t, a).calls[t].pc == BackingOff(c.invocations, s.clock + a.backoff))
  {
    hide PermitsConserved, LockExclusive, SlotsSpaced, SlotsOwned, Prune, Within, BreakerExact;
    OpenExact(cfg, s);
    assert CallOk(s, s.calls[t]);
  }

  lemma OwnStepTold(cfg: Config, s: State, t: Tid, a: Action)
    requires Enabled(s, t, a) && !a.Tick? && !a.Fail? && !a.Enter?
    ensures var c := s.calls[t];
            && t in Step(cfg, s, t, a).calls
            && ToldBy(Step(cfg, s, t, a).calls[t], c.invocations + (if a.Invoke? then 1 else 0), c.maxAttempts,
                      if a.Succeed? then Some(Returned) else None)
  {
  }

  lemma StepTold(cfg: Config, s: State, t: Tid, a: Action, tries: nat, most: nat, end: Option<Outcome>)
    requires Inv(cfg, s) && Enabled(s, t, a) && !a.Tick?
    requires if t in s.calls then ToldBy(s.calls[t], tries, most, end) else tries == 0
    ensures var s' := Step(cfg, s, t, a);
            && t in s'.calls
            && ToldBy(s'.calls[t], tries + (if a.Invoke? then 1 else 0), if a.Enter? then Max(1, a.maxAttempts)
                else most,
                      EndBy(cfg, IsOpen(s.provider, s.clock), s.history429, s.clock, tries, most, a))
  {
    hide Inv, OpensNow;
    if a.Fail? {
      FailTold(cfg, s, t, a);
    } else if !a.Enter? {
      hide Step;
      OwnStepTold(cfg, s, t, a);
    }
  }

  /** What every run tells about a call: its invocations and their limit, whether it is over, and how. */
  lemma {:induction false} RunTells(cfg: Config, clock: real, steps: Steps, t: Tid)
    requires ValidConfig(cfg) && Run(cfg, clock, steps).Some?
    ensures var s := Run(cfg, clock, steps).value;
            if t in s.calls then ToldBy(s.calls[t], Invokes(steps, t), Allowed(steps, t), EndOf(cfg, clock, steps, t))
            else Invokes(steps, t) == 0 && EndOf(cfg, clock, steps, t).None?
  {
    hide Step, Inv, ToldBy, EndBy, IsOpen;
    if steps != [] {
      var before := steps[..|steps| - 1];
      var (u, a) := steps[|steps| - 1];
      var s := Run(cfg, clock, before).value;
      RunTells(cfg, clock, before, t);
      if u != t || a.Tick? {
        OthersStay(cfg, s, u, a, t);
      } else {
        RunTimes(cfg, clock, before);
        RunKeeps(cfg, clock, before);
        StepTold(cfg, s, t, a, Invokes(before, t), Allowed(before, t), EndOf(cfg, clock, before, t));
      }
    }
  }

  /** A retryable failure that opens no circuit ends the call iff the invocations allowed are used up;
      below that the call backs off and may invoke the provider again. */
  lemma RetriedBelowLimit(cfg: Config, clock: real, steps: Steps, t: Tid, failure: Failure, backoff: real)
    requires ValidConfig(cfg) && Run(cfg, clock, steps).Some? && Retryable(failure)
    requires Enabled(Run(cfg, clock, steps).value, t, Fail(failure, backoff))
    requires failure.RateLimit? ==> !OpensNow(cfg, RateLimitTimes(clock, steps), ClockOf(clock, steps))
    ensures var pc := Step(cfg, Run(cfg, clock, steps).value, t, Fail(failure, backoff)).calls[t].pc;
            && Invokes(steps, t) <= Allowed(steps, t)
            && pc == if Invokes(steps, t) == Allowed(steps, t) then Finished(Exhausted)
                     else BackingOff(Invokes(steps, t), ClockOf(clock, steps) + backoff)
  {
    hide Run, Step, OpensNow;
    var s := Run(cfg, clock, steps).value;
    RunTells(cfg, clock, steps, t);
    RunTimes(cfg, clock, steps);
    RunKeeps(cfg, clock, steps);
    assert CallOk(s, s.calls[t]);
    hide Inv;
    FailTold(cfg, s, t, Fail(failure, backoff));
  }

  /** A call gives up as exhausted only after as many invocations as allowed. */
  lemma ExhaustedUsedAll(cfg: Config, clock: real, steps: Steps, t: Tid)
    requires ValidConfig(cfg) && Run(cfg, clock, steps).Some? && t in Run(cfg, clock, steps).value.calls
    requires Run(cfg, clock, steps).value.calls[t].pc == Finished(Exhausted)
    ensures Invokes(steps, t) == Allowed(steps, t)
  {
    hide Run, EndOf, Inv;
    RunTells(cfg, clock, steps, t);
    ExhaustedEnds(cfg, clock, steps, t);
  }

  lemma {:induction false} ExhaustedEnds(cfg: Config, clock: real, steps: Steps, t: Tid)
    requires ValidConfig(cfg) && Run(cfg, clock, steps).Some? && EndOf(cfg, clock, steps, t) == Some(Exhausted)
    ensures Invokes(steps, t) == Allowed(steps, t)
  {
    hide Step, Inv, IsOpen, OpensNow, Enabled;
    var before := steps[..|steps| - 1];
    var (u, a) := steps[|steps| - 1];
    if u != t || a.Tick? {
      ExhaustedEnds(cfg, clock, before, t);
    } else {
      RunTells(cfg, clock, before, t);
      RunKeeps(cfg, clock, before);
      AttemptsLimited(cfg, Run(cfg, clock, before).value, t);
      FailsOnlyInCall(Run(cfg, clock, before).value, t, a);
    }
  }

  lemma FailsOnlyInCall(s: State, t: Tid, a: Action)
    requires Enabled(s, t, a) && a.Fail?
    ensures t in s.calls
  {
  }

  lemma AttemptsLimited(cfg: Config, s: State, t: Tid)
    requires Inv(cfg, s)
    ensures t in s.calls ==> s.calls[t].invocations <= s.calls[t].maxAttempts
  {
    if t in s.calls { assert CallOk(s, s.calls[t]); }
  }
}
