/** The mutable state kept per provider: the slot reservation and the sliding-window breaker. */
module CircuitBreaker {

  datatype Config = Config(
    permits: nat,
    interval: real,
    threshold: int,
    window: real,
    openSeconds: int)

  ghost predicate ValidConfig(cfg: Config) { cfg.permits >= 1 && cfg.interval >= 0.0 }

  // ---------- the window ----------

  function RMax(a: real, b: real): real { if a >= b then a else b }

  /** The times of `history` no further than `window` before `now`. */
  function Within(history: seq<real>, now: real, window: real): seq<real>
  {
    if history == [] then []
    else
      var last := history[|history| - 1];
      Within(history[..|history| - 1], now, window) + if now - last <= window then [last] else []
  }

  /** The window is closed: it keeps a time iff that is at most `window` before now. */
  lemma {:induction false} WithinIff(history: seq<real>, now: real, window: real, t: real)
    ensures t in Within(history, now, window) <==> t in history && now - t <= window
  {
    if history != [] {
      WithinIff(history[..|history| - 1], now, window, t);
      assert history == history[..|history| - 1] + [history[|history| - 1]];
    }
  }

  /** Times that all lie in the window are all kept, in order. */
  lemma {:induction false} WithinAll(history: seq<real>, now: real, window: real)
    requires forall i :: 0 <= i < |history| ==> now - history[i] <= window
    ensures Within(history, now, window) == history
  {
    if history != [] {
      WithinAll(history[..|history| - 1], now, window);
      assert history == history[..|history| - 1] + [history[|history| - 1]];
    }
  }

  /** Drops old entries from the front, as the loop over `popleft` does. */
  function Prune(times: seq<real>, now: real, window: real): seq<real>
  {
    if times != [] && now - times[0] > window then Prune(times[1..], now, window) else times
  }

  ghost predicate Sorted(times: seq<real>) { forall i, j :: 0 <= i < j < |times| ==> times[i] <= times[j] }

  /** On sorted times, dropping the old front keeps exactly the recent ones. */
  lemma {:induction false} PruneIsWithin(times: seq<real>, now: real, window: real)
    requires Sorted(times)
    ensures Prune(times, now, window) == Within(times, now, window)
  {
    if times != [] {
      if now - times[0] > window {
        assert forall i, j :: 0 <= i < j < |times[1..]| ==>
            times[1..][i] == times[i + 1] && times[1..][j] == times[j + 1];
        PruneIsWithin(times[1..], now, window);
        WithinDropsHead(times, now, window);
      } else {
        AllWithin(times, now, window);
      }
    }
  }

  lemma {:induction false} WithinDropsHead(times: seq<real>, now: real, window: real)
    requires times != [] && now - times[0] > window
    ensures Within(times, now, window) == Within(times[1..], now, window)
  {
    if |times| > 1 {
      var init := times[..|times| - 1];
      WithinDropsHead(init, now, window);
      assert times[1..][..|times| - 2] == init[1..];
    }
  }

  lemma {:induction false} AllWithin(times: seq<real>, now: real, window: real)
    requires forall i :: 0 <= i < |times| ==> now - times[i] <= window
    ensures Within(times, now, window) == times
  {
    if times != [] {
      AllWithin(times[..|times| - 1], now, window);
      assert times[..|times| - 1] + [times[|times| - 1]] == times;
    }
  }

  /** What fell out of an earlier window is out of every later one. */
  lemma {:induction false} WithinLater(history: seq<real>, before: real, now: real, window: real)
    requires before <= now
    ensures Within(Within(history, before, window), now, window) == Within(history, now, window)
  {
    if history != [] {
      var init, last := history[..|history| - 1], history[|history| - 1];
      var kept := Within(init, before, window);
      WithinLater(init, before, now, window);
      if before - last <= window {
        assert (kept + [last])[..|kept|] == kept;
      } else {
        assert kept + [] == kept;
      }
    }
  }

  lemma {:induction false} WithinIsPart(history: seq<real>, now: real, window: real)
    ensures forall i :: 0 <= i < |Within(history, now, window)| ==> Within(history, now, window)[i] in history
    ensures Sorted(history) ==> Sorted(Within(history, now, window))
  {
    if history != [] {
      WithinIsPart(history[..|history| - 1], now, window);
      assert forall x :: x in history[..|history| - 1] ==> x in history;
      forall i | 0 <= i < |history| - 1 ensures history[i] == history[..|history| - 1][i] {}
    }
  }

  lemma WithinAppend(history: seq<real>, last: real, now: real, window: real)
    ensures Within(history + [last], now, window) ==
            Within(history, now, window) + if now - last <= window then [last] else []
  {
    assert (history + [last])[..|history|] == history;
  }

  /** Keeping only the recent times loses nothing: pruning them is filtering the whole history. */
  lemma PruneRefinesHistory(history: seq<real>, before: real, now: real, window: real)
    requires Sorted(history) && before <= now && (forall i :: 0 <= i < |history| ==> history[i] <= before)
    ensures Prune(Within(history, before, window) + [now], now, window) == Within(history + [now], now, window)
  {
    var kept := Within(history, before, window);
    WithinIsPart(history, before, window);
    assert Sorted(kept + [now]);
    PruneIsWithin(kept + [now], now, window);
    WithinAppend(kept, now, now, window);
    WithinAppend(history, now, now, window);
    WithinLater(history, before, now, window);
  }

  // ---------- the state and its operations ----------

  datatype Provider = Provider(nextAllowedAt: real, recent429: seq<real>, openUntil: real)

  const FRESH := Provider(0.0, [], 0.0)

  /** The slot a call that reads the clock at `now` gets. */
  function SlotAt(p: Provider, now: real): real { RMax(p.nextAllowedAt, now) }

  function Reserve(p: Provider, now: real, cfg: Config): Provider
  {
    p.(nextAllowedAt := SlotAt(p, now) + cfg.interval)
  }

  /** One more 429: the new state, and the seconds the circuit was opened for (0 if it was not). */
  function Open(p: Provider, now: real, cfg: Config): (Provider, int)
  {
    var recent := Prune(p.recent429 + [now], now, cfg.window);
    if |recent| >= cfg.threshold then
      (p.(recent429 := recent, openUntil := now + cfg.openSeconds as real), cfg.openSeconds)
    else (p.(recent429 := recent), 0)
  }

  predicate IsOpen(p: Provider, now: real) { now < p.openUntil }

  class ProviderState {
    const cfg: Config
    var nextAllowedAt: real
    var recent429: seq<real>
    var openUntil: real

    function State(): Provider
      reads this
    {
      Provider(nextAllowedAt, recent429, openUntil)
    }

    constructor (cfg: Config)
      ensures this.cfg == cfg && State() == FRESH
    {
      this.cfg := cfg;
      nextAllowedAt, recent429, openUntil := 0.0, [], 0.0;
    }

    method IsCircuitOpen(now: real) returns (open: bool)
      ensures open == IsOpen(State(), now)
    {
      return now < openUntil;
    }

    /** The critical section under the interval lock. */
    method ReserveSlot(now: real) returns (delay: real)
      modifies this
      ensures State() == Reserve(old(State()), now, cfg)
      ensures delay == RMax(0.0, old(nextAllowedAt) - now) && now + delay == SlotAt(old(State()), now)
    {
      delay := RMax(0.0, nextAllowedAt - now);
      nextAllowedAt := RMax(nextAllowedAt, now) + cfg.interval;
    }

    method OpenCircuit(now: real) returns (seconds: int)
      modifies this
      ensures (State(), seconds) == Open(old(State()), now, cfg)
    {
      recent429 := recent429 + [now];
      ghost var all := recent429;
      while recent429 != [] && now - recent429[0] > cfg.window
        invariant Prune(recent429, now, cfg.window) == Prune(all, now, cfg.window)
        invariant nextAllowedAt == old(nextAllowedAt) && openUntil == old(openUntil)
        decreases |recent429|
      {
        recent429 := recent429[1..];
      }
      if |recent429| >= cfg.threshold {
        openUntil := now + cfg.openSeconds as real;
        return cfg.openSeconds;
      }
      return 0;
    }
  }
}
