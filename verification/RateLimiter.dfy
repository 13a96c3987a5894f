/** The allocation rate limiter: a fixed window restarted by the first check after it has passed. */
module RateLimiter {
  import opened Bits

  datatype Config = Config(window: word, maxAllocs: word)

  datatype State = State(count: word, lastReset: word)

  predicate Resets(c: Config, s: State, now: word) {
    Elapsed(now, s.lastReset) >= c.window
  }

  function Step(c: Config, s: State, now: word): (r: (bool, State))
    requires s.count <= c.maxAllocs
    ensures r.1.count <= c.maxAllocs
  {
    var s1 := if Resets(c, s, now) then State(0, now) else s;
    if s1.count >= c.maxAllocs then (false, s1) else (true, s1.(count := s1.count + 1))
  }

  class Limiter {
    const config: Config
    var allocationCount: word
    var lastReset: word

    constructor (config: Config, now: word)
      ensures this.config == config && Current() == State(0, now)
    {
      this.config, allocationCount, lastReset := config, 0, now;
    }

    function Current(): State
      reads this
    {
      State(allocationCount, lastReset)
    }

    method Check(now: word) returns (granted: bool)
      requires allocationCount <= config.maxAllocs
      modifies this
      ensures allocationCount <= config.maxAllocs
      ensures (granted, Current()) == Step(config, old(Current()), now)
    {
      if Elapsed(now, lastReset) >= config.window {
        allocationCount := 0;
        lastReset := now;
      }
      if allocationCount >= config.maxAllocs {
        return false;
      }
      allocationCount := allocationCount + 1;
      return true;
    }
  }

  // ---- Runs ----

  /** The clock does not go back, from the last reset on. */
  predicate Advances(last: word, times: seq<word>)
    decreases |times|
  {
    times == [] || (last <= times[0] && Advances(times[0], times[1..]))
  }

  /** Grants of a run whose time lies in [lo, hi). */
  function Grants(c: Config, s: State, times: seq<word>, lo: nat, hi: nat): (n: nat)
    requires s.count <= c.maxAllocs
    decreases |times|
  {
    if times == [] then 0
    else
      var (granted, s1) := Step(c, s, times[0]);
      (if granted && lo <= times[0] < hi then 1 else 0) + Grants(c, s1, times[1..], lo, hi)
  }

  lemma {:induction false} AdvancesLater(last: word, later: word, times: seq<word>)
    requires Advances(later, times) && last <= later
    ensures Advances(last, times)
  {
  }

  /** A window that opened in the span is not over before the span is. */
  lemma {:induction false} AfterReset(c: Config, s: State, times: seq<word>, lo: nat)
    requires s.count <= c.maxAllocs && Advances(s.lastReset, times) && lo <= s.lastReset
    ensures Grants(c, s, times, lo, lo + c.window) <= c.maxAllocs - s.count
    decreases |times|
  {
    if times != [] {
      var now, s1 := times[0], Step(c, s, times[0]).1;
      AdvancesLater(s1.lastReset, now, times[1..]);
      if now < lo + c.window {
        AfterReset(c, s1, times[1..], lo);
      } else {
        NoneLater(c, s1, times[1..], lo, lo + c.window, now);
      }
    }
  }

  lemma {:induction false} NoneLater(c: Config, s: State, times: seq<word>, lo: nat, hi: nat, now: word)
    requires s.count <= c.maxAllocs && Advances(now, times) && hi <= now
    ensures Grants(c, s, times, lo, hi) == 0
    decreases |times|
  {
    if times != [] {
      NoneLater(c, Step(c, s, times[0]).1, times[1..], lo, hi, times[0]);
    }
  }

  /** From inside the span: what the open window still grants, and then one more window. */
  lemma {:induction false} BeforeReset(c: Config, s: State, times: seq<word>, lo: nat, now: word)
    requires s.count <= c.maxAllocs && Advances(s.lastReset, times) && Advances(now, times) && lo <= now
    ensures Grants(c, s, times, lo, lo + c.window) <= 2 * c.maxAllocs - s.count
    decreases |times|
  {
    if times != [] {
      var s1 := Step(c, s, times[0]).1;
      AdvancesLater(s1.lastReset, times[0], times[1..]);
      if Resets(c, s, times[0]) {
        AfterReset(c, s1, times[1..], lo);
      } else {
        BeforeReset(c, s1, times[1..], lo, times[0]);
      }
    }
  }

  /** In any span one window long, half open, at most twice the maximum is granted. */
  lemma {:induction false} SpanBound(c: Config, s: State, times: seq<word>, lo: nat)
    requires s.count <= c.maxAllocs && Advances(s.lastReset, times)
    ensures Grants(c, s, times, lo, lo + c.window) <= 2 * c.maxAllocs
    decreases |times|
  {
    if times != [] {
      if lo <= times[0] {
        BeforeReset(c, s, times, lo, times[0]);
      } else {
        var s1 := Step(c, s, times[0]).1;
        AdvancesLater(s1.lastReset, times[0], times[1..]);
        SpanBound(c, s1, times[1..], lo);
      }
    }
  }

  predicate NoReset(c: Config, s: State, times: seq<word>)
    requires s.count <= c.maxAllocs
    decreases |times|
  {
    times == [] || (!Resets(c, s, times[0]) && NoReset(c, Step(c, s, times[0]).1, times[1..]))
  }

  /** Between resets at most the maximum is granted, whatever the clock does. */
  lemma {:induction false} BetweenResets(c: Config, s: State, times: seq<word>)
    requires s.count <= c.maxAllocs && NoReset(c, s, times)
    ensures Grants(c, s, times, 0, U64) <= c.maxAllocs - s.count
    decreases |times|
  {
    if times != [] {
      BetweenResets(c, Step(c, s, times[0]).1, times[1..]);
    }
  }

  // ---- The bound is reached ----

  function Repeat(t: word, n: nat): seq<word> {
    seq(n, i => t)
  }

  lemma OneGranted(c: Config, s: State, t: word)
    requires s.count < c.maxAllocs && s.lastReset <= t && t - s.lastReset < c.window
    ensures Step(c, s, t) == (true, s.(count := s.count + 1))
  {
  }

  lemma {:induction false} AllGranted(c: Config, s: State, t: word, n: nat, rest: seq<word>, lo: nat, hi: nat)
    requires s.count + n <= c.maxAllocs && s.lastReset <= t && lo <= t < hi && t - s.lastReset < c.window
    ensures Grants(c, s, Repeat(t, n) + rest, lo, hi)
      == n + Grants(c, s.(count := s.count + n), rest, lo, hi)
    decreases n
  {
    if n == 0 {
      assert Repeat(t, n) + rest == rest;
    } else {
      hide Step;
      assert (Repeat(t, n) + rest)[1..] == Repeat(t, n - 1) + rest;
      OneGranted(c, s, t);
      AllGranted(c, s.(count := s.count + 1), t, n - 1, rest, lo, hi);
    }
  }

  /** The span bound is exact: all of a window's grants at its end, all of the next one's at its start. */
  lemma BoundReached(c: Config)
    requires 2 <= c.window && 1 <= c.maxAllocs && 2 * c.window < U64
    ensures var times := Repeat(c.window - 1, c.maxAllocs) + Repeat(c.window, c.maxAllocs);
      Grants(c, State(0, 0), times, c.window - 1, c.window - 1 + c.window) == 2 * c.maxAllocs
  {
    var w, n := c.window, c.maxAllocs;
    var lo, hi := w - 1, w - 1 + w;
    AllGranted(c, State(0, 0), w - 1, n, Repeat(w, n), lo, hi);
    var s, later := State(n, 0), Repeat(w, n);
    assert later[1..] + [] == Repeat(w, n - 1) + [];
    assert Step(c, s, later[0]) == (true, State(1, w));
    AllGranted(c, State(1, w), w, n - 1, [], lo, hi);
    assert later[1..] == Repeat(w, n - 1) + [];
  }

  /** A clock behind the last reset restarts the window: the bound needs a clock that does not go back. */
  lemma BackwardsResets(c: Config, s: State, now: word)
    requires now < s.lastReset && s.lastReset - now <= U64 - c.window && s.count <= c.maxAllocs && 0 < c.maxAllocs
    ensures Step(c, s, now) == (true, State(1, now))
  {
    assert Elapsed(now, s.lastReset) == U64 + now - s.lastReset;
  }

  /**
   With a clock that has not gone back: once the window has passed a check is granted and starts the count anew, whatever
   the count was; before, it is granted and counted exactly while the count is below the maximum.
   */
  lemma CheckExact(c: Config, s: State, now: word)
    requires s.count <= c.maxAllocs && s.lastReset <= now
    ensures now - s.lastReset >= c.window && c.maxAllocs > 0 ==> Step(c, s, now) == (true, State(1, now))
    ensures now - s.lastReset >= c.window && c.maxAllocs == 0 ==> Step(c, s, now) == (false, State(0, now))
    ensures now - s.lastReset < c.window ==>
      Step(c, s, now) == if s.count < c.maxAllocs then (true, State(s.count + 1, s.lastReset)) else (false, s)
  {
  }

  /** From a fresh window, as many checks as the maximum allows are granted before it ends, and no more. */
  lemma WindowServed(c: Config, start: word, t: word, n: nat)
    requires start <= t && t - start < c.window && n <= c.maxAllocs
    ensures Grants(c, State(0, start), Repeat(t, n), start, t + 1) == n
    ensures n == c.maxAllocs ==> Grants(c, State(0, start), Repeat(t, n) + [t], start, t + 1) == n
  {
    AllGranted(c, State(0, start), t, n, [], start, t + 1);
    AllGranted(c, State(0, start), t, n, [t], start, t + 1);
    assert Repeat(t, n) + [] == Repeat(t, n) && [t][1..] == [];
  }
}
