/** The public widget's limiter: INCR, and EXPIRE by the request that created the counter. */
module WidgetLimit {
  import opened Prelude

  /** A Redis counter; zero stands for an absent key, and a key may (still) have no expiry. */
  datatype Counter = Counter(count: nat, expiry: Option<int>)

  function Live(c: Counter, t: int): Counter {
    if c.expiry.Some? && t >= c.expiry.value then Counter(0, None) else c
  }

  function Incremented(c: Counter, t: int): Counter {
    Live(c, t).(count := Live(c, t).count + 1)
  }

  /** EXPIRE has no effect on an absent key. */
  function Armed(c: Counter, t: int, window: nat): Counter {
    if Live(c, t).count == 0 then Live(c, t) else Live(c, t).(expiry := Some(t + window))
  }

  class WidgetLimiter {
    const limit: nat
    const window: nat
    var counter: Counter

    constructor (limit: nat, window: nat)
      ensures this.limit == limit && this.window == window && counter == Counter(0, None)
    {
      this.limit := limit;
      this.window := window;
      counter := Counter(0, None);
    }

    method Incr(t: int) returns (n: nat)
      modifies this`counter
      ensures counter == Incremented(old(counter), t) && n == counter.count
      ensures if old(counter).expiry.Some? && t >= old(counter).expiry.value then n == 1 && counter.expiry == None
              else n == old(counter).count + 1 && counter.expiry == old(counter).expiry
    {
      if counter.expiry.Some? && t >= counter.expiry.value {
        counter := Counter(0, None);
      }
      counter := counter.(count := counter.count + 1);
      n := counter.count;
    }

    method Expire(t: int)
      modifies this`counter
      ensures counter == Armed(old(counter), t, window)
      ensures if old(counter).expiry.Some? && t >= old(counter).expiry.value then counter == Counter(0, None)
              else counter.count == old(counter).count && (counter.count > 0 ==> counter.expiry == Some(t + window))
    {
      if counter.expiry.Some? && t >= counter.expiry.value {
        counter := Counter(0, None);
      }
      if counter.count > 0 {
        counter := counter.(expiry := Some(t + window));
      }
    }

    /** One request, with Redis reachable: INCR at time t and, if it created the key, EXPIRE at time `at`. */
    method Check(t: int, at: int) returns (allowed: bool)
      requires at >= t
      modifies this`counter
      ensures var c := Incremented(old(counter), t);
        && (allowed <==> c.count <= limit)
        && counter == if c.count == 1 then Armed(c, at, window) else c
    {
      var n := Incr(t);
      if n == 1 {
        Expire(at);
      }
      allowed := n <= limit;
    }
  }

  // ------------------------------------------------------------------
  // Interleaved requests
  // ------------------------------------------------------------------

  /** An admitted request: when, in which lifetime of the key, and what INCR answered. */
  datatype Hit = Hit(at: nat, life: nat, n: nat)

  /** `since` is when the current lifetime began; `arming` is set until its creator has run EXPIRE. */
  datatype World = World(clock: nat, counter: Counter, life: nat, since: nat, arming: bool, hits: set<Hit>)

  const START := World(0, Counter(0, None), 0, 0, false, {})

  datatype Step = Request(t: nat) | Arm(t: nat)

  predicate Enabled(w: World, s: Step) {
    s.t >= w.clock && (s.Arm? ==> w.arming)
  }

  function Next(w: World, s: Step, limit: nat, window: nat): World {
    match s
    case Request(t) =>
      var c := Incremented(w.counter, t);
      var fresh' := c.count == 1;
      var life := if fresh' then w.life + 1 else w.life;
      World(t, c, life, if fresh' then t else w.since, if fresh' then true else w.arming,
            if c.count <= limit then w.hits + {Hit(t, life, c.count)} else w.hits)
    case Arm(t) => World(t, Armed(w.counter, t, window), w.life, w.since, false, w.hits)
  }

  predicate IsRun(ws: seq<World>, steps: seq<Step>, limit: nat, window: nat) {
    |ws| == |steps| + 1 && ws[0] == START
    && forall i {:trigger steps[i]} :: 0 <= i < |steps| ==> Enabled(ws[i], steps[i]) && ws[i + 1] == Next(ws[i], steps[i], limit, window)
  }

  /** INCR's answers within one lifetime are distinct numbers up to the limit. */
  predicate Numbered(hits: set<Hit>, limit: nat) {
    && (forall h :: h in hits ==> 1 <= h.n <= limit)
    && (forall h, g :: h in hits && g in hits && h.life == g.life && h.n == g.n ==> h == g)
  }

  /** A later lifetime begins at least a window after an earlier one's first request,
      and after everything in lifetimes before that. */
  predicate Spread(hits: set<Hit>, window: nat) {
    forall h, g :: h in hits && g in hits && (g.life >= h.life + 2 || (g.life > h.life && h.n == 1)) ==> g.at >= h.at + window
  }

  predicate Consistent(w: World, limit: nat, window: nat) {
    && w.since <= w.clock
    && (forall h :: h in w.hits ==> h.at <= w.clock && h.life <= w.life)
    && (forall h :: h in w.hits && h.life == w.life ==> h.at >= w.since && h.n <= w.counter.count && (h.n == 1 ==> h.at == w.since))
    && (forall h :: h in w.hits && h.life < w.life ==> h.at <= w.since)
    && (forall h :: h in w.hits && h.life < w.life && (h.n == 1 || h.life + 2 <= w.life) ==> h.at + window <= w.since)
    && (w.counter.count == 0 ==> w.life == 0 && w.counter.expiry.None?)
    && (w.arming ==> w.counter.expiry.None? && w.counter.count > 0)
    && (!w.arming && w.counter.count > 0 ==> w.counter.expiry.Some?)
    && (w.counter.expiry.Some? ==> w.counter.expiry.value >= w.since + window)
    && Numbered(w.hits, limit) && Spread(w.hits, window)
  }

  // A hit of a new lifetime, and one more of the present lifetime.
  lemma RequestConsistent(w: World, t: nat, limit: nat, window: nat)
    requires Consistent(w, limit, window) && Enabled(w, Request(t))
    ensures Consistent(Next(w, Request(t), limit, window), limit, window)
  {
    var after := Next(w, Request(t), limit, window);
    if after.counter.count == 1 {
      assert after.life == w.life + 1 && after.since == t && (w.life > 0 && w.counter.count > 0 ==> t >= w.since + window);
    } else {
      assert after.life == w.life && after.counter.count == w.counter.count + 1;
    }
  }

  lemma StepConsistent(w: World, s: Step, limit: nat, window: nat)
    requires Consistent(w, limit, window) && Enabled(w, s)
    ensures Consistent(Next(w, s, limit, window), limit, window)
  {
    if s.Request? {
      RequestConsistent(w, s.t, limit, window);
    }
  }

  lemma {:induction false} EveryWorldConsistent(ws: seq<World>, steps: seq<Step>, limit: nat, window: nat, i: nat)
    requires IsRun(ws, steps, limit, window) && i <= |steps|
    ensures Consistent(ws[i], limit, window)
  {
    if i > 0 {
      EveryWorldConsistent(ws, steps, limit, window, i - 1);
      StepConsistent(ws[i - 1], steps[i - 1], limit, window);
    }
  }

  function InLife(hits: set<Hit>, life: nat): set<Hit> {
    set h | h in hits && h.life == life
  }

  function InWindow(hits: set<Hit>, x: int, window: nat): set<Hit> {
    set h | h in hits && x < h.at <= x + window
  }

  lemma {:induction false} CountByNumber(s: set<Hit>, lo: nat, hi: nat)
    requires lo <= hi + 1
    requires forall h :: h in s ==> lo <= h.n <= hi
    requires forall h, g :: h in s && g in s && h.n == g.n ==> h == g
    ensures |s| <= hi + 1 - lo
    decreases hi + 1 - lo
  {
    if s != {} {
      if h :| h in s && h.n == hi {
        if hi == 0 {
          assert s == {h};
        } else {
          assert |s - {h}| == |s| - 1;
          CountByNumber(s - {h}, lo, hi - 1);
        }
      } else {
        var h :| h in s;
        assert lo <= h.n <= hi - 1;
        CountByNumber(s, lo, hi - 1);
      }
    }
  }

  // Each lifetime of the key admits at most `limit` requests.
  lemma LifetimeBounded(ws: seq<World>, steps: seq<Step>, limit: nat, window: nat, i: nat, life: nat)
    requires IsRun(ws, steps, limit, window) && i <= |steps|
    ensures |InLife(ws[i].hits, life)| <= limit
  {
    EveryWorldConsistent(ws, steps, limit, window, i);
    CountByNumber(InLife(ws[i].hits, life), 1, limit);
  }

  lemma {:induction false} EarliestLife(s: set<Hit>) returns (m: Hit)
    requires s != {}
    ensures m in s && forall h :: h in s ==> h.life >= m.life
  {
    var x :| x in s;
    if s == {x} {
      m := x;
    } else {
      var y := EarliestLife(s - {x});
      m := if x.life < y.life then x else y;
      assert forall h :: h in s ==> h == x || h in s - {x};
    }
  }

  // Every interval of one window's length holds at most 2 * limit - 1 admissions: it meets at
  // most two lifetimes, and if it meets two it misses the first request of the earlier one.
  lemma WindowBounded(hits: set<Hit>, limit: nat, window: nat, x: int)
    requires limit >= 1 && Numbered(hits, limit) && Spread(hits, window)
    ensures |InWindow(hits, x, window)| <= 2 * limit - 1
  {
    var inside := InWindow(hits, x, window);
    if inside != {} {
      var m := EarliestLife(inside);
      var early, late := InLife(inside, m.life), InLife(inside, m.life + 1);
      assert inside == early + late;
      assert |inside| == |early| + |late| by {
        assert early !! late;
      }
      CountByNumber(late, 1, limit);
      if late == {} {
        CountByNumber(early, 1, limit);
      } else {
        var g :| g in late;
        forall h | h in early
          ensures h.n >= 2
        {
          assert g in hits && h in hits && g.life > h.life;
        }
        CountByNumber(early, 2, limit);
      }
    }
  }

  lemma NoIntervalOverflows(ws: seq<World>, steps: seq<Step>, limit: nat, window: nat, i: nat, x: int)
    requires IsRun(ws, steps, limit, window) && i <= |steps| && limit >= 1
    ensures |InWindow(ws[i].hits, x, window)| <= 2 * limit - 1
  {
    EveryWorldConsistent(ws, steps, limit, window, i);
    WindowBounded(ws[i].hits, limit, window, x);
  }

  // ------------------------------------------------------------------
  // The window is fixed, not sliding: the bound 2 * limit - 1 is reached
  // ------------------------------------------------------------------

  /** The admissions numbered lo to hi of one lifetime, all at one moment. */
  function Volley(at: nat, life: nat, lo: nat, hi: nat): (s: set<Hit>)
    requires lo <= hi + 1
    ensures |s| == hi + 1 - lo && forall h :: h in s ==> h.at == at && h.life == life && lo <= h.n <= hi
    decreases hi + 1 - lo
  {
    if lo == hi + 1 then {}
    else if hi == 0 then {Hit(at, life, 0)}
    else Volley(at, life, lo, hi - 1) + {Hit(at, life, hi)}
  }

  /** One request at time 0, then n - 1 more at the end of its window. */
  function EarlyWorld(n: nat, window: nat): World
    requires n >= 1 && window >= 2
  {
    World(if n == 1 then 0 else window - 1, Counter(n, Some(window)), 1, 0, false,
          {Hit(0, 1, 1)} + Volley(window - 1, 1, 2, n))
  }

  /** Then m requests in the lifetime that begins right there. */
  function LateWorld(m: nat, limit: nat, window: nat): World
    requires limit >= 1 && window >= 2
  {
    if m == 0 then EarlyWorld(limit, window)
    else World(window, Counter(m, None), 2, window, true, EarlyWorld(limit, window).hits + Volley(window, 2, 1, m))
  }

  lemma ExtendRun(ws: seq<World>, steps: seq<Step>, s: Step, w: World, limit: nat, window: nat)
    requires IsRun(ws, steps, limit, window)
    requires Enabled(ws[|steps|], s) && Next(ws[|steps|], s, limit, window) == w
    ensures IsRun(ws + [w], steps + [s], limit, window)
  {
  }

  lemma FirstRun(limit: nat, window: nat) returns (ws: seq<World>, steps: seq<Step>)
    requires limit >= 1 && window >= 2
    ensures IsRun(ws, steps, limit, window) && ws[|steps|] == EarlyWorld(1, window)
  {
    var first := World(0, Counter(1, None), 1, 0, true, {Hit(0, 1, 1)});
    ws, steps := [START, first], [Request(0)];
    assert Next(START, Request(0), limit, window) == first;
    assert Next(first, Arm(0), limit, window) == EarlyWorld(1, window);
    ExtendRun(ws, steps, Arm(0), EarlyWorld(1, window), limit, window);
    ws, steps := ws + [EarlyWorld(1, window)], steps + [Arm(0)];
  }

  lemma EarlyStep(n: nat, limit: nat, window: nat)
    requires 2 <= n <= limit && window >= 2
    ensures Enabled(EarlyWorld(n - 1, window), Request(window - 1))
    ensures Next(EarlyWorld(n - 1, window), Request(window - 1), limit, window) == EarlyWorld(n, window)
  {
    assert EarlyWorld(n, window).hits == EarlyWorld(n - 1, window).hits + {Hit(window - 1, 1, n)};
  }

  lemma {:induction false} EarlyRun(n: nat, limit: nat, window: nat) returns (ws: seq<World>, steps: seq<Step>)
    requires 1 <= n <= limit && window >= 2
    ensures IsRun(ws, steps, limit, window) && ws[|steps|] == EarlyWorld(n, window)
  {
    if n == 1 {
      ws, steps := FirstRun(limit, window);
    } else {
      var ws0, steps0 := EarlyRun(n - 1, limit, window);
      EarlyStep(n, limit, window);
      ExtendRun(ws0, steps0, Request(window - 1), EarlyWorld(n, window), limit, window);
      ws, steps := ws0 + [EarlyWorld(n, window)], steps0 + [Request(window - 1)];
    }
  }

  lemma LateStart(limit: nat, window: nat)
    requires limit >= 1 && window >= 2
    ensures Enabled(LateWorld(0, limit, window), Request(window))
    ensures Next(LateWorld(0, limit, window), Request(window), limit, window) == LateWorld(1, limit, window)
  {
    assert Volley(window, 2, 1, 1) == {Hit(window, 2, 1)};
  }

  lemma LateMore(m: nat, limit: nat, window: nat)
    requires 2 <= m <= limit && window >= 2
    ensures Enabled(LateWorld(m - 1, limit, window), Request(window))
    ensures Next(LateWorld(m - 1, limit, window), Request(window), limit, window) == LateWorld(m, limit, window)
  {
    var early := EarlyWorld(limit, window).hits;
    assert early + Volley(window, 2, 1, m) == (early + Volley(window, 2, 1, m - 1)) + {Hit(window, 2, m)};
  }

  lemma LateStep(m: nat, limit: nat, window: nat)
    requires 1 <= m <= limit && window >= 2
    ensures Enabled(LateWorld(m - 1, limit, window), Request(window))
    ensures Next(LateWorld(m - 1, limit, window), Request(window), limit, window) == LateWorld(m, limit, window)
  {
    if m == 1 {
      LateStart(limit, window);
    } else {
      LateMore(m, limit, window);
    }
  }

  lemma {:induction false} LateRun(m: nat, limit: nat, window: nat) returns (ws: seq<World>, steps: seq<Step>)
    requires m <= limit && limit >= 1 && window >= 2
    ensures IsRun(ws, steps, limit, window) && ws[|steps|] == LateWorld(m, limit, window)
  {
    if m == 0 {
      ws, steps := EarlyRun(limit, limit, window);
    } else {
      var ws0, steps0 := LateRun(m - 1, limit, window);
      LateStep(m, limit, window);
      ExtendRun(ws0, steps0, Request(window), LateWorld(m, limit, window), limit, window);
      ws, steps := ws0 + [LateWorld(m, limit, window)], steps0 + [Request(window)];
    }
  }

  // A sliding window would keep every interval to `limit`; some run fits 2 * limit - 1 into one.
  lemma WindowIsFixed(limit: nat, window: nat) returns (ws: seq<World>, steps: seq<Step>)
    requires limit >= 1 && window >= 2
    ensures IsRun(ws, steps, limit, window)
    ensures |InWindow(ws[|steps|].hits, 0, window)| == 2 * limit - 1
  {
    ws, steps := LateRun(limit, limit, window);
    var early, late := Volley(window - 1, 1, 2, limit), Volley(window, 2, 1, limit);
    assert InWindow(ws[|steps|].hits, 0, window) == early + late;
    assert early !! late;
  }
}
