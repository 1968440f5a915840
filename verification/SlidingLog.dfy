/** The sliding-window log limiter: one Redis sorted set per key, used in two atomic pipelines. */
module SlidingLog {
  import opened Prelude

  // Times are in ticks; durations given in seconds are converted.
  const TICKS := 1000000

  /** A sorted set whose members are their own scores, and when Redis drops it. */
  datatype Entry = Entry(log: set<nat>, expiry: Option<int>)

  const ABSENT := Entry({}, None)

  /** What a command arriving at time t finds; Redis also drops a set that became empty. */
  function Live(e: Entry, t: int): Entry {
    if e.log == {} || (e.expiry.Some? && t >= e.expiry.value) then ABSENT else e
  }

  /** ZREMRANGEBYSCORE key 0 (now - window) */
  function Pruned(e: Entry, now: nat, window: nat): Entry {
    var live := Live(e, now);
    var log := set a | a in live.log && !(0 <= a <= now - window);
    if log == {} then ABSENT else Entry(log, live.expiry)
  }

  /** ZADD key now now, EXPIRE key window; carried out at time `at`. */
  function Recorded(e: Entry, now: nat, at: int, window: nat): Entry {
    Entry(Live(e, at).log + {now}, Some(at + window))
  }

  predicate IsLeast(s: set<nat>, m: nat) {
    m in s && forall a :: a in s ==> m <= a
  }

  lemma {:induction false} LeastExists(s: set<nat>) returns (m: nat)
    requires s != {}
    ensures IsLeast(s, m)
  {
    m :| m in s;
    if s != {m} {
      var x := m;
      m := LeastExists(s - {x});
      assert forall a :: a in s ==> a == x || a in s - {x};
      m := if x < m then x else m;
    }
  }

  lemma SomeLeast(s: set<nat>)
    requires s != {}
    ensures exists m :: IsLeast(s, m)
  {
    var m := LeastExists(s);
  }

  function Least(s: set<nat>): (m: nat)
    requires s != {}
    ensures IsLeast(s, m)
  {
    SomeLeast(s);
    var m :| IsLeast(s, m);
    m
  }

  /** The whole seconds until the oldest entry leaves the window, at least one; the window for an empty log. */
  ghost predicate ExactWait(log: set<nat>, now: nat, seconds: nat, wait: int) {
    && (log == {} ==> wait == seconds)
    && forall oldest: nat :: oldest in log && (forall a :: a in log ==> oldest <= a) ==>
         var left := oldest + seconds * TICKS - now;
         (wait == 1 && left < 2 * TICKS) || (wait >= 2 && wait * TICKS <= left < (wait + 1) * TICKS)
  }

  datatype LimitExceeded = LimitExceeded(retryAfter: int, limit: nat)

  class RateLimiter {
    const times: nat
    const seconds: nat
    var entry: Entry

    constructor (times: nat, seconds: nat)
      ensures this.times == times && this.seconds == seconds && entry == ABSENT
    {
      this.times := times;
      this.seconds := seconds;
      entry := ABSENT;
    }

    /** The first pipeline. */
    method CountRecent(now: nat) returns (count: nat)
      modifies this`entry
      ensures entry == Pruned(old(entry), now, seconds * TICKS) && count == |entry.log|
      ensures forall a: nat :: a in entry.log <==>
        a in old(entry).log && a > now - seconds * TICKS && (old(entry).expiry.None? || now < old(entry).expiry.value)
      ensures entry.expiry == if entry.log == {} then None else old(entry).expiry
    {
      var windowStart := now - seconds * TICKS;
      if entry.expiry.Some? && now >= entry.expiry.value {
        entry := ABSENT;
      }
      entry := entry.(log := set a | a in entry.log && !(0 <= a <= windowStart));
      if entry.log == {} {
        entry := ABSENT;
      }
      count := |entry.log|;
    }

    /** The second pipeline. */
    method Record(now: nat, at: int)
      modifies this`entry
      ensures entry == Recorded(old(entry), now, at, seconds * TICKS)
      ensures entry.expiry == Some(at + seconds * TICKS)
      ensures forall a: nat :: a in entry.log <==>
        a == now || (a in old(entry).log && (old(entry).expiry.None? || at < old(entry).expiry.value))
    {
      if entry.expiry.Some? && at >= entry.expiry.value {
        entry := ABSENT;
      }
      entry := entry.(log := entry.log + {now});
      entry := entry.(expiry := Some(at + seconds * TICKS));
    }

    method RetryAfter(now: nat) returns (wait: int)
      ensures ExactWait(entry.log, now, seconds, wait)
    {
      wait := seconds;
      if entry.log != {} {
        var oldest := Least(entry.log);
        var left := seconds * TICKS - (now - oldest);
        // int() truncates toward zero; a wait below one second is one either way.
        var whole := if left >= 0 then left / TICKS else -(-left / TICKS);
        wait := if whole > 1 then whole else 1;
      }
    }

    /** A request served alone: clock read `now`, second pipeline at `at`. A refused caller is told
        a wait after which (give or take the truncated second) the log is strictly shorter. */
    method Check(now: nat, at: int) returns (r: Result<(), LimitExceeded>)
      requires at >= now
      modifies this`entry
      ensures var recent := Pruned(old(entry), now, seconds * TICKS);
        && (r.Ok? <==> |recent.log| < times)
        && entry == (if r.Ok? then Recorded(recent, now, at, seconds * TICKS) else recent)
      ensures r.Err? ==> r.error.limit == times && ExactWait(entry.log, now, seconds, r.error.retryAfter)
      ensures r.Err? && times > 0 && (forall a :: a in old(entry).log ==> a <= now) ==>
        1 <= r.error.retryAfter <= (if seconds == 0 then 1 else seconds)
        && forall later: nat :: later >= now + (r.error.retryAfter + 1) * TICKS ==> |Pruned(entry, later, seconds * TICKS).log| < |entry.log|
    {
      var count := CountRecent(now);
      if count >= times {
        var retryAfter := RetryAfter(now);
        if times > 0 {
          WaitIsEnough(entry, now, retryAfter, seconds);
        }
        return Err(LimitExceeded(retryAfter, times));
      }
      Record(now, at);
      r := Ok(());
    }
  }

  // One second after that wait the oldest entry has left the window, and it is no longer than the window.
  lemma WaitIsEnough(recent: Entry, now: nat, wait: int, seconds: nat)
    requires recent.log != {} && ExactWait(recent.log, now, seconds, wait)
    ensures forall later: nat :: later >= now + (wait + 1) * TICKS ==> |Pruned(recent, later, seconds * TICKS).log| < |recent.log|
    ensures (forall a :: a in recent.log ==> a <= now) ==> 1 <= wait <= (if seconds == 0 then 1 else seconds)
  {
    var oldest := Least(recent.log);
    assert oldest + seconds * TICKS - now < (wait + 1) * TICKS;
    forall later: nat | later >= now + (wait + 1) * TICKS
      ensures |Pruned(recent, later, seconds * TICKS).log| < |recent.log|
    {
      var kept := Pruned(recent, later, seconds * TICKS).log;
      assert kept <= recent.log - {oldest};
      Smaller(kept, recent.log - {oldest});
    }
  }

  lemma {:induction false} Smaller<T>(a: set<T>, b: set<T>)
    requires a <= b
    ensures |a| <= |b|
  {
    if a != {} {
      var x :| x in a;
      Smaller(a - {x}, b - {x});
    }
  }

  // ------------------------------------------------------------------
  // Interleaved requests
  // ------------------------------------------------------------------

  /** One key's world, by clock readings: those still between the two pipelines are pending, and
      `admitted` is the full, never pruned history. Requests with one reading are one member of each. */
  datatype World = World(clock: nat, entry: Entry, pending: set<nat>, admitted: set<nat>)

  /** `last` if no other request with this reading is still between its pipelines. */
  datatype Step = Begin(now: nat) | Finish(now: nat, at: nat, last: bool)

  const START := World(0, ABSENT, {}, {})

  /** The clock is monotone, and fewer than `k` readings are pending when a request begins. */
  predicate Enabled(w: World, s: Step, k: nat) {
    match s
    case Begin(now) => now >= w.clock && |w.pending| < k
    case Finish(now, at, _) => now in w.pending && at >= w.clock
  }

  function Next(w: World, s: Step, times: nat, window: nat): World {
    match s
    case Begin(now) =>
      var entry := Pruned(w.entry, now, window);
      if |entry.log| >= times then w.(clock := now, entry := entry)
      else World(now, entry, w.pending + {now}, w.admitted + {now})
    case Finish(now, at, last) =>
      World(at, Recorded(w.entry, now, at, window), if last then w.pending - {now} else w.pending, w.admitted)
  }

  /** The worlds a run goes through: ws[i] before step i, ws[i + 1] after it. */
  predicate IsRun(ws: seq<World>, steps: seq<Step>, times: nat, window: nat, k: nat) {
    |ws| == |steps| + 1 && ws[0] == START
    && forall i {:trigger steps[i]} :: 0 <= i < |steps| ==> Enabled(ws[i], steps[i], k) && ws[i + 1] == Next(ws[i], steps[i], times, window)
  }

  function InWindow(s: set<nat>, x: int, window: nat): set<nat> {
    set a | a in s && x < a <= x + window
  }

  /** Admitted, and past the second pipeline. */
  predicate Done(w: World, a: nat) {
    a in w.admitted && a !in w.pending
  }

  ghost predicate Consistent(w: World, window: nat) {
    && w.pending <= w.admitted
    && (forall a :: a in w.admitted ==> a <= w.clock)
    && w.entry.log <= w.admitted
    && (forall a: nat :: Done(w, a) && a > w.clock - window ==> a in w.entry.log)
    && (w.entry.expiry.None? ==> w.entry.log == {})
    && (w.entry.expiry.Some? ==> forall a :: a in w.entry.log ==> a + window <= w.entry.expiry.value)
  }

  // The pruned, expiring log holds only admissions of the last window, and all that are not pending.
  lemma PruneIsExact(w: World, now: nat, window: nat)
    requires Consistent(w, window) && now >= w.clock
    ensures forall a: nat :: a in Pruned(w.entry, now, window).log ==> a in w.admitted && now - window < a <= now
    ensures forall a: nat :: Done(w, a) && now - window < a <= now ==> a in Pruned(w.entry, now, window).log
  {
  }

  lemma BeginConsistent(w: World, now: nat, times: nat, window: nat, k: nat)
    requires Consistent(w, window) && Enabled(w, Begin(now), k)
    ensures Consistent(Next(w, Begin(now), times, window), window)
  {
    PruneIsExact(w, now, window);
    var after := Next(w, Begin(now), times, window);
    assert after.entry == Pruned(w.entry, now, window);
    assert forall a: nat :: Done(after, a) ==> Done(w, a);
  }

  lemma FinishConsistent(w: World, now: nat, at: nat, last: bool, times: nat, window: nat, k: nat)
    requires Consistent(w, window) && Enabled(w, Finish(now, at, last), k)
    ensures Consistent(Next(w, Finish(now, at, last), times, window), window)
  {
    var after := Next(w, Finish(now, at, last), times, window);
    assert after.entry.log == Live(w.entry, at).log + {now};
    assert forall a: nat :: Done(after, a) ==> Done(w, a) || a == now;
    forall a: nat | Done(w, a) && a > at - window
      ensures a in Live(w.entry, at).log
    {
      assert a in w.entry.log;
    }
  }

  lemma StepConsistent(w: World, s: Step, times: nat, window: nat, k: nat)
    requires Consistent(w, window) && Enabled(w, s, k)
    ensures Consistent(Next(w, s, times, window), window)
  {
    match s
    case Begin(now) => BeginConsistent(w, now, times, window, k);
    case Finish(now, at, last) => FinishConsistent(w, now, at, last, times, window, k);
  }

  ghost predicate WindowsBounded(admitted: set<nat>, window: nat, bound: nat) {
    forall x :: |InWindow(admitted, x, window)| <= bound
  }

  lemma UnionSize<T>(a: set<T>, b: set<T>)
    ensures |a + b| <= |a| + |b|
  {
    assert |a + b| == |a| + |b - a| by {
      assert a + b == a + (b - a) && a !! (b - a);
    }
    Smaller(b - a, b);
  }

  // A new admission shares its windows only with recorded admissions (fewer than `times`)
  // and with pending ones.
  lemma AdmissionBounded(w: World, now: nat, x: int, times: nat, window: nat, k: nat)
    requires Consistent(w, window) && Enabled(w, Begin(now), k)
    requires |Pruned(w.entry, now, window).log| < times
    requires |InWindow(w.admitted, x, window)| <= times + k - 1
    ensures |InWindow(w.admitted + {now}, x, window)| <= times + k - 1
  {
    var log := Pruned(w.entry, now, window).log;
    var inside := InWindow(w.admitted + {now}, x, window);
    PruneIsExact(w, now, window);
    if now in inside {
      assert inside <= (log + w.pending) + {now};
      Smaller(inside, (log + w.pending) + {now});
      UnionSize(log + w.pending, {now});
      UnionSize(log, w.pending);
    } else {
      assert inside == InWindow(w.admitted, x, window);
    }
  }

  lemma {:induction false} EveryWorldConsistent(ws: seq<World>, steps: seq<Step>, times: nat, window: nat, k: nat, i: nat)
    requires IsRun(ws, steps, times, window, k) && i <= |steps|
    ensures Consistent(ws[i], window)
  {
    if i == 0 {
      assert forall a: nat :: !Done(START, a);
    } else {
      var w, s := ws[i - 1], steps[i - 1];
      EveryWorldConsistent(ws, steps, times, window, k, i - 1);
      assert Enabled(w, s, k) && ws[i] == Next(w, s, times, window);
      StepConsistent(w, s, times, window, k);
    }
  }

  // In every interleaving with at most k requests between their two pipelines, no window ever
  // holds more than times + k - 1 admitted readings, equal or distinct as the requests' may be.
  lemma {:induction false} NoWindowOverflows(ws: seq<World>, steps: seq<Step>, times: nat, window: nat, k: nat, i: nat)
    requires k >= 1 && IsRun(ws, steps, times, window, k) && i <= |steps|
    ensures WindowsBounded(ws[i].admitted, window, times + k - 1)
  {
    if i == 0 {
      assert forall x :: InWindow({}, x, window) == {};
    } else {
      var w, s := ws[i - 1], steps[i - 1];
      NoWindowOverflows(ws, steps, times, window, k, i - 1);
      EveryWorldConsistent(ws, steps, times, window, k, i - 1);
      forall x
        ensures |InWindow(ws[i].admitted, x, window)| <= times + k - 1
      {
        assert |InWindow(w.admitted, x, window)| <= times + k - 1;
        if s.Begin? && |Pruned(w.entry, s.now, window).log| < times {
          AdmissionBounded(w, s.now, x, times, window, k);
        }
      }
    }
  }

  predicate Admits(w: World, s: Step, times: nat, window: nat) {
    s.Begin? && |Pruned(w.entry, s.now, window).log| < times
  }

  /** 1 if the step admits a request that reads the clock in (x, x + window]. */
  function AdmitsIn(w: World, s: Step, times: nat, window: nat, x: int): nat {
    if Admits(w, s, times, window) && x < s.now <= x + window then 1 else 0
  }

  function RequestsIn(ws: seq<World>, steps: seq<Step>, times: nat, window: nat, n: nat, x: int): nat
    requires |ws| == |steps| + 1 && n <= |steps|
  {
    if n == 0 then 0
    else RequestsIn(ws, steps, times, window, n - 1, x) + AdmitsIn(ws[n - 1], steps[n - 1], times, window, x)
  }

  /** The step admits no request that reads the clock as an admitted one did. */
  predicate FreshReading(w: World, s: Step, times: nat, window: nat) {
    Admits(w, s, times, window) ==> s.now !in w.admitted
  }

  predicate DistinctReadings(ws: seq<World>, steps: seq<Step>, times: nat, window: nat)
    requires |ws| == |steps| + 1
  {
    forall i {:trigger steps[i]} :: 0 <= i < |steps| ==> FreshReading(ws[i], steps[i], times, window)
  }

  lemma AdmittedNext(w: World, s: Step, times: nat, window: nat)
    ensures Next(w, s, times, window).admitted == if Admits(w, s, times, window) then w.admitted + {s.now} else w.admitted
  {
  }

  lemma OneMoreReading(w: World, s: Step, times: nat, window: nat, x: int)
    requires FreshReading(w, s, times, window)
    ensures |InWindow(Next(w, s, times, window).admitted, x, window)|
         == |InWindow(w.admitted, x, window)| + AdmitsIn(w, s, times, window, x)
  {
    AdmittedNext(w, s, times, window);
    if AdmitsIn(w, s, times, window, x) == 1 {
      assert InWindow(w.admitted + {s.now}, x, window) == InWindow(w.admitted, x, window) + {s.now};
    } else {
      assert InWindow(Next(w, s, times, window).admitted, x, window) == InWindow(w.admitted, x, window);
    }
  }

  lemma {:induction false} RequestsAreReadings(ws: seq<World>, steps: seq<Step>, times: nat, window: nat, k: nat, n: nat, x: int)
    requires IsRun(ws, steps, times, window, k) && n <= |steps| && DistinctReadings(ws, steps, times, window)
    ensures RequestsIn(ws, steps, times, window, n, x) == |InWindow(ws[n].admitted, x, window)|
  {
    if n == 0 {
      assert InWindow({}, x, window) == {};
    } else {
      RequestsAreReadings(ws, steps, times, window, k, n - 1, x);
      OneMoreReading(ws[n - 1], steps[n - 1], times, window, x);
    }
  }

  // If no two admitted requests read the clock alike, the bound is on the requests themselves.
  lemma RequestsBounded(ws: seq<World>, steps: seq<Step>, times: nat, window: nat, k: nat, n: nat, x: int)
    requires k >= 1 && IsRun(ws, steps, times, window, k) && n <= |steps| && DistinctReadings(ws, steps, times, window)
    ensures RequestsIn(ws, steps, times, window, n, x) <= times + k - 1
  {
    NoWindowOverflows(ws, steps, times, window, k, n);
    RequestsAreReadings(ws, steps, times, window, k, n, x);
  }

  // One request at a time: each request is decided by the exact number of admitted
  // readings in (now - window, now], and every window holds at most `times` of them.
  lemma SequentialLimitIsExact(ws: seq<World>, steps: seq<Step>, times: nat, window: nat, i: nat)
    requires IsRun(ws, steps, times, window, 1) && i < |steps| && steps[i].Begin?
    ensures var now := steps[i].now; var recent := |InWindow(ws[i].admitted, now - window, window)|;
      && |Pruned(ws[i].entry, now, window).log| == recent
      && (now in ws[i + 1].pending <==> recent < times)
      && WindowsBounded(ws[i + 1].admitted, window, times)
  {
    var w, now := ws[i], steps[i].now;
    EveryWorldConsistent(ws, steps, times, window, 1, i);
    PruneIsExact(w, now, window);
    assert w.pending == {};
    assert Pruned(w.entry, now, window).log == InWindow(w.admitted, now - window, window);
    NoWindowOverflows(ws, steps, times, window, 1, i + 1);
  }

  // ------------------------------------------------------------------
  // The bound is reached
  // ------------------------------------------------------------------

  predicate Between(lo: nat, a: nat, hi: nat) {
    lo < a <= hi
  }

  /** The readings lo + 1 to hi. */
  function Span(lo: nat, hi: nat): set<nat> {
    set a: nat | a <= hi && Between(lo, a, hi)
  }

  lemma {:induction false} SpanSize(lo: nat, hi: nat)
    requires lo <= hi
    ensures |Span(lo, hi)| == hi - lo
  {
    if lo == hi {
      assert Span(lo, hi) == {};
    } else {
      assert Span(lo, hi) == Span(lo, hi - 1) + {hi};
      SpanSize(lo, hi - 1);
    }
  }

  function EntryAfter(served: nat, window: nat): Entry {
    if served == 0 then ABSENT else Entry(Span(0, served), Some(served + window))
  }

  /** `served` requests are done and all later ones, up to reading m, are pending. */
  function CrowdWorld(served: nat, m: nat, window: nat): World {
    World(m, EntryAfter(served, window), Span(served, m), Span(0, m))
  }

  lemma NothingPruned(served: nat, now: nat, window: nat)
    requires served < now < window + 1
    ensures Pruned(EntryAfter(served, window), now, window) == EntryAfter(served, window)
  {
    if served > 0 {
      assert 1 in Span(0, served);
      assert (set a | a in Span(0, served) && !(0 <= a <= now - window)) == Span(0, served);
    }
  }

  lemma BeginStep(served: nat, m: nat, times: nat, window: nat, k: nat)
    requires served < times && served < m <= window && m - served <= k
    ensures Enabled(CrowdWorld(served, m - 1, window), Begin(m), k)
    ensures Next(CrowdWorld(served, m - 1, window), Begin(m), times, window) == CrowdWorld(served, m, window)
  {
    NothingPruned(served, m, window);
    SpanSize(served, m - 1);
    SpanSize(0, served);
    assert Span(0, m) == Span(0, m - 1) + {m};
    assert Span(served, m) == Span(served, m - 1) + {m};
  }

  lemma FinishStep(m: nat, times: nat, window: nat, k: nat)
    requires 1 <= m < window
    ensures Enabled(CrowdWorld(m - 1, m, window), Finish(m, m, true), k)
    ensures Next(CrowdWorld(m - 1, m, window), Finish(m, m, true), times, window) == CrowdWorld(m, m, window)
  {
    assert Span(0, m) == Span(0, m - 1) + {m};
    assert Span(m, m) == Span(m - 1, m) - {m};
    if m > 1 {
      assert 1 in Span(0, m - 1);
    }
  }

  lemma ExtendRun(ws: seq<World>, steps: seq<Step>, s: Step, w: World, times: nat, window: nat, k: nat)
    requires IsRun(ws, steps, times, window, k)
    requires Enabled(ws[|steps|], s, k) && Next(ws[|steps|], s, times, window) == w
    ensures IsRun(ws + [w], steps + [s], times, window, k)
  {
  }

  lemma BeginExtends(ws: seq<World>, steps: seq<Step>, served: nat, m: nat, times: nat, window: nat, k: nat)
    requires served < times && served < m <= window && m - served <= k
    requires IsRun(ws, steps, times, window, k) && ws[|steps|] == CrowdWorld(served, m - 1, window)
    ensures IsRun(ws + [CrowdWorld(served, m, window)], steps + [Begin(m)], times, window, k)
  {
    BeginStep(served, m, times, window, k);
    ExtendRun(ws, steps, Begin(m), CrowdWorld(served, m, window), times, window, k);
  }

  lemma FinishExtends(ws: seq<World>, steps: seq<Step>, m: nat, times: nat, window: nat, k: nat)
    requires 1 <= m < window
    requires IsRun(ws, steps, times, window, k) && ws[|steps|] == CrowdWorld(m - 1, m, window)
    ensures IsRun(ws + [CrowdWorld(m, m, window)], steps + [Finish(m, m, true)], times, window, k)
  {
    FinishStep(m, times, window, k);
    ExtendRun(ws, steps, Finish(m, m, true), CrowdWorld(m, m, window), times, window, k);
  }

  lemma {:induction false} OneByOne(n: nat, times: nat, window: nat, k: nat) returns (ws: seq<World>, steps: seq<Step>)
    requires n < times && n < window && k >= 1
    ensures IsRun(ws, steps, times, window, k) && ws[|steps|] == CrowdWorld(n, n, window)
  {
    if n == 0 {
      ws, steps := [START], [];
      assert Span(0, 0) == {};
    } else {
      var ws0, steps0 := OneByOne(n - 1, times, window, k);
      BeginExtends(ws0, steps0, n - 1, n, times, window, k);
      var ws1, steps1 := ws0 + [CrowdWorld(n - 1, n, window)], steps0 + [Begin(n)];
      FinishExtends(ws1, steps1, n, times, window, k);
      ws, steps := ws1 + [CrowdWorld(n, n, window)], steps1 + [Finish(n, n, true)];
    }
  }

  lemma {:induction false} Crowd(served: nat, n: nat, times: nat, window: nat, k: nat) returns (ws: seq<World>, steps: seq<Step>)
    requires served < times && served + n <= window && served < window && n <= k && k >= 1
    ensures IsRun(ws, steps, times, window, k) && ws[|steps|] == CrowdWorld(served, served + n, window)
  {
    if n == 0 {
      ws, steps := OneByOne(served, times, window, k);
    } else {
      var ws0, steps0 := Crowd(served, n - 1, times, window, k);
      BeginExtends(ws0, steps0, served, served + n, times, window, k);
      ws, steps := ws0 + [CrowdWorld(served, served + n, window)], steps0 + [Begin(served + n)];
    }
  }

  // With k requests in flight the limit really can be exceeded by k - 1.
  lemma BoundIsReached(times: nat, window: nat, k: nat) returns (ws: seq<World>, steps: seq<Step>)
    requires times >= 1 && k >= 1 && window >= times + k - 1
    ensures IsRun(ws, steps, times, window, k)
    ensures |InWindow(ws[|steps|].admitted, 0, window)| == times + k - 1
  {
    ws, steps := Crowd(times - 1, k, times, window, k);
    var n := times - 1 + k;
    SpanSize(0, n);
    assert InWindow(Span(0, n), 0, window) == Span(0, n);
  }

  // ------------------------------------------------------------------
  // Why the bound is on readings: equal ones are a single member of the sorted set
  // ------------------------------------------------------------------

  /** How many of n requests, all served alone at the same reading, are admitted. */
  function Burst(e: Entry, now: nat, n: nat, times: nat, window: nat): nat
    decreases n
  {
    if n == 0 then 0
    else
      var recent := Pruned(e, now, window);
      if |recent.log| >= times then Burst(recent, now, n - 1, times, window)
      else 1 + Burst(Recorded(recent, now, now, window), now, n - 1, times, window)
  }

  lemma RecordedStays(recent: Entry, now: nat, window: nat)
    requires recent.log <= {now} && window > 0
    ensures Pruned(Recorded(recent, now, now, window), now, window).log == {now}
  {
  }

  lemma PrunedStays(e: Entry, now: nat, window: nat)
    requires e.log <= {now}
    ensures var recent := Pruned(e, now, window);
      && (recent.log == {} || recent.log == {now})
      && (window == 0 ==> recent.log == {})
      && Pruned(recent, now, window).log == recent.log
  {
  }

  // Equal readings are one member: a limit of two or more never refuses any of them, while a limit
  // of one (and a window of some length) admits a single one, if the window holds nothing else.
  lemma {:induction false} SameReadingAdmits(e: Entry, now: nat, n: nat, times: nat, window: nat)
    requires e.log <= {now}
    ensures Burst(e, now, n, times, window) ==
      if times == 0 then 0
      else if times >= 2 || window == 0 then n
      else if n > 0 && Pruned(e, now, window).log == {} then 1
      else 0
    decreases n
  {
    if n > 0 {
      var recent := Pruned(e, now, window);
      PrunedStays(e, now, window);
      if |recent.log| >= times {
        SameReadingAdmits(recent, now, n - 1, times, window);
      } else {
        var added := Recorded(recent, now, now, window);
        assert added.log == {now};
        SameReadingAdmits(added, now, n - 1, times, window);
        if window > 0 {
          RecordedStays(recent, now, window);
        }
      }
    }
  }
}
