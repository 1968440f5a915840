/** Overlapping dispatches: each loads an endpoint when it begins and writes its counter back when its
    delivery lands, so a counter can fall back to what a slow delivery once read. */
module WebhookRaces {
  import opened Prelude
  import opened Webhooks

  /** One endpoint. Each slot is a dispatch under way and the counter it loaded, or free; `tripped` once
      the limit has switched the endpoint off; `log` is what landed, in order. */
  datatype World = World(failures: nat, active: bool, tripped: bool, slots: seq<Option<nat>>, log: seq<bool>)

  datatype Step = Fetch(slot: nat) | Land(slot: nat, success: bool) | Switch(on: bool)

  /** Only active endpoints are fetched; by hand an endpoint is paused and resumed, but never after its limit. */
  predicate Enabled(w: World, s: Step) {
    match s
    case Fetch(i) => w.active && i < |w.slots| && w.slots[i].None?
    case Land(i, _) => i < |w.slots| && w.slots[i].Some?
    case Switch(on) => on ==> !w.tripped
  }

  /** A success writes the counter only if the loaded value was not zero already; a failure writes the
      loaded value plus one. */
  function Next(w: World, s: Step): World
    requires Enabled(w, s)
  {
    match s
    case Fetch(i) => w.(slots := w.slots[i := Some(w.failures)])
    case Land(i, true) =>
      w.(slots := w.slots[i := None], log := w.log + [true], failures := if w.slots[i].value != 0 then 0 else w.failures)
    case Land(i, false) =>
      var n := w.slots[i].value + 1;
      w.(slots := w.slots[i := None], log := w.log + [false], failures := n,
         active := w.active && n < MAX_FAILURES, tripped := w.tripped || n >= MAX_FAILURES)
    case Switch(on) => w.(active := on)
  }

  predicate Follows(w: World, s: Step, after: World) {
    Enabled(w, s) && after == Next(w, s)
  }

  predicate Fresh(w: World, k: nat) {
    w.failures == 0 && w.active && !w.tripped && |w.slots| == k && w.log == []
    && forall i :: 0 <= i < k ==> w.slots[i].None?
  }

  /** At most k deliveries to the endpoint are in flight. */
  predicate IsRun(ws: seq<World>, steps: seq<Step>, k: nat) {
    && |ws| == |steps| + 1 && Fresh(ws[0], k)
    && forall i {:trigger steps[i]} :: 0 <= i < |steps| ==> Follows(ws[i], steps[i], ws[i + 1])
  }

  // Landing keeps the counter equal to the trailing run of failures exactly when a failure was loaded
  // with the present counter, or a success with a counter it will clear.
  lemma CounterRightIff(w: World, i: nat, success: bool)
    requires Enabled(w, Land(i, success)) && w.failures == Trailing(w.log)
    ensures var after := Next(w, Land(i, success));
      after.failures == Trailing(after.log) <==>
        if success then w.slots[i].value != 0 || w.failures == 0 else w.slots[i].value == w.failures
  {
    TrailingAppend(w.log, success);
  }

  // ------------------------------------------------------------------
  // Ranking the worlds
  // ------------------------------------------------------------------

  /** The counter a slot stands for: what it loaded, or what it would load now. */
  function Level(w: World, i: nat): nat
    requires i < |w.slots|
  {
    if w.slots[i].Some? then w.slots[i].value else w.failures
  }

  function Levels(w: World): (levels: seq<nat>)
    ensures |levels| == |w.slots| && forall i :: 0 <= i < |levels| ==> levels[i] == Level(w, i)
  {
    seq(|w.slots|, i requires 0 <= i < |w.slots| => Level(w, i))
  }

  function Count(levels: seq<nat>, x: nat): nat {
    if levels == [] then 0 else Count(levels[1..], x) + if levels[0] == x then 1 else 0
  }

  /** How many slots stand at x or above. */
  function CountFrom(levels: seq<nat>, x: nat): nat {
    if levels == [] then 0 else CountFrom(levels[1..], x) + if levels[0] >= x then 1 else 0
  }

  /** The number of ascending sequences of r levels from x up to the limit. */
  function Ascending(r: nat, x: nat): (n: nat)
    ensures r == 0 || x < MAX_FAILURES ==> n >= 1
    decreases MAX_FAILURES - x, r
  {
    if r == 0 then 1
    else if x >= MAX_FAILURES then 0
    else Ascending(r - 1, x) + Ascending(r, x + 1)
  }

  /** How many ascending sequences come before the sorted levels that are x or above. */
  function RankFrom(levels: seq<nat>, x: nat): nat
    decreases MAX_FAILURES - x
  {
    if x >= MAX_FAILURES then 0
    else
      var rest := CountFrom(levels, x + 1);
      (if rest >= 1 then Ascending(rest - 1, x) else 0) + RankFrom(levels, x + 1)
  }

  predicate BelowLimit(levels: seq<nat>) {
    forall i :: 0 <= i < |levels| ==> levels[i] < MAX_FAILURES
  }

  lemma {:induction false} CountSplits(levels: seq<nat>, x: nat)
    ensures CountFrom(levels, x) == Count(levels, x) + CountFrom(levels, x + 1)
  {
    if levels != [] {
      CountSplits(levels[1..], x);
    }
  }

  lemma {:induction false} NoneAtLimit(levels: seq<nat>, x: nat)
    requires BelowLimit(levels) && x >= MAX_FAILURES
    ensures CountFrom(levels, x) == 0
  {
    if levels != [] {
      NoneAtLimit(levels[1..], x);
    }
  }

  lemma {:induction false} AllFromZero(levels: seq<nat>)
    ensures CountFrom(levels, 0) == |levels|
  {
    if levels != [] {
      AllFromZero(levels[1..]);
    }
  }

  lemma {:induction false} AscendingGrows(r: nat, q: nat, x: nat)
    requires r <= q && x < MAX_FAILURES
    ensures Ascending(r, x) <= Ascending(q, x)
    decreases q - r
  {
    if r < q {
      AscendingGrows(r, q - 1, x);
    }
  }

  lemma {:induction false} AscendingFrom(r: nat, more: nat, x: nat)
    requires x < MAX_FAILURES
    ensures Ascending(r + more, x) >= Ascending(r, x + 1) + if r >= 1 then Ascending(r - 1, x) else 0
  {
    AscendingGrows(r, r + more, x);
  }

  lemma {:induction false} RankBelow(levels: seq<nat>, x: nat)
    requires BelowLimit(levels)
    ensures RankFrom(levels, x) < Ascending(CountFrom(levels, x), x)
    decreases MAX_FAILURES - x
  {
    if x >= MAX_FAILURES {
      NoneAtLimit(levels, x);
    } else {
      RankBelow(levels, x + 1);
      CountSplits(levels, x);
      AscendingFrom(CountFrom(levels, x + 1), Count(levels, x), x);
    }
  }

  // Fewer slots at one level, and as many at every lower one: a higher rank.
  lemma {:induction false} RankRises(a: seq<nat>, b: seq<nat>, x: nat, at: nat)
    requires BelowLimit(a) && BelowLimit(b) && x <= at < MAX_FAILURES
    requires CountFrom(a, x) == CountFrom(b, x)
    requires (forall y :: x <= y < at ==> Count(a, y) == Count(b, y)) && Count(b, at) < Count(a, at)
    ensures RankFrom(a, x) < RankFrom(b, x)
    decreases at - x
  {
    CountSplits(a, x);
    CountSplits(b, x);
    if x < at {
      RankRises(a, b, x + 1, at);
    } else {
      RankBelow(a, x + 1);
      var ra, rb := CountFrom(a, x + 1), CountFrom(b, x + 1);
      AscendingGrows(ra, rb - 1, x);
      AscendingFrom(ra, 0, x);
    }
  }

  // ------------------------------------------------------------------
  // The longest run of failures
  // ------------------------------------------------------------------

  /** Levels at `at` or above may move up past it, and others stay. */
  predicate MovesUp(a: seq<nat>, b: seq<nat>, at: nat) {
    |a| == |b| && forall j :: 0 <= j < |a| ==> a[j] == b[j] || (a[j] >= at && b[j] > at)
  }

  lemma {:induction false} MovedCounts(a: seq<nat>, b: seq<nat>, at: nat, y: nat)
    requires MovesUp(a, b, at) && y <= at
    ensures y < at ==> Count(a, y) == Count(b, y)
    ensures Count(b, at) <= Count(a, at)
    ensures (exists j :: 0 <= j < |a| && a[j] == at && b[j] != at) ==> Count(b, at) < Count(a, at)
    decreases |a|
  {
    if a != [] {
      assert MovesUp(a[1..], b[1..], at);
      MovedCounts(a[1..], b[1..], at, y);
      if j :| 0 <= j < |a| && a[j] == at && b[j] != at {
        if j > 0 {
          assert a[1..][j - 1] == at && b[1..][j - 1] != at;
        }
      }
    }
  }

  lemma MovedRank(a: seq<nat>, b: seq<nat>, at: nat, j: nat)
    requires BelowLimit(a) && BelowLimit(b) && MovesUp(a, b, at) && j < |a| && a[j] == at && b[j] != at
    ensures RankFrom(a, 0) < RankFrom(b, 0)
  {
    AllFromZero(a);
    AllFromZero(b);
    forall y: nat | y < at
      ensures Count(a, y) == Count(b, y)
    {
      MovedCounts(a, b, at, y);
    }
    MovedCounts(a, b, at, at);
    RankRises(a, b, 0, at);
  }

  // A failure that does not reach the limit moves the world up in rank, even when it sets the counter back.
  lemma FailureRaisesRank(w: World, i: nat)
    requires Enabled(w, Land(i, false)) && BelowLimit(Levels(w)) && w.slots[i].value + 1 < MAX_FAILURES
    ensures var after := Next(w, Land(i, false));
      BelowLimit(Levels(after)) && RankFrom(Levels(w), 0) < RankFrom(Levels(after), 0)
  {
    var after := Next(w, Land(i, false));
    var a, b, v := Levels(w), Levels(after), w.slots[i].value;
    forall j | 0 <= j < |b|
      ensures b[j] < MAX_FAILURES
    {
      if j != i && w.slots[j].Some? {
        assert b[j] == a[j];
      }
    }
    if j :| 0 <= j < |w.slots| && w.slots[j].None? && w.failures < v {
      MovedRank(a, b, w.failures, j);
    } else {
      MovedRank(a, b, v, i);
    }
  }

  function Busy(slots: seq<Option<nat>>): nat {
    if slots == [] then 0 else Busy(slots[1..]) + if slots[0].Some? then 1 else 0
  }

  lemma {:induction false} BusyAfter(slots: seq<Option<nat>>, i: nat, slot: Option<nat>)
    requires i < |slots|
    ensures Busy(slots[i := slot]) + (if slots[i].Some? then 1 else 0) == Busy(slots) + (if slot.Some? then 1 else 0)
    ensures Busy(slots) <= |slots|
  {
    if i == 0 {
      assert slots[0 := slot][1..] == slots[1..];
      BusyAtMost(slots);
    } else {
      assert slots[i := slot][1..] == slots[1..][i - 1 := slot];
      BusyAfter(slots[1..], i - 1, slot);
    }
  }

  lemma {:induction false} BusyAtMost(slots: seq<Option<nat>>)
    ensures Busy(slots) <= |slots|
  {
    if slots != [] {
      BusyAtMost(slots[1..]);
    }
  }

  /** Every ascending sequence of k counters but the first, and the k deliveries that may still land. */
  function MostFailures(k: nat): nat {
    Ascending(k, 0) - 1 + k
  }

  /** How many more failures can land before a success. */
  function FailuresLeft(w: World): int {
    if w.tripped then Busy(w.slots) else MostFailures(|w.slots|) - RankFrom(Levels(w), 0)
  }

  predicate Consistent(w: World, k: nat) {
    && |w.slots| == k && (w.active ==> !w.tripped)
    && (!w.tripped ==> w.failures < MAX_FAILURES)
    && (forall i :: 0 <= i < k && w.slots[i].Some? ==> w.slots[i].value < MAX_FAILURES)
    && Trailing(w.log) + FailuresLeft(w) <= MostFailures(k)
    && Longest(w.log) <= MostFailures(k)
  }

  lemma LeftBounds(w: World)
    requires !w.tripped ==> BelowLimit(Levels(w))
    ensures FailuresLeft(w) <= MostFailures(|w.slots|)
    ensures !w.tripped ==> FailuresLeft(w) >= |w.slots|
  {
    BusyAtMost(w.slots);
    if !w.tripped {
      RankBelow(Levels(w), 0);
      AllFromZero(Levels(w));
    }
  }

  lemma FailureSpends(w: World, i: nat, k: nat)
    requires Consistent(w, k) && Enabled(w, Land(i, false))
    ensures var after := Next(w, Land(i, false)); 0 <= FailuresLeft(after) < FailuresLeft(w)
  {
    var after := Next(w, Land(i, false));
    BusyAfter(w.slots, i, None);
    LeftBounds(w);
    if !after.tripped {
      FailureRaisesRank(w, i);
      LeftBounds(after);
    }
  }

  lemma LandConsistent(w: World, i: nat, success: bool, k: nat)
    requires Consistent(w, k) && Enabled(w, Land(i, success))
    ensures Consistent(Next(w, Land(i, success)), k)
  {
    TrailingAppend(w.log, success);
    if success {
      LeftBounds(Next(w, Land(i, true)));
    } else {
      FailureSpends(w, i, k);
    }
  }

  lemma StepConsistent(w: World, s: Step, after: World, k: nat)
    requires Consistent(w, k) && Follows(w, s, after)
    ensures Consistent(after, k)
  {
    if s.Land? {
      LandConsistent(w, s.slot, s.success, k);
    } else {
      assert Levels(after) == Levels(w);
    }
  }

  lemma {:induction false} EveryWorldConsistent(ws: seq<World>, steps: seq<Step>, k: nat, n: nat)
    requires IsRun(ws, steps, k) && n <= |steps|
    ensures Consistent(ws[n], k)
  {
    if n == 0 {
      LeftBounds(ws[0]);
    } else {
      EveryWorldConsistent(ws, steps, k, n - 1);
      assert Follows(ws[n - 1], steps[n - 1], ws[n]);
      StepConsistent(ws[n - 1], steps[n - 1], ws[n], k);
    }
  }

  // With at most k deliveries in flight, and none switched on after its limit, no endpoint ever has
  // more failures in a row than there are ascending sequences of k counters below fifty, and k - 1.
  lemma FailuresInFlightBounded(ws: seq<World>, steps: seq<Step>, k: nat, n: nat, from: nat, to: nat)
    requires IsRun(ws, steps, k) && n <= |steps|
    requires from <= to <= |ws[n].log| && forall i :: from <= i < to ==> !ws[n].log[i]
    ensures to - from <= MostFailures(k)
  {
    EveryWorldConsistent(ws, steps, k, n);
    LongestCoversEveryRun(ws[n].log, from, to);
  }

  lemma OneRowMore(n: int)
    ensures n * (n + 1) == (n - 1) * n + 2 * n
  {
  }

  lemma {:induction false} SlotsAscend(one: nat, two: nat, x: nat)
    requires one == 1 && two == 2 && x <= MAX_FAILURES
    ensures Ascending(one, x) == MAX_FAILURES - x
    ensures 2 * Ascending(two, x) == (MAX_FAILURES - x) * (MAX_FAILURES - x + 1)
    decreases MAX_FAILURES - x
  {
    if x < MAX_FAILURES {
      SlotsAscend(one, two, x + 1);
      assert Ascending(two, x) == Ascending(one, x) + Ascending(two, x + 1);
      assert Ascending(one, x) == Ascending(0, x) + Ascending(one, x + 1);
      OneRowMore(MAX_FAILURES - x);
    }
  }

  // One delivery at a time: fifty. Two at once: the sum of 1 to 50, and one.
  lemma MostFailuresAre(one: nat, two: nat)
    requires one == 1 && two == 2
    ensures MostFailures(one) == MAX_FAILURES
    ensures 2 * MostFailures(two) == MAX_FAILURES * (MAX_FAILURES + 1) + 2
  {
    SlotsAscend(one, two, 0);
  }

  // ------------------------------------------------------------------
  // Two overlapping dispatches reach their bound
  // ------------------------------------------------------------------

  function Failures(n: nat): seq<bool> {
    seq(n, i => false)
  }

  /** The failures by the time the slow delivery has loaded m. */
  function Base(m: nat): nat
    requires m <= MAX_FAILURES
  {
    if m == 0 then 0 else Base(m - 1) + (MAX_FAILURES - (m - 1))
  }

  lemma {:induction false} BaseIs(m: nat)
    requires m <= MAX_FAILURES
    ensures 2 * Base(m) == m * (2 * MAX_FAILURES + 1 - m)
  {
    if m > 0 {
      BaseIs(m - 1);
    }
  }

  /** One slow delivery holds m, and quick ones beside it have brought the counter from there to c. */
  function Pair(m: nat, c: nat): World
    requires m <= c < MAX_FAILURES
  {
    World(c, true, false, [Some(m), None], Failures(Base(m) + (c - m)))
  }

  lemma Extend(ws: seq<World>, steps: seq<Step>, k: nat, s: Step, after: World)
    requires IsRun(ws, steps, k) && Follows(ws[|steps|], s, after)
    ensures IsRun(ws + [after], steps + [s], k)
  {
  }

  /** A quick delivery fails beside the slow one. */
  lemma Quick(ws0: seq<World>, steps0: seq<Step>, m: nat, c: nat) returns (ws: seq<World>, steps: seq<Step>)
    requires IsRun(ws0, steps0, 2) && m <= c < MAX_FAILURES - 1 && ws0[|steps0|] == Pair(m, c)
    ensures IsRun(ws, steps, 2) && ws[|steps|] == Pair(m, c + 1)
  {
    var both := Pair(m, c).(slots := [Some(m), Some(c)]);
    Extend(ws0, steps0, 2, Fetch(1), both);
    ws, steps := ws0 + [both], steps0 + [Fetch(1)];
    assert Failures(Base(m) + (c - m)) + [false] == Failures(Base(m) + (c + 1 - m));
    assert Next(both, Land(1, false)) == Pair(m, c + 1);
    Extend(ws, steps, 2, Land(1, false), Pair(m, c + 1));
    ws, steps := ws + [Pair(m, c + 1)], steps + [Land(1, false)];
  }

  /** The slow delivery fails and sets the counter back; the next slow one loads that. */
  lemma Slow(ws0: seq<World>, steps0: seq<Step>, m: nat) returns (ws: seq<World>, steps: seq<Step>)
    requires IsRun(ws0, steps0, 2) && m + 1 < MAX_FAILURES && ws0[|steps0|] == Pair(m, MAX_FAILURES - 1)
    ensures IsRun(ws, steps, 2) && ws[|steps|] == Pair(m + 1, m + 1)
  {
    var back := World(m + 1, true, false, [None, None], Failures(Base(m + 1)));
    assert Failures(Base(m) + (MAX_FAILURES - 1 - m)) + [false] == Failures(Base(m + 1));
    assert Next(ws0[|steps0|], Land(0, false)) == back;
    Extend(ws0, steps0, 2, Land(0, false), back);
    ws, steps := ws0 + [back], steps0 + [Land(0, false)];
    assert Next(back, Fetch(0)) == Pair(m + 1, m + 1);
    Extend(ws, steps, 2, Fetch(0), Pair(m + 1, m + 1));
    ws, steps := ws + [Pair(m + 1, m + 1)], steps + [Fetch(0)];
  }

  lemma {:induction false} Climb(m: nat, c: nat) returns (ws: seq<World>, steps: seq<Step>)
    requires m <= c < MAX_FAILURES
    ensures IsRun(ws, steps, 2) && ws[|steps|] == Pair(m, c)
    decreases m, c
  {
    if c > m {
      ws, steps := Climb(m, c - 1);
      ws, steps := Quick(ws, steps, m, c - 1);
    } else if m > 0 {
      ws, steps := Climb(m - 1, MAX_FAILURES - 1);
      ws, steps := Slow(ws, steps, m - 1);
    } else {
      var start := World(0, true, false, [None, None], []);
      assert Failures(0) == [] && Next(start, Fetch(0)) == Pair(0, 0);
      Extend([start], [], 2, Fetch(0), Pair(0, 0));
      ws, steps := [start] + [Pair(0, 0)], [] + [Fetch(0)];
    }
  }

  /** The last two land at the limit. */
  lemma BothLand(ws0: seq<World>, steps0: seq<Step>) returns (ws: seq<World>, steps: seq<Step>)
    requires IsRun(ws0, steps0, 2) && ws0[|steps0|] == Pair(MAX_FAILURES - 1, MAX_FAILURES - 1)
    ensures IsRun(ws, steps, 2) && ws[|steps|].log == Failures(Base(MAX_FAILURES - 1) + 2)
  {
    var c, n := MAX_FAILURES - 1, Base(MAX_FAILURES - 1);
    var both := Pair(c, c).(slots := [Some(c), Some(c)]);
    var off := World(MAX_FAILURES, false, true, [None, Some(c)], Failures(n + 1));
    var end := World(MAX_FAILURES, false, true, [None, None], Failures(n + 2));
    Extend(ws0, steps0, 2, Fetch(1), both);
    ws, steps := ws0 + [both], steps0 + [Fetch(1)];
    assert Failures(n) + [false] == Failures(n + 1) && Failures(n + 1) + [false] == Failures(n + 2);
    assert Next(both, Land(0, false)) == off;
    Extend(ws, steps, 2, Land(0, false), off);
    ws, steps := ws + [off], steps + [Land(0, false)];
    assert Next(off, Land(1, false)) == end;
    Extend(ws, steps, 2, Land(1, false), end);
    ws, steps := ws + [end], steps + [Land(1, false)];
  }

  // Two dispatches at a time, nothing switched on by hand: all the failures the bound allows, in a row.
  lemma TwoInFlightReachBound(two: nat) returns (ws: seq<World>, steps: seq<Step>)
    requires two == 2
    ensures IsRun(ws, steps, two) && ws[|steps|].log == Failures(MostFailures(two))
  {
    ws, steps := Climb(MAX_FAILURES - 1, MAX_FAILURES - 1);
    ws, steps := BothLand(ws, steps);
    BaseIs(MAX_FAILURES - 1);
    MostFailuresAre(1, two);
  }
}
