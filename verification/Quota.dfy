/** AI quota under concurrent answers: the check and the later record are separate steps. */
module Quota {
  import opened Prelude
  import opened Usage

  datatype Plan = Plan(responses: nat, tokens: nat)

  /** At most `flights` answers are under way at once, each of at most `cost` tokens. */
  datatype Load = Load(flights: nat, cost: nat)

  datatype World = World(clock: int, plan: Plan, rows: seq<Row>, flying: nat)

  datatype Step =
    | Open(t: int, period: Period)
    | Upgrade(t: int, plan: Plan)
    | Check(t: int)
    | Record(t: int, prompt: nat, completion: nat)
    | Abandon(t: int)

  /** Rows open for periods apart from all others, plans only grow, and a check finds the current row within the plan. */
  predicate Enabled(w: World, s: Step, load: Load) {
    s.t >= w.clock &&
    match s
    case Open(_, p) => Apart(w.rows + [Fresh(p)])
    case Upgrade(_, plan) => plan.responses >= w.plan.responses && plan.tokens >= w.plan.tokens
    case Check(t) =>
      w.flying < load.flights && Current(w.rows, t).Single?
      && WithinPlan(Current(w.rows, t).row, w.plan.responses, w.plan.tokens)
    case Record(_, p, c) => w.flying > 0 && p + c <= load.cost
    case Abandon(_) => w.flying > 0
  }

  function Next(w: World, s: Step): World
    requires s.Record? || s.Abandon? ==> w.flying > 0
  {
    match s
    case Open(t, p) => w.(clock := t, rows := w.rows + [Fresh(p)])
    case Upgrade(t, plan) => w.(clock := t, plan := plan)
    case Check(t) => w.(clock := t, flying := w.flying + 1)
    case Record(t, p, c) => w.(clock := t, rows := Posted(w.rows, t, Response(p, c)), flying := w.flying - 1)
    case Abandon(t) => w.(clock := t, flying := w.flying - 1)
  }

  predicate Follows(w: World, s: Step, after: World, load: Load) {
    Enabled(w, s, load) && after == Next(w, s)
  }

  predicate IsRun(ws: seq<World>, steps: seq<Step>, load: Load) {
    && |ws| == |steps| + 1
    && ws[0].rows == [] && ws[0].flying == 0 && ws[0].plan.responses >= 1 && ws[0].plan.tokens >= 1
    && forall i {:trigger steps[i]} :: 0 <= i < |steps| ==> Follows(ws[i], steps[i], ws[i + 1], load)
  }

  function Tokens(r: Row): nat {
    r.prompt + r.completion
  }

  /** A row with `more` answers still to come stays within the plan, but for the load's overshoot. */
  predicate Fits(r: Row, more: nat, plan: Plan, load: Load) {
    && r.responses + more <= plan.responses - 1 + load.flights
    && Tokens(r) + more * load.cost <= plan.tokens - 1 + load.flights * load.cost
  }

  predicate Untouched(r: Row) {
    r.responses == 0 && r.prompt == 0 && r.completion == 0
  }

  /** Rows of the current and later periods allow for all answers under way; rows not yet begun are empty. */
  predicate Consistent(w: World, load: Load) {
    && Apart(w.rows) && w.flying <= load.flights && w.plan.responses >= 1 && w.plan.tokens >= 1
    && (forall r :: r in w.rows && r.period.start > w.clock ==> Untouched(r))
    && (forall r :: r in w.rows ==> Fits(r, if r.period.end > w.clock then w.flying else 0, w.plan, load))
  }

  lemma FitsFewer(r: Row, more: nat, fewer: nat, plan: Plan, plan': Plan, load: Load)
    requires Fits(r, more, plan, load) && fewer <= more && plan'.responses >= plan.responses && plan'.tokens >= plan.tokens
    ensures Fits(r, fewer, plan', load)
  {
    Times(fewer, more, load.cost);
  }

  lemma UntouchedFits(r: Row, more: nat, plan: Plan, load: Load)
    requires Untouched(r) && more <= load.flights && plan.responses >= 1 && plan.tokens >= 1
    ensures Fits(r, more, plan, load)
  {
    Times(more, load.flights, load.cost);
  }

  lemma CheckedFits(r: Row, more: nat, plan: Plan, load: Load)
    requires WithinPlan(r, plan.responses, plan.tokens) && more <= load.flights
    ensures Fits(r, more, plan, load)
  {
    Times(more, load.flights, load.cost);
  }

  lemma RecordedFits(r: Row, more: nat, p: nat, c: nat, plan: Plan, load: Load)
    requires more > 0 && Fits(r, more, plan, load) && p + c <= load.cost
    ensures Fits(Applied(r, Response(p, c)), more - 1, plan, load)
  {
    assert more * load.cost == (more - 1) * load.cost + load.cost;
  }

  lemma OnlyCurrent(w: World, t: int, r: Row)
    requires Current(w.rows, t).Single? && Apart(w.rows) && r in w.rows && Covers(r, t)
    ensures r == Current(w.rows, t).row
  {
    CurrentIs(w.rows, t);
    var m := Current(w.rows, t).row;
    var i :| 0 <= i < |w.rows| && w.rows[i] == r;
    var j :| 0 <= j < |w.rows| && w.rows[j] == m;
  }

  lemma CheckConsistent(w: World, t: int, load: Load)
    requires Consistent(w, load) && Enabled(w, Check(t), load)
    ensures Consistent(Next(w, Check(t)), load)
  {
    forall r | r in w.rows
      ensures Fits(r, if r.period.end > t then w.flying + 1 else 0, w.plan, load)
    {
      if r.period.end > t {
        if r.period.start > t {
          UntouchedFits(r, w.flying + 1, w.plan, load);
        } else {
          OnlyCurrent(w, t, r);
          CheckedFits(r, w.flying + 1, w.plan, load);
        }
      } else {
        FitsFewer(r, if r.period.end > w.clock then w.flying else 0, 0, w.plan, w.plan, load);
      }
    }
  }

  lemma RecordConsistent(w: World, t: int, p: nat, c: nat, load: Load)
    requires Consistent(w, load) && Enabled(w, Record(t, p, c), load)
    ensures Consistent(Next(w, Record(t, p, c)), load)
  {
    var posted := Posted(w.rows, t, Response(p, c));
    PostedApart(w.rows, t, Response(p, c));
    forall i | 0 <= i < |posted|
      ensures Fits(posted[i], if posted[i].period.end > t then w.flying - 1 else 0, w.plan, load)
      ensures posted[i].period.start > t ==> Untouched(posted[i])
    {
      var r := w.rows[i];
      assert r in w.rows;
      if Covers(r, t) {
        RecordedFits(r, w.flying, p, c, w.plan, load);
      } else {
        var more := if r.period.end > w.clock then w.flying else 0;
        FitsFewer(r, more, if r.period.end > t then w.flying - 1 else 0, w.plan, w.plan, load);
      }
    }
  }

  lemma StepConsistent(w: World, s: Step, after: World, load: Load)
    requires Consistent(w, load) && Follows(w, s, after, load)
    ensures Consistent(after, load)
  {
    if s.Check? {
      CheckConsistent(w, s.t, load);
    } else if s.Record? {
      RecordConsistent(w, s.t, s.prompt, s.completion, load);
    } else {
      if s.Open? {
        UntouchedFits(Fresh(s.period), after.flying, after.plan, load);
        UntouchedFits(Fresh(s.period), 0, after.plan, load);
      }
      forall r | r in w.rows
        ensures Fits(r, if r.period.end > s.t then after.flying else 0, after.plan, load)
      {
        var more := if r.period.end > w.clock then w.flying else 0;
        FitsFewer(r, more, if r.period.end > s.t then after.flying else 0, w.plan, after.plan, load);
      }
    }
  }

  lemma {:induction false} EveryWorldConsistent(ws: seq<World>, steps: seq<Step>, load: Load, i: nat)
    requires IsRun(ws, steps, load) && i <= |steps|
    ensures Consistent(ws[i], load)
  {
    if i > 0 {
      EveryWorldConsistent(ws, steps, load, i - 1);
      assert Follows(ws[i - 1], steps[i - 1], ws[i], load);
      StepConsistent(ws[i - 1], steps[i - 1], ws[i], load);
    }
  }

  lemma {:induction false} NoAnswerAboveCost(ws: seq<World>, steps: seq<Step>, load: Load, i: nat)
    requires IsRun(ws, steps, load) && i <= |steps|
    ensures forall j :: 0 <= j < |ws[i].rows| ==> Tokens(ws[i].rows[j]) <= ws[i].rows[j].responses * load.cost
  {
    if i > 0 {
      var w, s := ws[i - 1], steps[i - 1];
      NoAnswerAboveCost(ws, steps, load, i - 1);
      assert Follows(w, s, ws[i], load);
      forall j | 0 <= j < |ws[i].rows|
        ensures Tokens(ws[i].rows[j]) <= ws[i].rows[j].responses * load.cost
      {
        if s.Record? && Covers(w.rows[j], s.t) {
          assert (w.rows[j].responses + 1) * load.cost == w.rows[j].responses * load.cost + load.cost;
        }
      }
    }
  }

  // In every run, in every period, the plan is exceeded by at most what the answers under way can add.
  lemma QuotaOvershootBounded(ws: seq<World>, steps: seq<Step>, load: Load, i: nat, r: Row)
    requires IsRun(ws, steps, load) && i <= |steps| && r in ws[i].rows && load.flights >= 1
    ensures r.responses <= ws[i].plan.responses + load.flights - 1
    ensures Tokens(r) <= ws[i].plan.tokens - 1 + load.flights * load.cost
    ensures Tokens(r) <= (ws[i].plan.responses - 1) * load.cost + load.flights * load.cost
  {
    EveryWorldConsistent(ws, steps, load, i);
    FitsFewer(r, if r.period.end > ws[i].clock then ws[i].flying else 0, 0, ws[i].plan, ws[i].plan, load);
    NoAnswerAboveCost(ws, steps, load, i);
    Times(r.responses, ws[i].plan.responses + load.flights - 1, load.cost);
    assert (ws[i].plan.responses - 1 + load.flights) * load.cost
        == (ws[i].plan.responses - 1) * load.cost + load.flights * load.cost;
  }

  // ------------------------------------------------------------------
  // Both bounds are reached, in one run
  // ------------------------------------------------------------------

  const SPAN := Period(0, 1)

  function Busy(plan: Plan, recorded: nat, spent: nat, flying: nat): World {
    World(0, plan, [Fresh(SPAN).(responses := recorded, prompt := spent)], flying)
  }

  lemma BusySteps(plan: Plan, recorded: nat, spent: nat, flying: nat, cost: nat, load: Load)
    ensures recorded < plan.responses && spent < plan.tokens && flying < load.flights ==>
      Follows(Busy(plan, recorded, spent, flying), Check(0), Busy(plan, recorded, spent, flying + 1), load)
    ensures flying > 0 && cost <= load.cost ==>
      Follows(Busy(plan, recorded, spent, flying), Record(0, cost, 0), Busy(plan, recorded + 1, spent + cost, flying - 1), load)
  {
    var w := Busy(plan, recorded, spent, flying);
    assert Current(w.rows[1..], 0).Nothing?;
    assert Current(w.rows, 0) == Single(w.rows[0]);
  }

  lemma Extend(ws: seq<World>, steps: seq<Step>, s: Step, after: World, load: Load)
    requires IsRun(ws, steps, load) && Follows(ws[|steps|], s, after, load)
    ensures IsRun(ws + [after], steps + [s], load)
  {
  }

  /** Tokens after n answers that each cost all they may, but stop short of the plan's limit. */
  function Spent(n: nat, plan: Plan, load: Load): (spent: nat)
    requires plan.tokens >= 1
    ensures spent <= plan.tokens - 1
  {
    if n == 0 then 0
    else if Spent(n - 1, plan, load) + load.cost <= plan.tokens - 1 then Spent(n - 1, plan, load) + load.cost
    else plan.tokens - 1
  }

  lemma {:induction false} SpentIs(n: nat, plan: Plan, load: Load)
    requires plan.tokens >= 1
    ensures Spent(n, plan, load) == if n * load.cost < plan.tokens - 1 then n * load.cost else plan.tokens - 1
  {
    if n > 0 {
      SpentIs(n - 1, plan, load);
      assert n * load.cost == (n - 1) * load.cost + load.cost;
    }
  }

  lemma {:induction false} BusyRun(plan: Plan, recorded: nat, flying: nat, load: Load)
    returns (ws: seq<World>, steps: seq<Step>)
    requires plan.tokens >= 1 && recorded < plan.responses && flying <= load.flights && load.flights >= 1
    ensures IsRun(ws, steps, load) && ws[|steps|] == Busy(plan, recorded, Spent(recorded, plan, load), flying)
    decreases recorded, flying
  {
    var spent := Spent(recorded, plan, load);
    var w := Busy(plan, recorded, spent, flying);
    if flying > 0 {
      var ws0, steps0 := BusyRun(plan, recorded, flying - 1, load);
      BusySteps(plan, recorded, spent, flying - 1, 0, load);
      Extend(ws0, steps0, Check(0), w, load);
      ws, steps := ws0 + [w], steps0 + [Check(0)];
    } else if recorded > 0 {
      var ws0, steps0 := BusyRun(plan, recorded - 1, 1, load);
      var before := Spent(recorded - 1, plan, load);
      var s := Record(0, spent - before, 0);
      BusySteps(plan, recorded - 1, before, 1, spent - before, load);
      Extend(ws0, steps0, s, w, load);
      ws, steps := ws0 + [w], steps0 + [s];
    } else {
      var start := World(0, plan, [], 0);
      assert Follows(start, Open(0, SPAN), w, load);
      Extend([start], [], Open(0, SPAN), w, load);
      ws, steps := [start] + [w], [] + [Open(0, SPAN)];
    }
  }

  function Landed(plan: Plan, landed: nat, load: Load): World
    requires plan.tokens >= 1 && plan.responses >= 1 && landed <= load.flights
  {
    Busy(plan, plan.responses - 1 + landed, Spent(plan.responses - 1, plan, load) + landed * load.cost, load.flights - landed)
  }

  lemma OneLanding(plan: Plan, landed: nat, load: Load)
    requires plan.tokens >= 1 && plan.responses >= 1 && 0 < landed <= load.flights
    ensures Follows(Landed(plan, landed - 1, load), Record(0, load.cost, 0), Landed(plan, landed, load), load)
  {
    var spent := Spent(plan.responses - 1, plan, load) + (landed - 1) * load.cost;
    assert landed * load.cost == (landed - 1) * load.cost + load.cost;
    BusySteps(plan, plan.responses - 2 + landed, spent, load.flights - landed + 1, load.cost, load);
  }

  lemma {:induction false} Landing(plan: Plan, landed: nat, load: Load) returns (ws: seq<World>, steps: seq<Step>)
    requires plan.tokens >= 1 && plan.responses >= 1 && landed <= load.flights && load.flights >= 1
    ensures IsRun(ws, steps, load) && ws[|steps|] == Landed(plan, landed, load)
  {
    if landed == 0 {
      ws, steps := BusyRun(plan, plan.responses - 1, load.flights, load);
    } else {
      var ws0, steps0 := Landing(plan, landed - 1, load);
      OneLanding(plan, landed, load);
      Extend(ws0, steps0, Record(0, load.cost, 0), Landed(plan, landed, load), load);
      ws, steps := ws0 + [Landed(plan, landed, load)], steps0 + [Record(0, load.cost, 0)];
    }
  }

  // One run overshoots both limits by all that is under way; tokens get as far as the plan's
  // answers can take them.
  lemma BoundIsReached(plan: Plan, load: Load) returns (ws: seq<World>, steps: seq<Step>)
    requires plan.tokens >= 1 && plan.responses >= 1 && load.flights >= 1
    ensures IsRun(ws, steps, load) && |ws[|steps|].rows| == 1
    ensures var r, before := ws[|steps|].rows[0], (plan.responses - 1) * load.cost;
      && r.responses == plan.responses + load.flights - 1
      && Tokens(r) == (if before < plan.tokens - 1 then before else plan.tokens - 1) + load.flights * load.cost
      && (before >= plan.tokens - 1 ==> Tokens(r) == plan.tokens - 1 + load.flights * load.cost)
  {
    ws, steps := Landing(plan, load.flights, load);
    SpentIs(plan.responses - 1, plan, load);
  }
}
