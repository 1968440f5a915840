/** The usage ledger: one row of counters per billing period, changed by atomic updates of whatever rows cover now. */
module Usage {
  import opened Prelude

  datatype Period = Period(start: int, end: int)

  datatype Row = Row(period: Period, responses: nat, prompt: nat, completion: nat, storage: nat, conversations: nat)

  datatype Failure = PlanLimitExceeded | MultipleRowsFound | DuplicatePeriod

  const FREE_DAYS: int := 3650
  const DAY: int := 24 * 3600

  function Fresh(p: Period): Row {
    Row(p, 0, 0, 0, 0, 0)
  }

  predicate Within(p: Period, now: int) {
    p.start <= now < p.end
  }

  predicate Covers(r: Row, now: int) {
    Within(r.period, now)
  }

  // ------------------------------------------------------------------
  // Looking up the current row
  // ------------------------------------------------------------------

  /** What the query for the current period yields; several rows make it raise. */
  datatype Found = Nothing | Single(row: Row) | Several

  function Current(rows: seq<Row>, now: int): Found {
    if rows == [] then Nothing
    else
      var rest := Current(rows[1..], now);
      if !Covers(rows[0], now) then rest
      else if rest.Nothing? then Single(rows[0])
      else Several
  }

  lemma {:induction false} CurrentIs(rows: seq<Row>, now: int)
    ensures Current(rows, now).Nothing? <==> forall i :: 0 <= i < |rows| ==> !Covers(rows[i], now)
    ensures Current(rows, now).Several? <==> exists i, j :: 0 <= i < j < |rows| && Covers(rows[i], now) && Covers(rows[j], now)
    ensures Current(rows, now).Single? ==> Current(rows, now).row in rows && Covers(Current(rows, now).row, now)
  {
    if rows != [] {
      CurrentIs(rows[1..], now);
      if Current(rows[1..], now).Several? {
        var i, j :| 0 <= i < j < |rows[1..]| && Covers(rows[1..][i], now) && Covers(rows[1..][j], now);
        assert Covers(rows[i + 1], now) && Covers(rows[j + 1], now);
      } else if !Current(rows[1..], now).Nothing? {
        var j :| 0 <= j < |rows[1..]| && Covers(rows[1..][j], now);
        assert Covers(rows[j + 1], now);
      }
      forall i, j | 0 <= i < j < |rows| && Covers(rows[i], now) && Covers(rows[j], now)
        ensures Current(rows, now).Several?
      {
        assert rows[j] == rows[1..][j - 1];
        if i > 0 {
          assert rows[i] == rows[1..][i - 1];
        }
      }
      forall i | 0 <= i < |rows| && Covers(rows[i], now)
        ensures !Current(rows, now).Nothing?
      {
        if i > 0 {
          assert rows[i] == rows[1..][i - 1];
        }
      }
    }
  }

  /** Some moment belongs to both periods. */
  predicate Meet(p: Period, q: Period) {
    (p.start < p.end && Within(q, p.start)) || (q.start < q.end && Within(p, q.start))
  }

  predicate Apart(rows: seq<Row>) {
    forall i, j :: 0 <= i < j < |rows| ==> !Meet(rows[i].period, rows[j].period)
  }

  // The lookup never raises, at any time, exactly when no two periods overlap.
  lemma LookupNeverRaises(rows: seq<Row>)
    ensures Apart(rows) <==> forall now :: !Current(rows, now).Several?
  {
    forall now
      ensures Current(rows, now).Several? ==> !Apart(rows)
    {
      CurrentIs(rows, now);
    }
    if i, j :| 0 <= i < j < |rows| && Meet(rows[i].period, rows[j].period) {
      var p, q := rows[i].period, rows[j].period;
      var now := if p.start < p.end && Within(q, p.start) then p.start else q.start;
      CurrentIs(rows, now);
      assert Covers(rows[i], now) && Covers(rows[j], now);
    }
  }

  /** The default subscription's ten years. */
  function FreePeriod(signup: int): Period {
    Period(signup, signup + FREE_DAYS * DAY)
  }

  // The first paid period overlaps the free row, so for as long as it lasts every lookup raises.
  lemma FirstUpgradeBreaksLookup(free: Row, signup: int, paid: Period, now: int)
    requires free.period == FreePeriod(signup)
    requires signup < paid.start && paid.end <= signup + FREE_DAYS * DAY
    ensures Current([free, Fresh(paid)], now).Several? <==> Within(paid, now)
  {
    CurrentIs([free, Fresh(paid)], now);
    if Within(paid, now) {
      assert Covers([free, Fresh(paid)][0], now) && Covers([free, Fresh(paid)][1], now);
    }
  }

  // ------------------------------------------------------------------
  // Updates
  // ------------------------------------------------------------------

  datatype Entry = Response(prompt: nat, completion: nat) | Added(bytes: nat) | Removed(bytes: nat) | Conversation

  function Applied(r: Row, e: Entry): Row {
    match e
    case Response(p, c) => r.(responses := r.responses + 1, prompt := r.prompt + p, completion := r.completion + c)
    case Added(bytes) => r.(storage := r.storage + bytes)
    case Removed(bytes) => r.(storage := if bytes <= r.storage then r.storage - bytes else 0)
    case Conversation => r.(conversations := r.conversations + 1)
  }

  /** UPDATE ... WHERE the period covers now: every such row changes, however many there are. */
  function Posted(rows: seq<Row>, now: int, e: Entry): (posted: seq<Row>)
    ensures |posted| == |rows|
    ensures forall i :: 0 <= i < |rows| ==> posted[i] == if Covers(rows[i], now) then Applied(rows[i], e) else rows[i]
  {
    seq(|rows|, i requires 0 <= i < |rows| => if Covers(rows[i], now) then Applied(rows[i], e) else rows[i])
  }

  // One update by the fields of the rows: those whose period has begun and not ended, its start included and
  // its end not, change by the entry; the others stay.
  lemma PostedByFields(rows: seq<Row>, now: int, e: Entry, i: nat)
    requires i < |rows|
    ensures var r, q := rows[i], Posted(rows, now, e)[i];
      if r.period.start <= now && now < r.period.end then
        match e
        case Response(p, c) =>
          q == r.(responses := q.responses, prompt := q.prompt, completion := q.completion)
          && q.responses == r.responses + 1 && q.prompt == r.prompt + p && q.completion == r.completion + c
        case Added(bytes) => q == r.(storage := q.storage) && q.storage == r.storage + bytes
        case Removed(bytes) =>
          q == r.(storage := q.storage) && (bytes <= r.storage ==> q.storage + bytes == r.storage) && (bytes > r.storage ==> q.storage == 0)
        case Conversation => q == r.(conversations := q.conversations) && q.conversations == r.conversations + 1
      else q == r
  {
  }

  lemma PostedApart(rows: seq<Row>, now: int, e: Entry)
    requires Apart(rows)
    ensures Apart(Posted(rows, now, e))
  {
    var posted := Posted(rows, now, e);
    forall i, j | 0 <= i < j < |posted|
      ensures !Meet(posted[i].period, posted[j].period)
    {
      assert posted[i].period == rows[i].period && posted[j].period == rows[j].period;
    }
  }

  // What one update changes of what a later lookup sees.
  lemma {:induction false} PostedShows(rows: seq<Row>, now: int, e: Entry, t: int)
    ensures Current(Posted(rows, now, e), t) ==
      match Current(rows, t)
      case Single(r) => Single(if Covers(r, now) then Applied(r, e) else r)
      case other => other
  {
    if rows != [] {
      PostedShows(rows[1..], now, e, t);
      assert Posted(rows, now, e)[1..] == Posted(rows[1..], now, e);
    }
  }

  // ------------------------------------------------------------------
  // The usage service
  // ------------------------------------------------------------------

  function Starts(rows: seq<Row>): set<int> {
    set r | r in rows :: r.period.start
  }

  function PeriodOf(subscription: Option<Period>, now: int): Period {
    if subscription.Some? then subscription.value else FreePeriod(now)
  }

  /** Fetching the current row, and adding one for the subscription's period when there is none. */
  function Fetched(rows: seq<Row>, subscription: Option<Period>, now: int): Result<Row, Failure> {
    match Current(rows, now)
    case Single(r) => Ok(r)
    case Several => Err(MultipleRowsFound)
    case Nothing =>
      if PeriodOf(subscription, now).start in Starts(rows) then Err(DuplicatePeriod)
      else Ok(Fresh(PeriodOf(subscription, now)))
  }

  predicate Opens(rows: seq<Row>, subscription: Option<Period>, now: int) {
    Current(rows, now).Nothing? && Fetched(rows, subscription, now).Ok?
  }

  function RowsFetched(rows: seq<Row>, subscription: Option<Period>, now: int): seq<Row> {
    if Opens(rows, subscription, now) then rows + [Fresh(PeriodOf(subscription, now))] else rows
  }

  function SubscriptionFetched(rows: seq<Row>, subscription: Option<Period>, now: int): Option<Period> {
    if Opens(rows, subscription, now) then Some(PeriodOf(subscription, now)) else subscription
  }

  function Recorded(rows: seq<Row>, subscription: Option<Period>, now: int, later: int, e: Entry): seq<Row> {
    if Fetched(rows, subscription, now).Ok? then Posted(RowsFetched(rows, subscription, now), later, e) else rows
  }

  function CurrentlyOn(rows: seq<Row>, now: int): set<nat> {
    set i | 0 <= i < |rows| && rows[i].period.start <= now && now < rows[i].period.end
  }

  /** By the fields of the rows: the row of the period now is in, or else a row of zeros for the subscription's period,
      ten years from now without one, unless a period starts then already. */
  ghost predicate FetchedByFields(rows: seq<Row>, subscription: Option<Period>, now: int,
                                  r: Result<Row, Failure>, rows': seq<Row>, subscription': Option<Period>)
  {
    var current := CurrentlyOn(rows, now);
    var p := if subscription.Some? then subscription.value else Period(now, now + 315360000);
    && (forall i, j :: i in current && j in current && i != j ==> r == Err(MultipleRowsFound))
    && (forall i :: i in current && r.Ok? ==> r.value == rows[i])
    && (r == Err(MultipleRowsFound) ==> exists i, j :: i in current && j in current && i != j)
    && (current == {} ==>
          r == if exists i :: 0 <= i < |rows| && rows[i].period.start == p.start then Err(DuplicatePeriod) else Ok(Row(p, 0, 0, 0, 0, 0)))
    && (current != {} ==> r != Err(DuplicatePeriod))
    && (if current == {} && r.Ok? then rows' == rows + [r.value] && subscription' == Some(p)
        else rows' == rows && subscription' == subscription)
  }

  lemma StartsIff(rows: seq<Row>, start: int)
    ensures start in Starts(rows) <==> exists i :: 0 <= i < |rows| && rows[i].period.start == start
  {
    if start in Starts(rows) {
      var r :| r in rows && r.period.start == start;
    }
  }

  lemma FetchedIs(rows: seq<Row>, subscription: Option<Period>, now: int)
    ensures FetchedByFields(rows, subscription, now, Fetched(rows, subscription, now),
                            RowsFetched(rows, subscription, now), SubscriptionFetched(rows, subscription, now))
  {
    CurrentIs(rows, now);
    StartsIff(rows, PeriodOf(subscription, now).start);
    var current := CurrentlyOn(rows, now);
    assert forall i :: i in current <==> 0 <= i < |rows| && Covers(rows[i], now);
    match Current(rows, now)
    case Nothing =>
      assert current == {};
    case Single(row) =>
      var k :| 0 <= k < |rows| && rows[k] == row;
      assert k in current;
      forall i, j | i in current && j in current
        ensures i == j
      {
        assert i < j ==> Current(rows, now).Several?;
        assert j < i ==> Current(rows, now).Several?;
      }
    case Several =>
      var i, j :| 0 <= i < j < |rows| && Covers(rows[i], now) && Covers(rows[j], now);
      assert i in current && j in current;
  }

  predicate WithinPlan(r: Row, maxResponses: nat, maxTokens: nat) {
    r.responses < maxResponses && r.prompt + r.completion < maxTokens
  }

  class Ledger {
    var rows: seq<Row>
    var subscription: Option<Period>

    constructor ()
      ensures rows == [] && subscription == None
    {
      rows, subscription := [], None;
    }

    method CreateForPeriod(p: Period) returns (r: Result<Row, Failure>)
      modifies `rows
      ensures r == if exists i :: 0 <= i < |old(rows)| && old(rows)[i].period.start == p.start then Err(DuplicatePeriod)
                   else Ok(Row(p, 0, 0, 0, 0, 0))
      ensures rows == if r.Ok? then old(rows) + [r.value] else old(rows)
    {
      if p.start in Starts(rows) {
        return Err(DuplicatePeriod);
      }
      rows := rows + [Fresh(p)];
      return Ok(Fresh(p));
    }

    method GetOrCreate(now: int) returns (r: Result<Row, Failure>)
      modifies `rows, `subscription
      ensures r == Fetched(old(rows), old(subscription), now)
      ensures rows == RowsFetched(old(rows), old(subscription), now)
      ensures subscription == SubscriptionFetched(old(rows), old(subscription), now)
      ensures FetchedByFields(old(rows), old(subscription), now, r, rows, subscription)
    {
      FetchedIs(rows, subscription, now);
      match Current(rows, now)
      case Single(row) =>
        return Ok(row);
      case Several =>
        return Err(MultipleRowsFound);
      case Nothing =>
        var p := PeriodOf(subscription, now);
        r := CreateForPeriod(p);
        if r.Ok? {
          subscription := Some(p);
        }
    }

    // Admits exactly when the current row is below both of the plan's limits.
    method CheckAiQuota(now: int, maxResponses: nat, maxTokens: nat) returns (refusal: Option<Failure>)
      modifies `rows, `subscription
      ensures subscription == SubscriptionFetched(old(rows), old(subscription), now)
      ensures rows == RowsFetched(old(rows), old(subscription), now)
      ensures var found := Fetched(old(rows), old(subscription), now);
        refusal == if found.Err? then Some(found.error)
                   else if found.value.responses < maxResponses && found.value.prompt + found.value.completion < maxTokens then None
                   else Some(PlanLimitExceeded)
    {
      var usage := GetOrCreate(now);
      if usage.Err? {
        return Some(usage.error);
      }
      if usage.value.responses >= maxResponses {
        return Some(PlanLimitExceeded);
      }
      if usage.value.prompt + usage.value.completion >= maxTokens {
        return Some(PlanLimitExceeded);
      }
      return None;
    }

    method CheckStorageQuota(now: int, newBytes: nat, maxBytes: nat) returns (refusal: Option<Failure>)
      modifies `rows, `subscription
      ensures rows == RowsFetched(old(rows), old(subscription), now)
      ensures var found := Fetched(old(rows), old(subscription), now);
        refusal == if found.Err? then Some(found.error)
                   else if found.value.storage + newBytes <= maxBytes then None
                   else Some(PlanLimitExceeded)
      ensures subscription == SubscriptionFetched(old(rows), old(subscription), now)
    {
      var usage := GetOrCreate(now);
      if usage.Err? {
        return Some(usage.error);
      }
      if usage.value.storage + newBytes > maxBytes {
        return Some(PlanLimitExceeded);
      }
      return None;
    }

    /** An AI response, stored bytes or a conversation; the update reads the clock again. */
    method Record(e: Entry, now: int, later: int) returns (failure: Option<Failure>)
      requires !e.Removed?
      modifies `rows, `subscription
      ensures subscription == SubscriptionFetched(old(rows), old(subscription), now)
      ensures var found := Fetched(old(rows), old(subscription), now);
        failure == if found.Err? then Some(found.error) else None
      ensures rows == Recorded(old(rows), old(subscription), now, later, e)
      ensures rows == if failure.None? then Posted(RowsFetched(old(rows), old(subscription), now), later, e) else old(rows)
    {
      var usage := GetOrCreate(now);
      if usage.Err? {
        return Some(usage.error);
      }
      rows := Posted(rows, later, e);
      return None;
    }

    /** Unlike the other records, this one creates no row. */
    method RecordStorageRemoved(bytes: nat, now: int)
      modifies `rows
      ensures rows == Posted(old(rows), now, Removed(bytes))
    {
      rows := Posted(rows, now, Removed(bytes));
    }

    method ResetForNewPeriod(p: Period) returns (failure: Option<Failure>)
      modifies `rows
      ensures failure == if p.start in Starts(old(rows)) then Some(DuplicatePeriod) else None
      ensures rows == if failure.None? then old(rows) + [Fresh(p)] else old(rows)
    {
      var r := CreateForPeriod(p);
      return if r.Err? then Some(r.error) else None;
    }
  }
}
