/** Outbound webhooks: deliveries to subscribed endpoints, their log, and the failure counter that disables an endpoint. */
module Webhooks {
  import opened Prelude

  /** An endpoint is disabled when this many deliveries in a row have failed. */
  const MAX_FAILURES: nat := 50

  datatype Endpoint = Endpoint(
    id: nat, organization: nat, name: string, url: string,
    events: seq<string>, active: bool, failures: nat)

  datatype Delivery = Delivery(endpoint: nat, event: string, status: Option<int>, success: bool)

  /** What becomes of one HTTP request; an undecryptable secret counts as a network error. */
  datatype Outcome = Answered(status: int) | TimedOut | NetworkError

  predicate Succeeds(o: Outcome) {
    o.Answered? && 200 <= o.status < 300
  }

  predicate Matches(e: Endpoint, organization: nat, event: string) {
    e.organization == organization && e.active && ("*" in e.events || event in e.events)
  }

  // ------------------------------------------------------------------
  // The failure counter of one endpoint
  // ------------------------------------------------------------------

  /** Failures since the last success. */
  function Trailing(log: seq<bool>): nat {
    if log == [] || log[|log| - 1] then 0 else 1 + Trailing(log[..|log| - 1])
  }

  /** The longest run of failures anywhere in the log. */
  function Longest(log: seq<bool>): nat {
    if log == [] then 0
    else
      var before := Longest(log[..|log| - 1]);
      if Trailing(log) > before then Trailing(log) else before
  }

  lemma {:induction false} LongestCoversEveryRun(log: seq<bool>, from: nat, to: nat)
    requires from <= to <= |log| && forall i :: from <= i < to ==> !log[i]
    ensures to - from <= Longest(log)
    decreases |log|
  {
    if log != [] {
      var n := |log| - 1;
      if to <= n {
        LongestCoversEveryRun(log[..n], from, to);
      } else if from < to {
        TrailingCovers(log, from);
      }
    }
  }

  lemma {:induction false} TrailingCovers(log: seq<bool>, from: nat)
    requires from < |log| && forall i :: from <= i < |log| ==> !log[i]
    ensures |log| - from <= Trailing(log)
    decreases |log|
  {
    var n := |log| - 1;
    if from < n {
      TrailingCovers(log[..n], from);
    }
  }

  function Delivered(e: Endpoint, success: bool): Endpoint {
    if success then e.(failures := 0)
    else e.(failures := e.failures + 1, active := e.active && e.failures + 1 < MAX_FAILURES)
  }

  /** Only the counter and the switch change: a success clears the one, the fiftieth failure in a row turns off the other. */
  predicate CountedByFields(before: Endpoint, after: Endpoint, o: Outcome) {
    && after == before.(failures := after.failures, active := after.active)
    && (o.Answered? && 200 <= o.status <= 299 ==> after.failures == 0 && after.active == before.active)
    && (!o.Answered? || o.status < 200 || o.status > 299 ==>
          after.failures == before.failures + 1 && (after.active <==> before.active && before.failures < 49))
  }

  lemma DeliveredByFields(e: Endpoint, o: Outcome)
    ensures CountedByFields(e, Delivered(e, Succeeds(o)), o)
  {
  }

  /** Active, of the organization, and subscribed to the event or to every event. */
  predicate Wanted(e: Endpoint, organization: nat, event: string) {
    e.active && e.organization == organization && exists i :: 0 <= i < |e.events| && e.events[i] in {"*", event}
  }

  /** What a manual edit changes: each given field, and nothing else. */
  function Edited(e: Endpoint, c: Edit): Endpoint {
    e.(name := if c.name.Some? then c.name.value else e.name,
       url := if c.url.Some? then c.url.value else e.url,
       events := if c.events.Some? then c.events.value else e.events,
       active := if c.active.Some? then c.active.value else e.active)
  }

  // ------------------------------------------------------------------
  // An endpoint's past
  // ------------------------------------------------------------------

  /** The fields a caller of `update_endpoint` gives. */
  datatype Edit = Edit(name: Option<string>, url: Option<string>, events: Option<seq<string>>, active: Option<bool>)

  datatype Event = Attempt(success: bool) | Change(edit: Edit)

  function AfterOne(e: Endpoint, v: Event): Endpoint {
    match v
    case Attempt(success) => Delivered(e, success)
    case Change(edit) => Edited(e, edit)
  }

  /** The endpoint after everything that happened to it since it was created. */
  function After(start: Endpoint, past: seq<Event>): Endpoint {
    if past == [] then start else AfterOne(After(start, past[..|past| - 1]), past[|past| - 1])
  }

  /** New endpoints are active with no failures, and deliveries go to active ones only. */
  predicate Legal(start: Endpoint, past: seq<Event>) {
    && start.active && start.failures == 0
    && forall i {:trigger past[i]} :: 0 <= i < |past| ==> past[i].Attempt? ==> After(start, past[..i]).active
  }

  function Attempts(past: seq<Event>): seq<bool> {
    if past == [] then []
    else Attempts(past[..|past| - 1]) + if past[|past| - 1].Attempt? then [past[|past| - 1].success] else []
  }

  /** A switch by hand that turns on an endpoint the counter would keep off. */
  predicate Revives(start: Endpoint, past: seq<Event>, i: nat)
    requires i < |past|
  {
    past[i].Change? && past[i].edit.active == Some(true) && After(start, past[..i]).failures >= MAX_FAILURES
  }

  function Revivals(start: Endpoint, past: seq<Event>): nat {
    if past == [] then 0
    else Revivals(start, past[..|past| - 1]) + if Revives(start, past, |past| - 1) then 1 else 0
  }

  lemma AfterAppend(start: Endpoint, past: seq<Event>, v: Event)
    ensures After(start, past + [v]) == AfterOne(After(start, past), v)
    ensures Attempts(past + [v]) == if v.Attempt? then Attempts(past) + [v.success] else Attempts(past)
  {
    assert (past + [v])[..|past|] == past;
    assert Attempts(past) + [] == Attempts(past);
  }

  lemma LegalAppend(start: Endpoint, past: seq<Event>, v: Event)
    requires Legal(start, past) && (v.Attempt? ==> After(start, past).active)
    ensures Legal(start, past + [v])
  {
    var longer := past + [v];
    forall i {:trigger longer[i]} | 0 <= i < |longer|
      ensures longer[i].Attempt? ==> After(start, longer[..i]).active
    {
      assert longer[..i] == past[..i] && past[..|past|] == past;
      if i < |past| {
        assert longer[i] == past[i];
      }
    }
  }

  lemma LegalPrefix(start: Endpoint, past: seq<Event>, n: nat)
    requires Legal(start, past) && n <= |past|
    ensures Legal(start, past[..n])
  {
    forall i {:trigger past[..n][i]} | 0 <= i < n
      ensures past[..n][i].Attempt? ==> After(start, past[..n][..i]).active
    {
      assert past[..n][..i] == past[..i] && past[..n][i] == past[i];
    }
  }

  lemma TrailingAppend(log: seq<bool>, success: bool)
    ensures Trailing(log + [success]) == if success then 0 else 1 + Trailing(log)
    ensures Longest(log + [success]) ==
      if !success && 1 + Trailing(log) > Longest(log) then 1 + Trailing(log) else Longest(log)
  {
    assert (log + [success])[..|log|] == log;
  }

  // The counter is the trailing run of failures, whatever was edited meanwhile.
  lemma {:induction false} CounterIsTrailingRun(start: Endpoint, past: seq<Event>)
    requires Legal(start, past)
    ensures After(start, past).failures == Trailing(Attempts(past))
  {
    if past != [] {
      var n := |past| - 1;
      LegalPrefix(start, past, n);
      CounterIsTrailingRun(start, past[..n]);
      assert past == past[..n] + [past[n]];
      AfterAppend(start, past[..n], past[n]);
      if past[n].Attempt? {
        TrailingAppend(Attempts(past[..n]), past[n].success);
      }
    }
  }

  /** No run of failures outgrows the limit but by revivals. */
  predicate Limited(start: Endpoint, past: seq<Event>) {
    var e := After(start, past);
    && Longest(Attempts(past)) <= MAX_FAILURES + Revivals(start, past)
    && e.failures <= MAX_FAILURES + Revivals(start, past)
    && (e.active ==> e.failures < MAX_FAILURES + Revivals(start, past))
  }

  lemma {:induction false} FailuresBounded(start: Endpoint, past: seq<Event>)
    requires Legal(start, past)
    ensures Limited(start, past)
  {
    if past != [] {
      var n := |past| - 1;
      LegalPrefix(start, past, n);
      FailuresBounded(start, past[..n]);
      CounterIsTrailingRun(start, past[..n]);
      assert past == past[..n] + [past[n]];
      AfterAppend(start, past[..n], past[n]);
      if past[n].Attempt? {
        TrailingAppend(Attempts(past[..n]), past[n].success);
      }
    }
  }

  /** A revival with no success since. */
  predicate Unbroken(start: Endpoint, past: seq<Event>, i: nat)
    requires i < |past|
  {
    Revives(start, past, i) && forall j :: i < j < |past| ==> past[j] != Attempt(true)
  }

  lemma {:induction false} StaysAtLimit(start: Endpoint, past: seq<Event>, i: nat)
    requires i < |past| && Unbroken(start, past, i)
    ensures After(start, past).failures >= MAX_FAILURES
    decreases |past|
  {
    var n := |past| - 1;
    assert past == past[..n] + [past[n]];
    AfterAppend(start, past[..n], past[n]);
    if i < n {
      assert past[..n][..i] == past[..i];
      StaysAtLimit(start, past[..n], i);
    }
  }

  lemma {:induction false} RevivedBefore(start: Endpoint, past: seq<Event>) returns (i: nat)
    requires Legal(start, past)
    requires After(start, past).active && After(start, past).failures >= MAX_FAILURES
    ensures i < |past| && Unbroken(start, past, i)
    decreases |past|
  {
    var n := |past| - 1;
    LegalPrefix(start, past, n);
    assert past == past[..n] + [past[n]];
    AfterAppend(start, past[..n], past[n]);
    if past[n].Change? && past[n].edit.active == Some(true) {
      i := n;
    } else {
      i := RevivedBefore(start, past[..n]);
      assert past[..n][..i] == past[..i];
      assert past[..n][i] == past[i];
      forall j | i < j < |past|
        ensures past[j] != Attempt(true)
      {
        if j < n {
          assert past[..n][j] == past[j];
        }
      }
    }
  }

  /** A failed delivery to a revived endpoint that has not succeeded since. */
  predicate Relapse(start: Endpoint, past: seq<Event>, k: nat)
    requires k < |past|
  {
    past[k] == Attempt(false) && exists i {:trigger past[..k][i]} :: 0 <= i < k && Unbroken(start, past[..k], i)
  }

  lemma RelapseIff(start: Endpoint, past: seq<Event>, k: nat)
    requires Legal(start, past) && k < |past|
    ensures Relapse(start, past, k) <==> past[k] == Attempt(false) && After(start, past[..k]).failures >= MAX_FAILURES
  {
    LegalPrefix(start, past, k);
    if past[k] == Attempt(false) && After(start, past[..k]).failures >= MAX_FAILURES {
      var i := RevivedBefore(start, past[..k]);
      assert past[..k][i] == past[i];
    }
    if i :| past[k] == Attempt(false) && 0 <= i < k && Unbroken(start, past[..k], i) {
      StaysAtLimit(start, past[..k], i);
    }
  }

  // The limit of fifty failures in a row is kept exactly when no endpoint that was switched on
  // again at its limit fails before it has succeeded.
  lemma {:induction false} FiftyKeptIff(start: Endpoint, past: seq<Event>)
    requires Legal(start, past)
    ensures Longest(Attempts(past)) <= MAX_FAILURES <==> forall k :: 0 <= k < |past| ==> !Relapse(start, past, k)
  {
    if past != [] {
      var n := |past| - 1;
      var before := past[..n];
      LegalPrefix(start, past, n);
      FiftyKeptIff(start, before);
      CounterIsTrailingRun(start, before);
      assert past == before + [past[n]];
      AfterAppend(start, before, past[n]);
      if past[n].Attempt? {
        TrailingAppend(Attempts(before), past[n].success);
      }
      RelapseIff(start, past, n);
      forall k | 0 <= k < n
        ensures Relapse(start, past, k) <==> Relapse(start, before, k)
      {
        assert before[..k] == past[..k] && before[k] == past[k];
        RelapseIff(start, past, k);
        RelapseIff(start, before, k);
      }
    }
  }

  const SWITCH_ON := Change(Edit(None, None, None, Some(true)))

  lemma {:induction false} FailingOn(start: Endpoint, n: nat) returns (past: seq<Event>)
    requires start.active && start.failures == 0 && n <= MAX_FAILURES
    ensures Legal(start, past) && Revivals(start, past) == 0
    ensures var e := After(start, past); e.failures == n && (e.active <==> n < MAX_FAILURES)
    ensures Longest(Attempts(past)) == Trailing(Attempts(past)) == n
  {
    if n == 0 {
      past := [];
    } else {
      var past0 := FailingOn(start, n - 1);
      past := past0 + [Attempt(false)];
      LegalAppend(start, past0, Attempt(false));
      AfterAppend(start, past0, Attempt(false));
      TrailingAppend(Attempts(past0), false);
      assert past[..|past0|] == past0;
    }
  }

  // Each revival buys one more failure: fifty and n in a row, for every n.
  lemma {:induction false} BeyondFifty(start: Endpoint, n: nat) returns (past: seq<Event>)
    requires start.active && start.failures == 0
    ensures Legal(start, past) && Revivals(start, past) == n
    ensures var e := After(start, past); e.failures == MAX_FAILURES + n && !e.active
    ensures Longest(Attempts(past)) == Trailing(Attempts(past)) == MAX_FAILURES + n
  {
    if n == 0 {
      past := FailingOn(start, MAX_FAILURES);
    } else {
      var past0 := BeyondFifty(start, n - 1);
      var past1 := past0 + [SWITCH_ON];
      AfterAppend(start, past0, SWITCH_ON);
      LegalAppend(start, past0, SWITCH_ON);
      assert past1[..|past0|] == past0;
      past := past1 + [Attempt(false)];
      AfterAppend(start, past1, Attempt(false));
      LegalAppend(start, past1, Attempt(false));
      assert past[..|past1|] == past1;
      TrailingAppend(Attempts(past1), false);
    }
  }

  // ------------------------------------------------------------------
  // The log
  // ------------------------------------------------------------------

  function Log(deliveries: seq<Delivery>, id: nat): seq<bool> {
    if deliveries == [] then []
    else
      var n := |deliveries| - 1;
      Log(deliveries[..n], id) + if deliveries[n].endpoint == id then [deliveries[n].success] else []
  }

  lemma LogAppend(deliveries: seq<Delivery>, d: Delivery, id: nat)
    ensures Log(deliveries + [d], id) == if d.endpoint == id then Log(deliveries, id) + [d.success] else Log(deliveries, id)
  {
    assert (deliveries + [d])[..|deliveries|] == deliveries;
    assert Log(deliveries, id) + [] == Log(deliveries, id);
  }

  function Purged(deliveries: seq<Delivery>, id: nat): seq<Delivery> {
    if deliveries == [] then []
    else
      var n := |deliveries| - 1;
      Purged(deliveries[..n], id) + if deliveries[n].endpoint == id then [] else [deliveries[n]]
  }

  lemma {:induction false} PurgedKeepsOthers(deliveries: seq<Delivery>, id: nat, other: nat)
    ensures Log(Purged(deliveries, id), other) == if other == id then [] else Log(deliveries, other)
  {
    if deliveries != [] {
      var n := |deliveries| - 1;
      var purged := Purged(deliveries[..n], id);
      PurgedKeepsOthers(deliveries[..n], id, other);
      if deliveries[n].endpoint == id {
        assert purged + [] == purged && Log(deliveries[..n], other) + [] == Log(deliveries[..n], other);
      } else {
        LogAppend(purged, deliveries[n], other);
        assert Log(deliveries[..n], other) + [] == Log(deliveries[..n], other);
      }
    }
  }

  // ------------------------------------------------------------------
  // Which endpoints an event reaches
  // ------------------------------------------------------------------

  predicate Positions(at: seq<nat>, n: nat) {
    forall k :: 0 <= k < |at| ==> at[k] < n
  }

  predicate Rising(at: seq<nat>) {
    forall i, j :: 0 <= i < j < |at| ==> at[i] < at[j]
  }

  lemma NotYet(at: seq<nat>, i: nat)
    requires Rising(at) && i < |at|
    ensures at[i] !in at[..i] && at[..i + 1] == at[..i] + [at[i]]
  {
  }

  /** The positions of the active subscribed endpoints, in listing order. */
  function Matching(endpoints: seq<Endpoint>, organization: nat, event: string): (at: seq<nat>)
    ensures Positions(at, |endpoints|)
  {
    if endpoints == [] then []
    else
      var n := |endpoints| - 1;
      Matching(endpoints[..n], organization, event) + if Matches(endpoints[n], organization, event) then [n] else []
  }

  lemma {:induction false} MatchingRises(endpoints: seq<Endpoint>, organization: nat, event: string)
    ensures Rising(Matching(endpoints, organization, event))
  {
    if endpoints != [] {
      MatchingRises(endpoints[..|endpoints| - 1], organization, event);
    }
  }

  lemma {:induction false} MatchingMembers(endpoints: seq<Endpoint>, organization: nat, event: string, i: nat)
    ensures i in Matching(endpoints, organization, event) <==> i < |endpoints| && Matches(endpoints[i], organization, event)
  {
    if endpoints != [] {
      var n := |endpoints| - 1;
      var before := Matching(endpoints[..n], organization, event);
      MatchingMembers(endpoints[..n], organization, event, i);
      assert i in Matching(endpoints, organization, event) <==>
        i in before || (Matches(endpoints[n], organization, event) && i == n);
    }
  }

  // Exactly the active subscribed endpoints, each once.
  lemma MatchingIsExact(endpoints: seq<Endpoint>, organization: nat, event: string)
    ensures var m := Matching(endpoints, organization, event);
      && (forall i :: i in m <==> 0 <= i < |endpoints| && Wanted(endpoints[i], organization, event))
      && Rising(m)
  {
    MatchingRises(endpoints, organization, event);
    forall i: nat
      ensures i in Matching(endpoints, organization, event) <==> i < |endpoints| && Matches(endpoints[i], organization, event)
    {
      MatchingMembers(endpoints, organization, event, i);
    }
  }

  function Logged(e: Endpoint, event: string, o: Outcome): Delivery {
    Delivery(e.id, event, if o.Answered? then Some(o.status) else None, Succeeds(o))
  }

  /** One delivery for each endpoint at the given positions. */
  function Deliveries(endpoints: seq<Endpoint>, at: seq<nat>, event: string, outcome: nat -> Outcome): seq<Delivery>
    requires Positions(at, |endpoints|)
  {
    if at == [] then []
    else
      var n := |at| - 1;
      Deliveries(endpoints, at[..n], event, outcome) + [Logged(endpoints[at[n]], event, outcome(endpoints[at[n]].id))]
  }

  predicate DistinctIds(endpoints: seq<Endpoint>) {
    forall i, j :: 0 <= i < j < |endpoints| ==> endpoints[i].id != endpoints[j].id
  }

  lemma LastPosition(endpoints: seq<Endpoint>, at: seq<nat>, j: nat)
    requires at != [] && Positions(at, |endpoints|) && Rising(at) && DistinctIds(endpoints) && j < |endpoints|
    ensures var last := at[|at| - 1];
      && (endpoints[last].id == endpoints[j].id <==> last == j)
      && (j in at <==> j == last || j in at[..|at| - 1])
      && last !in at[..|at| - 1]
  {
    NotYet(at, |at| - 1);
    assert at[..|at| - 1 + 1] == at;
  }

  // Each endpoint at the given positions is logged once; no other endpoint is logged at all.
  lemma {:induction false} LoggedOnce(log: seq<Delivery>, endpoints: seq<Endpoint>, at: seq<nat>, event: string, outcome: nat -> Outcome, j: nat)
    requires Positions(at, |endpoints|) && Rising(at) && DistinctIds(endpoints) && j < |endpoints|
    ensures Log(log + Deliveries(endpoints, at, event, outcome), endpoints[j].id)
         == Log(log, endpoints[j].id) + if j in at then [Succeeds(outcome(endpoints[j].id))] else []
    decreases |at|
  {
    var id := endpoints[j].id;
    assert Log(log, id) + [] == Log(log, id);
    if at == [] {
      assert log + [] == log;
    } else {
      var n := |at| - 1;
      var before := log + Deliveries(endpoints, at[..n], event, outcome);
      var d := Logged(endpoints[at[n]], event, outcome(endpoints[at[n]].id));
      LoggedOnce(log, endpoints, at[..n], event, outcome, j);
      LastPosition(endpoints, at, j);
      LogAppend(before, d, id);
      assert log + Deliveries(endpoints, at, event, outcome) == before + [d];
    }
  }

  /** The endpoints once those at the given positions have had their delivery. */
  predicate Served(before: seq<Endpoint>, after: seq<Endpoint>, at: seq<nat>, outcome: nat -> Outcome) {
    && |after| == |before|
    && forall j :: 0 <= j < |before| ==>
         after[j] == if j in at then Delivered(before[j], Succeeds(outcome(before[j].id))) else before[j]
  }

  // What a dispatch does to the endpoints: each one wanted is counted once, and no other changes.
  lemma ServedByFields(before: seq<Endpoint>, after: seq<Endpoint>, organization: nat, event: string, outcome: nat -> Outcome, j: nat)
    requires Served(before, after, Matching(before, organization, event), outcome) && j < |before|
    ensures |after| == |before|
    ensures Wanted(before[j], organization, event) ==> CountedByFields(before[j], after[j], outcome(before[j].id))
    ensures !Wanted(before[j], organization, event) ==> after[j] == before[j]
  {
    MatchingIsExact(before, organization, event);
    DeliveredByFields(before[j], outcome(before[j].id));
  }

  // And to the log: one delivery for each, in their order, of the event and what came of it.
  lemma {:induction false} DeliveriesByFields(endpoints: seq<Endpoint>, at: seq<nat>, event: string, outcome: nat -> Outcome, k: nat)
    requires Positions(at, |endpoints|) && k < |at|
    ensures |Deliveries(endpoints, at, event, outcome)| == |at|
    ensures var d, e := Deliveries(endpoints, at, event, outcome)[k], endpoints[at[k]]; var o := outcome(e.id);
      && d.endpoint == e.id && d.event == event && d.status == (if o.Answered? then Some(o.status) else None)
      && (d.success <==> o.Answered? && 200 <= o.status <= 299)
  {
    var n := |at| - 1;
    if k < n {
      DeliveriesByFields(endpoints, at[..n], event, outcome, k);
    } else if n > 0 {
      DeliveriesByFields(endpoints, at[..n], event, outcome, 0);
    }
  }

  predicate AllActive(endpoints: seq<Endpoint>, at: seq<nat>) {
    forall i :: 0 <= i < |at| ==> at[i] < |endpoints| && endpoints[at[i]].active
  }

  lemma MatchingActive(endpoints: seq<Endpoint>, organization: nat, event: string)
    ensures var at := Matching(endpoints, organization, event); AllActive(endpoints, at) && Rising(at)
  {
    MatchingIsExact(endpoints, organization, event);
    var at := Matching(endpoints, organization, event);
    assert forall i :: 0 <= i < |at| ==> at[i] in at;
  }

  lemma OneServed(before: seq<Endpoint>, after: seq<Endpoint>, at: seq<nat>, next: nat, outcome: nat -> Outcome)
    requires Served(before, after, at, outcome) && next < |before| && next !in at
    ensures Served(before, after[next := Delivered(after[next], Succeeds(outcome(after[next].id)))], at + [next], outcome)
  {
  }

  // ------------------------------------------------------------------
  // The dispatcher and its repository
  // ------------------------------------------------------------------

  /** An endpoint's first state and all that happened to it. */
  datatype Past = Past(start: Endpoint, events: seq<Event>)

  /** The stored endpoint and its log are what its past makes of them. */
  predicate Told(e: Endpoint, log: seq<bool>, p: Past) {
    Legal(p.start, p.events) && e == After(p.start, p.events) && log == Attempts(p.events)
  }

  predicate Sound(endpoints: seq<Endpoint>, deliveries: seq<Delivery>, pasts: map<nat, Past>) {
    && DistinctIds(endpoints)
    && (forall i :: 0 <= i < |endpoints| ==>
          endpoints[i].id in pasts && Told(endpoints[i], Log(deliveries, endpoints[i].id), pasts[endpoints[i].id]))
    && (forall d :: d in deliveries ==> d.endpoint in pasts)
  }

  function Extended(p: Past, v: Event): Past {
    p.(events := p.events + [v])
  }

  lemma OneMoreEvent(e: Endpoint, log: seq<bool>, p: Past, v: Event)
    requires Told(e, log, p) && (v.Attempt? ==> e.active)
    ensures Told(AfterOne(e, v), if v.Attempt? then log + [v.success] else log, Extended(p, v))
  {
    LegalAppend(p.start, p.events, v);
    AfterAppend(p.start, p.events, v);
  }

  lemma EditSound(endpoints: seq<Endpoint>, deliveries: seq<Delivery>, pasts: map<nat, Past>, at: nat, c: Edit)
    requires Sound(endpoints, deliveries, pasts) && at < |endpoints|
    ensures var e := endpoints[at];
      Sound(endpoints[at := Edited(e, c)], deliveries, pasts[e.id := Extended(pasts[e.id], Change(c))])
  {
    var e := endpoints[at];
    OneMoreEvent(e, Log(deliveries, e.id), pasts[e.id], Change(c));
  }

  lemma DeliveryTold(e: Endpoint, deliveries: seq<Delivery>, p: Past, d: Delivery)
    requires Told(e, Log(deliveries, e.id), p) && (d.endpoint == e.id ==> e.active)
    ensures d.endpoint == e.id ==> Told(Delivered(e, d.success), Log(deliveries + [d], e.id), Extended(p, Attempt(d.success)))
    ensures d.endpoint != e.id ==> Told(e, Log(deliveries + [d], e.id), p)
  {
    LogAppend(deliveries, d, e.id);
    if d.endpoint == e.id {
      OneMoreEvent(e, Log(deliveries, e.id), p, Attempt(d.success));
    }
  }

  // One delivery keeps every endpoint and log in agreement with its past.
  lemma DeliveryKeepsSound(endpoints: seq<Endpoint>, deliveries: seq<Delivery>, pasts: map<nat, Past>, at: nat, d: Delivery)
    requires Sound(endpoints, deliveries, pasts) && at < |endpoints| && endpoints[at].active
    requires d.endpoint == endpoints[at].id
    ensures Sound(endpoints[at := Delivered(endpoints[at], d.success)], deliveries + [d],
                  pasts[d.endpoint := Extended(pasts[d.endpoint], Attempt(d.success))])
  {
    var after := endpoints[at := Delivered(endpoints[at], d.success)];
    var pasts' := pasts[d.endpoint := Extended(pasts[d.endpoint], Attempt(d.success))];
    forall i | 0 <= i < |after|
      ensures after[i].id in pasts' && Told(after[i], Log(deliveries + [d], after[i].id), pasts'[after[i].id])
    {
      DeliveryTold(endpoints[i], deliveries, pasts[endpoints[i].id], d);
    }
  }

  lemma OneLogged(log: seq<Delivery>, before: seq<Endpoint>, matching: seq<nat>, i: nat, event: string, outcome: nat -> Outcome)
    requires i < |matching| && Positions(matching, |before|)
    ensures var e := before[matching[i]];
      log + Deliveries(before, matching[..i + 1], event, outcome)
      == log + Deliveries(before, matching[..i], event, outcome) + [Logged(e, event, outcome(e.id))]
  {
    assert matching[..i + 1][..i] == matching[..i];
  }

  class Dispatcher {
    var endpoints: seq<Endpoint>
    var deliveries: seq<Delivery>
    ghost var pasts: map<nat, Past>

    ghost predicate Valid()
      reads this
    {
      Sound(endpoints, deliveries, pasts)
    }

    constructor ()
      ensures Valid() && endpoints == [] && deliveries == []
    {
      endpoints, deliveries, pasts := [], [], map[];
    }

    method GetActiveEndpointsForEvent(organization: nat, event: string) returns (matching: seq<nat>)
      ensures matching == Matching(endpoints, organization, event)
    {
      matching := [];
      var i := 0;
      while i < |endpoints|
        invariant 0 <= i <= |endpoints|
        invariant matching == Matching(endpoints[..i], organization, event)
      {
        assert endpoints[..i + 1][..i] == endpoints[..i];
        assert matching + [] == matching;
        if endpoints[i].organization == organization && endpoints[i].active {
          if "*" in endpoints[i].events || event in endpoints[i].events {
            matching := matching + [i];
          }
        }
        i := i + 1;
      }
      assert endpoints[..i] == endpoints;
    }

    /** One HTTP attempt: the status code, if there was an answer, and whether it counts as success. */
    method Send(o: Outcome) returns (status: Option<int>, success: bool)
      ensures status == (if o.Answered? then Some(o.status) else None) && success == Succeeds(o)
      ensures success <==> o.Answered? && 200 <= o.status <= 299
    {
      status, success := None, false;
      match o
      case Answered(code) =>
        status, success := Some(code), 200 <= code < 300;
      case TimedOut =>
      case NetworkError =>
    }

    method Deliver(at: nat, event: string, o: Outcome)
      requires Valid() && at < |endpoints| && endpoints[at].active
      modifies this
      ensures Valid() && pasts.Keys == old(pasts).Keys
      ensures endpoints == old(endpoints)[at := Delivered(old(endpoints)[at], Succeeds(o))]
      ensures deliveries == old(deliveries) + [Logged(old(endpoints)[at], event, o)]
      ensures CountedByFields(old(endpoints)[at], endpoints[at], o)
    {
      var e := endpoints[at];
      var status, success := Send(o);
      DeliveryKeepsSound(endpoints, deliveries, pasts, at, Delivery(e.id, event, status, success));
      pasts := pasts[e.id := Extended(pasts[e.id], Attempt(success))];
      deliveries := deliveries + [Delivery(e.id, event, status, success)];
      if success {
        e := e.(failures := 0);
      } else {
        e := e.(failures := e.failures + 1);
        if e.failures >= MAX_FAILURES {
          e := e.(active := false);
        }
      }
      assert e == Delivered(endpoints[at], success);
      endpoints := endpoints[at := e];
    }

    method DeliverAll(matching: seq<nat>, event: string, outcome: nat -> Outcome)
      requires Valid() && Positions(matching, |endpoints|) && AllActive(endpoints, matching) && Rising(matching)
      modifies this
      ensures Valid() && pasts.Keys == old(pasts).Keys
      ensures Served(old(endpoints), endpoints, matching, outcome)
      ensures deliveries == old(deliveries) + Deliveries(old(endpoints), matching, event, outcome)
    {
      ghost var before, log := endpoints, deliveries;
      var i := 0;
      while i < |matching|
        invariant 0 <= i <= |matching| && Valid() && pasts.Keys == old(pasts).Keys
        invariant Served(before, endpoints, matching[..i], outcome)
        invariant deliveries == log + Deliveries(before, matching[..i], event, outcome)
      {
        NotYet(matching, i);
        OneServed(before, endpoints, matching[..i], matching[i], outcome);
        OneLogged(log, before, matching, i, event, outcome);
        Deliver(matching[i], event, outcome(endpoints[matching[i]].id));
        i := i + 1;
      }
      assert matching[..i] == matching;
    }

    method DispatchEvent(organization: nat, event: string, outcome: nat -> Outcome)
      requires Valid()
      modifies this
      ensures Valid() && pasts.Keys == old(pasts).Keys
      ensures Served(old(endpoints), endpoints, Matching(old(endpoints), organization, event), outcome)
      ensures deliveries == old(deliveries) + Deliveries(old(endpoints), Matching(old(endpoints), organization, event), event, outcome)
    {
      var matching := GetActiveEndpointsForEvent(organization, event);
      MatchingActive(endpoints, organization, event);
      DeliverAll(matching, event, outcome);
    }

    /** `id` is fresh; the newest endpoint is listed first. */
    method CreateEndpoint(id: nat, organization: nat, name: string, url: string, events: seq<string>)
      requires Valid() && id !in pasts
      modifies `endpoints, `pasts
      ensures Valid()
      ensures var e := Endpoint(id, organization, name, url, events, true, 0);
        endpoints == [e] + old(endpoints) && pasts == old(pasts)[id := Past(e, [])]
    {
      NeverLogged(deliveries, id);
      var e := Endpoint(id, organization, name, url, events, true, 0);
      endpoints := [e] + endpoints;
      pasts := pasts[id := Past(e, [])];
    }

    static method WithEdit(e: Endpoint, name: Option<string>, url: Option<string>, events: Option<seq<string>>, active: Option<bool>)
      returns (edited: Endpoint)
      ensures edited == Edited(e, Edit(name, url, events, active))
    {
      edited := e;
      if name.Some? {
        edited := edited.(name := name.value);
      }
      if url.Some? {
        edited := edited.(url := url.value);
      }
      if events.Some? {
        edited := edited.(events := events.value);
      }
      if active.Some? {
        edited := edited.(active := active.value);
      }
    }

    /** Switching an endpoint on again leaves its failure counter as it was. */
    method UpdateEndpoint(at: nat, name: Option<string>, url: Option<string>, events: Option<seq<string>>, active: Option<bool>)
      requires Valid() && at < |endpoints|
      modifies `endpoints, `pasts
      ensures Valid()
      ensures var e, edit := old(endpoints)[at], Edit(name, url, events, active);
        && endpoints == old(endpoints)[at := Edited(e, edit)]
        && e.id in old(pasts) && pasts == old(pasts)[e.id := Extended(old(pasts)[e.id], Change(edit))]
      ensures var e, u := old(endpoints)[at], endpoints[at];
        && u.id == e.id && u.organization == e.organization && u.failures == e.failures
        && (u.name == if name.Some? then name.value else e.name) && (u.url == if url.Some? then url.value else e.url)
        && (u.events == if events.Some? then events.value else e.events) && (u.active == if active.Some? then active.value else e.active)
    {
      var e := endpoints[at];
      EditSound(endpoints, deliveries, pasts, at, Edit(name, url, events, active));
      pasts := pasts[e.id := Extended(pasts[e.id], Change(Edit(name, url, events, active)))];
      e := WithEdit(e, name, url, events, active);
      endpoints := endpoints[at := e];
    }

    method DeleteEndpoint(at: nat)
      requires Valid() && at < |endpoints|
      modifies `endpoints, `deliveries
      ensures Valid()
      ensures endpoints == old(endpoints)[..at] + old(endpoints)[at + 1..]
      ensures deliveries == Purged(old(deliveries), old(endpoints)[at].id)
    {
      var id := endpoints[at].id;
      forall other
        ensures Log(Purged(deliveries, id), other) == if other == id then [] else Log(deliveries, other)
      {
        PurgedKeepsOthers(deliveries, id, other);
      }
      PurgedMembers(deliveries, id);
      deliveries := Purged(deliveries, id);
      endpoints := endpoints[..at] + endpoints[at + 1..];
    }

    // A stored endpoint's counter is its log's trailing run of failures, and the log keeps the limit
    // of fifty exactly when no revival was followed by a failure before a success.
    lemma FiftyInARowIff(i: nat)
      requires Valid() && i < |endpoints|
      ensures var log, p := Log(deliveries, endpoints[i].id), pasts[endpoints[i].id];
        && endpoints[i].failures == Trailing(log)
        && Longest(log) <= MAX_FAILURES + Revivals(p.start, p.events)
        && (Longest(log) <= MAX_FAILURES <==> forall k :: 0 <= k < |p.events| ==> !Relapse(p.start, p.events, k))
    {
      var p := pasts[endpoints[i].id];
      CounterIsTrailingRun(p.start, p.events);
      FailuresBounded(p.start, p.events);
      FiftyKeptIff(p.start, p.events);
    }

    // An endpoint never switched on at its limit has had at most fifty failed deliveries in a row, at any time.
    lemma AtMostFiftyInARow(i: nat, from: nat, to: nat)
      requires Valid() && i < |endpoints|
      requires Revivals(pasts[endpoints[i].id].start, pasts[endpoints[i].id].events) == 0
      requires from <= to <= |Log(deliveries, endpoints[i].id)|
      requires forall k :: from <= k < to ==> !Log(deliveries, endpoints[i].id)[k]
      ensures to - from <= MAX_FAILURES
    {
      LongestCoversEveryRun(Log(deliveries, endpoints[i].id), from, to);
      FiftyInARowIff(i);
    }
  }

  lemma {:induction false} NeverLogged(deliveries: seq<Delivery>, id: nat)
    requires forall d :: d in deliveries ==> d.endpoint != id
    ensures Log(deliveries, id) == []
  {
    if deliveries != [] {
      NeverLogged(deliveries[..|deliveries| - 1], id);
    }
  }

  lemma {:induction false} PurgedMembers(deliveries: seq<Delivery>, id: nat)
    ensures forall d :: d in Purged(deliveries, id) <==> d in deliveries && d.endpoint != id
  {
    if deliveries != [] {
      var n := |deliveries| - 1;
      PurgedMembers(deliveries[..n], id);
      assert deliveries == deliveries[..n] + [deliveries[n]];
    }
  }
}
