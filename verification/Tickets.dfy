/** Tickets, their SLA clock and their event log. */
module Tickets {
  import opened Prelude
  import opened Cursor

  datatype Status = OPEN | IN_PROGRESS | WAITING_CUSTOMER | RESOLVED | CLOSED
  datatype Priority = LOW | MEDIUM | HIGH | URGENT
  datatype EventKind = CREATED | ASSIGNED | STATUS_CHANGED | PRIORITY_CHANGED | REPLIED

  datatype Event = Event(kind: EventKind, user: Option<Uuid>, description: string)

  /** A ticket row together with the event rows that belong to it, oldest first. */
  datatype Ticket = Ticket(id: Uuid, organization: Uuid, conversation: Uuid, subject: string, status: Status, priority: Priority,
                           createdAt: Stamp, assignee: Option<Uuid>, events: seq<Event>)

  // ------------------------------------------------------------------
  // Instants, in microseconds; a naive timestamp is read as UTC
  // ------------------------------------------------------------------

  const SECOND := 1000000
  const HOUR := 3600 * SECOND

  function DaysBeforeYear(y: int): int {
    (y - 1) * 365 + (y - 1) / 4 - (y - 1) / 100 + (y - 1) / 400
  }

  function DaysBeforeMonth(y: nat, m: nat): nat {
    if m <= 1 then 0 else DaysBeforeMonth(y, m - 1) + DaysInMonth(y, m - 1)
  }

  function DayNumber(y: nat, m: nat, d: nat): int {
    DaysBeforeYear(y) + DaysBeforeMonth(y, m) + d
  }

  function TimeOfDay(h: int, m: int, s: int, us: int): int {
    h * HOUR + m * 60 * SECOND + s * SECOND + us
  }

  function Instant(t: Stamp): int {
    Clock(DayNumber(t.year, t.month, t.day), t.hour, t.minute, t.second, t.micro, t.offset)
  }

  function Clock(day: int, h: int, m: int, s: int, us: int, offset: Option<Offset>): int {
    var local := day * 24 * HOUR + TimeOfDay(h, m, s, us);
    match offset
    case None => local
    case Some(o) =>
      var shift := TimeOfDay(o.hours, o.minutes, o.seconds, o.micros);
      if o.negative then local + shift else local - shift
  }

  function Tomorrow(t: Stamp): RawStamp {
    if t.day < DaysInMonth(t.year, t.month) then t.(day := t.day + 1)
    else if t.month < 12 then t.(month := t.month + 1, day := 1)
    else t.(year := t.year + 1, month := 1, day := 1)
  }

  lemma Carries(y: nat)
    requires y >= 1
    ensures y / 4 - (y - 1) / 4 == if y % 4 == 0 then 1 else 0
    ensures y / 100 - (y - 1) / 100 == if y % 100 == 0 then 1 else 0
    ensures y / 400 - (y - 1) / 400 == if y % 400 == 0 then 1 else 0
  {
  }

  lemma YearLength(y: nat)
    requires y >= 1
    ensures DaysBeforeYear(y + 1) - DaysBeforeYear(y) == if LeapYear(y) then 366 else 365
  {
    Carries(y);
    Centuries(y);
  }

  lemma Centuries(y: nat)
    ensures y % 400 == 0 ==> y % 100 == 0
    ensures y % 100 == 0 ==> y % 4 == 0
  {
    if y % 400 == 0 {
      assert y == 100 * (4 * (y / 400));
    }
    if y % 100 == 0 {
      assert y == 4 * (25 * (y / 100));
    }
  }

  lemma BeforeDecember(y: nat)
    ensures DaysBeforeMonth(y, 12) + 31 == if LeapYear(y) then 366 else 365
  {
    assert DaysBeforeMonth(y, 2) == 31;
    assert DaysBeforeMonth(y, 3) == 31 + DaysInMonth(y, 2);
    assert DaysBeforeMonth(y, 5) == DaysBeforeMonth(y, 3) + 61;
    assert DaysBeforeMonth(y, 7) == DaysBeforeMonth(y, 5) + 61;
    assert DaysBeforeMonth(y, 9) == DaysBeforeMonth(y, 7) + 62;
    assert DaysBeforeMonth(y, 11) == DaysBeforeMonth(y, 9) + 61;
  }

  lemma NextDayNumber(t: Stamp, u: Stamp)
    requires u == Tomorrow(t)
    ensures DayNumber(u.year, u.month, u.day) == DayNumber(t.year, t.month, t.day) + 1
  {
    if t.day == DaysInMonth(t.year, t.month) && t.month == 12 {
      YearLength(t.year);
      BeforeDecember(t.year);
    }
  }

  // The same time on the next day of the calendar, across months, years and leap days, is 24 hours later.
  lemma DayByDay(t: Stamp, u: Stamp)
    requires u == Tomorrow(t)
    ensures Instant(u) == Instant(t) + 86400 * 1000000
  {
    NextDayNumber(t, u);
    NextDay(DayNumber(t.year, t.month, t.day), t.hour, t.minute, t.second, t.micro, t.offset);
  }

  lemma NextDay(day: int, h: int, m: int, s: int, us: int, offset: Option<Offset>)
    ensures Clock(day + 1, h, m, s, us, offset) == Clock(day, h, m, s, us, offset) + 86400 * 1000000
  {
  }

  // Within a day the instants differ as the clocks do; an offset from UTC is subtracted, none is UTC.
  lemma ClockAndOffset(t: Stamp, midnight: Stamp)
    requires midnight == t.(hour := 0, minute := 0, second := 0, micro := 0, offset := None)
    ensures var local := Instant(midnight) + ((t.hour * 60 + t.minute) * 60 + t.second) * 1000000 + t.micro;
      match t.offset
      case None => Instant(t) == local
      case Some(o) =>
        var shift := ((o.hours * 60 + o.minutes) * 60 + o.seconds) * 1000000 + o.micros;
        Instant(t) == if o.negative then local + shift else local - shift
  {
    var day := DayNumber(t.year, t.month, t.day);
    SinceMidnight(day, t.hour, t.minute, t.second, t.micro, t.offset);
    assert Instant(midnight) == Clock(day, 0, 0, 0, 0, None);
  }

  lemma SinceMidnight(day: int, h: int, m: int, s: int, us: int, offset: Option<Offset>)
    ensures var local := Clock(day, 0, 0, 0, 0, None) + ((h * 60 + m) * 60 + s) * 1000000 + us;
      match offset
      case None => Clock(day, h, m, s, us, offset) == local
      case Some(o) =>
        var shift := ((o.hours * 60 + o.minutes) * 60 + o.seconds) * 1000000 + o.micros;
        Clock(day, h, m, s, us, offset) == if o.negative then local + shift else local - shift
  {
  }

  // ------------------------------------------------------------------
  // SLA: escalation on read, and the deadline shown in responses
  // ------------------------------------------------------------------

  predicate Settled(s: Status) {
    s == RESOLVED || s == CLOSED
  }

  function SlaHours(p: Priority): nat {
    match p
    case URGENT => 1
    case HIGH => 4
    case MEDIUM => 24
    case LOW => 48
  }

  function Deadline(t: Ticket): int {
    Instant(t.createdAt) + SlaHours(t.priority) * HOUR
  }

  predicate Overdue(t: Ticket, now: int) {
    !Settled(t.status) && now > Deadline(t)
  }

  function Rank(p: Priority): nat {
    match p
    case LOW => 0
    case MEDIUM => 1
    case HIGH => 2
    case URGENT => 3
  }

  function Raised(p: Priority): Priority {
    match p
    case LOW => MEDIUM
    case MEDIUM => HIGH
    case HIGH => URGENT
    case URGENT => URGENT
  }

  /** What one read at time `now` leaves behind. */
  function Checked(t: Ticket, now: int): Ticket {
    if Overdue(t, now) && t.priority != URGENT then
      var p := Raised(t.priority);
      t.(priority := p, events := t.events + [Event(PRIORITY_CHANGED, None, EscalationText(p))])
    else t
  }

  lemma OverdueByFields(t: Ticket, now: int)
    ensures t.status == RESOLVED || t.status == CLOSED ==> !Overdue(t, now)
    ensures t.status == OPEN || t.status == IN_PROGRESS || t.status == WAITING_CUSTOMER ==>
      (Overdue(t, now) <==> now - Instant(t.createdAt) > (if t.priority == LOW then 48 else if t.priority == MEDIUM then 24 else if t.priority == HIGH then 4 else 1) * 3600000000)
  {
  }

  // What a read does, by the fields of the ticket: only an open ticket that is older than its priority allows
  // goes up by one rank, and nothing but its priority and log changes.
  lemma ReadByFields(t: Ticket, now: int)
    ensures var u, age := Checked(t, now), now - Instant(t.createdAt);
      && u == t.(priority := u.priority, events := u.events)
      && (t.status == RESOLVED || t.status == CLOSED || t.priority == URGENT ==> u == t)
      && (t.status == OPEN || t.status == IN_PROGRESS || t.status == WAITING_CUSTOMER ==>
            && (t.priority == LOW ==> u.priority == if age > 172800 * 1000000 then MEDIUM else LOW)
            && (t.priority == MEDIUM ==> u.priority == if age > 86400 * 1000000 then HIGH else MEDIUM)
            && (t.priority == HIGH ==> u.priority == if age > 14400 * 1000000 then URGENT else HIGH))
      && (u.priority == t.priority ==> u.events == t.events)
      && (u.priority != t.priority ==>
            && |u.events| == |t.events| + 1 && u.events[..|t.events|] == t.events
            && u.events[|t.events|].kind == PRIORITY_CHANGED && u.events[|t.events|].user == None)
  {
    OverdueByFields(t, now);
  }

  datatype Shown = Resolved | Breached | HoursLeft(hours: int) | MinutesLeft(minutes: int)

  /** The response schema's own copy of the SLA table. */
  function ShownHours(p: Priority): nat {
    if p == URGENT then 1 else if p == HIGH then 4 else if p == MEDIUM then 24 else 48
  }

  function SlaDeadline(t: Ticket, now: int): Shown {
    if Settled(t.status) then Resolved
    else
      var deadline := Instant(t.createdAt) + ShownHours(t.priority) * HOUR;
      if now > deadline then Breached
      else
        var diff := deadline - now;
        if diff / HOUR > 0 then HoursLeft(diff / HOUR) else MinutesLeft(diff % HOUR / (60 * SECOND))
  }

  lemma BreachedIffOverdue(t: Ticket, now: int)
    ensures SlaDeadline(t, now) == Breached <==> Overdue(t, now)
  {
  }

  /** The hours or minutes shown are the whole ones left. */
  // The labels by the fields of the ticket.
  lemma ShownByFields(t: Ticket, now: int)
    ensures SlaDeadline(t, now) == Resolved <==> t.status == RESOLVED || t.status == CLOSED
    ensures t.status == OPEN || t.status == IN_PROGRESS || t.status == WAITING_CUSTOMER ==>
      var age := now - Instant(t.createdAt);
      && (t.priority == LOW ==> (SlaDeadline(t, now) == Breached <==> age > 172800 * 1000000))
      && (t.priority == MEDIUM ==> (SlaDeadline(t, now) == Breached <==> age > 86400 * 1000000))
      && (t.priority == HIGH ==> (SlaDeadline(t, now) == Breached <==> age > 14400 * 1000000))
      && (t.priority == URGENT ==> (SlaDeadline(t, now) == Breached <==> age > 3600 * 1000000))
  {
    BreachedIffOverdue(t, now);
    OverdueByFields(t, now);
  }

  lemma TimeShownIsFloor(t: Ticket, now: int)
    ensures SlaDeadline(t, now).HoursLeft? ==>
      var h := SlaDeadline(t, now).hours; h >= 1 && h * HOUR <= Deadline(t) - now < (h + 1) * HOUR
    ensures SlaDeadline(t, now).MinutesLeft? ==>
      var m := SlaDeadline(t, now).minutes; 0 <= m < 60 && m * 60 * SECOND <= Deadline(t) - now < (m + 1) * 60 * SECOND
  {
    var left := Deadline(t) - now;
    if left >= 0 {
      Floors(left);
    }
  }

  lemma Floors(left: nat)
    ensures left / HOUR * HOUR <= left < (left / HOUR + 1) * HOUR
    ensures left / HOUR == 0 ==>
      var m := left % HOUR / (60 * SECOND); 0 <= m < 60 && m * 60 * SECOND <= left < (m + 1) * 60 * SECOND
  {
  }

  // The shown text and the escalation test agree, and a read escalates exactly the tickets
  // shown as breached that are not yet urgent.
  lemma ShownAgreesWithEscalation(t: Ticket, now: int)
    ensures SlaDeadline(t, now) == Breached <==> Overdue(t, now)
    ensures Checked(t, now) != t <==> SlaDeadline(t, now) == Breached && t.priority != URGENT
    ensures SlaDeadline(t, now).HoursLeft? ==>
      var h := SlaDeadline(t, now).hours; h >= 1 && h * HOUR <= Deadline(t) - now < (h + 1) * HOUR
    ensures SlaDeadline(t, now).MinutesLeft? ==>
      var m := SlaDeadline(t, now).minutes; 0 <= m < 60 && m * 60 * SECOND <= Deadline(t) - now < (m + 1) * 60 * SECOND
  {
    BreachedIffOverdue(t, now);
    TimeShownIsFloor(t, now);
  }

  // ------------------------------------------------------------------
  // The event log
  // ------------------------------------------------------------------

  function StatusName(s: Status): string {
    match s
    case OPEN => "OPEN"
    case IN_PROGRESS => "IN_PROGRESS"
    case WAITING_CUSTOMER => "WAITING_CUSTOMER"
    case RESOLVED => "RESOLVED"
    case CLOSED => "CLOSED"
  }

  function PriorityName(p: Priority): string {
    match p
    case LOW => "LOW"
    case MEDIUM => "MEDIUM"
    case HIGH => "HIGH"
    case URGENT => "URGENT"
  }

  function StatusText(s: Status): string {
    "Status changed to " + StatusName(s) + "."
  }

  function PriorityText(p: Priority): string {
    "Priority changed to " + PriorityName(p) + "."
  }

  function EscalationText(p: Priority): string {
    "Auto-escalated to " + PriorityName(p) + " due to SLA breach."
  }

  lemma NamesAre()
    ensures StatusName(OPEN) == "OPEN" && StatusName(IN_PROGRESS) == "IN_PROGRESS" && StatusName(WAITING_CUSTOMER) == "WAITING_CUSTOMER"
    ensures StatusName(RESOLVED) == "RESOLVED" && StatusName(CLOSED) == "CLOSED"
    ensures PriorityName(LOW) == "LOW" && PriorityName(MEDIUM) == "MEDIUM"
    ensures PriorityName(HIGH) == "HIGH" && PriorityName(URGENT) == "URGENT"
    ensures EscalationText(HIGH) == "Auto-escalated to HIGH due to SLA breach."
  {
  }

  /** Reads a status or priority back out of an event's description. */
  function ReadStatus(d: string): Option<Status> {
    if d == StatusText(OPEN) then Some(OPEN)
    else if d == StatusText(IN_PROGRESS) then Some(IN_PROGRESS)
    else if d == StatusText(WAITING_CUSTOMER) then Some(WAITING_CUSTOMER)
    else if d == StatusText(RESOLVED) then Some(RESOLVED)
    else if d == StatusText(CLOSED) then Some(CLOSED)
    else None
  }

  function ReadPriority(d: string): Option<Priority> {
    if d == PriorityText(LOW) || d == EscalationText(LOW) then Some(LOW)
    else if d == PriorityText(MEDIUM) || d == EscalationText(MEDIUM) then Some(MEDIUM)
    else if d == PriorityText(HIGH) || d == EscalationText(HIGH) then Some(HIGH)
    else if d == PriorityText(URGENT) || d == EscalationText(URGENT) then Some(URGENT)
    else None
  }

  lemma StatusReadsBack(s: Status)
    ensures ReadStatus(StatusText(s)) == Some(s)
  {
    assert forall r: Status :: |StatusText(r)| == 19 + |StatusName(r)|;
  }

  lemma PriorityNamesDiffer(p: Priority, q: Priority)
    requires p != q
    ensures PriorityText(p) != PriorityText(q)
    ensures EscalationText(p) != EscalationText(q)
  {
    assert PriorityText(p)[20] == PriorityName(p)[0] && PriorityText(q)[20] == PriorityName(q)[0];
    assert EscalationText(p)[18] == PriorityName(p)[0] && EscalationText(q)[18] == PriorityName(q)[0];
  }

  lemma PriorityReadsBack(p: Priority)
    ensures ReadPriority(PriorityText(p)) == Some(p)
    ensures ReadPriority(EscalationText(p)) == Some(p)
  {
    forall q: Priority | q != p
      ensures PriorityText(p) != PriorityText(q) && EscalationText(p) != EscalationText(q)
    {
      PriorityNamesDiffer(p, q);
    }
    assert PriorityText(p)[0] == 'P';
    assert forall q: Priority :: EscalationText(q)[0] == 'A' && PriorityText(q)[0] == 'P';
  }

  function ReplayOne(state: (Priority, Status), e: Event): (Priority, Status) {
    if e.kind == STATUS_CHANGED && ReadStatus(e.description).Some? then (state.0, ReadStatus(e.description).value)
    else if e.kind == PRIORITY_CHANGED && ReadPriority(e.description).Some? then (ReadPriority(e.description).value, state.1)
    else state
  }

  /** The priority and status an auditor reads off the log, starting from the priority at creation and OPEN. */
  function Replay(initial: Priority, events: seq<Event>): (Priority, Status) {
    if events == [] then (initial, OPEN)
    else ReplayOne(Replay(initial, events[..|events| - 1]), events[|events| - 1])
  }

  ghost predicate Faithful(initial: Priority, t: Ticket) {
    Replay(initial, t.events) == (t.priority, t.status)
  }

  lemma ReplayAppend(initial: Priority, events: seq<Event>, e: Event)
    ensures Replay(initial, events + [e]) == ReplayOne(Replay(initial, events), e)
  {
    assert (events + [e])[..|events|] == events;
  }

  // ------------------------------------------------------------------
  // The operations on one ticket
  // ------------------------------------------------------------------

  function Opened(id: Uuid, organization: Uuid, conversation: Uuid, subject: string, priority: Priority, createdAt: Stamp): Ticket {
    Ticket(id, organization, conversation, subject, OPEN, priority, createdAt, None,
           [Event(CREATED, None, "Ticket created by AI.")])
  }

  function StatusSet(t: Ticket, s: Status, actor: Option<Uuid>): Ticket {
    t.(status := s, events := t.events + [Event(STATUS_CHANGED, actor, StatusText(s))])
  }

  function PrioritySet(t: Ticket, p: Priority, actor: Option<Uuid>): Ticket {
    t.(priority := p, events := t.events + [Event(PRIORITY_CHANGED, actor, PriorityText(p))])
  }

  function AssignedTo(t: Ticket, user: Uuid, name: string, actor: Option<Uuid>): Ticket {
    t.(assignee := Some(user), events := t.events + [Event(ASSIGNED, if actor.Some? then actor else Some(user), "Assigned to " + name + ".")])
  }

  function Replied(t: Ticket, actor: Option<Uuid>): Ticket {
    t.(events := t.events + [Event(REPLIED, if actor.Some? then actor else t.assignee, "Support agent replied.")])
  }

  /** One service call that reached an existing ticket; every one of them first runs the SLA check. */
  datatype Call =
    | Read(now: int)
    | SetStatus(now: int, status: Status, actor: Option<Uuid>)
    | SetPriority(now: int, priority: Priority, actor: Option<Uuid>)
    | Assign(now: int, user: Uuid, name: string, actor: Option<Uuid>)
    | Reply(now: int, actor: Option<Uuid>)

  function After(t: Ticket, c: Call): Ticket {
    var t := Checked(t, c.now);
    match c
    case Read(_) => t
    case SetStatus(_, s, actor) => StatusSet(t, s, actor)
    case SetPriority(_, p, actor) => PrioritySet(t, p, actor)
    case Assign(_, user, name, actor) => AssignedTo(t, user, name, actor)
    case Reply(_, actor) => Replied(t, actor)
  }

  // What each call changes besides the check: one field at most, and one event by its actor.
  lemma CallByFields(t: Ticket, c: Call)
    ensures var r, u := Checked(t, c.now), After(t, c);
      match c
      case Read(_) => u == r
      case SetStatus(_, s, actor) =>
        && u == r.(status := s, events := u.events) && OneMore(r.events, u.events)
        && u.events[|r.events|] == Event(STATUS_CHANGED, actor, "Status changed to " + StatusName(s) + ".")
      case SetPriority(_, p, actor) =>
        && u == r.(priority := p, events := u.events) && OneMore(r.events, u.events)
        && u.events[|r.events|] == Event(PRIORITY_CHANGED, actor, "Priority changed to " + PriorityName(p) + ".")
      case Assign(_, user, name, actor) =>
        && u == r.(assignee := Some(user), events := u.events) && OneMore(r.events, u.events)
        && u.events[|r.events|].kind == ASSIGNED && u.events[|r.events|].description == "Assigned to " + name + "."
        && u.events[|r.events|].user == Some(if actor.Some? then actor.value else user)
      case Reply(_, actor) =>
        && u == r.(events := u.events) && OneMore(r.events, u.events)
        && u.events[|r.events|].kind == REPLIED
        && u.events[|r.events|].user == if actor.Some? then actor else t.assignee
  {
  }

  predicate OneMore(before: seq<Event>, after: seq<Event>) {
    |after| == |before| + 1 && after[..|before|] == before
  }

  function AfterAll(t: Ticket, calls: seq<Call>): Ticket {
    if calls == [] then t else After(AfterAll(t, calls[..|calls| - 1]), calls[|calls| - 1])
  }

  lemma CheckedFaithful(initial: Priority, t: Ticket, now: int)
    requires Faithful(initial, t)
    ensures Faithful(initial, Checked(t, now))
  {
    if Checked(t, now) != t {
      var p := Raised(t.priority);
      ReplayAppend(initial, t.events, Event(PRIORITY_CHANGED, None, EscalationText(p)));
      PriorityReadsBack(p);
    }
  }

  lemma EventFaithful(initial: Priority, t: Ticket, e: Event, u: Ticket)
    requires Faithful(initial, t) && u.events == t.events + [e]
    requires ReplayOne((t.priority, t.status), e) == (u.priority, u.status)
    ensures Faithful(initial, u)
  {
    ReplayAppend(initial, t.events, e);
  }

  lemma CallFaithful(initial: Priority, t: Ticket, c: Call)
    requires Faithful(initial, t)
    ensures Faithful(initial, After(t, c))
  {
    CheckedFaithful(initial, t, c.now);
    var t := Checked(t, c.now);
    match c
    case Read(_) =>
    case SetStatus(_, s, actor) =>
      StatusReadsBack(s);
      EventFaithful(initial, t, Event(STATUS_CHANGED, actor, StatusText(s)), StatusSet(t, s, actor));
    case SetPriority(_, p, actor) =>
      PriorityReadsBack(p);
      EventFaithful(initial, t, Event(PRIORITY_CHANGED, actor, PriorityText(p)), PrioritySet(t, p, actor));
    case Assign(_, user, name, actor) =>
      var u := AssignedTo(t, user, name, actor);
      EventFaithful(initial, t, u.events[|t.events|], u);
    case Reply(_, actor) =>
      var u := Replied(t, actor);
      EventFaithful(initial, t, u.events[|t.events|], u);
  }

  lemma {:induction false} OpenedFaithful(t: Ticket)
    requires t == Opened(t.id, t.organization, t.conversation, t.subject, t.priority, t.createdAt)
    ensures Faithful(t.priority, t)
  {
    ReplayAppend(t.priority, [], t.events[0]);
    assert [] + [t.events[0]] == t.events;
  }

  // Over every run of calls the log alone tells the current priority and status.
  lemma {:induction false} LogReplaysEveryRun(t: Ticket, calls: seq<Call>)
    requires t == Opened(t.id, t.organization, t.conversation, t.subject, t.priority, t.createdAt)
    ensures var u := AfterAll(t, calls); Replay(t.priority, u.events) == (u.priority, u.status)
  {
    if calls == [] {
      OpenedFaithful(t);
    } else {
      var before := calls[..|calls| - 1];
      LogReplaysEveryRun(t, before);
      CallFaithful(t.priority, AfterAll(t, before), calls[|calls| - 1]);
    }
  }

  // ------------------------------------------------------------------
  // Escalation over runs
  // ------------------------------------------------------------------

  // Hours fall as priority rises, so escalating never moves a deadline into the future.
  lemma BreachPersists(t: Ticket, now: int, later: int)
    requires Overdue(t, now) && now <= later
    ensures Overdue(Checked(t, now), later) && SlaDeadline(Checked(t, now), later) == Breached
    ensures Rank(Checked(t, now).priority) == if t.priority == URGENT then 3 else Rank(t.priority) + 1
  {
    assert Deadline(Checked(t, now)) <= Deadline(t);
    BreachedIffOverdue(Checked(t, now), later);
  }

  function Reads(times: seq<int>): seq<Call> {
    seq(|times|, i requires 0 <= i < |times| => Read(times[i]))
  }

  ghost predicate Ordered(times: seq<int>) {
    forall i, j :: 0 <= i < j < |times| ==> times[i] <= times[j]
  }

  // From the read that first finds an open ticket overdue, each read raises it exactly one rank
  // until URGENT, and it is shown as breached throughout.
  lemma {:induction false} EachReadRaisesOneRank(t: Ticket, times: seq<int>)
    requires times != [] && Ordered(times) && Overdue(t, times[0])
    ensures var u := AfterAll(t, Reads(times)); var n := Rank(t.priority) + |times|;
      Rank(u.priority) == (if n < 3 then n else 3) && Overdue(u, times[|times| - 1])
      && SlaDeadline(u, times[|times| - 1]) == Breached
  {
    var last := |times| - 1;
    assert Reads(times)[..last] == Reads(times[..last]);
    if last == 0 {
      assert AfterAll(t, Reads(times)[..0]) == t;
      BreachPersists(t, times[0], times[0]);
    } else {
      EachReadRaisesOneRank(t, times[..last]);
      var u := AfterAll(t, Reads(times[..last]));
      BreachPersists(u, times[last - 1], times[last]);
      assert Overdue(u, times[last]);
      BreachPersists(u, times[last], times[last]);
    }
  }

  predicate IsEscalation(e: Event) {
    e.kind == PRIORITY_CHANGED && e.user == None && |e.description| > 0 && e.description[0] == 'A'
  }

  function Escalations(events: seq<Event>): nat {
    if events == [] then 0
    else Escalations(events[..|events| - 1]) + if IsEscalation(events[|events| - 1]) then 1 else 0
  }

  lemma EscalationsAppend(events: seq<Event>, e: Event)
    ensures Escalations(events + [e]) == Escalations(events) + if IsEscalation(e) then 1 else 0
  {
    assert (events + [e])[..|events|] == events;
  }

  lemma OneEscalation(events: seq<Event>, p: Priority)
    ensures Escalations(events + [Event(PRIORITY_CHANGED, None, EscalationText(p))]) == Escalations(events) + 1
  {
    EscalationsAppend(events, Event(PRIORITY_CHANGED, None, EscalationText(p)));
    assert EscalationText(p)[0] == 'A';
  }

  lemma CheckEscalates(t: Ticket, now: int)
    ensures var u := Checked(t, now); Escalations(u.events) - Escalations(t.events) == Rank(u.priority) - Rank(t.priority)
  {
    if Checked(t, now) != t {
      OneEscalation(t.events, Raised(t.priority));
    }
  }

  lemma CallEscalates(t: Ticket, c: Call)
    requires !c.SetPriority?
    ensures var u := After(t, c); Escalations(u.events) - Escalations(t.events) == Rank(u.priority) - Rank(t.priority)
  {
    var t1, t2 := Checked(t, c.now), After(t, c);
    CheckEscalates(t, c.now);
    if !c.Read? {
      EscalationsAppend(t1.events, t2.events[|t1.events|]);
    }
  }

  // Between manual priority changes, whatever else happens (including resolving and reopening),
  // the log gains exactly one escalation per rank gained: three at most.
  lemma {:induction false} AtMostThreeEscalations(t: Ticket, calls: seq<Call>)
    requires forall i :: 0 <= i < |calls| ==> !calls[i].SetPriority?
    ensures var u := AfterAll(t, calls);
      Escalations(u.events) - Escalations(t.events) == Rank(u.priority) - Rank(t.priority) <= 3
  {
    if calls != [] {
      var n := |calls| - 1;
      var before := AfterAll(t, calls[..n]);
      AtMostThreeEscalations(t, calls[..n]);
      CallEscalates(before, calls[n]);
      assert AfterAll(t, calls) == After(before, calls[n]);
    }
  }
}
