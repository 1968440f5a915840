/** The ticket service: every call updates the stored tickets in place. */
module TicketDesk {
  import opened Prelude
  import opened Cursor
  import opened Tickets
  import opened Pages

  datatype Failure = ConversationNotFound | TicketNotFound | TicketAlreadyExists | UserNotFound | OrganizationNotFound | PermissionDenied

  /** `access` is what the membership gate raises, if anything; it is consulted only for a signed-in caller. */
  predicate Refused(actor: Option<Uuid>, access: Option<Failure>) {
    actor.Some? && access.Some?
  }

  /** What fetching a ticket answers. */
  function Fetched(table: Table, id: Uuid, actor: Option<Uuid>, access: Option<Failure>, now: int): Result<Ticket, Failure> {
    if id !in table then Err(TicketNotFound)
    else if Refused(actor, access) then Err(access.value)
    else Ok(Checked(table[id], now))
  }

  datatype Conversation = Conversation(id: Uuid, organization: Uuid, title: Option<string>)

  /** What looking up a conversation answers: with a cached copy the gate is consulted before the
      stored conversation is, which may be gone by then, otherwise after it. */
  function LookedUp(stored: Option<Conversation>, cached: bool, actor: Option<Uuid>, access: Option<Failure>): Result<Conversation, Failure> {
    if cached && Refused(actor, access) then Err(access.value)
    else if stored.None? then Err(ConversationNotFound)
    else if Refused(actor, access) then Err(access.value)
    else Ok(stored.value)
  }

  /** conversation.title or "Untitled Conversation" */
  function SubjectOf(title: Option<string>): string {
    if title.Some? && title.value != "" then title.value else "Untitled Conversation"
  }

  // ------------------------------------------------------------------
  // The desk as a history of committed changes
  // ------------------------------------------------------------------

  datatype Change =
    | Opening(ticket: Ticket)
    | Called(id: Uuid, call: Call)
    | Listed(f: Filter, cursor: Option<string>, limit: nat, clock: nat -> int)
    | Deleted(id: Uuid)

  function Changed(table: Table, c: Change): Table {
    match c
    case Opening(t) => table[t.id := t]
    case Called(id, call) => if id in table then table[id := After(table[id], call)] else table
    case Listed(f, cursor, limit, clock) => AfterListing(table, f, cursor, limit, clock)
    case Deleted(id) => table - {id}
  }

  function TableAfter(history: seq<Change>): Table {
    if history == [] then map[] else Changed(TableAfter(history[..|history| - 1]), history[|history| - 1])
  }

  lemma TableAfterAppend(history: seq<Change>, c: Change)
    ensures TableAfter(history + [c]) == Changed(TableAfter(history), c)
  {
    assert (history + [c])[..|history|] == history;
  }

  /** The priority each ticket was created with. */
  function Initial(history: seq<Change>): map<Uuid, Priority> {
    if history == [] then map[]
    else
      var before, c := Initial(history[..|history| - 1]), history[|history| - 1];
      if c.Opening? then before[c.ticket.id := c.ticket.priority] else before
  }

  ghost predicate OpensFresh(history: seq<Change>) {
    forall i :: 0 <= i < |history| && history[i].Opening? ==>
      var t := history[i].ticket;
      t == Opened(t.id, t.organization, t.conversation, t.subject, t.priority, t.createdAt)
  }

  lemma {:induction false} ListingFaithful(initial: Priority, table: Table, ids: seq<Uuid>, clock: nat -> int, id: Uuid)
    requires id in table && (forall id :: id in ids ==> id in table) && Faithful(initial, table[id])
    ensures Faithful(initial, CheckRows(table, ids, clock)[id])
  {
    if ids != [] {
      var n := |ids| - 1;
      ListingFaithful(initial, table, ids[..n], clock, id);
      if ids[n] == id {
        CheckedFaithful(initial, CheckRows(table, ids[..n], clock)[id], clock(n));
      }
    }
  }

  // Over every history of creations, calls, listings and deletions, each stored ticket's log
  // alone tells its priority and status.
  lemma {:induction false} EveryLogReplays(history: seq<Change>, id: Uuid)
    requires OpensFresh(history) && id in TableAfter(history)
    ensures id in Initial(history) && Faithful(Initial(history)[id], TableAfter(history)[id])
  {
    var n := |history| - 1;
    var before, c := history[..n], history[n];
    if c == Opening(TableAfter(history)[id]) && c.ticket.id == id {
      OpenedFaithful(c.ticket);
    } else {
      EveryLogReplays(before, id);
      if c.Called? && c.id == id {
        CallFaithful(Initial(before)[id], TableAfter(before)[id], c.call);
      } else if c.Listed? {
        ListingFaithful(Initial(before)[id], TableAfter(before), PageIds(TableAfter(before), c.f, c.cursor, c.limit), c.clock, id);
      }
    }
  }

  function Rows(table: Table, ids: seq<Uuid>): (rows: seq<Ticket>)
    requires forall id :: id in ids ==> id in table
    ensures |rows| == |ids|
    ensures forall i :: 0 <= i < |ids| ==> rows[i] == table[ids[i]]
  {
    if ids == [] then [] else [table[ids[0]]] + Rows(table, ids[1..])
  }

  /** What a caller sees of a listing: tickets of the organization and status asked for, the latest created first. */
  predicate Answers(rows: seq<Ticket>, f: Filter) {
    && (forall t :: t in rows ==> t.organization == f.organization && (f.status.None? || t.status == f.status.value))
    && (forall i, j :: 0 <= i < j < |rows| ==> Instant(rows[i].createdAt) >= Instant(rows[j].createdAt))
  }

  // The rows a listing answers are the listed tickets after their checks.
  lemma ListedRow(table: Table, f: Filter, cursor: Option<string>, limit: nat, clock: nat -> int, i: nat)
    requires i < |PageIds(table, f, cursor, limit)|
    ensures var id := PageIds(table, f, cursor, limit)[i]; var u := AfterListing(table, f, cursor, limit, clock)[id];
      && u == Checked(table[id], clock(i)) && u.createdAt == table[id].createdAt
      && u.organization == f.organization && (f.status.None? || u.status == f.status.value)
  {
    var id := PageIds(table, f, cursor, limit)[i];
    ListedAreChecked(table, f, cursor, limit, clock, id);
    ListedMatches(table, f, cursor, limit, id);
    ReadByFields(table[id], clock(i));
  }

  lemma ListedRows(table: Table, f: Filter, cursor: Option<string>, limit: nat, clock: nat -> int)
    ensures Answers(Rows(AfterListing(table, f, cursor, limit, clock), PageIds(table, f, cursor, limit)), f)
  {
    var ids := PageIds(table, f, cursor, limit);
    var rows := Rows(AfterListing(table, f, cursor, limit, clock), ids);
    forall i | 0 <= i < |rows|
      ensures rows[i].organization == f.organization && (f.status.None? || rows[i].status == f.status.value)
      ensures rows[i].createdAt == table[ids[i]].createdAt
    {
      ListedRow(table, f, cursor, limit, clock, i);
    }
    forall i, j | 0 <= i < j < |rows|
      ensures Instant(rows[i].createdAt) >= Instant(rows[j].createdAt)
    {
      ListedInOrder(table, f, cursor, limit, i, j);
    }
  }

  class Desk {
    var table: Table
    ghost var history: seq<Change>

    /** The stored table is what the recorded history makes of an empty one. */
    ghost predicate Valid()
      reads this
    {
      OpensFresh(history) && table == TableAfter(history)
    }

    constructor ()
      ensures Valid() && table == map[] && history == []
    {
      table := map[];
      history := [];
    }

    ghost method Record(c: Change)
      requires OpensFresh(history + [c]) && table == Changed(TableAfter(history), c)
      modifies `history
      ensures history == old(history) + [c] && Valid()
    {
      TableAfterAppend(history, c);
      history := history + [c];
    }

    method CheckSla(id: Uuid, now: int)
      requires id in table
      modifies `table
      ensures table == old(table)[id := Checked(old(table)[id], now)]
      ensures old(table)[id].status == RESOLVED || old(table)[id].status == CLOSED ==> table == old(table)
    {
      var ticket := table[id];
      assert table == table[id := ticket];
      if ticket.status == RESOLVED || ticket.status == CLOSED {
        return;
      }
      var deadline := Instant(ticket.createdAt) + SlaHours(ticket.priority) * HOUR;
      if now > deadline && ticket.priority != URGENT {
        var raised := if ticket.priority == LOW then MEDIUM else if ticket.priority == MEDIUM then HIGH else URGENT;
        ticket := ticket.(priority := raised);
        ticket := ticket.(events := ticket.events + [Event(PRIORITY_CHANGED, None, EscalationText(raised))]);
        table := table[id := ticket];
      }
    }

    /** The part of every call that fetches the ticket; callers record what they did with it. */
    method Fetch(id: Uuid, actor: Option<Uuid>, access: Option<Failure>, now: int) returns (r: Result<Ticket, Failure>)
      modifies `table
      ensures r == Fetched(old(table), id, actor, access, now)
      ensures table == if r.Ok? then old(table)[id := r.value] else old(table)
    {
      if id !in table {
        return Err(TicketNotFound);
      }
      if actor.Some? && access.Some? {
        return Err(access.value);
      }
      CheckSla(id, now);
      r := Ok(table[id]);
    }

    /** Stores what a call made of the ticket it fetched. */
    method Store(id: Uuid, ticket: Ticket, ghost call: Call)
      requires OpensFresh(history) && id in TableAfter(history)
      requires ticket == After(TableAfter(history)[id], call) && table[id := ticket] == TableAfter(history)[id := ticket]
      modifies this
      ensures Valid() && table == old(table)[id := ticket] && history == old(history) + [Called(id, call)]
    {
      table := table[id := ticket];
      Record(Called(id, call));
    }

    method GetTicket(id: Uuid, actor: Option<Uuid>, access: Option<Failure>, now: int) returns (r: Result<Ticket, Failure>)
      requires Valid()
      modifies this
      ensures Valid()
      ensures id !in old(table) ==> r == Err(TicketNotFound)
      ensures id in old(table) && actor.Some? && access.Some? ==> r == Err(access.value)
      ensures id in old(table) && (actor.None? || access.None?) ==> r == Ok(Checked(old(table)[id], now))
      ensures table == if r.Ok? then old(table)[id := r.value] else old(table)
      ensures history == old(history) + if r.Ok? then [Called(id, Read(now))] else []
    {
      r := Fetch(id, actor, access, now);
      if r.Ok? {
        Record(Called(id, Read(now)));
      }
    }

    static method LookUp(stored: Option<Conversation>, cached: bool, actor: Option<Uuid>, access: Option<Failure>)
      returns (r: Result<Conversation, Failure>)
      ensures r == LookedUp(stored, cached, actor, access)
    {
      if cached {
        if actor.Some? && access.Some? {
          return Err(access.value);
        }
        return if stored.Some? then Ok(stored.value) else Err(ConversationNotFound);
      }
      if stored.None? {
        return Err(ConversationNotFound);
      }
      if actor.Some? && access.Some? {
        return Err(access.value);
      }
      r := Ok(stored.value);
    }

    static method NewTicket(id: Uuid, organization: Uuid, conversation: Uuid, subject: string, priority: Priority, createdAt: Stamp)
      returns (ticket: Ticket)
      ensures ticket == Opened(id, organization, conversation, subject, priority, createdAt)
    {
      ticket := Ticket(id, organization, conversation, subject, OPEN, priority, createdAt, None, []);
      ticket := ticket.(events := ticket.events + [Event(CREATED, None, "Ticket created by AI.")]);
    }

    /** `stored` and `cached` are what the database and the cache hold of the conversation. */
    method CreateTicket(id: Uuid, stored: Option<Conversation>, cached: bool, actor: Option<Uuid>, access: Option<Failure>,
                        priority: Priority, createdAt: Stamp)
      returns (r: Result<Ticket, Failure>)
      requires Valid() && id !in table
      modifies this
      ensures Valid()
      ensures r.Err? ==> table == old(table) && history == old(history)
      ensures stored.None? ==> r == Err(if cached && actor.Some? && access.Some? then access.value else ConversationNotFound)
      ensures stored.Some? && actor.Some? && access.Some? ==> r == Err(access.value)
      ensures stored.Some? && (actor.None? || access.None?) ==>
        (r == Err(TicketAlreadyExists) <==> exists other :: other in old(table) && old(table)[other].conversation == stored.value.id)
        && (r.Err? ==> r.error == TicketAlreadyExists)
      ensures r.Ok? ==>
        var c, t := stored.value, r.value;
        && t.id == id && t.organization == c.organization && t.conversation == c.id && t.createdAt == createdAt
        && t.subject == (if c.title.Some? && c.title.value != "" then c.title.value else "Untitled Conversation")
        && t.status == OPEN && t.priority == priority && t.assignee == None
        && |t.events| == 1 && t.events[0].kind == CREATED && t.events[0].user == None
        && table == old(table)[id := t] && history == old(history) + [Opening(t)]
    {
      var looked := LookUp(stored, cached, actor, access);
      if looked.Err? {
        return Err(looked.error);
      }
      var Conversation(conversation, organization, title) := looked.value;
      if exists other :: other in table && table[other].conversation == conversation {
        return Err(TicketAlreadyExists);
      }
      var ticket := NewTicket(id, organization, conversation, SubjectOf(title), priority, createdAt);
      table := table[id := ticket];
      Record(Opening(ticket));
      r := Ok(ticket);
    }

    method UpdateStatus(id: Uuid, status: Status, actor: Option<Uuid>, access: Option<Failure>, now: int) returns (r: Result<Ticket, Failure>)
      requires Valid()
      modifies this
      ensures Valid()
      ensures var got := Fetched(old(table), id, actor, access, now);
        if got.Err? then r == got && table == old(table) && history == old(history)
        else r == Ok(After(old(table)[id], SetStatus(now, status, actor))) && table == old(table)[id := r.value]
             && history == old(history) + [Called(id, SetStatus(now, status, actor))] && r.value.status == status
    {
      r := Fetch(id, actor, access, now);
      if r.Ok? {
        var ticket := r.value.(status := status);
        ticket := ticket.(events := ticket.events + [Event(STATUS_CHANGED, actor, StatusText(status))]);
        Store(id, ticket, SetStatus(now, status, actor));
        r := Ok(ticket);
      }
    }

    method UpdatePriority(id: Uuid, priority: Priority, actor: Option<Uuid>, access: Option<Failure>, now: int) returns (r: Result<Ticket, Failure>)
      requires Valid()
      modifies this
      ensures Valid()
      ensures var got := Fetched(old(table), id, actor, access, now);
        if got.Err? then r == got && table == old(table) && history == old(history)
        else r == Ok(After(old(table)[id], SetPriority(now, priority, actor))) && table == old(table)[id := r.value]
             && history == old(history) + [Called(id, SetPriority(now, priority, actor))] && r.value.priority == priority
    {
      r := Fetch(id, actor, access, now);
      if r.Ok? {
        var ticket := r.value.(priority := priority);
        ticket := ticket.(events := ticket.events + [Event(PRIORITY_CHANGED, actor, PriorityText(priority))]);
        Store(id, ticket, SetPriority(now, priority, actor));
        r := Ok(ticket);
      }
    }

    /** `user` is the looked-up assignee and `role` their role in the ticket's organization.
        A refused assignment still leaves the SLA check's escalation behind. */
    method AssignTicket(id: Uuid, user: Option<(Uuid, string)>, role: Option<Role>, actor: Option<Uuid>, access: Option<Failure>, now: int)
      returns (r: Result<Ticket, Failure>)
      requires Valid()
      modifies this
      ensures Valid()
      ensures var got := Fetched(old(table), id, actor, access, now);
        if got.Err? then r == got && table == old(table) && history == old(history)
        else if user.None? then r == Err(UserNotFound) && table == old(table)[id := got.value]
               && history == old(history) + [Called(id, Read(now))]
        else if role != Some(SUPPORT) then r == Err(PermissionDenied) && table == old(table)[id := got.value]
               && history == old(history) + [Called(id, Read(now))]
        else r == Ok(After(old(table)[id], Assign(now, user.value.0, user.value.1, actor))) && table == old(table)[id := r.value]
               && history == old(history) + [Called(id, Assign(now, user.value.0, user.value.1, actor))]
               && r.value.assignee == Some(user.value.0)
    {
      r := Fetch(id, actor, access, now);
      if r.Err? {
        return;
      }
      if user.None? {
        Record(Called(id, Read(now)));
        return Err(UserNotFound);
      }
      if role.None? {
        Record(Called(id, Read(now)));
        return Err(PermissionDenied);
      }
      if role.value != SUPPORT {
        Record(Called(id, Read(now)));
        return Err(PermissionDenied);
      }
      var (uid, name) := user.value;
      var ticket := r.value.(assignee := Some(uid));
      ticket := ticket.(events := ticket.events
        + [Event(ASSIGNED, if actor.Some? then actor else Some(uid), "Assigned to " + name + ".")]);
      Store(id, ticket, Assign(now, uid, name, actor));
      r := Ok(ticket);
    }

    method ReplyToTicket(id: Uuid, actor: Option<Uuid>, access: Option<Failure>, now: int) returns (r: Result<Ticket, Failure>)
      requires Valid()
      modifies this
      ensures Valid()
      ensures var got := Fetched(old(table), id, actor, access, now);
        if got.Err? then r == got && table == old(table) && history == old(history)
        else r == Ok(After(old(table)[id], Reply(now, actor))) && table == old(table)[id := r.value]
             && history == old(history) + [Called(id, Reply(now, actor))]
    {
      r := Fetch(id, actor, access, now);
      if r.Ok? {
        var ticket := r.value;
        ticket := ticket.(events := ticket.events
          + [Event(REPLIED, if actor.Some? then actor else ticket.assignee, "Support agent replied.")]);
        Store(id, ticket, Reply(now, actor));
        r := Ok(ticket);
      }
    }

    method DeleteTicket(id: Uuid, actor: Option<Uuid>, access: Option<Failure>, now: int) returns (r: Result<Ticket, Failure>)
      requires Valid()
      modifies this
      ensures Valid()
      ensures r == Fetched(old(table), id, actor, access, now)
      ensures table == if r.Ok? then old(table) - {id} else old(table)
      ensures history == old(history) + if r.Ok? then [Deleted(id)] else []
    {
      r := Fetch(id, actor, access, now);
      if r.Ok? {
        table := table - {id};
        Record(Deleted(id));
      }
    }

    /** clock(i) is the clock read by the SLA check of row i. */
    method CheckListed(ids: seq<Uuid>, clock: nat -> int)
      requires forall id :: id in ids ==> id in table
      modifies `table
      ensures table == CheckRows(old(table), ids, clock)
    {
      var i := 0;
      while i < |ids|
        invariant 0 <= i <= |ids|
        invariant table == CheckRows(old(table), ids[..i], clock)
      {
        CheckSla(ids[i], clock(i));
        i := i + 1;
        assert ids[..i][..i - 1] == ids[..i - 1];
      }
      assert ids[..|ids|] == ids;
    }

    method ListTicketsPaginated(f: Filter, cursor: Option<string>, limit: nat, access: Option<Failure>, clock: nat -> int)
      returns (r: Result<(seq<Ticket>, Option<string>, bool), Failure>)
      requires Valid()
      modifies this
      ensures Valid()
      ensures access.Some? ==> r == Err(access.value) && table == old(table) && history == old(history)
      ensures access.None? ==>
        var p := ListPage(old(table), f, cursor, limit); var ids := PageIds(old(table), f, cursor, limit);
        && table == AfterListing(old(table), f, cursor, limit, clock)
        && r == Ok((Rows(table, ids), p.next, p.more))
        && history == old(history) + [Listed(f, cursor, limit, clock)]
      ensures access.None? ==> Answers(r.value.0, f)
    {
      if access.Some? {
        return Err(access.value);
      }
      var p := ListPage(table, f, cursor, limit);
      var ids := PageIds(table, f, cursor, limit);
      ListedRows(table, f, cursor, limit, clock);
      CheckListed(ids, clock);
      Record(Listed(f, cursor, limit, clock));
      r := Ok((Rows(table, ids), p.next, p.more));
    }
  }
}
