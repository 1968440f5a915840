# A verified model of the support backend's state machines

This project models the parts of the support backend and its embeddable chat widget where a fast
or incremental form has to agree with a simple one, or where a check and the act it guards are
separate steps, and proves what they keep. It covers:

* **Ticket listing**: the cursor codec down to the base64 decoder (`Cursor`), the SLA clock and the
  event log (`Tickets`), pages as sets cut at a key (`Keyset`), the filtered query over a changing
  table (`Pages`), and the ticket service whose calls update the table in place (`TicketDesk`).
* **Streaming**: JSON strings (`Sse`), frames, network chunks and the widget's carry-over buffer
  (`WidgetStream`), what the chat service streams and stores (`ChatAnswers`), and the widget's
  one-pass block renderer (`RichText`).
* **Rate limits**: the sliding-window log (`SlidingLog`) and the INCR/EXPIRE counter (`WidgetLimit`).
* **Memberships**: the role cache with one request at a time (`RoleCache`) and interleaved (`RoleRaces`).
* **Usage**: the ledger's rows and lookups (`Usage`), AI quota (`Quota`) and stored bytes (`Storage`)
  under interleaving, and document upload and delete (`Documents`).
* **Memory, chunks, webhooks**: the conversation compressor (`Memory`), text chunks and document
  processing (`Chunking`), and webhook deliveries with their failure counter, one dispatch at a time
  (`Webhooks`) and overlapping (`WebhookRaces`).

Services and repositories that change state are classes whose methods state their whole new state;
the concurrent machines are worlds with explicit steps and clocks, and their theorems hold of every
world of every run. The machines and the classes share their specification functions, and what those
mean is said again by the fields they read and write, in the methods' contracts or in lemmas named
`…ByFields`, `…Iff` and `…Is`. The bounds on admissions, answers, prompts and failures in a row (with
one or two dispatches at once) are each reached by a run that a further lemma builds. Where the code
does not keep a promise, a lemma gives a run or an input that shows it, and another says exactly when
the promise is kept.

Run `dafny verify dfyconfig.toml`, with `--verification-time-limit 0` on a slow machine.

## Where the code and its own documentation differ

The model follows the code.

* `check_widget_rate_limit` calls itself sliding-window; it is a fixed window that lets
  `2 * limit - 1` requests into one window's length (`WidgetLimit.WindowIsFixed`).
* The memory module says the summary goes to the top of the prompt; it is ordered by creation time
  and lands after every message stored before the run began (`Memory.SummaryLandsLast`).
* The module comment on cursors shows a separator without spaces; the code writes and splits on
  a bar between two spaces.
* `answer()` returns the escalation step's answer, not the stored one: they agree exactly when that
  step escalates (`ChatAnswers.AnswerIsReturnedIff`).
* The usage repository speaks of *the* current row; the first paid period overlaps the ten-year free
  one, and then every lookup raises (`Usage.FirstUpgradeBreaksLookup`).
* `increment_failure` promises to disable an endpoint at fifty failures; an endpoint switched on
  again by hand at its limit keeps its counter, so each such switch allows one more failure in a row
  (`Webhooks.BeyondFifty`). With one dispatch at a time, fifty is kept exactly when no endpoint so
  revived fails before it has succeeded (`Webhooks.FiftyKeptIff`).
* Overlapping dispatches write back the counter they loaded, so failures go uncounted without any
  revival: the bound is then `WebhookRaces.MostFailures`, which two dispatches at once reach with 1276
  failures in a row (`WebhookRaces.TwoInFlightReachBound`).

## Assumptions that theorems name

* `Pages.NoTicketMissed` and its neighbours: a ticket's creation time never changes between pages.
* `SlidingLog`: the bounds hold in every interleaving, counting clock readings; they hold of the
  requests themselves when no two admitted ones read the clock alike (`SlidingLog.RequestsBounded`).
  Equal readings are one member of the set: a limit of two or more refuses none of them, and only a
  limit of one (or none) still holds (`SlidingLog.SameReadingAdmits`).
* `RoleRaces`: a cached role is right exactly when what was last written since the gate's read is that
  role (`RoleRaces.CachedRoleRightIff`); `RoleRaces.StaleAdmin` is a run where it is not.
* `RoleRaces` with `atomic`: a change's role check still holds when it is written. Without it the
  founder is still safe, but a promoted owner is not (`RoleRaces.TornCheckDemotesOwner`): ownership is
  lost exactly when a demotion or removal is committed whose check came before the target was, by the
  last change made to it, promoted to owner (`RoleRaces.OwnersKeptIff`).
* `WebhookRaces`: at most k deliveries to the endpoint are under way, and it is not switched on by hand
  after its limit.
* `Quota` and `Storage`: usage rows open for periods that do not overlap. In `Quota`, plans are not lowered.
* `Storage` assumes nothing about the order of uploads, deletes and ledger updates, nor that a document
  is deleted once: nothing locks it, so several requests may each fetch it, commit its deletion and
  record its removal, even after its knowledge base is gone. Its exact results are every row's account
  in every run (`Storage.RowAccount`), when a settled row stays within the live documents
  (`Storage.StorageWithinDocumentsIff`), and, before the first reset, that it is the live documents plus
  what was clamped or never refunded, less what was removed twice (`Storage.StorageExactIff`). If nothing
  was removed twice, it stays within the live documents exactly when every removal found its bytes
  recorded and nothing went unrefunded. In orderly runs, where each removal is recorded after its own
  document's addition and no knowledge base is deleted, it never exceeds the documents, across resets too.
* `Memory` with `calm`: each queued run succeeds before the next question, and no human agent replies.
  The partition of messages needs one run at a time only; two that overlap repeat ten messages
  (`Memory.OverlappingRunsDuplicate`). A run keeps every original exactly when all it read is still
  there when it deletes (`Memory.KeepsOriginalsIff`).

## Model

| member | source | states |
|---|---|---|
| Cursor.UuidRoundTrip | app/utils/cursor.py:21-48 | the 36-character text of every 128-bit UUID parses back to it (section 4 of RFC 9562) |
| Cursor.IsoRoundTrip | app/utils/cursor.py:21-47 | the ISO text of every timestamp, with or without microseconds and with every UTC offset, parses back to it |
| Cursor.ValidIff | app/utils/cursor.py:47 | a timestamp is one of the proleptic Gregorian calendar, with a clock and an offset below 24 hours |
| Cursor.Base64RoundTrip | app/utils/cursor.py:22-44 | the URL-safe base64 of every byte string decodes to it, through padding and the decoder's skipping of foreign characters (section 5 of RFC 4648) |
| Cursor.SplitAtTheOnlyBar | app/utils/cursor.py:46 | splitting at the separator yields exactly the two parts when neither contains a bar |
| Cursor.CursorRoundTrip | app/utils/cursor.py:18-50 | decoding an encoded cursor gives back the timestamp and the UUID, for all of both |
| Cursor.CursorInjective | app/utils/cursor.py:18-22 | different (timestamp, UUID) pairs have different cursors |
| Cursor.CursorNonEmpty | app/repositories/ticket_repositories.py:119 | an encoded cursor is never the empty text that the query treats as no cursor |
| Cursor.Base64Is | app/utils/cursor.py:22 | the encoder meets test vectors of section 10 of RFC 4648 and uses the URL-safe alphabet |
| Cursor.ScanIs | app/utils/cursor.py:44 | the decoder skips foreign characters, ends at padding that fills its group, and fails on a group cut short |
| Cursor.IsoTail | app/utils/cursor.py:21 | the fraction and the offset of a timestamp are written only where there are any, with six and two digits |
| Tickets.ShownAgreesWithEscalation | app/schemas/ticket.py:26-55 | "Breached" is shown exactly for tickets the escalation test calls overdue, a read changes a ticket exactly if it is so shown and not urgent, and the hours and minutes shown are the floor of the time left |
| Tickets.ShownByFields | app/schemas/ticket.py:26-55 | an open ticket is shown as breached exactly when it is older than 48, 24, 4 or 1 hours, as its priority is LOW to URGENT, and only resolved and closed ones as resolved |
| Tickets.ReadByFields | app/services/ticket_service.py:37-75 | a read raises only an open ticket, LOW after 48 hours, MEDIUM after 24, HIGH after 4, by one rank and one event; resolved, closed and urgent tickets stay as they are |
| Tickets.CallByFields | app/services/ticket_service.py:188-330 | besides the check each call sets its one field, and logs one event of its kind by its actor |
| Tickets.DayByDay | app/services/ticket_service.py:48-52 | across months, years and leap days the next calendar day is 24 hours later |
| Tickets.ClockAndOffset | app/services/ticket_service.py:48-52 | within a day instants differ as the clocks do; an offset from UTC is subtracted, and none means UTC |
| Tickets.StatusReadsBack | app/services/ticket_service.py:202 | the description of a status event determines the status |
| Tickets.PriorityReadsBack | app/services/ticket_service.py:72-235 | the description of a priority event, manual or escalated, determines the priority |
| Tickets.CheckedFaithful | app/services/ticket_service.py:37-75 | an SLA check keeps the log and the stored priority and status in agreement |
| Tickets.CallFaithful | app/services/ticket_service.py:188-330 | so does every read, status change, priority change, assignment and reply |
| Tickets.OpenedFaithful | app/services/ticket_service.py:93-106 | a new ticket's log replays to its initial priority and OPEN |
| Tickets.LogReplaysEveryRun | app/services/ticket_service.py:37-330 | after every sequence of calls, replaying the events from the initial priority and OPEN gives the current priority and status |
| Tickets.BreachPersists | app/services/ticket_service.py:41-74 | an overdue ticket is still overdue and shown as breached after the escalation it causes, and at all later times |
| Tickets.EachReadRaisesOneRank | app/services/ticket_service.py:55-75 | from the first overdue read on, each read raises the priority one rank until URGENT |
| Tickets.AtMostThreeEscalations | app/services/ticket_service.py:37-75 | between manual priority changes the log gains one escalation per rank gained, hence at most three |
| Keyset.NewestFirst | app/repositories/ticket_repositories.py:138 | the order by (created_at, id) descending lists exactly the rows, a later time first and a larger id first among equal times |
| Keyset.SortIsUnique | app/repositories/ticket_repositories.py:138 | no other strictly descending list has the same rows |
| Keyset.PageIsNewestRows | app/repositories/ticket_repositories.py:119-147 | a page holds rows below the cursor in descending order, none left out is newer than one returned, and has_more holds exactly when one is left out |
| Keyset.PageInOrder | app/repositories/ticket_repositories.py:138-145 | by their times and ids the rows of a page descend, at most `limit`, and exactly that if has_more |
| Keyset.PageRow | app/repositories/ticket_repositories.py:119-129 | each row is of the view, with an earlier time than the cursor, or the same time and a smaller id |
| Keyset.PageLeavesOut | app/repositories/ticket_repositories.py:119-147 | each such row left out has an earlier time than every row of the page, or the same time and a smaller id, and then has_more holds |
| Keyset.Remainder | app/repositories/ticket_repositories.py:119-145 | what is below the next cursor is what the page left over, in the same order |
| Keyset.WalkDescends | app/repositories/ticket_repositories.py:119-147 | following next cursors over arbitrarily changing tables returns keys by descending time, and descending id among equal times |
| Keyset.WalkReturnsMatchingRows | app/repositories/ticket_repositories.py:99-147 | each key returned was in the view of some request |
| Keyset.WalkMissesNothing | app/repositories/ticket_repositories.py:119-147 | a finished walk returns every key that was in all views |
| Keyset.NoRowTwice | app/repositories/ticket_repositories.py:119-147 | no row is returned twice when rows keep their creation time |
| Keyset.SettledWalkIsSortedList | app/repositories/ticket_repositories.py:119-147 | if the rows below each cursor stay put, the pages concatenate to the sorted list and the walk ends after exactly the pages that many rows need |
| Pages.OwnCursorBounds | app/repositories/ticket_repositories.py:119-129 | the service's own cursors never take the silent invalid-cursor fallback |
| Pages.PageRefinesKeyset | app/repositories/ticket_repositories.py:99-147 | the paginated query over tickets is the key-set page of the filtered view, and its next cursor decodes to the bound of that page |
| Pages.FollowRefinesKeyset | app/services/ticket_service.py:168-185 | following encoded cursors is the key-set walk |
| Pages.EachTicketOnceInOrder | app/services/ticket_service.py:153-185 | under arbitrary inserts, deletes and edits between pages, tickets come by descending creation time and id, and none twice |
| Pages.ListedMatches | app/repositories/ticket_repositories.py:99-118 | each ticket of a page is of the organization, has the status and priority asked for, and a subject that matches |
| Pages.ListedInOrder | app/repositories/ticket_repositories.py:138 | the tickets of a page descend by the instant of creation, then by id |
| Pages.ListedAfterCursor | app/repositories/ticket_repositories.py:119-129 | after the cursor of a ticket come only tickets created before it, or at its instant with a smaller id |
| Pages.LeftOutComesLater | app/repositories/ticket_repositories.py:119-147 | a ticket that matches and comes after the cursor is left out only by a full page all of whose tickets come before it |
| Pages.NextIsOfTheLast | app/services/ticket_service.py:180-183 | a cursor is handed out exactly when there is more, and it is the last ticket's |
| Pages.ListedAreChecked | app/services/ticket_service.py:177-178 | a listing checks each ticket it answers once, and leaves every other as it was |
| Pages.NoTicketMissed | app/services/ticket_service.py:153-185 | a walk that ends returns every ticket that existed and matched throughout |
| Pages.ListingLeavesTheRest | app/services/ticket_service.py:177-178 | the SLA checks of a listing change no row below the cursor it hands out |
| Pages.OwnEscalationsDoNotDisturb | app/services/ticket_service.py:168-185 | with no other writer the walk returns exactly the sorted filtered list of the table before it, although listing escalates tickets, in exactly the requests needed |
| Pages.EvolveLength | app/services/ticket_service.py:180-183 | the number of requests until no cursor is handed out, from any cursor |
| TicketDesk.EveryLogReplays | app/services/ticket_service.py:80-330 | over every history of creations, calls, listings and deletions each stored ticket's log replays to its state |
| TicketDesk.ListingFaithful | app/services/ticket_service.py:177-178 | the checks of one listing keep every ticket's log faithful |
| TicketDesk.Desk.CheckSla | app/services/ticket_service.py:37-75 | raises the priority of an overdue ticket by one rank with its event, and changes nothing else; a resolved or closed ticket stays as it is |
| TicketDesk.Desk.GetTicket | app/services/ticket_service.py:123-137 | missing ticket, refused caller, or the checked ticket |
| TicketDesk.Desk.CreateTicket | app/services/ticket_service.py:80-120 | refused as the conversation's lookup refuses, then if the conversation has a ticket, with nothing changed; else the conversation's one ticket, open, unassigned and of the priority asked for, with its event |
| TicketDesk.Desk.UpdateStatus | app/services/ticket_service.py:188-218 | checks the ticket, then sets and logs the status |
| TicketDesk.Desk.UpdatePriority | app/services/ticket_service.py:221-245 | checks the ticket, then sets and logs the priority |
| TicketDesk.Desk.AssignTicket | app/services/ticket_service.py:261-311 | only to a SUPPORT member, who is then the assignee; the check's effect stays even when the assignment is refused |
| TicketDesk.Desk.ReplyToTicket | app/services/ticket_service.py:314-330 | logs the reply and leaves priority and status to the check |
| TicketDesk.Desk.DeleteTicket | app/services/ticket_service.py:248-257 | removes exactly the ticket |
| TicketDesk.Desk.ListTicketsPaginated | app/services/ticket_service.py:153-185 | answers the page of the table before the checks, with the rows as they are after them: of the organization and status asked for, the latest created first |
| Sse.JsonStringReadsBack | app/api/v1/widget.py:166-179 | the ASCII-only JSON string of every text reads back as its UTF-16 units (section 7 of RFC 8259) |
| Sse.EscapesAre | app/api/v1/widget.py:166-179 | the two-character escapes of section 7 of RFC 8259 |
| Sse.Utf16Is | app/api/v1/widget.py:166-179 | a code point beyond the first plane becomes its two surrogates (section 2 of RFC 2781) |
| Sse.MetaParses | app/api/v1/widget.py:166-170 | the meta object parses to the conversation id |
| Sse.ItemParses | app/api/v1/widget.py:176-180 | each token or citations object parses to its content |
| WidgetStream.LinesAppend | app/static/widget.js:878-880 | splitting joined text is splitting its pieces with the unfinished line carried over |
| WidgetStream.ChunkingIsIrrelevant | app/static/widget.js:874-906 | what the buffered reader does depends only on the concatenated text, not on how the network cut it |
| WidgetStream.BreakLosesNothing | app/static/widget.js:882-905 | leaving the line loop at the end marker skips nothing the server sends |
| WidgetStream.LinesOfFrames | app/api/v1/widget.py:165-182 | the server's stream splits into exactly one data line and one blank line per frame |
| WidgetStream.FrameIs | app/api/v1/widget.py:165-182 | a frame is `data: `, the object and two line feeds, and the last one says `[DONE]` |
| WidgetStream.Widget.OnChunk | app/static/widget.js:874-906 | one chunk through the loop: the lines completed are handled in order, the rest is buffered |
| WidgetStream.Widget.OnStream | app/static/widget.js:874-906 | a whole stream of chunks leaves the chat that the lines of their concatenation make |
| WidgetStream.ItemsAddUp | app/static/widget.js:891-896 | the full text is the concatenation of the token contents |
| WidgetStream.WidgetSeesTheAnswer | app/static/widget.js:870-906 | for every item sequence and chunking, the widget ends with an empty buffer, the conversation id and the concatenated answer |
| ChatAnswers.WordsRejoin | app/services/chat_services.py:302-305 | splitting a canned answer at spaces and yielding the words with spaces between them gives the answer back |
| ChatAnswers.WordsHaveNoSpace | app/services/chat_services.py:303 | and no word contains a space |
| ChatAnswers.PieceInOrder | app/services/chat_services.py:306-313 | each piece the model streams is a token, after those of the pieces before it; pieces only are forwarded one for one |
| ChatAnswers.StreamCanned | app/services/chat_services.py:301-305 | the escalated branch yields one token for each word, with its space unless it is the last, and they concatenate to the canned answer |
| ChatAnswers.StreamModel | app/services/chat_services.py:306-316 | the model branch yields its pieces in their order and stores their concatenation; the usage kept is the last report's, or zeros without one |
| ChatAnswers.StreamAnswer | app/services/chat_services.py:298-343 | a non-empty canned answer is stored, with no usage, else the model's pieces; on both branches the tokens concatenate to what is stored, and citations come last |
| ChatAnswers.WidgetShowsWhatIsStored | app/services/chat_services.py:298-343 | whatever the chunking, the widget's text is the stored assistant message, with its citations shown if it is not empty |
| ChatAnswers.Answer | app/services/chat_services.py:187-226 | stores the final answer and returns the escalation step's |
| ChatAnswers.AnswerIsReturnedIff | app/services/escalation_service.py:61-98 | what is returned is what is stored exactly when the step escalates; an ordinary answer is stored and nothing is returned |
| RichText.FourPassesAreOne | app/static/widget.js:540-546 | the four replacements are one character-wise substitution |
| RichText.EscapeIsFaithfulAndSafe | app/static/widget.js:540-546 | escaped text contains no angle bracket or quote, and determines the original |
| RichText.BulletIff | app/static/widget.js:567 | a line is a bullet exactly if it is white space, a dash or an asterisk, white space, and anything |
| RichText.BulletOf | app/static/widget.js:567-575 | its item is what follows, up to the first line terminator, for both marks |
| RichText.OtherLines | app/static/widget.js:577-585 | of the other lines those of white space only are blank, and the rest whole prose |
| RichText.HtmlAppend | app/static/widget.js:553-588 | each block is written after those before it, a list and a paragraph in their tags |
| RichText.SmallList | app/static/widget.js:567-576 | two bullets render to one list of two items |
| RichText.EveryLineOnce | app/static/widget.js:566-588 | each line that is not blank appears once, in order, in the blocks |
| RichText.BlankSeparates | app/static/widget.js:581-584 | a blank line splits the blocks and leaves no trace |
| RichText.BlocksAreMaximalRuns | app/static/widget.js:566-588 | for every text, with blank lines or without, the blocks are in order exactly the maximal runs of bullets and of prose, and every line that is not blank lies in one |
| RichText.RunsAlternate | app/static/widget.js:566-586 | where no line is blank, lists and paragraphs alternate |
| RichText.OnBullet | app/static/widget.js:567-576 | a bullet line leaves the whole output as the block specification says, with a list open and no paragraph pending |
| RichText.OnOther | app/static/widget.js:577-585 | so does any other line, with no list open |
| RichText.RenderLines | app/static/widget.js:548-588 | the one-pass loop writes exactly the blocks of the line sequence |
| RichText.RenderRichText | app/static/widget.js:547-590 | the rendered blocks of the escaped text, or that text itself exactly when every line is blank |
| RichText.EmptyOnlyWhenBlank | app/static/widget.js:589 | the blocks render to nothing exactly when every line is blank |
| SlidingLog.RateLimiter.CountRecent | app/core/rate_limiter.py:22-32 | the first pipeline keeps exactly the readings of the window, none if the key had expired, and counts them |
| SlidingLog.RateLimiter.Record | app/core/rate_limiter.py:42-45 | the second pipeline adds the reading and lets the key expire a window later |
| SlidingLog.RateLimiter.Check | app/core/rate_limiter.py:16-45 | admits exactly when fewer than `times` are left; a refused caller is told the whole seconds until the oldest entry leaves the window, at least one, or the window for an empty log |
| SlidingLog.PruneIsExact | app/core/rate_limiter.py:27-32 | the pruned, expired log holds only admissions of the window, and every one of them that is past the second pipeline |
| SlidingLog.StepConsistent | app/core/rate_limiter.py:22-45 | every step keeps the log in agreement with the full history |
| SlidingLog.AdmissionBounded | app/core/rate_limiter.py:32-45 | one admission never pushes a window over `times + k - 1` |
| SlidingLog.EveryWorldConsistent | app/core/rate_limiter.py:22-45 | in every interleaving the log holds the admissions a later request can still count |
| SlidingLog.NoWindowOverflows | app/core/rate_limiter.py:22-45 | with at most k readings between the pipelines no window holds more than `times + k - 1` admitted readings, in every interleaving of requests with equal or distinct readings |
| SlidingLog.RequestsBounded | app/core/rate_limiter.py:22-45 | if no two admitted requests read the clock alike, no window admits more than `times + k - 1` requests |
| SlidingLog.SequentialLimitIsExact | app/core/rate_limiter.py:22-45 | one request at a time, the count is exactly the admitted readings of the window, it alone decides the request, and no window exceeds `times` readings |
| SlidingLog.BoundIsReached | app/core/rate_limiter.py:22-45 | some interleaving reaches `times + k - 1` |
| SlidingLog.SameReadingAdmits | app/core/rate_limiter.py:34-44 | how many of any number of requests with one clock reading are admitted: all of them from a limit of two on |
| WidgetLimit.WidgetLimiter.Check | app/dependencies/widget_rate_limit.py:31-38 | one request with Redis reachable: incremented, armed by the first, admitted up to the limit |
| WidgetLimit.StepConsistent | app/dependencies/widget_rate_limit.py:32-38 | every INCR and EXPIRE keeps admissions numbered within their key's lifetime and lifetimes a window apart |
| WidgetLimit.EveryWorldConsistent | app/dependencies/widget_rate_limit.py:32-38 | so in every world of every interleaving |
| WidgetLimit.LifetimeBounded | app/dependencies/widget_rate_limit.py:32-38 | one lifetime of the key admits at most `limit` |
| WidgetLimit.NoIntervalOverflows | app/dependencies/widget_rate_limit.py:32-38 | any half-open interval of the window's length holds at most `2 * limit - 1` admissions |
| WidgetLimit.WindowIsFixed | app/dependencies/widget_rate_limit.py:18-38 | some run fits `2 * limit - 1` into one interval: the window does not slide |
| RoleCache.Organizations.RequireOwner | app/services/base.py:24-58 | whatever is cached or expired, OWNER passes, every other stored role is denied and a missing membership not found; filled for an hour on a miss that passes |
| RoleCache.Organizations.RequireAdmin | app/services/base.py:60-88 | the same for the admin gate, which OWNER and ADMIN pass |
| RoleCache.Organizations.RequireMember | app/services/base.py:91-123 | the same for the member gate, which every stored role passes |
| RoleCache.Organizations.Create | app/services/organization_service.py:36-59 | a new slug gets an organization owned by its creator |
| RoleCache.Organizations.InviteMember | app/services/organization_service.py:133-180 | the first of owner gate, quota, unknown user and existing membership refuses; else exactly one membership is added |
| RoleCache.Organizations.UpdateMemberRole | app/services/organization_service.py:205-231 | only an owner changes roles, and never an owner's or their own; the role and its cache entry are |
| RoleCache.Organizations.RemoveMember | app/services/organization_service.py:234-258 | only an owner removes members, and never an owner or themselves; the membership and its cache entry are |
| RoleRaces.EveryRoleSourced | app/services/base.py:24-123 | every role cached or on its way was read from the database at its stated time |
| RoleRaces.StalenessBounded | app/services/base.py:55-56 | a role served from the cache was the committed role within the last 3600 s plus the gate's delay |
| RoleRaces.CachedRoleRightIff | app/services/base.py:48-56 | a cached role is the committed one exactly when the last write to the membership since the gate's read, if any, wrote that role |
| RoleRaces.StepFounded | app/services/organization_service.py:205-258 | no step, even with check and write torn apart, takes ownership from a founder or caches another role for one |
| RoleRaces.EveryOrganizationKeepsAnOwner | app/services/organization_service.py:205-258 | in every interleaving each organization keeps its founder as an owner |
| RoleRaces.StepKeepsOwners | app/services/organization_service.py:205-258 | with an atomic check no step demotes or removes an owner or outdates a cached OWNER |
| RoleRaces.OwnersNeverStale | app/services/organization_service.py:205-258 | in every such run owners stay owners, a cached OWNER is right, and a change's author is an owner when it commits |
| RoleRaces.CheckedBefore | app/services/organization_service.py:211-230 | every change that reaches its commit has passed its check at an earlier step of the run |
| RoleRaces.OwnersKeptIff | app/services/organization_service.py:211-258 | with check and write torn apart, a step of any run takes ownership from someone exactly when it commits a demotion or removal checked before the last write to its target made that target an owner |
| RoleRaces.StaleAdmin | app/services/organization_service.py:225-230 | a gate that fills between eviction and commit leaves a former role cached |
| RoleRaces.TornCheckDemotesOwner | app/services/organization_service.py:211-230 | without the atomic check a promotion committed in between is undone |
| Usage.CurrentIs | app/repositories/usage_repository.py:8-22 | the lookup finds nothing, one row or several exactly as that many rows cover now |
| Usage.LookupNeverRaises | app/repositories/usage_repository.py:8-22 | the lookup raises at no time exactly when no two periods overlap |
| Usage.FirstUpgradeBreaksLookup | app/services/subscription_service.py:269-278 | beside the free row, the first paid row makes the lookup raise exactly throughout the paid period |
| Usage.PostedShows | app/repositories/usage_repository.py:48-106 | one update changes exactly what lookups see of the rows covering its time |
| Usage.PostedByFields | app/repositories/usage_repository.py:48-106 | one update adds the entry to exactly the rows whose period has begun and not ended, a removal with a floor at zero |
| Usage.Ledger.CreateForPeriod | app/repositories/usage_repository.py:25-45 | a zero row per period start; a second one with the same start fails |
| Usage.Ledger.GetOrCreate | app/services/usage_service.py:23-48 | the one row whose period is on; with several an error; with none a row of zeros for the subscription's period, or for 3650 days from now without one, unless a period starts then already |
| Usage.Ledger.CheckAiQuota | app/services/usage_service.py:63-82 | refuses exactly when responses or tokens have reached the plan |
| Usage.Ledger.CheckStorageQuota | app/services/usage_service.py:100-112 | refuses exactly when the new bytes do not fit |
| Usage.Ledger.Record | app/services/usage_service.py:84-149 | makes sure of a row, then adds to every row covering the later time |
| Usage.Ledger.RecordStorageRemoved | app/services/usage_service.py:127-135 | subtracts with a floor at zero and creates no row |
| Usage.Ledger.ResetForNewPeriod | app/services/usage_service.py:153-169 | adds a zero row and leaves history as it was |
| Quota.CheckConsistent | app/services/usage_service.py:63-82 | admitting an answer leaves room in every row for all answers under way |
| Quota.RecordConsistent | app/repositories/usage_repository.py:48-65 | recording one moves its cost from what is under way to the row it lands in |
| Quota.EveryWorldConsistent | app/services/usage_service.py:63-96 | in every interleaving, across resets and upgrades, each row allows for what is under way |
| Quota.QuotaOvershootBounded | app/services/usage_service.py:63-96 | responses never exceed max + K - 1; tokens never max - 1 + K * T, nor T for each of those responses |
| Quota.BoundIsReached | app/services/usage_service.py:63-96 | one run reaches max + K - 1 responses and the lower of the two token bounds |
| Storage.RowAccount | app/services/document_service.py:94-222 | in every run, whatever overtakes what, however often a document is deleted, and across resets, a row is what was added, less what was recorded as removed and what other rows took, plus what was clamped away |
| Storage.StorageWithinDocumentsIff | app/repositories/usage_repository.py:67-92 | a settled row is the live documents, plus clamped and unrefunded bytes, less those removed twice and those other periods took; it stays within the live ones exactly when the former do not exceed the latter |
| Storage.ClampedNothingIff | app/repositories/usage_repository.py:92 | nothing was clamped exactly when each removal found its bytes recorded |
| Storage.StorageExactIff | app/services/usage_service.py:114-135 | before the first reset, a settled row is the live documents plus clamped and unrefunded bytes less those removed twice: within the live ones, or equal to them, exactly when the first do not exceed, or equal, the second; with none removed twice, exactly when every removal found its bytes and none went unrefunded |
| Storage.BoundStep | app/services/document_service.py:94-222 | how each step moves the bytes that bound every current row |
| Storage.EveryWorldConsistent | app/services/document_service.py:82-222 | in every interleaving, across resets, no current or later row exceeds those bytes |
| Storage.StorageExceedsByStrayOnly | app/services/document_service.py:82-222 | in every run the current row exceeds the live documents by no more than added bytes nothing will remove |
| Storage.StorageNeverExceedsDocuments | app/services/document_service.py:82-222 | in orderly runs, across resets, the current row never exceeds the booked documents, nor the live ones once nothing is under way |
| Storage.OrderlyIsExact | app/services/usage_service.py:114-135 | until the first reset an orderly run's row is the booked documents plus clamped bytes less those removed twice, never more than the booked ones, and exactly them, with no removal clamped, if none was |
| Storage.OvertakingDelete | app/services/document_service.py:103-222 | a removal recorded before its document's addition leaves bytes recorded for nothing |
| Storage.CoveredOvertaking | app/services/document_service.py:103-222 | the same overtaking leaves the ledger exact when other documents cover the bytes |
| Storage.DoubleDelete | app/services/document_service.py:200-222 | two requests that fetched one document both subtract it, in an orderly run that clamps and drops nothing: the ledger falls short of the live documents |
| Storage.KnowledgeBaseDeletionNeverRefunds | app/services/knowledge_base_service.py:168 | deleting a knowledge base leaves its documents' bytes recorded |
| Storage.OvertakenDeleteRefunds | app/services/document_service.py:200-222 | unless a delete of the document was already under way, whose removal then reaches the ledger |
| Documents.UploadBalances | app/services/document_service.py:94-108 | recording an upload keeps the ledger equal to the stored documents |
| Documents.DeleteBalances | app/services/document_service.py:210-222 | recording a delete keeps it equal, without the clamp |
| Documents.UploadRefusedIff | app/services/document_service.py:46-80 | an upload is refused by the gate, else exactly for a full base, a missing base or a name in use, in this order |
| Documents.DeleteRefusedIff | app/services/document_service.py:185-206 | a delete is refused by the gate, else exactly for a missing base or a document not in it |
| Documents.Library.Upload | app/services/document_service.py:46-111 | refused before anything is stored, else stored and then recorded; an exact ledger stays exact and within the quota |
| Documents.Library.Delete | app/services/document_service.py:185-222 | removes the document and its bytes; an exact ledger stays exact |
| Memory.CompressionFolds | app/agents/memory.py:69-81 | a run drops the count by nine, keeps every original as often as before and all other messages in their order |
| Memory.SummaryLandsLast | app/agents/memory.py:75-80 | the summary follows every message stored before the run began |
| Memory.OverlappingRunsDuplicate | app/agents/memory.py:39-81 | two runs that read the same messages leave them summarized twice |
| Memory.KeepsOriginalsIff | app/agents/memory.py:39-81 | a run, overlapping or not, keeps every original as often as before exactly when all the messages it read are still there when it deletes them |
| Memory.StepPartitioned | app/services/chat_services.py:244-288 | turns, agent replies, failures and task steps each keep the partition |
| Memory.EveryMessageOnce | app/agents/memory.py:39-81 | in every run each original is live or inside exactly one live summary tree, once |
| Memory.PromptsStayShort | app/services/chat_services.py:136-178 | when every triggered run ends before the next turn, a prompt's history never exceeds eleven |
| Memory.ElevenIsReached | app/services/chat_services.py:177-178 | and some conversation reaches eleven |
| Memory.TriggeredRunEnds | app/services/chat_services.py:177-178 | a triggered run can begin and end, takes the ten oldest messages, and leaves nine fewer and nothing queued |
| Memory.Conversation.CreateMessage | app/repositories/message_repository.py:10-19 | a message takes its place after all that were created no later and before all that were created later |
| Memory.Conversation.CompressConversation | app/agents/memory.py:35-81 | nothing below ten messages; else the oldest ten become one summary and every original is kept once |
| Chunking.TextChunker.Split | app/processing/chunker.py:10-21 | the loop ends with the slices at every multiple of the stride inside the text |
| Chunking.NewChunker | app/processing/chunker.py:2-8 | refused exactly when the overlap is not smaller than the size |
| Chunking.ChunkCount | app/processing/chunker.py:14-21 | ceil(n / (size - overlap)) chunks |
| Chunking.ChunksRebuildText | app/processing/chunker.py:10-21 | the first chunk and the later ones without their overlap rebuild the text |
| Chunking.RedundantIff | app/processing/chunker.py:16-20 | a chunk repeats the end of its predecessor exactly when it is no longer than the overlap |
| Chunking.RedundantChunksTrail | app/processing/chunker.py:16-20 | such chunks come last, at most ceil(overlap / (size - overlap)) of them |
| Chunking.HoldsIff | app/processing/chunker.py:16-20 | which positions of the text each chunk holds, for sizes and overlaps of any sign |
| Chunking.NothingLostIff | app/processing/chunker.py:3-20 | for every size and overlap the guard admits, the chunks hold every character exactly if the overlap is not negative, or the text is empty or no longer than one chunk |
| Chunking.DocumentProcessor.Process | app/processing/processor.py:61-110 | READY with a row of document, number, chunk and embedding for each chunk, which rebuild the text, or FAILED and raised with no row added |
| Webhooks.LongestCoversEveryRun | app/repositories/webhook_repository.py:85-95 | no run of failures in a log is longer than its longest-run measure |
| Webhooks.CounterIsTrailingRun | app/repositories/webhook_repository.py:85-95 | over every past of deliveries and manual edits the counter is the trailing run of failures |
| Webhooks.FailuresBounded | app/repositories/webhook_repository.py:55-95 | no run of failures exceeds fifty plus the switches by hand of an endpoint at its limit |
| Webhooks.FiftyKeptIff | app/repositories/webhook_repository.py:71-90 | fifty is kept exactly when no endpoint switched on at its limit fails before it has succeeded |
| Webhooks.BeyondFifty | app/repositories/webhook_repository.py:71-90 | for every n, some past with n such switches has fifty and n failures in a row |
| Webhooks.DeliveryKeepsSound | app/services/webhook_dispatcher.py:146-159 | one delivery keeps every endpoint and log in agreement with its past |
| Webhooks.MatchingIsExact | app/repositories/webhook_repository.py:43-53 | the list holds exactly the active endpoints of the organization that subscribe to the event or to every event, each once, in order |
| Webhooks.LoggedOnce | app/services/webhook_dispatcher.py:108-154 | a dispatch adds one delivery to each matching endpoint's log and none to any other |
| Webhooks.ServedByFields | app/services/webhook_dispatcher.py:99-160 | a dispatch counts each such endpoint once, a status from 200 to 299 clearing the counter and the fiftieth failure in a row switching it off, and changes no other |
| Webhooks.DeliveriesByFields | app/services/webhook_dispatcher.py:146-154 | and logs for each, in order, the event, the status and whether it was a success |
| Webhooks.Dispatcher.GetActiveEndpointsForEvent | app/repositories/webhook_repository.py:43-53 | the loop computes that list |
| Webhooks.Dispatcher.DispatchEvent | app/services/webhook_dispatcher.py:99-160 | exactly one delivery per matching endpoint in order, each counted; nothing else changes, and every counter and log stays true to its past |
| Webhooks.Dispatcher.CreateEndpoint | app/repositories/webhook_repository.py:8-20 | a new endpoint is active with no failures |
| Webhooks.Dispatcher.UpdateEndpoint | app/repositories/webhook_repository.py:55-74 | changes the given fields only; the counter stays |
| Webhooks.Dispatcher.DeleteEndpoint | app/repositories/webhook_repository.py:77-83 | removes the endpoint and its deliveries, and no other's |
| Webhooks.Dispatcher.FiftyInARowIff | app/repositories/webhook_repository.py:85-95 | a stored counter is its log's trailing run of failures, and the log keeps fifty exactly under the condition of FiftyKeptIff |
| Webhooks.Dispatcher.AtMostFiftyInARow | app/repositories/webhook_repository.py:85-90 | an endpoint never switched on at its limit never has more than fifty failed deliveries in a row |
| WebhookRaces.CounterRightIff | app/repositories/webhook_repository.py:85-95 | with dispatches overlapping, landing keeps the counter the trailing run of failures exactly when a failure had loaded the present counter, or a success one that it clears |
| WebhookRaces.FailureRaisesRank | app/services/webhook_dispatcher.py:99-160 | each failure below the limit raises the rank of the counters loaded, which no interleaving can lower without a success |
| WebhookRaces.EveryWorldConsistent | app/services/webhook_dispatcher.py:99-160 | in every interleaving the trailing run of failures and those still possible stay within the bound |
| WebhookRaces.FailuresInFlightBounded | app/repositories/webhook_repository.py:85-90 | with at most k dispatches at once, no run of failures in the log exceeds the number of ways to choose k counters below fifty (equal ones allowed, order ignored), less one, plus k |
| WebhookRaces.MostFailuresAre | app/repositories/webhook_repository.py:85-90 | that is fifty for one dispatch at a time, and the sum of 1 to 50 and one for two |
| WebhookRaces.TwoInFlightReachBound | app/services/webhook_dispatcher.py:99-160 | a run with two dispatches at once fails that often in a row, with no success and nothing switched by hand |

## Left out

- Foreign services: the language model, embeddings, payment, mail, object storage and HTTP outcomes are arbitrary inputs.
- Tickets: webhook events, e-mails and log lines fired along the way; the ticket's identifier and creation time are given by the database.
- TicketDesk.Desk.GetTicket: the membership gate's answer is a parameter here; `RoleCache` proves the gates.
- TicketDesk.Desk.ListTicketsPaginated: other writers between the checks of one listing; between listings anything may change.
- The unpaginated `list_tickets`, ticket notes and dashboards: no pagination or log property of their own.
- Pages.PageRefinesKeyset: the case-insensitive subject search is an arbitrary predicate on the subject.
- Cursor.CursorRoundTrip: parsers accept the layouts the service writes; other ISO, UUID and UTF-8 forms that Python also accepts count as invalid.
- Sse.ItemParses: JSON.parse is modelled on the objects the server writes; the citations list is opaque text.
- WidgetStream.WidgetSeesTheAnswer: decoding UTF-8 across chunks, since the server's JSON is ASCII; display and retry logic of the widget.
- RichText.RenderRichText: the inline patterns (code, bold, links) are an arbitrary function, as they can nest wrongly.
- SlidingLog.RateLimiter.Check: clock readings are whole ticks, not floating-point seconds; a refusal's second read of the log is taken with the first.
- WidgetLimit.WidgetLimiter.Check: Redis failures, which let a request pass, and a crash between INCR and EXPIRE, which leaves the key without expiry.
- RoleCache.Organizations.Create: the default subscription row, and organization deletion, whose repository has no delete.
- RoleRaces.StalenessBounded: a gate's two database reads are one step.
- The organization, conversation and knowledge-base metadata caches: the organization cache is not evicted on rename, so agreement is false there.
- Usage.Ledger.GetOrCreate: two requests that both miss and both insert; here one of them sees the other's row.
- Stripe events beyond the usage reset they cause.
- ChatAnswers.AnswerIsReturnedIff: the wording of the escalation message and the ticket it opens.
- Documents.Library.Upload: file storage, status and type of the document.
- Memory.CompressionFolds: the summary's wording; roles and citations of messages.
- Chunking.DocumentProcessor.Process: token counts of chunks; the rows rebuild the text when there is one embedding per chunk.
- Webhooks.Dispatcher.DispatchEvent: payload, signature and timing; two dispatches at once are in `WebhookRaces`.
- WebhookRaces.FailuresInFlightBounded: revivals by hand, which `Webhooks.FailuresBounded` counts for one dispatch at a time.
- Authentication, sessions, keys and one-time passwords; routers, schemas, migrations and the dashboard.
