/** A conversation's stored messages, and the background job that folds the oldest ten into a summary. */
module Memory {
  import opened Prelude

  /** How many messages one run folds, and how long a prompt's history may grow before it is queued. */
  const BATCH: nat := 10

  datatype Body = Original | Summary(of: seq<Message>)

  datatype Message = Message(id: nat, createdAt: int, body: Body)

  /** The original messages a message stands for, each as often as it occurs. */
  function Leaves(m: Message): multiset<nat> {
    match m.body
    case Original => multiset{m.id}
    case Summary(parts) => AllLeaves(parts)
  }

  function AllLeaves(ms: seq<Message>): multiset<nat> {
    if ms == [] then multiset{} else Leaves(ms[0]) + AllLeaves(ms[1..])
  }

  // ------------------------------------------------------------------
  // The stored messages, ordered by creation time
  // ------------------------------------------------------------------

  predicate Ordered(ms: seq<Message>) {
    forall i, j :: 0 <= i < j < |ms| ==> ms[i].createdAt <= ms[j].createdAt
  }

  /** A new row takes its place by creation time, which is when its transaction began. */
  function Inserted(ms: seq<Message>, m: Message): seq<Message> {
    if ms == [] || m.createdAt < ms[0].createdAt then [m] + ms else [ms[0]] + Inserted(ms[1..], m)
  }

  function Without(ms: seq<Message>, ids: set<nat>): seq<Message> {
    if ms == [] then [] else (if ms[0].id in ids then [] else [ms[0]]) + Without(ms[1..], ids)
  }

  function Only(ms: seq<Message>, ids: set<nat>): seq<Message> {
    if ms == [] then [] else (if ms[0].id in ids then [ms[0]] else []) + Only(ms[1..], ids)
  }

  function Ids(ms: seq<Message>): set<nat> {
    set m | m in ms :: m.id
  }

  predicate DistinctIds(ms: seq<Message>) {
    forall i, j :: 0 <= i < j < |ms| ==> ms[i].id != ms[j].id
  }

  lemma {:induction false} InsertedMembers(ms: seq<Message>, m: Message)
    ensures |Inserted(ms, m)| == |ms| + 1
    ensures forall x :: x in Inserted(ms, m) <==> x in ms || x == m
  {
    if !(ms == [] || m.createdAt < ms[0].createdAt) {
      InsertedMembers(ms[1..], m);
      assert ms == [ms[0]] + ms[1..];
    }
  }

  lemma InsertedIds(ms: seq<Message>, m: Message)
    ensures Ids(Inserted(ms, m)) == Ids(ms) + {m.id}
  {
    InsertedMembers(ms, m);
  }

  lemma {:induction false} InsertedLeaves(ms: seq<Message>, m: Message)
    ensures AllLeaves(Inserted(ms, m)) == AllLeaves(ms) + Leaves(m)
  {
    if ms == [] || m.createdAt < ms[0].createdAt {
      assert ([m] + ms)[1..] == ms;
    } else {
      InsertedLeaves(ms[1..], m);
      assert Inserted(ms, m)[1..] == Inserted(ms[1..], m);
    }
  }

  lemma {:induction false} InsertedDistinct(ms: seq<Message>, m: Message)
    requires DistinctIds(ms) && m.id !in Ids(ms)
    ensures DistinctIds(Inserted(ms, m))
  {
    if ms == [] || m.createdAt < ms[0].createdAt {
      assert forall i :: 0 <= i < |ms| ==> ms[i] in ms && ms[i].id in Ids(ms);
    } else {
      var r := Inserted(ms[1..], m);
      assert forall x :: x in ms[1..] ==> x in ms;
      InsertedDistinct(ms[1..], m);
      InsertedMembers(ms[1..], m);
      forall i | 0 <= i < |r|
        ensures r[i].id != ms[0].id
      {
        assert r[i] in r && ms[0] in ms;
      }
    }
  }

  lemma {:induction false} InsertedOrdered(ms: seq<Message>, m: Message)
    requires Ordered(ms)
    ensures Ordered(Inserted(ms, m))
  {
    if !(ms == [] || m.createdAt < ms[0].createdAt) {
      var r := Inserted(ms[1..], m);
      InsertedOrdered(ms[1..], m);
      InsertedMembers(ms[1..], m);
      forall i | 0 <= i < |r|
        ensures r[i].createdAt >= ms[0].createdAt
      {
        assert r[i] in r;
      }
    }
  }

  lemma {:induction false} InsertedElsewhere(ms: seq<Message>, m: Message, ids: set<nat>)
    requires m.id !in ids
    ensures Only(Inserted(ms, m), ids) == Only(ms, ids)
  {
    if ms == [] || m.createdAt < ms[0].createdAt {
      assert ([m] + ms)[1..] == ms;
    } else {
      InsertedElsewhere(ms[1..], m, ids);
      assert Inserted(ms, m)[1..] == Inserted(ms[1..], m);
    }
  }

  // A row inserted and taken out again leaves the others as they were, in their order.
  lemma {:induction false} InsertedTakenOut(ms: seq<Message>, m: Message)
    requires m.id !in Ids(ms)
    ensures Without(Inserted(ms, m), {m.id}) == ms
  {
    NothingTakenOut(ms, {m.id});
    if ms == [] || m.createdAt < ms[0].createdAt {
      assert ([m] + ms)[1..] == ms;
    } else {
      assert forall x :: x in ms[1..] ==> x in ms;
      InsertedTakenOut(ms[1..], m);
      assert Inserted(ms, m)[1..] == Inserted(ms[1..], m);
      assert ms[0] in ms && ms == [ms[0]] + ms[1..];
    }
  }

  lemma {:induction false} NothingTakenOut(ms: seq<Message>, ids: set<nat>)
    requires Ids(ms) !! ids
    ensures Without(ms, ids) == ms && Only(ms, ids) == []
  {
    if ms != [] {
      assert ms[0] in ms && ms[0].id in Ids(ms) && Ids(ms[1..]) <= Ids(ms);
      NothingTakenOut(ms[1..], ids);
      assert ms == [ms[0]] + ms[1..];
    }
  }

  // Splitting by id loses and repeats nothing.
  lemma {:induction false} SplitLeaves(ms: seq<Message>, ids: set<nat>)
    ensures |Without(ms, ids)| + |Only(ms, ids)| == |ms|
    ensures AllLeaves(ms) == AllLeaves(Without(ms, ids)) + AllLeaves(Only(ms, ids))
  {
    if ms != [] {
      SplitLeaves(ms[1..], ids);
      var kept, taken := Without(ms[1..], ids), Only(ms[1..], ids);
      assert ([ms[0]] + taken)[1..] == taken && ([ms[0]] + kept)[1..] == kept;
      assert [] + taken == taken && [] + kept == kept;
    }
  }

  lemma {:induction false} WithoutMembers(ms: seq<Message>, ids: set<nat>)
    ensures forall x :: x in Without(ms, ids) <==> x in ms && x.id !in ids
  {
    if ms != [] {
      WithoutMembers(ms[1..], ids);
      assert ms == [ms[0]] + ms[1..];
    }
  }

  lemma {:induction false} WithoutOrdered(ms: seq<Message>, ids: set<nat>)
    ensures Ordered(ms) ==> Ordered(Without(ms, ids))
  {
    if ms != [] && Ordered(ms) {
      WithoutOrdered(ms[1..], ids);
      var kept := Without(ms[1..], ids);
      forall k | 0 <= k < |kept|
        ensures ms[0].createdAt <= kept[k].createdAt
      {
        var j := KeptFrom(ms[1..], ids, k);
        assert ms[j + 1] == kept[k];
      }
    }
  }

  lemma {:induction false} WithoutDistinct(ms: seq<Message>, ids: set<nat>)
    ensures DistinctIds(ms) ==> DistinctIds(Without(ms, ids))
  {
    if ms != [] && DistinctIds(ms) {
      WithoutDistinct(ms[1..], ids);
      var kept := Without(ms[1..], ids);
      forall k | 0 <= k < |kept|
        ensures ms[0].id != kept[k].id
      {
        var j := KeptFrom(ms[1..], ids, k);
        assert ms[j + 1] == kept[k];
      }
    }
  }

  lemma KeptFrom(ms: seq<Message>, ids: set<nat>, k: nat) returns (j: nat)
    requires k < |Without(ms, ids)|
    ensures j < |ms| && ms[j] == Without(ms, ids)[k]
  {
    WithoutMembers(ms, ids);
    assert Without(ms, ids)[k] in Without(ms, ids);
    j :| 0 <= j < |ms| && ms[j] == Without(ms, ids)[k];
  }

  lemma OldestChosen(ms: seq<Message>, n: nat)
    requires n <= |ms| && DistinctIds(ms)
    ensures Only(ms, Ids(ms[..n])) == ms[..n]
  {
    PrefixChosen(ms, ms[..n], n, Ids(ms[..n]));
  }

  lemma {:induction false} PrefixChosen(ms: seq<Message>, chosen: seq<Message>, n: nat, ids: set<nat>)
    requires n <= |ms| && chosen == ms[..n]
    requires forall i :: 0 <= i < |ms| ==> (ms[i].id in ids <==> i < n)
    ensures Only(ms, ids) == chosen
    decreases |ms|
  {
    if ms != [] {
      if n == 0 {
        PrefixChosen(ms[1..], [], 0, ids);
      } else {
        PrefixChosen(ms[1..], chosen[1..], n - 1, ids);
        assert chosen == [ms[0]] + chosen[1..];
      }
    }
  }

  // ------------------------------------------------------------------
  // One run of the compressor
  // ------------------------------------------------------------------

  /** A run under way: when its transaction began, and the messages it read then. */
  datatype Task = Task(startedAt: int, chosen: seq<Message>)

  function SummaryOf(task: Task, id: nat): Message {
    Message(id, task.startedAt, Summary(task.chosen))
  }

  /** Delete what was read, insert the summary. */
  function Compressed(ms: seq<Message>, task: Task, id: nat): seq<Message> {
    Inserted(Without(ms, Ids(task.chosen)), SummaryOf(task, id))
  }

  /** The messages the run read are still there, in the order it read them. */
  predicate Intact(ms: seq<Message>, task: Task) {
    Only(ms, Ids(task.chosen)) == task.chosen && |task.chosen| == BATCH
  }

  // A run drops the count by nine, keeps every original exactly as often as before, and leaves
  // all other messages as they were, in their order.
  lemma CompressionFolds(ms: seq<Message>, task: Task, id: nat)
    requires Ordered(ms) && DistinctIds(ms) && Intact(ms, task) && id !in Ids(ms)
    ensures var after := Compressed(ms, task, id);
      && |after| == |ms| - (BATCH - 1)
      && AllLeaves(after) == AllLeaves(ms)
      && Ordered(after) && DistinctIds(after)
      && Without(after, {id}) == Without(ms, Ids(task.chosen))
      && Ids(after) <= Ids(ms) + {id}
  {
    var kept := Without(ms, Ids(task.chosen));
    var summary := SummaryOf(task, id);
    SplitLeaves(ms, Ids(task.chosen));
    WithoutMembers(ms, Ids(task.chosen));
    WithoutOrdered(ms, Ids(task.chosen));
    WithoutDistinct(ms, Ids(task.chosen));
    assert id !in Ids(kept);
    InsertedMembers(kept, summary);
    InsertedLeaves(kept, summary);
    InsertedDistinct(kept, summary);
    InsertedOrdered(kept, summary);
    InsertedTakenOut(kept, summary);
  }

  // The summary follows every message stored before the run began, so it lands last, not first.
  lemma SummaryLandsLast(ms: seq<Message>, task: Task, id: nat)
    requires forall m :: m in ms ==> m.createdAt <= task.startedAt
    ensures Compressed(ms, task, id) == Without(ms, Ids(task.chosen)) + [SummaryOf(task, id)]
  {
    WithoutMembers(ms, Ids(task.chosen));
    InsertedLast(Without(ms, Ids(task.chosen)), SummaryOf(task, id));
  }

  lemma {:induction false} InsertedLast(ms: seq<Message>, m: Message)
    requires forall x :: x in ms ==> x.createdAt <= m.createdAt
    ensures Inserted(ms, m) == ms + [m]
  {
    if ms != [] {
      assert ms[0] in ms && ms == [ms[0]] + ms[1..];
      InsertedLast(ms[1..], m);
    }
  }

  lemma {:induction false} OnlyMembers(ms: seq<Message>, ids: set<nat>)
    ensures forall x :: x in Only(ms, ids) <==> x in ms && x.id in ids
  {
    if ms != [] {
      OnlyMembers(ms[1..], ids);
      assert ms == [ms[0]] + ms[1..];
    }
  }

  lemma SomeMember(ms: seq<Message>)
    requires ms != []
    ensures exists m :: m in ms
  {
    assert ms[0] in ms;
  }

  lemma RestMatches(a: seq<Message>, b: seq<Message>)
    requires a != [] && DistinctIds(a) && DistinctIds(b) && forall x :: x in a <==> x in b
    ensures forall x :: x in a[1..] <==> x in Without(b, {a[0].id})
  {
    WithoutMembers(b, {a[0].id});
    forall x
      ensures x in a[1..] <==> x in Without(b, {a[0].id})
    {
      HeadApart(a, x);
    }
  }

  lemma {:induction false} SameMessagesSameLeaves(a: seq<Message>, b: seq<Message>)
    requires DistinctIds(a) && DistinctIds(b) && forall x :: x in a <==> x in b
    ensures AllLeaves(a) == AllLeaves(b)
    decreases |a|
  {
    if a == [] {
      if b != [] {
        SomeMember(b);
      }
    } else {
      var rest := Without(b, {a[0].id});
      assert a[0] in a;
      SplitLeaves(b, {a[0].id});
      OneChosen(b, a[0]);
      WithoutDistinct(b, {a[0].id});
      RestMatches(a, b);
      SameMessagesSameLeaves(a[1..], rest);
    }
  }

  lemma HeadApart(a: seq<Message>, x: Message)
    requires a != [] && DistinctIds(a)
    ensures x in a[1..] <==> x in a && x.id != a[0].id
  {
    assert a == [a[0]] + a[1..];
    if x in a[1..] {
      var j :| 0 <= j < |a[1..]| && a[1..][j] == x;
      assert a[j + 1] == x;
    }
  }

  lemma {:induction false} OneChosen(ms: seq<Message>, m: Message)
    requires DistinctIds(ms) && m in ms
    ensures AllLeaves(Only(ms, {m.id})) == Leaves(m)
  {
    HeadApart(ms, m);
    assert [] + Only(ms[1..], {m.id}) == Only(ms[1..], {m.id});
    if ms[0].id == m.id {
      assert ms[0] == m;
      forall x | x in ms[1..]
        ensures x.id != m.id
      {
        HeadApart(ms, x);
      }
      NothingTakenOut(ms[1..], {m.id});
      assert AllLeaves([m]) == Leaves(m) + AllLeaves([]);
    } else {
      OneChosen(ms[1..], m);
    }
  }

  /** Messages never change: whatever still has an id the run read is the message it read. */
  predicate Unaltered(ms: seq<Message>, task: Task) {
    DistinctIds(task.chosen) && forall m :: m in ms && m.id in Ids(task.chosen) ==> m in task.chosen
  }

  lemma NothingLeftIff(chosen: seq<Message>, ids: set<nat>)
    requires forall m :: m in chosen ==> Leaves(m) != multiset{}
    ensures AllLeaves(Without(chosen, ids)) == multiset{} <==> Ids(chosen) <= ids
  {
    var gone := Without(chosen, ids);
    WithoutMembers(chosen, ids);
    if Ids(chosen) <= ids {
      assert forall x :: x in gone ==> x.id in Ids(chosen);
      if gone != [] {
        SomeMember(gone);
      }
    } else {
      var i :| i in Ids(chosen) && i !in ids;
      var m :| m in chosen && m.id == i;
      assert m in gone;
      LeavesOfMember(gone, m);
    }
  }

  lemma Cancels(kept: multiset<nat>, gone: multiset<nat>, there: multiset<nat>)
    ensures kept + (gone + there) == kept + there <==> gone == multiset{}
  {
    if kept + (gone + there) == kept + there {
      forall x
        ensures gone[x] == 0
      {
        assert (kept + (gone + there))[x] == (kept + there)[x];
      }
    }
  }

  // A run, overlapping others or not, keeps every original exactly as often as before if and only
  // if all the messages it read are still there when it deletes them.
  lemma KeepsOriginalsIff(ms: seq<Message>, task: Task, id: nat)
    requires DistinctIds(ms) && Unaltered(ms, task) && forall m :: m in task.chosen ==> Leaves(m) != multiset{}
    ensures AllLeaves(Compressed(ms, task, id)) == AllLeaves(ms) <==> Ids(task.chosen) <= Ids(ms)
  {
    var kept := Without(ms, Ids(task.chosen));
    var gone, there := Without(task.chosen, Ids(ms)), Only(task.chosen, Ids(ms));
    InsertedLeaves(kept, SummaryOf(task, id));
    assert Leaves(SummaryOf(task, id)) == AllLeaves(task.chosen);
    SplitLeaves(ms, Ids(task.chosen));
    SplitLeaves(task.chosen, Ids(ms));
    ChosenThere(ms, task);
    NothingLeftIff(task.chosen, Ids(ms));
    Cancels(AllLeaves(kept), AllLeaves(gone), AllLeaves(there));
  }

  lemma {:induction false} LeavesOfMember(ms: seq<Message>, m: Message)
    requires m in ms
    ensures Leaves(m) <= AllLeaves(ms)
  {
    if ms[0] != m {
      LeavesOfMember(ms[1..], m);
    }
  }

  lemma {:induction false} OnlyDistinct(ms: seq<Message>, ids: set<nat>)
    requires DistinctIds(ms)
    ensures DistinctIds(Only(ms, ids))
  {
    if ms != [] {
      OnlyDistinct(ms[1..], ids);
      OnlyMembers(ms[1..], ids);
      var r := Only(ms[1..], ids);
      forall k | 0 <= k < |r|
        ensures r[k].id != ms[0].id
      {
        assert r[k] in r;
        HeadApart(ms, r[k]);
      }
    }
  }

  lemma ChosenThere(ms: seq<Message>, task: Task)
    requires DistinctIds(ms) && Unaltered(ms, task)
    ensures AllLeaves(Only(ms, Ids(task.chosen))) == AllLeaves(Only(task.chosen, Ids(ms)))
  {
    var a, b := Only(ms, Ids(task.chosen)), Only(task.chosen, Ids(ms));
    OnlyDistinct(ms, Ids(task.chosen));
    OnlyDistinct(task.chosen, Ids(ms));
    OnlyMembers(ms, Ids(task.chosen));
    OnlyMembers(task.chosen, Ids(ms));
    forall x | x in b
      ensures x in a
    {
      var y :| y in ms && y.id == x.id;
      SameId(task.chosen, x, y);
    }
    SameMessagesSameLeaves(a, b);
  }

  lemma SameId(ms: seq<Message>, x: Message, y: Message)
    requires DistinctIds(ms) && x in ms && y in ms && x.id == y.id
    ensures x == y
  {
    var i :| 0 <= i < |ms| && ms[i] == x;
    var j :| 0 <= j < |ms| && ms[j] == y;
  }

  // Two runs that read the same ten messages leave two summaries of them.
  lemma OverlappingRunsDuplicate(ms: seq<Message>, task: Task, id: nat, id': nat)
    requires Ordered(ms) && DistinctIds(ms) && Intact(ms, task) && id !in Ids(ms) && id' !in Ids(ms) + {id}
    ensures AllLeaves(Compressed(Compressed(ms, task, id), task, id')) == AllLeaves(ms) + AllLeaves(task.chosen)
  {
    var once := Compressed(ms, task, id);
    CompressionFolds(ms, task, id);
    SplitLeaves(ms, Ids(task.chosen));
    WithoutMembers(ms, Ids(task.chosen));
    forall x | x in task.chosen
      ensures x in ms
    {
      OnlyMembers(ms, Ids(task.chosen));
    }
    var kept := Without(ms, Ids(task.chosen));
    InsertedMembers(kept, SummaryOf(task, id));
    NothingTakenOut(once, Ids(task.chosen));
    InsertedLeaves(once, SummaryOf(task, id'));
  }

  // ------------------------------------------------------------------
  // Conversations: turns, and the compressor running beside them
  // ------------------------------------------------------------------

  /** `originals` are all messages people and the assistant ever wrote; `history` is the length of the last prompt's. */
  datatype World = World(
    clock: int,
    live: seq<Message>,
    originals: set<nat>,
    nextId: nat,
    queued: nat,
    task: Option<Task>,
    awaiting: bool,
    history: nat)

  const START := World(0, [], {}, 0, 0, None, false, 0)

  /** `at` is when the message's own transaction began. */
  datatype Step =
    | Ask(t: int, at: int)
    | Reply(t: int, at: int)
    | AgentReply(t: int, at: int)
    | Begin(t: int)
    | Finish(t: int)
    | Fail(t: int, retry: bool)

  /** With `calm`, every queued run succeeds before the next turn begins, and no human agent replies. */
  predicate Enabled(w: World, s: Step, calm: bool) {
    s.t >= w.clock &&
    match s
    case Ask(t, at) => at <= t && (calm ==> w.queued == 0 && w.task.None?)
    case Reply(t, at) => at <= t && w.awaiting
    case AgentReply(t, at) => at <= t && !calm
    case Begin(_) => w.queued > 0 && w.task.None?
    case Finish(_) => w.task.Some?
    case Fail(_, _) => w.task.Some? && !calm
  }

  function Written(w: World, t: int, at: int): World {
    w.(clock := t, live := Inserted(w.live, Message(w.nextId, at, Original)),
       originals := w.originals + {w.nextId}, nextId := w.nextId + 1)
  }

  function Next(w: World, s: Step): World
    requires (s.Begin? ==> w.queued > 0) && (s.Finish? ==> w.task.Some?)
  {
    match s
    case Ask(t, at) =>
      var asked := Written(w, t, at);
      asked.(history := |asked.live|, queued := if |asked.live| >= BATCH then w.queued + 1 else w.queued, awaiting := true)
    case Reply(t, at) => Written(w, t, at).(awaiting := false)
    case AgentReply(t, at) => Written(w, t, at)
    case Begin(t) =>
      if |w.live| < BATCH then w.(clock := t, queued := w.queued - 1)
      else w.(clock := t, queued := w.queued - 1, task := Some(Task(t, w.live[..BATCH])))
    case Finish(t) =>
      w.(clock := t, live := Compressed(w.live, w.task.value, w.nextId), nextId := w.nextId + 1, task := None)
    case Fail(t, retry) => w.(clock := t, task := None, queued := if retry then w.queued + 1 else w.queued)
  }

  predicate Follows(w: World, s: Step, after: World, calm: bool) {
    Enabled(w, s, calm) && after == Next(w, s)
  }

  predicate IsRun(ws: seq<World>, steps: seq<Step>, calm: bool) {
    && |ws| == |steps| + 1 && ws[0] == START
    && forall i {:trigger steps[i]} :: 0 <= i < |steps| ==> Follows(ws[i], steps[i], ws[i + 1], calm)
  }

  /** The live messages stand for each original exactly once. */
  predicate Partitioned(w: World) {
    && Ordered(w.live) && DistinctIds(w.live)
    && (forall id :: id in Ids(w.live) ==> id < w.nextId)
    && (forall id :: id in w.originals ==> id < w.nextId)
    && AllLeaves(w.live) == multiset(w.originals)
    && (w.task.Some? ==> Intact(w.live, w.task.value) && (forall id :: id in Ids(w.task.value.chosen) ==> id < w.nextId))
  }

  lemma WrittenPartitioned(w: World, t: int, at: int)
    requires Partitioned(w)
    ensures Partitioned(Written(w, t, at))
  {
    var m := Message(w.nextId, at, Original);
    assert w.nextId !in Ids(w.live);
    InsertedLeaves(w.live, m);
    InsertedDistinct(w.live, m);
    InsertedOrdered(w.live, m);
    InsertedIds(w.live, m);
    assert multiset(w.originals + {w.nextId}) == multiset(w.originals) + multiset{w.nextId};
    if w.task.Some? {
      InsertedElsewhere(w.live, m, Ids(w.task.value.chosen));
    }
  }

  lemma BeginPartitioned(w: World, t: int)
    requires Partitioned(w) && |w.live| >= BATCH
    ensures Partitioned(w.(task := Some(Task(t, w.live[..BATCH]))))
  {
    OldestChosen(w.live, BATCH);
    assert Ids(w.live[..BATCH]) <= Ids(w.live);
  }

  lemma FinishPartitioned(w: World, t: int)
    requires Partitioned(w) && w.task.Some?
    ensures Partitioned(Next(w, Finish(t)))
  {
    assert w.nextId !in Ids(w.live);
    CompressionFolds(w.live, w.task.value, w.nextId);
  }

  lemma StepPartitioned(w: World, s: Step, after: World, calm: bool)
    requires Partitioned(w) && Follows(w, s, after, calm)
    ensures Partitioned(after)
  {
    match s
    case Ask(t, at) => WrittenPartitioned(w, t, at);
    case Reply(t, at) => WrittenPartitioned(w, t, at);
    case AgentReply(t, at) => WrittenPartitioned(w, t, at);
    case Begin(t) => if |w.live| >= BATCH { BeginPartitioned(w, t); }
    case Finish(t) => FinishPartitioned(w, t);
    case Fail(_, _) =>
  }

  // Whatever turns, agents and failures do beside it, one run at a time never loses or repeats an original.
  lemma {:induction false} EveryMessageOnce(ws: seq<World>, steps: seq<Step>, calm: bool, i: nat)
    requires IsRun(ws, steps, calm) && i <= |steps|
    ensures Partitioned(ws[i])
  {
    if i > 0 {
      EveryMessageOnce(ws, steps, calm, i - 1);
      assert Follows(ws[i - 1], steps[i - 1], ws[i], calm);
      StepPartitioned(ws[i - 1], steps[i - 1], ws[i], calm);
    }
  }

  /** How many messages there can be, with a run still to finish and without. */
  predicate Bounded(w: World) {
    && w.history <= BATCH + 1
    && w.queued + (if w.task.Some? then 1 else 0) <= 1
    && if w.queued > 0 || w.task.Some? then BATCH <= |w.live| <= (if w.awaiting then BATCH + 1 else BATCH + 2)
       else |w.live| <= (if w.awaiting then BATCH - 1 else BATCH)
  }

  lemma StepBounded(w: World, s: Step, after: World)
    requires Partitioned(w) && Bounded(w) && Follows(w, s, after, true)
    ensures Bounded(after)
  {
    match s
    case Ask(_, at) => InsertedMembers(w.live, Message(w.nextId, at, Original));
    case Reply(_, at) => InsertedMembers(w.live, Message(w.nextId, at, Original));
    case Finish(_) =>
      assert w.nextId !in Ids(w.live);
      CompressionFolds(w.live, w.task.value, w.nextId);
    case _ =>
  }

  // When every run it triggers ends before the next turn, a prompt's history never exceeds eleven messages.
  lemma {:induction false} PromptsStayShort(ws: seq<World>, steps: seq<Step>, i: nat)
    requires IsRun(ws, steps, true) && i <= |steps|
    ensures Bounded(ws[i]) && ws[i].history <= 11
  {
    if i > 0 {
      PromptsStayShort(ws, steps, i - 1);
      EveryMessageOnce(ws, steps, true, i - 1);
      assert Follows(ws[i - 1], steps[i - 1], ws[i], true);
      StepBounded(ws[i - 1], steps[i - 1], ws[i]);
    }
  }

  // And a triggered run can always go through: it leaves nine messages fewer and nothing queued.
  lemma TriggeredRunEnds(w: World)
    requires Partitioned(w) && Bounded(w) && w.queued > 0 && w.task.None?
    ensures var begun := Next(w, Begin(w.clock));
      && Enabled(w, Begin(w.clock), true) && begun.task == Some(Task(w.clock, w.live[..10]))
      && Enabled(begun, Finish(w.clock), true)
      && var ended := Next(begun, Finish(w.clock));
         |ended.live| == |w.live| - 9 && ended.queued == w.queued - 1 == 0 && ended.task.None? && ended.history == w.history
  {
    WholeRun(w, w.clock);
  }

  lemma Extend(ws: seq<World>, steps: seq<Step>, s: Step, calm: bool) returns (ws': seq<World>, steps': seq<Step>)
    requires IsRun(ws, steps, calm) && Enabled(ws[|steps|], s, calm)
    ensures IsRun(ws', steps', calm) && ws' == ws + [Next(ws[|steps|], s)] && steps' == steps + [s]
  {
    ws', steps' := ws + [Next(ws[|steps|], s)], steps + [s];
  }

  lemma {:induction false} ShortTurns(n: nat) returns (ws: seq<World>, steps: seq<Step>)
    requires 2 * n <= BATCH
    ensures IsRun(ws, steps, true)
    ensures var w := ws[|steps|]; w.clock == 0 && |w.live| == 2 * n && w.queued == 0 && w.task.None?
  {
    if n == 0 {
      ws, steps := [START], [];
    } else {
      var ws0, steps0 := ShortTurns(n - 1);
      var w := ws0[|steps0|];
      InsertedMembers(w.live, Message(w.nextId, 0, Original));
      var ws1, steps1 := Extend(ws0, steps0, Ask(0, 0), true);
      var asked := ws1[|steps1|];
      InsertedMembers(asked.live, Message(asked.nextId, 0, Original));
      ws, steps := Extend(ws1, steps1, Reply(0, 0), true);
    }
  }

  // The sixth question is answered from eleven messages: the trigger waits for a prompt of ten.
  lemma ElevenIsReached() returns (ws: seq<World>, steps: seq<Step>)
    ensures IsRun(ws, steps, true) && ws[|steps|].history == 11
  {
    ws, steps := ShortTurns(5);
    var w := ws[|steps|];
    InsertedMembers(w.live, Message(w.nextId, 0, Original));
    ws, steps := Extend(ws, steps, Ask(0, 0), true);
  }

  // ------------------------------------------------------------------
  // The conversation as stored
  // ------------------------------------------------------------------

  /** The message is added after all that were created no later and before all that were created later. */
  ghost predicate Placed(ms: seq<Message>, m: Message, after: seq<Message>) {
    exists k :: 0 <= k <= |ms| && after == ms[..k] + [m] + ms[k..]
      && (forall i :: 0 <= i < k ==> ms[i].createdAt <= m.createdAt)
      && (forall i :: k <= i < |ms| ==> m.createdAt < ms[i].createdAt)
  }

  lemma {:induction false} InsertedPlace(ms: seq<Message>, m: Message) returns (k: nat)
    requires Ordered(ms)
    ensures k <= |ms| && Inserted(ms, m) == ms[..k] + [m] + ms[k..]
    ensures forall i :: 0 <= i < k ==> ms[i].createdAt <= m.createdAt
    ensures forall i :: k <= i < |ms| ==> m.createdAt < ms[i].createdAt
  {
    if ms == [] || m.createdAt < ms[0].createdAt {
      k := 0;
    } else {
      var j := InsertedPlace(ms[1..], m);
      k := j + 1;
      assert ms[..k] == [ms[0]] + ms[1..][..j] && ms[k..] == ms[1..][j..];
    }
  }

  lemma InsertedPlaced(ms: seq<Message>, m: Message)
    requires Ordered(ms)
    ensures Placed(ms, m, Inserted(ms, m))
  {
    var k := InsertedPlace(ms, m);
  }

  class Conversation {
    var live: seq<Message>
    var nextId: nat
    ghost var originals: set<nat>

    ghost predicate Valid()
      reads this
    {
      Partitioned(World(0, live, originals, nextId, 0, None, false, 0))
    }

    constructor ()
      ensures Valid() && live == [] && originals == {} && nextId == 0
    {
      live, nextId, originals := [], 0, {};
    }

    method CreateMessage(at: int) returns (m: Message)
      requires Valid()
      modifies this
      ensures Valid()
      ensures m == Message(old(nextId), at, Original) && nextId == old(nextId) + 1
      ensures Placed(old(live), m, live) && originals == old(originals) + {m.id}
    {
      InsertedPlaced(live, Message(nextId, at, Original));
      WrittenPartitioned(World(0, live, originals, nextId, 0, None, false, 0), 0, at);
      m := Message(nextId, at, Original);
      live, nextId, originals := Inserted(live, m), nextId + 1, originals + {nextId};
    }

    /** One whole run of the compressor, whose transaction begins at `startedAt`. */
    method CompressConversation(startedAt: int)
      requires Valid()
      modifies `live, `nextId
      ensures Valid() && AllLeaves(live) == AllLeaves(old(live))
      ensures |old(live)| < 10 ==> live == old(live) && nextId == old(nextId)
      ensures |old(live)| >= 10 ==>
        && Placed(old(live)[10..], Message(old(nextId), startedAt, Summary(old(live)[..10])), live)
        && |live| == |old(live)| - 9 && nextId == old(nextId) + 1
    {
      var history := if |live| < BATCH then live else live[..BATCH];
      if |history| < BATCH {
        return;
      }
      WholeRun(World(0, live, originals, nextId, 0, None, false, 0), startedAt);
      InsertedPlaced(live[BATCH..], Message(nextId, startedAt, Summary(history)));
      live := Inserted(Without(live, Ids(history)), Message(nextId, startedAt, Summary(history)));
      nextId := nextId + 1;
    }
  }

  lemma WholeRun(w: World, startedAt: int)
    requires Partitioned(w) && |w.live| >= BATCH && w.task.None?
    ensures var after := Compressed(w.live, Task(startedAt, w.live[..BATCH]), w.nextId);
      && Partitioned(w.(live := after, nextId := w.nextId + 1))
      && AllLeaves(after) == AllLeaves(w.live) && |after| == |w.live| - (BATCH - 1)
      && Without(w.live, Ids(w.live[..BATCH])) == w.live[BATCH..]
  {
    BeginPartitioned(w, startedAt);
    var running := w.(task := Some(Task(startedAt, w.live[..BATCH])));
    FinishPartitioned(running, w.clock);
    assert Next(running, Finish(w.clock)) ==
      w.(live := Compressed(w.live, running.task.value, w.nextId), nextId := w.nextId + 1);
    CompressionFolds(w.live, running.task.value, w.nextId);
    RestKept(w.live, BATCH);
  }

  lemma RestKept(ms: seq<Message>, n: nat)
    requires n <= |ms| && DistinctIds(ms)
    ensures Without(ms, Ids(ms[..n])) == ms[n..]
  {
    SuffixKept(ms, n, Ids(ms[..n]));
  }

  lemma {:induction false} SuffixKept(ms: seq<Message>, n: nat, ids: set<nat>)
    requires n <= |ms| && forall i :: 0 <= i < |ms| ==> (ms[i].id in ids <==> i < n)
    ensures Without(ms, ids) == ms[n..]
  {
    if ms != [] {
      SuffixKept(ms[1..], if n == 0 then 0 else n - 1, ids);
    }
  }
}
