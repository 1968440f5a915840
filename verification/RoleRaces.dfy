/** The membership service under interleaved requests: a gate's read and its fill, and a change's
    checks, eviction and commit, are all separate steps. */
module RoleRaces {
  import opened Prelude
  import opened RoleCache

  /** A role on its way into the cache, read from the database at time `at`. */
  datatype Fill = Fill(key: Key, role: Role, at: nat)

  /** A cached role; `readAt` is when the database held it, `setAt` when its TTL began. */
  datatype Entry = Entry(role: Role, readAt: nat, setAt: nat)

  datatype Change = Add(role: Role) | SetRole(role: Role) | Remove

  datatype Stage = Authorized | Checked | Evicted

  datatype Request = Request(org: nat, actor: nat, target: nat, change: Change, stage: Stage)

  /** Fills and requests are never dropped: any of them may go on, late or twice, or stop anywhere. */
  datatype World = World(
    clock: nat,
    db: Memberships,
    founders: map<nat, nat>,
    cache: map<Key, Entry>,
    fills: set<Fill>,
    requests: set<Request>)

  const START := World(0, map[], map[], map[], {}, {})

  datatype Step =
    | Create(t: nat, org: nat, user: nat)
    | Read(t: nat, key: Key)
    | Write(t: nat, fill: Fill)
    | Authorize(t: nat, request: Request)
    | Check(t: nat, request: Request)
    | Evict(t: nat, request: Request)
    | Commit(t: nat, request: Request)

  function Actor(r: Request): Key {
    Key(r.org, r.actor)
  }

  function Target(r: Request): Key {
    Key(r.org, r.target)
  }

  predicate Live(w: World, k: Key, t: nat) {
    k in w.cache && t < w.cache[k].setAt + TTL
  }

  /** The owner gate, from the cache if it answers, else from the database. */
  predicate PassesOwnerGate(w: World, k: Key, t: nat) {
    if Live(w, k, t) then w.cache[k].role == OWNER else Owns(w.db, k)
  }

  /** `delay` bounds the time from a gate's database read to its cache write; with `atomic`,
      a change's role check still holds when it is written. */
  predicate Enabled(w: World, s: Step, delay: nat, atomic: bool) {
    s.t >= w.clock &&
    match s
    case Create(_, org, _) => org !in w.founders
    case Read(_, k) => k in w.db
    case Write(t, fill) => fill in w.fills && t <= fill.at + delay
    case Authorize(t, r) => r.stage == Authorized && PassesOwnerGate(w, Actor(r), t)
    case Check(_, r) =>
      r in w.requests && r.stage == Authorized && !r.change.Add?
      && TargetRefusal(w.db, Actor(r), Target(r)).None?
    case Evict(_, r) => r in w.requests && r.stage == Checked
    case Commit(_, r) =>
      r in w.requests &&
      if r.change.Add? then Target(r) !in w.db
      else r.stage == Evicted && Target(r) in w.db && (atomic ==> !Owns(w.db, Target(r)))
  }

  function Written(db: Memberships, r: Request): Memberships {
    match r.change
    case Add(role) => db[Target(r) := role]
    case SetRole(role) => db[Target(r) := role]
    case Remove => db - {Target(r)}
  }

  function Next(w: World, s: Step): World
    requires s.Read? ==> s.key in w.db
  {
    match s
    case Create(t, org, user) => w.(clock := t, db := w.db[Key(org, user) := OWNER], founders := w.founders[org := user])
    case Read(t, k) => w.(clock := t, fills := w.fills + {Fill(k, w.db[k], t)})
    case Write(t, f) => w.(clock := t, cache := w.cache[f.key := Entry(f.role, f.at, t)])
    case Authorize(t, r) => w.(clock := t, requests := w.requests + {r})
    case Check(t, r) => w.(clock := t, requests := w.requests + {r.(stage := Checked)})
    case Evict(t, r) => w.(clock := t, requests := w.requests + {r.(stage := Evicted)}, cache := w.cache - {Target(r)})
    case Commit(t, r) => w.(clock := t, db := Written(w.db, r))
  }

  predicate Follows(w: World, s: Step, after: World, delay: nat, atomic: bool) {
    Enabled(w, s, delay, atomic) && after == Next(w, s)
  }

  predicate IsRun(ws: seq<World>, steps: seq<Step>, delay: nat, atomic: bool) {
    && |ws| == |steps| + 1 && ws[0] == START
    && forall i {:trigger steps[i]} :: 0 <= i < |steps| ==> Follows(ws[i], steps[i], ws[i + 1], delay, atomic)
  }

  // ------------------------------------------------------------------
  // Every cached role was the committed role within the last TTL + delay
  // ------------------------------------------------------------------

  /** The j-th world is the one in which a gate read this role, at time `at`. */
  predicate ReadIn(ws: seq<World>, steps: seq<Step>, j: nat, k: Key, role: Role, at: nat)
    requires |ws| == |steps| + 1 && 0 < j <= |steps|
  {
    steps[j - 1] == Read(at, k) && ws[j].clock == at && k in ws[j].db && ws[j].db[k] == role
  }

  /** At time `at`, in a world up to the i-th, a gate read this role from the database. */
  ghost predicate Held(ws: seq<World>, steps: seq<Step>, i: nat, k: Key, role: Role, at: nat)
    requires |ws| == |steps| + 1 && i <= |steps|
  {
    exists j :: 0 < j <= i && ReadIn(ws, steps, j, k, role, at)
  }

  /** Everything cached or on its way there was once read from the database, not long before its TTL began. */
  ghost predicate Sourced(ws: seq<World>, steps: seq<Step>, i: nat, delay: nat)
    requires |ws| == |steps| + 1 && i <= |steps|
  {
    && (forall f :: f in ws[i].fills ==> Held(ws, steps, i, f.key, f.role, f.at))
    && (forall k :: k in ws[i].cache ==> var e := ws[i].cache[k];
          Held(ws, steps, i, k, e.role, e.readAt) && e.setAt <= e.readAt + delay)
  }

  lemma HeldLater(ws: seq<World>, steps: seq<Step>, i: nat, k: Key, role: Role, at: nat)
    requires |ws| == |steps| + 1 && i < |steps| && Held(ws, steps, i, k, role, at)
    ensures Held(ws, steps, i + 1, k, role, at)
  {
    var j :| 0 < j <= i && ReadIn(ws, steps, j, k, role, at);
    assert 0 < j <= i + 1 && ReadIn(ws, steps, j, k, role, at);
  }

  lemma {:induction false} EveryRoleSourced(ws: seq<World>, steps: seq<Step>, delay: nat, atomic: bool, i: nat)
    requires IsRun(ws, steps, delay, atomic) && i <= |steps|
    ensures Sourced(ws, steps, i, delay)
  {
    if i > 0 {
      EveryRoleSourced(ws, steps, delay, atomic, i - 1);
      var w, s := ws[i - 1], steps[i - 1];
      assert Follows(w, s, ws[i], delay, atomic);
      forall f | f in ws[i].fills
        ensures Held(ws, steps, i, f.key, f.role, f.at)
      {
        if f in w.fills {
          HeldLater(ws, steps, i - 1, f.key, f.role, f.at);
        } else {
          assert ReadIn(ws, steps, i, f.key, f.role, f.at);
        }
      }
      forall k | k in ws[i].cache
        ensures var e := ws[i].cache[k]; Held(ws, steps, i, k, e.role, e.readAt) && e.setAt <= e.readAt + delay
      {
        if s.Write? && s.fill.key == k {
          HeldLater(ws, steps, i - 1, k, s.fill.role, s.fill.at);
        } else {
          HeldLater(ws, steps, i - 1, k, w.cache[k].role, w.cache[k].readAt);
        }
      }
    }
  }

  // A role served from the cache at time t was the committed role at some moment of the last TTL + delay.
  lemma StalenessBounded(ws: seq<World>, steps: seq<Step>, delay: nat, atomic: bool, i: nat, k: Key, t: nat)
    returns (j: nat)
    requires IsRun(ws, steps, delay, atomic) && i <= |steps| && Live(ws[i], k, t)
    ensures j <= i && t < ws[j].clock + TTL + delay
    ensures k in ws[j].db && ws[j].db[k] == ws[i].cache[k].role
  {
    EveryRoleSourced(ws, steps, delay, atomic, i);
    var e := ws[i].cache[k];
    j :| 0 < j <= i && ReadIn(ws, steps, j, k, e.role, e.readAt);
  }

  // ------------------------------------------------------------------
  // When a cached role is the committed one
  // ------------------------------------------------------------------

  /** The step writes the membership to the database. */
  predicate Writes(s: Step, k: Key) {
    (s.Commit? && Target(s.request) == k) || (s.Create? && Key(s.org, s.user) == k)
  }

  function RoleWritten(s: Step): Option<Role> {
    match s
    case Create(_, _, _) => Some(OWNER)
    case Commit(_, r) => if r.change.Remove? then None else Some(r.change.role)
    case _ => None
  }

  /** What the steps after the j-th world, up to the i-th, last wrote; `before` if they wrote nothing. */
  function LastWritten(steps: seq<Step>, j: nat, i: nat, k: Key, before: Option<Role>): Option<Role>
    requires j <= i <= |steps|
    decreases i
  {
    if i == j then before
    else if Writes(steps[i - 1], k) then RoleWritten(steps[i - 1])
    else LastWritten(steps, j, i - 1, k, before)
  }

  predicate Unwritten(steps: seq<Step>, j: nat, i: nat, k: Key)
    requires j <= i <= |steps|
  {
    forall m {:trigger steps[m]} :: j <= m < i ==> !Writes(steps[m], k)
  }

  function RoleIn(db: Memberships, k: Key): Option<Role> {
    if k in db then Some(db[k]) else None
  }

  lemma {:induction false} DatabaseHoldsLastWrite(ws: seq<World>, steps: seq<Step>, delay: nat, atomic: bool, j: nat, i: nat, k: Key)
    requires IsRun(ws, steps, delay, atomic) && j <= i <= |steps|
    ensures RoleIn(ws[i].db, k) == LastWritten(steps, j, i, k, RoleIn(ws[j].db, k))
    decreases i
  {
    if i > j {
      DatabaseHoldsLastWrite(ws, steps, delay, atomic, j, i - 1, k);
      assert Follows(ws[i - 1], steps[i - 1], ws[i], delay, atomic);
    }
  }

  lemma {:induction false} UnwrittenKeeps(steps: seq<Step>, j: nat, i: nat, k: Key, before: Option<Role>)
    requires j <= i <= |steps| && Unwritten(steps, j, i, k)
    ensures LastWritten(steps, j, i, k, before) == before
    decreases i
  {
    if i > j {
      UnwrittenKeeps(steps, j, i - 1, k, before);
    }
  }

  // A cached role is the committed one exactly when what was last written since the gate read it is
  // that role; in particular when nothing was written to the membership since.
  lemma CachedRoleRightIff(ws: seq<World>, steps: seq<Step>, delay: nat, atomic: bool, i: nat, k: Key) returns (j: nat)
    requires IsRun(ws, steps, delay, atomic) && i <= |steps| && k in ws[i].cache
    ensures var e := ws[i].cache[k];
      && 0 < j <= i && ReadIn(ws, steps, j, k, e.role, e.readAt)
      && (RoleIn(ws[i].db, k) == Some(e.role) <==> LastWritten(steps, j, i, k, Some(e.role)) == Some(e.role))
      && (Unwritten(steps, j, i, k) ==> RoleIn(ws[i].db, k) == Some(e.role))
  {
    EveryRoleSourced(ws, steps, delay, atomic, i);
    var e := ws[i].cache[k];
    j :| 0 < j <= i && ReadIn(ws, steps, j, k, e.role, e.readAt);
    DatabaseHoldsLastWrite(ws, steps, delay, atomic, j, i, k);
    if Unwritten(steps, j, i, k) {
      UnwrittenKeeps(steps, j, i, k, Some(e.role));
    }
  }

  // ------------------------------------------------------------------
  // The founder stays an owner, whatever interleaves
  // ------------------------------------------------------------------

  function Founder(w: World, org: nat): Key
    requires org in w.founders
  {
    Key(org, w.founders[org])
  }

  predicate Founded(w: World) {
    && Governed(w.db, w.founders)
    && (forall r :: r in w.requests ==> r.org in w.founders && (r.stage != Authorized ==> Target(r) != Founder(w, r.org)))
    && (forall f :: f in w.fills ==> f.key.org in w.founders && (f.key == Founder(w, f.key.org) ==> f.role == OWNER))
    && (forall k :: k in w.cache ==> k.org in w.founders && (k == Founder(w, k.org) ==> w.cache[k].role == OWNER))
  }

  lemma CommitFounded(w: World, t: nat, r: Request, delay: nat, atomic: bool)
    requires Founded(w) && Enabled(w, Commit(t, r), delay, atomic)
    ensures Founded(Next(w, Commit(t, r)))
  {
    assert Owns(w.db, Founder(w, r.org));
    assert Target(r) != Founder(w, r.org);
  }

  lemma StepFounded(w: World, s: Step, after: World, delay: nat, atomic: bool)
    requires Founded(w) && Follows(w, s, after, delay, atomic)
    ensures Founded(after) && (forall org :: org in w.founders ==> org in after.founders && after.founders[org] == w.founders[org])
  {
    if s.Commit? {
      CommitFounded(w, s.t, s.request, delay, atomic);
    }
  }

  // Even when a change's role check and its write can be torn apart, every organization keeps
  // its founder as an owner, and the founder's cached role is never wrong.
  lemma {:induction false} EveryOrganizationKeepsAnOwner(ws: seq<World>, steps: seq<Step>, delay: nat, atomic: bool, i: nat)
    requires IsRun(ws, steps, delay, atomic) && i <= |steps|
    ensures Founded(ws[i])
  {
    if i > 0 {
      EveryOrganizationKeepsAnOwner(ws, steps, delay, atomic, i - 1);
      assert Follows(ws[i - 1], steps[i - 1], ws[i], delay, atomic);
      StepFounded(ws[i - 1], steps[i - 1], ws[i], delay, atomic);
    }
  }

  // ------------------------------------------------------------------
  // With an atomic role check, owners are never wrong
  // ------------------------------------------------------------------

  /** Every owner in flight, cached or acting is an owner in the database. */
  predicate OwnersRight(w: World) {
    && (forall f :: f in w.fills && f.role == OWNER ==> Owns(w.db, f.key))
    && (forall k :: k in w.cache && w.cache[k].role == OWNER ==> Owns(w.db, k))
    && (forall r :: r in w.requests ==> Owns(w.db, Actor(r)))
  }

  lemma StepKeepsOwners(w: World, s: Step, after: World, delay: nat)
    requires OwnersRight(w) && Follows(w, s, after, delay, true)
    requires s.Create? ==> Key(s.org, s.user) !in w.db
    ensures OwnersRight(after) && OwnersKept(w.db, after.db)
  {
  }

  /** The change would take ownership from its target. */
  predicate TakesOwnership(r: Request) {
    r.change.Remove? || (r.change.SetRole? && r.change.role != OWNER)
  }

  // Every request past its role check was checked by an earlier step.
  lemma {:induction false} CheckedBefore(ws: seq<World>, steps: seq<Step>, delay: nat, atomic: bool, i: nat, r: Request)
    returns (j: nat)
    requires IsRun(ws, steps, delay, atomic) && i <= |steps| && r in ws[i].requests && r.stage != Authorized
    ensures j < i && steps[j].Check? && steps[j].request == r.(stage := Authorized)
    decreases i
  {
    var w, s := ws[i - 1], steps[i - 1];
    assert Follows(w, s, ws[i], delay, atomic);
    if r in w.requests {
      j := CheckedBefore(ws, steps, delay, atomic, i - 1, r);
    } else if s.Check? {
      j := i - 1;
    } else {
      j := CheckedBefore(ws, steps, delay, atomic, i - 1, s.request);
    }
  }

  /** The j-th step is the role check of the request the i-th commits, and what was last written to
      the target in between made it an owner. */
  predicate PromotedMeanwhile(steps: seq<Step>, j: nat, i: nat)
    requires j < i < |steps|
  {
    && steps[i].Commit? && TakesOwnership(steps[i].request)
    && steps[j].Check? && steps[j].request == steps[i].request.(stage := Authorized)
    && LastWritten(steps, j + 1, i, Target(steps[i].request), None) == Some(OWNER)
  }

  ghost predicate Overtaken(steps: seq<Step>, i: nat)
    requires i < |steps|
  {
    exists j :: 0 <= j < i && PromotedMeanwhile(steps, j, i)
  }

  lemma {:induction false} OnlyWritesMakeOwners(steps: seq<Step>, j: nat, i: nat, k: Key, before: Option<Role>)
    requires j <= i <= |steps| && before != Some(OWNER)
    ensures LastWritten(steps, j, i, k, before) == Some(OWNER) <==> LastWritten(steps, j, i, k, None) == Some(OWNER)
    decreases i
  {
    if i > j {
      OnlyWritesMakeOwners(steps, j, i - 1, k, before);
    }
  }

  /** After the role check of a commit, its target is an owner exactly if it was made one since. */
  lemma OwnerSinceCheck(ws: seq<World>, steps: seq<Step>, delay: nat, atomic: bool, j: nat, i: nat)
    requires IsRun(ws, steps, delay, atomic) && j < i < |steps| && steps[i].Commit?
    requires steps[j].Check? && steps[j].request == steps[i].request.(stage := Authorized)
    ensures var target := Target(steps[i].request);
      Owns(ws[i].db, target) <==> LastWritten(steps, j + 1, i, target, None) == Some(OWNER)
  {
    var target := Target(steps[i].request);
    assert Follows(ws[j], steps[j], ws[j + 1], delay, atomic);
    DatabaseHoldsLastWrite(ws, steps, delay, atomic, j + 1, i, target);
    OnlyWritesMakeOwners(steps, j + 1, i, target, RoleIn(ws[j + 1].db, target));
  }

  lemma OthersKeepOwners(w: World, s: Step, after: World, delay: nat, atomic: bool)
    requires Governed(w.db, w.founders) && Follows(w, s, after, delay, atomic)
    ensures OwnersKept(w.db, after.db) <==> !(s.Commit? && TakesOwnership(s.request) && Owns(w.db, Target(s.request)))
  {
    if s.Commit? && TakesOwnership(s.request) && Owns(w.db, Target(s.request)) {
      assert !Owns(after.db, Target(s.request));
    }
  }

  // With check and write torn apart, a step of a run takes ownership from someone exactly when it commits
  // a demotion or removal that passed its check before the target was, as its last change, made an owner.
  lemma OwnersKeptIff(ws: seq<World>, steps: seq<Step>, delay: nat, i: nat)
    requires IsRun(ws, steps, delay, false) && i < |steps|
    ensures OwnersKept(ws[i].db, ws[i + 1].db) <==> !Overtaken(steps, i)
  {
    var s := steps[i];
    assert Follows(ws[i], s, ws[i + 1], delay, false);
    EveryOrganizationKeepsAnOwner(ws, steps, delay, false, i);
    OthersKeepOwners(ws[i], s, ws[i + 1], delay, false);
    if s.Commit? && TakesOwnership(s.request) {
      var j := CheckedBefore(ws, steps, delay, false, i, s.request);
      OwnerSinceCheck(ws, steps, delay, false, j, i);
      assert Owns(ws[i].db, Target(s.request)) ==> PromotedMeanwhile(steps, j, i);
      forall m | 0 <= m < i && PromotedMeanwhile(steps, m, i)
        ensures Owns(ws[i].db, Target(s.request))
      {
        OwnerSinceCheck(ws, steps, delay, false, m, i);
      }
    }
  }

  // No owner is ever demoted or removed, and neither a cached OWNER nor a change's author is
  // ever out of date, however stale other entries are.
  lemma {:induction false} OwnersNeverStale(ws: seq<World>, steps: seq<Step>, delay: nat, i: nat)
    requires IsRun(ws, steps, delay, true) && i <= |steps|
    ensures OwnersRight(ws[i]) && (forall j :: 0 <= j < i ==> OwnersKept(ws[j].db, ws[i].db))
  {
    if i > 0 {
      OwnersNeverStale(ws, steps, delay, i - 1);
      EveryOrganizationKeepsAnOwner(ws, steps, delay, true, i - 1);
      assert Follows(ws[i - 1], steps[i - 1], ws[i], delay, true);
      StepKeepsOwners(ws[i - 1], steps[i - 1], ws[i], delay);
    }
  }

  // ------------------------------------------------------------------
  // What interleaving does allow
  // ------------------------------------------------------------------

  lemma Extend(ws: seq<World>, steps: seq<Step>, s: Step, delay: nat, atomic: bool) returns (ws': seq<World>, steps': seq<Step>)
    requires IsRun(ws, steps, delay, atomic) && Enabled(ws[|steps|], s, delay, atomic)
    ensures IsRun(ws', steps', delay, atomic) && ws' == ws + [Next(ws[|steps|], s)] && steps' == steps + [s]
  {
    ws', steps' := ws + [Next(ws[|steps|], s)], steps + [s];
  }

  const FOUNDER := Key(0, 0)
  const OTHER := Key(0, 1)

  /** The founder's request about the other user. */
  function Ask(change: Change, stage: Stage): Request {
    Request(0, 0, 1, change, stage)
  }

  lemma TwoMembers(role: Role, delay: nat, atomic: bool) returns (ws: seq<World>, steps: seq<Step>)
    requires role != OWNER
    ensures IsRun(ws, steps, delay, atomic)
    ensures ws[|steps|] == World(0, map[FOUNDER := OWNER, OTHER := role], map[0 := 0], map[], {}, {Ask(Add(role), Authorized)})
  {
    ws, steps := [START], [];
    ws, steps := Extend(ws, steps, Create(0, 0, 0), delay, atomic);
    ws, steps := Extend(ws, steps, Authorize(0, Ask(Add(role), Authorized)), delay, atomic);
    ws, steps := Extend(ws, steps, Commit(0, Ask(Add(role), Authorized)), delay, atomic);
  }

  lemma Prepared(ws0: seq<World>, steps0: seq<Step>, change: Change, delay: nat, atomic: bool)
    returns (ws: seq<World>, steps: seq<Step>)
    requires IsRun(ws0, steps0, delay, atomic) && !change.Add?
    requires var w := ws0[|steps0|];
      w.clock == 0 && w.cache == map[] && Owns(w.db, FOUNDER) && OTHER in w.db && w.db[OTHER] != OWNER
    ensures IsRun(ws, steps, delay, atomic)
    ensures var w, r := ws0[|steps0|], Ask(change, Authorized);
      ws[|steps|] == w.(requests := w.requests + {r, r.(stage := Checked), r.(stage := Evicted)})
  {
    var r := Ask(change, Authorized);
    ws, steps := Extend(ws0, steps0, Authorize(0, r), delay, atomic);
    ws, steps := Extend(ws, steps, Check(0, r), delay, atomic);
    ws, steps := Extend(ws, steps, Evict(0, r.(stage := Checked)), delay, atomic);
    var w := ws0[|steps0|];
    assert w.cache - {OTHER} == map[];
    assert w.requests + {r} + {r.(stage := Checked)} + {r.(stage := Evicted)}
        == w.requests + {r, r.(stage := Checked), r.(stage := Evicted)};
  }

  // A gate that fills the cache between a change's eviction and its commit leaves the former
  // role cached: a demoted administrator still passes the admin gate until the entry expires.
  lemma StaleAdmin(delay: nat) returns (ws: seq<World>, steps: seq<Step>)
    ensures IsRun(ws, steps, delay, true)
    ensures var w := ws[|steps|]; OTHER in w.db && w.db[OTHER] == MEMBER && Live(w, OTHER, 0) && w.cache[OTHER].role == ADMIN
  {
    ws, steps := TwoMembers(ADMIN, delay, true);
    ws, steps := Prepared(ws, steps, SetRole(MEMBER), delay, true);
    ws, steps := Extend(ws, steps, Read(0, OTHER), delay, true);
    ws, steps := Extend(ws, steps, Write(0, Fill(OTHER, ADMIN, 0)), delay, true);
    ws, steps := Extend(ws, steps, Commit(0, Ask(SetRole(MEMBER), Evicted)), delay, true);
  }

  // If the role check can be torn from the write, a promotion committed in between is undone
  // by the change that did not see it: an owner other than the founder is demoted.
  lemma TornCheckDemotesOwner(delay: nat) returns (ws: seq<World>, steps: seq<Step>)
    ensures IsRun(ws, steps, delay, false) && |steps| > 0
    ensures Owns(ws[|steps| - 1].db, OTHER) && !Owns(ws[|steps|].db, OTHER)
  {
    ws, steps := TwoMembers(ADMIN, delay, false);
    ws, steps := Prepared(ws, steps, SetRole(OWNER), delay, false);
    ws, steps := Prepared(ws, steps, SetRole(MEMBER), delay, false);
    ws, steps := Extend(ws, steps, Commit(0, Ask(SetRole(OWNER), Evicted)), delay, false);
    ws, steps := Extend(ws, steps, Commit(0, Ask(SetRole(MEMBER), Evicted)), delay, false);
  }
}
