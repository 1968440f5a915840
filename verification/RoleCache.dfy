/** The membership service: role gates that read a cache in front of the database, and the changes that evict it. */
module RoleCache {
  import opened Prelude

  const TTL: nat := 3600

  datatype Failure =
    | OrganizationNotFound | PermissionDenied | PlanLimitExceeded | UserNotFound
    | AlreadyMember | MemberNotFound | OrganizationAlreadyExists

  /** A membership's primary key, and the name its cached role goes by. */
  datatype Key = Key(org: nat, user: nat)

  type Memberships = map<Key, Role>

  datatype Gate = OwnerGate | AdminGate | MemberGate

  predicate Admits(gate: Gate, role: Role) {
    match gate
    case OwnerGate => role == OWNER
    case AdminGate => role == OWNER || role == ADMIN
    case MemberGate => true
  }

  /** What a gate answers when it asks the database alone. */
  function Uncached(db: Memberships, gate: Gate, k: Key): Result<Role, Failure> {
    if k !in db then Err(OrganizationNotFound)
    else if Admits(gate, db[k]) then Ok(db[k])
    else Err(PermissionDenied)
  }

  /** What stands in the way of changing or removing a member, after the owner gate. */
  function TargetRefusal(db: Memberships, actor: Key, target: Key): Option<Failure> {
    if target !in db then Some(MemberNotFound)
    else if db[target] == OWNER || target == actor then Some(PermissionDenied)
    else None
  }

  function Members(db: Memberships, org: nat): set<Key> {
    set k | k in db && k.org == org
  }

  predicate Owns(db: Memberships, k: Key) {
    k in db && db[k] == OWNER
  }

  /** Every organization with members has an owner: at least its founder. */
  predicate Governed(db: Memberships, founders: map<nat, nat>) {
    && (forall k :: k in db ==> k.org in founders)
    && (forall org :: org in founders ==> Owns(db, Key(org, founders[org])))
  }

  /** Nobody who owned an organization has ceased to. */
  ghost predicate OwnersKept(before: Memberships, after: Memberships) {
    forall k :: Owns(before, k) ==> Owns(after, k)
  }

  /** A cached role, until it expires. */
  datatype Cached = Cached(role: Role, expiry: int)

  function Lookup(cache: map<Key, Cached>, k: Key, now: int): Option<Role> {
    if k in cache && now < cache[k].expiry then Some(cache[k].role) else None
  }

  /** A gate fills the cache when it misses and the database lets the caller through. */
  function Filled(cache: map<Key, Cached>, db: Memberships, gate: Gate, k: Key, now: int): map<Key, Cached> {
    if Lookup(cache, k, now).None? && Uncached(db, gate, k).Ok? then cache[k := Cached(db[k], now + TTL)] else cache
  }

  class Organizations {
    var db: Memberships
    var cache: map<Key, Cached>
    var slugs: set<string>
    ghost var founders: map<nat, nat>

    /** One request at a time, whatever is cached is right, expired or not. */
    ghost predicate Valid()
      reads this
    {
      && (forall k :: k in cache ==> k in db && db[k] == cache[k].role)
      && Governed(db, founders)
    }

    constructor ()
      ensures Valid() && db == map[] && cache == map[] && slugs == {}
    {
      db, cache, slugs, founders := map[], map[], {}, map[];
    }

    method RequireOwner(k: Key, now: int) returns (r: Result<Role, Failure>)
      requires Valid()
      modifies `cache
      ensures Valid() && r == Uncached(db, OwnerGate, k)
      ensures cache == Filled(old(cache), db, OwnerGate, k, now)
      ensures r == if k !in db then Err(OrganizationNotFound) else if db[k] == OWNER then Ok(db[k]) else Err(PermissionDenied)
      ensures cache == if r.Ok? && (k !in old(cache) || now >= old(cache)[k].expiry) then old(cache)[k := Cached(db[k], now + 3600)] else old(cache)
    {
      if k in cache && now < cache[k].expiry {
        if cache[k].role != OWNER {
          return Err(PermissionDenied);
        }
        return Ok(cache[k].role);
      }
      if k !in db {
        return Err(OrganizationNotFound);
      }
      if db[k] != OWNER {
        return Err(PermissionDenied);
      }
      cache := cache[k := Cached(db[k], now + TTL)];
      return Ok(db[k]);
    }

    method RequireAdmin(k: Key, now: int) returns (r: Result<Role, Failure>)
      requires Valid()
      modifies `cache
      ensures Valid() && r == Uncached(db, AdminGate, k)
      ensures cache == Filled(old(cache), db, AdminGate, k, now)
      ensures r == if k !in db then Err(OrganizationNotFound) else if db[k] == OWNER || db[k] == ADMIN then Ok(db[k]) else Err(PermissionDenied)
      ensures cache == if r.Ok? && (k !in old(cache) || now >= old(cache)[k].expiry) then old(cache)[k := Cached(db[k], now + 3600)] else old(cache)
    {
      if k in cache && now < cache[k].expiry {
        if cache[k].role != OWNER && cache[k].role != ADMIN {
          return Err(PermissionDenied);
        }
        return Ok(cache[k].role);
      }
      if k !in db {
        return Err(OrganizationNotFound);
      }
      if db[k] != OWNER && db[k] != ADMIN {
        return Err(PermissionDenied);
      }
      cache := cache[k := Cached(db[k], now + TTL)];
      return Ok(db[k]);
    }

    method RequireMember(k: Key, now: int) returns (r: Result<Role, Failure>)
      requires Valid()
      modifies `cache
      ensures Valid() && r == Uncached(db, MemberGate, k)
      ensures cache == Filled(old(cache), db, MemberGate, k, now)
      ensures r == if k !in db then Err(OrganizationNotFound) else Ok(db[k])
      ensures cache == if r.Ok? && (k !in old(cache) || now >= old(cache)[k].expiry) then old(cache)[k := Cached(db[k], now + 3600)] else old(cache)
    {
      if k in cache && now < cache[k].expiry {
        return Ok(cache[k].role);
      }
      if k !in db {
        return Err(OrganizationNotFound);
      }
      cache := cache[k := Cached(db[k], now + TTL)];
      return Ok(db[k]);
    }

    /** `org` is the fresh identifier the database gives the organization. */
    method Create(user: nat, slug: string, org: nat) returns (refusal: Option<Failure>)
      requires Valid() && org !in founders
      modifies `db, `slugs, `founders
      ensures Valid() && OwnersKept(old(db), db)
      ensures refusal == if slug in old(slugs) then Some(OrganizationAlreadyExists) else None
      ensures slugs == old(slugs) + {slug}
      ensures db == if refusal.None? then old(db)[Key(org, user) := OWNER] else old(db)
      ensures founders == if refusal.None? then old(founders)[org := user] else old(founders)
    {
      if slug in slugs {
        assert slugs == slugs + {slug};
        return Some(OrganizationAlreadyExists);
      }
      slugs := slugs + {slug};
      db := db[Key(org, user) := OWNER];
      founders := founders[org := user];
      return None;
    }

    /** `invited` is the registered user behind the e-mail address, if there is one. */
    method InviteMember(actor: Key, invited: Option<nat>, role: Role, maxMembers: nat, now: int)
      returns (refusal: Option<Failure>)
      requires Valid()
      modifies `db, `cache
      ensures Valid() && OwnersKept(old(db), db)
      ensures refusal ==
        if actor !in old(db) then Some(OrganizationNotFound)
        else if old(db)[actor] != OWNER then Some(PermissionDenied)
        else if |set k | k in old(db) && k.org == actor.org| >= maxMembers then Some(PlanLimitExceeded)
        else if invited.None? then Some(UserNotFound)
        else if Key(actor.org, invited.value) in old(db) then Some(AlreadyMember)
        else None
      ensures db == if refusal.None? then old(db)[Key(actor.org, invited.value) := role] else old(db)
      ensures cache == Filled(old(cache), old(db), OwnerGate, actor, now)
    {
      var gate := RequireOwner(actor, now);
      if gate.Err? {
        return Some(gate.error);
      }
      if |Members(db, actor.org)| >= maxMembers {
        return Some(PlanLimitExceeded);
      }
      if invited.None? {
        return Some(UserNotFound);
      }
      var k := Key(actor.org, invited.value);
      if k in db {
        return Some(AlreadyMember);
      }
      db := db[k := role];
      return None;
    }

    method UpdateMemberRole(actor: Key, user: nat, role: Role, now: int) returns (refusal: Option<Failure>)
      requires Valid()
      modifies `db, `cache
      ensures Valid() && OwnersKept(old(db), db)
      ensures refusal ==
        if actor !in old(db) then Some(OrganizationNotFound)
        else if old(db)[actor] != OWNER then Some(PermissionDenied)
        else if Key(actor.org, user) !in old(db) then Some(MemberNotFound)
        else if old(db)[Key(actor.org, user)] == OWNER || user == actor.user then Some(PermissionDenied)
        else None
      ensures actor in old(db) && old(db)[actor] == OWNER ==> refusal == TargetRefusal(old(db), actor, Key(actor.org, user))
      ensures db == if refusal.None? then old(db)[Key(actor.org, user) := role] else old(db)
      ensures var c := Filled(old(cache), old(db), OwnerGate, actor, now);
        cache == if refusal.None? then c - {Key(actor.org, user)} else c
    {
      var target := Key(actor.org, user);
      var gate := RequireOwner(actor, now);
      if gate.Err? {
        return Some(gate.error);
      }
      if target !in db {
        return Some(MemberNotFound);
      }
      if db[target] == OWNER {
        return Some(PermissionDenied);
      }
      if target == actor {
        return Some(PermissionDenied);
      }
      cache := cache - {target};
      db := db[target := role];
      return None;
    }

    method RemoveMember(actor: Key, user: nat, now: int) returns (refusal: Option<Failure>)
      requires Valid()
      modifies `db, `cache
      ensures Valid() && OwnersKept(old(db), db)
      ensures refusal ==
        if actor !in old(db) then Some(OrganizationNotFound)
        else if old(db)[actor] != OWNER then Some(PermissionDenied)
        else if Key(actor.org, user) !in old(db) then Some(MemberNotFound)
        else if old(db)[Key(actor.org, user)] == OWNER || user == actor.user then Some(PermissionDenied)
        else None
      ensures actor in old(db) && old(db)[actor] == OWNER ==> refusal == TargetRefusal(old(db), actor, Key(actor.org, user))
      ensures db == if refusal.None? then old(db) - {Key(actor.org, user)} else old(db)
      ensures var c := Filled(old(cache), old(db), OwnerGate, actor, now);
        cache == if refusal.None? then c - {Key(actor.org, user)} else c
    {
      var target := Key(actor.org, user);
      var gate := RequireOwner(actor, now);
      if gate.Err? {
        return Some(gate.error);
      }
      if target !in db {
        return Some(MemberNotFound);
      }
      if db[target] == OWNER {
        return Some(PermissionDenied);
      }
      if target == actor {
        return Some(PermissionDenied);
      }
      cache := cache - {target};
      db := db - {target};
      return None;
    }
  }

}
