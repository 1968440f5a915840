/** The document service: upload and delete, each a committed change followed by its ledger update. */
module Documents {
  import opened Prelude
  import U = Usage
  import Storage

  datatype Failure =
    | OrganizationNotFound | PermissionDenied | PlanLimitExceeded | KnowledgeBaseNotFound
    | DocumentAlreadyExists | DocumentNotFound
    | LedgerFailed(cause: U.Failure)

  datatype Document = Document(base: nat, name: string, size: nat)

  type Documents = map<nat, Document>

  function InBase(documents: Documents, base: nat): set<nat> {
    set id | id in documents && documents[id].base == base
  }

  predicate Named(documents: Documents, base: nat, name: string) {
    exists id :: id in documents && documents[id].base == base && documents[id].name == name
  }

  function Sizes(documents: Documents): map<nat, nat> {
    map id | id in documents :: documents[id].size
  }

  /** The current row shows exactly the stored documents. */
  ghost predicate Balanced(rows: seq<U.Row>, documents: Documents, now: int) {
    U.Current(rows, now).Single? && U.Current(rows, now).row.storage == Storage.Total(Sizes(documents))
  }

  /** The same row, if any, is current at both times. */
  predicate SamePeriod(rows: seq<U.Row>, now: int, later: int) {
    U.Current(rows, now) == U.Current(rows, later)
  }

  /** An exact ledger, and one period for all of an upload's clock readings. */
  ghost predicate Steady(rows: seq<U.Row>, documents: Documents, now: int, then': int, later: int) {
    Balanced(rows, documents, now) && SamePeriod(rows, now, then') && SamePeriod(rows, now, later)
  }

  /** What refuses an upload before anything is stored; `access` is the owner gate's answer. */
  function UploadRefusal(access: Option<Failure>, bases: set<nat>, documents: Documents,
                         base: nat, name: string, maxDocuments: nat): Option<Failure>
  {
    if access.Some? then access
    else if |InBase(documents, base)| >= maxDocuments then Some(PlanLimitExceeded)
    else if base !in bases then Some(KnowledgeBaseNotFound)
    else if Named(documents, base, name) then Some(DocumentAlreadyExists)
    else None
  }

  function DeleteRefusal(access: Option<Failure>, bases: set<nat>, documents: Documents, base: nat, id: nat): Option<Failure> {
    if access.Some? then access
    else if base !in bases then Some(KnowledgeBaseNotFound)
    else if id !in documents || documents[id].base != base then Some(DocumentNotFound)
    else None
  }

  // What refuses an upload: the gate, then as many documents in the base as the plan allows, then a missing
  // base, then a document of that name in it.
  lemma UploadRefusedIff(access: Option<Failure>, bases: set<nat>, documents: Documents, base: nat, name: string, maxDocuments: nat)
    ensures var r, inBase := UploadRefusal(access, bases, documents, base, name, maxDocuments),
                             set id | id in documents && documents[id].base == base;
      && (access.Some? ==> r == access)
      && (access.None? ==>
            && (r == Some(PlanLimitExceeded) <==> |inBase| >= maxDocuments)
            && (r == Some(KnowledgeBaseNotFound) <==> |inBase| < maxDocuments && base !in bases)
            && (r == Some(DocumentAlreadyExists) <==>
                  |inBase| < maxDocuments && base in bases && exists id :: id in inBase && documents[id].name == name)
            && (r == None <==> |inBase| < maxDocuments && base in bases && forall id :: id in inBase ==> documents[id].name != name))
  {
    assert InBase(documents, base) == set id | id in documents && documents[id].base == base;
  }

  // And a delete: the gate, then a missing base, then a document that is not in it.
  lemma DeleteRefusedIff(access: Option<Failure>, bases: set<nat>, documents: Documents, base: nat, id: nat)
    ensures var r := DeleteRefusal(access, bases, documents, base, id);
      && (access.Some? ==> r == access)
      && (access.None? ==>
            && (r == Some(KnowledgeBaseNotFound) <==> base !in bases)
            && (r == Some(DocumentNotFound) <==> base in bases && !(id in documents && documents[id].base == base))
            && (r == None <==> base in bases && id in documents && documents[id].base == base))
  {
  }

  function Told(cause: U.Failure): Failure {
    if cause.PlanLimitExceeded? then PlanLimitExceeded else LedgerFailed(cause)
  }

  lemma UploadBalances(rows: seq<U.Row>, documents: Documents, now: int, later: int, id: nat, d: Document)
    requires Balanced(rows, documents, now) && SamePeriod(rows, now, later) && id !in documents
    ensures Balanced(U.Posted(rows, later, U.Added(d.size)), documents[id := d], later)
  {
    U.PostedShows(rows, later, U.Added(d.size), later);
    U.CurrentIs(rows, later);
    Storage.TotalPlus(Sizes(documents), id, d.size);
    assert Sizes(documents[id := d]) == Sizes(documents)[id := d.size];
  }

  lemma DeleteBalances(rows: seq<U.Row>, documents: Documents, now: int, id: nat)
    requires Balanced(rows, documents, now) && id in documents
    ensures Balanced(U.Posted(rows, now, U.Removed(documents[id].size)), documents - {id}, now)
  {
    U.PostedShows(rows, now, U.Removed(documents[id].size), now);
    U.CurrentIs(rows, now);
    Storage.TotalWithout(Sizes(documents), id);
    assert Sizes(documents - {id}) == Sizes(documents) - {id};
  }

  class Library {
    const ledger: U.Ledger
    var bases: set<nat>
    var documents: Documents

    constructor (ledger: U.Ledger)
      ensures this.ledger == ledger && bases == {} && documents == map[]
    {
      this.ledger := ledger;
      bases, documents := {}, map[];
    }

    /** `id` is the fresh identifier of the new document; the clock is read at the check, and twice to record. */
    method Upload(access: Option<Failure>, base: nat, name: string, size: nat, id: nat,
                  maxDocuments: nat, maxBytes: nat, now: int, then': int, later: int)
      returns (refusal: Option<Failure>)
      requires id !in documents
      modifies `documents, ledger
      ensures var blocked := UploadRefusal(access, bases, old(documents), base, name, maxDocuments);
        blocked.Some? ==> refusal == blocked && documents == old(documents) && ledger.rows == old(ledger.rows)
      ensures UploadRefusal(access, bases, old(documents), base, name, maxDocuments).None? ==>
        var rows, subscription := old(ledger.rows), old(ledger.subscription);
        var found, opened' := U.Fetched(rows, subscription, now), U.RowsFetched(rows, subscription, now);
        if found.Ok? && found.value.storage + size <= maxBytes then
          && documents == old(documents)[id := Document(base, name, size)]
          && ledger.rows == U.Recorded(opened', U.SubscriptionFetched(rows, subscription, now), then', later, U.Added(size))
          && var again := U.Fetched(opened', U.SubscriptionFetched(rows, subscription, now), then');
             refusal == if again.Err? then Some(LedgerFailed(again.error)) else None
        else
          && documents == old(documents) && ledger.rows == opened'
          && refusal == Some(if found.Err? then LedgerFailed(found.error) else PlanLimitExceeded)
      ensures old(Steady(ledger.rows, documents, now, then', later)) ==>
        Balanced(ledger.rows, documents, later) && (refusal.None? ==> Storage.Total(Sizes(documents)) <= maxBytes)
    {
      if access.Some? {
        return access;
      }
      if |InBase(documents, base)| >= maxDocuments {
        return Some(PlanLimitExceeded);
      }
      if base !in bases {
        return Some(KnowledgeBaseNotFound);
      }
      if Named(documents, base, name) {
        return Some(DocumentAlreadyExists);
      }
      var full := ledger.CheckStorageQuota(now, size, maxBytes);
      if full.Some? {
        return Some(Told(full.value));
      }
      documents := documents[id := Document(base, name, size)];
      ghost var booked := ledger.rows;
      var failed := ledger.Record(U.Added(size), then', later);
      if old(Steady(ledger.rows, documents, now, then', later)) {
        UploadBalances(booked, old(documents), now, later, id, Document(base, name, size));
        assert Sizes(documents) == Sizes(old(documents))[id := size];
        Storage.TotalPlus(Sizes(old(documents)), id, size);
      }
      if failed.Some? {
        return Some(LedgerFailed(failed.value));
      }
      return None;
    }

    method Delete(access: Option<Failure>, base: nat, id: nat, now: int) returns (refusal: Option<Failure>)
      modifies `documents, ledger
      ensures refusal == DeleteRefusal(access, bases, old(documents), base, id)
      ensures documents == if refusal.None? then old(documents) - {id} else old(documents)
      ensures ledger.rows == if refusal.None? then U.Posted(old(ledger.rows), now, U.Removed(old(documents)[id].size)) else old(ledger.rows)
      ensures old(Balanced(ledger.rows, documents, now)) ==> Balanced(ledger.rows, documents, now)
    {
      if access.Some? {
        return access;
      }
      if base !in bases {
        return Some(KnowledgeBaseNotFound);
      }
      if id !in documents || documents[id].base != base {
        return Some(DocumentNotFound);
      }
      var size := documents[id].size;
      if old(Balanced(ledger.rows, documents, now)) {
        DeleteBalances(ledger.rows, documents, now, id);
      }
      documents := documents - {id};
      ledger.RecordStorageRemoved(size, now);
      return None;
    }
  }
}
