/** Stored bytes under interleaved uploads and deletes: a document commits first, the ledger follows later. */
module Storage {
  import opened Usage

  /** A document that was ever uploaded: `added` once its upload has reached the ledger, `stored` while its
      row exists. `readers` delete requests have fetched it and not yet committed, `owed` have committed and
      still have its removal to record; `taken` bytes were recorded as removed, `told` at least once, and
      `early` if that began before the addition. */
  datatype Doc = Doc(size: nat, added: bool, stored: bool, readers: nat, owed: nat, taken: nat, told: bool, early: bool)

  type Docs = map<nat, Doc>

  datatype World = World(clock: int, rows: seq<Row>, docs: Docs)

  /** Nothing locks a document: several requests may fetch it, and each that commits its deletion, even
      of a row already gone, goes on to record the removal. Drop is the deletion of its knowledge base. */
  datatype Step =
    | Open(t: int, period: Period)
    | Upload(t: int, id: nat, size: nat)
    | Add(t: int, id: nat)
    | Fetch(t: int, id: nat)
    | Delete(t: int, id: nat)
    | Remove(t: int, id: nat)
    | Drop(t: int, id: nat)

  predicate Enabled(w: World, s: Step) {
    s.t >= w.clock &&
    match s
    case Open(_, p) => Apart(w.rows + [Fresh(p)])
    case Upload(_, id, _) => id !in w.docs
    case Add(_, id) => id in w.docs && !w.docs[id].added
    case Fetch(_, id) => id in w.docs && w.docs[id].stored
    case Delete(_, id) => id in w.docs && w.docs[id].readers > 0
    case Remove(_, id) => id in w.docs && w.docs[id].owed > 0
    case Drop(_, id) => id in w.docs && w.docs[id].stored
  }

  function Uploaded(size: nat): Doc {
    Doc(size, false, true, 0, 0, 0, false, false)
  }

  function Changed(d: Doc, s: Step): Doc
    requires (s.Delete? ==> d.readers > 0) && (s.Remove? ==> d.owed > 0)
  {
    match s
    case Add(_, _) => d.(added := true)
    case Fetch(_, _) => d.(readers := d.readers + 1)
    case Delete(_, _) => d.(readers := d.readers - 1, owed := d.owed + 1, stored := false)
    case Remove(_, _) => d.(owed := d.owed - 1, taken := d.taken + d.size, told := true, early := d.early || !d.added)
    case Drop(_, _) => d.(stored := false)
    case _ => d
  }

  function Next(w: World, s: Step): World
    requires Enabled(w, s)
  {
    match s
    case Open(t, p) => w.(clock := t, rows := w.rows + [Fresh(p)])
    case Upload(t, id, size) => w.(clock := t, docs := w.docs[id := Uploaded(size)])
    case Add(t, id) => World(t, Posted(w.rows, t, Added(w.docs[id].size)), w.docs[id := Changed(w.docs[id], s)])
    case Remove(t, id) => World(t, Posted(w.rows, t, Removed(w.docs[id].size)), w.docs[id := Changed(w.docs[id], s)])
    case _ => w.(clock := s.t, docs := w.docs[s.id := Changed(w.docs[s.id], s)])
  }

  predicate Follows(w: World, s: Step, after: World) {
    Enabled(w, s) && after == Next(w, s)
  }

  predicate IsRun(ws: seq<World>, steps: seq<Step>) {
    && |ws| == |steps| + 1 && ws[0].rows == [] && ws[0].docs == map[]
    && forall i {:trigger steps[i]} :: 0 <= i < |steps| ==> Follows(ws[i], steps[i], ws[i + 1])
  }

  // ------------------------------------------------------------------
  // Totals
  // ------------------------------------------------------------------

  ghost function Total(sizes: map<nat, nat>): nat {
    if sizes == map[] then 0
    else
      var k :| k in sizes;
      sizes[k] + Total(sizes - {k})
  }

  lemma {:induction false} TotalWithout(sizes: map<nat, nat>, k: nat)
    requires k in sizes
    ensures Total(sizes) == sizes[k] + Total(sizes - {k})
    decreases |sizes|
  {
    var j :| j in sizes && Total(sizes) == sizes[j] + Total(sizes - {j});
    if j != k {
      TotalWithout(sizes - {j}, k);
      TotalWithout(sizes - {k}, j);
      assert sizes - {j} - {k} == sizes - {k} - {j};
    }
  }

  lemma TotalPlus(sizes: map<nat, nat>, k: nat, size: nat)
    requires k !in sizes
    ensures Total(sizes[k := size]) == Total(sizes) + size
  {
    TotalWithout(sizes[k := size], k);
    assert sizes[k := size] - {k} == sizes;
  }

  /** Amounts of bytes, one for each document. */
  function Amounts(docs: Docs, part: Doc -> nat): map<nat, nat> {
    map id | id in docs :: part(docs[id])
  }

  ghost function Bytes(docs: Docs, part: Doc -> nat): nat {
    Total(Amounts(docs, part))
  }

  function LiveBytes(d: Doc): nat { if d.stored then d.size else 0 }

  function AddedBytes(d: Doc): nat { if d.added then d.size else 0 }

  function TakenBytes(d: Doc): nat { d.taken }

  /** Removed again, by a second request that had fetched the same document. */
  function RepeatedBytes(d: Doc): nat { if d.taken > d.size then d.taken - d.size else 0 }

  /** Gone from the store without any removal on its way or recorded. */
  function UnrefundedBytes(d: Doc): nat { if d.added && !d.stored && d.owed == 0 && !d.told then d.size else 0 }

  /** Added, never removed, and stored or about to be removed. */
  function BookedBytes(d: Doc): nat { if d.added && !d.told && (d.stored || d.owed > 0) then d.size else 0 }

  /** Added for good: its only removal came too early, or none is on its way. */
  function StrayBytes(d: Doc): nat {
    if d.added && (if d.told then d.early else !d.stored && d.owed == 0) then d.size else 0
  }

  function NoBytes(d: Doc): nat { 0 }

  lemma BytesWithout(docs: Docs, id: nat, part: Doc -> nat)
    requires id in docs
    ensures Bytes(docs, part) == part(docs[id]) + Bytes(docs - {id}, part)
  {
    TotalWithout(Amounts(docs, part), id);
    assert Amounts(docs, part) - {id} == Amounts(docs - {id}, part);
  }

  /** How one changed document moves the bytes of a part. */
  lemma BytesAfter(docs: Docs, id: nat, d: Doc, part: Doc -> nat)
    requires id in docs
    ensures Bytes(docs[id := d], part) + part(docs[id]) == Bytes(docs, part) + part(d)
  {
    BytesWithout(docs, id, part);
    BytesWithout(docs[id := d], id, part);
    assert docs[id := d] - {id} == docs - {id};
  }

  lemma BytesUploaded(docs: Docs, id: nat, d: Doc, part: Doc -> nat)
    requires id !in docs && part(d) == 0
    ensures Bytes(docs[id := d], part) == Bytes(docs, part)
  {
    BytesWithout(docs[id := d], id, part);
    assert docs[id := d] - {id} == docs;
  }

  function Part(docs: Docs, id: nat, part: Doc -> nat): nat {
    if id in docs then part(docs[id]) else 0
  }

  /** How a step moves the bytes of a part that no fresh document has. */
  lemma BytesStep(w: World, s: Step, part: Doc -> nat)
    requires Enabled(w, s) && (s.Upload? ==> part(Uploaded(s.size)) == 0)
    ensures s.Open? || s.Upload? ==> Bytes(Next(w, s).docs, part) == Bytes(w.docs, part)
    ensures !s.Open? && !s.Upload? ==>
      Bytes(Next(w, s).docs, part) + part(w.docs[s.id]) == Bytes(w.docs, part) + part(Changed(w.docs[s.id], s))
  {
    if s.Upload? {
      BytesUploaded(w.docs, s.id, Uploaded(s.size), part);
    } else if !s.Open? {
      BytesAfter(w.docs, s.id, Changed(w.docs[s.id], s), part);
    }
  }

  // What balances for each document balances in total.
  lemma {:induction false} BytesBalance(docs: Docs, a: Doc -> nat, b: Doc -> nat, c: Doc -> nat, d: Doc -> nat, e: Doc -> nat)
    requires forall id :: id in docs ==> a(docs[id]) + b(docs[id]) == c(docs[id]) + d(docs[id]) + e(docs[id])
    ensures Bytes(docs, a) + Bytes(docs, b) == Bytes(docs, c) + Bytes(docs, d) + Bytes(docs, e)
    decreases |docs|
  {
    if id :| id in docs {
      BytesWithout(docs, id, a);
      BytesWithout(docs, id, b);
      BytesWithout(docs, id, c);
      BytesWithout(docs, id, d);
      BytesWithout(docs, id, e);
      BytesBalance(docs - {id}, a, b, c, d, e);
    } else {
      assert docs == map[];
      NoDocuments(a);
      NoDocuments(b);
      NoDocuments(c);
      NoDocuments(d);
      NoDocuments(e);
    }
  }

  lemma NoDocuments(part: Doc -> nat)
    ensures Bytes(map[], part) == 0
  {
    assert Amounts(map[], part) == map[];
  }

  lemma {:induction false} BytesOfNothing(docs: Docs, part: Doc -> nat)
    requires forall id :: id in docs ==> part(docs[id]) == 0
    ensures Bytes(docs, part) == 0
    decreases |docs|
  {
    if id :| id in docs {
      BytesWithout(docs, id, part);
      BytesOfNothing(docs - {id}, part);
    } else {
      assert docs == map[];
      NoDocuments(part);
    }
  }

  predicate Settled(docs: Docs) {
    forall id :: id in docs ==> docs[id].added && docs[id].owed == 0
  }

  /** What the steps keep of each document. */
  predicate WellTold(d: Doc) {
    && (d.told ==> !d.stored && d.taken >= d.size && (d.early || d.added))
    && (!d.told ==> d.taken == 0 && !d.early)
    && (d.owed > 0 ==> !d.stored)
  }

  lemma {:induction false} EveryDocumentWellTold(ws: seq<World>, steps: seq<Step>, n: nat)
    requires IsRun(ws, steps) && n <= |steps|
    ensures forall id :: id in ws[n].docs ==> WellTold(ws[n].docs[id])
  {
    if n > 0 {
      EveryDocumentWellTold(ws, steps, n - 1);
      assert Follows(ws[n - 1], steps[n - 1], ws[n]);
    }
  }

  // Once nothing is on its way to the ledger, all that was added and removed again more than once is
  // live, unrefunded or taken.
  lemma SettledBalance(docs: Docs)
    requires Settled(docs) && forall id :: id in docs ==> WellTold(docs[id])
    ensures Bytes(docs, AddedBytes) + Bytes(docs, RepeatedBytes)
         == Bytes(docs, LiveBytes) + Bytes(docs, UnrefundedBytes) + Bytes(docs, TakenBytes)
  {
    BytesBalance(docs, AddedBytes, RepeatedBytes, LiveBytes, UnrefundedBytes, TakenBytes);
  }

  // ------------------------------------------------------------------
  // The exact account of every row, in every run
  // ------------------------------------------------------------------

  /** The row's update sees the step: the step writes the ledger while the row's period is on. */
  predicate Hits(w: World, s: Step, row: nat) {
    (s.Add? || s.Remove?) && row < |w.rows| && Covers(w.rows[row], s.t)
  }

  /** What GREATEST(0, ..) adds to the row: the part of a removal that exceeds what is recorded. */
  function Cut(w: World, s: Step, row: nat): nat
    requires Enabled(w, s)
  {
    if s.Remove? && Hits(w, s, row) && w.docs[s.id].size > w.rows[row].storage
    then w.docs[s.id].size - w.rows[row].storage else 0
  }

  /** All the row's clamped bytes in the first n steps. */
  function Clamped(ws: seq<World>, steps: seq<Step>, row: nat, n: nat): nat
    requires IsRun(ws, steps) && n <= |steps|
  {
    if n == 0 then 0 else Clamped(ws, steps, row, n - 1) + Cut(ws[n - 1], steps[n - 1], row)
  }

  /** The net bytes of the ledger's updates, among the first n steps, that reached other rows or none. */
  function Elsewhere(ws: seq<World>, steps: seq<Step>, row: nat, n: nat): int
    requires IsRun(ws, steps) && n <= |steps|
  {
    if n == 0 then 0
    else
      var w, s := ws[n - 1], steps[n - 1];
      Elsewhere(ws, steps, row, n - 1) +
        if Hits(w, s, row) then 0
        else if s.Add? then w.docs[s.id].size
        else if s.Remove? then 0 - w.docs[s.id].size
        else 0
  }

  function StorageOf(w: World, row: nat): nat {
    if row < |w.rows| then w.rows[row].storage else 0
  }

  lemma StorageStep(w: World, s: Step, row: nat)
    requires Enabled(w, s)
    ensures StorageOf(Next(w, s), row) - StorageOf(w, row) ==
      if !Hits(w, s, row) then 0
      else if s.Add? then w.docs[s.id].size
      else Cut(w, s, row) - w.docs[s.id].size
  {
  }

  // Every row, in every run and across resets: what was added, less what was recorded as removed and
  // what other rows took, plus what was clamped away.
  lemma {:induction false} RowAccount(ws: seq<World>, steps: seq<Step>, row: nat, n: nat)
    requires IsRun(ws, steps) && n <= |steps|
    ensures StorageOf(ws[n], row) == Bytes(ws[n].docs, AddedBytes) - Bytes(ws[n].docs, TakenBytes)
      + Clamped(ws, steps, row, n) - Elsewhere(ws, steps, row, n)
  {
    if n == 0 {
      NoDocuments(AddedBytes);
      NoDocuments(TakenBytes);
    } else {
      RowAccount(ws, steps, row, n - 1);
      assert Follows(ws[n - 1], steps[n - 1], ws[n]);
      StorageStep(ws[n - 1], steps[n - 1], row);
      BytesStep(ws[n - 1], steps[n - 1], AddedBytes);
      BytesStep(ws[n - 1], steps[n - 1], TakenBytes);
    }
  }

  // Hence the exact condition: a settled row exceeds the live documents exactly when what was clamped
  // or never refunded exceeds what was removed twice and what other periods took.
  lemma StorageWithinDocumentsIff(ws: seq<World>, steps: seq<Step>, row: nat, n: nat)
    requires IsRun(ws, steps) && n <= |steps| && Settled(ws[n].docs)
    ensures var docs := ws[n].docs;
      var over := Clamped(ws, steps, row, n) + Bytes(docs, UnrefundedBytes);
      var under := Bytes(docs, RepeatedBytes) + Elsewhere(ws, steps, row, n);
      && StorageOf(ws[n], row) == Bytes(docs, LiveBytes) + over - under
      && (StorageOf(ws[n], row) <= Bytes(docs, LiveBytes) <==> over <= under)
  {
    RowAccount(ws, steps, row, n);
    EveryDocumentWellTold(ws, steps, n);
    SettledBalance(ws[n].docs);
  }

  // ------------------------------------------------------------------
  // Before the first reset
  // ------------------------------------------------------------------

  /** Everything happens within the one period that opens first. */
  predicate OnePeriod(steps: seq<Step>, p: Period) {
    && |steps| > 0 && steps[0].Open? && steps[0].period == p
    && (forall i :: 0 < i < |steps| ==> !steps[i].Open?)
    && (forall i :: 0 <= i < |steps| ==> Within(p, steps[i].t))
  }

  lemma {:induction false} OneRow(ws: seq<World>, steps: seq<Step>, p: Period, n: nat)
    requires IsRun(ws, steps) && OnePeriod(steps, p) && 0 < n <= |steps|
    ensures |ws[n].rows| == 1 && ws[n].rows[0].period == p && Elsewhere(ws, steps, 0, n) == 0
  {
    assert Follows(ws[n - 1], steps[n - 1], ws[n]);
    if n == 1 {
      assert Elsewhere(ws, steps, 0, 0) == 0;
    } else {
      OneRow(ws, steps, p, n - 1);
    }
  }

  /** The guard of the clamp: each of the first n steps that removes bytes finds them recorded. */
  predicate Unclamped(ws: seq<World>, steps: seq<Step>, n: nat)
    requires IsRun(ws, steps) && n <= |steps|
  {
    forall i {:trigger steps[i]} :: 0 <= i < n && steps[i].Remove? && steps[i].id in ws[i].docs ==>
      ws[i].docs[steps[i].id].size <= StorageOf(ws[i], 0)
  }

  lemma {:induction false} ClampedNothingIff(ws: seq<World>, steps: seq<Step>, p: Period, n: nat)
    requires IsRun(ws, steps) && OnePeriod(steps, p) && n <= |steps|
    ensures Clamped(ws, steps, 0, n) == 0 <==> Unclamped(ws, steps, n)
  {
    if n > 0 {
      ClampedNothingIff(ws, steps, p, n - 1);
      assert Follows(ws[n - 1], steps[n - 1], ws[n]);
      if n > 1 {
        OneRow(ws, steps, p, n - 1);
        assert Covers(ws[n - 1].rows[0], steps[n - 1].t);
      }
    }
  }

  // Whatever overtakes what, until the first reset the settled row is the live documents, plus what was
  // never refunded or clamped, less what was removed twice; so it stays within them, or equals them,
  // exactly when the one does not exceed, or equals, the other. If nothing was removed twice, that is
  // when every removal found its bytes and nothing went unrefunded.
  lemma StorageExactIff(ws: seq<World>, steps: seq<Step>, p: Period, n: nat)
    requires IsRun(ws, steps) && OnePeriod(steps, p) && 0 < n <= |steps| && Settled(ws[n].docs)
    ensures |ws[n].rows| == 1
    ensures var docs, storage := ws[n].docs, ws[n].rows[0].storage;
      var live, repeated := Bytes(docs, LiveBytes), Bytes(docs, RepeatedBytes);
      var over := Clamped(ws, steps, 0, n) + Bytes(docs, UnrefundedBytes);
      && storage == live + over - repeated
      && (storage <= live <==> over <= repeated)
      && (storage == live <==> over == repeated)
      && (repeated == 0 ==> (storage <= live <==> Unclamped(ws, steps, n) && Bytes(docs, UnrefundedBytes) == 0))
  {
    OneRow(ws, steps, p, n);
    StorageWithinDocumentsIff(ws, steps, 0, n);
    ClampedNothingIff(ws, steps, p, n);
  }

  // ------------------------------------------------------------------
  // Across resets
  // ------------------------------------------------------------------

  /** The bytes that bound every current row: booked documents, and stray ones. */
  ghost function Bound(docs: Docs): nat {
    Bytes(docs, BookedBytes) + Bytes(docs, StrayBytes)
  }

  ghost predicate Consistent(w: World) {
    && Apart(w.rows)
    && (forall id :: id in w.docs ==> WellTold(w.docs[id]))
    && (forall r :: r in w.rows && r.period.start > w.clock ==> r.storage == 0)
    && (forall r :: r in w.rows && r.period.end > w.clock ==> r.storage <= Bound(w.docs))
  }

  lemma BoundOfChanged(d: Doc, s: Step)
    requires WellTold(d) && (s.Add? ==> !d.added) && (s.Fetch? || s.Drop? ==> d.stored)
    requires (s.Delete? ==> d.readers > 0) && (s.Remove? ==> d.owed > 0)
    ensures BookedBytes(Changed(d, s)) + StrayBytes(Changed(d, s)) == BookedBytes(d) + StrayBytes(d)
      + (if s.Add? then d.size else if s.Remove? && d.added && !d.told then 0 - d.size else 0)
  {
  }

  /** The bound follows the ledger: an addition raises it, only a first removal of added bytes lowers it. */
  lemma BoundStep(w: World, s: Step)
    requires Consistent(w) && Enabled(w, s)
    ensures Bound(Next(w, s).docs) == Bound(w.docs)
      + (if s.Add? then w.docs[s.id].size
         else if s.Remove? && w.docs[s.id].added && !w.docs[s.id].told then 0 - w.docs[s.id].size
         else 0)
  {
    BytesStep(w, s, BookedBytes);
    BytesStep(w, s, StrayBytes);
    if !s.Open? && !s.Upload? {
      BoundOfChanged(w.docs[s.id], s);
    }
  }

  lemma LedgerStep(w: World, s: Step, after: World)
    requires Consistent(w) && Follows(w, s, after) && (s.Add? || s.Remove?)
    ensures Apart(after.rows)
    ensures forall i :: 0 <= i < |after.rows| ==>
      && (after.rows[i].period.start > s.t ==> after.rows[i].storage == 0)
      && (after.rows[i].period.end > s.t ==> after.rows[i].storage <= Bound(after.docs))
  {
    BoundStep(w, s);
    PostedApart(w.rows, s.t, if s.Add? then Added(w.docs[s.id].size) else Removed(w.docs[s.id].size));
    forall i | 0 <= i < |after.rows|
      ensures after.rows[i].period.start > s.t ==> after.rows[i].storage == 0
      ensures after.rows[i].period.end > s.t ==> after.rows[i].storage <= Bound(after.docs)
    {
      assert w.rows[i] in w.rows;
    }
  }

  lemma StepConsistent(w: World, s: Step, after: World)
    requires Consistent(w) && Follows(w, s, after)
    ensures Consistent(after)
  {
    if s.Add? || s.Remove? {
      LedgerStep(w, s, after);
    } else {
      BoundStep(w, s);
    }
  }

  lemma {:induction false} EveryWorldConsistent(ws: seq<World>, steps: seq<Step>, n: nat)
    requires IsRun(ws, steps) && n <= |steps|
    ensures Consistent(ws[n])
  {
    if n > 0 {
      EveryWorldConsistent(ws, steps, n - 1);
      assert Follows(ws[n - 1], steps[n - 1], ws[n]);
      StepConsistent(ws[n - 1], steps[n - 1], ws[n]);
    }
  }

  // In every run the current row exceeds the booked documents, and once nothing is under way the
  // live ones, by no more than the stray bytes.
  lemma StorageExceedsByStrayOnly(ws: seq<World>, steps: seq<Step>, n: nat, r: Row)
    requires IsRun(ws, steps) && n <= |steps| && r in ws[n].rows && Covers(r, ws[n].clock)
    ensures r.storage <= Bytes(ws[n].docs, BookedBytes) + Bytes(ws[n].docs, StrayBytes)
    ensures Settled(ws[n].docs) ==> r.storage <= Bytes(ws[n].docs, LiveBytes) + Bytes(ws[n].docs, StrayBytes)
  {
    EveryWorldConsistent(ws, steps, n);
    if Settled(ws[n].docs) {
      assert Amounts(ws[n].docs, BookedBytes) == Amounts(ws[n].docs, LiveBytes);
    }
  }

  // ------------------------------------------------------------------
  // Orderly runs
  // ------------------------------------------------------------------

  /** No removal reaches the ledger before its document's addition, and no knowledge base is deleted. */
  predicate Orderly(ws: seq<World>, steps: seq<Step>, n: nat)
    requires IsRun(ws, steps) && n <= |steps|
  {
    forall i {:trigger steps[i]} :: 0 <= i < n ==>
      !steps[i].Drop? && (steps[i].Remove? && steps[i].id in ws[i].docs ==> ws[i].docs[steps[i].id].added)
  }

  /** Every document's store and ledger agree, but for removals on their way. */
  predicate InOrder(d: Doc) {
    (d.told ==> d.added && !d.early) && (d.stored || d.owed > 0 || d.told)
  }

  lemma {:induction false} OrderlyDocuments(ws: seq<World>, steps: seq<Step>, n: nat)
    requires IsRun(ws, steps) && n <= |steps| && Orderly(ws, steps, n)
    ensures forall id :: id in ws[n].docs ==> InOrder(ws[n].docs[id]) && WellTold(ws[n].docs[id])
  {
    EveryDocumentWellTold(ws, steps, n);
    if n > 0 {
      OrderlyDocuments(ws, steps, n - 1);
      assert Follows(ws[n - 1], steps[n - 1], ws[n]);
      var s := steps[n - 1];
      assert !s.Drop? && (s.Remove? ==> ws[n - 1].docs[s.id].added);
    }
  }

  // Across resets, an orderly run never records more than the documents it stores.
  lemma StorageNeverExceedsDocuments(ws: seq<World>, steps: seq<Step>, n: nat, r: Row)
    requires IsRun(ws, steps) && n <= |steps| && r in ws[n].rows && Covers(r, ws[n].clock)
    requires Orderly(ws, steps, n)
    ensures r.storage <= Bytes(ws[n].docs, BookedBytes)
    ensures Settled(ws[n].docs) ==> r.storage <= Bytes(ws[n].docs, LiveBytes)
  {
    StorageExceedsByStrayOnly(ws, steps, n, r);
    OrderlyDocuments(ws, steps, n);
    BytesOfNothing(ws[n].docs, StrayBytes);
  }

  // Until the first reset an orderly run is the booked documents at every moment, plus what was clamped,
  // less what was removed twice; if nothing was, it is exact and no removal is clamped.
  lemma OrderlyIsExact(ws: seq<World>, steps: seq<Step>, p: Period, n: nat)
    requires IsRun(ws, steps) && OnePeriod(steps, p) && 0 < n <= |steps| && Orderly(ws, steps, n)
    ensures |ws[n].rows| == 1
    ensures var storage, booked, repeated := ws[n].rows[0].storage, Bytes(ws[n].docs, BookedBytes), Bytes(ws[n].docs, RepeatedBytes);
      && storage == booked + Clamped(ws, steps, 0, n) - repeated
      && storage <= booked
      && (repeated == 0 ==> storage == booked && Unclamped(ws, steps, n))
  {
    OneRow(ws, steps, p, n);
    RowAccount(ws, steps, 0, n);
    OrderlyDocuments(ws, steps, n);
    BytesBalance(ws[n].docs, AddedBytes, RepeatedBytes, BookedBytes, TakenBytes, NoBytes);
    BytesOfNothing(ws[n].docs, NoBytes);
    OrderlyBound(ws, steps, p, n);
    ClampedNothingIff(ws, steps, p, n);
  }

  lemma OrderlyBound(ws: seq<World>, steps: seq<Step>, p: Period, n: nat)
    requires IsRun(ws, steps) && OnePeriod(steps, p) && 0 < n <= |steps| && Orderly(ws, steps, n)
    ensures StorageOf(ws[n], 0) <= Bytes(ws[n].docs, BookedBytes)
  {
    OneRow(ws, steps, p, n);
    EveryWorldConsistent(ws, steps, n);
    ClockReached(ws, steps, p, n);
    OrderlyDocuments(ws, steps, n);
    BytesOfNothing(ws[n].docs, StrayBytes);
    assert ws[n].rows[0] in ws[n].rows;
  }

  lemma ClockReached(ws: seq<World>, steps: seq<Step>, p: Period, n: nat)
    requires IsRun(ws, steps) && OnePeriod(steps, p) && 0 < n <= |steps|
    ensures ws[n].clock < p.end
  {
    assert Follows(ws[n - 1], steps[n - 1], ws[n]);
  }

  // ------------------------------------------------------------------
  // What happens otherwise
  // ------------------------------------------------------------------

  lemma Extend(ws: seq<World>, steps: seq<Step>, s: Step) returns (ws': seq<World>, steps': seq<Step>)
    requires IsRun(ws, steps) && Enabled(ws[|steps|], s)
    ensures IsRun(ws', steps') && ws' == ws + [Next(ws[|steps|], s)] && steps' == steps + [s]
    ensures Orderly(ws, steps, |steps|) && !s.Drop? && (s.Remove? ==> ws[|steps|].docs[s.id].added) ==>
      Orderly(ws', steps', |steps'|)
  {
    ws', steps' := ws + [Next(ws[|steps|], s)], steps + [s];
    if Orderly(ws, steps, |steps|) && !s.Drop? && (s.Remove? ==> ws[|steps|].docs[s.id].added) {
      forall i {:trigger steps'[i]} | 0 <= i < |steps'|
        ensures !steps'[i].Drop? && (steps'[i].Remove? && steps'[i].id in ws'[i].docs ==> ws'[i].docs[steps'[i].id].added)
      {
        assert i < |steps| ==> steps'[i] == steps[i] && ws'[i] == ws[i];
      }
    }
  }

  const SPAN := Period(0, 1)

  lemma OneUploaded(size: nat) returns (ws: seq<World>, steps: seq<Step>)
    ensures IsRun(ws, steps) && OnePeriod(steps, SPAN) && Orderly(ws, steps, |steps|)
    ensures ws[|steps|] == World(0, [Fresh(SPAN)], map[7 := Uploaded(size)])
  {
    ws, steps := [World(0, [], map[])], [];
    ws, steps := Extend(ws, steps, Open(0, SPAN));
    ws, steps := Extend(ws, steps, Upload(0, 7, size));
  }

  /** Two documents, the second already in the ledger. */
  lemma TwoUploaded(size: nat, other: nat) returns (ws: seq<World>, steps: seq<Step>)
    ensures IsRun(ws, steps) && OnePeriod(steps, SPAN) && Orderly(ws, steps, |steps|)
    ensures ws[|steps|] == World(0, [Fresh(SPAN).(storage := other)], map[7 := Uploaded(size), 8 := Uploaded(other).(added := true)])
  {
    ws, steps := OneUploaded(size);
    ws, steps := Extend(ws, steps, Upload(0, 8, other));
    ws, steps := Extend(ws, steps, Add(0, 8));
  }

  /** One of the ways to delete document 7: fetched, committed and recorded. */
  lemma DeletedAndRecorded(ws0: seq<World>, steps0: seq<Step>) returns (ws: seq<World>, steps: seq<Step>)
    requires IsRun(ws0, steps0) && OnePeriod(steps0, SPAN)
    requires var w := ws0[|steps0|]; w.clock == 0 && 7 in w.docs && w.docs[7].stored && w.docs[7].readers == w.docs[7].owed == 0
    ensures IsRun(ws, steps) && OnePeriod(steps, SPAN) && |steps| == |steps0| + 3 && ws[|steps0| + 2].docs.Keys == ws0[|steps0|].docs.Keys
    ensures steps[|steps0| + 2] == Remove(0, 7) && ws[|steps0| + 2].docs[7].added == ws0[|steps0|].docs[7].added
    ensures var w, d := ws0[|steps0|], ws0[|steps0|].docs[7];
      ws[|steps|] == World(0, Posted(w.rows, 0, Removed(d.size)),
        w.docs[7 := d.(stored := false, taken := d.taken + d.size, told := true, early := d.early || !d.added)])
  {
    ws, steps := Extend(ws0, steps0, Fetch(0, 7));
    ws, steps := Extend(ws, steps, Delete(0, 7));
    ws, steps := Extend(ws, steps, Remove(0, 7));
  }

  /** Nothing is stored or under way, yet the current row shows `size` bytes. */
  ghost predicate Stuck(w: World, size: nat) {
    Settled(w.docs) && Bytes(w.docs, LiveBytes) == 0 && |w.rows| == 1 && Covers(w.rows[0], w.clock) && w.rows[0].storage == size
  }

  // The removal is clamped away and the addition stays.
  lemma OvertakingDelete(size: nat) returns (ws: seq<World>, steps: seq<Step>)
    ensures IsRun(ws, steps) && Stuck(ws[|steps|], size)
  {
    ws, steps := OneUploaded(size);
    ws, steps := DeletedAndRecorded(ws, steps);
    ws, steps := Extend(ws, steps, Add(0, 7));
    BytesOfNothing(ws[|steps|].docs, LiveBytes);
  }

  lemma OtherIsLive(docs: Docs, other: nat)
    requires docs.Keys == {7, 8} && !docs[7].stored && docs[8].stored && docs[8].size == other
    ensures Bytes(docs, LiveBytes) == other
  {
    BytesWithout(docs, 8, LiveBytes);
    BytesOfNothing(docs - {8}, LiveBytes);
  }

  // With other bytes recorded, the same overtaking leaves the ledger exact.
  lemma CoveredOvertaking(size: nat, other: nat) returns (ws: seq<World>, steps: seq<Step>)
    requires other >= size
    ensures IsRun(ws, steps) && !Orderly(ws, steps, |steps|)
    ensures var w := ws[|steps|];
      Settled(w.docs) && |w.rows| == 1 && w.rows[0].storage == Bytes(w.docs, LiveBytes) == other
  {
    ws, steps := TwoUploaded(size, other);
    var early := |steps| + 2;
    ws, steps := DeletedAndRecorded(ws, steps);
    var before := ws[early];
    ws, steps := Extend(ws, steps, Add(0, 7));
    assert steps[early] == Remove(0, 7) && ws[early] == before && 7 in before.docs && !before.docs[7].added;
    OtherIsLive(ws[|steps|].docs, other);
  }

  /** Document 7 is recorded, then fetched by two requests. */
  lemma BothFetched(size: nat, other: nat) returns (ws: seq<World>, steps: seq<Step>)
    ensures IsRun(ws, steps) && OnePeriod(steps, SPAN) && Orderly(ws, steps, |steps|)
    ensures ws[|steps|] == World(0, [Fresh(SPAN).(storage := other + size)],
      map[7 := Uploaded(size).(added := true, readers := 2), 8 := Uploaded(other).(added := true)])
  {
    ws, steps := TwoUploaded(size, other);
    ws, steps := Extend(ws, steps, Add(0, 7));
    ws, steps := Extend(ws, steps, Fetch(0, 7));
    ws, steps := Extend(ws, steps, Fetch(0, 7));
  }

  /** Both requests commit. */
  lemma BothCommitted(size: nat, other: nat) returns (ws: seq<World>, steps: seq<Step>)
    ensures IsRun(ws, steps) && OnePeriod(steps, SPAN) && Orderly(ws, steps, |steps|)
    ensures ws[|steps|] == World(0, [Fresh(SPAN).(storage := other + size)],
      map[7 := Uploaded(size).(added := true, stored := false, owed := 2), 8 := Uploaded(other).(added := true)])
  {
    ws, steps := BothFetched(size, other);
    ws, steps := Extend(ws, steps, Delete(0, 7));
    ws, steps := Extend(ws, steps, Delete(0, 7));
  }

  /** Both record the removal. */
  lemma BothRecorded(size: nat, other: nat) returns (ws: seq<World>, steps: seq<Step>)
    requires other >= size
    ensures IsRun(ws, steps) && OnePeriod(steps, SPAN) && Orderly(ws, steps, |steps|)
    ensures ws[|steps|] == World(0, [Fresh(SPAN).(storage := other - size)],
      map[7 := Doc(size, true, false, 0, 0, size + size, true, false), 8 := Uploaded(other).(added := true)])
  {
    ws, steps := BothCommitted(size, other);
    ws, steps := Extend(ws, steps, Remove(0, 7));
    ws, steps := Extend(ws, steps, Remove(0, 7));
  }

  lemma TakenTwice(size: nat, other: nat) returns (docs: Docs)
    ensures docs == map[7 := Doc(size, true, false, 0, 0, size + size, true, false), 8 := Uploaded(other).(added := true)]
    ensures Settled(docs) && Bytes(docs, LiveBytes) == other
    ensures Bytes(docs, RepeatedBytes) == size && Bytes(docs, UnrefundedBytes) == 0
  {
    docs := map[7 := Doc(size, true, false, 0, 0, size + size, true, false), 8 := Uploaded(other).(added := true)];
    OtherIsLive(docs, other);
    BytesWithout(docs, 7, RepeatedBytes);
    BytesOfNothing(docs - {7}, RepeatedBytes);
    BytesOfNothing(docs, UnrefundedBytes);
  }

  // Two requests that had both fetched a document each subtract it: the ledger falls short of what is
  // stored although nothing was clamped, dropped or out of order.
  lemma DoubleDelete(size: nat, other: nat) returns (ws: seq<World>, steps: seq<Step>)
    requires other >= size
    ensures IsRun(ws, steps) && OnePeriod(steps, SPAN) && Orderly(ws, steps, |steps|)
    ensures var w := ws[|steps|];
      && Settled(w.docs) && |w.rows| == 1 && Clamped(ws, steps, 0, |steps|) == 0
      && Bytes(w.docs, LiveBytes) == other && w.rows[0].storage == other - size
  {
    ws, steps := BothRecorded(size, other);
    var docs := TakenTwice(size, other);
    assert ws[|steps|].docs == docs;
    StorageExactIff(ws, steps, SPAN, |steps|);
  }

  // Deleting a knowledge base takes its documents but never refunds their storage.
  lemma KnowledgeBaseDeletionNeverRefunds(size: nat) returns (ws: seq<World>, steps: seq<Step>)
    ensures IsRun(ws, steps) && Stuck(ws[|steps|], size)
  {
    ws, steps := OneUploaded(size);
    ws, steps := Extend(ws, steps, Add(0, 7));
    ws, steps := Extend(ws, steps, Drop(0, 7));
    BytesOfNothing(ws[|steps|].docs, LiveBytes);
  }

  // Unless a delete of the document itself was already under way: then its bytes are refunded.
  lemma OvertakenDeleteRefunds(size: nat) returns (ws: seq<World>, steps: seq<Step>)
    ensures IsRun(ws, steps) && Stuck(ws[|steps|], 0)
  {
    ws, steps := OneUploaded(size);
    ws, steps := Extend(ws, steps, Add(0, 7));
    ws, steps := Extend(ws, steps, Fetch(0, 7));
    ws, steps := Extend(ws, steps, Drop(0, 7));
    ws, steps := Extend(ws, steps, Delete(0, 7));
    ws, steps := Extend(ws, steps, Remove(0, 7));
    BytesOfNothing(ws[|steps|].docs, LiveBytes);
  }
}
