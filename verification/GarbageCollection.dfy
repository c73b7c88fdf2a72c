/**
 * The key garbage collector: it deletes the blob rows it handled before, looks for more, and hands
 * them to KeyMint one at a time. Between two of its transactions clients commit theirs, so it acts
 * on row ids that it read from an older state of the tables.
 */
module GarbageCollection {
  import opened Tables
  import opened Transactions
  import opened BlobRows
  import opened BlobStates
  import opened References

  datatype SupersededBlob = SupersededBlob(id: int, blob: Bytes, meta: Meta)

  /** How many blobs the collector asks for in one transaction. */
  const MAX_BLOBS: nat := 20

  // ---------- handle_next_superseded_blobs ----------

  function IdSet(ids: seq<int>): set<int> {
    set i | i in ids
  }

  function DeleteBlobs(db: Db, ids: set<int>): Db {
    db.(blobs := db.blobs - ids, blobMeta := db.blobMeta - ids)
  }

  function Swept(db: Db, deleted: seq<int>): Db {
    CleanupUnreferenced(DeleteBlobs(db, IdSet(deleted)))
  }

  /** The rows the final DELETE removes: certificates that are out of date. */
  predicate Purgeable(db: Db, useStateColumn: bool, i: int) {
    i in db.blobs && db.blobs[i].sc != KeyBlob && OutOfDate(db, useStateColumn, i)
  }

  function PurgeCertificates(db: Db, useStateColumn: bool): Db {
    db.(blobs := map i | i in db.blobs && !Purgeable(db, useStateColumn, i) :: db.blobs[i])
  }

  ghost predicate NoDuplicates(s: seq<int>) {
    forall i, j :: 0 <= i < j < |s| ==> s[i] != s[j]
  }

  /** A possible answer to SELECT ... LIMIT 20: distinct rows, and all of them unless the limit cut in. */
  ghost predicate ValidSelection(db: Db, useStateColumn: bool, picked: seq<int>) {
    && NoDuplicates(picked)
    && (forall i :: 0 <= i < |picked| ==> picked[i] in OutOfDateKeyBlobs(db, useStateColumn))
    && |picked| <= MAX_BLOBS
    && (|picked| < MAX_BLOBS ==> OutOfDateKeyBlobs(db, useStateColumn) == IdSet(picked))
  }

  /** There is an answer to the collector's query. */
  lemma {:induction false} SomeSelection(ids: set<int>, limit: nat) returns (picked: seq<int>)
    ensures NoDuplicates(picked) && |picked| <= limit && (forall x :: x in picked ==> x in ids)
    ensures |picked| < limit ==> ids == IdSet(picked)
    decreases limit
  {
    if limit == 0 || ids == {} {
      picked := [];
    } else {
      Inhabited(ids);
      var x :| x in ids;
      var rest := SomeSelection(ids - {x}, limit - 1);
      picked := [x] + rest;
      assert IdSet(picked) == IdSet(rest) + {x};
    }
  }

  function LoadSuperseded(db: Db, picked: seq<int>): (r: seq<SupersededBlob>)
    requires forall i :: 0 <= i < |picked| ==> picked[i] in db.blobs
    ensures |r| == |picked|
    ensures forall i :: 0 <= i < |picked| ==>
      r[i] == SupersededBlob(picked[i], db.blobs[picked[i]].blob, MetaOf(db.blobMeta, picked[i]))
  {
    seq(|picked|, i requires 0 <= i < |picked| =>
      SupersededBlob(picked[i], db.blobs[picked[i]].blob, MetaOf(db.blobMeta, picked[i])))
  }

  /** Tables after the collector's transaction: certificates go once no key blob is left to handle. */
  function Collected(db: Db, useStateColumn: bool, deleted: seq<int>, picked: seq<int>): Db {
    var swept := Swept(db, deleted);
    if picked == [] then PurgeCertificates(swept, useStateColumn) else swept
  }

  // ---------- The collector among its clients ----------

  datatype Sys = Sys(db: Db, deleted: seq<int>, superseded: seq<SupersededBlob>)

  datatype Step =
    | ClientTx(tx: Tx)
    | GcFetch(useStateColumn: bool, picked: seq<int>)
    | GcPop(id: int)

  function Ids(blobs: seq<SupersededBlob>): (r: seq<int>)
    ensures |r| == |blobs| && forall i :: 0 <= i < |blobs| ==> r[i] == blobs[i].id
  {
    seq(|blobs|, i requires 0 <= i < |blobs| => blobs[i].id)
  }

  /** Every id the collector holds in memory. */
  function Cached(s: Sys): seq<int> {
    s.deleted + Ids(s.superseded)
  }

  ghost predicate Fetches(s: Sys, useStateColumn: bool, picked: seq<int>, t: Sys) {
    var swept := Swept(s.db, s.deleted);
    && s.superseded == []
    && ValidSelection(swept, useStateColumn, picked)
    && t == Sys(Collected(s.db, useStateColumn, s.deleted, picked), [], LoadSuperseded(swept, picked))
  }

  /** The id moves to the deletion list before anything can go wrong with the blob. */
  ghost predicate Pops(s: Sys, id: int, t: Sys) {
    && s.superseded != [] && id == s.superseded[|s.superseded| - 1].id
    && t == Sys(s.db, s.deleted + [id], s.superseded[..|s.superseded| - 1])
  }

  ghost predicate Next(s: Sys, step: Step, t: Sys) {
    match step
    case ClientTx(tx) => Admissible(s.db, tx) && t == s.(db := Exec(s.db, tx).db)
    case GcFetch(useStateColumn, picked) => Fetches(s, useStateColumn, picked, t)
    case GcPop(id) => Pops(s, id, t)
  }

  ghost predicate Start(s: Sys) {
    KeyInv(s.db) && BlobInv(s.db) && s.deleted == [] && s.superseded == []
  }

  ghost predicate Run(states: seq<Sys>, steps: seq<Step>) {
    && |states| == |steps| + 1 && Start(states[0])
    && forall i {:trigger steps[i]} :: 0 <= i < |steps| ==> Next(states[i], steps[i], states[i + 1])
  }

  /** The ids in memory are distinct rows that are out of date, with the content read earlier. */
  ghost predicate GcInv(s: Sys) {
    && NoDuplicates(Cached(s))
    && (forall x :: x in Cached(s) ==> x in OutOfDateKeyBlobs(s.db, false))
    && (forall b :: b in s.superseded ==> b.id in s.db.blobs && s.db.blobs[b.id].blob == b.blob && MetaOf(s.db.blobMeta, b.id) == b.meta)
  }

  ghost predicate SysInv(s: Sys) {
    KeyInv(s.db) && BlobInv(s.db) && GcInv(s)
  }

  // ---------- Deleting rows that are out of date ----------

  /** `b` is `a` without some rows, none of which is the latest row of an existing key. */
  ghost predicate OnlyStaleRowsGone(a: Db, b: Db) {
    && a.keys == b.keys
    && (forall i :: i in b.blobs ==> i in a.blobs && b.blobs[i] == a.blobs[i])
    && (forall i :: i in a.blobs && i !in b.blobs ==> OutOfDateById(a, i))
  }

  lemma LatestSurvives(a: Db, b: Db, i: int)
    requires OnlyStaleRowsGone(a, b) && i in b.blobs && a.blobs[i].keyId in a.keys
    ensures IsLatest(a.blobs, i) <==> IsLatest(b.blobs, i)
  {
    var l := LatestRow(a.blobs, a.blobs[i].keyId, a.blobs[i].sc).value;
    assert l in b.blobs;
    assert SameComponent(a.blobs[l], a.blobs[i]) && SameComponent(b.blobs[l], b.blobs[i]);
  }

  lemma StaleRowsGoneKeeps(a: Db, b: Db)
    requires OnlyStaleRowsGone(a, b) && BlobInv(a)
    ensures LatestAreCurrent(b) && CurrentAreLatest(b)
  {
    forall i | i in b.blobs && b.blobs[i].keyId in b.keys && IsLatest(b.blobs, i) ensures b.blobs[i].state == Current {
      LatestSurvives(a, b, i);
    }
  }

  lemma SameLatestRow(a: Db, b: Db, keyId: int, sc: SubComponent)
    requires OnlyStaleRowsGone(a, b) && keyId in a.keys
    ensures LatestRow(a.blobs, keyId, sc) == LatestRow(b.blobs, keyId, sc)
  {
    var la := LatestRow(a.blobs, keyId, sc);
    var lb := LatestRow(b.blobs, keyId, sc);
    if la.Some? {
      assert la.value in b.blobs;
      LatestSurvives(a, b, la.value);
      assert SameComponent(b.blobs[la.value], b.blobs[lb.value]);
    }
  }

  /** The rows a collector may hold are deleted without touching any key that exists. */
  lemma DeletingCachedRows(db: Db, ids: set<int>)
    requires BlobInv(db) && forall x :: x in ids ==> x in OutOfDateKeyBlobs(db, false)
    ensures OnlyStaleRowsGone(db, DeleteBlobs(db, ids)) && BlobInv(DeleteBlobs(db, ids))
  {
    StaleRowsGoneKeeps(db, DeleteBlobs(db, ids));
  }

  lemma PurgingIsStale(db: Db, useStateColumn: bool)
    requires BlobInv(db)
    ensures OnlyStaleRowsGone(db, PurgeCertificates(db, useStateColumn)) && BlobInv(PurgeCertificates(db, useStateColumn))
  {
    StaleRowsGoneKeeps(db, PurgeCertificates(db, useStateColumn));
  }

  lemma SweepingRules(db: Db, deleted: seq<int>)
    requires KeyInv(db) && BlobInv(db) && forall x :: x in deleted ==> x in OutOfDateKeyBlobs(db, false)
    ensures BlobInv(Swept(db, deleted)) && KeyRules(db, Swept(db, deleted))
  {
    var d := DeleteBlobs(db, IdSet(deleted));
    DeletingCachedRows(db, IdSet(deleted));
    RemoveKeysKeeps(d, KeysInState(d.keys, Unreferenced));
    SameKeyViewRules(db, d);
    RemoveKeysRules(d, KeysInState(d.keys, Unreferenced));
  }

  lemma CollectingRules(db: Db, useStateColumn: bool, deleted: seq<int>, picked: seq<int>)
    requires KeyInv(db) && BlobInv(db) && forall x :: x in deleted ==> x in OutOfDateKeyBlobs(db, false)
    ensures BlobInv(Collected(db, useStateColumn, deleted, picked))
    ensures KeyRules(db, Collected(db, useStateColumn, deleted, picked))
  {
    var swept := Swept(db, deleted);
    SweepingRules(db, deleted);
    PurgingIsStale(swept, useStateColumn);
    SameKeyViewRules(swept, PurgeCertificates(swept, useStateColumn));
  }

  // ---------- Safety ----------

  lemma LoadUnchangedBySweep(db: Db, deleted: seq<int>, k: int)
    requires BlobInv(db) && forall x :: x in deleted ==> x in OutOfDateKeyBlobs(db, false)
    requires k in db.keys && db.keys[k].state != Unreferenced
    ensures LoadKeyComponents(Swept(db, deleted), k) == LoadKeyComponents(db, k)
  {
    var d := DeleteBlobs(db, IdSet(deleted));
    DeletingCachedRows(db, IdSet(deleted));
    SameLatestRow(db, d, k, KeyBlob);
    SameLatestRow(db, d, k, Cert);
    SameLatestRow(db, d, k, CertChain);
  }

  lemma LoadUnchangedByPurge(db: Db, useStateColumn: bool, k: int)
    requires BlobInv(db) && k in db.keys
    ensures LoadKeyComponents(PurgeCertificates(db, useStateColumn), k) == LoadKeyComponents(db, k)
  {
    var p := PurgeCertificates(db, useStateColumn);
    PurgingIsStale(db, useStateColumn);
    SameLatestRow(db, p, k, KeyBlob);
    SameLatestRow(db, p, k, Cert);
    SameLatestRow(db, p, k, CertChain);
  }

  /** No step of the collector changes what any key that is in use loads as. */
  lemma CollectorIsInvisible(s: Sys, step: Step, t: Sys, k: int)
    requires SysInv(s) && Next(s, step, t) && !step.ClientTx?
    requires k in s.db.keys && s.db.keys[k].state != Unreferenced
    ensures k in t.db.keys && t.db.keys[k] == s.db.keys[k]
    ensures LoadKeyComponents(t.db, k) == LoadKeyComponents(s.db, k)
  {
    if step.GcFetch? {
      assert forall x :: x in s.deleted ==> x in Cached(s);
      SweepingRules(s.db, s.deleted);
      LoadUnchangedBySweep(s.db, s.deleted, k);
      LoadUnchangedByPurge(Swept(s.db, s.deleted), step.useStateColumn, k);
    }
  }

  lemma ClientKeepsSysInv(s: Sys, tx: Tx, t: Sys)
    requires SysInv(s) && Next(s, ClientTx(tx), t)
    ensures SysInv(t)
  {
    TxKeepsBlobs(s.db, tx);
    TxKeepsKeyRules(s.db, tx);
    forall x | x in Cached(t) ensures x in OutOfDateKeyBlobs(t.db, false) {
      assert x in Cached(s);
    }
    forall b | b in t.superseded ensures b.id in t.db.blobs && t.db.blobs[b.id].blob == b.blob && MetaOf(t.db.blobMeta, b.id) == b.meta {
      var n :| 0 <= n < |s.superseded| && s.superseded[n] == b;
      assert Cached(s)[|s.deleted| + n] == b.id;
      assert b.id in OutOfDateKeyBlobs(s.db, false);
      assert SameRow(s.db.blobs[b.id], t.db.blobs[b.id]);
    }
  }

  lemma FetchKeepsSysInv(s: Sys, useStateColumn: bool, picked: seq<int>, t: Sys)
    requires SysInv(s) && Fetches(s, useStateColumn, picked, t)
    ensures SysInv(t)
  {
    assert forall x :: x in s.deleted ==> x in Cached(s);
    CollectingRules(s.db, useStateColumn, s.deleted, picked);
    SweepingRules(s.db, s.deleted);
    StateTestWithinIdTest(Swept(s.db, s.deleted));
    assert Cached(t) == picked;
  }

  /** Moving the last element of `e` to the end of `d` keeps `d + e` free of duplicates. */
  lemma MoveLast(d: seq<int>, e: seq<int>)
    requires e != [] && NoDuplicates(d + e)
    ensures NoDuplicates(d + [e[|e| - 1]] + e[..|e| - 1])
    ensures forall x :: x in d + [e[|e| - 1]] + e[..|e| - 1] ==> x in d + e
  {
    var c := d + e;
    var r := d + [e[|e| - 1]] + e[..|e| - 1];
    forall i, j | 0 <= i < j < |r| ensures r[i] != r[j] {
      var a := if i < |d| then i else if i == |d| then |c| - 1 else i - 1;
      var b := if j < |d| then j else if j == |d| then |c| - 1 else j - 1;
      assert r[i] == c[a] && r[j] == c[b];
    }
  }

  lemma PopKeepsSysInv(s: Sys, id: int, t: Sys)
    requires SysInv(s) && Pops(s, id, t)
    ensures SysInv(t)
  {
    MoveLast(s.deleted, Ids(s.superseded));
    assert Ids(t.superseded) == Ids(s.superseded)[..|s.superseded| - 1];
  }

  lemma StepKeepsSysInv(s: Sys, step: Step, t: Sys)
    requires SysInv(s) && Next(s, step, t)
    ensures SysInv(t)
  {
    match step
    case ClientTx(tx) => ClientKeepsSysInv(s, tx, t);
    case GcFetch(useStateColumn, picked) => FetchKeepsSysInv(s, useStateColumn, picked, t);
    case GcPop(id) => PopKeepsSysInv(s, id, t);
  }

  /**
   * In every state of every interleaving of client transactions and collector steps, under either
   * query, each id the collector holds names a row that is out of date, with the content it read.
   */
  lemma {:induction false} CollectorIsSafe(states: seq<Sys>, steps: seq<Step>, n: nat)
    requires Run(states, steps) && n < |states|
    ensures SysInv(states[n])
  {
    if n > 0 {
      CollectorIsSafe(states, steps, n - 1);
      StepKeepsSysInv(states[n - 1], steps[n - 1], states[n]);
    }
  }

  // ---------- The rows behind the ids ----------

  /** The id names the same row in both, with the same content and metadata. */
  ghost predicate KeepsRow(a: Db, b: Db, id: int) {
    id in a.blobs && id in b.blobs && SameRow(a.blobs[id], b.blobs[id]) && MetaOf(a.blobMeta, id) == MetaOf(b.blobMeta, id)
  }

  /** The collector deletes the row of an id that it has handed over. */
  ghost predicate DeletesRow(s: Sys, step: Step, t: Sys, id: int) {
    step.GcFetch? && id in s.deleted && id !in t.db.blobs
  }

  lemma StepKeepsHeldRow(s: Sys, step: Step, t: Sys, id: int)
    requires SysInv(s) && Next(s, step, t) && id in Cached(s)
    ensures (id in Cached(t) && KeepsRow(s.db, t.db, id)) || DeletesRow(s, step, t, id)
  {
    assert id in OutOfDateKeyBlobs(s.db, false);
    match step
    case ClientTx(tx) => TxKeepsBlobs(s.db, tx);
    case GcFetch(_, _) => assert id in IdSet(s.deleted);
    case GcPop(_) => LastMoves(s.deleted, Ids(s.superseded), id);
      assert Ids(t.superseded) == Ids(s.superseded)[..|s.superseded| - 1];
  }

  lemma LastMoves(d: seq<int>, e: seq<int>, x: int)
    requires e != [] && x in d + e
    ensures x in d + [e[|e| - 1]] + e[..|e| - 1]
  {
    assert e == e[..|e| - 1] + [e[|e| - 1]];
  }

  /** The collector holds the id, which names the row that it named in `db`. */
  ghost predicate HoldsRow(db: Db, s: Sys, id: int) {
    id in Cached(s) && KeepsRow(db, s.db, id)
  }

  lemma StepKeepsHolding(db: Db, s: Sys, step: Step, t: Sys, id: int)
    requires SysInv(s) && Next(s, step, t) && HoldsRow(db, s, id)
    ensures HoldsRow(db, t, id) || DeletesRow(s, step, t, id)
  {
    StepKeepsHeldRow(s, step, t, id);
  }

  /**
   * From the moment the collector takes up an id until it deletes that row, the id names the very
   * same row: row ids are used again, but none that the collector still holds. `k` is the last state
   * in question: the end of the stretch, or the state before the row is deleted.
   */
  lemma {:induction false} HeldIdIsNotReused(states: seq<Sys>, steps: seq<Step>, n: nat, m: nat, id: int) returns (k: nat)
    requires Run(states, steps) && n <= m < |states| && id in Cached(states[n])
    ensures n <= k <= m && HoldsRow(states[n].db, states[k], id)
    ensures k < m ==> DeletesRow(states[k], steps[k], states[k + 1], id)
    decreases m
  {
    if n == m {
      k := n;
      CollectorIsSafe(states, steps, n);
      assert id in OutOfDateKeyBlobs(states[n].db, false);
    } else {
      k := HeldIdIsNotReused(states, steps, n, m - 1, id);
      if k == m - 1 {
        CollectorIsSafe(states, steps, k);
        StepKeepsHolding(states[n].db, states[k], steps[k], states[m], id);
        k := if DeletesRow(states[k], steps[k], states[m], id) then k else m;
      }
    }
  }

  /** The step hands this row of `db` over: its id, its blob and its metadata. */
  ghost predicate HandsOver(s: Sys, step: Step, db: Db, id: int) {
    && step == GcPop(id) && KeepsRow(s.db, db, id) && s.superseded != []
    && s.superseded[|s.superseded| - 1] == SupersededBlob(id, db.blobs[id].blob, MetaOf(db.blobMeta, id))
  }

  lemma {:induction false} DeletedWasHandedOver(states: seq<Sys>, steps: seq<Step>, n: nat, id: int) returns (i: nat)
    requires Run(states, steps) && n < |states| && id in states[n].deleted
    ensures i < n && HandsOver(states[i], steps[i], states[n].db, id)
  {
    var s, t := states[n - 1], states[n];
    assert Next(s, steps[n - 1], t);
    CollectorIsSafe(states, steps, n - 1);
    if id in s.deleted {
      i := DeletedWasHandedOver(states, steps, n - 1, id);
      assert id in Cached(s);
      StepKeepsHeldRow(s, steps[n - 1], t, id);
    } else {
      i := n - 1;
      assert s.superseded[|s.superseded| - 1] in s.superseded;
    }
  }

  /**
   * No key blob leaves the table unless that very row was handed over before, with the blob and the
   * metadata that it has when it leaves. Only the collector's transaction removes it.
   */
  lemma BlobGoesOnlyAfterHandOver(states: seq<Sys>, steps: seq<Step>, n: nat, id: int)
    requires Run(states, steps) && n < |steps|
    requires id in states[n].db.blobs && states[n].db.blobs[id].sc == KeyBlob && id !in states[n + 1].db.blobs
    ensures steps[n].GcFetch? && exists i :: 0 <= i < n && HandsOver(states[i], steps[i], states[n].db, id)
  {
    CollectorIsSafe(states, steps, n);
    assert Next(states[n], steps[n], states[n + 1]);
    if steps[n].ClientTx? {
      TxKeepsBlobs(states[n].db, steps[n].tx);
    }
    assert id in states[n].deleted;
    var i := DeletedWasHandedOver(states, steps, n, id);
  }

  /** Across any step the key rules hold: life cycle, grants, unique locations. */
  lemma StepKeepsKeyRules(s: Sys, step: Step, t: Sys)
    requires SysInv(s) && Next(s, step, t)
    ensures KeyRules(s.db, t.db)
  {
    match step
    case ClientTx(tx) => TxKeepsKeyRules(s.db, tx);
    case GcFetch(useStateColumn, picked) =>
      assert forall x :: x in s.deleted ==> x in Cached(s);
      CollectingRules(s.db, useStateColumn, s.deleted, picked);
    case GcPop(_) => SameKeyViewRules(s.db, t.db);
  }

  /** An empty database can start a run, and so can an upgraded one that had no loose rows. */
  lemma StartingPoints(db: Db)
    requires KeyInv(db) && MetaOfKeyBlobs(db)
    ensures Start(Sys(EMPTY_DB, [], [])) && Start(Sys(UpgradeSchema(db), [], []))
  {
    UpgradeMakesTestsAgree(db);
    SameKeyViewRules(db, UpgradeSchema(db));
  }

  // ---------- Each row is handed over once ----------

  lemma {:induction false} DeletedUntilGone(states: seq<Sys>, steps: seq<Step>, first: nat, last: nat, id: int)
    requires Run(states, steps) && first <= last < |states| && id in states[first].deleted
    ensures id in states[last].deleted || (exists k :: first < k <= last && id !in states[k].db.blobs)
    decreases last
  {
    if first < last {
      DeletedUntilGone(states, steps, first, last - 1, id);
      if id in states[last - 1].deleted {
        if steps[last - 1].GcFetch? {
          assert id in IdSet(states[last - 1].deleted);
          assert id !in states[last].db.blobs;
        }
      }
    }
  }

  lemma NextIsNotDeleted(s: Sys, id: int)
    requires GcInv(s) && s.superseded != [] && id == s.superseded[|s.superseded| - 1].id
    ensures id !in s.deleted
  {
    forall a | 0 <= a < |s.deleted| ensures s.deleted[a] != id {
      assert Cached(s)[a] != Cached(s)[|Cached(s)| - 1];
    }
  }

  /**
   * If the collector hands over the same row id twice, then in between the row was gone from the
   * table: the second time the id names a different row.
   */
  lemma PoppedOnce(states: seq<Sys>, steps: seq<Step>, i: nat, j: nat, id: int)
    requires Run(states, steps) && i < j < |steps| && steps[i] == GcPop(id) && steps[j] == GcPop(id)
    ensures exists k :: i < k <= j && id !in states[k].db.blobs
  {
    assert Next(states[i], steps[i], states[i + 1]) && Next(states[j], steps[j], states[j + 1]);
    DeletedUntilGone(states, steps, i + 1, j, id);
    CollectorIsSafe(states, steps, j);
    NextIsNotDeleted(states[j], id);
  }
}
