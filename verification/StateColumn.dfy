/**
 * How the state column fares over whole runs of clients and collector: the steps that make the two
 * out-of-date tests disagree, and what becomes of the rows that only the test by id would select.
 */
module StateColumn {
  import opened Tables
  import opened Transactions
  import opened BlobRows
  import opened BlobStates
  import opened References
  import opened GarbageCollection

  // ---------- Which steps keep the tests equal ----------

  /** Deleting rows that were collected keeps the tests equal. */
  lemma DeletionKeepsTestsEqual(db: Db, ids: set<int>)
    requires BlobInv(db) && TestsAgree(db) && forall x :: x in ids ==> x in OutOfDateKeyBlobs(db, false)
    ensures BlobInv(DeleteBlobs(db, ids)) && TestsAgree(DeleteBlobs(db, ids))
  {
    var d := DeleteBlobs(db, ids);
    DeletingCachedRows(db, ids);
    StateTestWithinIdTest(db);
    StateTestWithinIdTest(d);
    assert forall i :: i in CurrentWithoutKey(d) ==> i in CurrentWithoutKey(db);
  }

  /**
   * The collector's transaction removes the entries of unreferenced keys, and leaves their blobs
   * marked current. So it makes the tests disagree exactly if such a key still has a key blob.
   */
  lemma CollectorStrands(s: Sys, useStateColumn: bool, picked: seq<int>, t: Sys)
    requires SysInv(s) && TestsAgree(s.db) && Fetches(s, useStateColumn, picked, t)
    ensures TestsAgree(t.db) <==> !HasKeyBlob(DeleteBlobs(s.db, IdSet(s.deleted)), KeysInState(s.db.keys, Unreferenced))
  {
    var d, swept := DeleteBlobs(s.db, IdSet(s.deleted)), Swept(s.db, s.deleted);
    assert forall x :: x in s.deleted ==> x in Cached(s);
    DeletionKeepsTestsEqual(s.db, IdSet(s.deleted));
    StateTestWithinIdTest(d);
    RemoveKeysStrands(d, KeysInState(d.keys, Unreferenced));
    FetchKeepsSysInv(s, useStateColumn, picked, t);
    StateTestWithinIdTest(t.db);
    PurgeKeepsStranded(swept, useStateColumn);
  }

  lemma PurgeKeepsStranded(db: Db, useStateColumn: bool)
    ensures CurrentWithoutKey(PurgeCertificates(db, useStateColumn)) == CurrentWithoutKey(db)
  {
    var p := PurgeCertificates(db, useStateColumn);
    assert forall i :: i in CurrentWithoutKey(p) <==> i in CurrentWithoutKey(db);
  }

  /** The steps after which a current key blob has no key, told before they are taken. */
  predicate Strands(s: Sys, step: Step) {
    match step
    case ClientTx(tx) => StrandsKeyBlob(s.db, tx)
    case GcFetch(_, _) => HasKeyBlob(DeleteBlobs(s.db, IdSet(s.deleted)), KeysInState(s.db.keys, Unreferenced))
    case GcPop(_) => false
  }

  lemma StepKeepsTestsEqual(s: Sys, step: Step, t: Sys)
    requires SysInv(s) && Next(s, step, t) && TestsAgree(s.db)
    ensures TestsAgree(t.db) <==> !Strands(s, step)
  {
    match step
    case ClientTx(tx) => TestsStayEqual(s.db, tx);
    case GcFetch(useStateColumn, picked) => CollectorStrands(s, useStateColumn, picked, t);
    case GcPop(_) =>
  }

  /** Over any run that starts with equal tests they stay equal exactly as long as no step strands a key blob. */
  lemma {:induction false} TestsAgreeUntilStranded(states: seq<Sys>, steps: seq<Step>, n: nat)
    requires Run(states, steps) && n < |states| && TestsAgree(states[0].db)
    ensures (forall m :: 0 <= m <= n ==> TestsAgree(states[m].db)) <==> (forall m :: 0 <= m < n ==> !Strands(states[m], steps[m]))
  {
    if n > 0 {
      TestsAgreeUntilStranded(states, steps, n - 1);
      CollectorIsSafe(states, steps, n - 1);
      if TestsAgree(states[n - 1].db) {
        StepKeepsTestsEqual(states[n - 1], steps[n - 1], states[n]);
      }
    }
  }

  // ---------- Rows that the query by state never collects ----------

  /** The transactions that mark the current key blob of a key id superseded, whether the key exists or not. */
  predicate Supersedes(tx: Tx, keyId: int) {
    match tx
    case SetBlob(k, sc, blob, _) => k == keyId && sc == KeyBlob && blob.Some?
    case SetDeletedBlob(_, _) => keyId == UNASSIGNED_KEY_ID
    case _ => false
  }

  /** The key has no entry in either, and its key blobs are the same rows in both. */
  ghost predicate LeavesAlone(a: Db, b: Db, keyId: int) {
    && keyId !in b.keys
    && forall i :: i in a.blobs && a.blobs[i].keyId == keyId && a.blobs[i].sc == KeyBlob ==> i in b.blobs && b.blobs[i] == a.blobs[i]
  }

  lemma LeavesAloneTransitive(a: Db, b: Db, c: Db, keyId: int)
    requires LeavesAlone(a, b, keyId) && LeavesAlone(b, c, keyId)
    ensures LeavesAlone(a, c, keyId)
  {
  }

  lemma InsertLeavesAlone(db: Db, k: int, sc: SubComponent, blob: Bytes, meta: Option<Meta>, keyId: int)
    requires keyId !in db.keys && (k != keyId || sc != KeyBlob)
    ensures LeavesAlone(db, InsertBlob(db, k, sc, blob, meta), keyId)
  {
    assert NextRowId(db.blobs.Keys) !in db.blobs;
  }

  lemma InsertOptionalLeavesAlone(db: Db, k: int, sc: SubComponent, blob: Option<Bytes>, keyId: int)
    requires keyId !in db.keys && sc != KeyBlob
    ensures LeavesAlone(db, InsertOptional(db, k, sc, blob), keyId)
  {
    if blob.Some? { InsertLeavesAlone(db, k, sc, blob.value, None, keyId); }
  }

  lemma StoredComponentsLeaveAlone(db: Db, tx: Tx, keyId: int)
    requires tx.StoreNewKey? && keyId !in db.keys && keyId != tx.id
    ensures LeavesAlone(db, StoredComponents(db, tx), keyId)
  {
    var created := CreateKeyEntry(db, tx.id, tx.key.domain, tx.key.nspace, tx.keyType, tx.kmUuid);
    var prior := match tx.superseded
      case None => created
      case Some((b, m)) => InsertBlob(created, tx.id, KeyBlob, b, Some(m));
    if tx.superseded.Some? {
      InsertLeavesAlone(created, tx.id, KeyBlob, tx.superseded.value.0, Some(tx.superseded.value.1), keyId);
    }
    var current := InsertBlob(prior, tx.id, KeyBlob, tx.blob, Some(tx.meta));
    InsertLeavesAlone(prior, tx.id, KeyBlob, tx.blob, Some(tx.meta), keyId);
    LeavesAloneTransitive(created, prior, current, keyId);
    var withCert := InsertOptional(current, tx.id, Cert, tx.cert);
    InsertOptionalLeavesAlone(current, tx.id, Cert, tx.cert, keyId);
    LeavesAloneTransitive(created, current, withCert, keyId);
    var certified := InsertOptional(withCert, tx.id, CertChain, tx.certChain);
    InsertOptionalLeavesAlone(withCert, tx.id, CertChain, tx.certChain, keyId);
    LeavesAloneTransitive(created, withCert, certified, keyId);
  }

  lemma RebindLeavesAlone(db: Db, id: int, key: Descriptor, keyType: KeyType, keyId: int)
    requires key.alias.Some? && RebindAlias(db, id, key, keyType).Ok? && keyId !in db.keys
    ensures LeavesAlone(db, RebindAlias(db, id, key, keyType).value, keyId)
  {
  }

  lemma StoringLeavesAlone(db: Db, tx: Tx, keyId: int)
    requires tx.StoreNewKey? || tx.StoreNewCertificate? || tx.StoreSuperKey?
    requires keyId !in db.keys && keyId != tx.id
    ensures LeavesAlone(db, Exec(db, tx).db, keyId)
  {
    if Exec(db, tx).result.Ok? {
      match tx
      case StoreNewKey(id, key, keyType, _, _, _, _, _, _, _, _) =>
        StoredComponentsLeaveAlone(db, tx, keyId);
        RebindLeavesAlone(StoredComponents(db, tx), id, key, keyType, keyId);
        LeavesAloneTransitive(db, StoredComponents(db, tx), Exec(db, tx).db, keyId);
      case StoreNewCertificate(id, key, keyType, chain, _, kmUuid) =>
        var created := CreateKeyEntry(db, id, key.domain, key.nspace, keyType, kmUuid);
        InsertLeavesAlone(created, id, CertChain, chain, None, keyId);
        assert LeavesAlone(db, StoredCertificate(db, tx), keyId);
        RebindLeavesAlone(StoredCertificate(db, tx), id, key, keyType, keyId);
        LeavesAloneTransitive(db, StoredCertificate(db, tx), Exec(db, tx).db, keyId);
      case StoreSuperKey(id, user, alias, blob, meta, keyMeta, kmUuid) =>
        var row := KeyRow(Super, Some(App), Some(user), Some(alias), Live, kmUuid);
        var created := InsertKeyMeta(db.(keys := db.keys[id := row]), id, keyMeta);
        InsertLeavesAlone(created, id, KeyBlob, blob, Some(meta), keyId);
    }
  }

  lemma MarkingLeavesAlone(db: Db, keyIds: set<int>, keyId: int)
    requires keyId !in db.keys && keyId !in keyIds
    ensures LeavesAlone(db, MarkUnreferenced(db, keyIds), keyId) && LeavesAlone(db, RemoveKeys(db, keyIds), keyId)
  {
  }

  lemma RemovalLeavesAlone(db: Db, tx: Tx, keyId: int)
    requires tx.UnbindKey? || tx.UseKey? || tx.UnbindNamespace? || tx.UnbindUser? || tx.UnbindAuthBound?
    requires KeyInv(db) && keyId !in db.keys
    ensures LeavesAlone(db, Exec(db, tx).db, keyId)
  {
    match tx
    case UnbindKey(key, keyType, caller, _) =>
      AccessIsLive(db, key, keyType, caller);
      if LoadAccessTuple(db, key, keyType, caller).Ok? {
        MarkingLeavesAlone(db, {LoadAccessTuple(db, key, keyType, caller).value.keyId}, keyId);
      }
    case UseKey(used) =>
      if UsageLimit(ParamsOf(db.params, used)).Some? {
        assert used in db.params;
        MarkingLeavesAlone(db.(params := db.params[used := CountUse(ParamsOf(db.params, used))]), {used}, keyId);
      }
    case UnbindNamespace(domain, nspace) => MarkingLeavesAlone(db, ClientKeysIn(db.keys, domain, nspace), keyId);
    case UnbindUser(user) =>
      MarkingLeavesAlone(db.(grants := DropGrantsOfUser(db.grants, user)), KeysOfUser(db.keys, user), keyId);
    case UnbindAuthBound(user) => MarkingLeavesAlone(db, AuthBoundKeysOfUser(db, user), keyId);
  }

  lemma KeyUpdateLeavesAlone(db: Db, tx: Tx, keyId: int)
    requires tx.MigrateKey? || tx.AddGrant? || tx.RemoveGrant? || tx.CleanupLeftovers?
    requires keyId !in db.keys
    ensures LeavesAlone(db, Exec(db, tx).db, keyId)
  {
    KeyUpdateLeavesBlobs(db, tx);
    assert keyId !in Exec(db, tx).db.keys by { assert keyId !in Exec(db, tx).db.keys.Keys; }
  }

  lemma SettingLeavesAlone(db: Db, tx: Tx, keyId: int)
    requires (tx.SetBlob? || tx.SetDeletedBlob?) && !Supersedes(tx, keyId) && keyId !in db.keys
    ensures LeavesAlone(db, Exec(db, tx).db, keyId)
  {
    match tx
    case SetBlob(k, sc, blob, meta) =>
      if blob.Some? { InsertLeavesAlone(db, k, sc, blob.value, meta, keyId); }
    case SetDeletedBlob(blob, meta) => InsertLeavesAlone(db, UNASSIGNED_KEY_ID, KeyBlob, blob, Some(meta), keyId);
  }

  lemma SupersedingMarks(db: Db, tx: Tx, i: int)
    requires i in CurrentWithoutKey(db) && Supersedes(tx, db.blobs[i].keyId)
    ensures var r := Exec(db, tx).db; i in r.blobs && SameRow(r.blobs[i], db.blobs[i]) && r.blobs[i].state == Superseded
  {
    assert NextRowId(db.blobs.Keys) !in db.blobs;
  }

  /**
   * A current key blob without key is the same row after a client's transaction. It stays current,
   * and so unselected by state, exactly if the transaction does not supersede it.
   */
  lemma StrandedUntilSuperseded(db: Db, tx: Tx, i: int)
    requires KeyInv(db) && Admissible(db, tx) && i in CurrentWithoutKey(db)
    ensures var r := Exec(db, tx).db;
      && i in r.blobs && SameRow(r.blobs[i], db.blobs[i])
      && (i in CurrentWithoutKey(r) <==> !Supersedes(tx, db.blobs[i].keyId))
      && (i in OutOfDateKeyBlobs(r, true) <==> Supersedes(tx, db.blobs[i].keyId))
  {
    var keyId := db.blobs[i].keyId;
    if Supersedes(tx, keyId) {
      SupersedingMarks(db, tx, i);
    } else {
      if tx.StoreNewKey? || tx.StoreNewCertificate? || tx.StoreSuperKey? {
        StoringLeavesAlone(db, tx, keyId);
      } else if tx.SetBlob? || tx.SetDeletedBlob? {
        SettingLeavesAlone(db, tx, keyId);
      } else if tx.UnbindKey? || tx.UseKey? || tx.UnbindNamespace? || tx.UnbindUser? || tx.UnbindAuthBound? {
        RemovalLeavesAlone(db, tx, keyId);
      } else {
        KeyUpdateLeavesAlone(db, tx, keyId);
      }
    }
  }

  /** The row is current, has no key, has this content, and the collector does not hold its id. */
  ghost predicate Forgotten(s: Sys, i: int, row: BlobRow) {
    i in CurrentWithoutKey(s.db) && SameRow(s.db.blobs[i], row) && i !in Cached(s)
  }

  /** Steps of a collector that selects by state, and of clients that do not supersede the row. */
  predicate Ignores(step: Step, keyId: int) {
    match step
    case ClientTx(tx) => !Supersedes(tx, keyId)
    case GcFetch(useStateColumn, _) => useStateColumn
    case GcPop(_) => true
  }

  lemma FetchForgets(s: Sys, picked: seq<int>, t: Sys, i: int, row: BlobRow)
    requires Fetches(s, true, picked, t) && Forgotten(s, i, row)
    ensures Forgotten(t, i, row)
  {
    var swept := Swept(s.db, s.deleted);
    assert i !in s.deleted by { assert forall x :: x in s.deleted ==> x in Cached(s); }
    assert i in swept.blobs && swept.blobs[i] == s.db.blobs[i];
    PurgeKeepsStranded(swept, true);
    assert i in CurrentWithoutKey(swept);
    assert Cached(t) == picked;
  }

  lemma StepForgets(s: Sys, step: Step, t: Sys, i: int, row: BlobRow)
    requires SysInv(s) && Next(s, step, t) && Forgotten(s, i, row) && Ignores(step, row.keyId)
    ensures Forgotten(t, i, row)
  {
    match step
    case ClientTx(tx) => StrandedUntilSuperseded(s.db, tx, i);
    case GcFetch(_, picked) => FetchForgets(s, picked, t, i, row);
    case GcPop(id) =>
      assert Cached(s)[|Cached(s)| - 1] == id;
      assert forall x :: x in Cached(t) ==> x in Cached(s);
  }

  /**
   * Under the query by state, a current key blob without key is never selected, never deleted and
   * never handed over, for as long as no transaction supersedes it.
   */
  lemma {:induction false} StrandedForGood(states: seq<Sys>, steps: seq<Step>, n: nat, m: nat, i: int)
    requires Run(states, steps) && n <= m < |states| && i in CurrentWithoutKey(states[n].db) && i !in Cached(states[n])
    requires forall j :: n <= j < m ==> Ignores(steps[j], states[n].db.blobs[i].keyId)
    ensures Forgotten(states[m], i, states[n].db.blobs[i])
    ensures i !in OutOfDateKeyBlobs(states[m].db, true) && i in OutOfDateKeyBlobs(states[m].db, false)
    decreases m
  {
    if n < m {
      StrandedForGood(states, steps, n, m - 1, i);
      CollectorIsSafe(states, steps, m - 1);
      StepForgets(states[m - 1], steps[m - 1], states[m], i, states[n].db.blobs[i]);
    }
  }

  /** After a query by state the collector holds none of the rows that this query cannot select. */
  lemma QueryByStateHoldsNone(s: Sys, picked: seq<int>, t: Sys)
    requires Fetches(s, true, picked, t)
    ensures forall i :: i in CurrentWithoutKey(t.db) ==> i !in Cached(t)
  {
    PurgeKeepsStranded(Swept(s.db, s.deleted), true);
    assert Cached(t) == picked;
  }

  // ---------- Blobs stored only to be deleted ----------

  /**
   * A blob that set_deleted_blob stores is selected by id at once. The query by state selects it
   * exactly from the next transaction on that supersedes the current row without key.
   */
  lemma DeletedBlobSelected(db: Db, blob: Bytes, meta: Meta, tx: Tx)
    requires KeyInv(db) && BlobInv(db) && Admissible(Exec(db, SetDeletedBlob(blob, meta)).db, tx)
    ensures var r := Exec(db, SetDeletedBlob(blob, meta)).db; var id := NextRowId(db.blobs.Keys);
      && id in OutOfDateKeyBlobs(r, false) && id !in OutOfDateKeyBlobs(r, true)
      && (id in OutOfDateKeyBlobs(Exec(r, tx).db, true) <==> Supersedes(tx, UNASSIGNED_KEY_ID))
  {
    var r, id := Exec(db, SetDeletedBlob(blob, meta)).db, NextRowId(db.blobs.Keys);
    TxKeepsKeyRules(db, SetDeletedBlob(blob, meta));
    assert r.blobs[id] == BlobRow(KeyBlob, UNASSIGNED_KEY_ID, blob, Current);
    StrandedUntilSuperseded(r, tx, id);
  }

  // ---------- It happens to every key that is replaced ----------

  lemma ReplacedIsUnreferenced(db: Db, tx: Tx, replaced: int)
    requires tx.StoreNewKey? && tx.keyType == Client && Storable(tx.key) && KeyInv(db) && Admissible(db, tx)
    requires replaced in db.keys && Owns(db.keys[replaced], tx.key, Client)
    ensures replaced in KeysInState(Exec(db, tx).db.keys, Unreferenced)
  {
    StoredComponentsAreFresh(db, tx);
    RebindEffect(db, StoredComponents(db, tx), tx.id, tx.key, tx.keyType, tx.kmUuid);
  }

  /** The collector has not deleted all key blobs of a key that has an entry. */
  lemma SomeBlobIsLeft(s: Sys, k: int)
    requires SysInv(s) && k in s.db.keys && HasKeyBlob(s.db, {k})
    ensures HasKeyBlob(DeleteBlobs(s.db, IdSet(s.deleted)), {k})
  {
    var latest := LatestRow(s.db.blobs, k, KeyBlob).value;
    assert !OutOfDateById(s.db, latest);
    assert latest !in s.deleted by { assert forall x :: x in s.deleted ==> x in Cached(s); }
    assert latest in DeleteBlobs(s.db, IdSet(s.deleted)).blobs;
  }

  lemma ReplacedKeepsBlob(db: Db, tx: Tx, replaced: int)
    requires BlobInv(db) && Admissible(db, tx) && HasKeyBlob(db, {replaced})
    ensures HasKeyBlob(Exec(db, tx).db, {replaced})
  {
    TxKeepsBlobs(db, tx);
    var i :| i in db.blobs && db.blobs[i].sc == KeyBlob && db.blobs[i].keyId in {replaced};
    assert SameRow(db.blobs[i], Exec(db, tx).db.blobs[i]);
  }

  /** Replacing a key and then collecting makes the tests disagree: the replaced key's blob is stranded. */
  lemma ReplacedKeyStrands(s: Sys, tx: Tx, replaced: int, mid: Sys, u: bool, picked: seq<int>, t: Sys)
    requires SysInv(s) && TestsAgree(s.db) && Next(s, ClientTx(tx), mid) && Fetches(mid, u, picked, t)
    requires tx.StoreNewKey? && tx.keyType == Client && Storable(tx.key)
    requires replaced in s.db.keys && Owns(s.db.keys[replaced], tx.key, Client) && HasKeyBlob(s.db, {replaced})
    ensures TestsAgree(mid.db) && !TestsAgree(t.db)
  {
    StepKeepsSysInv(s, ClientTx(tx), mid);
    StepKeepsTestsEqual(s, ClientTx(tx), mid);
    ReplacedIsUnreferenced(s.db, tx, replaced);
    ReplacedKeepsBlob(s.db, tx, replaced);
    SomeBlobIsLeft(mid, replaced);
    CollectorStrands(mid, u, picked, t);
  }

  function SomeKey(id: nat): Tx {
    StoreNewKey(id, Descriptor(App, 10001, Some([65]), None), Client, [], None, [id], map[], None, None, map[], [7])
  }

  lemma SomeKeyStored()
    ensures var db := Exec(EMPTY_DB, SomeKey(1)).db;
      && 1 in db.keys && Owns(db.keys[1], SomeKey(2).key, Client) && HasKeyBlob(db, {1})
      && db.keys.Keys == {1} && forall i :: i in db.blobs ==> db.blobs[i].keyId == 1
  {
    var tx := SomeKey(1);
    StoredComponentsAreFresh(EMPTY_DB, tx);
    RebindEffect(EMPTY_DB, StoredComponents(EMPTY_DB, tx), 1, tx.key, Client, [7]);
    var created := CreateKeyEntry(EMPTY_DB, 1, App, 10001, Client, [7]);
    var b := InsertBlob(created, 1, KeyBlob, [1], Some(map[]));
    assert NextRowId({}) == 1;
    assert b.blobs == map[1 := BlobRow(KeyBlob, 1, [1], Current)];
    assert Exec(EMPTY_DB, tx).db.blobs == b.blobs;
  }

  /** Whenever the collector looks for more, there is an answer. */
  lemma FetchHappens(s: Sys, u: bool) returns (picked: seq<int>, t: Sys)
    requires s.superseded == []
    ensures Fetches(s, u, picked, t)
  {
    var swept := Swept(s.db, s.deleted);
    picked := SomeSelection(OutOfDateKeyBlobs(swept, u), MAX_BLOBS);
    assert forall i :: 0 <= i < |picked| ==> picked[i] in picked;
    assert ValidSelection(swept, u, picked);
    t := Sys(Collected(s.db, u, s.deleted, picked), [], LoadSuperseded(swept, picked));
  }

  lemma EmptyAgrees()
    ensures TestsAgree(EMPTY_DB) && Start(Sys(EMPTY_DB, [], [])) && Admissible(EMPTY_DB, SomeKey(1))
  {
    StartingPoints(EMPTY_DB);
    assert OutOfDateKeyBlobs(EMPTY_DB, true) == {} && OutOfDateKeyBlobs(EMPTY_DB, false) == {};
  }

  lemma RunOfThree(s0: Sys, s1: Sys, s2: Sys, s3: Sys, a: Step, b: Step, c: Step)
    requires Start(s0) && Next(s0, a, s1) && Next(s1, b, s2) && Next(s2, c, s3)
    ensures Run([s0, s1, s2, s3], [a, b, c])
  {
    var states, steps := [s0, s1, s2, s3], [a, b, c];
    forall i | 0 <= i < |steps| ensures Next(states[i], steps[i], states[i + 1]) {
      if i == 0 {} else if i == 1 {} else {}
    }
  }

  /** A key that is stored and then replaced, followed by the collector's transaction. */
  lemma ReplaceThenCollect(s0: Sys, first: Tx, replaced: int, second: Tx, u: bool) returns (states: seq<Sys>, steps: seq<Step>)
    requires Start(s0) && TestsAgree(s0.db) && Admissible(s0.db, first) && !StrandsKeyBlob(s0.db, first)
    requires second.StoreNewKey? && second.keyType == Client && Storable(second.key) && Admissible(Exec(s0.db, first).db, second)
    requires var db := Exec(s0.db, first).db;
      replaced in db.keys && Owns(db.keys[replaced], second.key, Client) && HasKeyBlob(db, {replaced})
    ensures Run(states, steps) && |steps| == 3 && states[0] == s0
    ensures steps[0] == ClientTx(first) && steps[1] == ClientTx(second) && steps[2].GcFetch? && steps[2].useStateColumn == u
    ensures TestsAgree(states[0].db) && TestsAgree(states[1].db) && TestsAgree(states[2].db) && !TestsAgree(states[3].db)
  {
    var s1 := s0.(db := Exec(s0.db, first).db);
    var s2 := s1.(db := Exec(s1.db, second).db);
    var picked, s3 := FetchHappens(s2, u);
    StepKeepsTestsEqual(s0, ClientTx(first), s1);
    StepKeepsSysInv(s0, ClientTx(first), s1);
    ReplacedKeyStrands(s1, second, replaced, s2, u, picked, s3);
    RunOfThree(s0, s1, s2, s3, ClientTx(first), ClientTx(second), GcFetch(u, picked));
    states := [s0, s1, s2, s3];
    steps := [ClientTx(first), ClientTx(second), GcFetch(u, picked)];
  }

  /** From an empty database: two keys are stored under one alias, and the collector runs. */
  lemma StoreStoreFetch(u: bool) returns (states: seq<Sys>, steps: seq<Step>)
    ensures Run(states, steps) && |steps| == 3 && states[0].db == EMPTY_DB
    ensures steps[0] == ClientTx(SomeKey(1)) && steps[1] == ClientTx(SomeKey(2)) && steps[2].GcFetch? && steps[2].useStateColumn == u
    ensures TestsAgree(states[2].db) && !TestsAgree(states[3].db)
  {
    EmptyAgrees();
    SomeKeyStored();
    states, steps := ReplaceThenCollect(Sys(EMPTY_DB, [], []), SomeKey(1), 1, SomeKey(2), u);
  }
}
