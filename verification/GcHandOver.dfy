/**
 * What a query of the collector selects is handed over: a selected key blob stays selected until the
 * collector deletes it, and it deletes only what it has handed over.
 */
module GcHandOver {
  import opened Tables
  import opened Transactions
  import opened BlobRows
  import opened GarbageCollection

  // ---------- No transaction makes a row current again ----------

  ghost predicate NoneRevived(a: Db, b: Db) {
    forall i :: i in a.blobs && a.blobs[i].sc == KeyBlob && a.blobs[i].state != Current ==>
      i in b.blobs && b.blobs[i].sc == KeyBlob && b.blobs[i].state != Current
  }

  lemma NoneRevivedTransitive(a: Db, b: Db, c: Db)
    requires NoneRevived(a, b) && NoneRevived(b, c)
    ensures NoneRevived(a, c)
  {
  }

  lemma InsertRevivesNone(db: Db, k: int, sc: SubComponent, blob: Bytes, meta: Option<Meta>)
    ensures NoneRevived(db, InsertBlob(db, k, sc, blob, meta))
  {
    assert NextRowId(db.blobs.Keys) !in db.blobs;
  }

  lemma InsertOptionalRevivesNone(db: Db, k: int, sc: SubComponent, blob: Option<Bytes>)
    ensures NoneRevived(db, InsertOptional(db, k, sc, blob))
  {
    if blob.Some? { InsertRevivesNone(db, k, sc, blob.value, None); }
  }

  lemma StoredComponentsReviveNone(db: Db, tx: Tx)
    requires tx.StoreNewKey?
    ensures NoneRevived(db, StoredComponents(db, tx))
  {
    var created := CreateKeyEntry(db, tx.id, tx.key.domain, tx.key.nspace, tx.keyType, tx.kmUuid);
    var prior := match tx.superseded
      case None => created
      case Some((b, m)) => InsertBlob(created, tx.id, KeyBlob, b, Some(m));
    if tx.superseded.Some? {
      InsertRevivesNone(created, tx.id, KeyBlob, tx.superseded.value.0, Some(tx.superseded.value.1));
    }
    var current := InsertBlob(prior, tx.id, KeyBlob, tx.blob, Some(tx.meta));
    InsertRevivesNone(prior, tx.id, KeyBlob, tx.blob, Some(tx.meta));
    NoneRevivedTransitive(created, prior, current);
    var withCert := InsertOptional(current, tx.id, Cert, tx.cert);
    InsertOptionalRevivesNone(current, tx.id, Cert, tx.cert);
    NoneRevivedTransitive(created, current, withCert);
    var certified := InsertOptional(withCert, tx.id, CertChain, tx.certChain);
    InsertOptionalRevivesNone(withCert, tx.id, CertChain, tx.certChain);
    NoneRevivedTransitive(created, withCert, certified);
  }

  lemma RebindRevivesNone(db: Db, id: int, key: Descriptor, keyType: KeyType)
    requires key.alias.Some? && RebindAlias(db, id, key, keyType).Ok?
    ensures NoneRevived(db, RebindAlias(db, id, key, keyType).value)
  {
  }

  lemma StoringRevivesNone(db: Db, tx: Tx)
    requires tx.StoreNewKey? || tx.StoreNewCertificate? || tx.StoreSuperKey?
    ensures NoneRevived(db, Exec(db, tx).db)
  {
    if Exec(db, tx).result.Ok? {
      match tx
      case StoreNewKey(id, key, keyType, _, _, _, _, _, _, _, _) =>
        StoredComponentsReviveNone(db, tx);
        RebindRevivesNone(StoredComponents(db, tx), id, key, keyType);
        NoneRevivedTransitive(db, StoredComponents(db, tx), Exec(db, tx).db);
      case StoreNewCertificate(id, key, keyType, chain, _, kmUuid) =>
        var created := CreateKeyEntry(db, id, key.domain, key.nspace, keyType, kmUuid);
        InsertRevivesNone(created, id, CertChain, chain, None);
        assert NoneRevived(db, StoredCertificate(db, tx));
        RebindRevivesNone(StoredCertificate(db, tx), id, key, keyType);
        NoneRevivedTransitive(db, StoredCertificate(db, tx), Exec(db, tx).db);
      case StoreSuperKey(id, user, alias, blob, meta, keyMeta, kmUuid) =>
        var row := KeyRow(Super, Some(App), Some(user), Some(alias), Live, kmUuid);
        var created := InsertKeyMeta(db.(keys := db.keys[id := row]), id, keyMeta);
        InsertRevivesNone(created, id, KeyBlob, blob, Some(meta));
    }
  }

  lemma MarkingRevivesNone(db: Db, keyIds: set<int>)
    ensures NoneRevived(db, MarkUnreferenced(db, keyIds)) && NoneRevived(db, RemoveKeys(db, keyIds))
  {
  }

  lemma RemovalRevivesNone(db: Db, tx: Tx)
    requires tx.UnbindKey? || tx.UseKey? || tx.UnbindNamespace? || tx.UnbindUser? || tx.UnbindAuthBound?
    ensures NoneRevived(db, Exec(db, tx).db)
  {
    match tx
    case UnbindKey(key, keyType, caller, _) =>
      if LoadAccessTuple(db, key, keyType, caller).Ok? {
        MarkingRevivesNone(db, {LoadAccessTuple(db, key, keyType, caller).value.keyId});
      }
    case UseKey(used) => MarkingRevivesNone(db.(params := db.params[used := CountUse(ParamsOf(db.params, used))]), {used});
    case UnbindNamespace(domain, nspace) => MarkingRevivesNone(db, ClientKeysIn(db.keys, domain, nspace));
    case UnbindUser(user) => MarkingRevivesNone(db.(grants := DropGrantsOfUser(db.grants, user)), KeysOfUser(db.keys, user));
    case UnbindAuthBound(user) => MarkingRevivesNone(db, AuthBoundKeysOfUser(db, user));
  }

  lemma TxRevivesNone(db: Db, tx: Tx)
    ensures NoneRevived(db, Exec(db, tx).db)
  {
    if tx.StoreNewKey? || tx.StoreNewCertificate? || tx.StoreSuperKey? {
      StoringRevivesNone(db, tx);
    } else if tx.SetBlob? {
      if tx.newBlob.Some? { InsertRevivesNone(db, tx.keyId, tx.sc, tx.newBlob.value, tx.newMeta); }
    } else if tx.SetDeletedBlob? {
      InsertRevivesNone(db, UNASSIGNED_KEY_ID, KeyBlob, tx.blob, Some(tx.meta));
    } else if tx.UnbindKey? || tx.UseKey? || tx.UnbindNamespace? || tx.UnbindUser? || tx.UnbindAuthBound? {
      RemovalRevivesNone(db, tx);
    } else {
      KeyUpdateLeavesBlobs(db, tx);
    }
  }

  // ---------- Selected until deleted ----------

  lemma ClientKeepsSelected(db: Db, tx: Tx, u: bool, id: int)
    requires BlobInv(db) && Admissible(db, tx) && id in OutOfDateKeyBlobs(db, u)
    ensures id in OutOfDateKeyBlobs(Exec(db, tx).db, u) && KeepsRow(db, Exec(db, tx).db, id)
  {
    TxKeepsBlobs(db, tx);
    TxRevivesNone(db, tx);
  }

  lemma StaleStaysStale(a: Db, b: Db, i: int)
    requires OnlyStaleRowsGone(a, b) && i in b.blobs && OutOfDateById(a, i)
    ensures OutOfDateById(b, i)
  {
    if a.blobs[i].keyId in a.keys {
      LatestSurvives(a, b, i);
    }
  }

  lemma FetchKeepsSelected(s: Sys, useStateColumn: bool, picked: seq<int>, t: Sys, u: bool, id: int)
    requires SysInv(s) && Fetches(s, useStateColumn, picked, t) && id in OutOfDateKeyBlobs(s.db, u) && id !in s.deleted
    ensures id in OutOfDateKeyBlobs(t.db, u) && KeepsRow(s.db, t.db, id)
  {
    assert forall x :: x in s.deleted ==> x in Cached(s);
    var d, swept := DeleteBlobs(s.db, IdSet(s.deleted)), Swept(s.db, s.deleted);
    DeletingCachedRows(s.db, IdSet(s.deleted));
    SweepingRules(s.db, s.deleted);
    PurgingIsStale(swept, useStateColumn);
    if !u {
      StaleStaysStale(s.db, d, id);
      assert swept.blobs == d.blobs;
      assert OutOfDateById(swept, id);
      StaleStaysStale(swept, PurgeCertificates(swept, useStateColumn), id);
    }
  }

  /** A selected row stays the same and selected, unless the collector deletes it. */
  lemma SelectedUntilDeleted(s: Sys, step: Step, t: Sys, u: bool, id: int)
    requires SysInv(s) && Next(s, step, t) && id in OutOfDateKeyBlobs(s.db, u)
    ensures (id in OutOfDateKeyBlobs(t.db, u) && KeepsRow(s.db, t.db, id)) || id !in t.db.blobs
  {
    match step
    case ClientTx(tx) => ClientKeepsSelected(s.db, tx, u, id);
    case GcFetch(useStateColumn, picked) =>
      if id in s.deleted {
        assert id in IdSet(s.deleted);
      } else {
        FetchKeepsSelected(s, useStateColumn, picked, t, u, id);
      }
    case GcPop(_) =>
  }

  ghost predicate StillSelected(db: Db, s: Sys, u: bool, id: int) {
    id in OutOfDateKeyBlobs(s.db, u) && KeepsRow(db, s.db, id)
  }

  lemma HandsOverSame(s: Sys, step: Step, later: Db, db: Db, id: int)
    requires HandsOver(s, step, later, id) && KeepsRow(db, later, id)
    ensures HandsOver(s, step, db, id)
  {
  }

  /**
   * A row that either query selects is handed over, with the blob and the metadata it had when it was
   * selected, before that query finds nothing any more.
   */
  lemma {:induction false} SelectedIsHandedOver(states: seq<Sys>, steps: seq<Step>, n: nat, m: nat, u: bool, id: int) returns (i: nat)
    requires Run(states, steps) && n <= m < |states| && id in OutOfDateKeyBlobs(states[n].db, u)
    ensures StillSelected(states[n].db, states[m], u, id) || (i < m && HandsOver(states[i], steps[i], states[n].db, id))
    ensures OutOfDateKeyBlobs(states[m].db, u) == {} ==> i < m && HandsOver(states[i], steps[i], states[n].db, id)
    decreases m
  {
    i := 0;
    if n < m {
      i := SelectedIsHandedOver(states, steps, n, m - 1, u, id);
      if StillSelected(states[n].db, states[m - 1], u, id) {
        CollectorIsSafe(states, steps, m - 1);
        SelectedUntilDeleted(states[m - 1], steps[m - 1], states[m], u, id);
        if id !in states[m].db.blobs {
          BlobGoesOnlyAfterHandOver(states, steps, m - 1, id);
          i :| 0 <= i < m - 1 && HandsOver(states[i], steps[i], states[m - 1].db, id);
          HandsOverSame(states[i], steps[i], states[m - 1].db, states[n].db, id);
        }
      }
    }
  }
}
