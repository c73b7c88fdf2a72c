/**
 * The hint each transaction gives to the garbage collector is complete: a transaction that does
 * not ask for a collection left nothing new to collect.
 */
module GcHints {
  import opened Tables
  import opened Transactions
  import opened BlobRows
  import opened References

  lemma NoNewGarbageTransitive(a: Db, b: Db, c: Db)
    requires NoNewGarbage(a, b) && NoNewGarbage(b, c)
    ensures NoNewGarbage(a, c)
  {
  }

  lemma SameBlobsNoGarbage(a: Db, b: Db)
    requires b.blobs == a.blobs && a.keys.Keys <= b.keys.Keys
    requires KeysInState(b.keys, Unreferenced) <= KeysInState(a.keys, Unreferenced)
    ensures NoNewGarbage(a, b)
  {
    assert forall k :: k in a.keys ==> k in b.keys by { assert forall k :: k in a.keys ==> k in a.keys.Keys; }
  }

  /** The key has no row of this component yet. */
  ghost predicate Missing(db: Db, keyId: int, sc: SubComponent) {
    forall i :: i in db.blobs ==> db.blobs[i].keyId != keyId || db.blobs[i].sc != sc
  }

  lemma InsertBlobNoGarbage(db: Db, keyId: int, sc: SubComponent, blob: Bytes, meta: Option<Meta>)
    requires keyId in db.keys && Missing(db, keyId, sc)
    ensures NoNewGarbage(db, InsertBlob(db, keyId, sc, blob, meta))
    ensures forall other :: other != sc && Missing(db, keyId, other) ==> Missing(InsertBlob(db, keyId, sc, blob, meta), keyId, other)
  {
    var r := InsertBlob(db, keyId, sc, blob, meta);
    var id := NextRowId(db.blobs.Keys);
    assert forall i :: i in r.blobs <==> i == id || i in db.blobs;
    assert forall i :: i in db.blobs ==> i < id && r.blobs[i] == db.blobs[i];
    assert r.blobs[id].keyId == keyId && r.blobs[id].sc == sc && r.blobs[id].state == Current;
    forall i | OutOfDateById(r, i) ensures i in db.blobs && OutOfDateById(db, i) {
      if r.blobs[i].keyId in r.keys {
        var j :| j in r.blobs && SameComponent(r.blobs[j], r.blobs[i]) && j > i;
        assert j != id;
        assert SameComponent(db.blobs[j], db.blobs[i]);
      }
    }
  }

  lemma InsertOptionalNoGarbage(db: Db, keyId: int, sc: SubComponent, blob: Option<Bytes>)
    requires keyId in db.keys && Missing(db, keyId, sc)
    ensures NoNewGarbage(db, InsertOptional(db, keyId, sc, blob))
    ensures forall other :: other != sc && Missing(db, keyId, other) ==> Missing(InsertOptional(db, keyId, sc, blob), keyId, other)
  {
    if blob.Some? { InsertBlobNoGarbage(db, keyId, sc, blob.value, None); }
  }

  lemma StoredComponentsNoGarbage(db: Db, tx: Tx)
    requires tx.StoreNewKey? && Admissible(db, tx) && tx.superseded.None?
    ensures NoNewGarbage(db, StoredComponents(db, tx))
  {
    var created := CreateKeyEntry(db, tx.id, tx.key.domain, tx.key.nspace, tx.keyType, tx.kmUuid);
    SameBlobsNoGarbage(db, created);
    var current := InsertBlob(created, tx.id, KeyBlob, tx.blob, Some(tx.meta));
    InsertBlobNoGarbage(created, tx.id, KeyBlob, tx.blob, Some(tx.meta));
    NoNewGarbageTransitive(db, created, current);
    var withCert := InsertOptional(current, tx.id, Cert, tx.cert);
    InsertOptionalNoGarbage(current, tx.id, Cert, tx.cert);
    NoNewGarbageTransitive(db, current, withCert);
    var certified := InsertOptional(withCert, tx.id, CertChain, tx.certChain);
    InsertOptionalNoGarbage(withCert, tx.id, CertChain, tx.certChain);
    NoNewGarbageTransitive(db, withCert, certified);
    SameBlobsNoGarbage(certified, StoredComponents(db, tx));
    NoNewGarbageTransitive(db, certified, StoredComponents(db, tx));
  }

  lemma StoredCertificateNoGarbage(db: Db, tx: Tx)
    requires tx.StoreNewCertificate? && Admissible(db, tx)
    ensures NoNewGarbage(db, StoredCertificate(db, tx))
  {
    var created := CreateKeyEntry(db, tx.id, tx.key.domain, tx.key.nspace, tx.keyType, tx.kmUuid);
    SameBlobsNoGarbage(db, created);
    var certified := InsertBlob(created, tx.id, CertChain, tx.chain, None);
    InsertBlobNoGarbage(created, tx.id, CertChain, tx.chain, None);
    NoNewGarbageTransitive(db, created, certified);
    SameBlobsNoGarbage(certified, StoredCertificate(db, tx));
    NoNewGarbageTransitive(db, certified, StoredCertificate(db, tx));
  }

  lemma RebindNoGarbage(db: Db, id: int, key: Descriptor, keyType: KeyType)
    requires key.alias.Some? && RebindAlias(db, id, key, keyType).Ok?
    requires !Occupied(db.keys, key.domain, key.nspace, key.alias.value, keyType)
    ensures NoNewGarbage(db, RebindAlias(db, id, key, keyType).value)
  {
    var bound := RebindAlias(db, id, key, keyType).value;
    var evicted := EvictAlias(db.keys, key.domain, key.nspace, key.alias.value, keyType);
    assert evicted.Keys == db.keys.Keys;
    assert forall k :: k in db.keys ==> evicted[k] == db.keys[k];
    assert forall k :: k in KeysInState(bound.keys, Unreferenced) ==> k in KeysInState(db.keys, Unreferenced);
    SameBlobsNoGarbage(db, bound);
  }

  lemma StoringHints(db: Db, tx: Tx)
    requires tx.StoreNewKey? || tx.StoreNewCertificate? || tx.StoreSuperKey?
    requires Admissible(db, tx)
    ensures Exec(db, tx).needGc || NoNewGarbage(db, Exec(db, tx).db)
  {
    if !Exec(db, tx).needGc && Exec(db, tx).result.Ok? {
      match tx
      case StoreNewKey(id, key, keyType, _, _, _, _, _, _, _, _) =>
        StoredComponentsNoGarbage(db, tx);
        RebindNoGarbage(StoredComponents(db, tx), id, key, keyType);
        NoNewGarbageTransitive(db, StoredComponents(db, tx), Exec(db, tx).db);
      case StoreNewCertificate(id, key, keyType, _, _, _) =>
        StoredCertificateNoGarbage(db, tx);
        RebindNoGarbage(StoredCertificate(db, tx), id, key, keyType);
        NoNewGarbageTransitive(db, StoredCertificate(db, tx), Exec(db, tx).db);
      case StoreSuperKey(id, user, alias, blob, meta, keyMeta, kmUuid) =>
        var row := KeyRow(Super, Some(App), Some(user), Some(alias), Live, kmUuid);
        var created := InsertKeyMeta(db.(keys := db.keys[id := row]), id, keyMeta);
        SameBlobsNoGarbage(db, created);
        InsertBlobNoGarbage(created, id, KeyBlob, blob, Some(meta));
        NoNewGarbageTransitive(db, created, Exec(db, tx).db);
    }
  }

  lemma MarkNobodyNoGarbage(db: Db, keyIds: set<int>)
    requires keyIds == {}
    ensures NoNewGarbage(db, MarkUnreferenced(db, keyIds))
  {
    var r := MarkUnreferenced(db, keyIds);
    assert forall i :: i in r.blobs ==> r.blobs[i] == db.blobs[i];
    forall i ensures IsLatest(db.blobs, i) <==> IsLatest(r.blobs, i) {
      SameComponentsSameLatest(db.blobs, r.blobs, i);
    }
    assert forall k :: k in r.keys <==> k in db.keys;
  }

  lemma RemovalHints(db: Db, tx: Tx)
    requires tx.UnbindKey? || tx.UseKey? || tx.UnbindUser? || tx.UnbindAuthBound?
    requires KeyInv(db)
    ensures Exec(db, tx).needGc || NoNewGarbage(db, Exec(db, tx).db)
  {
    match tx
    case UnbindKey(key, keyType, caller, _) => AccessIsLive(db, key, keyType, caller);
    case UseKey(keyId) =>
      if !Exec(db, tx).needGc && Exec(db, tx).result.Ok? {
        assert keyId in db.params;
        SameBlobsNoGarbage(db, Exec(db, tx).db);
      }
    case UnbindUser(user) =>
      var d := db.(grants := DropGrantsOfUser(db.grants, user));
      SameBlobsNoGarbage(db, d);
      if !Exec(db, tx).needGc {
        MarkNobodyNoGarbage(d, KeysOfUser(db.keys, user));
        NoNewGarbageTransitive(db, d, Exec(db, tx).db);
      }
    case UnbindAuthBound(user) =>
      if !Exec(db, tx).needGc { MarkNobodyNoGarbage(db, AuthBoundKeysOfUser(db, user)); }
  }

  lemma KeyUpdateHints(db: Db, tx: Tx)
    requires tx.MigrateKey? || tx.AddGrant? || tx.RemoveGrant?
    ensures NoNewGarbage(db, Exec(db, tx).db)
  {
    var r := Exec(db, tx).db;
    assert forall k :: k in KeysInState(r.keys, Unreferenced) ==> k in KeysInState(db.keys, Unreferenced);
    SameBlobsNoGarbage(db, r);
  }

  lemma SetBlobHints(db: Db, tx: Tx)
    requires tx.SetBlob? || tx.SetDeletedBlob? || tx.UnbindNamespace? || tx.CleanupLeftovers?
    ensures Exec(db, tx).needGc || Exec(db, tx).db == db
  {
  }

  /** Whenever a transaction leaves something new to collect, it asks for a collection. */
  lemma HintsAreComplete(db: Db, tx: Tx)
    requires KeyInv(db) && Admissible(db, tx)
    ensures Exec(db, tx).needGc || NoNewGarbage(db, Exec(db, tx).db)
  {
    if tx.StoreNewKey? || tx.StoreNewCertificate? || tx.StoreSuperKey? {
      StoringHints(db, tx);
    } else if tx.UnbindKey? || tx.UseKey? || tx.UnbindUser? || tx.UnbindAuthBound? {
      RemovalHints(db, tx);
    } else if tx.MigrateKey? || tx.AddGrant? || tx.RemoveGrant? {
      KeyUpdateHints(db, tx);
    } else {
      SetBlobHints(db, tx);
    }
  }
}
