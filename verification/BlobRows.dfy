/**
 * What every transaction keeps about blob rows: which row of a component is the current one, and
 * that a key blob that is out of date stays out of date, in the same row, with the same content.
 */
module BlobRows {
  import opened Tables
  import opened Transactions

  /** The latest row of each component of an existing key is marked current. */
  ghost predicate LatestAreCurrent(db: Db) {
    forall i :: i in db.blobs && db.blobs[i].keyId in db.keys && IsLatest(db.blobs, i) ==> db.blobs[i].state == Current
  }

  /** A key blob marked current is the latest one of its key id, whether the key exists or not. */
  ghost predicate CurrentAreLatest(db: Db) {
    forall i :: i in db.blobs && db.blobs[i].sc == KeyBlob && db.blobs[i].state == Current ==> IsLatest(db.blobs, i)
  }

  ghost predicate MetaOfKeyBlobs(db: Db) {
    forall i :: i in db.blobMeta ==> i in db.blobs && db.blobs[i].sc == KeyBlob
  }

  ghost predicate BlobInv(db: Db) {
    LatestAreCurrent(db) && CurrentAreLatest(db) && MetaOfKeyBlobs(db)
  }

  predicate SameRow(a: BlobRow, b: BlobRow) {
    a.sc == b.sc && a.keyId == b.keyId && a.blob == b.blob
  }

  /** Every key blob of `a` is still there in `b`, and none of them came back to life. */
  ghost predicate Keeps(a: Db, b: Db) {
    forall i :: i in a.blobs && a.blobs[i].sc == KeyBlob ==>
      && i in b.blobs && SameRow(a.blobs[i], b.blobs[i])
      && MetaOf(b.blobMeta, i) == MetaOf(a.blobMeta, i)
      && (OutOfDateById(a, i) ==> OutOfDateById(b, i))
  }

  /** No row and no key entry became collectable between `a` and `b`, by either query. */
  ghost predicate NoNewGarbage(a: Db, b: Db) {
    && (forall i :: OutOfDateById(b, i) ==> OutOfDateById(a, i) && b.blobs[i].sc == a.blobs[i].sc)
    && (forall i :: OutOfDateByState(b, i) ==> OutOfDateByState(a, i) && b.blobs[i].sc == a.blobs[i].sc)
    && KeysInState(b.keys, Unreferenced) <= KeysInState(a.keys, Unreferenced)
  }

  /** Nothing that concerns blobs changed: the key ids, the blob rows and their metadata. */
  ghost predicate SameBlobView(a: Db, b: Db) {
    a.keys.Keys == b.keys.Keys && a.blobs == b.blobs && a.blobMeta == b.blobMeta
  }

  lemma SameViewKeeps(a: Db, b: Db)
    requires SameBlobView(a, b) && BlobInv(a)
    ensures BlobInv(b) && Keeps(a, b)
  {
    assert forall i :: i in a.keys <==> i in b.keys by { assert forall i :: i in a.keys <==> i in a.keys.Keys; }
  }

  lemma KeepsTransitive(a: Db, b: Db, c: Db)
    requires Keeps(a, b) && Keeps(b, c)
    ensures Keeps(a, c)
  {
  }

  /** The new row is the latest of its component, and the latest rows of other components stay so. */
  lemma InsertBlobLatest(db: Db, keyId: int, sc: SubComponent, blob: Bytes, meta: Option<Meta>, i: int)
    requires i in db.blobs
    ensures var r := InsertBlob(db, keyId, sc, blob, meta);
      && i in r.blobs && SameRow(db.blobs[i], r.blobs[i])
      && (IsLatest(r.blobs, i) <==> IsLatest(db.blobs, i) && !(db.blobs[i].keyId == keyId && db.blobs[i].sc == sc))
  {
    var r := InsertBlob(db, keyId, sc, blob, meta);
    var id := NextRowId(db.blobs.Keys);
    assert r.blobs[id] == BlobRow(sc, keyId, blob, Current);
    assert forall j :: j in r.blobs <==> j in db.blobs || j == id;
    if IsLatest(r.blobs, i) {
      forall j | j in db.blobs && SameComponent(db.blobs[j], db.blobs[i]) ensures j <= i {
        assert SameComponent(r.blobs[j], r.blobs[i]);
      }
    }
  }

  /** `b` is `a` with one new row, which supersedes the earlier rows of its component. */
  ghost predicate AddsRow(a: Db, b: Db, id: int, keyId: int, sc: SubComponent) {
    && b.keys == a.keys && (forall i :: i in b.blobs <==> i in a.blobs || i == id)
    && b.blobs[id].keyId == keyId && b.blobs[id].sc == sc && b.blobs[id].state == Current && IsLatest(b.blobs, id)
    && (forall i :: i in a.blobs ==>
         var same := a.blobs[i].keyId == keyId && a.blobs[i].sc == sc;
         && SameRow(a.blobs[i], b.blobs[i]) && MetaOf(b.blobMeta, i) == MetaOf(a.blobMeta, i)
         && b.blobs[i].state == (if same then Superseded else a.blobs[i].state)
         && (IsLatest(b.blobs, i) <==> IsLatest(a.blobs, i) && !same))
    && MetaOfKeyBlobs(b)
  }

  lemma AddsRowKeeps(a: Db, b: Db, id: int, keyId: int, sc: SubComponent)
    requires BlobInv(a) && AddsRow(a, b, id, keyId, sc)
    ensures BlobInv(b) && Keeps(a, b)
  {
  }

  lemma InsertBlobAddsRow(db: Db, keyId: int, sc: SubComponent, blob: Bytes, meta: Option<Meta>)
    requires MetaOfKeyBlobs(db) && (sc == KeyBlob || meta.None?)
    ensures AddsRow(db, InsertBlob(db, keyId, sc, blob, meta), NextRowId(db.blobs.Keys), keyId, sc)
  {
    var r := InsertBlob(db, keyId, sc, blob, meta);
    var id := NextRowId(db.blobs.Keys);
    assert id !in db.blobs;
    assert forall j :: j in r.blobs <==> j in db.blobs || j == id;
    forall i | i in db.blobs
      ensures SameRow(db.blobs[i], r.blobs[i])
      ensures IsLatest(r.blobs, i) <==> IsLatest(db.blobs, i) && !(db.blobs[i].keyId == keyId && db.blobs[i].sc == sc)
    {
      InsertBlobLatest(db, keyId, sc, blob, meta, i);
    }
    assert IsLatest(r.blobs, id);
  }

  lemma InsertBlobKeeps(db: Db, keyId: int, sc: SubComponent, blob: Bytes, meta: Option<Meta>)
    requires BlobInv(db) && (sc == KeyBlob || meta.None?)
    ensures BlobInv(InsertBlob(db, keyId, sc, blob, meta)) && Keeps(db, InsertBlob(db, keyId, sc, blob, meta))
  {
    InsertBlobAddsRow(db, keyId, sc, blob, meta);
    AddsRowKeeps(db, InsertBlob(db, keyId, sc, blob, meta), NextRowId(db.blobs.Keys), keyId, sc);
  }

  lemma DeleteComponentKeeps(db: Db, keyId: int, sc: SubComponent)
    requires BlobInv(db) && sc != KeyBlob
    ensures BlobInv(DeleteComponent(db, keyId, sc)) && Keeps(db, DeleteComponent(db, keyId, sc))
  {
    var r := DeleteComponent(db, keyId, sc);
    forall i | i in r.blobs ensures IsLatest(r.blobs, i) <==> IsLatest(db.blobs, i) {
      forall j | j in db.blobs && SameComponent(db.blobs[j], db.blobs[i]) ensures j in r.blobs {}
      if IsLatest(r.blobs, i) {
        forall j | j in db.blobs && SameComponent(db.blobs[j], db.blobs[i]) ensures j <= i {
          assert SameComponent(r.blobs[j], r.blobs[i]);
        }
      }
    }
  }

  lemma RemoveKeysKeeps(db: Db, keyIds: set<int>)
    requires BlobInv(db)
    ensures BlobInv(RemoveKeys(db, keyIds)) && Keeps(db, RemoveKeys(db, keyIds))
  {
  }

  lemma SameComponentsSameLatest(a: map<int, BlobRow>, b: map<int, BlobRow>, i: int)
    requires a.Keys == b.Keys && forall j :: j in a ==> SameRow(a[j], b[j])
    ensures IsLatest(a, i) <==> IsLatest(b, i)
  {
    if i in a {
      assert forall j :: j in a ==> (SameComponent(a[j], a[i]) <==> SameComponent(b[j], b[i]));
    }
  }

  lemma MarkUnreferencedKeeps(db: Db, keyIds: set<int>)
    requires BlobInv(db)
    ensures BlobInv(MarkUnreferenced(db, keyIds)) && Keeps(db, MarkUnreferenced(db, keyIds))
  {
    var r := MarkUnreferenced(db, keyIds);
    forall i ensures IsLatest(db.blobs, i) <==> IsLatest(r.blobs, i) {
      SameComponentsSameLatest(db.blobs, r.blobs, i);
    }
  }

  /** A new key entry whose id no blob row carries changes no row's standing. */
  lemma InsertKeyKeeps(db: Db, id: int, row: KeyRow)
    requires BlobInv(db) && NoLeftBehindBlobs(db, id)
    ensures BlobInv(db.(keys := db.keys[id := row])) && Keeps(db, db.(keys := db.keys[id := row]))
  {
  }

  // ---------- Whole transactions ----------

  lemma StoredComponentsKeep(db: Db, tx: Tx)
    requires tx.StoreNewKey? && BlobInv(db) && Admissible(db, tx)
    ensures BlobInv(StoredComponents(db, tx)) && Keeps(db, StoredComponents(db, tx))
  {
    var created := CreateKeyEntry(db, tx.id, tx.key.domain, tx.key.nspace, tx.keyType, tx.kmUuid);
    InsertKeyKeeps(db, tx.id, created.keys[tx.id]);
    var prior := created;
    if tx.superseded.Some? {
      prior := InsertBlob(created, tx.id, KeyBlob, tx.superseded.value.0, Some(tx.superseded.value.1));
      InsertBlobKeeps(created, tx.id, KeyBlob, tx.superseded.value.0, Some(tx.superseded.value.1));
      KeepsTransitive(db, created, prior);
    }
    var current := InsertBlob(prior, tx.id, KeyBlob, tx.blob, Some(tx.meta));
    InsertBlobKeeps(prior, tx.id, KeyBlob, tx.blob, Some(tx.meta));
    KeepsTransitive(db, prior, current);
    var withCert := InsertOptional(current, tx.id, Cert, tx.cert);
    InsertOptionalKeeps(current, tx.id, Cert, tx.cert);
    KeepsTransitive(db, current, withCert);
    var certified := InsertOptional(withCert, tx.id, CertChain, tx.certChain);
    InsertOptionalKeeps(withCert, tx.id, CertChain, tx.certChain);
    KeepsTransitive(db, withCert, certified);
    SameViewKeeps(certified, StoredComponents(db, tx));
    KeepsTransitive(db, certified, StoredComponents(db, tx));
  }

  lemma InsertOptionalKeeps(db: Db, keyId: int, sc: SubComponent, blob: Option<Bytes>)
    requires BlobInv(db)
    ensures BlobInv(InsertOptional(db, keyId, sc, blob)) && Keeps(db, InsertOptional(db, keyId, sc, blob))
  {
    if blob.Some? {
      InsertBlobKeeps(db, keyId, sc, blob.value, None);
    } else {
      SameViewKeeps(db, db);
    }
  }

  lemma StoredCertificateKeeps(db: Db, tx: Tx)
    requires tx.StoreNewCertificate? && BlobInv(db) && Admissible(db, tx)
    ensures BlobInv(StoredCertificate(db, tx)) && Keeps(db, StoredCertificate(db, tx))
  {
    var created := CreateKeyEntry(db, tx.id, tx.key.domain, tx.key.nspace, tx.keyType, tx.kmUuid);
    InsertKeyKeeps(db, tx.id, created.keys[tx.id]);
    var certified := InsertBlob(created, tx.id, CertChain, tx.chain, None);
    InsertBlobKeeps(created, tx.id, CertChain, tx.chain, None);
    KeepsTransitive(db, created, certified);
    SameViewKeeps(certified, StoredCertificate(db, tx));
    KeepsTransitive(db, certified, StoredCertificate(db, tx));
  }

  lemma StoredSuperKeyKeeps(db: Db, tx: Tx)
    requires tx.StoreSuperKey? && BlobInv(db) && Admissible(db, tx)
    ensures BlobInv(StoredSuperKey(db, tx)) && Keeps(db, StoredSuperKey(db, tx))
  {
    var row := KeyRow(Super, Some(App), Some(tx.user), Some(tx.superAlias), Live, tx.kmUuid);
    var created := db.(keys := db.keys[tx.id := row]);
    InsertKeyKeeps(db, tx.id, row);
    var described := InsertKeyMeta(created, tx.id, tx.keyMeta);
    SameViewKeeps(created, described);
    KeepsTransitive(db, created, described);
    InsertBlobKeeps(described, tx.id, KeyBlob, tx.blob, Some(tx.meta));
    KeepsTransitive(db, described, StoredSuperKey(db, tx));
  }

  lemma RebindKeeps(db: Db, id: int, key: Descriptor, keyType: KeyType)
    requires key.alias.Some? && BlobInv(db)
    ensures RebindAlias(db, id, key, keyType).Ok? ==>
      BlobInv(RebindAlias(db, id, key, keyType).value) && Keeps(db, RebindAlias(db, id, key, keyType).value)
  {
    if RebindAlias(db, id, key, keyType).Ok? {
      var bound := RebindAlias(db, id, key, keyType).value;
      var evicted := EvictAlias(db.keys, key.domain, key.nspace, key.alias.value, keyType);
      assert evicted.Keys == db.keys.Keys;
      assert bound.keys.Keys == db.keys.Keys;
      SameViewKeeps(db, bound);
    }
  }

  lemma SetBlobKeeps(db: Db, keyId: int, sc: SubComponent, blob: Option<Bytes>, meta: Option<Meta>)
    requires BlobInv(db) && (sc == KeyBlob || meta.None?)
    ensures BlobInv(ExecSetBlob(db, keyId, sc, blob, meta).db) && Keeps(db, ExecSetBlob(db, keyId, sc, blob, meta).db)
  {
    match blob
    case Some(b) => InsertBlobKeeps(db, keyId, sc, b, meta);
    case None => if sc != KeyBlob { DeleteComponentKeeps(db, keyId, sc); }
  }

  lemma RemovalKeeps(db: Db, tx: Tx)
    requires tx.UnbindKey? || tx.UseKey? || tx.UnbindNamespace? || tx.UnbindUser? || tx.UnbindAuthBound?
    requires BlobInv(db)
    ensures BlobInv(Exec(db, tx).db) && Keeps(db, Exec(db, tx).db)
  {
    SameViewKeeps(db, db);
    match tx
    case UnbindKey(key, keyType, caller, permitted) =>
      var access := LoadAccessTuple(db, key, keyType, caller);
      if access.Ok? {
        MarkUnreferencedKeeps(db, {access.value.keyId});
      }
    case UseKey(keyId) =>
      var counted := db.(params := db.params[keyId := CountUse(ParamsOf(db.params, keyId))]);
      SameViewKeeps(db, counted);
      MarkUnreferencedKeeps(counted, {keyId});
    case UnbindNamespace(domain, nspace) =>
      var r := RemoveKeys(db, ClientKeysIn(db.keys, domain, nspace));
      RemoveKeysKeeps(db, ClientKeysIn(db.keys, domain, nspace));
      SameViewKeeps(r, r.(grants := DropReceivedGrants(r.grants, nspace)));
    case UnbindUser(user) =>
      var d := db.(grants := DropGrantsOfUser(db.grants, user));
      SameViewKeeps(db, d);
      MarkUnreferencedKeeps(d, KeysOfUser(db.keys, user));
    case UnbindAuthBound(user) => MarkUnreferencedKeeps(db, AuthBoundKeysOfUser(db, user));
  }

  lemma StoringKeeps(db: Db, tx: Tx)
    requires tx.StoreNewKey? || tx.StoreNewCertificate? || tx.StoreSuperKey?
    requires BlobInv(db) && Admissible(db, tx)
    ensures BlobInv(Exec(db, tx).db) && Keeps(db, Exec(db, tx).db)
  {
    SameViewKeeps(db, db);
    match tx
    case StoreNewKey(id, key, keyType, _, _, _, _, _, _, _, _) =>
      StoredComponentsKeep(db, tx);
      if Storable(key) { RebindKeeps(StoredComponents(db, tx), id, key, keyType); }
    case StoreNewCertificate(id, key, keyType, _, _, _) =>
      StoredCertificateKeeps(db, tx);
      if Storable(key) { RebindKeeps(StoredCertificate(db, tx), id, key, keyType); }
    case StoreSuperKey(_, _, _, _, _, _, _) => StoredSuperKeyKeeps(db, tx);
  }

  lemma KeyUpdateLeavesBlobs(db: Db, tx: Tx)
    requires tx.MigrateKey? || tx.AddGrant? || tx.RemoveGrant? || tx.CleanupLeftovers?
    ensures SameBlobView(db, Exec(db, tx).db)
  {
    assert Exec(db, tx).db.keys.Keys == db.keys.Keys;
  }

  lemma KeyUpdateKeeps(db: Db, tx: Tx)
    requires tx.MigrateKey? || tx.AddGrant? || tx.RemoveGrant? || tx.CleanupLeftovers?
    requires BlobInv(db)
    ensures BlobInv(Exec(db, tx).db) && Keeps(db, Exec(db, tx).db)
  {
    KeyUpdateLeavesBlobs(db, tx);
    SameViewKeeps(db, Exec(db, tx).db);
  }

  /** Every transaction keeps the blob invariant and every key blob row that is out of date. */
  lemma TxKeepsBlobs(db: Db, tx: Tx)
    requires BlobInv(db) && Admissible(db, tx)
    ensures BlobInv(Exec(db, tx).db) && Keeps(db, Exec(db, tx).db)
  {
    if tx.StoreNewKey? || tx.StoreNewCertificate? || tx.StoreSuperKey? {
      StoringKeeps(db, tx);
    } else if tx.SetBlob? {
      SetBlobKeeps(db, tx.keyId, tx.sc, tx.newBlob, tx.newMeta);
    } else if tx.SetDeletedBlob? {
      SetBlobKeeps(db, UNASSIGNED_KEY_ID, KeyBlob, Some(tx.blob), Some(tx.meta));
    } else if tx.UnbindKey? || tx.UseKey? || tx.UnbindNamespace? || tx.UnbindUser? || tx.UnbindAuthBound? {
      RemovalKeeps(db, tx);
    } else {
      KeyUpdateKeeps(db, tx);
    }
  }
}
