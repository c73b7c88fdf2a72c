/**
 * The two tests for out-of-date key blobs: by row id (the older query) and by state column (the
 * newer one). They agree after the schema upgrade; this module says exactly when they stay equal.
 */
module BlobStates {
  import opened Tables
  import opened Transactions
  import opened BlobRows

  /** Key blobs marked current although their key entry is gone. */
  function CurrentWithoutKey(db: Db): set<int> {
    set i | i in db.blobs && db.blobs[i].sc == KeyBlob && db.blobs[i].state == Current && db.blobs[i].keyId !in db.keys
  }

  ghost predicate TestsAgree(db: Db) {
    OutOfDateKeyBlobs(db, true) == OutOfDateKeyBlobs(db, false)
  }

  /**
   * In every state that satisfies the invariant the test by id selects what the test by state
   * selects and, in addition, exactly the current rows without a key entry.
   */
  lemma StateTestWithinIdTest(db: Db)
    requires BlobInv(db)
    ensures OutOfDateKeyBlobs(db, true) <= OutOfDateKeyBlobs(db, false)
    ensures OutOfDateKeyBlobs(db, false) - OutOfDateKeyBlobs(db, true) == CurrentWithoutKey(db)
    ensures TestsAgree(db) <==> CurrentWithoutKey(db) == {}
  {
    assert OutOfDateKeyBlobs(db, false) == OutOfDateKeyBlobs(db, true) + CurrentWithoutKey(db);
    assert OutOfDateKeyBlobs(db, true) * CurrentWithoutKey(db) == {};
    if TestsAgree(db) {
      assert OutOfDateKeyBlobs(db, false) - OutOfDateKeyBlobs(db, true) == {};
    }
  }

  // ---------- The schema upgrade from version 1 to version 2 ----------

  /** The state from_1_to_2 gives a row; a new column starts as 0, Current. */
  function UpgradedState(db: Db, i: int): BlobState
    requires i in db.blobs
  {
    if db.blobs[i].sc != KeyBlob then Current
    else if db.blobs[i].keyId !in db.keys then Orphaned
    else if !IsLatest(db.blobs, i) then Superseded
    else Current
  }

  function UpgradeSchema(db: Db): Db {
    db.(blobs := map i | i in db.blobs :: db.blobs[i].(state := UpgradedState(db, i)))
  }

  /** Whatever a version 1 database holds, after the upgrade both tests select the same key blobs. */
  lemma UpgradeMakesTestsAgree(db: Db)
    ensures TestsAgree(UpgradeSchema(db))
    ensures OutOfDateKeyBlobs(UpgradeSchema(db), false) == OutOfDateKeyBlobs(db, false)
    ensures LatestAreCurrent(UpgradeSchema(db)) && CurrentAreLatest(UpgradeSchema(db))
    ensures MetaOfKeyBlobs(db) ==> BlobInv(UpgradeSchema(db))
  {
    var r := UpgradeSchema(db);
    forall i ensures IsLatest(db.blobs, i) <==> IsLatest(r.blobs, i) {
      SameComponentsSameLatest(db.blobs, r.blobs, i);
    }
    assert OutOfDateKeyBlobs(r, true) == OutOfDateKeyBlobs(r, false);
  }

  // ---------- Which transactions keep the tests equal ----------

  predicate HasKeyBlob(db: Db, keyIds: set<int>) {
    exists i :: i in db.blobs && db.blobs[i].sc == KeyBlob && db.blobs[i].keyId in keyIds
  }

  /** The client transactions after which a current key blob has no key, told before they run. */
  predicate StrandsKeyBlob(db: Db, tx: Tx) {
    match tx
    case SetBlob(keyId, sc, blob, _) => sc == KeyBlob && blob.Some? && keyId !in db.keys
    case SetDeletedBlob(_, _) => true
    case UnbindNamespace(domain, nspace) =>
      (domain == App || domain == SELinux) && HasKeyBlob(db, ClientKeysIn(db.keys, domain, nspace))
    case _ => false
  }

  lemma InsertBlobStrands(db: Db, keyId: int, sc: SubComponent, blob: Bytes, meta: Option<Meta>)
    requires BlobInv(db) && CurrentWithoutKey(db) == {}
    ensures CurrentWithoutKey(InsertBlob(db, keyId, sc, blob, meta)) == {} <==> sc != KeyBlob || keyId in db.keys
  {
    var r := InsertBlob(db, keyId, sc, blob, meta);
    var id := NextRowId(db.blobs.Keys);
    assert r.blobs[id].state == Current && r.blobs[id].keyId == keyId && r.blobs[id].sc == sc;
    assert forall i :: i in CurrentWithoutKey(r) ==> i == id || i in CurrentWithoutKey(db);
    if sc == KeyBlob && keyId !in db.keys {
      assert id in CurrentWithoutKey(r);
    } else {
      assert CurrentWithoutKey(r) == {};
    }
  }

  lemma InsertOptionalStrandsNone(db: Db, keyId: int, sc: SubComponent, blob: Option<Bytes>)
    requires BlobInv(db) && CurrentWithoutKey(db) == {} && sc != KeyBlob
    ensures CurrentWithoutKey(InsertOptional(db, keyId, sc, blob)) == {}
  {
    if blob.Some? { InsertBlobStrands(db, keyId, sc, blob.value, None); }
  }

  lemma StoredComponentsStrandNone(db: Db, tx: Tx)
    requires tx.StoreNewKey? && BlobInv(db) && Admissible(db, tx) && CurrentWithoutKey(db) == {}
    ensures CurrentWithoutKey(StoredComponents(db, tx)) == {}
  {
    var created := CreateKeyEntry(db, tx.id, tx.key.domain, tx.key.nspace, tx.keyType, tx.kmUuid);
    InsertKeyKeeps(db, tx.id, created.keys[tx.id]);
    assert CurrentWithoutKey(created) == {} by {
      assert forall i :: i in CurrentWithoutKey(created) ==> i in CurrentWithoutKey(db);
    }
    var prior := created;
    if tx.superseded.Some? {
      prior := InsertBlob(created, tx.id, KeyBlob, tx.superseded.value.0, Some(tx.superseded.value.1));
      InsertBlobStrands(created, tx.id, KeyBlob, tx.superseded.value.0, Some(tx.superseded.value.1));
      InsertBlobKeeps(created, tx.id, KeyBlob, tx.superseded.value.0, Some(tx.superseded.value.1));
    }
    var current := InsertBlob(prior, tx.id, KeyBlob, tx.blob, Some(tx.meta));
    InsertBlobStrands(prior, tx.id, KeyBlob, tx.blob, Some(tx.meta));
    InsertBlobKeeps(prior, tx.id, KeyBlob, tx.blob, Some(tx.meta));
    InsertOptionalStrandsNone(current, tx.id, Cert, tx.cert);
    InsertOptionalKeeps(current, tx.id, Cert, tx.cert);
    var withCert := InsertOptional(current, tx.id, Cert, tx.cert);
    InsertOptionalStrandsNone(withCert, tx.id, CertChain, tx.certChain);
    var certified := InsertOptional(withCert, tx.id, CertChain, tx.certChain);
    assert CurrentWithoutKey(StoredComponents(db, tx)) == CurrentWithoutKey(certified);
  }

  lemma StoredCertificateStrandsNone(db: Db, tx: Tx)
    requires tx.StoreNewCertificate? && BlobInv(db) && Admissible(db, tx) && CurrentWithoutKey(db) == {}
    ensures CurrentWithoutKey(StoredCertificate(db, tx)) == {}
  {
    var created := CreateKeyEntry(db, tx.id, tx.key.domain, tx.key.nspace, tx.keyType, tx.kmUuid);
    InsertKeyKeeps(db, tx.id, created.keys[tx.id]);
    assert CurrentWithoutKey(created) == {} by {
      assert forall i :: i in CurrentWithoutKey(created) ==> i in CurrentWithoutKey(db);
    }
    InsertBlobStrands(created, tx.id, CertChain, tx.chain, None);
    assert CurrentWithoutKey(StoredCertificate(db, tx))
        == CurrentWithoutKey(InsertBlob(created, tx.id, CertChain, tx.chain, None));
  }

  lemma StoredSuperKeyStrandsNone(db: Db, tx: Tx)
    requires tx.StoreSuperKey? && BlobInv(db) && Admissible(db, tx) && CurrentWithoutKey(db) == {}
    ensures CurrentWithoutKey(StoredSuperKey(db, tx)) == {}
  {
    var row := KeyRow(Super, Some(App), Some(tx.user), Some(tx.superAlias), Live, tx.kmUuid);
    var created := InsertKeyMeta(db.(keys := db.keys[tx.id := row]), tx.id, tx.keyMeta);
    InsertKeyKeeps(db, tx.id, row);
    assert CurrentWithoutKey(created) == {} by {
      assert forall i :: i in CurrentWithoutKey(created) ==> i in CurrentWithoutKey(db);
    }
    InsertBlobStrands(created, tx.id, KeyBlob, tx.blob, Some(tx.meta));
  }

  lemma SameViewStrandsSame(a: Db, b: Db)
    requires a.keys.Keys == b.keys.Keys && a.blobs == b.blobs
    ensures CurrentWithoutKey(a) == CurrentWithoutKey(b)
  {
    assert forall k :: k in a.keys <==> k in b.keys by { assert forall k :: k in a.keys <==> k in a.keys.Keys; }
  }

  lemma RebindStrandsNone(db: Db, id: int, key: Descriptor, keyType: KeyType)
    requires key.alias.Some? && CurrentWithoutKey(db) == {}
    ensures RebindAlias(db, id, key, keyType).Ok? ==> CurrentWithoutKey(RebindAlias(db, id, key, keyType).value) == {}
  {
    if RebindAlias(db, id, key, keyType).Ok? {
      var bound := RebindAlias(db, id, key, keyType).value;
      assert bound.keys.Keys == db.keys.Keys;
      SameViewStrandsSame(db, bound);
    }
  }

  lemma MarkUnreferencedStrandsNone(db: Db, keyIds: set<int>)
    requires CurrentWithoutKey(db) == {}
    ensures CurrentWithoutKey(MarkUnreferenced(db, keyIds)) == {}
  {
    assert forall i :: i in CurrentWithoutKey(MarkUnreferenced(db, keyIds)) ==> i in CurrentWithoutKey(db);
  }

  /** Removing key entries alone strands a blob exactly when one of the keys has a key blob. */
  lemma RemoveKeysStrands(db: Db, keyIds: set<int>)
    requires BlobInv(db) && CurrentWithoutKey(db) == {}
    requires forall k :: k in keyIds ==> k in db.keys
    ensures CurrentWithoutKey(RemoveKeys(db, keyIds)) == {} <==> !HasKeyBlob(db, keyIds)
  {
    var r := RemoveKeys(db, keyIds);
    if HasKeyBlob(db, keyIds) {
      var i :| i in db.blobs && db.blobs[i].sc == KeyBlob && db.blobs[i].keyId in keyIds;
      var latest := LatestRow(db.blobs, db.blobs[i].keyId, KeyBlob);
      assert latest.value in CurrentWithoutKey(r);
    } else {
      assert forall i :: i in CurrentWithoutKey(r) ==> i in CurrentWithoutKey(db);
    }
  }

  lemma DeleteComponentStrandsNone(db: Db, keyId: int, sc: SubComponent)
    requires CurrentWithoutKey(db) == {}
    ensures CurrentWithoutKey(DeleteComponent(db, keyId, sc)) == {}
  {
    assert forall i :: i in CurrentWithoutKey(DeleteComponent(db, keyId, sc)) ==> i in CurrentWithoutKey(db);
  }

  lemma StoringStrandsNone(db: Db, tx: Tx)
    requires tx.StoreNewKey? || tx.StoreNewCertificate? || tx.StoreSuperKey?
    requires BlobInv(db) && Admissible(db, tx) && CurrentWithoutKey(db) == {}
    ensures CurrentWithoutKey(Exec(db, tx).db) == {}
  {
    match tx
    case StoreNewKey(id, key, keyType, _, _, _, _, _, _, _, _) =>
      if Storable(key) {
        StoredComponentsStrandNone(db, tx);
        RebindStrandsNone(StoredComponents(db, tx), id, key, keyType);
      }
    case StoreNewCertificate(id, key, keyType, _, _, _) =>
      if Storable(key) {
        StoredCertificateStrandsNone(db, tx);
        RebindStrandsNone(StoredCertificate(db, tx), id, key, keyType);
      }
    case StoreSuperKey(_, _, _, _, _, _, _) => StoredSuperKeyStrandsNone(db, tx);
  }

  lemma MarkingStrandsNone(db: Db, tx: Tx)
    requires tx.UnbindKey? || tx.UseKey? || tx.UnbindUser? || tx.UnbindAuthBound?
    requires CurrentWithoutKey(db) == {}
    ensures CurrentWithoutKey(Exec(db, tx).db) == {}
  {
    match tx
    case UnbindKey(key, keyType, caller, _) =>
      if LoadAccessTuple(db, key, keyType, caller).Ok? {
        MarkUnreferencedStrandsNone(db, {LoadAccessTuple(db, key, keyType, caller).value.keyId});
      }
    case UseKey(keyId) =>
      var counted := db.(params := db.params[keyId := CountUse(ParamsOf(db.params, keyId))]);
      SameViewStrandsSame(db, counted);
      MarkUnreferencedStrandsNone(counted, {keyId});
    case UnbindUser(user) =>
      var d := db.(grants := DropGrantsOfUser(db.grants, user));
      SameViewStrandsSame(db, d);
      MarkUnreferencedStrandsNone(d, KeysOfUser(db.keys, user));
    case UnbindAuthBound(user) => MarkUnreferencedStrandsNone(db, AuthBoundKeysOfUser(db, user));
  }

  lemma NamespaceStrands(db: Db, tx: Tx)
    requires tx.UnbindNamespace? && BlobInv(db) && CurrentWithoutKey(db) == {}
    ensures CurrentWithoutKey(Exec(db, tx).db) == {} <==> !StrandsKeyBlob(db, tx)
  {
    var ids := ClientKeysIn(db.keys, tx.domain, tx.nspace);
    var r := RemoveKeys(db, ids);
    RemoveKeysStrands(db, ids);
    SameViewStrandsSame(r, r.(grants := DropReceivedGrants(r.grants, tx.nspace)));
  }

  lemma SettingStrands(db: Db, tx: Tx)
    requires tx.SetBlob? || tx.SetDeletedBlob?
    requires BlobInv(db) && UNASSIGNED_KEY_ID !in db.keys && Admissible(db, tx) && CurrentWithoutKey(db) == {}
    ensures CurrentWithoutKey(Exec(db, tx).db) == {} <==> !StrandsKeyBlob(db, tx)
  {
    match tx
    case SetBlob(keyId, sc, blob, meta) =>
      if blob.Some? { InsertBlobStrands(db, keyId, sc, blob.value, meta); } else { DeleteComponentStrandsNone(db, keyId, sc); }
    case SetDeletedBlob(blob, meta) => InsertBlobStrands(db, UNASSIGNED_KEY_ID, KeyBlob, blob, Some(meta));
  }

  lemma KeyUpdatesStrandNone(db: Db, tx: Tx)
    requires tx.MigrateKey? || tx.AddGrant? || tx.RemoveGrant? || tx.CleanupLeftovers?
    requires CurrentWithoutKey(db) == {}
    ensures CurrentWithoutKey(Exec(db, tx).db) == {} && !StrandsKeyBlob(db, tx)
  {
    assert Exec(db, tx).db.keys.Keys == db.keys.Keys;
    SameViewStrandsSame(db, Exec(db, tx).db);
  }

  lemma StrandsExactly(db: Db, tx: Tx)
    requires BlobInv(db) && UNASSIGNED_KEY_ID !in db.keys && Admissible(db, tx) && CurrentWithoutKey(db) == {}
    ensures CurrentWithoutKey(Exec(db, tx).db) == {} <==> !StrandsKeyBlob(db, tx)
  {
    if tx.StoreNewKey? || tx.StoreNewCertificate? || tx.StoreSuperKey? {
      StoringStrandsNone(db, tx);
    } else if tx.SetBlob? || tx.SetDeletedBlob? {
      SettingStrands(db, tx);
    } else if tx.UnbindNamespace? {
      NamespaceStrands(db, tx);
    } else if tx.UnbindKey? || tx.UseKey? || tx.UnbindUser? || tx.UnbindAuthBound? {
      MarkingStrandsNone(db, tx);
    } else {
      KeyUpdatesStrandNone(db, tx);
    }
  }

  /**
   * If the two tests agree before a client's transaction, they agree after it unless the transaction
   * strands a key blob; and then they do not agree.
   */
  lemma TestsStayEqual(db: Db, tx: Tx)
    requires BlobInv(db) && UNASSIGNED_KEY_ID !in db.keys && Admissible(db, tx) && TestsAgree(db)
    ensures TestsAgree(Exec(db, tx).db) <==> !StrandsKeyBlob(db, tx)
  {
    StateTestWithinIdTest(db);
    StrandsExactly(db, tx);
    TxKeepsBlobs(db, tx);
    StateTestWithinIdTest(Exec(db, tx).db);
  }

  // ---------- Why ids must not be reused, and certificates must not have metadata ----------

  /** What storing a certificate-only entry does to the rows that matter here. */
  lemma StoredCertificateEffect(db: Db, tx: Tx)
    requires tx.StoreNewCertificate? && Storable(tx.key) && Unused(db, tx.id)
    ensures var r := Exec(db, tx).db; var id := NextRowId(db.blobs.Keys);
      && r.keys.Keys == db.keys.Keys + {tx.id} && r.blobs.Keys == db.blobs.Keys + {id} && r.blobs[id].sc == CertChain
      && forall i :: i in db.blobs ==> SameComponent(r.blobs[i], db.blobs[i])
  {
    var created := CreateKeyEntry(db, tx.id, tx.key.domain, tx.key.nspace, tx.keyType, tx.kmUuid);
    var stored := StoredCertificate(db, tx);
    var evicted := EvictAlias(stored.keys, tx.key.domain, tx.key.nspace, tx.key.alias.value, tx.keyType);
    assert evicted[tx.id] == created.keys[tx.id];
    assert Exec(db, tx).db.blobs == stored.blobs;
  }

  lemma NewCertificateKeepsLatest(a: map<int, BlobRow>, b: map<int, BlobRow>, id: int, i: int)
    requires b.Keys == a.Keys + {id} && id !in a && b[id].sc == CertChain && i in a && a[i].sc == KeyBlob
    requires forall j :: j in a ==> SameComponent(b[j], a[j])
    ensures IsLatest(b, i) <==> IsLatest(a, i)
  {
    forall j | j in a ensures SameComponent(b[j], b[i]) <==> SameComponent(a[j], a[i]) {}
    assert forall j :: j in b <==> j in a || j == id by { assert forall j :: j in b <==> j in b.Keys; }
  }

  /**
   * A certificate-only entry under a new id leaves every out-of-date key blob out of date exactly
   * when no key blob row carries that id. The code only checks that no key entry carries it.
   */
  lemma ReusedIdRevives(db: Db, tx: Tx)
    requires tx.StoreNewCertificate? && Storable(tx.key) && Unused(db, tx.id)
    ensures
      (forall i :: i in OutOfDateKeyBlobs(db, false) ==> OutOfDateById(Exec(db, tx).db, i))
      <==> !HasKeyBlob(db, {tx.id})
  {
    var r := Exec(db, tx).db;
    StoredCertificateEffect(db, tx);
    forall i | i in db.blobs && db.blobs[i].sc == KeyBlob ensures IsLatest(r.blobs, i) <==> IsLatest(db.blobs, i) {
      NewCertificateKeepsLatest(db.blobs, r.blobs, NextRowId(db.blobs.Keys), i);
    }
    assert forall k :: k in r.keys <==> k in db.keys || k == tx.id by { assert forall k :: k in r.keys <==> k in r.keys.Keys; }
    if HasKeyBlob(db, {tx.id}) {
      var latest := LatestRow(db.blobs, tx.id, KeyBlob).value;
      assert latest in OutOfDateKeyBlobs(db, false) && !OutOfDateById(r, latest);
    } else {
      forall i | i in OutOfDateKeyBlobs(db, false) ensures OutOfDateById(r, i) {
        assert i in r.blobs by { assert i in r.blobs.Keys; }
      }
    }
  }

  /** Metadata of a removed certificate row is inherited by the key blob that gets its row id. */
  lemma CertificateMetadataLeaks(keyId: int, cert: Bytes, blob: Bytes, certMeta: Meta, blobMeta: Meta)
    ensures
      var withCert := Exec(EMPTY_DB, SetBlob(keyId, Cert, Some(cert), Some(certMeta))).db;
      var without := Exec(withCert, SetBlob(keyId, Cert, None, None)).db;
      var withKey := Exec(without, SetBlob(keyId, KeyBlob, Some(blob), Some(blobMeta))).db;
      && without.blobs.Keys == {}
      && withKey.blobs.Keys == {1} && withKey.blobs[1] == BlobRow(KeyBlob, keyId, blob, Current)
      && MetaOf(withKey.blobMeta, 1) == certMeta + blobMeta
  {
    var withCert := Exec(EMPTY_DB, SetBlob(keyId, Cert, Some(cert), Some(certMeta))).db;
    assert EMPTY_DB.blobs.Keys == {};
    assert withCert.blobs.Keys == {1} && withCert.blobs[1] == BlobRow(Cert, keyId, cert, Current);
    assert map[] + certMeta == certMeta;
    var without := Exec(withCert, SetBlob(keyId, Cert, None, None)).db;
    assert forall i :: i in withCert.blobs ==> i in withCert.blobs.Keys;
    assert without.blobs.Keys == {};
  }
}
