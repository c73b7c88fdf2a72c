/**
 * What is stored is what is loaded: a key comes back from the database with the components, the
 * parameters and the metadata it was stored with, and storing one component leaves the rest alone.
 */
module StoreLoad {
  import opened Tables
  import opened Transactions
  import opened BlobRows
  import opened References

  /** One component of a key as load_key_components reads it, with its metadata. */
  function Component(db: Db, keyId: int, sc: SubComponent): Option<(Bytes, Meta)> {
    match LatestRow(db.blobs, keyId, sc)
    case None => None
    case Some(i) => Some((db.blobs[i].blob, MetaOf(db.blobMeta, i)))
  }

  lemma LatestRowIs(blobs: map<int, BlobRow>, i: int)
    requires IsLatest(blobs, i)
    ensures LatestRow(blobs, blobs[i].keyId, blobs[i].sc) == Some(i)
  {
    var r := LatestRow(blobs, blobs[i].keyId, blobs[i].sc);
    assert SameComponent(blobs[i], blobs[r.value]);
  }

  /** `b` is `a` with one new row, newer than all others; rows keep their content and their metadata. */
  ghost predicate Inserted(a: Db, b: Db, id: int, keyId: int, sc: SubComponent, blob: Bytes, meta: Meta) {
    && (forall i :: i in b.blobs <==> i == id || i in a.blobs)
    && (forall i :: i in a.blobs ==>
         i < id && SameComponent(b.blobs[i], a.blobs[i]) && b.blobs[i].blob == a.blobs[i].blob
         && MetaOf(b.blobMeta, i) == MetaOf(a.blobMeta, i))
    && b.blobs[id].keyId == keyId && b.blobs[id].sc == sc && b.blobs[id].blob == blob && MetaOf(b.blobMeta, id) == meta
  }

  lemma InsertBlobInserts(db: Db, keyId: int, sc: SubComponent, blob: Bytes, meta: Option<Meta>)
    requires MetaOfKeyBlobs(db)
    ensures Inserted(db, InsertBlob(db, keyId, sc, blob, meta), NextRowId(db.blobs.Keys), keyId, sc, blob,
                     if meta.Some? then meta.value else map[])
  {
    var id := NextRowId(db.blobs.Keys);
    assert id !in db.blobs && id !in db.blobMeta;
    assert meta.Some? ==> map[] + meta.value == meta.value;
  }

  lemma InsertedLoads(a: Db, b: Db, id: int, keyId: int, sc: SubComponent, blob: Bytes, meta: Meta, k: int, c: SubComponent)
    requires Inserted(a, b, id, keyId, sc, blob, meta)
    ensures Component(b, k, c) == if k == keyId && c == sc then Some((blob, meta)) else Component(a, k, c)
  {
    if k == keyId && c == sc {
      assert IsLatest(b.blobs, id);
      LatestRowIs(b.blobs, id);
    } else if LatestRow(a.blobs, k, c).Some? {
      var i := LatestRow(a.blobs, k, c).value;
      forall j | j in b.blobs && SameComponent(b.blobs[j], b.blobs[i]) ensures j <= i {
        assert j != id;
        assert SameComponent(a.blobs[j], a.blobs[i]);
      }
      assert IsLatest(b.blobs, i);
      LatestRowIs(b.blobs, i);
    } else {
      assert forall i :: i in b.blobs ==> !(b.blobs[i].keyId == k && b.blobs[i].sc == c);
    }
  }

  /** An inserted blob is the one that is loaded, and no other component of any key changes. */
  lemma InsertedBlobLoads(db: Db, keyId: int, sc: SubComponent, blob: Bytes, meta: Option<Meta>, k: int, c: SubComponent)
    requires MetaOfKeyBlobs(db)
    ensures Component(InsertBlob(db, keyId, sc, blob, meta), k, c) ==
      if k == keyId && c == sc then Some((blob, if meta.Some? then meta.value else map[])) else Component(db, k, c)
  {
    InsertBlobInserts(db, keyId, sc, blob, meta);
    InsertedLoads(db, InsertBlob(db, keyId, sc, blob, meta), NextRowId(db.blobs.Keys), keyId, sc, blob,
                  if meta.Some? then meta.value else map[], k, c);
  }

  lemma InsertedBlobKeepsMeta(db: Db, keyId: int, sc: SubComponent, blob: Bytes, meta: Option<Meta>)
    requires MetaOfKeyBlobs(db) && (sc == KeyBlob || meta.None?)
    ensures MetaOfKeyBlobs(InsertBlob(db, keyId, sc, blob, meta))
  {
    var r := InsertBlob(db, keyId, sc, blob, meta);
    assert forall i :: i in db.blobs ==> i in r.blobs && r.blobs[i].sc == db.blobs[i].sc;
  }

  lemma InsertedOptionalLoads(db: Db, keyId: int, sc: SubComponent, blob: Option<Bytes>, k: int, c: SubComponent)
    requires MetaOfKeyBlobs(db) && Component(db, keyId, sc).None?
    ensures Component(InsertOptional(db, keyId, sc, blob), k, c) ==
      if k == keyId && c == sc && blob.Some? then Some((blob.value, map[])) else Component(db, k, c)
    ensures MetaOfKeyBlobs(InsertOptional(db, keyId, sc, blob))
  {
    if blob.Some? {
      InsertedBlobLoads(db, keyId, sc, blob.value, None, k, c);
      InsertedBlobKeepsMeta(db, keyId, sc, blob.value, None);
    }
  }

  lemma NoRowsNoComponent(db: Db, keyId: int, sc: SubComponent)
    requires NoLeftBehindBlobs(db, keyId)
    ensures Component(db, keyId, sc).None?
  {
  }

  function JustBlob(c: Option<(Bytes, Meta)>): Option<Bytes> {
    match c case None => None case Some((b, _)) => Some(b)
  }

  /** The database once all blobs of a new key are inserted. */
  function WithBlobs(db: Db, tx: Tx): Db
    requires tx.StoreNewKey?
  {
    var created := CreateKeyEntry(db, tx.id, tx.key.domain, tx.key.nspace, tx.keyType, tx.kmUuid);
    var prior := match tx.superseded
      case None => created
      case Some((b, m)) => InsertBlob(created, tx.id, KeyBlob, b, Some(m));
    var current := InsertBlob(prior, tx.id, KeyBlob, tx.blob, Some(tx.meta));
    InsertOptional(InsertOptional(current, tx.id, Cert, tx.cert), tx.id, CertChain, tx.certChain)
  }

  function AsComponent(b: Option<Bytes>): Option<(Bytes, Meta)> {
    match b case None => None case Some(v) => Some((v, map[]))
  }

  lemma StoredBlobsLoad(db: Db, tx: Tx, k: int, c: SubComponent)
    requires tx.StoreNewKey? && MetaOfKeyBlobs(db) && NoLeftBehindBlobs(db, tx.id)
    ensures Component(WithBlobs(db, tx), k, c) ==
      if k != tx.id then Component(db, k, c)
      else match c
        case KeyBlob => Some((tx.blob, tx.meta))
        case Cert => AsComponent(tx.cert)
        case CertChain => AsComponent(tx.certChain)
  {
    var created := CreateKeyEntry(db, tx.id, tx.key.domain, tx.key.nspace, tx.keyType, tx.kmUuid);
    assert MetaOfKeyBlobs(created) && Component(created, k, c) == Component(db, k, c);
    NoRowsNoComponent(created, tx.id, Cert);
    NoRowsNoComponent(created, tx.id, CertChain);
    var prior := match tx.superseded
      case None => created
      case Some((b, m)) => InsertBlob(created, tx.id, KeyBlob, b, Some(m));
    if tx.superseded.Some? {
      var (b, m) := tx.superseded.value;
      InsertedBlobKeepsMeta(created, tx.id, KeyBlob, b, Some(m));
      InsertedBlobLoads(created, tx.id, KeyBlob, b, Some(m), k, c);
      InsertedBlobLoads(created, tx.id, KeyBlob, b, Some(m), tx.id, Cert);
      InsertedBlobLoads(created, tx.id, KeyBlob, b, Some(m), tx.id, CertChain);
    }
    var current := InsertBlob(prior, tx.id, KeyBlob, tx.blob, Some(tx.meta));
    InsertedBlobKeepsMeta(prior, tx.id, KeyBlob, tx.blob, Some(tx.meta));
    InsertedBlobLoads(prior, tx.id, KeyBlob, tx.blob, Some(tx.meta), k, c);
    InsertedBlobLoads(prior, tx.id, KeyBlob, tx.blob, Some(tx.meta), tx.id, Cert);
    InsertedBlobLoads(prior, tx.id, KeyBlob, tx.blob, Some(tx.meta), tx.id, CertChain);
    var withCert := InsertOptional(current, tx.id, Cert, tx.cert);
    InsertedOptionalLoads(current, tx.id, Cert, tx.cert, k, c);
    InsertedOptionalLoads(current, tx.id, Cert, tx.cert, tx.id, CertChain);
    InsertedOptionalLoads(withCert, tx.id, CertChain, tx.certChain, k, c);
  }

  lemma LoadedFrom(db: Db, keyId: int)
    requires keyId in db.keys
    ensures LoadKeyComponents(db, keyId) == Ok(KeyEntry(
      keyId, Component(db, keyId, KeyBlob), JustBlob(Component(db, keyId, Cert)), JustBlob(Component(db, keyId, CertChain)),
      db.keys[keyId].kmUuid, ParamsOf(db.params, keyId), MetaOf(db.keyMeta, keyId)))
  {
  }

  lemma SameLoad(a: Db, b: Db, k: int)
    requires k in a.keys && k in b.keys && a.keys[k] == b.keys[k]
    requires ParamsOf(a.params, k) == ParamsOf(b.params, k) && MetaOf(a.keyMeta, k) == MetaOf(b.keyMeta, k)
    requires forall c: SubComponent :: c in {KeyBlob, Cert, CertChain} ==> Component(a, k, c) == Component(b, k, c)
    ensures LoadKeyComponents(a, k) == LoadKeyComponents(b, k)
  {
    LoadedFrom(a, k);
    LoadedFrom(b, k);
  }

  /** Two states that load the same blobs for a key. */
  ghost predicate SameBlobs(a: Db, b: Db) {
    a.blobs == b.blobs && a.blobMeta == b.blobMeta
  }

  lemma RebindLoads(db: Db, id: int, key: Descriptor, keyType: KeyType, k: int)
    requires key.alias.Some? && RebindAlias(db, id, key, keyType).Ok? && k in db.keys
    ensures LoadKeyComponents(RebindAlias(db, id, key, keyType).value, k) == LoadKeyComponents(db, k)
  {
  }

  lemma SameComponents(a: Db, b: Db, k: int, c: SubComponent)
    requires SameBlobs(a, b)
    ensures Component(a, k, c) == Component(b, k, c)
  {
  }

  ghost predicate SameOtherRows(a: Db, b: Db) {
    a.keys == b.keys && a.params == b.params && a.keyMeta == b.keyMeta
  }

  lemma InsertLeavesRows(db: Db, keyId: int, sc: SubComponent, blob: Option<Bytes>, meta: Option<Meta>)
    ensures blob.Some? ==> SameOtherRows(db, InsertBlob(db, keyId, sc, blob.value, meta))
    ensures SameOtherRows(db, InsertOptional(db, keyId, sc, blob))
  {
  }

  lemma BlobsLeaveRows(db: Db, tx: Tx)
    requires tx.StoreNewKey?
    ensures SameOtherRows(CreateKeyEntry(db, tx.id, tx.key.domain, tx.key.nspace, tx.keyType, tx.kmUuid), WithBlobs(db, tx))
  {
    var created := CreateKeyEntry(db, tx.id, tx.key.domain, tx.key.nspace, tx.keyType, tx.kmUuid);
    var prior := match tx.superseded
      case None => created
      case Some((b, m)) => InsertBlob(created, tx.id, KeyBlob, b, Some(m));
    if tx.superseded.Some? {
      InsertLeavesRows(created, tx.id, KeyBlob, Some(tx.superseded.value.0), Some(tx.superseded.value.1));
    }
    var current := InsertBlob(prior, tx.id, KeyBlob, tx.blob, Some(tx.meta));
    InsertLeavesRows(prior, tx.id, KeyBlob, Some(tx.blob), Some(tx.meta));
    InsertLeavesRows(current, tx.id, Cert, tx.cert, None);
    InsertLeavesRows(InsertOptional(current, tx.id, Cert, tx.cert), tx.id, CertChain, tx.certChain, None);
  }

  lemma ParamsAndMetaAdded(b: Db, id: int, params: seq<Param>, meta: Meta, k: int)
    requires k == id ==> id !in b.params && id !in b.keyMeta
    ensures var r := InsertKeyMeta(InsertParams(b, id, params), id, meta);
      && r.keys == b.keys && SameBlobs(r, b)
      && ParamsOf(r.params, k) == (if k == id then params else ParamsOf(b.params, k))
      && MetaOf(r.keyMeta, k) == (if k == id then meta else MetaOf(b.keyMeta, k))
  {
    assert map[] + meta == meta;
    assert [] + params == params;
  }

  lemma StoredBlobsAlone(db: Db, tx: Tx, k: int)
    requires tx.StoreNewKey? && MetaOfKeyBlobs(db) && NoLeftBehindBlobs(db, tx.id)
    ensures k != tx.id ==> forall c :: Component(WithBlobs(db, tx), k, c) == Component(db, k, c)
    ensures Component(WithBlobs(db, tx), tx.id, KeyBlob) == Some((tx.blob, tx.meta))
    ensures JustBlob(Component(WithBlobs(db, tx), tx.id, Cert)) == tx.cert
    ensures JustBlob(Component(WithBlobs(db, tx), tx.id, CertChain)) == tx.certChain
  {
    forall c: SubComponent ensures k != tx.id ==> Component(WithBlobs(db, tx), k, c) == Component(db, k, c) {
      StoredBlobsLoad(db, tx, k, c);
    }
    StoredBlobsLoad(db, tx, tx.id, KeyBlob);
    StoredBlobsLoad(db, tx, tx.id, Cert);
    StoredBlobsLoad(db, tx, tx.id, CertChain);
  }

  lemma StoredComponentsLoad(db: Db, tx: Tx, k: int)
    requires tx.StoreNewKey? && KeyInv(db) && BlobInv(db) && Admissible(db, tx) && (k == tx.id || k in db.keys)
    ensures LoadKeyComponents(StoredComponents(db, tx), k) ==
      if k != tx.id then LoadKeyComponents(db, k)
      else Ok(KeyEntry(tx.id, Some((tx.blob, tx.meta)), tx.cert, tx.certChain, tx.kmUuid, tx.params, tx.keyMeta))
  {
    var b := WithBlobs(db, tx);
    BlobsLeaveRows(db, tx);
    StoredBlobsAlone(db, tx, k);
    ParamsAndMetaAdded(b, tx.id, tx.params, tx.keyMeta, k);
    var stored := InsertKeyMeta(InsertParams(b, tx.id, tx.params), tx.id, tx.keyMeta);
    forall c: SubComponent ensures Component(stored, k, c) == Component(b, k, c) { SameComponents(stored, b, k, c); }
    LoadedFrom(stored, k);
    if k != tx.id { LoadedFrom(db, k); }
    assert StoredComponents(db, tx) == stored;
  }

  /**
   * A key that was stored under a location loads from it with everything it was stored with. Every
   * other key loads as before, the one that loses its location included.
   */
  lemma StoredKeyLoads(db: Db, tx: Tx)
    requires tx.StoreNewKey? && tx.keyType == Client && Storable(tx.key)
    requires KeyInv(db) && BlobInv(db) && Admissible(db, tx)
    ensures var r := Exec(db, tx).db;
      && LoadKeyEntryId(r, tx.key, Client) == Ok(tx.id)
      && LoadKeyComponents(r, tx.id) == Ok(KeyEntry(
           tx.id, Some((tx.blob, tx.meta)), tx.cert, tx.certChain, tx.kmUuid, tx.params, tx.keyMeta))
      && (forall k :: k in db.keys ==> LoadKeyComponents(r, k) == LoadKeyComponents(db, k))
  {
    StoreBindsLocation(db, tx);
    StoredComponentsLoad(db, tx, tx.id);
    RebindLoads(StoredComponents(db, tx), tx.id, tx.key, tx.keyType, tx.id);
    forall k | k in db.keys ensures LoadKeyComponents(Exec(db, tx).db, k) == LoadKeyComponents(db, k) {
      StoredComponentsLoad(db, tx, k);
      RebindLoads(StoredComponents(db, tx), tx.id, tx.key, tx.keyType, k);
    }
  }

  lemma StoredCertificateComponent(db: Db, tx: Tx, k: int, c: SubComponent)
    requires tx.StoreNewCertificate? && BlobInv(db) && Admissible(db, tx)
    ensures Component(StoredCertificate(db, tx), k, c) ==
      if k != tx.id then Component(db, k, c) else if c == CertChain then Some((tx.chain, map[])) else None
  {
    var created := CreateKeyEntry(db, tx.id, tx.key.domain, tx.key.nspace, tx.keyType, tx.kmUuid);
    assert SameBlobs(created, db);
    NoRowsNoComponent(created, tx.id, c);
    SameComponents(created, db, k, c);
    InsertedBlobLoads(created, tx.id, CertChain, tx.chain, None, k, c);
    SameComponents(StoredCertificate(db, tx), InsertBlob(created, tx.id, CertChain, tx.chain, None), k, c);
  }

  lemma StoredCertificateRows(db: Db, tx: Tx)
    requires tx.StoreNewCertificate? && KeyInv(db) && BlobInv(db) && Admissible(db, tx)
    ensures LoadKeyComponents(StoredCertificate(db, tx), tx.id) ==
      Ok(KeyEntry(tx.id, None, None, Some(tx.chain), tx.kmUuid, [], tx.keyMeta))
  {
    StoredCertificateComponent(db, tx, tx.id, KeyBlob);
    StoredCertificateComponent(db, tx, tx.id, Cert);
    StoredCertificateComponent(db, tx, tx.id, CertChain);
    assert map[] + tx.keyMeta == tx.keyMeta;
    LoadedFrom(StoredCertificate(db, tx), tx.id);
  }

  lemma CertificateLeavesRow(db: Db, tx: Tx, k: int)
    requires tx.StoreNewCertificate? && Admissible(db, tx) && k in db.keys
    ensures k != tx.id
    ensures var r := StoredCertificate(db, tx);
      && k in r.keys && r.keys[k] == db.keys[k]
      && ParamsOf(r.params, k) == ParamsOf(db.params, k) && MetaOf(r.keyMeta, k) == MetaOf(db.keyMeta, k)
  {
  }

  lemma StoredCertificateLeaves(db: Db, tx: Tx, k: int)
    requires tx.StoreNewCertificate? && BlobInv(db) && Admissible(db, tx) && k in db.keys
    ensures LoadKeyComponents(StoredCertificate(db, tx), k) == LoadKeyComponents(db, k)
  {
    CertificateLeavesRow(db, tx, k);
    StoredCertificateComponent(db, tx, k, KeyBlob);
    StoredCertificateComponent(db, tx, k, Cert);
    StoredCertificateComponent(db, tx, k, CertChain);
    SameLoad(StoredCertificate(db, tx), db, k);
  }

  lemma CertificateBindsLocation(db: Db, tx: Tx)
    requires tx.StoreNewCertificate? && Storable(tx.key) && tx.keyType == Client
    requires KeyInv(db) && Admissible(db, tx)
    ensures Exec(db, tx).result == Ok(tx.id)
    ensures LoadKeyEntryId(Exec(db, tx).db, tx.key, Client) == Ok(tx.id)
  {
    RebindRules(db, StoredCertificate(db, tx), tx.id, tx.key, tx.keyType, tx.kmUuid);
    RebindEffect(db, StoredCertificate(db, tx), tx.id, tx.key, tx.keyType, tx.kmUuid);
    LocationLookup(Exec(db, tx).db, tx.key, tx.id);
  }

  /**
   * A certificate stored without a key loads as the chain of an entry that has no key blob. Every
   * other key loads as before.
   */
  lemma StoredCertificateLoads(db: Db, tx: Tx)
    requires tx.StoreNewCertificate? && tx.keyType == Client && Storable(tx.key)
    requires KeyInv(db) && BlobInv(db) && Admissible(db, tx)
    ensures var r := Exec(db, tx).db;
      && LoadKeyEntryId(r, tx.key, Client) == Ok(tx.id)
      && LoadKeyComponents(r, tx.id) == Ok(KeyEntry(tx.id, None, None, Some(tx.chain), tx.kmUuid, [], tx.keyMeta))
      && (forall k :: k in db.keys ==> LoadKeyComponents(r, k) == LoadKeyComponents(db, k))
  {
    CertificateBindsLocation(db, tx);
    StoredCertificateRows(db, tx);
    RebindLoads(StoredCertificate(db, tx), tx.id, tx.key, tx.keyType, tx.id);
    forall k | k in db.keys ensures LoadKeyComponents(Exec(db, tx).db, k) == LoadKeyComponents(db, k) {
      StoredCertificateLeaves(db, tx, k);
      RebindLoads(StoredCertificate(db, tx), tx.id, tx.key, tx.keyType, k);
    }
  }

  /** set_blob: the new blob is loaded from then on, and every other component of every key stays. */
  lemma SetBlobLoads(db: Db, tx: Tx, k: int, c: SubComponent)
    requires tx.SetBlob? && tx.newBlob.Some? && Admissible(db, tx) && MetaOfKeyBlobs(db)
    ensures Exec(db, tx).result == Ok(tx.keyId)
    ensures Component(Exec(db, tx).db, k, c) ==
      if k == tx.keyId && c == tx.sc then Some((tx.newBlob.value, if tx.newMeta.Some? then tx.newMeta.value else map[]))
      else Component(db, k, c)
  {
    InsertedBlobLoads(db, tx.keyId, tx.sc, tx.newBlob.value, tx.newMeta, k, c);
  }

  /** A key is stored exactly if its descriptor names an alias of an app or of a namespace, and carries no blob. */
  lemma StoredExactly(db: Db, tx: Tx)
    requires (tx.StoreNewKey? || tx.StoreNewCertificate?) && tx.keyType == Client && KeyInv(db) && Admissible(db, tx)
    ensures Exec(db, tx).result == Ok(tx.id) <==> tx.key.alias.Some? && tx.key.domain in {App, SELinux} && tx.key.blob.None?
    ensures Exec(db, tx).result.Err? ==> Exec(db, tx) == Commit(db, Err(InvalidArgument), false)
  {
    if Storable(tx.key) {
      if tx.StoreNewKey? { StoreBindsLocation(db, tx); } else { CertificateBindsLocation(db, tx); }
    }
  }
}
