/**
 * What super keys load as, where a migrated key is found, and what grants come to, told from the rows
 * and from what lookups answer.
 */
module MovesAndGrants {
  import opened Tables
  import opened Transactions
  import opened BlobRows
  import opened References
  import opened StoreLoad
  import opened Lookups

  // ---------- Super keys ----------

  lemma SuperKeyComponents(db: Db, tx: Tx, k: int, c: SubComponent)
    requires tx.StoreSuperKey? && BlobInv(db) && Admissible(db, tx)
    ensures Component(Exec(db, tx).db, k, c) ==
      if k != tx.id then Component(db, k, c) else if c == KeyBlob then Some((tx.blob, tx.meta)) else None
  {
    var row := KeyRow(Super, Some(App), Some(tx.user), Some(tx.superAlias), Live, tx.kmUuid);
    var created := InsertKeyMeta(db.(keys := db.keys[tx.id := row]), tx.id, tx.keyMeta);
    NoRowsNoComponent(db, tx.id, c);
    SameComponents(created, db, k, c);
    InsertedBlobLoads(created, tx.id, KeyBlob, tx.blob, Some(tx.meta), k, c);
  }

  lemma SuperKeyRow(db: Db, tx: Tx, k: int)
    requires tx.StoreSuperKey? && KeyInv(db) && Admissible(db, tx) && (k == tx.id || k in db.keys)
    ensures var r := Exec(db, tx).db;
      && k in r.keys && r.keys[k] == (if k == tx.id then KeyRow(Super, Some(App), Some(tx.user), Some(tx.superAlias), Live, tx.kmUuid) else db.keys[k])
      && ParamsOf(r.params, k) == (if k == tx.id then [] else ParamsOf(db.params, k))
      && MetaOf(r.keyMeta, k) == (if k == tx.id then tx.keyMeta else MetaOf(db.keyMeta, k))
  {
    assert tx.id !in db.keyMeta && tx.id !in db.params;
    assert map[] + tx.keyMeta == tx.keyMeta;
  }

  /** A super key loads with the blob and the metadata it was stored with, and every other key as before. */
  lemma StoredSuperKeyLoads(db: Db, tx: Tx, k: int)
    requires tx.StoreSuperKey? && KeyInv(db) && BlobInv(db) && Admissible(db, tx) && (k == tx.id || k in db.keys)
    ensures LoadKeyComponents(Exec(db, tx).db, k) ==
      if k != tx.id then LoadKeyComponents(db, k)
      else Ok(KeyEntry(tx.id, Some((tx.blob, tx.meta)), None, None, tx.kmUuid, [], tx.keyMeta))
  {
    SuperKeyComponents(db, tx, k, KeyBlob);
    SuperKeyComponents(db, tx, k, Cert);
    SuperKeyComponents(db, tx, k, CertChain);
    SuperKeyRow(db, tx, k);
    LoadedFrom(Exec(db, tx).db, k);
    if k != tx.id {
      SameLoad(Exec(db, tx).db, db, k);
    }
  }

  /** It is found under its user and alias exactly if it is the only one there. */
  lemma StoredSuperKeyFound(db: Db, tx: Tx, blob: Option<Bytes>)
    requires tx.StoreSuperKey? && Admissible(db, tx)
    ensures LoadKeyEntryId(Exec(db, tx).db, Descriptor(App, tx.user, Some(tx.superAlias), blob), Super) == Ok(tx.id) <==>
      forall k :: !IsAt(db, k, Super, App, tx.user, tx.superAlias)
  {
    var r := Exec(db, tx).db;
    assert r.keys == db.keys[tx.id := KeyRow(Super, Some(App), Some(tx.user), Some(tx.superAlias), Live, tx.kmUuid)];
    assert forall k :: IsAt(r, k, Super, App, tx.user, tx.superAlias) <==> k == tx.id || IsAt(db, k, Super, App, tx.user, tx.superAlias);
    LocationResolves(r, Descriptor(App, tx.user, Some(tx.superAlias), blob), Super, tx.id);
  }

  // ---------- Moving a key ----------

  /** An entry of any type and state stands there. */
  ghost predicate Taken(db: Db, domain: Domain, nspace: int, alias: Alias) {
    exists k :: k in db.keys && db.keys[k].domain == Some(domain) && db.keys[k].nspace == Some(nspace) && db.keys[k].alias == Some(alias)
  }

  /** Where a key is asked to go: apps cannot name another app's namespace. */
  ghost predicate Goes(destination: Descriptor, caller: int, domain: Domain, nspace: int, alias: Alias) {
    && destination.domain == domain && destination.alias == Some(alias)
    && ((domain == App && nspace == caller) || (domain == SELinux && nspace == destination.nspace))
  }

  ghost predicate CanGo(db: Db, destination: Descriptor, caller: int) {
    exists domain, nspace, alias :: Goes(destination, caller, domain, nspace, alias) && !Taken(db, domain, nspace, alias)
  }

  /** A key moves exactly if the caller may, it exists, and its destination is a location where nothing stands. */
  lemma MovesExactly(db: Db, keyId: int, destination: Descriptor, caller: int, permitted: bool)
    ensures var r := Exec(db, MigrateKey(keyId, destination, caller, permitted));
      && (r.result == Ok(keyId) <==> permitted && keyId in db.keys && CanGo(db, destination, caller))
      && (r.result.Ok? ==> r.result.value == keyId) && (r.result.Err? ==> r.db == db)
  {
    var dest := Relocated(destination, caller);
    if (dest.domain == App || dest.domain == SELinux) && dest.alias.Some? {
      assert Goes(destination, caller, dest.domain, dest.nspace, dest.alias.value);
    }
  }

  lemma MovedRow(db: Db, keyId: int, destination: Descriptor, caller: int, permitted: bool, domain: Domain, nspace: int, alias: Alias)
    requires Goes(destination, caller, domain, nspace, alias) && Exec(db, MigrateKey(keyId, destination, caller, permitted)).result.Ok?
    ensures var r := Exec(db, MigrateKey(keyId, destination, caller, permitted)).db;
      && keyId in db.keys && r == db.(keys := r.keys) && r.keys.Keys == db.keys.Keys
      && r.keys[keyId] == db.keys[keyId].(domain := Some(domain), nspace := Some(nspace), alias := Some(alias))
      && (forall k :: k in db.keys && k != keyId ==> r.keys[k] == db.keys[k])
      && !Taken(db, domain, nspace, alias)
  {
  }

  /** A live client key that was moved is found at its destination and not where it was; all else is found and loads as before. */
  lemma MovedKeyFound(db: Db, keyId: int, destination: Descriptor, caller: int, permitted: bool, domain: Domain, nspace: int, alias: Alias, key: Descriptor)
    requires KeyInv(db) && keyId in db.keys && LiveClient(db.keys[keyId]) && key.alias.Some?
    requires Goes(destination, caller, domain, nspace, alias) && Exec(db, MigrateKey(keyId, destination, caller, permitted)).result.Ok?
    ensures var r := Exec(db, MigrateKey(keyId, destination, caller, permitted)).db;
      && LoadKeyEntryId(r, key, Client) == (
           if key.domain == domain && key.nspace == nspace && key.alias == Some(alias) then Ok(keyId)
           else if LoadKeyEntryId(db, key, Client) == Ok(keyId) then Err(KeyNotFound)
           else LoadKeyEntryId(db, key, Client))
      && (forall k :: LoadKeyComponents(r, k) == LoadKeyComponents(db, k))
  {
    var r := Exec(db, MigrateKey(keyId, destination, caller, permitted)).db;
    MovedRow(db, keyId, destination, caller, permitted, domain, nspace, alias);
    TxKeepsKeyRules(db, MigrateKey(keyId, destination, caller, permitted));
    assert forall k :: k in r.keys <==> k in db.keys by { assert forall k :: k in r.keys <==> k in r.keys.Keys; }
    forall k ensures LoadKeyEntryId(r, key, Client) == Ok(k) <==> IsAt(r, k, Client, key.domain, key.nspace, key.alias.value) {
      ClientLocationResolves(r, key, k);
    }
    forall k ensures LoadKeyEntryId(db, key, Client) == Ok(k) <==> IsAt(db, k, Client, key.domain, key.nspace, key.alias.value) {
      ClientLocationResolves(db, key, k);
    }
    ClientLocationResolves(r, key, keyId);
    ClientLocationResolves(db, key, keyId);
  }

  // ---------- Grants ----------

  /** The key that the caller's descriptor finds, or why it finds none. */
  ghost predicate Refuses(db: Db, key: Descriptor, caller: int, permitted: bool, r: Commit) {
    var access := LoadAccessTuple(db, key, Client, caller);
    (access.Err? && r == Commit(db, Err(access.error), false)) || (access.Ok? && !permitted && r == Commit(db, Err(PermissionDenied), false))
  }

  ghost predicate IsGrant(db: Db, g: int, k: int, grantee: int) {
    g in db.grants && db.grants[g].keyId == k && db.grants[g].grantee == grantee
  }

  /**
   * Granting a key: the grantee, and nobody else, finds the key by the grant that is returned, with
   * the vector that was given. That is the grantee's old grant on the key, if there was one. Other
   * grants, and all keys, are as before.
   */
  lemma GrantGiven(db: Db, id: int, key: Descriptor, caller: int, grantee: int, vector: int, permitted: bool, who: int)
    requires KeyInv(db) && Admissible(db, AddGrant(id, key, caller, grantee, vector, permitted))
    ensures var r := Exec(db, AddGrant(id, key, caller, grantee, vector, permitted)); var access := LoadAccessTuple(db, key, Client, caller);
      if access.Err? || !permitted then Refuses(db, key, caller, permitted, r) else
        var k := access.value.keyId;
        && r.result.Ok? && r.db == db.(grants := r.db.grants)
        && var g := r.result.value; var named := Descriptor(Grant, g, None, None);
           && LoadAccessTuple(r.db, named, Client, who) == (if who == grantee then Ok(Access(k, named, Some(vector))) else Err(KeyNotFound))
           && (forall h :: IsGrant(db, h, k, grantee) ==> h == g) && (g == id || IsGrant(db, g, k, grantee))
           && (forall h :: h in r.db.grants <==> h == g || h in db.grants) && (forall h :: h in db.grants && h != g ==> r.db.grants[h] == db.grants[h])
  {
    var access := LoadAccessTuple(db, key, Client, caller);
    if access.Ok? {
      AccessIsLive(db, key, Client, caller);
      var existing := GrantsFor(db.grants, access.value.keyId, grantee);
      assert forall h :: h in existing <==> IsGrant(db, h, access.value.keyId, grantee);
      forall h | h in existing ensures h == Least(existing) {
        assert SameGrant(db.grants[h], db.grants[Least(existing)]);
      }
    }
  }

  /** Taking a grant back: exactly the grants of that key to that grantee are gone, and no longer resolve. */
  lemma GrantTaken(db: Db, key: Descriptor, caller: int, grantee: int, permitted: bool, g: int, who: int)
    requires KeyInv(db)
    ensures var r := Exec(db, RemoveGrant(key, caller, grantee, permitted)); var access := LoadAccessTuple(db, key, Client, caller);
      if access.Err? || !permitted then Refuses(db, key, caller, permitted, r) else
        var k := access.value.keyId; var named := Descriptor(Grant, g, None, None);
        && r.result == Ok(k) && r.db == db.(grants := r.db.grants)
        && (g in r.db.grants <==> g in db.grants && !IsGrant(db, g, k, grantee)) && (g in r.db.grants ==> r.db.grants[g] == db.grants[g])
        && LoadAccessTuple(r.db, named, Client, who) == if IsGrant(db, g, k, grantee) then Err(KeyNotFound) else LoadAccessTuple(db, named, Client, who)
  {
  }

  // ---------- Leftovers of a crash ----------

  /** Entries that were never bound to a location become unreferenced at start-up; all else is as before. */
  lemma LeftoversMarked(db: Db, k: int)
    ensures var r := Exec(db, CleanupLeftovers);
      && r.result.Ok? && r.needGc && r.db == db.(keys := r.db.keys) && (k in r.db.keys <==> k in db.keys)
      && (k in db.keys ==> r.db.keys[k] == if db.keys[k].state == Existing then db.keys[k].(state := Unreferenced) else db.keys[k])
      && LoadKeyComponents(r.db, k) == LoadKeyComponents(db, k)
  {
  }
}
