/**
 * Whose key a descriptor names, and what it takes to load a key: the rules of load_access_tuple, told
 * from the rows of the tables.
 */
module Lookups {
  import opened Tables
  import opened Transactions
  import opened BlobRows
  import opened References
  import opened StoreLoad

  /** The key is live, of this type and at this location. */
  ghost predicate IsAt(db: Db, k: int, keyType: KeyType, domain: Domain, nspace: int, alias: Alias) {
    k in db.keys &&
    var row := db.keys[k];
    row.keyType == keyType && row.state == Live && row.domain == Some(domain) && row.nspace == Some(nspace) && row.alias == Some(alias)
  }

  /**
   * A location resolves to a key exactly if that is the one live key of the type there. Without any
   * it is not found, and with several the lookup fails.
   */
  lemma LocationResolves(db: Db, key: Descriptor, keyType: KeyType, k: int)
    requires key.alias.Some?
    ensures var r := LoadKeyEntryId(db, key, keyType); var alias := key.alias.value;
      && (r == Ok(k) <==> IsAt(db, k, keyType, key.domain, key.nspace, alias)
                          && forall j :: IsAt(db, j, keyType, key.domain, key.nspace, alias) ==> j == k)
      && (r == Err(KeyNotFound) <==> forall j :: !IsAt(db, j, keyType, key.domain, key.nspace, alias))
      && (r.Err? ==> r.error in {KeyNotFound, System})
  {
    var ids := LiveAt(db.keys, keyType, key.domain, key.nspace, key.alias.value);
    assert forall j :: j in ids <==> IsAt(db, j, keyType, key.domain, key.nspace, key.alias.value);
    if ids != {} {
      assert Least(ids) in ids;
      if forall j :: j in ids ==> j == k {
        assert ids == {k};
      }
    }
  }

  lemma OneClientPerLocation(db: Db, j: int, k: int, domain: Domain, nspace: int, alias: Alias)
    requires KeyInv(db) && IsAt(db, j, Client, domain, nspace, alias) && IsAt(db, k, Client, domain, nspace, alias)
    ensures j == k
  {
    assert Clash(db.keys[j], db.keys[k]);
  }

  /** Under the invariant a location resolves exactly to the live client key there. */
  lemma ClientLocationResolves(db: Db, key: Descriptor, k: int)
    requires KeyInv(db) && key.alias.Some?
    ensures LoadKeyEntryId(db, key, Client) == Ok(k) <==> IsAt(db, k, Client, key.domain, key.nspace, key.alias.value)
    ensures LoadKeyEntryId(db, key, Client).Err? ==> LoadKeyEntryId(db, key, Client) == Err(KeyNotFound)
  {
    LocationResolves(db, key, Client, k);
    forall j | IsAt(db, j, Client, key.domain, key.nspace, key.alias.value)
      ensures LoadKeyEntryId(db, key, Client) == Ok(j)
    {
      forall i | IsAt(db, i, Client, key.domain, key.nspace, key.alias.value) ensures i == j {
        OneClientPerLocation(db, i, j, key.domain, key.nspace, key.alias.value);
      }
      LocationResolves(db, key, Client, j);
    }
  }

  /** A caller finds its own keys, and no others, whatever namespace it asks for. */
  lemma AppFindsOwnKeys(db: Db, key: Descriptor, caller: int, k: int)
    requires KeyInv(db) && key.domain == App
    ensures var r := LoadAccessTuple(db, key, Client, caller);
      && (r.Ok? && r.value.keyId == k <==> key.alias.Some? && IsAt(db, k, Client, App, caller, key.alias.value))
      && (r.Ok? ==> r.value.descriptor == Descriptor(App, caller, key.alias, key.blob) && r.value.vector.None?)
      && (r.Err? ==> r.error == if key.alias.Some? then KeyNotFound else System)
  {
    if key.alias.Some? {
      ClientLocationResolves(db, Descriptor(App, caller, key.alias, key.blob), k);
    }
  }

  /** In a namespace of the policy everybody finds the same key; who may use it is decided afterwards. */
  lemma NamespaceIsShared(db: Db, key: Descriptor, caller: int, k: int)
    requires KeyInv(db) && key.domain == SELinux
    ensures var r := LoadAccessTuple(db, key, Client, caller);
      && (r.Ok? && r.value.keyId == k <==> key.alias.Some? && IsAt(db, k, Client, SELinux, key.nspace, key.alias.value))
      && (r.Ok? ==> r.value.descriptor == key && r.value.vector.None?)
      && (r.Err? ==> r.error == if key.alias.Some? then KeyNotFound else System)
  {
    if key.alias.Some? {
      ClientLocationResolves(db, key, k);
    }
  }

  /** A key id finds the live key, and says whose it is and what the caller was granted, if it is not the owner. */
  lemma KeyIdFindsOwner(db: Db, key: Descriptor, keyType: KeyType, caller: int)
    requires KeyInv(db) && key.domain == KeyId
    ensures var r := LoadAccessTuple(db, key, keyType, caller);
      && (r.Ok? <==> key.nspace in db.keys && db.keys[key.nspace].state == Live)
      && (r.Err? ==> r.error == KeyNotFound)
      && (r.Ok? ==>
           var row := db.keys[key.nspace];
           && r.value.keyId == key.nspace
           && row.domain == Some(r.value.descriptor.domain) && row.nspace == Some(r.value.descriptor.nspace)
           && r.value.descriptor.alias == key.alias && r.value.descriptor.blob == key.blob
           && (row.domain == Some(App) && row.nspace == Some(caller) ==> r.value.vector.None?)
           && (!(row.domain == Some(App) && row.nspace == Some(caller)) ==>
                && (forall g :: g in db.grants && db.grants[g].keyId == key.nspace && db.grants[g].grantee == caller ==>
                     r.value.vector == Some(db.grants[g].accessVector))
                && (r.value.vector.Some? ==>
                     exists g :: g in db.grants && db.grants[g].keyId == key.nspace && db.grants[g].grantee == caller)))
  {
    var received := GrantsFor(db.grants, key.nspace, caller);
    assert forall g :: g in received <==> g in db.grants && db.grants[g].keyId == key.nspace && db.grants[g].grantee == caller;
    if received != {} {
      forall g | g in received ensures g == Least(received) {
        assert SameGrant(db.grants[g], db.grants[Least(received)]);
      }
    }
  }

  /** A descriptor that carries a blob itself names no entry. */
  lemma BlobIsNoEntry(db: Db, key: Descriptor, keyType: KeyType, caller: int)
    requires key.domain == Blob
    ensures LoadAccessTuple(db, key, keyType, caller) == Err(InvalidArgument)
  {
  }

  // ---------- Owners and others ----------

  /** The lookup gives this caller this key. */
  ghost predicate Finds(db: Db, key: Descriptor, caller: int, k: int) {
    var r := LoadAccessTuple(db, key, Client, caller);
    r.Ok? && r.value.keyId == k
  }

  /** No grant on the key was ever given out. */
  ghost predicate Ungranted(db: Db, k: int) {
    forall g :: g in db.grants ==> db.grants[g].keyId != k
  }

  /**
   * Who finds a key of an app that has granted it to nobody: the app, under its alias. Nobody else
   * does, except by the key id, and then without any vector and with the owner's descriptor, which
   * the check of permissions goes by.
   */
  lemma OnlyOwnerFinds(db: Db, owner: int, alias: Alias, k: int, key: Descriptor, caller: int)
    requires KeyInv(db) && IsAt(db, k, Client, App, owner, alias) && Ungranted(db, k)
    ensures Finds(db, key, caller, k) <==> (key.domain == App && caller == owner && key.alias == Some(alias)) || (key.domain == KeyId && key.nspace == k)
    ensures Finds(db, key, caller, k) ==>
      var access := LoadAccessTuple(db, key, Client, caller).value;
      access.vector.None? && access.descriptor.domain == App && access.descriptor.nspace == owner
  {
    match key.domain
    case App => AppFindsOwnKeys(db, key, caller, k);
    case SELinux => NamespaceIsShared(db, key, caller, k);
    case KeyId => KeyIdFindsOwner(db, key, Client, caller);
    case _ =>
  }

  lemma NewKeyIsUngranted(db: Db, tx: Tx)
    requires tx.StoreNewKey? && tx.keyType == Client && Storable(tx.key) && KeyInv(db) && Admissible(db, tx)
    ensures KeyInv(Exec(db, tx).db) && Ungranted(Exec(db, tx).db, tx.id)
    ensures IsAt(Exec(db, tx).db, tx.id, Client, tx.key.domain, tx.key.nspace, tx.key.alias.value)
  {
    TxKeepsKeyRules(db, tx);
    StoredComponentsAreFresh(db, tx);
    RebindEffect(db, StoredComponents(db, tx), tx.id, tx.key, tx.keyType, tx.kmUuid);
  }

  /**
   * A key that an app stored is found by that app under its alias, and loads with what it was stored
   * with. No other caller finds it by any alias or grant.
   */
  lemma OwnerLoadsStoredKey(db: Db, tx: Tx, key: Descriptor, caller: int)
    requires tx.StoreNewKey? && tx.keyType == Client && Storable(tx.key) && tx.key.domain == App
    requires KeyInv(db) && BlobInv(db) && Admissible(db, tx)
    ensures var r := Exec(db, tx).db;
      && (key.domain != KeyId ==> (Finds(r, key, caller, tx.id) <==> key.domain == App && caller == tx.key.nspace && key.alias == tx.key.alias))
      && LoadKeyComponents(r, tx.id) == Ok(KeyEntry(
           tx.id, Some((tx.blob, tx.meta)), tx.cert, tx.certChain, tx.kmUuid, tx.params, tx.keyMeta))
  {
    NewKeyIsUngranted(db, tx);
    StoredKeyLoads(db, tx);
    OnlyOwnerFinds(Exec(db, tx).db, tx.key.nspace, tx.key.alias.value, tx.id, key, caller);
  }
}
