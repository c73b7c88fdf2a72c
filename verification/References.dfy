/**
 * What every transaction keeps about key entries and the rows that refer to them: life cycle,
 * locations, grants, parameters and metadata.
 */
module References {
  import opened Tables
  import opened Transactions

  /** Parameters, metadata and grants belong to key entries that exist. */
  ghost predicate NoDanglingRows(db: Db) {
    && (forall k :: k in db.params ==> k in db.keys)
    && (forall k :: k in db.keyMeta ==> k in db.keys)
    && (forall g :: g in db.grants ==> db.grants[g].keyId in db.keys)
  }

  predicate SameGrant(a: GrantRow, b: GrantRow) {
    a.keyId == b.keyId && a.grantee == b.grantee
  }

  ghost predicate OneGrantPerGrantee(db: Db) {
    forall g, h :: g in db.grants && h in db.grants && SameGrant(db.grants[g], db.grants[h]) ==> g == h
  }

  predicate Located(row: KeyRow) {
    row.domain.Some? && row.nspace.Some? && row.alias.Some?
  }

  predicate SameLocation(a: KeyRow, b: KeyRow) {
    a.domain == b.domain && a.nspace == b.nspace && a.alias == b.alias
  }

  predicate LiveClient(row: KeyRow) {
    row.state == Live && row.keyType == Client
  }

  /** Two live client keys at one location. */
  predicate Clash(a: KeyRow, b: KeyRow) {
    LiveClient(a) && LiveClient(b) && SameLocation(a, b)
  }

  /** At most one live client key per domain, namespace and alias. */
  ghost predicate UniqueLocations(db: Db) {
    forall k, j :: k in db.keys && j in db.keys && Clash(db.keys[k], db.keys[j]) ==> k == j
  }

  ghost predicate KeyInv(db: Db) {
    && UNASSIGNED_KEY_ID !in db.keys
    && NoDanglingRows(db)
    && OneGrantPerGrantee(db)
    && (forall k :: k in db.keys && db.keys[k].state == Live ==> Located(db.keys[k]))
    && UniqueLocations(db)
  }

  /**
   * The life cycle of key entries across one transaction: an entry that stays keeps its state or
   * becomes unreferenced, and an entry that appears is live. So no entry is ever revived.
   */
  ghost predicate LifeCycleRespected(a: Db, b: Db) {
    && (forall k :: k in a.keys && k in b.keys ==>
          && b.keys[k].keyType == a.keys[k].keyType && b.keys[k].kmUuid == a.keys[k].kmUuid
          && (b.keys[k].state == a.keys[k].state || b.keys[k].state == Unreferenced))
    && (forall k :: k in b.keys && k !in a.keys ==> b.keys[k].state == Live)
  }

  /** A grant keeps its key and grantee as long as it exists; new grants are to live keys. */
  ghost predicate GrantsRespected(a: Db, b: Db) {
    forall g :: g in b.grants ==>
      if g in a.grants then b.grants[g].keyId == a.grants[g].keyId && b.grants[g].grantee == a.grants[g].grantee
      else b.grants[g].keyId in a.keys && a.keys[b.grants[g].keyId].state == Live
  }

  ghost predicate KeyRules(a: Db, b: Db) {
    KeyInv(b) && LifeCycleRespected(a, b) && GrantsRespected(a, b)
  }

  /** Key entries and grants are the same; parameters and metadata belong to the same keys. */
  ghost predicate SameKeyView(a: Db, b: Db) {
    && a.keys == b.keys && a.grants == b.grants
    && (forall k :: k in b.params ==> k in a.params) && (forall k :: k in b.keyMeta ==> k in a.keyMeta)
  }

  lemma SameKeyViewRules(a: Db, b: Db)
    requires SameKeyView(a, b) && KeyInv(a)
    ensures KeyRules(a, b)
  {
  }

  // ---------- Lookups ----------

  /** Whatever way a key is looked up, the key found is live. */
  lemma AccessIsLive(db: Db, key: Descriptor, keyType: KeyType, caller: int)
    ensures var r := LoadAccessTuple(db, key, keyType, caller);
      r.Ok? ==> r.value.keyId in db.keys && db.keys[r.value.keyId].state == Live
  {
    var r := LoadAccessTuple(db, key, keyType, caller);
    if r.Ok? && (key.domain == App || key.domain == SELinux) {
      var owned := if key.domain == App then key.(nspace := caller) else key;
      var ids := LiveAt(db.keys, keyType, owned.domain, owned.nspace, owned.alias.value);
      assert Least(ids) in ids;
    }
  }

  /** A grant descriptor resolves for nobody but its grantee, and only to its live key. */
  lemma GrantResolvesForGrantee(db: Db, id: int, alias: Option<Alias>, keyType: KeyType, caller: int)
    ensures LoadAccessTuple(db, Descriptor(Grant, id, alias, None), keyType, caller).Ok?
      <==> id in db.grants && db.grants[id].grantee == caller
           && db.grants[id].keyId in db.keys && db.keys[db.grants[id].keyId].state == Live
    ensures var r := LoadAccessTuple(db, Descriptor(Grant, id, alias, None), keyType, caller);
      r.Ok? ==> r.value.keyId == db.grants[id].keyId && r.value.vector == Some(db.grants[id].accessVector)
  {
  }

  /** Looking a client key up by its location finds the one live key there, if there is one. */
  lemma LocationLookup(db: Db, key: Descriptor, k: int)
    requires KeyInv(db) && key.alias.Some?
    requires k in db.keys && LiveClient(db.keys[k]) && AtLocation(db.keys[k], key.domain, key.nspace, key.alias.value)
    ensures LoadKeyEntryId(db, key, Client) == Ok(k)
  {
    var ids := LiveAt(db.keys, Client, key.domain, key.nspace, key.alias.value);
    assert k in ids;
    forall j | j in ids ensures j == k {
      assert Clash(db.keys[j], db.keys[k]);
    }
    assert ids == {k};
  }

  // ---------- Storing ----------

  ghost predicate FreshEntry(a: Db, b: Db, id: int, row: KeyRow) {
    && b.keys == a.keys[id := row] && b.grants == a.grants
    && (forall k :: k in b.params ==> k == id || k in a.params)
    && (forall k :: k in b.keyMeta ==> k == id || k in a.keyMeta)
  }

  predicate Owns(row: KeyRow, key: Descriptor, keyType: KeyType)
    requires key.alias.Some?
  {
    AtLocation(row, key.domain, key.nspace, key.alias.value) && row.keyType == keyType
  }

  /** What rebind_alias makes of the key entries: the owner of the location is evicted. */
  lemma RebindEffect(a: Db, stored: Db, id: int, key: Descriptor, keyType: KeyType, kmUuid: Bytes)
    requires Unused(a, id) && key.alias.Some?
    requires FreshEntry(a, stored, id, KeyRow(keyType, Some(key.domain), Some(key.nspace), None, Existing, kmUuid))
    ensures var r := RebindAlias(stored, id, key, keyType);
      && r.Ok? && r.value == stored.(keys := r.value.keys) && r.value.keys.Keys == a.keys.Keys + {id}
      && r.value.keys[id] == KeyRow(keyType, Some(key.domain), Some(key.nspace), key.alias, Live, kmUuid)
      && (forall k :: k in a.keys ==>
            k in r.value.keys && r.value.keys[k] == if Owns(a.keys[k], key, keyType) then Evicted(a.keys[k]) else a.keys[k])
  {
    var evicted := EvictAlias(stored.keys, key.domain, key.nspace, key.alias.value, keyType);
    assert evicted[id] == stored.keys[id];
    assert forall k :: k in a.keys ==> k != id;
  }

  lemma RebindRules(a: Db, stored: Db, id: int, key: Descriptor, keyType: KeyType, kmUuid: Bytes)
    requires KeyInv(a) && Unused(a, id) && key.alias.Some?
    requires FreshEntry(a, stored, id, KeyRow(keyType, Some(key.domain), Some(key.nspace), None, Existing, kmUuid))
    ensures var r := RebindAlias(stored, id, key, keyType); r.Ok? && KeyRules(a, r.value)
  {
    RebindEffect(a, stored, id, key, keyType, kmUuid);
    var bound := RebindAlias(stored, id, key, keyType).value;
    assert forall k :: k in bound.keys <==> k in a.keys || k == id by {
      assert forall k :: k in bound.keys <==> k in bound.keys.Keys;
    }
    forall k, j | k in bound.keys && j in bound.keys && Clash(bound.keys[k], bound.keys[j]) ensures k == j {
      if k != id && j != id {
        assert Clash(a.keys[k], a.keys[j]);
      }
    }
  }

  lemma InsertBlobFresh(a: Db, b: Db, id: int, row: KeyRow, keyId: int, sc: SubComponent, blob: Bytes, meta: Option<Meta>)
    requires FreshEntry(a, b, id, row)
    ensures FreshEntry(a, InsertBlob(b, keyId, sc, blob, meta), id, row)
  {
  }

  lemma InsertOptionalFresh(a: Db, b: Db, id: int, row: KeyRow, sc: SubComponent, blob: Option<Bytes>)
    requires FreshEntry(a, b, id, row)
    ensures FreshEntry(a, InsertOptional(b, id, sc, blob), id, row)
  {
  }

  lemma StoredComponentsAreFresh(db: Db, tx: Tx)
    requires tx.StoreNewKey?
    ensures FreshEntry(db, StoredComponents(db, tx), tx.id,
      KeyRow(tx.keyType, Some(tx.key.domain), Some(tx.key.nspace), None, Existing, tx.kmUuid))
  {
    var row := KeyRow(tx.keyType, Some(tx.key.domain), Some(tx.key.nspace), None, Existing, tx.kmUuid);
    var created := CreateKeyEntry(db, tx.id, tx.key.domain, tx.key.nspace, tx.keyType, tx.kmUuid);
    var prior := created;
    if tx.superseded.Some? {
      prior := InsertBlob(created, tx.id, KeyBlob, tx.superseded.value.0, Some(tx.superseded.value.1));
      InsertBlobFresh(db, created, tx.id, row, tx.id, KeyBlob, tx.superseded.value.0, Some(tx.superseded.value.1));
    }
    var current := InsertBlob(prior, tx.id, KeyBlob, tx.blob, Some(tx.meta));
    InsertBlobFresh(db, prior, tx.id, row, tx.id, KeyBlob, tx.blob, Some(tx.meta));
    var withCert := InsertOptional(current, tx.id, Cert, tx.cert);
    InsertOptionalFresh(db, current, tx.id, row, Cert, tx.cert);
    InsertOptionalFresh(db, withCert, tx.id, row, CertChain, tx.certChain);
  }

  lemma StoringRules(db: Db, tx: Tx)
    requires tx.StoreNewKey? || tx.StoreNewCertificate? || tx.StoreSuperKey?
    requires KeyInv(db) && Admissible(db, tx)
    ensures KeyRules(db, Exec(db, tx).db)
  {
    SameKeyViewRules(db, db);
    match tx
    case StoreNewKey(id, key, keyType, _, _, _, _, _, _, _, kmUuid) =>
      if Storable(key) {
        StoredComponentsAreFresh(db, tx);
        RebindRules(db, StoredComponents(db, tx), id, key, keyType, kmUuid);
      }
    case StoreNewCertificate(id, key, keyType, _, _, kmUuid) =>
      if Storable(key) {
        RebindRules(db, StoredCertificate(db, tx), id, key, keyType, kmUuid);
      }
    case StoreSuperKey(id, user, alias, _, _, _, kmUuid) =>
      assert FreshEntry(db, StoredSuperKey(db, tx), id, KeyRow(Super, Some(App), Some(user), Some(alias), Live, kmUuid));
  }

  /** Storing under a location always succeeds and makes the location resolve to the new key. */
  lemma StoreBindsLocation(db: Db, tx: Tx)
    requires tx.StoreNewKey? && Storable(tx.key) && tx.keyType == Client
    requires KeyInv(db) && Admissible(db, tx)
    ensures Exec(db, tx).result == Ok(tx.id)
    ensures LoadKeyEntryId(Exec(db, tx).db, tx.key, Client) == Ok(tx.id)
  {
    StoredComponentsAreFresh(db, tx);
    RebindRules(db, StoredComponents(db, tx), tx.id, tx.key, tx.keyType, tx.kmUuid);
    RebindEffect(db, StoredComponents(db, tx), tx.id, tx.key, tx.keyType, tx.kmUuid);
    LocationLookup(Exec(db, tx).db, tx.key, tx.id);
  }

  // ---------- Removing ----------

  lemma RemoveKeysRules(db: Db, keyIds: set<int>)
    requires KeyInv(db)
    ensures KeyRules(db, RemoveKeys(db, keyIds))
  {
  }

  lemma DroppingGrantsRules(db: Db, grants: map<int, GrantRow>)
    requires KeyInv(db) && forall g :: g in grants ==> g in db.grants && grants[g] == db.grants[g]
    ensures KeyRules(db, db.(grants := grants))
  {
  }

  lemma RulesCompose(a: Db, b: Db, c: Db)
    requires KeyRules(a, b) && KeyRules(b, c) && c.grants.Keys <= b.grants.Keys && c.keys.Keys <= b.keys.Keys
    requires b.keys.Keys <= a.keys.Keys && b.grants.Keys <= a.grants.Keys
    ensures KeyRules(a, c)
  {
    assert forall k :: k in c.keys ==> k in b.keys by { assert forall k :: k in c.keys ==> k in c.keys.Keys; }
    assert forall k :: k in b.keys ==> k in a.keys by { assert forall k :: k in b.keys ==> k in b.keys.Keys; }
    assert forall g :: g in c.grants ==> g in b.grants by { assert forall g :: g in c.grants ==> g in c.grants.Keys; }
    assert forall g :: g in b.grants ==> g in a.grants by { assert forall g :: g in b.grants ==> g in b.grants.Keys; }
  }

  lemma MarkUnreferencedRules(db: Db, keyIds: set<int>)
    requires KeyInv(db)
    ensures KeyRules(db, MarkUnreferenced(db, keyIds))
  {
    RemoveKeysRules(db, keyIds);
  }

  lemma UseKeyRules(db: Db, keyId: int)
    requires KeyInv(db)
    ensures KeyRules(db, ExecUseKey(db, keyId).db)
  {
    SameKeyViewRules(db, db);
    if UsageLimit(ParamsOf(db.params, keyId)).Some? {
      var counted := db.(params := db.params[keyId := CountUse(ParamsOf(db.params, keyId))]);
      SameKeyViewRules(db, counted);
      MarkUnreferencedRules(counted, {keyId});
    }
  }

  lemma UnbindNamespaceRules(db: Db, domain: Domain, nspace: int)
    requires KeyInv(db)
    ensures KeyRules(db, Exec(db, UnbindNamespace(domain, nspace)).db)
  {
    SameKeyViewRules(db, db);
    var r := RemoveKeys(db, ClientKeysIn(db.keys, domain, nspace));
    RemoveKeysRules(db, ClientKeysIn(db.keys, domain, nspace));
    DroppingGrantsRules(r, DropReceivedGrants(r.grants, nspace));
    RulesCompose(db, r, r.(grants := DropReceivedGrants(r.grants, nspace)));
  }

  lemma UnbindUserRules(db: Db, user: int)
    requires KeyInv(db)
    ensures KeyRules(db, Exec(db, UnbindUser(user)).db)
  {
    var d := db.(grants := DropGrantsOfUser(db.grants, user));
    DroppingGrantsRules(db, DropGrantsOfUser(db.grants, user));
    MarkUnreferencedRules(d, KeysOfUser(db.keys, user));
    RulesCompose(db, d, MarkUnreferenced(d, KeysOfUser(db.keys, user)));
  }

  lemma RemovalRules(db: Db, tx: Tx)
    requires tx.UnbindKey? || tx.UseKey? || tx.UnbindNamespace? || tx.UnbindUser? || tx.UnbindAuthBound?
    requires KeyInv(db)
    ensures KeyRules(db, Exec(db, tx).db)
  {
    match tx
    case UnbindKey(key, keyType, caller, permitted) =>
      SameKeyViewRules(db, db);
      var access := LoadAccessTuple(db, key, keyType, caller);
      if access.Ok? { MarkUnreferencedRules(db, {access.value.keyId}); }
    case UseKey(keyId) => UseKeyRules(db, keyId);
    case UnbindNamespace(domain, nspace) => UnbindNamespaceRules(db, domain, nspace);
    case UnbindUser(user) => UnbindUserRules(db, user);
    case UnbindAuthBound(user) => MarkUnreferencedRules(db, AuthBoundKeysOfUser(db, user));
  }

  // ---------- Moving and granting ----------

  lemma MigrateRules(db: Db, keyId: int, destination: Descriptor, caller: int, permitted: bool)
    requires KeyInv(db)
    ensures KeyRules(db, ExecMigrate(db, keyId, destination, caller, permitted).db)
  {
    SameKeyViewRules(db, db);
    var r := ExecMigrate(db, keyId, destination, caller, permitted);
    if r.result.Ok? {
      var dest := Relocated(destination, caller);
      forall j | j in db.keys && j != keyId ensures !SameLocation(r.db.keys[j], r.db.keys[keyId]) {
        assert !AtLocation(db.keys[j], dest.domain, dest.nspace, dest.alias.value);
      }
    }
  }

  lemma AddGrantRules(db: Db, id: int, keyId: int, grantee: int, vector: int)
    requires KeyInv(db) && id !in db.grants && keyId in db.keys && db.keys[keyId].state == Live
    ensures KeyRules(db, ExecAddGrant(db, id, keyId, grantee, vector).db)
  {
    var existing := GrantsFor(db.grants, keyId, grantee);
    if existing == {} {
      assert forall g :: g in db.grants && db.grants[g].keyId == keyId && db.grants[g].grantee == grantee ==> g in existing;
    }
  }

  /** Granting twice to the same grantee changes the access vector of the same grant. */
  lemma GrantAgainUpdates(db: Db, id: int, again: int, keyId: int, grantee: int, vector: int, other: int)
    requires KeyInv(db) && id !in db.grants
    ensures var first := ExecAddGrant(db, id, keyId, grantee, vector);
      var second := ExecAddGrant(first.db, again, keyId, grantee, other);
      && second.result == first.result && second.db.grants.Keys == first.db.grants.Keys
      && second.db.grants[second.result.value] == GrantRow(grantee, keyId, other)
  {
    var first := ExecAddGrant(db, id, keyId, grantee, vector);
    var g := first.result.value;
    assert g in GrantsFor(first.db.grants, keyId, grantee);
    var existing := GrantsFor(db.grants, keyId, grantee);
    if existing == {} {
      assert forall h :: h in db.grants && db.grants[h].keyId == keyId && db.grants[h].grantee == grantee ==> h in existing;
    }
    forall h | h in GrantsFor(first.db.grants, keyId, grantee) ensures h == g {
      if h in db.grants && g in db.grants { assert SameGrant(db.grants[h], db.grants[g]); }
    }
    assert GrantsFor(first.db.grants, keyId, grantee) == {g};
  }

  // ---------- Every transaction ----------

  lemma TxKeepsKeyRules(db: Db, tx: Tx)
    requires KeyInv(db) && Admissible(db, tx)
    ensures KeyRules(db, Exec(db, tx).db)
  {
    SameKeyViewRules(db, db);
    match tx
    case StoreNewKey(_, _, _, _, _, _, _, _, _, _, _) => StoringRules(db, tx);
    case StoreNewCertificate(_, _, _, _, _, _) => StoringRules(db, tx);
    case StoreSuperKey(_, _, _, _, _, _, _) => StoringRules(db, tx);
    case SetBlob(_, _, _, _) => SameKeyViewRules(db, Exec(db, tx).db);
    case SetDeletedBlob(_, _) => SameKeyViewRules(db, Exec(db, tx).db);
    case MigrateKey(keyId, destination, caller, permitted) => MigrateRules(db, keyId, destination, caller, permitted);
    case UnbindKey(_, _, _, _) => RemovalRules(db, tx);
    case UseKey(_) => RemovalRules(db, tx);
    case UnbindNamespace(_, _) => RemovalRules(db, tx);
    case UnbindUser(_) => RemovalRules(db, tx);
    case UnbindAuthBound(_) => RemovalRules(db, tx);
    case AddGrant(id, key, caller, grantee, vector, permitted) =>
      var access := LoadAccessTuple(db, key, Client, caller);
      if access.Ok? {
        AccessIsLive(db, key, Client, caller);
        AddGrantRules(db, id, access.value.keyId, grantee, vector);
      }
    case RemoveGrant(key, caller, grantee, permitted) =>
      var access := LoadAccessTuple(db, key, Client, caller);
      if access.Ok? {
        DroppingGrantsRules(db, db.grants - GrantsFor(db.grants, access.value.keyId, grantee));
      }
    case CleanupLeftovers =>
  }
}
