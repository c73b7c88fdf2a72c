/**
 * KeystoreDB as it works: tables that the statements of a transaction change one after the other,
 * and that a failed transaction puts back. Each method is proved to have the effect that the
 * function of the same transaction describes.
 */
module KeystoreDatabase {
  import opened Tables
  import opened Transactions
  import opened BlobRows
  import opened BlobStates
  import opened GarbageCollection
  import opened GcRuns
  import opened KeyMintDeletion

  lemma UnmarkedIds(blobs: map<int, BlobRow>, keyId: int, sc: SubComponent)
    ensures MarkSuperseded(blobs, keyId, sc).Keys == blobs.Keys
  {
  }

  /** Marking one more key unreferenced after a set of others is marking them all. */
  lemma MarkOneMore(db: Db, keyIds: set<int>, k: int)
    ensures MarkUnreferenced(MarkUnreferenced(db, keyIds), {k}) == MarkUnreferenced(db, keyIds + {k})
  {
    var a := MarkUnreferenced(MarkUnreferenced(db, keyIds), {k});
    var b := MarkUnreferenced(db, keyIds + {k});
    assert a.keys == b.keys && a.params == b.params && a.keyMeta == b.keyMeta;
    assert a.grants == b.grants;
    assert a.blobs == b.blobs;
  }

  lemma MarkNobody(db: Db)
    ensures MarkUnreferenced(db, {}) == db
  {
    var c := MarkUnreferenced(db, {});
    assert c.keys == db.keys && c.params == db.params && c.keyMeta == db.keyMeta;
    assert c.grants == db.grants && c.blobs == db.blobs;
  }

  function SupersededKeyBlobs(blobs: map<int, BlobRow>): set<int> {
    set i | i in blobs && blobs[i].sc == KeyBlob && !IsLatest(blobs, i)
  }

  function LostKeyBlobs(blobs: map<int, BlobRow>, keys: map<int, KeyRow>): set<int> {
    set i | i in blobs && blobs[i].sc == KeyBlob && blobs[i].keyId !in keys
  }

  lemma SameSelections(a: map<int, BlobRow>, b: map<int, BlobRow>, keys: map<int, KeyRow>)
    requires a.Keys == b.Keys && forall i :: i in a ==> SameRow(a[i], b[i])
    ensures SupersededKeyBlobs(a) == SupersededKeyBlobs(b) && LostKeyBlobs(a, keys) == LostKeyBlobs(b, keys)
  {
    forall i ensures IsLatest(a, i) <==> IsLatest(b, i) {
      SameComponentsSameLatest(a, b, i);
    }
    assert forall i :: i in a <==> i in b by { assert forall i :: i in a <==> i in a.Keys; }
    assert forall i :: i in LostKeyBlobs(a, keys) <==> i in LostKeyBlobs(b, keys);
  }

  class KeystoreDB {
    var keys: map<int, KeyRow>
    var blobs: map<int, BlobRow>
    var blobMeta: map<int, Meta>
    var params: map<int, seq<Param>>
    var keyMeta: map<int, Meta>
    var grants: map<int, GrantRow>

    function Contents(): Db
      reads this
    {
      Db(keys, blobs, blobMeta, params, keyMeta, grants)
    }

    /** init_tables on a new file. */
    constructor ()
      ensures Contents() == EMPTY_DB
    {
      keys, blobs, blobMeta, params, keyMeta, grants := map[], map[], map[], map[], map[], map[];
    }

    method Rollback(saved: Db)
      modifies this
      ensures Contents() == saved
    {
      keys, blobs, blobMeta := saved.keys, saved.blobs, saved.blobMeta;
      params, keyMeta, grants := saved.params, saved.keyMeta, saved.grants;
    }

    // ---------- Blobs ----------

    method SetBlobInternal(keyId: int, sc: SubComponent, blob: Option<Bytes>, meta: Option<Meta>) returns (r: Result<int>)
      modifies `blobs, `blobMeta
      ensures Contents() == ExecSetBlob(old(Contents()), keyId, sc, blob, meta).db
      ensures r == ExecSetBlob(old(Contents()), keyId, sc, blob, meta).result
    {
      if blob.Some? {
        UnmarkedIds(blobs, keyId, sc);
        blobs := MarkSuperseded(blobs, keyId, sc);
        var id := NextRowId(blobs.Keys);
        blobs := blobs[id := BlobRow(sc, keyId, blob.value, Current)];
        if meta.Some? {
          // SELECT MAX(id)
          var newest := NextRowId(blobs.Keys) - 1;
          assert newest == id by {
            assert id in blobs.Keys && forall i :: i in blobs.Keys ==> i <= id;
          }
          blobMeta := StoreMeta(blobMeta, newest, meta.value);
        }
      } else if sc == KeyBlob {
        return Err(System);
      } else {
        blobs := DeleteComponent(Contents(), keyId, sc).blobs;
      }
      r := Ok(keyId);
    }

    method SetBlob(keyId: int, sc: SubComponent, blob: Option<Bytes>, meta: Option<Meta>) returns (r: Result<int>, needGc: bool)
      modifies this
      ensures Commit(Contents(), r, needGc) == Exec(old(Contents()), Tx.SetBlob(keyId, sc, blob, meta))
    {
      r := SetBlobInternal(keyId, sc, blob, meta);
      needGc := r.Ok?;
    }

    method SetDeletedBlob(blob: Bytes, meta: Meta) returns (r: Result<int>, needGc: bool)
      modifies this
      ensures Commit(Contents(), r, needGc) == Exec(old(Contents()), Tx.SetDeletedBlob(blob, meta))
    {
      r := SetBlobInternal(UNASSIGNED_KEY_ID, KeyBlob, Some(blob), Some(meta));
      needGc := true;
    }

    // ---------- Storing keys ----------

    method InsertKeyRow(id: int, row: KeyRow)
      modifies `keys
      ensures keys == old(keys)[id := row]
    {
      keys := keys[id := row];
    }

    method InsertKeyParameters(id: int, ps: seq<Param>)
      modifies `params
      ensures Contents() == InsertParams(old(Contents()), id, ps)
    {
      var rows := ParamsOf(params, id);
      for i := 0 to |ps|
        invariant rows == ParamsOf(old(params), id) + ps[..i]
        invariant params == old(params)
      {
        rows := rows + [ps[i]];
      }
      assert ps[..|ps|] == ps;
      params := params[id := rows];
    }

    method RebindAlias(id: int, key: Descriptor, keyType: KeyType) returns (r: Result<bool>)
      requires key.alias.Some?
      modifies `keys
      ensures r.Ok? <==> Transactions.RebindAlias(old(Contents()), id, key, keyType).Ok?
      ensures r.Ok? ==> Contents() == Transactions.RebindAlias(old(Contents()), id, key, keyType).value
      ensures r.Ok? ==> r.value == Occupied(old(keys), key.domain, key.nspace, key.alias.value, keyType)
      ensures r.Err? ==> r.error == System
    {
      var updated := Occupied(keys, key.domain, key.nspace, key.alias.value, keyType);
      keys := EvictAlias(keys, key.domain, key.nspace, key.alias.value, keyType);
      if !(id in keys && AwaitsAlias(keys[id], key, keyType)) {
        return Err(System);
      }
      keys := keys[id := keys[id].(alias := key.alias, state := Live)];
      r := Ok(updated);
    }

    /** The inserts of store_new_key, up to but not including the alias. */
    method StoreComponents(ghost tx: Tx, id: int, key: Descriptor, keyType: KeyType, ps: seq<Param>,
                           superseded: Option<(Bytes, Meta)>, blob: Bytes, meta: Meta,
                           cert: Option<Bytes>, certChain: Option<Bytes>, km: Meta, kmUuid: Bytes)
      requires tx == Tx.StoreNewKey(id, key, keyType, ps, superseded, blob, meta, cert, certChain, km, kmUuid)
      modifies this
      ensures Contents() == StoredComponents(old(Contents()), tx)
    {
      InsertKeyRow(id, KeyRow(keyType, Some(key.domain), Some(key.nspace), None, Existing, kmUuid));
      ghost var prior := Contents();
      if superseded.Some? {
        var _ := SetBlobInternal(id, KeyBlob, Some(superseded.value.0), Some(superseded.value.1));
        prior := InsertBlob(prior, id, KeyBlob, superseded.value.0, Some(superseded.value.1));
      }
      assert Contents() == prior;
      var _ := SetBlobInternal(id, KeyBlob, Some(blob), Some(meta));
      ghost var current := InsertBlob(prior, id, KeyBlob, blob, Some(meta));
      assert Contents() == current;
      InsertOptionalBlob(id, Cert, cert);
      InsertOptionalBlob(id, CertChain, certChain);
      assert Contents() == InsertOptional(InsertOptional(current, id, Cert, cert), id, CertChain, certChain);
      InsertKeyParameters(id, ps);
      keyMeta := StoreMeta(keyMeta, id, km);
    }

    method InsertOptionalBlob(id: int, sc: SubComponent, blob: Option<Bytes>)
      modifies this
      ensures Contents() == InsertOptional(old(Contents()), id, sc, blob)
    {
      if blob.Some? {
        var _ := SetBlobInternal(id, sc, blob, None);
      }
    }

    method StoreNewKey(id: int, key: Descriptor, keyType: KeyType, ps: seq<Param>, superseded: Option<(Bytes, Meta)>,
                       blob: Bytes, meta: Meta, cert: Option<Bytes>, certChain: Option<Bytes>, km: Meta, kmUuid: Bytes)
      returns (r: Result<int>, needGc: bool)
      modifies this
      ensures Commit(Contents(), r, needGc) ==
        Exec(old(Contents()), Tx.StoreNewKey(id, key, keyType, ps, superseded, blob, meta, cert, certChain, km, kmUuid))
    {
      if !Storable(key) {
        return Err(InvalidArgument), false;
      }
      var saved := Contents();
      ghost var tx := Tx.StoreNewKey(id, key, keyType, ps, superseded, blob, meta, cert, certChain, km, kmUuid);
      StoreComponents(tx, id, key, keyType, ps, superseded, blob, meta, cert, certChain, km, kmUuid);
      var bound := RebindAlias(id, key, keyType);
      if bound.Err? {
        Rollback(saved);
        return Err(bound.error), false;
      }
      r, needGc := Ok(id), bound.value || superseded.Some?;
    }

    method StoreNewCertificate(id: int, key: Descriptor, keyType: KeyType, chain: Bytes, km: Meta, kmUuid: Bytes)
      returns (r: Result<int>, needGc: bool)
      modifies this
      ensures Commit(Contents(), r, needGc) == Exec(old(Contents()), Tx.StoreNewCertificate(id, key, keyType, chain, km, kmUuid))
    {
      if !Storable(key) {
        return Err(InvalidArgument), false;
      }
      var saved := Contents();
      InsertKeyRow(id, KeyRow(keyType, Some(key.domain), Some(key.nspace), None, Existing, kmUuid));
      var _ := SetBlobInternal(id, CertChain, Some(chain), None);
      keyMeta := StoreMeta(keyMeta, id, km);
      assert Contents() == StoredCertificate(saved, Tx.StoreNewCertificate(id, key, keyType, chain, km, kmUuid));
      var bound := RebindAlias(id, key, keyType);
      if bound.Err? {
        Rollback(saved);
        return Err(bound.error), false;
      }
      r, needGc := Ok(id), bound.value;
    }

    method StoreSuperKey(id: int, user: int, alias: Alias, blob: Bytes, meta: Meta, km: Meta, kmUuid: Bytes)
      returns (r: Result<int>, needGc: bool)
      modifies this
      ensures Commit(Contents(), r, needGc) == Exec(old(Contents()), Tx.StoreSuperKey(id, user, alias, blob, meta, km, kmUuid))
    {
      InsertKeyRow(id, KeyRow(Super, Some(App), Some(user), Some(alias), Live, kmUuid));
      keyMeta := StoreMeta(keyMeta, id, km);
      var _ := SetBlobInternal(id, KeyBlob, Some(blob), Some(meta));
      r, needGc := Ok(id), false;
    }

    method MigrateKeyNamespace(keyId: int, destination: Descriptor, caller: int, permitted: bool)
      returns (r: Result<int>, needGc: bool)
      modifies `keys
      ensures Commit(Contents(), r, needGc) == Exec(old(Contents()), MigrateKey(keyId, destination, caller, permitted))
    {
      needGc := false;
      var dest := destination;
      if dest.domain == App {
        dest := dest.(nspace := caller);
      } else if dest.domain != SELinux {
        return Err(InvalidArgument), false;
      }
      if !permitted {
        return Err(PermissionDenied), false;
      }
      if dest.alias.None? || LocationTaken(keys, dest) {
        return Err(InvalidArgument), false;
      }
      if keyId !in keys {
        return Err(System), false;
      }
      keys := keys[keyId := keys[keyId].(alias := dest.alias, domain := Some(dest.domain), nspace := Some(dest.nspace))];
      r := Ok(keyId);
    }

    // ---------- Grants ----------

    method AddGrant(id: int, key: Descriptor, caller: int, grantee: int, vector: int, permitted: bool)
      returns (r: Result<int>, needGc: bool)
      modifies `grants
      ensures Commit(Contents(), r, needGc) == Exec(old(Contents()), Tx.AddGrant(id, key, caller, grantee, vector, permitted))
    {
      needGc := false;
      var access := LoadAccessTuple(Contents(), key, Client, caller);
      if access.Err? {
        return Err(access.error), false;
      }
      if !permitted {
        return Err(PermissionDenied), false;
      }
      var existing := GrantsFor(grants, access.value.keyId, grantee);
      var g := id;
      if existing != {} {
        g := Least(existing);
        grants := grants[g := grants[g].(accessVector := vector)];
      } else {
        grants := grants[g := GrantRow(grantee, access.value.keyId, vector)];
      }
      r := Ok(g);
    }

    method Ungrant(key: Descriptor, caller: int, grantee: int, permitted: bool) returns (r: Result<int>, needGc: bool)
      modifies `grants
      ensures Commit(Contents(), r, needGc) == Exec(old(Contents()), RemoveGrant(key, caller, grantee, permitted))
    {
      needGc := false;
      var access := LoadAccessTuple(Contents(), key, Client, caller);
      if access.Err? {
        return Err(access.error), false;
      }
      if !permitted {
        return Err(PermissionDenied), false;
      }
      grants := grants - GrantsFor(grants, access.value.keyId, grantee);
      r := Ok(access.value.keyId);
    }

    // ---------- Removing keys ----------

    method MarkKeyUnreferenced(keyId: int) returns (updated: bool)
      modifies this
      ensures Contents() == MarkUnreferenced(old(Contents()), {keyId})
      ensures updated == (keyId in old(keys))
    {
      updated := keyId in keys;
      keys := keys - {keyId};
      keyMeta := keyMeta - {keyId};
      params := params - {keyId};
      grants := DropGrantsTo(grants, {keyId});
      blobs := MarkOrphaned(blobs, {keyId});
    }

    method UnbindKey(key: Descriptor, keyType: KeyType, caller: int, permitted: bool) returns (r: Result<int>, needGc: bool)
      modifies this
      ensures Commit(Contents(), r, needGc) == Exec(old(Contents()), Tx.UnbindKey(key, keyType, caller, permitted))
    {
      var access := LoadAccessTuple(Contents(), key, keyType, caller);
      if access.Err? {
        return Err(access.error), false;
      }
      if !permitted {
        return Err(PermissionDenied), false;
      }
      needGc := MarkKeyUnreferenced(access.value.keyId);
      r := Ok(access.value.keyId);
    }

    method CheckAndUpdateKeyUsageCount(keyId: int) returns (r: Result<int>, needGc: bool)
      modifies this
      ensures Commit(Contents(), r, needGc) == Exec(old(Contents()), UseKey(keyId))
    {
      var saved := Contents();
      var limit := UsageLimit(ParamsOf(params, keyId));
      if limit.None? {
        return Err(KeyExhausted), false;
      }
      params := params[keyId := CountUse(ParamsOf(params, keyId))];
      needGc := false;
      if limit.value == 1 {
        needGc := MarkKeyUnreferenced(keyId);
      } else if limit.value == 0 {
        Rollback(saved);
        return Err(KeyExhausted), false;
      }
      r := Ok(keyId);
    }

    /** The loop over the selected key ids that the user-wide removals share. */
    method MarkAllUnreferenced(keyIds: set<int>) returns (any: bool)
      requires forall k :: k in keyIds ==> k in keys
      modifies this
      ensures Contents() == MarkUnreferenced(old(Contents()), keyIds)
      ensures any == (keyIds != {})
    {
      any := false;
      var todo := keyIds;
      MarkNobody(Contents());
      assert keyIds - todo == {};
      while todo != {}
        invariant todo <= keyIds
        invariant Contents() == MarkUnreferenced(old(Contents()), keyIds - todo)
        invariant any == (todo != keyIds)
        invariant keys == old(keys) - (keyIds - todo)
        decreases |todo|
      {
        var k := Least(todo);
        MarkOneMore(old(Contents()), keyIds - todo, k);
        assert keyIds - todo + {k} == keyIds - (todo - {k});
        var updated := MarkKeyUnreferenced(k);
        todo := todo - {k};
        any := updated || any;
      }
      assert keyIds - {} == keyIds;
    }

    method UnbindKeysForUser(user: int) returns (r: Result<int>, needGc: bool)
      modifies this
      ensures Commit(Contents(), r, needGc) == Exec(old(Contents()), UnbindUser(user))
    {
      grants := DropGrantsOfUser(grants, user);
      needGc := MarkAllUnreferenced(KeysOfUser(keys, user));
      r := Ok(user);
    }

    method UnbindAuthBoundKeysForUser(user: int) returns (r: Result<int>, needGc: bool)
      modifies this
      ensures Commit(Contents(), r, needGc) == Exec(old(Contents()), UnbindAuthBound(user))
    {
      needGc := MarkAllUnreferenced(AuthBoundKeysOfUser(Contents(), user));
      r := Ok(user);
    }

    method UnbindKeysForNamespace(domain: Domain, nspace: int) returns (r: Result<int>, needGc: bool)
      modifies this
      ensures Commit(Contents(), r, needGc) == Exec(old(Contents()), UnbindNamespace(domain, nspace))
    {
      if domain != App && domain != SELinux {
        return Err(InvalidArgument), false;
      }
      var ids := ClientKeysIn(keys, domain, nspace);
      keyMeta := keyMeta - ids;
      params := params - ids;
      grants := DropGrantsTo(grants, ids);
      if domain == App {
        grants := DropReceivedGrants(grants, nspace);
      }
      keys := keys - ids;
      r, needGc := Ok(nspace), true;
    }

    // ---------- The collector's transaction ----------

    /** SELECT ... LIMIT: some of the rows, as many as allowed. */
    method SelectLimited(ids: set<int>, limit: nat) returns (picked: seq<int>)
      ensures NoDuplicates(picked) && |picked| <= limit
      ensures forall i :: 0 <= i < |picked| ==> picked[i] in ids
      ensures |picked| < limit ==> IdSet(picked) == ids
    {
      picked := [];
      var rest := ids;
      while rest != {} && |picked| < limit
        invariant NoDuplicates(picked) && |picked| <= limit && rest <= ids
        invariant forall i :: 0 <= i < |picked| ==> picked[i] in ids - rest
        invariant forall x :: x in ids ==> x in rest || x in picked
      {
        var x := Least(rest);
        picked := picked + [x];
        rest := rest - {x};
      }
      assert forall x :: x in picked ==> x in ids;
      if |picked| < limit {
        assert rest == {};
        assert forall x :: x in ids ==> x in picked;
        assert IdSet(picked) == ids;
      }
    }

    method DeleteHandled(deleted: seq<int>)
      modifies `blobs, `blobMeta
      ensures Contents() == DeleteBlobs(old(Contents()), IdSet(deleted))
    {
      for n := 0 to |deleted|
        invariant blobs == old(blobs) - IdSet(deleted[..n]) && blobMeta == old(blobMeta) - IdSet(deleted[..n])
      {
        assert IdSet(deleted[..n + 1]) == IdSet(deleted[..n]) + {deleted[n]};
        blobMeta := blobMeta - {deleted[n]};
        blobs := blobs - {deleted[n]};
      }
      assert deleted[..|deleted|] == deleted;
    }

    method CleanupUnreferencedKeys()
      modifies this
      ensures Contents() == CleanupUnreferenced(old(Contents()))
    {
      var gone := KeysInState(keys, Unreferenced);
      keyMeta := keyMeta - gone;
      params := params - gone;
      grants := DropGrantsTo(grants, gone);
      keys := keys - gone;
    }

    method HandleNextSupersededBlobs(useStateColumn: bool, deleted: seq<int>)
      returns (found: seq<SupersededBlob>, ghost picked: seq<int>)
      modifies this
      ensures ValidSelection(Swept(old(Contents()), deleted), useStateColumn, picked)
      ensures Contents() == Collected(old(Contents()), useStateColumn, deleted, picked)
      ensures found == LoadSuperseded(Swept(old(Contents()), deleted), picked)
    {
      DeleteHandled(deleted);
      CleanupUnreferencedKeys();
      ghost var swept := Contents();
      var ids := SelectLimited(OutOfDateKeyBlobs(Contents(), useStateColumn), MAX_BLOBS);
      picked := ids;
      found := LoadSuperseded(Contents(), ids);
      if found == [] {
        blobs := PurgeCertificates(Contents(), useStateColumn).blobs;
      }
    }

    // ---------- The schema upgrade ----------

    method UpdateStates(ids: set<int>, state: BlobState)
      modifies `blobs
      ensures blobs.Keys == old(blobs).Keys
      ensures forall i :: i in blobs ==> blobs[i] == if i in ids then old(blobs)[i].(state := state) else old(blobs)[i]
    {
      blobs := map i | i in blobs :: if i in ids then blobs[i].(state := state) else blobs[i];
    }

    /** from_1_to_2: the new column, then one UPDATE for superseded and one for orphaned key blobs. */
    method UpgradeFrom1To2()
      modifies `blobs
      ensures blobs.Keys == old(blobs).Keys
      ensures forall i :: i in blobs ==> blobs[i] == UpgradeSchema(old(Contents())).blobs[i]
    {
      ghost var before := blobs;
      UpdateStates(blobs.Keys, Current);
      SameSelections(before, blobs, keys);
      UpdateStates(SupersededKeyBlobs(blobs), Superseded);
      SameSelections(before, blobs, keys);
      UpdateStates(LostKeyBlobs(blobs, keys), Orphaned);
    }
  }

  /** The collector's memory and its way of working through it. */
  class GcInternal {
    var deletedBlobIds: seq<int>
    var supersededBlobs: seq<SupersededBlob>
    const db: KeystoreDB

    constructor (db: KeystoreDB)
      ensures this.db == db && View() == Sys(db.Contents(), [], [])
    {
      this.db := db;
      deletedBlobIds, supersededBlobs := [], [];
    }

    function View(): Sys
      reads this, db
    {
      Sys(db.Contents(), deletedBlobIds, supersededBlobs)
    }

    /** unwrap_key_if_required: blobs without a super key or boot level key are passed on as they are. */
    method UnwrapKeyIfRequired(meta: Meta, blob: Bytes, unwrapped: Option<Bytes>) returns (r: Option<Bytes>)
      ensures ((ENCRYPTED_BY in meta && meta[ENCRYPTED_BY] != BY_PASSWORD) || MAX_BOOT_LEVEL in meta) ==> r == unwrapped
      ensures !((ENCRYPTED_BY in meta && meta[ENCRYPTED_BY] != BY_PASSWORD) || MAX_BOOT_LEVEL in meta) ==> r == Some(blob)
    {
      if ENCRYPTED_BY in meta && meta[ENCRYPTED_BY] != BY_PASSWORD {
        return unwrapped;
      }
      r := if MAX_BOOT_LEVEL in meta then unwrapped else Some(blob);
    }

    /**
     * process_one_key. `commits` says whether the transaction succeeds, and `unwrapped` is what
     * decrypting the blob gives, if it takes a super key or a boot level key. `told` is the KeyMint
     * instance and the blob that it is told to delete. The id is on the deletion list whether or not
     * any of that works out.
     */
    method ProcessOneKey(useStateColumn: bool, commits: bool, unwrapped: Option<Bytes>)
      returns (told: Option<(Bytes, Bytes)>, ghost picked: seq<int>, ghost mid: Sys)
      modifies this, db
      ensures old(supersededBlobs) == [] && !commits ==> View() == old(View()) && told.None?
      ensures old(supersededBlobs) != [] || commits ==> Processes(old(View()), useStateColumn, picked, mid, View())
      ensures (old(supersededBlobs) != [] || commits) && mid.superseded == [] ==> told.None?
      ensures (old(supersededBlobs) != [] || commits) && mid.superseded != [] ==>
        var next := mid.superseded[|mid.superseded| - 1];
        var sealed := (ENCRYPTED_BY in next.meta && next.meta[ENCRYPTED_BY] != BY_PASSWORD) || MAX_BOOT_LEVEL in next.meta;
        && (told.Some? <==> KM_UUID in next.meta && (sealed ==> unwrapped.Some?))
        && (told.Some? ==> told.value.0 == next.meta[KM_UUID] && told.value.1 == if sealed then unwrapped.value else next.blob)
        && (forall uuid, blob :: Tells(mid, GcPop(next.id), unwrapped, uuid, blob) <==> told == Some((uuid, blob)))
    {
      told, picked, mid := None, [], View();
      if supersededBlobs == [] {
        if !commits {
          return;
        }
        var found;
        found, picked := db.HandleNextSupersededBlobs(useStateColumn, deletedBlobIds);
        deletedBlobIds := [];
        supersededBlobs := found;
        mid := View();
      }
      if supersededBlobs != [] {
        var next := supersededBlobs[|supersededBlobs| - 1];
        supersededBlobs := supersededBlobs[..|supersededBlobs| - 1];
        deletedBlobIds := deletedBlobIds + [next.id];
        if KM_UUID in next.meta {
          var blob := UnwrapKeyIfRequired(next.meta, next.blob, unwrapped);
          if blob.None? {
            return;
          }
          told := Some((next.meta[KM_UUID], blob.value));
        }
      }
    }
  }
}
