/**
 * Which keys, grants and components a removal takes, told from the rows before it, and that all else
 * loads as before.
 */
module Removals {
  import opened Tables
  import opened Transactions
  import opened References
  import opened StoreLoad

  /** Rows keep their id, key, component and content, so the latest ones are the same. */
  lemma SameLatest(a: map<int, BlobRow>, b: map<int, BlobRow>, k: int, sc: SubComponent)
    requires a.Keys == b.Keys && forall i :: i in a ==> b[i].keyId == a[i].keyId && b[i].sc == a[i].sc && b[i].blob == a[i].blob
    ensures LatestRow(a, k, sc) == LatestRow(b, k, sc)
  {
    assert forall i :: i in a <==> i in b by { assert forall i :: i in a <==> i in a.Keys; }
    assert forall i :: i in RowsOf(a, k, sc) <==> i in RowsOf(b, k, sc);
  }

  /** Key entries that are not removed load as before. */
  lemma RemovalLeavesOthers(db: Db, ids: set<int>, k: int)
    requires k !in ids
    ensures LoadKeyComponents(MarkUnreferenced(db, ids), k) == LoadKeyComponents(db, k)
    ensures LoadKeyComponents(RemoveKeys(db, ids), k) == LoadKeyComponents(db, k)
  {
    var r := MarkUnreferenced(db, ids);
    SameLatest(db.blobs, r.blobs, k, KeyBlob);
    SameLatest(db.blobs, r.blobs, k, Cert);
    SameLatest(db.blobs, r.blobs, k, CertChain);
  }

  // ---------- What it means that exactly these keys go ----------

  /** Exactly these keys are gone; every other one is as it was, and loads as it did. */
  ghost predicate ExactlyGone(a: Db, b: Db, gone: iset<int>) {
    && (forall k :: k in b.keys <==> k in a.keys && k !in gone)
    && (forall k :: k in b.keys ==> b.keys[k] == a.keys[k])
    && (forall k :: k !in gone ==> LoadKeyComponents(b, k) == LoadKeyComponents(a, k))
  }

  /** Exactly these grants are left, as they were. */
  ghost predicate ExactlyLeft(a: Db, b: Db, left: iset<int>) {
    && (forall g :: g in b.grants <==> g in a.grants && g in left)
    && (forall g :: g in b.grants ==> b.grants[g] == a.grants[g])
  }

  /** The key blobs of the keys that are gone are there for the collector, under either query. */
  ghost predicate LeftToCollector(a: Db, b: Db, gone: iset<int>) {
    forall i :: i in a.blobs && a.blobs[i].sc == KeyBlob && a.blobs[i].keyId in a.keys && a.blobs[i].keyId in gone ==>
      && i in OutOfDateKeyBlobs(b, false) && i in OutOfDateKeyBlobs(b, true)
      && b.blobs[i].blob == a.blobs[i].blob && MetaOf(b.blobMeta, i) == MetaOf(a.blobMeta, i)
  }

  lemma MarkedAreGone(db: Db, ids: set<int>, gone: iset<int>)
    requires forall k :: k in ids <==> k in db.keys && k in gone
    ensures ExactlyGone(db, MarkUnreferenced(db, ids), gone)
    ensures LeftToCollector(db, MarkUnreferenced(db, ids), gone)
  {
    var r := MarkUnreferenced(db, ids);
    forall k | k !in gone ensures LoadKeyComponents(r, k) == LoadKeyComponents(db, k) {
      RemovalLeavesOthers(db, ids, k);
    }
  }

  // ---------- A user, a namespace, one key ----------

  /** A uid or namespace is among those of the user. */
  predicate OfUser(n: int, user: int) {
    if user > 0 then user * 100000 <= n < (user + 1) * 100000
    else if user == 0 then -100000 < n < 100000
    else (user - 1) * 100000 < n <= user * 100000
  }

  lemma OfUserIsQuotient(n: int, user: int)
    ensures UserOf(n) == user <==> OfUser(n, user)
  {
  }

  /** A live key of an app of the user. */
  ghost predicate IsUsersAppKey(db: Db, k: int, user: int) {
    k in db.keys &&
    var row := db.keys[k];
    row.state == Live && row.keyType == Client && row.domain == Some(App) && row.nspace.Some? && OfUser(row.nspace.value, user)
  }

  /** The live keys of the user's apps and the user's live super keys. */
  ghost function KeysWithUser(db: Db, user: int): iset<int> {
    iset k | IsUsersAppKey(db, k, user)
      || (k in db.keys && db.keys[k].state == Live && db.keys[k].keyType == Super && db.keys[k].nspace == Some(user))
  }

  lemma KeysWithUserSelected(db: Db, user: int)
    ensures forall k :: k in KeysOfUser(db.keys, user) <==> k in db.keys && k in KeysWithUser(db, user)
  {
    forall n ensures UserOf(n) == user <==> OfUser(n, user) { OfUserIsQuotient(n, user); }
  }

  lemma GrantsWithoutUser(db: Db, user: int, ids: set<int>, gone: iset<int>)
    requires KeyInv(db) && forall k :: k in ids <==> k in db.keys && k in gone
    ensures ExactlyLeft(db, MarkUnreferenced(db.(grants := DropGrantsOfUser(db.grants, user)), ids),
      iset g | g in db.grants && !OfUser(db.grants[g].grantee, user) && db.grants[g].keyId !in gone)
  {
    forall n ensures UserOf(n) == user <==> OfUser(n, user) { OfUserIsQuotient(n, user); }
  }

  /**
   * Removing a user: the live keys of the user's apps and the user's live super keys are gone, and no
   * others. The grants left are those to keys that are left and to apps of other users.
   */
  lemma UserRemoved(db: Db, user: int)
    requires KeyInv(db)
    ensures var r := Exec(db, UnbindUser(user)); var gone := KeysWithUser(db, user);
      && r.result == Ok(user) && ExactlyGone(db, r.db, gone) && LeftToCollector(db, r.db, gone)
      && ExactlyLeft(db, r.db, iset g | g in db.grants && !OfUser(db.grants[g].grantee, user) && db.grants[g].keyId !in gone)
  {
    var gone, ids := KeysWithUser(db, user), KeysOfUser(db.keys, user);
    KeysWithUserSelected(db, user);
    var d := db.(grants := DropGrantsOfUser(db.grants, user));
    MarkedAreGone(d, ids, gone);
    SameButGrants(db, d, MarkUnreferenced(d, ids), gone);
    GrantsWithoutUser(db, user, ids, gone);
  }

  lemma SameButGrants(a: Db, d: Db, b: Db, gone: iset<int>)
    requires d == a.(grants := d.grants) && ExactlyGone(d, b, gone) && LeftToCollector(d, b, gone)
    ensures ExactlyGone(a, b, gone) && LeftToCollector(a, b, gone)
  {
    assert d.keys == a.keys && d.blobs == a.blobs && d.blobMeta == a.blobMeta;
    forall k | k !in gone ensures LoadKeyComponents(b, k) == LoadKeyComponents(a, k) {
      assert LoadKeyComponents(d, k) == LoadKeyComponents(a, k);
    }
  }

  /** The key loads with a parameter that binds it to a user's authentication. */
  ghost predicate LoadsAuthBound(db: Db, k: int) {
    LoadKeyComponents(db, k).Ok? &&
    exists i :: 0 <= i < |LoadKeyComponents(db, k).value.params| && LoadKeyComponents(db, k).value.params[i].tag == USER_SECURE_ID
  }

  /** The live keys of the user's apps that are bound to authentication. */
  ghost function AuthBoundWithUser(db: Db, user: int): iset<int> {
    iset k | IsUsersAppKey(db, k, user) && LoadsAuthBound(db, k)
  }

  lemma AuthBoundSelected(db: Db, user: int, k: int)
    ensures k in AuthBoundKeysOfUser(db, user) <==> k in db.keys && k in AuthBoundWithUser(db, user)
  {
    if k in db.keys {
      assert LoadKeyComponents(db, k).value.params == ParamsOf(db.params, k);
      if db.keys[k].nspace.Some? { OfUserIsQuotient(db.keys[k].nspace.value, user); }
    }
  }

  /** When a user's lock screen goes, so do exactly the live keys of the user's apps that are bound to authentication. */
  lemma AuthBoundRemoved(db: Db, user: int)
    requires KeyInv(db)
    ensures var r := Exec(db, UnbindAuthBound(user)); var gone := AuthBoundWithUser(db, user);
      && r.result == Ok(user) && ExactlyGone(db, r.db, gone) && LeftToCollector(db, r.db, gone)
      && ExactlyLeft(db, r.db, iset g | g in db.grants && db.grants[g].keyId !in gone)
  {
    var gone := AuthBoundWithUser(db, user);
    forall k ensures k in AuthBoundKeysOfUser(db, user) <==> k in db.keys && k in gone { AuthBoundSelected(db, user, k); }
    MarkedAreGone(db, AuthBoundKeysOfUser(db, user), gone);
    assert forall k :: k in db.keys ==> (k in AuthBoundKeysOfUser(db, user) <==> k in gone);
  }

  /** The client keys of a namespace, in whatever state. */
  ghost function KeysInNamespace(db: Db, domain: Domain, nspace: int): iset<int> {
    iset k | k in db.keys && db.keys[k].keyType == Client && db.keys[k].domain == Some(domain) && db.keys[k].nspace == Some(nspace)
  }

  lemma RemovedAreGone(db: Db, ids: set<int>, gone: iset<int>, grants: map<int, GrantRow>)
    requires forall k :: k in ids <==> k in db.keys && k in gone
    ensures ExactlyGone(db, RemoveKeys(db, ids).(grants := grants), gone)
  {
    var removed := RemoveKeys(db, ids);
    var r := removed.(grants := grants);
    forall k | k !in gone ensures LoadKeyComponents(r, k) == LoadKeyComponents(db, k) {
      RemovalLeavesOthers(db, ids, k);
      assert LoadKeyComponents(r, k) == LoadKeyComponents(removed, k);
    }
  }

  /**
   * Clearing a namespace: its client keys are gone, in whatever state, and no others. For an app the
   * grants it received go, too. Blob rows stay as they are.
   */
  lemma NamespaceCleared(db: Db, domain: Domain, nspace: int)
    requires KeyInv(db)
    ensures var r := Exec(db, UnbindNamespace(domain, nspace)); var gone := KeysInNamespace(db, domain, nspace);
      if domain != App && domain != SELinux then r == Commit(db, Err(InvalidArgument), false)
      else
        && r.result == Ok(nspace) && ExactlyGone(db, r.db, gone) && r.db.blobs == db.blobs && r.db.blobMeta == db.blobMeta
        && ExactlyLeft(db, r.db, iset g | g in db.grants && db.grants[g].keyId !in gone && !(domain == App && db.grants[g].grantee == nspace))
  {
    var gone, ids := KeysInNamespace(db, domain, nspace), ClientKeysIn(db.keys, domain, nspace);
    assert forall k :: k in ids <==> k in gone;
    var r := Exec(db, UnbindNamespace(domain, nspace)).db;
    if domain == App || domain == SELinux {
      RemovedAreGone(db, ids, gone, r.grants);
    }
  }

  /** Deleting a key: the one that the caller's descriptor finds is gone, if the caller may, and nothing else changes. */
  lemma KeyUnbound(db: Db, key: Descriptor, keyType: KeyType, caller: int, permitted: bool)
    requires KeyInv(db)
    ensures var r := Exec(db, UnbindKey(key, keyType, caller, permitted)); var access := LoadAccessTuple(db, key, keyType, caller);
      if access.Err? || !permitted then r == Commit(db, Err(if access.Err? then access.error else PermissionDenied), false)
      else var k := access.value.keyId;
        && r.result == Ok(k) && k in db.keys && k !in r.db.keys
        && ExactlyGone(db, r.db, iset{k}) && LeftToCollector(db, r.db, iset{k})
        && ExactlyLeft(db, r.db, iset g | g in db.grants && db.grants[g].keyId != k)
  {
    var access := LoadAccessTuple(db, key, keyType, caller);
    if access.Ok? {
      AccessIsLive(db, key, keyType, caller);
      MarkedAreGone(db, {access.value.keyId}, iset{access.value.keyId});
    }
  }

  // ---------- One component ----------

  lemma DeletedComponent(db: Db, keyId: int, sc: SubComponent, k: int, c: SubComponent)
    ensures Component(DeleteComponent(db, keyId, sc), k, c) == if k == keyId && c == sc then None else Component(db, k, c)
  {
    var r := DeleteComponent(db, keyId, sc);
    if k == keyId && c == sc {
      assert forall i :: i in r.blobs ==> !(r.blobs[i].keyId == k && r.blobs[i].sc == c);
    } else {
      assert forall i :: i in RowsOf(r.blobs, k, c) <==> i in RowsOf(db.blobs, k, c);
    }
  }

  /** Setting a component to nothing: a key blob cannot be taken away, and of a certificate exactly that component stops loading. */
  lemma ComponentRemoved(db: Db, keyId: int, sc: SubComponent, k: int, c: SubComponent)
    ensures var r := Exec(db, SetBlob(keyId, sc, None, None));
      if sc == KeyBlob then r == Commit(db, Err(System), false)
      else
        && r.result == Ok(keyId) && r.db.keys == db.keys && r.db.params == db.params && r.db.keyMeta == db.keyMeta && r.db.grants == db.grants
        && Component(r.db, k, c) == if k == keyId && c == sc then None else Component(db, k, c)
  {
    DeletedComponent(db, keyId, sc, k, c);
  }
}
