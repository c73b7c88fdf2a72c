/**
 * The transactions of the key database, each as one function from the tables before to the tables
 * after. A transaction that fails is rolled back, so it leaves the tables as they were.
 *
 * Random ids, permission decisions and the clock are parameters.
 */
module Transactions {
  import opened Tables

  datatype Descriptor = Descriptor(domain: Domain, nspace: int, alias: Option<Alias>, blob: Option<Bytes>)

  /** What load_access_tuple finds out about a key before permissions are checked. */
  datatype Access = Access(keyId: int, descriptor: Descriptor, vector: Option<int>)

  /** Outcome of a transaction; `needGc` is the hint that wakes the garbage collector. */
  datatype Commit = Commit(db: Db, result: Result<int>, needGc: bool)

  datatype Tx =
    | StoreNewKey(id: int, key: Descriptor, keyType: KeyType, params: seq<Param>,
                  superseded: Option<(Bytes, Meta)>, blob: Bytes, meta: Meta,
                  cert: Option<Bytes>, certChain: Option<Bytes>, keyMeta: Meta, kmUuid: Bytes)
    | StoreNewCertificate(id: int, key: Descriptor, keyType: KeyType, chain: Bytes,
                          keyMeta: Meta, kmUuid: Bytes)
    | StoreSuperKey(id: int, user: int, superAlias: Alias, blob: Bytes, meta: Meta, keyMeta: Meta, kmUuid: Bytes)
    | SetBlob(keyId: int, sc: SubComponent, newBlob: Option<Bytes>, newMeta: Option<Meta>)
    | SetDeletedBlob(blob: Bytes, meta: Meta)
    | MigrateKey(keyId: int, destination: Descriptor, caller: int, permitted: bool)
    | UnbindKey(key: Descriptor, keyType: KeyType, caller: int, permitted: bool)
    | UseKey(keyId: int)
    | UnbindNamespace(domain: Domain, nspace: int)
    | UnbindUser(user: int)
    | UnbindAuthBound(user: int)
    | AddGrant(id: int, key: Descriptor, caller: int, grantee: int, vector: int, permitted: bool)
    | RemoveGrant(key: Descriptor, caller: int, grantee: int, permitted: bool)
    | CleanupLeftovers

  function Abort(db: Db, e: Error): Commit {
    Commit(db, Err(e), false)
  }

  // ---------- Looking keys up ----------

  function LiveAt(keys: map<int, KeyRow>, keyType: KeyType, domain: Domain, nspace: int, alias: Alias): set<int> {
    set k | k in keys && keys[k].keyType == keyType && keys[k].state == Live && AtLocation(keys[k], domain, nspace, alias)
  }

  /** load_key_entry_id: no row is KEY_NOT_FOUND, a second row is a system error. */
  function LoadKeyEntryId(db: Db, key: Descriptor, keyType: KeyType): Result<int> {
    if key.alias.None? then Err(System) else
      var ids := LiveAt(db.keys, keyType, key.domain, key.nspace, key.alias.value);
      if ids == {} then Err(KeyNotFound)
      else if ids == {Least(ids)} then Ok(Least(ids))
      else Err(System)
  }

  function GrantsFor(grants: map<int, GrantRow>, keyId: int, grantee: int): set<int> {
    set g | g in grants && grants[g].keyId == keyId && grants[g].grantee == grantee
  }

  /** load_access_tuple. */
  function LoadAccessTuple(db: Db, key: Descriptor, keyType: KeyType, caller: int): Result<Access> {
    match key.domain
    case App =>
      var owned := key.(nspace := caller);
      (match LoadKeyEntryId(db, owned, keyType)
       case Ok(k) => Ok(Access(k, owned, None))
       case Err(e) => Err(e))
    case SELinux =>
      (match LoadKeyEntryId(db, key, keyType)
       case Ok(k) => Ok(Access(k, key, None))
       case Err(e) => Err(e))
    case Grant =>
      if key.nspace in db.grants && db.grants[key.nspace].grantee == caller
         && db.grants[key.nspace].keyId in db.keys && db.keys[db.grants[key.nspace].keyId].state == Live
      then Ok(Access(db.grants[key.nspace].keyId, key, Some(db.grants[key.nspace].accessVector)))
      else Err(KeyNotFound)
    case KeyId =>
      if key.nspace !in db.keys || db.keys[key.nspace].state != Live then Err(KeyNotFound) else
        var row := db.keys[key.nspace];
        if row.domain.None? || row.nspace.None? then Err(System) else
          var received := GrantsFor(db.grants, key.nspace, caller);
          var vector :=
            if (row.domain.value != App || row.nspace.value != caller) && received != {}
            then Some(db.grants[Least(received)].accessVector) else None;
          Ok(Access(key.nspace, key.(domain := row.domain.value, nspace := row.nspace.value), vector))
    case Blob => Err(InvalidArgument)
  }

  // ---------- Creating keys ----------

  predicate Storable(key: Descriptor) {
    key.alias.Some? && (key.domain == App || key.domain == SELinux) && key.blob.None?
  }

  function CreateKeyEntry(db: Db, id: int, domain: Domain, nspace: int, keyType: KeyType, kmUuid: Bytes): Db {
    db.(keys := db.keys[id := KeyRow(keyType, Some(domain), Some(nspace), None, Existing, kmUuid)])
  }

  function InsertOptional(db: Db, keyId: int, sc: SubComponent, blob: Option<Bytes>): Db {
    match blob
    case None => db
    case Some(b) => InsertBlob(db, keyId, sc, b, None)
  }

  function ParamsOf(params: map<int, seq<Param>>, keyId: int): seq<Param> {
    if keyId in params then params[keyId] else []
  }

  function InsertParams(db: Db, keyId: int, params: seq<Param>): Db {
    db.(params := db.params[keyId := ParamsOf(db.params, keyId) + params])
  }

  function InsertKeyMeta(db: Db, keyId: int, meta: Meta): Db {
    db.(keyMeta := StoreMeta(db.keyMeta, keyId, meta))
  }

  predicate AwaitsAlias(row: KeyRow, key: Descriptor, keyType: KeyType) {
    row.domain == Some(key.domain) && row.nspace == Some(key.nspace) && row.state == Existing && row.keyType == keyType
  }

  /** rebind_alias: the location moves from whoever holds it to the freshly created entry. */
  function RebindAlias(db: Db, id: int, key: Descriptor, keyType: KeyType): Result<Db>
    requires key.alias.Some?
  {
    var evicted := EvictAlias(db.keys, key.domain, key.nspace, key.alias.value, keyType);
    if id in evicted && AwaitsAlias(evicted[id], key, keyType)
    then Ok(db.(keys := evicted[id := evicted[id].(alias := key.alias, state := Live)]))
    else Err(System)
  }

  function StoredComponents(db: Db, tx: Tx): Db
    requires tx.StoreNewKey?
  {
    var created := CreateKeyEntry(db, tx.id, tx.key.domain, tx.key.nspace, tx.keyType, tx.kmUuid);
    var prior := match tx.superseded
      case None => created
      case Some((b, m)) => InsertBlob(created, tx.id, KeyBlob, b, Some(m));
    var current := InsertBlob(prior, tx.id, KeyBlob, tx.blob, Some(tx.meta));
    var certified := InsertOptional(InsertOptional(current, tx.id, Cert, tx.cert), tx.id, CertChain, tx.certChain);
    InsertKeyMeta(InsertParams(certified, tx.id, tx.params), tx.id, tx.keyMeta)
  }

  function StoredCertificate(db: Db, tx: Tx): Db
    requires tx.StoreNewCertificate?
  {
    var created := CreateKeyEntry(db, tx.id, tx.key.domain, tx.key.nspace, tx.keyType, tx.kmUuid);
    InsertKeyMeta(InsertBlob(created, tx.id, CertChain, tx.chain, None), tx.id, tx.keyMeta)
  }

  function StoredSuperKey(db: Db, tx: Tx): Db
    requires tx.StoreSuperKey?
  {
    var row := KeyRow(Super, Some(App), Some(tx.user), Some(tx.superAlias), Live, tx.kmUuid);
    var created := db.(keys := db.keys[tx.id := row]);
    InsertBlob(InsertKeyMeta(created, tx.id, tx.keyMeta), tx.id, KeyBlob, tx.blob, Some(tx.meta))
  }

  // ---------- Selecting keys to remove ----------

  function ClientKeysIn(keys: map<int, KeyRow>, domain: Domain, nspace: int): set<int> {
    set k | k in keys && keys[k].domain == Some(domain) && keys[k].nspace == Some(nspace) && keys[k].keyType == Client
  }

  predicate AppKeyOfUser(row: KeyRow, user: int) {
    row.keyType == Client && row.domain == Some(App) && row.nspace.Some? && UserOf(row.nspace.value) == user
    && row.state == Live
  }

  predicate SuperKeyOfUser(row: KeyRow, user: int) {
    row.keyType == Super && row.nspace == Some(user) && row.state == Live
  }

  function KeysOfUser(keys: map<int, KeyRow>, user: int): set<int> {
    set k | k in keys && (AppKeyOfUser(keys[k], user) || SuperKeyOfUser(keys[k], user))
  }

  predicate AuthBound(params: seq<Param>) {
    exists i :: 0 <= i < |params| && params[i].tag == USER_SECURE_ID
  }

  function AuthBoundKeysOfUser(db: Db, user: int): set<int> {
    set k | k in db.keys && AppKeyOfUser(db.keys[k], user) && AuthBound(ParamsOf(db.params, k))
  }

  function DropReceivedGrants(grants: map<int, GrantRow>, grantee: int): map<int, GrantRow> {
    map g | g in grants && grants[g].grantee != grantee :: grants[g]
  }

  function DropGrantsOfUser(grants: map<int, GrantRow>, user: int): map<int, GrantRow> {
    map g | g in grants && UserOf(grants[g].grantee) != user :: grants[g]
  }

  // ---------- Limited use ----------

  /** The first usage count limit among the parameters, if any. */
  function UsageLimit(params: seq<Param>): Option<int> {
    if params == [] then None
    else if params[0].tag == USAGE_COUNT_LIMIT then Some(params[0].data)
    else UsageLimit(params[1..])
  }

  function Decremented(p: Param): Param {
    if p.tag == USAGE_COUNT_LIMIT && p.data > 0 then p.(data := p.data - 1) else p
  }

  function CountUse(params: seq<Param>): seq<Param> {
    seq(|params|, i requires 0 <= i < |params| => Decremented(params[i]))
  }

  // ---------- The transactions ----------

  function ExecSetBlob(db: Db, keyId: int, sc: SubComponent, blob: Option<Bytes>, meta: Option<Meta>): Commit {
    match blob
    case Some(b) => Commit(InsertBlob(db, keyId, sc, b, meta), Ok(keyId), true)
    case None =>
      if sc == KeyBlob then Abort(db, System) else Commit(DeleteComponent(db, keyId, sc), Ok(keyId), true)
  }

  function Relocated(key: Descriptor, caller: int): Descriptor {
    if key.domain == App then key.(nspace := caller) else key
  }

  predicate LocationTaken(keys: map<int, KeyRow>, key: Descriptor)
    requires key.alias.Some?
  {
    exists k :: k in keys && AtLocation(keys[k], key.domain, key.nspace, key.alias.value)
  }

  function ExecMigrate(db: Db, keyId: int, destination: Descriptor, caller: int, permitted: bool): Commit {
    var dest := Relocated(destination, caller);
    if dest.domain != App && dest.domain != SELinux then Abort(db, InvalidArgument)
    else if !permitted then Abort(db, PermissionDenied)
    else if dest.alias.None? then Abort(db, InvalidArgument)
    else if LocationTaken(db.keys, dest) then Abort(db, InvalidArgument)
    else if keyId !in db.keys then Abort(db, System)
    else
      var row := db.keys[keyId].(alias := dest.alias, domain := Some(dest.domain), nspace := Some(dest.nspace));
      Commit(db.(keys := db.keys[keyId := row]), Ok(keyId), false)
  }

  function ExecUseKey(db: Db, keyId: int): Commit {
    var params := ParamsOf(db.params, keyId);
    match UsageLimit(params)
    case None => Abort(db, KeyExhausted)
    case Some(limit) =>
      var counted := db.(params := db.params[keyId := CountUse(params)]);
      if limit == 1 then Commit(MarkUnreferenced(counted, {keyId}), Ok(keyId), keyId in db.keys)
      else if limit == 0 then Abort(db, KeyExhausted)
      else Commit(counted, Ok(keyId), false)
  }

  function ExecAddGrant(db: Db, id: int, keyId: int, grantee: int, vector: int): Commit {
    var existing := GrantsFor(db.grants, keyId, grantee);
    if existing != {} then
      var g := Least(existing);
      Commit(db.(grants := db.grants[g := db.grants[g].(accessVector := vector)]), Ok(g), false)
    else
      Commit(db.(grants := db.grants[id := GrantRow(grantee, keyId, vector)]), Ok(id), false)
  }

  function Exec(db: Db, tx: Tx): Commit {
    match tx
    case StoreNewKey(id, key, keyType, _, superseded, _, _, _, _, _, _) =>
      if !Storable(key) then Abort(db, InvalidArgument) else
        var stored := StoredComponents(db, tx);
        (match RebindAlias(stored, id, key, keyType)
         case Err(e) => Abort(db, e)
         case Ok(bound) =>
           Commit(bound, Ok(id),
                  Occupied(stored.keys, key.domain, key.nspace, key.alias.value, keyType) || superseded.Some?))
    case StoreNewCertificate(id, key, keyType, _, _, _) =>
      if !Storable(key) then Abort(db, InvalidArgument) else
        var stored := StoredCertificate(db, tx);
        (match RebindAlias(stored, id, key, keyType)
         case Err(e) => Abort(db, e)
         case Ok(bound) =>
           Commit(bound, Ok(id), Occupied(stored.keys, key.domain, key.nspace, key.alias.value, keyType)))
    case StoreSuperKey(id, _, _, _, _, _, _) => Commit(StoredSuperKey(db, tx), Ok(id), false)
    case SetBlob(keyId, sc, blob, meta) => ExecSetBlob(db, keyId, sc, blob, meta)
    case SetDeletedBlob(blob, meta) => ExecSetBlob(db, UNASSIGNED_KEY_ID, KeyBlob, Some(blob), Some(meta))
    case MigrateKey(keyId, destination, caller, permitted) => ExecMigrate(db, keyId, destination, caller, permitted)
    case UnbindKey(key, keyType, caller, permitted) =>
      (match LoadAccessTuple(db, key, keyType, caller)
       case Err(e) => Abort(db, e)
       case Ok(access) =>
         if !permitted then Abort(db, PermissionDenied)
         else Commit(MarkUnreferenced(db, {access.keyId}), Ok(access.keyId), access.keyId in db.keys))
    case UseKey(keyId) => ExecUseKey(db, keyId)
    case UnbindNamespace(domain, nspace) =>
      if domain != App && domain != SELinux then Abort(db, InvalidArgument) else
        var r := RemoveKeys(db, ClientKeysIn(db.keys, domain, nspace));
        Commit(if domain == App then r.(grants := DropReceivedGrants(r.grants, nspace)) else r, Ok(nspace), true)
    case UnbindUser(user) =>
      var ids := KeysOfUser(db.keys, user);
      Commit(MarkUnreferenced(db.(grants := DropGrantsOfUser(db.grants, user)), ids), Ok(user), ids != {})
    case UnbindAuthBound(user) =>
      var ids := AuthBoundKeysOfUser(db, user);
      Commit(MarkUnreferenced(db, ids), Ok(user), ids != {})
    case AddGrant(id, key, caller, grantee, vector, permitted) =>
      (match LoadAccessTuple(db, key, Client, caller)
       case Err(e) => Abort(db, e)
       case Ok(access) =>
         if !permitted then Abort(db, PermissionDenied)
         else ExecAddGrant(db, id, access.keyId, grantee, vector))
    case RemoveGrant(key, caller, grantee, permitted) =>
      (match LoadAccessTuple(db, key, Client, caller)
       case Err(e) => Abort(db, e)
       case Ok(access) =>
         if !permitted then Abort(db, PermissionDenied)
         else Commit(db.(grants := db.grants - GrantsFor(db.grants, access.keyId, grantee)), Ok(access.keyId), false))
    case CleanupLeftovers =>
      Commit(db.(keys := map k | k in db.keys ::
                   if db.keys[k].state == Existing then db.keys[k].(state := Unreferenced) else db.keys[k]),
             Ok(0), true)
  }

  // ---------- Which transactions a run may contain ----------

  /** The condition insert_with_retry enforces: the id is not UNASSIGNED and not a key's id. */
  predicate Unused(db: Db, id: int) {
    id != UNASSIGNED_KEY_ID && id !in db.keys
  }

  /** The id of a new key does not belong to blob rows that a removed key left behind. */
  predicate NoLeftBehindBlobs(db: Db, id: int) {
    forall i :: i in db.blobs ==> db.blobs[i].keyId != id
  }

  /**
   * Random ids hit neither an id in use (the code draws again) nor one that leftover blob rows
   * still carry (the code relies on 64 random bits). Certificates come without metadata, as in
   * every call in the repository.
   */
  predicate Admissible(db: Db, tx: Tx) {
    match tx
    case StoreNewKey(id, _, _, _, _, _, _, _, _, _, _) => Unused(db, id) && NoLeftBehindBlobs(db, id)
    case StoreNewCertificate(id, _, _, _, _, _) => Unused(db, id) && NoLeftBehindBlobs(db, id)
    case StoreSuperKey(id, _, _, _, _, _, _) => Unused(db, id) && NoLeftBehindBlobs(db, id)
    case SetBlob(_, sc, _, meta) => sc == KeyBlob || meta.None?
    case AddGrant(id, _, _, _, _, _) => id != UNASSIGNED_KEY_ID && id !in db.grants
    case _ => true
  }
}
