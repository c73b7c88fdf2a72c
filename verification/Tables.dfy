/**
 * The persistent key database of Keystore 2.0: its tables, and the effect of each SQL statement
 * (or group of statements that always run together) on them.
 *
 * A table is a map from row id to row. Columns that may be NULL are options; a comparison with
 * NULL is false, as in SQL.
 */
module Tables {

  datatype Option<+T> = None | Some(value: T)

  datatype Error = KeyNotFound | System | InvalidArgument | PermissionDenied | KeyExhausted | KeyUserNotAuthenticated | Locked

  datatype Result<+T> = Ok(value: T) | Err(error: Error)

  type Bytes = seq<nat>

  /** Metadata rows of one blob or key: tag to data, UNIQUE (id, tag). */
  type Meta = map<int, Bytes>

  /** Aliases are compared byte by byte, as SQLite's BINARY collation and Rust's str do. */
  type Alias = seq<nat>

  datatype Domain = App | Grant | SELinux | Blob | KeyId

  datatype KeyType = Client | Super

  datatype LifeCycle = Existing | Live | Unreferenced

  datatype BlobState = Current | Superseded | Orphaned

  datatype SubComponent = KeyBlob | Cert | CertChain

  datatype KeyRow = KeyRow(
    keyType: KeyType, domain: Option<Domain>, nspace: Option<int>, alias: Option<Alias>,
    state: LifeCycle, kmUuid: Bytes)

  datatype BlobRow = BlobRow(sc: SubComponent, keyId: int, blob: Bytes, state: BlobState)

  datatype Param = Param(tag: int, data: int, securityLevel: int)

  datatype GrantRow = GrantRow(grantee: int, keyId: int, accessVector: int)

  datatype Db = Db(
    keys: map<int, KeyRow>,
    blobs: map<int, BlobRow>,
    blobMeta: map<int, Meta>,
    params: map<int, seq<Param>>,
    keyMeta: map<int, Meta>,
    grants: map<int, GrantRow>)

  /** The key id that is never assigned to a key entry. */
  const UNASSIGNED_KEY_ID: int := -1

  /** Number of uids that belong to one Android user. */
  const AID_USER_OFFSET: int := 100000

  const USAGE_COUNT_LIMIT: int := 805306773

  const USER_SECURE_ID: int := -1610612234

  // Tags of blob metadata.
  const ENCRYPTED_BY: int := 0
  const IV: int := 2
  const AEAD_TAG: int := 3
  const KM_UUID: int := 4
  const MAX_BOOT_LEVEL: int := 6

  /** Stands for the NULL that is stored under ENCRYPTED_BY for a key derived from a password. */
  const BY_PASSWORD: Bytes := []

  const EMPTY_DB := Db(map[], map[], map[], map[], map[], map[])

  // ---------- Row ids ----------

  /** A set of ids is empty or has a member. */
  lemma Inhabited(s: set<int>)
    ensures s == {} || exists x :: x in s
  {
    if !exists x :: x in s {
      assert forall y :: y !in s;
      assert s == {};
    }
  }

  lemma {:induction false} HasGreatest(s: set<int>)
    requires s != {}
    ensures exists m :: m in s && forall y :: y in s ==> y <= m
  {
    Inhabited(s);
    var x :| x in s;
    var rest := s - {x};
    assert forall y :: y in s ==> y == x || y in rest;
    if rest != {} {
      HasGreatest(rest);
      var m :| m in rest && forall y :: y in rest ==> y <= m;
      var g := if x <= m then m else x;
      assert g in s && forall y :: y in s ==> y <= g;
    }
  }

  /**
   * SQLite's rule for the rowid of a new row of an INTEGER PRIMARY KEY table that is not
   * AUTOINCREMENT: one more than the largest rowid in use. The id of a deleted row is therefore
   * given out again if the row was the last one.
   */
  function NextRowId(ids: set<int>): (next: int)
    ensures forall i :: i in ids ==> i < next
    ensures ids != {} ==> next - 1 in ids
    ensures ids == {} ==> next == 1
  {
    if ids == {} then 1 else
      HasGreatest(ids);
      var m :| m in ids && forall y :: y in ids ==> y <= m;
      m + 1
  }

  lemma {:induction false} HasLeast(s: set<int>)
    requires s != {}
    ensures exists m :: m in s && forall y :: y in s ==> m <= y
  {
    Inhabited(s);
    var x :| x in s;
    var rest := s - {x};
    assert forall y :: y in s ==> y == x || y in rest;
    if rest != {} {
      HasLeast(rest);
      var m :| m in rest && forall y :: y in rest ==> m <= y;
      var g := if x <= m then x else m;
      assert g in s && forall y :: y in s ==> g <= y;
    }
  }

  function Least(s: set<int>): (m: int)
    requires s != {}
    ensures m in s && forall y :: y in s ==> m <= y
  {
    HasLeast(s);
    var m :| m in s && forall y :: y in s ==> m <= y;
    m
  }

  // ---------- Blob rows ----------

  predicate SameComponent(a: BlobRow, b: BlobRow) {
    a.keyId == b.keyId && a.sc == b.sc
  }

  /** Row `i` is the one `SELECT MAX(id) ... GROUP BY keyentryid, subcomponent_type` keeps. */
  predicate IsLatest(blobs: map<int, BlobRow>, i: int) {
    i in blobs && forall j :: j in blobs && SameComponent(blobs[j], blobs[i]) ==> j <= i
  }

  /** The out-of-date test that compares row ids: superseded by a later row, or without key. */
  predicate OutOfDateById(db: Db, i: int) {
    i in db.blobs && (!IsLatest(db.blobs, i) || db.blobs[i].keyId !in db.keys)
  }

  /** The out-of-date test that reads the state column. */
  predicate OutOfDateByState(db: Db, i: int) {
    i in db.blobs && db.blobs[i].state != Current
  }

  predicate OutOfDate(db: Db, useStateColumn: bool, i: int) {
    if useStateColumn then OutOfDateByState(db, i) else OutOfDateById(db, i)
  }

  /** The key blobs one of the two queries of the garbage collector selects (without LIMIT). */
  function OutOfDateKeyBlobs(db: Db, useStateColumn: bool): set<int> {
    set i | i in db.blobs && db.blobs[i].sc == KeyBlob && OutOfDate(db, useStateColumn, i)
  }

  function MetaOf(table: map<int, Meta>, id: int): Meta {
    if id in table then table[id] else map[]
  }

  /** INSERT OR REPLACE of every tag of `meta`. */
  function StoreMeta(table: map<int, Meta>, id: int, meta: Meta): map<int, Meta> {
    table[id := MetaOf(table, id) + meta]
  }

  function MarkSuperseded(blobs: map<int, BlobRow>, keyId: int, sc: SubComponent): map<int, BlobRow> {
    map i | i in blobs ::
      if blobs[i].keyId == keyId && blobs[i].sc == sc then blobs[i].(state := Superseded) else blobs[i]
  }

  function MarkOrphaned(blobs: map<int, BlobRow>, keyIds: set<int>): map<int, BlobRow> {
    map i | i in blobs :: if blobs[i].keyId in keyIds then blobs[i].(state := Orphaned) else blobs[i]
  }

  /**
   * set_blob_internal with a blob: the rows of the same key and type become superseded, and a
   * new, current row is added. Metadata goes to the row with the largest id, the new one.
   */
  function InsertBlob(db: Db, keyId: int, sc: SubComponent, blob: Bytes, meta: Option<Meta>): Db {
    var id := NextRowId(db.blobs.Keys);
    db.(blobs := MarkSuperseded(db.blobs, keyId, sc)[id := BlobRow(sc, keyId, blob, Current)],
        blobMeta := match meta
          case None => db.blobMeta
          case Some(m) => StoreMeta(db.blobMeta, id, m))
  }

  /** set_blob_internal without a blob: all rows of that type for the key go; metadata stays. */
  function DeleteComponent(db: Db, keyId: int, sc: SubComponent): Db {
    db.(blobs := map i | i in db.blobs && !(db.blobs[i].keyId == keyId && db.blobs[i].sc == sc) :: db.blobs[i])
  }

  // ---------- Key rows and their dependents ----------

  function DropGrantsTo(grants: map<int, GrantRow>, keyIds: set<int>): map<int, GrantRow> {
    map g | g in grants && grants[g].keyId !in keyIds :: grants[g]
  }

  /** Removes key entries with their metadata, parameters and grants; blob rows stay behind. */
  function RemoveKeys(db: Db, keyIds: set<int>): Db {
    db.(keys := db.keys - keyIds,
        keyMeta := db.keyMeta - keyIds,
        params := db.params - keyIds,
        grants := DropGrantsTo(db.grants, keyIds))
  }

  /** mark_unreferenced for each of the given keys: the blob rows are marked orphaned, too. */
  function MarkUnreferenced(db: Db, keyIds: set<int>): Db {
    var r := RemoveKeys(db, keyIds);
    r.(blobs := MarkOrphaned(r.blobs, keyIds))
  }

  function KeysInState(keys: map<int, KeyRow>, state: LifeCycle): set<int> {
    set k | k in keys && keys[k].state == state
  }

  function CleanupUnreferenced(db: Db): Db {
    RemoveKeys(db, KeysInState(db.keys, Unreferenced))
  }

  predicate AtLocation(row: KeyRow, domain: Domain, nspace: int, alias: Alias) {
    row.domain == Some(domain) && row.nspace == Some(nspace) && row.alias == Some(alias)
  }

  function Evicted(row: KeyRow): KeyRow {
    row.(alias := None, domain := None, nspace := None, state := Unreferenced)
  }

  /** First statement of rebind_alias: whatever owns the location loses it. */
  function EvictAlias(keys: map<int, KeyRow>, domain: Domain, nspace: int, alias: Alias, keyType: KeyType)
    : map<int, KeyRow>
  {
    map k | k in keys ::
      if AtLocation(keys[k], domain, nspace, alias) && keys[k].keyType == keyType then Evicted(keys[k]) else keys[k]
  }

  predicate Occupied(keys: map<int, KeyRow>, domain: Domain, nspace: int, alias: Alias, keyType: KeyType) {
    exists k :: k in keys && AtLocation(keys[k], domain, nspace, alias) && keys[k].keyType == keyType
  }

  /** The user a uid or namespace belongs to: SQLite's integer division rounds toward zero. */
  function UserOf(uid: int): int {
    if uid >= 0 then uid / AID_USER_OFFSET else -((-uid) / AID_USER_OFFSET)
  }

  // ---------- What a loaded key consists of ----------

  datatype KeyEntry = KeyEntry(
    id: int, keyBlob: Option<(Bytes, Meta)>, cert: Option<Bytes>, certChain: Option<Bytes>,
    kmUuid: Bytes, params: seq<Param>, keyMeta: Meta)

  function RowsOf(blobs: map<int, BlobRow>, keyId: int, sc: SubComponent): set<int> {
    set i | i in blobs && blobs[i].keyId == keyId && blobs[i].sc == sc
  }

  /** The row load_blob_components reads for one component: the one with the largest id. */
  function LatestRow(blobs: map<int, BlobRow>, keyId: int, sc: SubComponent): (r: Option<int>)
    ensures r.Some? ==> IsLatest(blobs, r.value) && blobs[r.value].keyId == keyId && blobs[r.value].sc == sc
    ensures r.None? ==> forall i :: i in blobs ==> !(blobs[i].keyId == keyId && blobs[i].sc == sc)
  {
    var rows := RowsOf(blobs, keyId, sc);
    if rows == {} then
      assert forall i :: i in blobs && blobs[i].keyId == keyId && blobs[i].sc == sc ==> i in rows;
      None
    else
      var m := NextRowId(rows) - 1;
      assert m in rows && forall j :: j in blobs && SameComponent(blobs[j], blobs[m]) ==> j in rows;
      Some(m)
  }

  function LatestBlob(db: Db, keyId: int, sc: SubComponent): Option<Bytes> {
    match LatestRow(db.blobs, keyId, sc)
    case None => None
    case Some(i) => Some(db.blobs[i].blob)
  }

  /** load_key_components with all components requested. It fails without a key entry. */
  function LoadKeyComponents(db: Db, keyId: int): Result<KeyEntry> {
    if keyId !in db.keys then Err(System) else
    Ok(KeyEntry(
      keyId,
      match LatestRow(db.blobs, keyId, KeyBlob)
        case None => None
        case Some(i) => Some((db.blobs[i].blob, MetaOf(db.blobMeta, i))),
      LatestBlob(db, keyId, Cert),
      LatestBlob(db, keyId, CertChain),
      db.keys[keyId].kmUuid,
      if keyId in db.params then db.params[keyId] else [],
      MetaOf(db.keyMeta, keyId)))
  }
}
