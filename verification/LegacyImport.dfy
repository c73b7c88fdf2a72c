/**
 * Moving keys from the files of the legacy keystore into the database, and deleting them in bulk.
 *
 * What the outside answers (the file system, KeyMint, the cipher, whether a transaction commits) is
 * a parameter of each call, so that every way a call can be cut short is covered.
 */
module LegacyImport {
  import opened Tables
  import opened Transactions
  import opened BlobRows
  import opened References
  import opened StoreLoad
  import opened Lookups
  import opened GarbageCollection
  import opened GcHandOver
  import opened KeystoreDatabase
  import opened BlobStates
  import opened StateColumn

  // ---------- Legacy entries ----------

  datatype BlobValue = Encrypted(iv: Bytes, tag: Bytes, data: Bytes) | Decrypted(data: Bytes)

  /** `fromFile`: the parameters come from a characteristics file and lack what KeyMint knows. */
  datatype KmBlob = KmBlob(value: BlobValue, strongbox: bool, deCritical: bool, fromFile: bool, params: seq<Param>)

  datatype Entry = Entry(km: Option<KmBlob>, userCert: Option<Bytes>, caCert: Option<Bytes>)

  datatype Name = Name(uid: int, alias: Alias)

  datatype Reading = Readable | LockedComponent | Unreadable(error: Error)

  datatype Outside = Outside(
    reading: Reading,
    superKey: bool,                               // the caller has the user's super key at hand
    unsealed: bool,                               // decrypting with it succeeds
    keyMint: Result<(seq<Param>, Option<Bytes>)>, // characteristics, and the blob if it was upgraded
    sealed: Option<(Bytes, Bytes, Bytes)>,        // iv, tag and data of the upgraded blob
    superKeyKnown: bool,                          // the query for the super key succeeds
    commits: bool,                                // the transaction that stores the key succeeds
    id: int, creation: Meta,
    removed: bool, removalOk: bool)               // the files are gone, and the call says so

  const ROLLBACK_RESISTANCE := 1879048495
  const AID_SYSTEM := 1000

  /** "USER_SUPER_KEY" */
  const USER_SUPER_KEY: Alias := [85, 83, 69, 82, 95, 83, 85, 80, 69, 82, 95, 75, 69, 89]

  /** The uuid under which certificates without a key are stored. */
  const KEYSTORE_UUID: Bytes := [0x41, 0xe3, 0xb9, 0xce, 0x27, 0x58, 0x4e, 0x91, 0xbc, 0xfd, 0xa5, 0x5d, 0x91, 0x85, 0xab, 0x11]

  /** Stands for an integer column value. */
  function SqlInteger(n: int): Bytes {
    if n >= 0 then [0, n] else [1, -n]
  }

  function SuperKeyDescriptor(user: int): Descriptor {
    Descriptor(App, user, Some(USER_SUPER_KEY), None)
  }

  /** The super key of a user, as the database has it. */
  function SuperKeyOf(db: Db, user: int): Result<int> {
    LoadKeyEntryId(db, SuperKeyDescriptor(user), Super)
  }

  function SealedMeta(iv: Bytes, tag: Bytes, superKeyId: int, uuid: Bytes): Meta {
    map[IV := iv, AEAD_TAG := tag, ENCRYPTED_BY := SqlInteger(superKeyId), KM_UUID := uuid]
  }

  // ---------- Parameters ----------

  predicate SameValue(a: Param, b: Param) {
    a.tag == b.tag && a.data == b.data
  }

  ghost predicate HasValue(ps: seq<Param>, p: Param) {
    exists i :: 0 <= i < |ps| && SameValue(ps[i], p)
  }

  method ContainsValue(ps: seq<Param>, p: Param) returns (found: bool)
    ensures found <==> HasValue(ps, p)
  {
    for i := 0 to |ps|
      invariant forall j :: 0 <= j < i ==> !SameValue(ps[j], p)
    {
      if SameValue(ps[i], p) {
        return true;
      }
    }
    return false;
  }

  /** What KeyMint reports comes first and unchanged; of the legacy parameters, new values are added once. */
  method Augment(fromKm: seq<Param>, legacy: seq<Param>) returns (r: seq<Param>)
    ensures fromKm <= r
    ensures forall p :: HasValue(r, p) <==> HasValue(fromKm, p) || HasValue(legacy, p)
    ensures forall i :: |fromKm| <= i < |r| ==> r[i] in legacy && !HasValue(r[..i], r[i])
  {
    r := fromKm;
    for i := 0 to |legacy|
      invariant fromKm <= r
      invariant forall p :: HasValue(r, p) <==> HasValue(fromKm, p) || HasValue(legacy[..i], p)
      invariant forall j :: |fromKm| <= j < |r| ==> r[j] in legacy && !HasValue(r[..j], r[j])
    {
      var found := ContainsValue(r, legacy[i]);
      AppendedValue(legacy[..i], legacy[i]);
      assert legacy[..i] + [legacy[i]] == legacy[..i + 1];
      if found {
        SameValueFound(r, legacy[i]);
      } else {
        AppendedValue(r, legacy[i]);
        ghost var before := r;
        r := r + [legacy[i]];
        assert forall j :: |fromKm| <= j < |before| ==> r[..j] == before[..j] && r[j] == before[j];
        assert r[..|before|] == before;
      }
    }
    assert legacy[..|legacy|] == legacy;
  }

  lemma AppendedValue(ps: seq<Param>, p: Param)
    ensures forall q :: HasValue(ps + [p], q) <==> HasValue(ps, q) || SameValue(p, q)
  {
    forall q ensures HasValue(ps + [p], q) <==> HasValue(ps, q) || SameValue(p, q) {
      assert (ps + [p])[|ps|] == p;
      if HasValue(ps, q) {
        var i :| 0 <= i < |ps| && SameValue(ps[i], q);
        assert (ps + [p])[i] == ps[i];
      }
    }
  }

  lemma SameValueFound(ps: seq<Param>, p: Param)
    requires HasValue(ps, p)
    ensures forall q :: SameValue(p, q) ==> HasValue(ps, q)
  {
    var i :| 0 <= i < |ps| && SameValue(ps[i], p);
    assert forall q :: SameValue(p, q) ==> SameValue(ps[i], q);
  }

  // ---------- Importing one key ----------

  type Files = map<Name, Entry>

  /** Nothing about other names changes, and this one keeps its entry or loses it. */
  ghost predicate OnlyRemoves(a: Files, b: Files, name: Name) {
    && (forall n :: n in b ==> n in a && b[n] == a[n])
    && (forall n :: n in a && n != name ==> n in b)
  }

  /** The user has no super key in the database, and none in the files either: locked keys stay locked. */
  ghost predicate NeverUnlockable(db: Db, superFiles: map<int, Bytes>, user: int) {
    SuperKeyOf(db, user) == Err(KeyNotFound) && user !in superFiles
  }

  ghost predicate MayBeLocked(entry: Entry, o: Outside) {
    o.reading == LockedComponent || (entry.km.Some? && entry.km.value.value.Encrypted?)
  }

  function TargetOf(key: Descriptor, uid: int): Descriptor {
    if key.domain == App then key.(nspace := uid) else key
  }

  /** KeyMint was asked about the blob, and upgraded it. */
  predicate Upgrades(km: KmBlob, o: Outside) {
    km.fromFile && o.keyMint.Ok? && o.keyMint.value.1.Some?
  }

  /** The blob to store is the legacy one or else the upgraded one, encrypted again if it was before. */
  ghost predicate IsCurrent(km: KmBlob, o: Outside, value: BlobValue) {
    if !Upgrades(km, o) then value == km.value else
    match km.value
    case Decrypted(_) => value == Decrypted(o.keyMint.value.1.value)
    case Encrypted(_, _, _) => o.sealed.Some? && value == Encrypted(o.sealed.value.0, o.sealed.value.1, o.sealed.value.2)
  }

  /** What it takes to use the blob: its KeyMint instance, and if it is encrypted all that decrypting it takes. */
  ghost predicate IsMetaOf(value: BlobValue, superKey: Result<int>, uuid: Bytes, meta: Meta) {
    match value
    case Decrypted(_) => meta == map[KM_UUID := uuid]
    case Encrypted(iv, tag, _) => superKey.Ok? && meta == SealedMeta(iv, tag, superKey.value, uuid)
  }

  /** The legacy blob is stored as superseded, with its own metadata, if KeyMint upgraded it. */
  ghost predicate IsSuperseded(km: KmBlob, o: Outside, superKey: Result<int>, uuid: Bytes, superseded: Option<(Bytes, Meta)>) {
    if Upgrades(km, o)
    then superseded.Some? && superseded.value.0 == km.value.data && IsMetaOf(km.value, superKey, uuid, superseded.value.1)
    else superseded.None?
  }

  /** KeyMint's parameters come first if it was asked; no value that the file has is dropped. */
  ghost predicate AreParamsOf(km: KmBlob, o: Outside, params: seq<Param>) {
    && (forall p :: HasValue(km.params, p) ==> HasValue(params, p))
    && if km.fromFile then o.keyMint.Ok? && o.keyMint.value.0 <= params else params == km.params
  }

  ghost predicate CarriesKey(entry: Entry, km: KmBlob, key: Descriptor, superKey: Result<int>, uuid: Bytes, o: Outside, tx: Tx) {
    && tx.StoreNewKey? && tx.key == key && tx.keyType == Client && tx.kmUuid == uuid
    && tx.cert == entry.userCert && tx.certChain == entry.caCert && AreParamsOf(km, o, tx.params)
    && (exists value :: IsCurrent(km, o, value) && tx.blob == value.data && IsMetaOf(value, superKey, uuid, tx.meta))
    && IsSuperseded(km, o, superKey, uuid, tx.superseded)
  }

  /** The transaction stores what the entry holds. */
  ghost predicate Carries(entry: Entry, key: Descriptor, superKey: Result<int>, kmUuids: map<bool, Bytes>, o: Outside, tx: Tx) {
    match entry.km
    case Some(km) => km.strongbox in kmUuids && CarriesKey(entry, km, key, superKey, kmUuids[km.strongbox], o, tx)
    case None =>
      && tx.StoreNewCertificate? && tx.key == key && tx.keyType == Client && entry.caCert == Some(tx.chain)
      && tx.kmUuid == KEYSTORE_UUID
  }

  const NO_ENTRY := Entry(None, None, None)

  function EntryAt(files: Files, name: Name): Entry {
    if name in files then files[name] else NO_ENTRY
  }

  /** Nothing stands in the way of storing a key at this location. */
  ghost predicate CanStore(db: Db, key: Descriptor, o: Outside) {
    KeyInv(db) && Unused(db, o.id) && NoLeftBehindBlobs(db, o.id) && Storable(key) && o.commits
  }

  /** Nothing stands in the way of converting a key: KeyMint answers, and the super key is there if it takes one. */
  predicate Convertible(km: KmBlob, superKey: Result<int>, kmUuids: map<bool, Bytes>, o: Outside) {
    && km.strongbox in kmUuids
    && (km.value.Encrypted? ==> o.superKeyKnown && superKey.Ok?)
    && (km.fromFile ==> o.keyMint.Ok? && (km.value.Encrypted? ==> o.superKey && o.unsealed && (Upgrades(km, o) ==> o.sealed.Some?)))
  }

  predicate Importable(entry: Entry, superKey: Result<int>, kmUuids: map<bool, Bytes>, o: Outside) {
    match entry.km
    case Some(km) => Convertible(km, superKey, kmUuids, o)
    case None => entry.caCert.Some?
  }

  lemma FailureChangesNothing(db: Db, tx: Tx)
    requires tx.StoreNewKey? || tx.StoreNewCertificate?
    ensures Exec(db, tx).result.Err? ==> Exec(db, tx).db == db
  {
  }

  class LegacyImporterState {
    var files: Files
    var superFiles: map<int, Bytes>
    var recentlyImported: set<Name>
    var recentlyImportedSuperKey: set<int>
    const kmUuids: map<bool, Bytes>
    const db: KeystoreDB

    constructor (files: Files, superFiles: map<int, Bytes>, kmUuids: map<bool, Bytes>, db: KeystoreDB)
      ensures this.files == files && this.superFiles == superFiles && this.kmUuids == kmUuids && this.db == db
      ensures recentlyImported == {} && recentlyImportedSuperKey == {}
    {
      this.files, this.superFiles, this.kmUuids, this.db := files, superFiles, kmUuids, db;
      recentlyImported, recentlyImportedSuperKey := {}, {};
    }

    method RemoveKeystoreEntry(name: Name, o: Outside) returns (r: Result<()>)
      modifies `files
      ensures files == if o.removed then old(files) - {name} else old(files)
      ensures r.Ok? <==> o.removalOk
    {
      if o.removed {
        files := files - {name};
      }
      r := if o.removalOk then Ok(()) else Err(System);
    }

    method GetSuperKeyIdCheckUnlockableOrDelete(name: Name, o: Outside) returns (r: Result<int>)
      modifies `files
      ensures OnlyRemoves(old(files), files, name)
      ensures r.Ok? ==> SuperKeyOf(db.Contents(), UserOf(name.uid)) == r
      ensures r.Ok? <==> o.superKeyKnown && SuperKeyOf(db.Contents(), UserOf(name.uid)).Ok?
      ensures files != old(files) ==> r.Err? && NeverUnlockable(db.Contents(), superFiles, UserOf(name.uid))
    {
      if !o.superKeyKnown {
        return Err(System);
      }
      var user := UserOf(name.uid);
      r := SuperKeyOf(db.Contents(), user);
      if r == Err(KeyNotFound) {
        if user in superFiles {
          return Err(Locked);
        }
        var removal := RemoveKeystoreEntry(name, o);
        r := if removal.Ok? then Err(KeyNotFound) else Err(System);
      }
    }

    /** characteristics_file_to_cache: the blob to store, and the one it supersedes. */
    method CharacteristicsFileToCache(km: KmBlob, name: Name, o: Outside)
      returns (r: Result<(KmBlob, Option<(Bytes, Meta)>)>)
      modifies `files
      ensures OnlyRemoves(old(files), files, name)
      ensures files != old(files) ==> r.Err? && km.value.Encrypted? && NeverUnlockable(db.Contents(), superFiles, UserOf(name.uid))
      ensures r.Ok? ==>
        && r.value.0.strongbox == km.strongbox && IsCurrent(km, o, r.value.0.value) && AreParamsOf(km, o, r.value.0.params)
        && (km.strongbox in kmUuids ==>
             IsSuperseded(km, o, SuperKeyOf(db.Contents(), UserOf(name.uid)), kmUuids[km.strongbox], r.value.1))
      ensures !km.fromFile ==> r == Ok((km, None)) && files == old(files)
      ensures Convertible(km, SuperKeyOf(db.Contents(), UserOf(name.uid)), kmUuids, o) ==> r.Ok?
    {
      if !km.fromFile {
        return Ok((km, None));
      }
      if km.strongbox !in kmUuids {
        return Err(System);
      }
      var uuid := kmUuids[km.strongbox];
      if km.value.Encrypted? {
        if !o.superKey {
          return Err(Locked);
        }
        if !o.unsealed {
          return Err(System);
        }
      }
      if o.keyMint.Err? {
        return Err(o.keyMint.error);
      }
      var (kmParams, upgraded) := o.keyMint.value;
      var params := Augment(kmParams, km.params);
      if upgraded.None? {
        return Ok((km.(params := params), None));
      }
      if km.value.Decrypted? {
        return Ok((km.(params := params, value := Decrypted(upgraded.value)), Some((km.value.data, map[KM_UUID := uuid]))));
      }
      var superKeyId := GetSuperKeyIdCheckUnlockableOrDelete(name, o);
      if superKeyId.Err? {
        return Err(superKeyId.error);
      }
      if o.sealed.None? {
        return Err(System);
      }
      var (iv, tag, data) := o.sealed.value;
      r := Ok((km.(params := params, value := Encrypted(iv, tag, data)),
               Some((km.value.data, SealedMeta(km.value.iv, km.value.tag, superKeyId.value, uuid)))));
    }

    /** The part of check_and_import that stores a key with its blob. */
    method StoreKey(km: KmBlob, superseded: Option<(Bytes, Meta)>, entry: Entry, key: Descriptor, name: Name, o: Outside)
      returns (r: Result<()>, ghost stored: Option<Tx>)
      modifies `files, db
      ensures OnlyRemoves(old(files), files, name)
      ensures files != old(files) ==>
        r.Err? && km.value.Encrypted? && NeverUnlockable(old(db.Contents()), superFiles, UserOf(name.uid))
      ensures db.Contents() == if stored.Some? then Exec(old(db.Contents()), stored.value).db else old(db.Contents())
      ensures r.Ok? <==> stored.Some?
      ensures stored.Some? ==>
        && stored.value.StoreNewKey? && stored.value.id == o.id && stored.value.key == key && stored.value.keyType == Client
        && stored.value.params == km.params && stored.value.superseded == superseded && stored.value.blob == km.value.data
        && stored.value.cert == entry.userCert && stored.value.certChain == entry.caCert
        && km.strongbox in kmUuids && stored.value.kmUuid == kmUuids[km.strongbox]
        && IsMetaOf(km.value, SuperKeyOf(old(db.Contents()), UserOf(name.uid)), stored.value.kmUuid, stored.value.meta)
      ensures CanStore(old(db.Contents()), key, o) && km.strongbox in kmUuids ==>
        (km.value.Encrypted? ==> o.superKeyKnown && SuperKeyOf(old(db.Contents()), UserOf(name.uid)).Ok?) ==> stored.Some?
    {
      stored := None;
      var meta: Meta := map[];
      if km.value.Encrypted? {
        var superKeyId := GetSuperKeyIdCheckUnlockableOrDelete(name, o);
        if superKeyId.Err? {
          return Err(superKeyId.error), None;
        }
        meta := map[IV := km.value.iv, AEAD_TAG := km.value.tag, ENCRYPTED_BY := SqlInteger(superKeyId.value)];
      }
      if km.strongbox !in kmUuids {
        return Err(System), None;
      }
      var uuid := kmUuids[km.strongbox];
      meta := meta[KM_UUID := uuid];
      assert IsMetaOf(km.value, SuperKeyOf(db.Contents(), UserOf(name.uid)), uuid, meta);
      if !o.commits {
        return Err(System), None;
      }
      ghost var tx := Tx.StoreNewKey(o.id, key, Client, km.params, superseded, km.value.data, meta,
                                     entry.userCert, entry.caCert, o.creation, uuid);
      FailureChangesNothing(db.Contents(), tx);
      if CanStore(db.Contents(), key, o) {
        StoreBindsLocation(db.Contents(), tx);
      }
      var result, _ := db.StoreNewKey(o.id, key, Client, km.params, superseded, km.value.data, meta,
                                      entry.userCert, entry.caCert, o.creation, uuid);
      r := if result.Ok? then Ok(()) else Err(result.error);
      stored := if result.Ok? then Some(tx) else None;
    }

    method StoreCertificate(chain: Bytes, key: Descriptor, o: Outside) returns (r: Result<()>, ghost stored: Option<Tx>)
      modifies db
      ensures db.Contents() == if stored.Some? then Exec(old(db.Contents()), stored.value).db else old(db.Contents())
      ensures r.Ok? <==> stored.Some?
      ensures stored.Some? ==> stored.value == Tx.StoreNewCertificate(o.id, key, Client, chain, o.creation, KEYSTORE_UUID)
      ensures CanStore(old(db.Contents()), key, o) ==> stored.Some?
    {
      if !o.commits {
        return Err(System), None;
      }
      ghost var tx := Tx.StoreNewCertificate(o.id, key, Client, chain, o.creation, KEYSTORE_UUID);
      FailureChangesNothing(db.Contents(), tx);
      if CanStore(db.Contents(), key, o) {
        CertificateBindsLocation(db.Contents(), tx);
      }
      var result, _ := db.StoreNewCertificate(o.id, key, Client, chain, o.creation, KEYSTORE_UUID);
      r := if result.Ok? then Ok(()) else Err(result.error);
      stored := if result.Ok? then Some(tx) else None;
    }

    /** The part of check_and_import between reading the files and removing them. */
    method StoreEntry(entry: Entry, key: Descriptor, name: Name, o: Outside) returns (r: Result<()>, ghost stored: Option<Tx>)
      modifies `files, db
      ensures OnlyRemoves(old(files), files, name)
      ensures files != old(files) ==>
        r.Err? && NeverUnlockable(old(db.Contents()), superFiles, UserOf(name.uid)) && entry.km.Some? && entry.km.value.value.Encrypted?
      ensures db.Contents() == if stored.Some? then Exec(old(db.Contents()), stored.value).db else old(db.Contents())
      ensures r.Ok? <==> stored.Some?
      ensures stored.Some? ==>
        && Carries(entry, key, SuperKeyOf(old(db.Contents()), UserOf(name.uid)), kmUuids, o, stored.value)
        && stored.value.id == o.id
      ensures CanStore(old(db.Contents()), key, o) && Importable(entry, SuperKeyOf(old(db.Contents()), UserOf(name.uid)), kmUuids, o) ==>
        stored.Some?
    {
      if entry.km.Some? {
        var converted := CharacteristicsFileToCache(entry.km.value, name, o);
        if converted.Err? {
          return Err(converted.error), None;
        }
        r, stored := StoreKey(converted.value.0, converted.value.1, entry, key, name, o);
      } else if entry.caCert.Some? {
        r, stored := StoreCertificate(entry.caCert.value, key, o);
      } else {
        r, stored := Err(KeyNotFound), None;
      }
    }

    /**
     * check_and_import. Whatever happens, the entry is still in its file, or a transaction that
     * carries it is committed, or it was removed because it can never be unlocked.
     */
    method CheckAndImport(uid: int, key: Descriptor, o: Outside) returns (r: Result<()>, ghost stored: Option<Tx>)
      modifies this, db
      ensures superFiles == old(superFiles) && recentlyImportedSuperKey == old(recentlyImportedSuperKey)
      ensures key.alias.None? ==> r == Err(System) && files == old(files) && stored.None?
      ensures key.alias.Some? ==> OnlyRemoves(old(files), files, Name(uid, key.alias.value))
      ensures db.Contents() == if stored.Some? then Exec(old(db.Contents()), stored.value).db else old(db.Contents())
      ensures stored.Some? ==>
        && key.alias.Some?
        && Carries(EntryAt(old(files), Name(uid, key.alias.value)), TargetOf(key, uid),
                   SuperKeyOf(old(db.Contents()), UserOf(uid)), kmUuids, o, stored.value)
        && stored.value.id == o.id
      ensures key.alias.Some? && files != old(files) ==>
        || stored.Some?
        || (r.Err? && NeverUnlockable(old(db.Contents()), superFiles, UserOf(uid)) && MayBeLocked(EntryAt(old(files), Name(uid, key.alias.value)), o))
      ensures stored.Some? ==>
        && r.Ok? == o.removalOk
        && files == if o.removed then old(files) - {Name(uid, key.alias.value)} else old(files)
      ensures key.alias.Some? && Name(uid, key.alias.value) !in old(recentlyImported) && o.reading.Readable? ==>
        var entry := EntryAt(old(files), Name(uid, key.alias.value));
        CanStore(old(db.Contents()), TargetOf(key, uid), o) && Importable(entry, SuperKeyOf(old(db.Contents()), UserOf(uid)), kmUuids, o) ==>
          stored.Some?
      ensures r.Ok? ==> key.alias.Some? && Name(uid, key.alias.value) in recentlyImported
      ensures recentlyImported == old(recentlyImported) + if stored.Some? then {Name(uid, key.alias.value)} else {}
    {
      stored := None;
      if key.alias.None? {
        return Err(System), None;
      }
      var name := Name(uid, key.alias.value);
      if name in recentlyImported {
        return Ok(()), None;
      }
      var target := TargetOf(key, uid);
      var entry := EntryAt(files, name);
      if o.reading.LockedComponent? {
        var superKeyId := GetSuperKeyIdCheckUnlockableOrDelete(name, o);
        r := Err(if superKeyId.Ok? then Locked else superKeyId.error);
        return r, None;
      }
      if o.reading.Unreadable? {
        return Err(o.reading.error), None;
      }
      r, stored := StoreEntry(entry, target, name, o);
      if r.Ok? {
        recentlyImported := recentlyImported + {name};
        r := RemoveKeystoreEntry(name, o);
      }
    }

    /** check_and_import_super_key; `loaded` is the super key as read, `sealed` as encrypted for the database. */
    method CheckAndImportSuperKey(user: int, loaded: Result<Option<Bytes>>, sealed: Result<(Bytes, Meta)>, commits: bool, id: int)
      returns (r: Result<()>)
      modifies this, db
      ensures files == old(files) && recentlyImported == old(recentlyImported)
      ensures old(superFiles) == superFiles || superFiles == old(superFiles) - {user}
      ensures superFiles != old(superFiles) || db.Contents() != old(db.Contents()) ==>
        && r.Ok? && sealed.Ok?
        && db.Contents() == Exec(old(db.Contents()),
             Tx.StoreSuperKey(id, user, USER_SUPER_KEY, sealed.value.0, sealed.value.1, map[], KEYSTORE_UUID)).db
      ensures r.Ok? <==> user in old(recentlyImportedSuperKey) || (loaded.Ok? && loaded.value.Some? && sealed.Ok? && commits)
      ensures r.Ok? && user !in old(recentlyImportedSuperKey) ==> superFiles == old(superFiles) - {user}
      ensures recentlyImportedSuperKey == old(recentlyImportedSuperKey) + if r.Ok? then {user} else {}
    {
      if user in recentlyImportedSuperKey {
        return Ok(());
      }
      if loaded.Err? {
        return Err(loaded.error);
      }
      if loaded.value.None? {
        return Err(KeyNotFound);
      }
      if sealed.Err? {
        return Err(sealed.error);
      }
      if !commits {
        return Err(System);
      }
      var _, _ := db.StoreSuperKey(id, user, USER_SUPER_KEY, sealed.value.0, sealed.value.1, map[], KEYSTORE_UUID);
      superFiles := superFiles - {user};
      recentlyImportedSuperKey := recentlyImportedSuperKey + {user};
      r := Ok(());
    }

    // ---------- Deleting in bulk ----------

    /**
     * One turn of the loop of bulk_delete. `superKeyId` is the super key of the user, if there is one;
     * `row` is the row that was stored for the collector.
     */
    method DeleteOne(name: Name, keepUnencrypted: bool, superKeyId: Option<int>, o: Outside) returns (r: Result<()>, ghost row: Option<int>)
      modifies `files, db
      ensures OnlyRemoves(old(files), files, name)
      ensures row.None? ==> db.Contents() == old(db.Contents())
      ensures row.Some? ==>
        && MustHandOver(EntryAt(old(files), name), superKeyId, kmUuids) && row.value == NextRowId(old(db.blobs).Keys)
        && var (blob, meta) := DeletedBlob(EntryAt(old(files), name).km.value, superKeyId, kmUuids).value;
           db.Contents() == Exec(old(db.Contents()), Tx.SetDeletedBlob(blob, meta)).db
      ensures files != old(files) ==>
        && !Spared(EntryAt(old(files), name), name, keepUnencrypted)
        && (MustHandOver(EntryAt(old(files), name), superKeyId, kmUuids) ==> row.Some?)
      ensures r.Ok? ==> (row.Some? <==> HandsOn(old(files), name, keepUnencrypted, superKeyId, kmUuids))
      ensures row.Some? ==> HandsOn(old(files), name, keepUnencrypted, superKeyId, kmUuids)
      ensures GoesWell(o) ==> r.Ok?
      ensures r.Ok? && o.removed && name in files ==> Spared(EntryAt(old(files), name), name, keepUnencrypted)
    {
      row := None;
      var entry := EntryAt(files, name);
      if !o.reading.Readable? {
        return Err(if o.reading.Unreadable? then o.reading.error else System), None;
      }
      var needGc := false;
      if entry.km.Some? {
        needGc := ContainsTag(entry.km.value.params, ROLLBACK_RESISTANCE);
      }
      if Spared(entry, name, keepUnencrypted) {
        return Ok(()), None;
      }
      if needGc {
        var marked := DeletedBlob(entry.km.value, superKeyId, kmUuids);
        if marked.Some? {
          if !o.commits {
            return Err(System), None;
          }
          row := Some(NextRowId(db.blobs.Keys));
          var _, _ := db.SetDeletedBlob(marked.value.0, marked.value.1);
        }
      }
      r := RemoveKeystoreEntry(name, o);
    }

    /** One turn of the loop, with what it means for the turns before. */
    method DeleteNext(names: seq<Name>, i: nat, keepUnencrypted: bool, superKeyId: Option<int>, o: Outside,
                      ghost start: Db, ghost first: Files, ghost rows: seq<(Name, int)>)
      returns (r: Result<()>, ghost more: seq<(Name, int)>)
      requires i < |names| && Along(start, db.Contents(), first, files, names, keepUnencrypted, superKeyId, kmUuids, rows)
      requires InOrder(first, files, names, i, keepUnencrypted, superKeyId, kmUuids, rows)
      modifies `files, db
      ensures Along(start, db.Contents(), first, files, names, keepUnencrypted, superKeyId, kmUuids, more)
      ensures OnlyRemoves(old(files), files, names[i])
      ensures r.Ok? ==> InOrder(first, files, names, i + 1, keepUnencrypted, superKeyId, kmUuids, more)
      ensures Distinct(names) ==> NamesOf(more) <= HandedOn(first, names, keepUnencrypted, superKeyId, kmUuids)
      ensures GoesWell(o) ==> r.Ok?
      ensures r.Ok? && o.removed && OnlySparedStay(old(files), names[..i], keepUnencrypted) ==> OnlySparedStay(files, names[..i + 1], keepUnencrypted)
    {
      ghost var before, was := db.Contents(), files;
      ghost var row;
      r, row := DeleteOne(names[i], keepUnencrypted, superKeyId, o);
      more := rows;
      if row.Some? {
        assert EntryAt(was, names[i]) == EntryAt(first, names[i]);
        DepositAdds(before, first, superKeyId, kmUuids, rows, names[i]);
        AddsTransitive(start, before, db.Contents());
        more := rows + [(names[i], row.value)];
      }
      OneMoreGoes(first, was, files, names, i, keepUnencrypted, superKeyId, kmUuids, rows, more);
      OneMoreInOrder(first, was, files, names, i, keepUnencrypted, superKeyId, kmUuids, rows, more, r.Ok?);
      assert names[..i + 1] == names[..i] + [names[i]];
    }

    /**
     * bulk_delete for the names that were listed. Only listed names that are not spared are removed,
     * and for each rollback resistant key among them a row was stored for the collector before. Of
     * those rows the query by id selects all, and the query by state all but the last one. They are
     * stored in the order of the list, one for each key that is to be handed on if nothing fails.
     */
    method BulkDelete(names: seq<Name>, user: int, keepUnencrypted: bool, superKeyKnown: bool, os: seq<Outside>)
      returns (r: Result<()>, ghost rows: seq<(Name, int)>)
      requires |os| == |names| && KeyInv(db.Contents()) && BlobInv(db.Contents())
      modifies `files, db
      ensures BlobInv(db.Contents()) && AddsDeletedBlobs(old(db.Contents()), db.Contents())
      ensures OnlyTheseGo(old(files), files, names, keepUnencrypted, SuperKeyIdOf(old(db.Contents()), user), kmUuids, rows)
      ensures Deposits(db.Contents(), old(files), SuperKeyIdOf(old(db.Contents()), user), kmUuids, rows)
      ensures superKeyKnown && SuperKeyOf(old(db.Contents()), user) != Err(System) && (forall i :: 0 <= i < |os| ==> GoesWell(os[i])) ==> r.Ok?
      ensures r.Ok? && (forall i :: 0 <= i < |os| ==> os[i].removed) ==> OnlySparedStay(files, names, keepUnencrypted)
      ensures Distinct(names) ==>
        var handed := HandedOn(old(files), names, keepUnencrypted, SuperKeyIdOf(old(db.Contents()), user), kmUuids);
        NamesOf(rows) <= handed && (r.Ok? ==> NamesOf(rows) == handed)
    {
      rows := [];
      var found := SuperKeyOf(db.Contents(), user);
      if !superKeyKnown || found == Err(System) {
        return Err(System), [];
      }
      var superKeyId := if found.Ok? then Some(found.value) else None;
      ghost var start, first := db.Contents(), files;
      for i := 0 to |names|
        invariant Along(start, db.Contents(), first, files, names, keepUnencrypted, superKeyId, kmUuids, rows)
        invariant (forall j :: 0 <= j < i ==> os[j].removed) ==> OnlySparedStay(files, names[..i], keepUnencrypted)
        invariant InOrder(first, files, names, i, keepUnencrypted, superKeyId, kmUuids, rows)
      {
        r, rows := DeleteNext(names, i, keepUnencrypted, superKeyId, os[i], start, first, rows);
        if r.Err? {
          return;
        }
      }
      assert names[..|names|] == names;
      r := Ok(());
    }
  }

  // ---------- Deleted blobs ----------

  ghost predicate HasTag(ps: seq<Param>, tag: int) {
    exists i :: 0 <= i < |ps| && ps[i].tag == tag
  }

  method ContainsTag(ps: seq<Param>, tag: int) returns (found: bool)
    ensures found <==> HasTag(ps, tag)
  {
    for i := 0 to |ps|
      invariant forall j :: 0 <= j < i ==> ps[j].tag != tag
    {
      if ps[i].tag == tag {
        return true;
      }
    }
    return false;
  }

  /** Entries that bulk deletion leaves: not encrypted if those are to be kept, and keys the system boots with. */
  predicate Spared(entry: Entry, name: Name, keepUnencrypted: bool) {
    || (keepUnencrypted && !(entry.km.Some? && entry.km.value.value.Encrypted?))
    || (name.uid == AID_SYSTEM && entry.km.Some? && entry.km.value.deCritical)
  }

  function SuperKeyIdOf(db: Db, user: int): Option<int> {
    var found := SuperKeyOf(db, user);
    if found.Ok? then Some(found.value) else None
  }

  /**
   * What bulk_delete stores for the collector: an encrypted blob with all it takes to unwrap it and
   * to find its KeyMint instance, if that is known, and a decrypted blob with nothing.
   */
  function DeletedBlob(km: KmBlob, superKeyId: Option<int>, kmUuids: map<bool, Bytes>): Option<(Bytes, Meta)> {
    match km.value
    case Decrypted(data) => Some((data, map[]))
    case Encrypted(iv, tag, data) =>
      if km.strongbox in kmUuids && superKeyId.Some?
      then Some((data, SealedMeta(iv, tag, superKeyId.value, kmUuids[km.strongbox]))) else None
  }

  /** A rollback resistant key for which a row is stored. */
  ghost predicate MustHandOver(entry: Entry, superKeyId: Option<int>, kmUuids: map<bool, Bytes>) {
    && entry.km.Some? && HasTag(entry.km.value.params, ROLLBACK_RESISTANCE)
    && DeletedBlob(entry.km.value, superKeyId, kmUuids).Some?
  }

  /** Nothing outside stands in the way of deleting an entry. */
  predicate GoesWell(o: Outside) {
    o.reading.Readable? && o.commits && o.removalOk
  }

  /** Deleting this entry stores a row for the collector first. */
  ghost predicate HandsOn(files: Files, n: Name, keepUnencrypted: bool, superKeyId: Option<int>, kmUuids: map<bool, Bytes>) {
    MustHandOver(EntryAt(files, n), superKeyId, kmUuids) && !Spared(EntryAt(files, n), n, keepUnencrypted)
  }

  ghost predicate Distinct(names: seq<Name>) {
    forall i, j :: 0 <= i < j < |names| ==> names[i] != names[j]
  }

  /** The names whose deletion stores a row, in the order of the list. */
  ghost function HandedOn(files: Files, names: seq<Name>, keepUnencrypted: bool, superKeyId: Option<int>, kmUuids: map<bool, Bytes>): seq<Name> {
    if names == [] then [] else
    var last := names[|names| - 1];
    HandedOn(files, names[..|names| - 1], keepUnencrypted, superKeyId, kmUuids) +
      if HandsOn(files, last, keepUnencrypted, superKeyId, kmUuids) then [last] else []
  }

  lemma HandedOnGrows(files: Files, names: seq<Name>, i: nat, keepUnencrypted: bool, superKeyId: Option<int>, kmUuids: map<bool, Bytes>)
    requires i < |names|
    ensures HandedOn(files, names[..i + 1], keepUnencrypted, superKeyId, kmUuids) ==
      HandedOn(files, names[..i], keepUnencrypted, superKeyId, kmUuids) +
        if HandsOn(files, names[i], keepUnencrypted, superKeyId, kmUuids) then [names[i]] else []
    ensures HandedOn(files, names[..i + 1], keepUnencrypted, superKeyId, kmUuids) <= HandedOn(files, names, keepUnencrypted, superKeyId, kmUuids)
    decreases |names| - i
  {
    assert names[..i + 1][..i] == names[..i];
    if i + 1 < |names| {
      HandedOnGrows(files, names, i + 1, keepUnencrypted, superKeyId, kmUuids);
    } else {
      assert names[..i + 1] == names;
    }
  }

  /** After so many turns, no other file is gone, and the rows are those of the names so far. */
  ghost predicate InOrder(first: Files, now: Files, names: seq<Name>, i: nat, keepUnencrypted: bool,
                          superKeyId: Option<int>, kmUuids: map<bool, Bytes>, rows: seq<(Name, int)>)
    requires i <= |names|
  {
    && (forall n :: n in first && n !in names[..i] ==> n in now)
    && (Distinct(names) ==> NamesOf(rows) == HandedOn(first, names[..i], keepUnencrypted, superKeyId, kmUuids))
  }

  lemma OneMoreInOrder(first: Files, was: Files, now: Files, names: seq<Name>, i: nat, keepUnencrypted: bool,
                       superKeyId: Option<int>, kmUuids: map<bool, Bytes>, rows: seq<(Name, int)>, more: seq<(Name, int)>, ok: bool)
    requires i < |names| && InOrder(first, was, names, i, keepUnencrypted, superKeyId, kmUuids, rows)
    requires OnlyRemoves(was, now, names[i]) && forall n :: n in was ==> n in first && was[n] == first[n]
    requires
      var hands := HandsOn(was, names[i], keepUnencrypted, superKeyId, kmUuids);
      || (more == rows && (ok ==> !hands))
      || (hands && more != [] && more == rows + [more[|more| - 1]] && more[|more| - 1].0 == names[i])
    ensures ok ==> InOrder(first, now, names, i + 1, keepUnencrypted, superKeyId, kmUuids, more)
    ensures Distinct(names) ==> NamesOf(more) <= HandedOn(first, names, keepUnencrypted, superKeyId, kmUuids)
  {
    HandedOnGrows(first, names, i, keepUnencrypted, superKeyId, kmUuids);
    assert names[..i + 1] == names[..i] + [names[i]];
    if Distinct(names) {
      assert names[i] !in names[..i];
      assert EntryAt(was, names[i]) == EntryAt(first, names[i]);
      assert more != rows ==> NamesOf(more) == NamesOf(rows) + [names[i]];
    }
  }

  ghost function NamesOf(rows: seq<(Name, int)>): (r: seq<Name>)
    ensures |r| == |rows| && forall k :: 0 <= k < |rows| ==> r[k] == rows[k].0
  {
    seq(|rows|, k requires 0 <= k < |rows| => rows[k].0)
  }

  /** A row without key that holds what is stored for this entry. */
  ghost predicate IsDeposit(db: Db, files: Files, superKeyId: Option<int>, kmUuids: map<bool, Bytes>, row: (Name, int)) {
    && MustHandOver(EntryAt(files, row.0), superKeyId, kmUuids) && row.1 in db.blobs
    && db.blobs[row.1].keyId == UNASSIGNED_KEY_ID && db.blobs[row.1].sc == KeyBlob
    && DeletedBlob(EntryAt(files, row.0).km.value, superKeyId, kmUuids) == Some((db.blobs[row.1].blob, MetaOf(db.blobMeta, row.1)))
  }

  /** The rows hold what is stored for their entries; the query by id selects all of them, and that by state all but the last. */
  ghost predicate Deposits(db: Db, files: Files, superKeyId: Option<int>, kmUuids: map<bool, Bytes>, rows: seq<(Name, int)>) {
    forall k :: 0 <= k < |rows| ==>
      && IsDeposit(db, files, superKeyId, kmUuids, rows[k])
      && rows[k].1 in OutOfDateKeyBlobs(db, false)
      && (rows[k].1 in OutOfDateKeyBlobs(db, true) <==> k + 1 < |rows|)
  }

  ghost predicate HasDeposit(rows: seq<(Name, int)>, n: Name) {
    exists k :: 0 <= k < |rows| && rows[k].0 == n
  }

  /** Rows without key are added, and all else is as before. */
  ghost predicate AddsDeletedBlobs(a: Db, b: Db) {
    && b.keys == a.keys && b.params == a.params && b.keyMeta == a.keyMeta && b.grants == a.grants
    && (forall i :: i in a.blobs ==>
         i in b.blobs && SameRow(a.blobs[i], b.blobs[i]) && MetaOf(b.blobMeta, i) == MetaOf(a.blobMeta, i))
    && (forall i :: i in b.blobs && i !in a.blobs ==> b.blobs[i].keyId == UNASSIGNED_KEY_ID)
  }

  /** Only listed names that are not spared are removed, each with its row if it must have one. */
  ghost predicate OnlyTheseGo(was: Files, now: Files, names: seq<Name>, keepUnencrypted: bool,
                              superKeyId: Option<int>, kmUuids: map<bool, Bytes>, rows: seq<(Name, int)>)
  {
    && (forall n :: n in now ==> n in was && now[n] == was[n])
    && (forall n :: n in was && n !in now ==>
         && n in names && !Spared(was[n], n, keepUnencrypted)
         && (MustHandOver(was[n], superKeyId, kmUuids) ==> HasDeposit(rows, n)))
  }

  /** What holds at every turn. */
  ghost predicate Along(start: Db, db: Db, first: Files, now: Files, names: seq<Name>, keepUnencrypted: bool,
                        superKeyId: Option<int>, kmUuids: map<bool, Bytes>, rows: seq<(Name, int)>)
  {
    && BlobInv(db) && UNASSIGNED_KEY_ID !in db.keys && AddsDeletedBlobs(start, db)
    && OnlyTheseGo(first, now, names, keepUnencrypted, superKeyId, kmUuids, rows)
    && Deposits(db, first, superKeyId, kmUuids, rows)
  }

  ghost predicate OnlySparedStay(now: Files, names: seq<Name>, keepUnencrypted: bool) {
    forall n :: n in names && n in now ==> Spared(now[n], n, keepUnencrypted)
  }

  lemma OneMoreGoes(first: Files, was: Files, now: Files, names: seq<Name>, i: nat, keepUnencrypted: bool,
                    superKeyId: Option<int>, kmUuids: map<bool, Bytes>, rows: seq<(Name, int)>, more: seq<(Name, int)>)
    requires i < |names| && OnlyTheseGo(first, was, names, keepUnencrypted, superKeyId, kmUuids, rows) && OnlyRemoves(was, now, names[i])
    requires more == rows || (more != [] && more == rows + [more[|more| - 1]] && more[|more| - 1].0 == names[i])
    requires now != was ==> !Spared(EntryAt(was, names[i]), names[i], keepUnencrypted)
    requires now != was && MustHandOver(EntryAt(was, names[i]), superKeyId, kmUuids) ==> more != rows
    ensures OnlyTheseGo(first, now, names, keepUnencrypted, superKeyId, kmUuids, more)
  {
    if more != rows {
      DepositFound(rows, more[|more| - 1]);
    }
    if names[i] in was && names[i] !in now {
      assert now != was;
    }
  }

  lemma AddsTransitive(a: Db, b: Db, c: Db)
    requires AddsDeletedBlobs(a, b) && AddsDeletedBlobs(b, c)
    ensures AddsDeletedBlobs(a, c)
  {
  }

  lemma DepositFound(rows: seq<(Name, int)>, row: (Name, int))
    ensures HasDeposit(rows + [row], row.0)
    ensures forall n :: HasDeposit(rows, n) ==> HasDeposit(rows + [row], n)
  {
    var more := rows + [row];
    assert more[|rows|].0 == row.0;
    forall n | HasDeposit(rows, n) ensures HasDeposit(more, n) {
      var k :| 0 <= k < |rows| && rows[k].0 == n;
      assert more[k].0 == n;
    }
  }

  /** What storing one more row does to the rows stored before. */
  lemma DeletedBlobEffect(db: Db, blob: Bytes, meta: Meta)
    requires BlobInv(db) && UNASSIGNED_KEY_ID !in db.keys
    ensures var r := Exec(db, SetDeletedBlob(blob, meta)).db; var id := NextRowId(db.blobs.Keys);
      && BlobInv(r) && UNASSIGNED_KEY_ID !in r.keys && AddsDeletedBlobs(db, r)
      && id !in db.blobs && id in r.blobs && r.blobs[id] == BlobRow(KeyBlob, UNASSIGNED_KEY_ID, blob, Current) && MetaOf(r.blobMeta, id) == meta
      && forall i :: i in db.blobs && db.blobs[i].keyId == UNASSIGNED_KEY_ID && db.blobs[i].sc == KeyBlob ==> r.blobs[i].state == Superseded
  {
    TxKeepsBlobs(db, SetDeletedBlob(blob, meta));
    InsertBlobInserts(db, UNASSIGNED_KEY_ID, KeyBlob, blob, Some(meta));
    InsertBlobAddsRow(db, UNASSIGNED_KEY_ID, KeyBlob, blob, Some(meta));
  }

  lemma DepositAdds(db: Db, files: Files, superKeyId: Option<int>, kmUuids: map<bool, Bytes>, rows: seq<(Name, int)>, name: Name)
    requires BlobInv(db) && UNASSIGNED_KEY_ID !in db.keys
    requires Deposits(db, files, superKeyId, kmUuids, rows) && MustHandOver(EntryAt(files, name), superKeyId, kmUuids)
    ensures var (blob, meta) := DeletedBlob(EntryAt(files, name).km.value, superKeyId, kmUuids).value;
      var r := Exec(db, SetDeletedBlob(blob, meta)).db;
      && BlobInv(r) && UNASSIGNED_KEY_ID !in r.keys && AddsDeletedBlobs(db, r)
      && Deposits(r, files, superKeyId, kmUuids, rows + [(name, NextRowId(db.blobs.Keys))])
  {
    var (blob, meta) := DeletedBlob(EntryAt(files, name).km.value, superKeyId, kmUuids).value;
    DeletedBlobEffect(db, blob, meta);
    var r, id := Exec(db, SetDeletedBlob(blob, meta)).db, NextRowId(db.blobs.Keys);
    var more := rows + [(name, id)];
    forall k | 0 <= k < |more|
      ensures IsDeposit(r, files, superKeyId, kmUuids, more[k]) && more[k].1 in OutOfDateKeyBlobs(r, false)
      ensures more[k].1 in OutOfDateKeyBlobs(r, true) <==> k + 1 < |more|
    {
      if k < |rows| {
        assert more[k] == rows[k];
        assert IsDeposit(db, files, superKeyId, kmUuids, rows[k]);
        assert SameRow(db.blobs[rows[k].1], r.blobs[rows[k].1]);
      }
    }
  }

  /** A row that was stored for this name is selected, and names its KeyMint instance. */
  ghost predicate GoesOnToKeyMint(db: Db, useStateColumn: bool, rows: seq<(Name, int)>, n: Name) {
    exists k :: 0 <= k < |rows| && rows[k].0 == n && rows[k].1 in OutOfDateKeyBlobs(db, useStateColumn) &&
      KM_UUID in MetaOf(db.blobMeta, rows[k].1)
  }

  /** A row for this name was stored that is not the last one. */
  ghost predicate HasEarlierDeposit(rows: seq<(Name, int)>, n: Name) {
    exists k :: 0 <= k < |rows| - 1 && rows[k].0 == n
  }

  /**
   * Of the rollback resistant keys that bulk_delete removes, the collector passes exactly those on to
   * KeyMint that were encrypted, with the super key and the KeyMint instance known, and under the
   * query by state only those whose row is not the last. A key that was not encrypted is stored
   * without a KeyMint instance, and so its blob is only dropped.
   */
  lemma ReachesKeyMintExactly(db: Db, was: Files, now: Files, names: seq<Name>, keepUnencrypted: bool,
                              superKeyId: Option<int>, kmUuids: map<bool, Bytes>, rows: seq<(Name, int)>, n: Name, u: bool)
    requires OnlyTheseGo(was, now, names, keepUnencrypted, superKeyId, kmUuids, rows)
    requires Deposits(db, was, superKeyId, kmUuids, rows)
    requires n in was && n !in now && was[n].km.Some? && HasTag(was[n].km.value.params, ROLLBACK_RESISTANCE)
    ensures var km := was[n].km.value;
      GoesOnToKeyMint(db, u, rows, n) <==>
        km.value.Encrypted? && km.strongbox in kmUuids && superKeyId.Some? && (u ==> HasEarlierDeposit(rows, n))
  {
    var km := was[n].km.value;
    if km.value.Encrypted? && km.strongbox in kmUuids && superKeyId.Some? {
      assert HasDeposit(rows, n);
      var k :| 0 <= k < |rows| && rows[k].0 == n && (HasEarlierDeposit(rows, n) ==> k < |rows| - 1);
      assert IsDeposit(db, was, superKeyId, kmUuids, rows[k]);
    }
  }

  lemma {:induction false} HandedOnDistinct(files: Files, names: seq<Name>, keepUnencrypted: bool, superKeyId: Option<int>, kmUuids: map<bool, Bytes>)
    requires Distinct(names)
    ensures var handed := HandedOn(files, names, keepUnencrypted, superKeyId, kmUuids);
      Distinct(handed) && forall n :: n in handed <==> n in names && HandsOn(files, n, keepUnencrypted, superKeyId, kmUuids)
  {
    if names != [] {
      var before, last := names[..|names| - 1], names[|names| - 1];
      HandedOnDistinct(files, before, keepUnencrypted, superKeyId, kmUuids);
      assert names == before + [last];
      assert last !in before;
    }
  }

  /**
   * The same told from the inputs, for a bulk deletion that goes through: under the query by state
   * KeyMint is not told of the last key that is handed on.
   */
  lemma LastKeyStaysBehind(db: Db, was: Files, now: Files, names: seq<Name>, keepUnencrypted: bool,
                           superKeyId: Option<int>, kmUuids: map<bool, Bytes>, rows: seq<(Name, int)>, n: Name, u: bool)
    requires OnlyTheseGo(was, now, names, keepUnencrypted, superKeyId, kmUuids, rows)
    requires Deposits(db, was, superKeyId, kmUuids, rows)
    requires Distinct(names) && NamesOf(rows) == HandedOn(was, names, keepUnencrypted, superKeyId, kmUuids)
    requires n in was && n !in now && was[n].km.Some? && HasTag(was[n].km.value.params, ROLLBACK_RESISTANCE)
    ensures var km := was[n].km.value; var handed := HandedOn(was, names, keepUnencrypted, superKeyId, kmUuids);
      GoesOnToKeyMint(db, u, rows, n) <==>
        km.value.Encrypted? && km.strongbox in kmUuids && superKeyId.Some? && (u ==> n != handed[|handed| - 1])
  {
    var handed := HandedOn(was, names, keepUnencrypted, superKeyId, kmUuids);
    ReachesKeyMintExactly(db, was, now, names, keepUnencrypted, superKeyId, kmUuids, rows, n, u);
    HandedOnDistinct(was, names, keepUnencrypted, superKeyId, kmUuids);
    if n in handed {
      var k :| 0 <= k < |handed| && handed[k] == n;
      assert rows[k].0 == n;
    }
  }

  /** What goes on to KeyMint is handed over as it was stored, before the query finds nothing any more. */
  lemma PassedOnIsHandedOver(states: seq<Sys>, steps: seq<GarbageCollection.Step>, i: nat, j: nat, u: bool, rows: seq<(Name, int)>, n: Name)
    returns (k: nat, h: nat)
    requires Run(states, steps) && i <= j < |states| && GoesOnToKeyMint(states[i].db, u, rows, n)
    requires OutOfDateKeyBlobs(states[j].db, u) == {}
    ensures k < |rows| && rows[k].0 == n && h < j && HandsOver(states[h], steps[h], states[i].db, rows[k].1)
    ensures KM_UUID in states[h].superseded[|states[h].superseded| - 1].meta
  {
    k :| 0 <= k < |rows| && rows[k].0 == n && rows[k].1 in OutOfDateKeyBlobs(states[i].db, u) &&
      KM_UUID in MetaOf(states[i].db.blobMeta, rows[k].1);
    h := SelectedIsHandedOver(states, steps, i, j, u, rows[k].1);
  }

  /**
   * The last row, in contrast, is not taken up later either: while the collector selects by state
   * and nothing else is stored without a key, KeyMint is never told of it.
   */
  lemma LastRowIsForgotten(states: seq<Sys>, steps: seq<GarbageCollection.Step>, i: nat, j: nat, files: Files,
                           superKeyId: Option<int>, kmUuids: map<bool, Bytes>, rows: seq<(Name, int)>)
    requires Run(states, steps) && i <= j < |states| && rows != []
    requires Deposits(states[i].db, files, superKeyId, kmUuids, rows) && rows[|rows| - 1].1 !in Cached(states[i])
    requires forall k :: i <= k < j ==> Ignores(steps[k], UNASSIGNED_KEY_ID)
    ensures Forgotten(states[j], rows[|rows| - 1].1, states[i].db.blobs[rows[|rows| - 1].1])
  {
    CollectorIsSafe(states, steps, i);
    StateTestWithinIdTest(states[i].db);
    StrandedForGood(states, steps, i, j, rows[|rows| - 1].1);
  }

  /** A database that holds a super key for user 0. */
  lemma SuperKeyStored(blob: Bytes)
    ensures var db := Exec(EMPTY_DB, StoreSuperKey(1, 0, USER_SUPER_KEY, blob, map[], map[], KEYSTORE_UUID)).db;
      KeyInv(db) && BlobInv(db) && SuperKeyIdOf(db, 0) == Some(1)
  {
    var tx := StoreSuperKey(1, 0, USER_SUPER_KEY, blob, map[], map[], KEYSTORE_UUID);
    TxKeepsBlobs(EMPTY_DB, tx);
    TxKeepsKeyRules(EMPTY_DB, tx);
    var db := Exec(EMPTY_DB, tx).db;
    assert db.keys == map[1 := KeyRow(Super, Some(App), Some(0), Some(USER_SUPER_KEY), Live, KEYSTORE_UUID)];
  }

  /**
   * The only key that is deleted is the last one: it was encrypted, the super key and the KeyMint
   * instance are known, the file is gone, and under the query by state KeyMint is not told.
   */
  method LoneKeyStaysBehind(superKey: Bytes, uuid: Bytes, iv: Bytes, tag: Bytes, data: Bytes, alias: Alias)
    returns (importer: LegacyImporterState, r: Result<()>, ghost rows: seq<(Name, int)>)
    ensures r.Ok? && Name(10001, alias) !in importer.files
    ensures GoesOnToKeyMint(importer.db.Contents(), false, rows, Name(10001, alias))
    ensures !GoesOnToKeyMint(importer.db.Contents(), true, rows, Name(10001, alias))
  {
    var name := Name(10001, alias);
    var entry := Entry(Some(KmBlob(Encrypted(iv, tag, data), false, false, false, [Param(ROLLBACK_RESISTANCE, 1, 0)])), None, None);
    var db := new KeystoreDB();
    var _, _ := db.StoreSuperKey(1, 0, USER_SUPER_KEY, superKey, map[], map[], KEYSTORE_UUID);
    SuperKeyStored(superKey);
    assert entry.km.value.params[0].tag == ROLLBACK_RESISTANCE;
    importer := new LegacyImporterState(map[name := entry], map[], map[false := uuid], db);
    ghost var was := importer.files;
    var o := Outside(Readable, false, false, Err(System), None, true, true, 2, map[], true, true);
    r, rows := importer.BulkDelete([name], 0, false, true, [o]);
    HandedOnGrows(was, [name], 0, false, Some(1), importer.kmUuids);
    LastKeyStaysBehind(db.Contents(), was, importer.files, [name], false, Some(1), importer.kmUuids, rows, name, true);
    LastKeyStaysBehind(db.Contents(), was, importer.files, [name], false, Some(1), importer.kmUuids, rows, name, false);
  }

  /**
   * What bulk deletion takes: listed entries, but no key the system boots with, and nothing that is
   * not an encrypted key if those are to be kept. If nothing fails it takes all others.
   */
  lemma BulkDeletionTakes(was: Files, now: Files, names: seq<Name>, keepUnencrypted: bool,
                          superKeyId: Option<int>, kmUuids: map<bool, Bytes>, rows: seq<(Name, int)>, n: Name)
    requires OnlyTheseGo(was, now, names, keepUnencrypted, superKeyId, kmUuids, rows) && n in was
    ensures n !in now ==>
      && n in names && !(n.uid == 1000 && was[n].km.Some? && was[n].km.value.deCritical)
      && (keepUnencrypted ==> was[n].km.Some? && was[n].km.value.value.Encrypted?)
    ensures n in now && n in names && OnlySparedStay(now, names, keepUnencrypted) ==>
      || (n.uid == 1000 && was[n].km.Some? && was[n].km.value.deCritical)
      || (keepUnencrypted && (was[n].km.None? || was[n].km.value.value.Decrypted?))
  {
  }

  /** The row holds the blob of the key, and if it is encrypted all that decrypting it and finding its KeyMint instance takes. */
  ghost predicate HoldsKey(db: Db, i: int, km: KmBlob, superKeyId: Option<int>, kmUuids: map<bool, Bytes>) {
    && i in db.blobs && db.blobs[i].blob == km.value.data
    && var meta := MetaOf(db.blobMeta, i);
       match km.value
       case Decrypted(_) => meta == map[]
       case Encrypted(iv, tag, _) =>
         km.strongbox in kmUuids && superKeyId.Some? && Unwraps(meta, iv, tag, superKeyId.value, kmUuids[km.strongbox])
  }

  /** A rollback resistant key that is deleted in bulk has a row that holds it, unless it is encrypted and nothing is known to decrypt it with. */
  lemma DeletedKeyIsHeld(db: Db, was: Files, now: Files, names: seq<Name>, keepUnencrypted: bool,
                         superKeyId: Option<int>, kmUuids: map<bool, Bytes>, rows: seq<(Name, int)>, n: Name)
    requires OnlyTheseGo(was, now, names, keepUnencrypted, superKeyId, kmUuids, rows) && Deposits(db, was, superKeyId, kmUuids, rows)
    requires n in was && n !in now && was[n].km.Some? && HasTag(was[n].km.value.params, ROLLBACK_RESISTANCE)
    ensures var km := was[n].km.value;
      km.value.Decrypted? || (km.strongbox in kmUuids && superKeyId.Some?) ==>
        exists k :: 0 <= k < |rows| && rows[k].0 == n && HoldsKey(db, rows[k].1, km, superKeyId, kmUuids)
  {
    var km := was[n].km.value;
    if km.value.Decrypted? || (km.strongbox in kmUuids && superKeyId.Some?) {
      assert HasDeposit(rows, n);
      var k :| 0 <= k < |rows| && rows[k].0 == n;
      assert IsDeposit(db, was, superKeyId, kmUuids, rows[k]);
      assert HoldsKey(db, rows[k].1, km, superKeyId, kmUuids);
    }
  }

  // ---------- Nothing is lost ----------

  /** The key loads with a blob, and the metadata, that the import had to store. */
  ghost predicate LoadsBlobOf(km: KmBlob, superKey: Result<int>, uuid: Bytes, o: Outside, loaded: KeyEntry) {
    loaded.keyBlob.Some? &&
    exists value :: IsCurrent(km, o, value) && loaded.keyBlob.value.0 == value.data && IsMetaOf(value, superKey, uuid, loaded.keyBlob.value.1)
  }

  /**
   * After a successful import the key loads from the location it was asked for, with the legacy blob
   * or the one KeyMint upgraded it to, with what it takes to decrypt it and to find its KeyMint
   * instance, and with the certificates and the parameters of the legacy entry. Every other key loads
   * as before.
   */
  lemma ImportedKeyLoads(db: Db, entry: Entry, key: Descriptor, superKey: Result<int>, kmUuids: map<bool, Bytes>, o: Outside, tx: Tx)
    requires KeyInv(db) && BlobInv(db) && Storable(key) && Admissible(db, tx)
    requires Carries(entry, key, superKey, kmUuids, o, tx)
    ensures LoadKeyEntryId(Exec(db, tx).db, key, Client) == Ok(tx.id)
    ensures LoadKeyComponents(Exec(db, tx).db, tx.id).Ok?
    ensures var loaded := LoadKeyComponents(Exec(db, tx).db, tx.id).value;
      && loaded.certChain == entry.caCert
      && match entry.km
         case None => loaded.keyBlob.None? && loaded.kmUuid == KEYSTORE_UUID
         case Some(km) =>
           && loaded.kmUuid == kmUuids[km.strongbox] && LoadsBlobOf(km, superKey, loaded.kmUuid, o, loaded)
           && loaded.cert == entry.userCert && AreParamsOf(km, o, loaded.params)
    ensures forall k :: k in db.keys ==> LoadKeyComponents(Exec(db, tx).db, k) == LoadKeyComponents(db, k)
  {
    if tx.StoreNewKey? {
      StoredKeyLoads(db, tx);
    } else {
      StoredCertificateLoads(db, tx);
    }
  }

  /** The metadata says how to decrypt the blob: vector, tag, super key and KeyMint instance, and nothing else. */
  ghost predicate Unwraps(meta: Meta, iv: Bytes, tag: Bytes, superKeyId: int, uuid: Bytes) {
    && meta.Keys == {IV, AEAD_TAG, ENCRYPTED_BY, KM_UUID}
    && meta[IV] == iv && meta[AEAD_TAG] == tag && meta[ENCRYPTED_BY] == SqlInteger(superKeyId) && meta[KM_UUID] == uuid
  }

  lemma SealedUnwraps(value: BlobValue, superKey: Result<int>, uuid: Bytes, meta: Meta)
    requires value.Encrypted? && IsMetaOf(value, superKey, uuid, meta)
    ensures Unwraps(meta, value.iv, value.tag, superKey.value, uuid)
  {
  }

  /** An encrypted key that KeyMint did not upgrade loads with its own vector, tag, super key and KeyMint instance. */
  lemma ImportedBlobUnwraps(db: Db, entry: Entry, key: Descriptor, superKey: Result<int>, kmUuids: map<bool, Bytes>, o: Outside, tx: Tx)
    requires KeyInv(db) && BlobInv(db) && Storable(key) && Admissible(db, tx)
    requires Carries(entry, key, superKey, kmUuids, o, tx) && entry.km.Some? && entry.km.value.value.Encrypted? && !entry.km.value.fromFile
    ensures var value := entry.km.value.value; var loaded := LoadKeyComponents(Exec(db, tx).db, tx.id);
      && superKey.Ok? && loaded.Ok? && loaded.value.keyBlob.Some? && loaded.value.keyBlob.value.0 == value.data
      && Unwraps(loaded.value.keyBlob.value.1, value.iv, value.tag, superKey.value, kmUuids[entry.km.value.strongbox])
  {
    var km := entry.km.value;
    ImportedKeyLoads(db, entry, key, superKey, kmUuids, o, tx);
    var loaded := LoadKeyComponents(Exec(db, tx).db, tx.id).value;
    assert LoadsBlobOf(km, superKey, loaded.kmUuid, o, loaded);
    SealedUnwraps(km.value, superKey, kmUuids[km.strongbox], loaded.keyBlob.value.1);
  }

  /** A key of an app is found by that app, under its alias, whatever namespace the request named. */
  lemma ImportedKeyIsFound(db: Db, uid: int, key: Descriptor, entry: Entry, superKey: Result<int>, kmUuids: map<bool, Bytes>, o: Outside, tx: Tx,
                           request: Descriptor)
    requires KeyInv(db) && BlobInv(db) && Storable(key) && Admissible(db, tx) && Carries(entry, TargetOf(key, uid), superKey, kmUuids, o, tx)
    requires key.domain == App && request.domain == App && request.alias == key.alias
    ensures Finds(Exec(db, tx).db, request, uid, tx.id)
  {
    TxKeepsKeyRules(db, tx);
    ImportedKeyLoads(db, entry, TargetOf(key, uid), superKey, kmUuids, o, tx);
    ClientLocationResolves(Exec(db, tx).db, TargetOf(key, uid), tx.id);
    AppFindsOwnKeys(Exec(db, tx).db, request, uid, tx.id);
  }

  /**
   * The user certificate is carried over as well exactly if there is a key, or no user certificate.
   * An entry with a user certificate and a CA certificate but no key loses the former.
   */
  lemma UserCertificateCarriedOver(db: Db, entry: Entry, key: Descriptor, superKey: Result<int>, kmUuids: map<bool, Bytes>, o: Outside, tx: Tx)
    requires KeyInv(db) && BlobInv(db) && Storable(key) && Admissible(db, tx)
    requires Carries(entry, key, superKey, kmUuids, o, tx)
    ensures var loaded := LoadKeyComponents(Exec(db, tx).db, tx.id);
      loaded.Ok? && (loaded.value.cert == entry.userCert <==> entry.km.Some? || entry.userCert.None?)
  {
    if tx.StoreNewKey? {
      StoredKeyLoads(db, tx);
    } else {
      StoredCertificateLoads(db, tx);
    }
  }

  /** Such an entry, imported into an empty database: its file is gone, and its user certificate with it. */
  method UserCertificateLost(alias: Alias, user: Bytes, ca: Bytes) returns (importer: LegacyImporterState, r: Result<()>)
    ensures r.Ok? && Name(10001, alias) !in importer.files
    ensures LoadKeyEntryId(importer.db.Contents(), Descriptor(App, 10001, Some(alias), None), Client) == Ok(1)
    ensures var loaded := LoadKeyComponents(importer.db.Contents(), 1);
      loaded.Ok? && loaded.value.cert.None? && loaded.value.certChain == Some(ca)
  {
    var name, key := Name(10001, alias), Descriptor(App, 10001, Some(alias), None);
    var entry := Entry(None, Some(user), Some(ca));
    var db := new KeystoreDB();
    StartingPoints(EMPTY_DB);
    importer := new LegacyImporterState(map[name := entry], map[], map[], db);
    var o := Outside(Readable, false, false, Err(System), None, true, true, 1, map[], true, true);
    ghost var stored;
    r, stored := importer.CheckAndImport(10001, key, o);
    ImportedKeyLoads(EMPTY_DB, entry, key, SuperKeyOf(EMPTY_DB, UserOf(10001)), importer.kmUuids, o, stored.value);
    UserCertificateCarriedOver(EMPTY_DB, entry, key, SuperKeyOf(EMPTY_DB, UserOf(10001)), importer.kmUuids, o, stored.value);
  }

  /**
   * The longest way: an encrypted key whose parameters come from a file, and that KeyMint upgrades. The
   * upgraded blob is what loads, encrypted with the super key, and the file is gone.
   */
  method UpgradedKeyImported(alias: Alias, superKey: Bytes, uuid: Bytes, legacy: BlobValue, upgraded: Bytes, iv: Bytes, tag: Bytes, data: Bytes)
    returns (importer: LegacyImporterState, r: Result<()>)
    requires legacy.Encrypted?
    ensures r.Ok? && Name(10001, alias) !in importer.files
    ensures Finds(importer.db.Contents(), Descriptor(App, 0, Some(alias), None), 10001, 2)
    ensures var loaded := LoadKeyComponents(importer.db.Contents(), 2);
      && loaded.Ok? && loaded.value.keyBlob.Some? && loaded.value.keyBlob.value.0 == data
      && Unwraps(loaded.value.keyBlob.value.1, iv, tag, 1, uuid)
  {
    var name, key := Name(10001, alias), Descriptor(App, 10001, Some(alias), None);
    var entry := Entry(Some(KmBlob(legacy, false, false, true, [])), None, None);
    var db := new KeystoreDB();
    var _, _ := db.StoreSuperKey(1, 0, USER_SUPER_KEY, superKey, map[], map[], KEYSTORE_UUID);
    SuperKeyStored(superKey);
    ghost var before := db.Contents();
    importer := new LegacyImporterState(map[name := entry], map[], map[false := uuid], db);
    var o := Outside(Readable, true, true, Ok(([], Some(upgraded))), Some((iv, tag, data)), true, true, 2, map[], true, true);
    OneKeyOnly(superKey);
    ghost var stored;
    r, stored := importer.CheckAndImport(10001, key, o);
    ImportedKeyLoads(before, entry, key, SuperKeyOf(before, 0), importer.kmUuids, o, stored.value);
    ImportedKeyIsFound(before, 10001, key, entry, SuperKeyOf(before, 0), importer.kmUuids, o, stored.value, Descriptor(App, 0, Some(alias), None));
    ghost var loaded := LoadKeyComponents(db.Contents(), 2).value;
    assert LoadsBlobOf(entry.km.value, SuperKeyOf(before, 0), uuid, o, loaded);
    SealedUnwraps(Encrypted(iv, tag, data), SuperKeyOf(before, 0), uuid, loaded.keyBlob.value.1);
  }

  lemma OneKeyOnly(blob: Bytes)
    ensures var db := Exec(EMPTY_DB, StoreSuperKey(1, 0, USER_SUPER_KEY, blob, map[], map[], KEYSTORE_UUID)).db;
      SuperKeyOf(db, 0) == Ok(1) && Unused(db, 2) && NoLeftBehindBlobs(db, 2)
  {
    SuperKeyStored(blob);
  }
}
