/**
 * The deprecated key-value store for VPN profiles and the like. Entries live in a table or, until
 * they are first read, in files of the legacy keystore; to its callers the two are one map.
 *
 * `readable`, `removable` and `stuck` say what the file system and the user's lock do.
 */
module LegacyStore {
  import opened Tables
  import opened Ordering

  datatype Name = Name(uid: int, alias: Alias)

  type Entries = map<Name, Bytes>

  const U32: int := 0x1_0000_0000
  const UID_SELF: int := -1
  const AID_SYSTEM: int := 1000
  const AID_WIFI: int := 1010
  const WIFI_NAMESPACE: int := 102

  /** get_effective_uid: callers use their own namespace, and the system may also use that of wifi. */
  function EffectiveUid(uid: int, caller: int): (r: Result<int>)
    ensures r == Ok(caller) <==> uid % U32 in {UID_SELF % U32, caller}
    ensures r.Ok? && r.value != caller <==> caller == AID_SYSTEM && uid % U32 == AID_WIFI
    ensures r.Ok? ==> r.value in {caller, AID_WIFI}
  {
    var u := uid % U32;
    if u == UID_SELF % U32 || u == caller then Ok(caller)
    else if caller == AID_SYSTEM && u == AID_WIFI then Ok(AID_WIFI)
    else Err(PermissionDenied)
  }

  /** The uid a deleted namespace stands for, if this store has entries for it. */
  function DeletedUid(domain: Domain, namespace: int): Option<int> {
    if domain == App then Some(namespace % U32)
    else if domain == SELinux && namespace == WIFI_NAMESPACE then Some(AID_WIFI)
    else None
  }

  /** The map callers see: what is in the table hides what is in a file. */
  function Seen(profiles: Entries, files: Entries): Entries {
    files + profiles
  }

  /** The aliases of a uid that start with the prefix. */
  function AliasesIn(entries: Entries, uid: int, prefix: Alias): set<Alias> {
    set n | n in entries && n.uid == uid && prefix <= n.alias :: n.alias
  }

  lemma AliasIn(entries: Entries, uid: int, prefix: Alias)
    ensures forall a :: a in AliasesIn(entries, uid, prefix) <==> Name(uid, a) in entries && prefix <= a
  {
    forall a | Name(uid, a) in entries && prefix <= a ensures a in AliasesIn(entries, uid, prefix) {
      var n := Name(uid, a);
      assert n.uid == uid && n.alias == a;
    }
  }

  // ---------- Listing ----------

  method Retain(s: seq<Alias>, prefix: Alias) returns (r: seq<Alias>)
    ensures Elements(r) == set a | a in s && prefix <= a
  {
    r := [];
    for i := 0 to |s|
      invariant Elements(r) == set a | a in s[..i] && prefix <= a
    {
      assert s[..i + 1] == s[..i] + [s[i]];
      if prefix <= s[i] {
        Joined(r, [s[i]]);
        r := r + [s[i]];
      }
    }
    assert s[..|s|] == s;
  }

  // ---------- The store ----------

  class LegacyKeystore {
    var profiles: Entries
    var files: Entries
    var recentlyImported: set<Name>
    const getEnabled: bool
    const putEnabled: bool

    /** What was imported once has no file any more. */
    ghost predicate Valid()
      reads this
    {
      recentlyImported !! files.Keys
    }

    /** No entry is in both places. */
    ghost predicate Disjoint()
      reads this
    {
      profiles.Keys !! files.Keys
    }

    function View(): Entries
      reads this
    {
      Seen(profiles, files)
    }

    constructor (profiles: Entries, files: Entries, getEnabled: bool, putEnabled: bool)
      ensures Valid() && this.profiles == profiles && this.files == files
      ensures this.getEnabled == getEnabled && this.putEnabled == putEnabled
    {
      this.profiles, this.files, recentlyImported := profiles, files, {};
      this.getEnabled, this.putEnabled := getEnabled, putEnabled;
    }

    /** get_legacy and import_one_legacy_entry. */
    method GetLegacy(n: Name, readable: bool, removable: bool) returns (r: Result<bool>)
      requires Valid() && n !in profiles
      modifies this
      ensures Valid() && View() == old(View())
      ensures removable && old(Disjoint()) ==> Disjoint()
      ensures n in old(files) && readable && putEnabled && removable ==> r == Ok(true)
      ensures n in profiles <==> n in old(files) && readable && putEnabled
      ensures r.Ok? && n in old(files) ==> r.value && removable && readable && putEnabled
      ensures r == Ok(false) ==> n !in old(files)
      ensures r.Err? ==> n in old(files) && !(readable && putEnabled && removable)
    {
      if n in recentlyImported {
        return Ok(true);
      }
      if n !in files {
        return Ok(false);
      }
      if !readable || !putEnabled {
        return Err(System);
      }
      profiles := profiles[n := files[n]];
      if !removable {
        return Err(System);
      }
      files := files - {n};
      recentlyImported := recentlyImported + {n};
      r := Ok(true);
    }

    method Get(alias: Alias, uid: int, caller: int, readable: bool, removable: bool) returns (r: Result<Bytes>)
      requires Valid()
      modifies this
      ensures Valid() && View() == old(View())
      ensures removable && old(Disjoint()) ==> Disjoint()
      ensures !getEnabled ==> r == Err(System)
      ensures getEnabled && EffectiveUid(uid, caller).Err? ==> r == Err(PermissionDenied)
      ensures getEnabled && EffectiveUid(uid, caller).Ok? ==>
        var n := Name(EffectiveUid(uid, caller).value, alias);
        && (r.Ok? ==> n in old(View()) && r.value == old(View())[n])
        && (r == Err(KeyNotFound) <==> n !in old(View()))
        && (r.Ok? <==> n in old(profiles) || (n in old(files) && readable && putEnabled && removable))
    {
      if !getEnabled {
        return Err(System);
      }
      var effective := EffectiveUid(uid, caller);
      if effective.Err? {
        return Err(effective.error);
      }
      var n := Name(effective.value, alias);
      if n in profiles {
        return Ok(profiles[n]);
      }
      var imported := GetLegacy(n, readable, removable);
      if imported.Err? {
        return Err(System);
      }
      if imported.value && n in profiles {
        return Ok(profiles[n]);
      }
      r := Err(KeyNotFound);
    }

    /** remove_legacy */
    method RemoveLegacy(n: Name, removable: bool) returns (r: Result<bool>)
      requires Valid()
      modifies `files
      ensures Valid()
      ensures files == if removable then old(files) - {n} else old(files)
      ensures n in recentlyImported ==> r == Ok(false)
      ensures n !in recentlyImported ==> r == if removable then Ok(n in old(files)) else Err(System)
    {
      if n in recentlyImported {
        assert files - {n} == files;
        return Ok(false);
      }
      if !removable {
        return Err(System);
      }
      r := Ok(n in files);
      files := files - {n};
    }

    method Put(alias: Alias, uid: int, caller: int, entry: Bytes, removable: bool) returns (r: Result<()>)
      requires Valid()
      modifies this
      ensures Valid() && (removable && old(Disjoint()) ==> Disjoint())
      ensures r.Ok? <==> putEnabled && EffectiveUid(uid, caller).Ok?
      ensures View() == if r.Ok? then old(View())[Name(EffectiveUid(uid, caller).value, alias) := entry] else old(View())
      ensures r.Ok? ==>
        var n := Name(EffectiveUid(uid, caller).value, alias);
        n in profiles && files == if removable then old(files) - {n} else old(files)
    {
      if !putEnabled {
        return Err(System);
      }
      var effective := EffectiveUid(uid, caller);
      if effective.Err? {
        return Err(effective.error);
      }
      var n := Name(effective.value, alias);
      profiles := profiles[n := entry];
      var _ := RemoveLegacy(n, removable);
      r := Ok(());
    }

    /** An entry that is in both places survives its removal, in the table. */
    method Remove(alias: Alias, uid: int, caller: int, removable: bool) returns (r: Result<()>)
      requires Valid()
      modifies this
      ensures Valid() && (old(Disjoint()) ==> Disjoint())
      ensures EffectiveUid(uid, caller).Err? ==> r == Err(PermissionDenied) && View() == old(View())
      ensures EffectiveUid(uid, caller).Ok? ==>
        var n := Name(EffectiveUid(uid, caller).value, alias);
        if removable || n in old(recentlyImported) then
          && r == (if n in old(View()) then Ok(()) else Err(KeyNotFound))
          && (View() == old(View()) - {n} <==> !(n in old(profiles) && n in old(files)))
          && View() == if n in old(profiles) && n in old(files) then old(View()) else old(View()) - {n}
        else r == Err(System) && View() == old(View())
    {
      var effective := EffectiveUid(uid, caller);
      if effective.Err? {
        return Err(effective.error);
      }
      var n := Name(effective.value, alias);
      var removed := RemoveLegacy(n, removable);
      if removed.Err? {
        return Err(removed.error);
      }
      if removed.value {
        return Ok(());
      }
      r := if n in profiles then Ok(()) else Err(KeyNotFound);
      profiles := profiles - {n};
    }

    /** The loop of bulk_delete_uid and bulk_delete_user over the listed files; failures are only logged. */
    method BulkDelete(names: seq<Name>, stuck: set<Name>)
      requires Valid()
      modifies `files
      ensures Valid() && files == old(files) - ((set n | n in names) - stuck)
    {
      for i := 0 to |names|
        invariant Valid() && files == old(files) - ((set n | n in names[..i]) - stuck)
      {
        assert names[..i + 1] == names[..i] + [names[i]];
        if names[i] !in stuck {
          files := files - {names[i]};
        }
      }
      assert names[..|names|] == names;
    }

    method DeleteNamespace(domain: Domain, namespace: int, names: seq<Name>, stuck: set<Name>)
      requires Valid()
      requires DeletedUid(domain, namespace).Some? ==>
        forall n :: n in names <==> n in files && n.uid == DeletedUid(domain, namespace).value
      modifies this
      ensures Valid() && (old(Disjoint()) ==> Disjoint())
      ensures DeletedUid(domain, namespace).None? ==> View() == old(View())
      ensures DeletedUid(domain, namespace).Some? ==>
        forall n :: n in View() <==> n in old(View()) && (n.uid != DeletedUid(domain, namespace).value || (n in old(files) && n in stuck))
      ensures forall n :: n in View() && DeletedUid(domain, namespace) != Some(n.uid) ==> View()[n] == old(View())[n]
      ensures domain == App ==> forall n :: n in View() <==> n in old(View()) && (n.uid != namespace % 0x1_0000_0000 || (n in old(files) && n in stuck))
      ensures domain == SELinux && namespace == 102 ==> forall n :: n in View() <==> n in old(View()) && (n.uid != 1010 || (n in old(files) && n in stuck))
      ensures domain != App && !(domain == SELinux && namespace == 102) ==> View() == old(View())
    {
      var deleted := DeletedUid(domain, namespace);
      if deleted.None? {
        return;
      }
      BulkDelete(names, stuck);
      profiles := map n | n in profiles && n.uid != deleted.value :: profiles[n];
    }

    method DeleteUser(user: int, names: seq<Name>, stuck: set<Name>)
      requires Valid() && forall n :: n in names <==> n in files && UserOf(n.uid) == user
      modifies this
      ensures Valid() && (old(Disjoint()) ==> Disjoint())
      ensures forall n :: n in View() <==> n in old(View()) && (UserOf(n.uid) != user || (n in old(files) && n in stuck))
      ensures forall n :: n in View() && UserOf(n.uid) != user ==> View()[n] == old(View())[n]
    {
      BulkDelete(names, stuck);
      profiles := map n | n in profiles && UserOf(n.uid) != user :: profiles[n];
    }

    /** The aliases a caller sees are those of the map, sorted, each of them once. */
    method List(prefix: Alias, uid: int, caller: int, legacy: seq<Alias>, stored: seq<Alias>) returns (r: Result<seq<Alias>>)
      requires EffectiveUid(uid, caller).Ok? ==>
        && Elements(legacy) == AliasesIn(files, EffectiveUid(uid, caller).value, [])
        && Elements(stored) == AliasesIn(profiles, EffectiveUid(uid, caller).value, [])
      ensures EffectiveUid(uid, caller).Err? ==> r == Err(PermissionDenied)
      ensures EffectiveUid(uid, caller).Ok? ==>
        r == Ok(Sorted(AliasesIn(View(), EffectiveUid(uid, caller).value, prefix)))
    {
      var effective := EffectiveUid(uid, caller);
      if effective.Err? {
        return Err(effective.error);
      }
      var all := legacy + stored;
      var kept := Retain(all, prefix);
      Sorts(kept);
      var result := Dedup(SortUnstable(kept));
      SortedUnique(result);
      Joined(legacy, stored);
      AliasIn(files, effective.value, []);
      AliasIn(profiles, effective.value, []);
      AliasIn(View(), effective.value, prefix);
      assert forall a :: a in Elements(all) <==> a in all;
      assert Elements(result) == AliasesIn(View(), effective.value, prefix);
      r := Ok(result);
    }
  }

  /**
   * How an entry comes to be in both places: a put whose removal of the stale file fails. Removing
   * the entry then removes the file, says that it succeeded, and the entry is still there.
   */
  method RemovedEntrySurvives(alias: Alias, caller: int, stale: Bytes, entry: Bytes)
    returns (store: LegacyKeystore, put: Result<()>, removed: Result<()>)
    ensures put.Ok? && removed.Ok? && Name(caller, alias) in store.View() && store.View()[Name(caller, alias)] == entry
  {
    var n := Name(caller, alias);
    store := new LegacyKeystore(map[], map[n := stale], true, true);
    put := store.Put(alias, UID_SELF, caller, entry, false);
    removed := store.Remove(alias, UID_SELF, caller, true);
  }
}
