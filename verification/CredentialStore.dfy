/**
 * The class that holds a credential: saving and loading it, its entries, and the certification and
 * use of its authentication keys.
 */
module CredentialStore {
  import opened Tables
  import opened Credential
  import opened AuthKeys

  const NEW_KEY := AuthKey([], [], [], [], [], 0, 0)

  // ---------- Certification ----------

  /** The key was never certified, is used up, or will expire too soon; and no new one is on its way. */
  predicate NeedsNewKey(key: AuthKey, maxUses: int, minValidTime: int, now: int) {
    && (key.certificate == [] || key.useCount >= maxUses || now > ToInt64(key.expiration - minValidTime))
    && key.pendingCertificate == []
  }

  datatype KeyPair = KeyPair(keyBlob: Bytes, certificate: Bytes)

  function Renewed(key: AuthKey, maxUses: int, minValidTime: int, now: int, pair: KeyPair): AuthKey {
    if NeedsNewKey(key, maxUses, minValidTime, now)
    then key.(pendingCertificate := pair.certificate, pendingKeyBlob := pair.keyBlob) else key
  }

  /** The certificate that waits to be signed, if the key has or gets a pending one. */
  function Request(key: AuthKey, maxUses: int, minValidTime: int, now: int, pair: Option<KeyPair>): seq<Bytes>
    requires NeedsNewKey(key, maxUses, minValidTime, now) ==> pair.Some?
  {
    if NeedsNewKey(key, maxUses, minValidTime, now) then [pair.value.certificate]
    else if key.pendingCertificate != [] then [key.pendingCertificate]
    else []
  }

  function Requests(keys: seq<AuthKey>, maxUses: int, minValidTime: int, now: int, pairs: seq<Option<KeyPair>>): seq<Bytes>
    requires |pairs| == |keys|
    requires forall i :: 0 <= i < |keys| && NeedsNewKey(keys[i], maxUses, minValidTime, now) ==> pairs[i].Some?
  {
    if keys == [] then [] else
      var n := |keys| - 1;
      Requests(keys[..n], maxUses, minValidTime, now, pairs[..n]) + Request(keys[n], maxUses, minValidTime, now, pairs[n])
  }

  /** The HAL answers for each of the first `n` keys that needs a new one. */
  ghost predicate AnsweredUpTo(keys: seq<AuthKey>, maxUses: int, minValidTime: int, now: int, pairs: seq<Option<KeyPair>>, n: nat)
    requires |pairs| == |keys| && n <= |keys|
  {
    forall i :: 0 <= i < n && NeedsNewKey(keys[i], maxUses, minValidTime, now) ==> pairs[i].Some?
  }

  /** Key `n` is the first one for which the HAL fails, or all are answered. */
  ghost predicate FirstUnanswered(keys: seq<AuthKey>, maxUses: int, minValidTime: int, now: int, pairs: seq<Option<KeyPair>>, n: nat)
    requires |pairs| == |keys| && n <= |keys|
  {
    && AnsweredUpTo(keys, maxUses, minValidTime, now, pairs, n)
    && (n < |keys| ==> NeedsNewKey(keys[n], maxUses, minValidTime, now) && pairs[n].None?)
  }

  /** Of the first `n` keys those in need have the HAL's answer as their pending one, and all other keys are as they were. */
  ghost predicate RenewedUpTo(keys: seq<AuthKey>, after: seq<AuthKey>, maxUses: int, minValidTime: int, now: int, pairs: seq<Option<KeyPair>>, n: nat)
    requires |pairs| == |keys| && n <= |keys| && AnsweredUpTo(keys, maxUses, minValidTime, now, pairs, n)
  {
    |after| == |keys| && forall i :: 0 <= i < |keys| ==>
      after[i] == if i < n && NeedsNewKey(keys[i], maxUses, minValidTime, now)
                  then keys[i].(pendingCertificate := pairs[i].value.certificate, pendingKeyBlob := pairs[i].value.keyBlob) else keys[i]
  }

  lemma OneMoreRequest(keys: seq<AuthKey>, maxUses: int, minValidTime: int, now: int, pairs: seq<Option<KeyPair>>, n: nat)
    requires |pairs| == |keys| && n < |keys| && AnsweredUpTo(keys, maxUses, minValidTime, now, pairs, n)
    requires NeedsNewKey(keys[n], maxUses, minValidTime, now) ==> pairs[n].Some?
    ensures Requests(keys[..n + 1], maxUses, minValidTime, now, pairs[..n + 1]) ==
      Requests(keys[..n], maxUses, minValidTime, now, pairs[..n]) + Request(keys[n], maxUses, minValidTime, now, pairs[n])
  {
    assert keys[..n + 1][..n] == keys[..n] && pairs[..n + 1][..n] == pairs[..n];
  }

  function Certified(key: AuthKey, expiration: Int64, staticData: Bytes): AuthKey {
    AuthKey(key.pendingCertificate, key.pendingKeyBlob, staticData, [], [], 0, expiration)
  }

  /** The first key that waits for this certificate. */
  ghost predicate FirstPending(keys: seq<AuthKey>, certificate: Bytes, c: int) {
    && 0 <= c < |keys| && keys[c].pendingCertificate == certificate
    && forall i :: 0 <= i < c ==> keys[i].pendingCertificate != certificate
  }

  /**
   * Storing the data of a certified key makes that key usable, fresh and no longer in need of a new
   * one for as long as it is valid, exactly if the certificate is not empty.
   */
  lemma CertificationCompletes(key: AuthKey, expiration: Int64, staticData: Bytes, maxUses: int, minValidTime: int, now: int)
    requires maxUses > 0 && now <= expiration && now <= ToInt64(expiration - minValidTime)
    ensures var c := Certified(key, expiration, staticData);
      && (Eligible(c, now, false) <==> key.pendingCertificate != [])
      && (NeedsNewKey(c, maxUses, minValidTime, now) <==> key.pendingCertificate == [])
      && c.useCount == 0
  {
  }

  /** When a key needs a new one: it has none certified, or that is used up or soon expires; and none waits to be certified. */
  lemma NeedsNewKeyExactly(key: AuthKey, maxUses: int, minValidTime: int, now: int)
    ensures key.pendingCertificate != [] ==> !NeedsNewKey(key, maxUses, minValidTime, now)
    ensures key.pendingCertificate == [] && key.certificate == [] ==> NeedsNewKey(key, maxUses, minValidTime, now)
    ensures key.pendingCertificate == [] && key.certificate != [] ==>
      (NeedsNewKey(key, maxUses, minValidTime, now) <==> key.useCount >= maxUses || now > ToInt64(key.expiration - minValidTime))
  {
  }

  /** The pair that the HAL made for a key in need is the one in use once it is certified, and nothing of the old one is left. */
  lemma CertifiedPairIsUsed(key: AuthKey, maxUses: int, minValidTime: int, now: int, pair: KeyPair, expiration: Int64, staticData: Bytes)
    requires NeedsNewKey(key, maxUses, minValidTime, now)
    ensures Certified(Renewed(key, maxUses, minValidTime, now, pair), expiration, staticData) ==
      AuthKey(pair.certificate, pair.keyBlob, staticData, [], [], 0, expiration)
  {
  }

  /** What is to be certified: the new certificates of the keys in need, and those that other keys wait for. */
  lemma {:induction false} RequestsAre(keys: seq<AuthKey>, maxUses: int, minValidTime: int, now: int, pairs: seq<Option<KeyPair>>, x: Bytes)
    requires |pairs| == |keys|
    requires forall i :: 0 <= i < |keys| && NeedsNewKey(keys[i], maxUses, minValidTime, now) ==> pairs[i].Some?
    ensures x in Requests(keys, maxUses, minValidTime, now, pairs) <==>
      exists i :: 0 <= i < |keys| && if NeedsNewKey(keys[i], maxUses, minValidTime, now) then pairs[i].value.certificate == x
                                     else keys[i].pendingCertificate == x != []
  {
    if keys != [] {
      var n := |keys| - 1;
      RequestsAre(keys[..n], maxUses, minValidTime, now, pairs[..n], x);
      assert forall i :: 0 <= i < n ==> keys[..n][i] == keys[i] && pairs[..n][i] == pairs[i];
    }
  }

  // ---------- The class ----------

  class CredentialData {
    var fields: Fields

    constructor (secureUserId: Int64)
      ensures fields == Fields(secureUserId, [], [], [], map[], 0, 1, 0, [])
    {
      fields := Fields(secureUserId, [], [], [], map[], 0, 1, 0, []);
    }

    /** addEntryData: an entry replaces the one with the same id, whatever their namespaces are. */
    method AddEntryData(namespaceName: string, entryName: string, data: EntryData)
      modifies this
      ensures fields == old(fields).(entries := old(fields).entries[EntryId(namespaceName, entryName) := data])
    {
      fields := fields.(entries := fields.entries[EntryId(namespaceName, entryName) := data]);
    }

    /** saveToDisk, up to the writing of the file; `names` is the order in which the map is visited. */
    method SaveToDisk(names: seq<string>) returns (item: Item)
      requires Visits(names, fields.entries)
      ensures item == Map(Saved(fields, names, KEYS))
    {
      var profiles := EncodeItems(fields.profiles, ProfileItem);
      var pairs: seq<(Item, Item)> := [];
      for i := 0 to |names|
        invariant |pairs| == i
        invariant forall j :: 0 <= j < i ==> pairs[j] == (Tstr(names[j]), EntryItem(fields.entries[names[j]]))
      {
        var data := fields.entries[names[i]];
        var chunks := EncodeItems(data.chunks, ChunkItem);
        var ids := EncodeItems(data.profileIds, IdItem);
        pairs := pairs + [(Tstr(names[i]), Array([Int(ToInt64(data.size)), Array(ids), Array(chunks)]))];
      }
      var keys := EncodeItems(fields.authKeys, AuthKeyItem);
      assert pairs == EntryPairs(names, fields.entries);
      item := Map([
        (Tstr("secureUserId"), Int(fields.secureUserId)),
        (Tstr("credentialData"), Bstr(fields.credentialData)),
        (Tstr("attestationCertificate"), Bstr(fields.attestationCertificate)),
        (Tstr("secureAccessControlProfiles"), Array(profiles)),
        (Tstr("entryData"), Map(pairs)),
        (Tstr("authKeyCount"), Int(fields.keyCount)),
        (Tstr("maxUsesPerAuthKey"), Int(fields.maxUsesPerKey)),
        (Tstr("minValidTimeMillis"), Int(fields.minValidTimeMillis)),
        (Tstr("authKeyData"), Array(keys))]);
    }

    /** The loop over the entries of a saved credential. */
    method ParseEntryData(pairs: seq<(Item, Item)>) returns (r: Parsed<map<string, EntryData>>)
      ensures r == ParseEntries(pairs)
    {
      var entries: map<string, EntryData> := map[];
      for i := 0 to |pairs|
        invariant ParseEntries(pairs[..i]) == Good(entries)
      {
        assert pairs[..i + 1][..i] == pairs[..i];
        var (key, value) := pairs[i];
        if !key.Tstr? {
          EntriesStop(pairs, i + 1);
          return Bad;
        }
        match ParseEntry(value) {
          case Good(data) => entries := entries[key.text := data];
          case Bad => EntriesStop(pairs, i + 1); return Bad;
          case NullPointer => EntriesStop(pairs, i + 1); return NullPointer;
        }
      }
      assert pairs[..|pairs|] == pairs;
      r := Good(entries);
    }

    method AbsorbOne(key: Item, value: Item) returns (r: Parsed<()>)
      modifies this
      ensures match Absorb(old(fields), key, value)
        case Good(f) => r == Good(()) && fields == f
        case Bad => r == Bad
        case NullPointer => r == NullPointer
    {
      if !key.Tstr? {
        return Bad;
      }
      var k := KeyOf(key.text);
      if k.None? {
        return Good(());
      }
      match k.value {
        case Profiles =>
          if !value.Array? {
            return Bad;
          }
          var list := ParseItems(value.items, ParseProfile);
          if !list.Good? {
            return if list.Bad? then Bad else NullPointer;
          }
          fields := fields.(profiles := fields.profiles + list.value);
        case AuthKeys =>
          if !value.Array? {
            return Bad;
          }
          var list := ParseItems(value.items, ParseAuthKey);
          if !list.Good? {
            return if list.Bad? then Bad else NullPointer;
          }
          fields := fields.(authKeys := fields.authKeys + list.value);
        case Entries =>
          if !value.Map? {
            return Bad;
          }
          var entries := ParseEntryData(value.pairs);
          if !entries.Good? {
            return if entries.Bad? then Bad else NullPointer;
          }
          fields := fields.(entries := fields.entries + entries.value);
        case CredentialBlob =>
          if !value.Bstr? {
            return Bad;
          }
          fields := fields.(credentialData := value.bytes);
        case Attestation =>
          if !value.Bstr? {
            return Bad;
          }
          fields := fields.(attestationCertificate := value.bytes);
        case SecureUserId =>
          if !value.Int? {
            return Bad;
          }
          fields := fields.(secureUserId := value.value);
        case KeyCount =>
          if !value.Int? {
            return Bad;
          }
          fields := fields.(keyCount := ToInt32(value.value));
        case MaxUses =>
          if !value.Int? {
            return Bad;
          }
          fields := fields.(maxUsesPerKey := ToInt32(value.value));
        case MinValidTime =>
          if !value.Int? {
            return Bad;
          }
          fields := fields.(minValidTimeMillis := value.value);
      }
      r := Good(());
    }

    /** loadFromDisk; `item` is None if the file cannot be read or is not CBOR. */
    method LoadFromDisk(item: Option<Item>) returns (r: Parsed<()>)
      modifies this
      ensures item.None? ==> r == Bad && fields == Cleared(old(fields))
      ensures item.Some? ==>
        match Loaded(old(fields), item.value)
        case Good(f) => r == Good(()) && fields == f
        case Bad => r == Bad
        case NullPointer => r == NullPointer
    {
      fields := Fields(fields.secureUserId, [], [], [], map[], 0, 1, 0, []);
      if item.None? {
        return Bad;
      }
      if !item.value.Map? {
        return Bad;
      }
      var pairs := item.value.pairs;
      for i := 0 to |pairs|
        invariant AbsorbAll(Cleared(old(fields)), pairs[..i]) == Good(fields)
      {
        assert pairs[..i + 1][..i] == pairs[..i];
        var one := AbsorbOne(pairs[i].0, pairs[i].1);
        if !one.Good? {
          AbsorbStops(Cleared(old(fields)), pairs, i + 1);
          return one;
        }
      }
      assert pairs[..|pairs|] == pairs;
      if fields.credentialData == [] || fields.attestationCertificate == [] || ToUint64(fields.keyCount) != |fields.authKeys| {
        return Bad;
      }
      r := Good(());
    }

    /**
     * Growing adds keys that were never certified, shrinking drops keys at the end. A negative count
     * is stored, and then asks for a list longer than there can be: the resize ends the process.
     */
    method SetAvailableAuthenticationKeys(keyCount: Int32, maxUsesPerKey: Int32, minValidTimeMillis: Int64) returns (survives: bool)
      modifies this
      ensures survives <==> keyCount >= 0
      ensures fields == old(fields).(keyCount := keyCount, maxUsesPerKey := maxUsesPerKey,
                                     minValidTimeMillis := minValidTimeMillis, authKeys := fields.authKeys)
      ensures survives ==> ToUint64(fields.keyCount) == |fields.authKeys|
      ensures survives ==> forall i :: 0 <= i < keyCount ==>
        fields.authKeys[i] == if i < |old(fields).authKeys| then old(fields).authKeys[i] else NEW_KEY
      ensures !survives ==> fields.authKeys == old(fields).authKeys
    {
      fields := fields.(keyCount := keyCount, maxUsesPerKey := maxUsesPerKey, minValidTimeMillis := minValidTimeMillis);
      if keyCount < 0 {
        return false;
      }
      var keys := fields.authKeys;
      if keyCount <= |keys| {
        keys := keys[..keyCount];
      } else {
        keys := keys + seq(keyCount - |keys|, i => NEW_KEY);
      }
      fields := fields.(authKeys := keys);
      survives := true;
    }

    /** selectAuthKey; `first` and `second` are the times the two searches read. */
    method SelectAuthKey(allowExhausted: bool, allowExpired: bool, increment: bool, first: Option<int>, second: Option<int>)
      returns (r: Option<nat>)
      modifies this
      ensures r.Some? ==> r.value < |old(fields).authKeys|
      ensures exists unexpired ::
        && FindsAt(old(fields).authKeys, fields.maxUsesPerKey, first, allowExhausted, false, unexpired)
        && (unexpired.Some? ==> r == unexpired)
        && (unexpired.None? && !allowExpired ==> r.None?)
        && (unexpired.None? && allowExpired ==> FindsAt(old(fields).authKeys, fields.maxUsesPerKey, second, allowExhausted, true, r))
      ensures first.Some? && second == first ==>
        Selects(old(fields).authKeys, fields.maxUsesPerKey, first.value, allowExhausted, allowExpired, r)
      ensures fields == old(fields).(authKeys :=
        if increment && r.Some? then Used(old(fields).authKeys, r.value) else old(fields).authKeys)
    {
      r := FindAuthKey(fields.authKeys, fields.maxUsesPerKey, first, allowExhausted, false);
      if r.None? {
        if !allowExpired {
          return None;
        }
        r := FindAuthKey(fields.authKeys, fields.maxUsesPerKey, second, allowExhausted, true);
        if r.None? {
          return None;
        }
      }
      if increment {
        fields := fields.(authKeys := Used(fields.authKeys, r.value));
      }
    }

    /** `pairs` are the HAL's answers, one for each key that it is asked about. */
    method GetAuthKeysNeedingCertification(now: Option<int>, pairs: seq<Option<KeyPair>>) returns (r: Option<seq<Bytes>>)
      requires |pairs| == |fields.authKeys|
      modifies this
      ensures fields == old(fields).(authKeys := fields.authKeys) && |fields.authKeys| == |old(fields).authKeys|
      ensures now.None? ==> r.None? && fields == old(fields)
      ensures now.Some? ==>
        var keys, max, valid := old(fields).authKeys, fields.maxUsesPerKey, fields.minValidTimeMillis;
        && (r.Some? <==> AnsweredUpTo(keys, max, valid, now.value, pairs, |pairs|))
        && (r.Some? ==> r.value == Requests(keys, max, valid, now.value, pairs))
        && exists n: nat :: n <= |pairs| && FirstUnanswered(keys, max, valid, now.value, pairs, n)
             && RenewedUpTo(keys, fields.authKeys, max, valid, now.value, pairs, n)
    {
      if now.None? {
        return None;
      }
      ghost var keys := fields.authKeys;
      var max, valid := fields.maxUsesPerKey, fields.minValidTimeMillis;
      var needing: seq<Bytes> := [];
      for n := 0 to |pairs|
        invariant fields == old(fields).(authKeys := fields.authKeys)
        invariant AnsweredUpTo(keys, max, valid, now.value, pairs, n) && RenewedUpTo(keys, fields.authKeys, max, valid, now.value, pairs, n)
        invariant needing == Requests(keys[..n], max, valid, now.value, pairs[..n])
      {
        ghost var before := needing;
        var data := fields.authKeys[n];
        var pending := data.pendingCertificate != [];
        if NeedsNewKey(data, max, valid, now.value) {
          if pairs[n].None? {
            assert FirstUnanswered(keys, max, valid, now.value, pairs, n);
            return None;
          }
          data := data.(pendingCertificate := pairs[n].value.certificate, pendingKeyBlob := pairs[n].value.keyBlob);
          fields := fields.(authKeys := fields.authKeys[n := data]);
          pending := true;
        }
        if pending {
          needing := needing + [data.pendingCertificate];
        }
        OneMoreRequest(keys, max, valid, now.value, pairs, n);
        assert needing == before + Request(keys[n], max, valid, now.value, pairs[n]);
      }
      assert keys[..|pairs|] == keys && pairs[..|pairs|] == pairs;
      assert FirstUnanswered(keys, max, valid, now.value, pairs, |pairs|);
      r := Some(needing);
    }

    method StoreStaticAuthenticationData(authenticationKey: Bytes, expiration: Int64, staticData: Bytes) returns (found: bool)
      modifies this
      ensures found <==> exists i :: 0 <= i < |old(fields).authKeys| && old(fields).authKeys[i].pendingCertificate == authenticationKey
      ensures !found ==> fields == old(fields)
      ensures found ==> exists c ::
        && FirstPending(old(fields).authKeys, authenticationKey, c)
        && fields == old(fields).(authKeys := old(fields).authKeys[c := Certified(old(fields).authKeys[c], expiration, staticData)])
    {
      for i := 0 to |fields.authKeys|
        invariant fields == old(fields)
        invariant forall j :: 0 <= j < i ==> fields.authKeys[j].pendingCertificate != authenticationKey
      {
        var data := fields.authKeys[i];
        if data.pendingCertificate == authenticationKey {
          fields := fields.(authKeys := fields.authKeys[i := Certified(data, expiration, staticData)]);
          assert FirstPending(old(fields).authKeys, authenticationKey, i);
          return true;
        }
      }
      return false;
    }
  }

  lemma {:induction false} EntriesStop(pairs: seq<(Item, Item)>, i: nat)
    requires i <= |pairs| && !ParseEntries(pairs[..i]).Good?
    ensures ParseEntries(pairs) == ParseEntries(pairs[..i])
  {
    if i < |pairs| {
      var front := pairs[..|pairs| - 1];
      assert front[..i] == pairs[..i];
      EntriesStop(front, i);
    } else {
      assert pairs[..i] == pairs;
    }
  }

  lemma {:induction false} AbsorbStops(f: Fields, pairs: seq<(Item, Item)>, i: nat)
    requires i <= |pairs| && !AbsorbAll(f, pairs[..i]).Good?
    ensures AbsorbAll(f, pairs) == AbsorbAll(f, pairs[..i])
  {
    if i < |pairs| {
      var front := pairs[..|pairs| - 1];
      assert front[..i] == pairs[..i];
      AbsorbStops(f, front, i);
    } else {
      assert pairs[..i] == pairs;
    }
  }

  /** An entry of a namespace is replaced by one of another namespace whose name goes on with a colon. */
  method EntryReplaced(namespaceName: string, rest: string, entryName: string, first: EntryData, second: EntryData)
    returns (credential: CredentialData)
    ensures credential.fields.entries == map[EntryId(namespaceName, rest + ":" + entryName) := second]
  {
    credential := new CredentialData(0);
    credential.AddEntryData(namespaceName, rest + ":" + entryName, first);
    credential.AddEntryData(namespaceName + ":" + rest, entryName, second);
    assert EntryId(namespaceName, rest + ":" + entryName) == EntryId(namespaceName + ":" + rest, entryName);
  }
}
