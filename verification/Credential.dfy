/**
 * An identity credential as it is kept in memory, and the CBOR item it is saved as. Items are the
 * trees of section 3.1 of RFC 8949; the step from items to bytes and back is left to the library.
 */
module Credential {
  import opened Tables

  // ---------- Numbers ----------

  const TWO_31: int := 0x8000_0000
  const TWO_32: int := 0x1_0000_0000
  const TWO_63: int := 0x8000_0000_0000_0000
  const TWO_64: int := 0x1_0000_0000_0000_0000
  const INT64_MAX: int := TWO_63 - 1

  type Int32 = x: int | -TWO_31 <= x < TWO_31
  type Int64 = x: int | -TWO_63 <= x < TWO_63
  type Uint64 = x: int | 0 <= x < TWO_64

  /** Conversions as C++ does them, modulo a power of two. */
  function ToInt32(x: int): Int32 {
    var m := x % TWO_32; if m < TWO_31 then m else m - TWO_32
  }

  function ToInt64(x: int): Int64 {
    var m := x % TWO_64; if m < TWO_63 then m else m - TWO_64
  }

  function ToUint64(x: int): Uint64 {
    x % TWO_64
  }

  // ---------- Items and records ----------

  datatype Item =
    | Int(value: Int64)
    | Bstr(bytes: Bytes)
    | Tstr(text: string)
    | Bool(flag: bool)
    | Array(items: seq<Item>)
    | Map(pairs: seq<(Item, Item)>)
    | OtherItem

  datatype Profile = Profile(
    id: Int32, certificate: Bytes, userAuthenticationRequired: bool, timeoutMillis: Int64, secureUserId: Int64, mac: Bytes)

  datatype EntryData = EntryData(size: Uint64, profileIds: seq<Int32>, chunks: seq<Bytes>)

  datatype AuthKey = AuthKey(
    certificate: Bytes, keyBlob: Bytes, staticData: Bytes, pendingCertificate: Bytes, pendingKeyBlob: Bytes,
    useCount: Int32, expiration: Int64)

  datatype Fields = Fields(
    secureUserId: Int64, credentialData: Bytes, attestationCertificate: Bytes, profiles: seq<Profile>,
    entries: map<string, EntryData>, keyCount: Int32, maxUsesPerKey: Int32, minValidTimeMillis: Int64,
    authKeys: seq<AuthKey>)

  /** What parsing says: a value, an error, or the dereference of a null pointer. */
  datatype Parsed<+T> = Good(value: T) | Bad | NullPointer

  // ---------- Lists ----------

  function Each<T>(xs: seq<T>, encode: T -> Item): (r: seq<Item>)
    ensures |r| == |xs| && forall i :: 0 <= i < |xs| ==> r[i] == encode(xs[i])
  {
    seq(|xs|, i requires 0 <= i < |xs| => encode(xs[i]))
  }

  /** The elements in order, or what the first one that is not good says. */
  function ParseAll<T>(items: seq<Item>, parse: Item -> Parsed<T>): Parsed<seq<T>> {
    if items == [] then Good([]) else
      match ParseAll(items[..|items| - 1], parse)
      case Good(front) =>
        (match parse(items[|items| - 1])
         case Good(last) => Good(front + [last])
         case Bad => Bad
         case NullPointer => NullPointer)
      case other => other
  }

  method ParseItems<T>(items: seq<Item>, parse: Item -> Parsed<T>) returns (r: Parsed<seq<T>>)
    ensures r == ParseAll(items, parse)
  {
    var result: seq<T> := [];
    for i := 0 to |items|
      invariant ParseAll(items[..i], parse) == Good(result)
    {
      assert items[..i + 1][..i] == items[..i];
      var one := parse(items[i]);
      match one {
        case Good(value) => result := result + [value];
        case Bad => ParseStops(items, parse, i + 1); return Bad;
        case NullPointer => ParseStops(items, parse, i + 1); return NullPointer;
      }
    }
    assert items[..|items|] == items;
    r := Good(result);
  }

  lemma {:induction false} ParseStops<T>(items: seq<Item>, parse: Item -> Parsed<T>, i: nat)
    requires i <= |items| && !ParseAll(items[..i], parse).Good?
    ensures ParseAll(items, parse) == ParseAll(items[..i], parse)
  {
    if i < |items| {
      var front := items[..|items| - 1];
      assert front[..i] == items[..i];
      ParseStops(front, parse, i);
    } else {
      assert items[..i] == items;
    }
  }

  method EncodeItems<T>(xs: seq<T>, encode: T -> Item) returns (r: seq<Item>)
    ensures r == Each(xs, encode)
  {
    r := [];
    for i := 0 to |xs|
      invariant |r| == i && forall j :: 0 <= j < i ==> r[j] == encode(xs[j])
    {
      r := r + [encode(xs[i])];
    }
  }

  lemma {:induction false} ParseEach<T>(xs: seq<T>, encode: T -> Item, parse: Item -> Parsed<T>)
    requires forall i :: 0 <= i < |xs| ==> parse(encode(xs[i])) == Good(xs[i])
    ensures ParseAll(Each(xs, encode), parse) == Good(xs)
  {
    if xs != [] {
      var front := xs[..|xs| - 1];
      ParseEach(front, encode, parse);
      assert Each(xs, encode)[..|xs| - 1] == Each(front, encode);
      assert xs == front + [xs[|xs| - 1]];
    }
  }

  // ---------- The parts ----------

  function ProfileItem(p: Profile): Item {
    Array([Int(p.id), Bstr(p.certificate), Bool(p.userAuthenticationRequired), Int(p.timeoutMillis), Int(p.secureUserId), Bstr(p.mac)])
  }

  function ParseProfile(item: Item): Parsed<Profile> {
    if !item.Array? || |item.items| < 6 then Bad else
      var a := item.items;
      if a[0].Int? && a[1].Bstr? && a[2].Bool? && a[3].Int? && a[4].Int? && a[5].Bstr?
      then Good(Profile(ToInt32(a[0].value), a[1].bytes, a[2].flag, a[3].value, a[4].value, a[5].bytes))
      else Bad
  }

  function AuthKeyItem(k: AuthKey): Item {
    Array([Bstr(k.certificate), Bstr(k.keyBlob), Bstr(k.staticData), Bstr(k.pendingCertificate), Bstr(k.pendingKeyBlob),
           Int(k.useCount), Int(k.expiration)])
  }

  /** A record of Android 11 has no seventh field and never expires. */
  function ParseAuthKey(item: Item): Parsed<AuthKey> {
    if !item.Array? || |item.items| < 6 then Bad else
      var a := item.items;
      if !(a[0].Bstr? && a[1].Bstr? && a[2].Bstr? && a[3].Bstr? && a[4].Bstr? && a[5].Int?) then Bad
      else if |a| >= 7 && !a[6].Int? then NullPointer
      else Good(AuthKey(a[0].bytes, a[1].bytes, a[2].bytes, a[3].bytes, a[4].bytes, ToInt32(a[5].value),
                        if |a| >= 7 then a[6].value else INT64_MAX))
  }

  function IdItem(id: Int32): Item {
    Int(id)
  }

  function ParseId(item: Item): Parsed<Int32> {
    if item.Int? then Good(ToInt32(item.value)) else Bad
  }

  /** A list of profile ids that is malformed is read as an empty one. */
  function ParseIds(item: Item): seq<Int32> {
    if !item.Array? then [] else
      match ParseAll(item.items, ParseId) case Good(ids) => ids case _ => []
  }

  function ChunkItem(chunk: Bytes): Item {
    Bstr(chunk)
  }

  function ParseChunk(item: Item): Parsed<Bytes> {
    if item.Bstr? then Good(item.bytes) else Bad
  }

  function EntryItem(e: EntryData): Item {
    Array([Int(ToInt64(e.size)), Array(Each(e.profileIds, IdItem)), Array(Each(e.chunks, ChunkItem))])
  }

  function ParseEntry(item: Item): Parsed<EntryData> {
    if !item.Array? || |item.items| < 3 || !item.items[0].Int? then Bad
    else if !item.items[2].Array? then Bad
    else match ParseAll(item.items[2].items, ParseChunk)
      case Good(chunks) => Good(EntryData(ToUint64(item.items[0].value), ParseIds(item.items[1]), chunks))
      case Bad => Bad
      case NullPointer => NullPointer
  }

  /** Later entries of the same name replace earlier ones. */
  function ParseEntries(pairs: seq<(Item, Item)>): Parsed<map<string, EntryData>> {
    if pairs == [] then Good(map[]) else
      match ParseEntries(pairs[..|pairs| - 1])
      case Good(front) =>
        var (key, value) := pairs[|pairs| - 1];
        if !key.Tstr? then Bad else
          (match ParseEntry(value)
           case Good(e) => Good(front[key.text := e])
           case Bad => Bad
           case NullPointer => NullPointer)
      case other => other
  }

  lemma NarrowStays(x: Int32)
    ensures ToInt32(x) == x
  {
  }

  lemma SizeRoundTrip(x: Uint64)
    ensures ToUint64(ToInt64(x)) == x
  {
  }

  lemma ProfileRoundTrip(p: Profile)
    ensures ParseProfile(ProfileItem(p)) == Good(p)
  {
    NarrowStays(p.id);
  }

  /** Both with the seventh field and, for records written without it, with the longest validity. */
  lemma AuthKeyRoundTrip(k: AuthKey)
    ensures ParseAuthKey(AuthKeyItem(k)) == Good(k)
    ensures ParseAuthKey(Array(AuthKeyItem(k).items[..6])) == Good(k.(expiration := INT64_MAX))
  {
    NarrowStays(k.useCount);
    var six := AuthKeyItem(k).items[..6];
    assert forall i :: 0 <= i < 6 ==> six[i] == AuthKeyItem(k).items[i];
  }

  lemma EntryRoundTrip(e: EntryData)
    ensures ParseEntry(EntryItem(e)) == Good(e)
  {
    SizeRoundTrip(e.size);
    forall i | 0 <= i < |e.profileIds| ensures ParseId(IdItem(e.profileIds[i])) == Good(e.profileIds[i]) {
      NarrowStays(e.profileIds[i]);
    }
    ParseEach(e.profileIds, IdItem, ParseId);
    ParseEach(e.chunks, ChunkItem, ParseChunk);
    assert EntryItem(e).items[1].items == Each(e.profileIds, IdItem);
    assert EntryItem(e).items[2].items == Each(e.chunks, ChunkItem);
  }

  lemma {:induction false} ParsesNothing<T>(items: seq<Item>, parse: Item -> Parsed<T>)
    ensures ParseAll(items, parse).Good? ==> |ParseAll(items, parse).value| == |items|
  {
    if items != [] {
      ParsesNothing(items[..|items| - 1], parse);
    }
  }

  /**
   * A malformed list of profile ids is not an error. Whatever item stands in its place, the entry
   * loads, and it has no profile ids exactly if the list is empty or malformed.
   */
  lemma MalformedIdsLoadAsNone(size: Int64, ids: Item, chunks: seq<Item>)
    requires ParseAll(chunks, ParseChunk).Good?
    ensures var r := ParseEntry(Array([Int(size), ids, Array(chunks)]));
      && r.Good?
      && (r.value.profileIds == [] <==> !(ids.Array? && ids.items != [] && ParseAll(ids.items, ParseId).Good?))
  {
    if ids.Array? {
      ParsesNothing(ids.items, ParseId);
    }
  }

  /** Fields that a later version appends to a record are ignored, and a record that lacks fields is refused. */
  lemma LaterFieldsIgnored(a: seq<Item>, more: seq<Item>)
    ensures |a| >= 6 ==> ParseProfile(Array(a + more)) == ParseProfile(Array(a))
    ensures |a| >= 7 ==> ParseAuthKey(Array(a + more)) == ParseAuthKey(Array(a))
    ensures |a| >= 3 ==> ParseEntry(Array(a + more)) == ParseEntry(Array(a))
    ensures |a| < 6 ==> ParseProfile(Array(a)) == Bad && ParseAuthKey(Array(a)) == Bad
    ensures |a| < 3 ==> ParseEntry(Array(a)) == Bad
  {
    assert forall i :: 0 <= i < |a| ==> (a + more)[i] == a[i];
  }

  /** An order in which the entries can be visited; the library's map visits them by name. */
  ghost predicate Visits(names: seq<string>, entries: map<string, EntryData>) {
    && (forall i :: 0 <= i < |names| ==> names[i] in entries)
    && (forall n :: n in entries ==> n in names)
    && (forall i, j :: 0 <= i < j < |names| ==> names[i] != names[j])
  }

  function EntryPairs(names: seq<string>, entries: map<string, EntryData>): (r: seq<(Item, Item)>)
    requires forall i :: 0 <= i < |names| ==> names[i] in entries
    ensures |r| == |names| && forall i :: 0 <= i < |names| ==> r[i] == (Tstr(names[i]), EntryItem(entries[names[i]]))
  {
    seq(|names|, i requires 0 <= i < |names| => (Tstr(names[i]), EntryItem(entries[names[i]])))
  }

  lemma EntryAdded(pairs: seq<(Item, Item)>, name: string, e: EntryData)
    requires ParseEntries(pairs).Good?
    ensures ParseEntries(pairs + [(Tstr(name), EntryItem(e))]) == Good(ParseEntries(pairs).value[name := e])
  {
    EntryRoundTrip(e);
    assert (pairs + [(Tstr(name), EntryItem(e))])[..|pairs|] == pairs;
  }

  lemma {:induction false} EntriesRoundTrip(names: seq<string>, entries: map<string, EntryData>)
    requires forall i :: 0 <= i < |names| ==> names[i] in entries
    ensures var r := ParseEntries(EntryPairs(names, entries));
      && r.Good? && (forall n :: n in r.value <==> n in names)
      && (forall n :: n in r.value ==> n in entries && r.value[n] == entries[n])
  {
    if names != [] {
      var front, last := names[..|names| - 1], names[|names| - 1];
      EntriesRoundTrip(front, entries);
      EntryAdded(EntryPairs(front, entries), last, entries[last]);
      assert EntryPairs(names, entries) == EntryPairs(front, entries) + [(Tstr(last), EntryItem(entries[last]))];
      assert names == front + [last];
      assert forall n :: n in names <==> n in front || n == last;
    }
  }

  // ---------- The whole credential ----------

  /** The keys of the top-level map, in the order in which they are written. */
  datatype Key =
    | SecureUserId | CredentialBlob | Attestation | Profiles | Entries | KeyCount | MaxUses | MinValidTime | AuthKeys

  const KEYS: seq<Key> := [
    SecureUserId, CredentialBlob, Attestation, Profiles, Entries, KeyCount, MaxUses, MinValidTime, AuthKeys]

  function Text(key: Key): string {
    match key
    case SecureUserId => "secureUserId"
    case CredentialBlob => "credentialData"
    case Attestation => "attestationCertificate"
    case Profiles => "secureAccessControlProfiles"
    case Entries => "entryData"
    case KeyCount => "authKeyCount"
    case MaxUses => "maxUsesPerAuthKey"
    case MinValidTime => "minValidTimeMillis"
    case AuthKeys => "authKeyData"
  }

  function KeyOf(text: string): (r: Option<Key>)
    ensures r.Some? ==> Text(r.value) == text
  {
    if text == "secureUserId" then Some(SecureUserId)
    else if text == "credentialData" then Some(CredentialBlob)
    else if text == "attestationCertificate" then Some(Attestation)
    else if text == "secureAccessControlProfiles" then Some(Profiles)
    else if text == "entryData" then Some(Entries)
    else if text == "authKeyData" then Some(AuthKeys)
    else if text == "authKeyCount" then Some(KeyCount)
    else if text == "maxUsesPerAuthKey" then Some(MaxUses)
    else if text == "minValidTimeMillis" then Some(MinValidTime)
    else None
  }

  lemma KeysRoundTrip(key: Key)
    ensures KeyOf(Text(key)) == Some(key)
  {
    var t := Text(key);
    match key
    case SecureUserId =>
    case CredentialBlob => assert t[0] == 'c';
    case Attestation => assert t[0] == 'a' && t[1] == 't';
    case Profiles => assert |t| == 27;
    case Entries => assert t[0] == 'e';
    case KeyCount => assert t[7] == 'C';
    case MaxUses => assert t[0] == 'm' && t[1] == 'a';
    case MinValidTime => assert t[0] == 'm' && t[1] == 'i';
    case AuthKeys => assert t[7] == 'D';
  }

  /** What is saved under a key of the top-level map. */
  function FieldItem(f: Fields, names: seq<string>, key: Key): Item
    requires forall i :: 0 <= i < |names| ==> names[i] in f.entries
  {
    match key
    case SecureUserId => Int(f.secureUserId)
    case CredentialBlob => Bstr(f.credentialData)
    case Attestation => Bstr(f.attestationCertificate)
    case Profiles => Array(Each(f.profiles, ProfileItem))
    case Entries => Map(EntryPairs(names, f.entries))
    case KeyCount => Int(f.keyCount)
    case MaxUses => Int(f.maxUsesPerKey)
    case MinValidTime => Int(f.minValidTimeMillis)
    case AuthKeys => Array(Each(f.authKeys, AuthKeyItem))
  }

  /** The top-level map with its keys in some order. */
  function Saved(f: Fields, names: seq<string>, keys: seq<Key>): (r: seq<(Item, Item)>)
    requires forall i :: 0 <= i < |names| ==> names[i] in f.entries
    ensures |r| == |keys| && forall i :: 0 <= i < |keys| ==> r[i] == (Tstr(Text(keys[i])), FieldItem(f, names, keys[i]))
  {
    seq(|keys|, i requires 0 <= i < |keys| => (Tstr(Text(keys[i])), FieldItem(f, names, keys[i])))
  }

  /** loadFromDisk starts from here; it does not reset the secure user id. */
  function Cleared(f: Fields): Fields {
    Fields(f.secureUserId, [], [], [], map[], 0, 1, 0, [])
  }

  /** The value of one key. Lists are appended to. */
  function AbsorbField(f: Fields, key: Key, value: Item): Parsed<Fields> {
    match key
    case SecureUserId => if value.Int? then Good(f.(secureUserId := value.value)) else Bad
    case CredentialBlob => if value.Bstr? then Good(f.(credentialData := value.bytes)) else Bad
    case Attestation => if value.Bstr? then Good(f.(attestationCertificate := value.bytes)) else Bad
    case Profiles =>
      if !value.Array? then Bad
      else (match ParseAll(value.items, ParseProfile)
            case Good(ps) => Good(f.(profiles := f.profiles + ps))
            case Bad => Bad
            case NullPointer => NullPointer)
    case Entries =>
      if !value.Map? then Bad
      else (match ParseEntries(value.pairs)
            case Good(es) => Good(f.(entries := f.entries + es))
            case Bad => Bad
            case NullPointer => NullPointer)
    case AuthKeys =>
      if !value.Array? then Bad
      else (match ParseAll(value.items, ParseAuthKey)
            case Good(ks) => Good(f.(authKeys := f.authKeys + ks))
            case Bad => Bad
            case NullPointer => NullPointer)
    case KeyCount => if value.Int? then Good(f.(keyCount := ToInt32(value.value))) else Bad
    case MaxUses => if value.Int? then Good(f.(maxUsesPerKey := ToInt32(value.value))) else Bad
    case MinValidTime => if value.Int? then Good(f.(minValidTimeMillis := value.value)) else Bad
  }

  /** One turn of the loop over the top-level map; unknown keys are skipped. */
  function Absorb(f: Fields, key: Item, value: Item): Parsed<Fields> {
    if !key.Tstr? then Bad
    else match KeyOf(key.text)
      case Some(k) => AbsorbField(f, k, value)
      case None => Good(f)
  }

  function AbsorbAll(f: Fields, pairs: seq<(Item, Item)>): Parsed<Fields> {
    if pairs == [] then Good(f) else
      match AbsorbAll(f, pairs[..|pairs| - 1])
      case Good(g) => Absorb(g, pairs[|pairs| - 1].0, pairs[|pairs| - 1].1)
      case other => other
  }

  predicate Complete(f: Fields) {
    f.credentialData != [] && f.attestationCertificate != [] && ToUint64(f.keyCount) == |f.authKeys|
  }

  function Loaded(f: Fields, item: Item): Parsed<Fields> {
    if !item.Map? then Bad else
      match AbsorbAll(Cleared(f), item.pairs)
      case Good(g) => if Complete(g) then Good(g) else Bad
      case other => other
  }

  // ---------- Loading what was saved ----------

  /** The credential once these keys have been read, and cleared otherwise. */
  function Partial(was: Fields, f: Fields, seen: set<Key>): Fields {
    var c := Cleared(was);
    Fields(
      if SecureUserId in seen then f.secureUserId else c.secureUserId,
      if CredentialBlob in seen then f.credentialData else c.credentialData,
      if Attestation in seen then f.attestationCertificate else c.attestationCertificate,
      if Profiles in seen then f.profiles else c.profiles,
      if Entries in seen then f.entries else c.entries,
      if KeyCount in seen then f.keyCount else c.keyCount,
      if MaxUses in seen then f.maxUsesPerKey else c.maxUsesPerKey,
      if MinValidTime in seen then f.minValidTimeMillis else c.minValidTimeMillis,
      if AuthKeys in seen then f.authKeys else c.authKeys)
  }

  lemma ListFieldsRoundTrip(f: Fields, names: seq<string>)
    requires Visits(names, f.entries)
    ensures ParseAll(Each(f.profiles, ProfileItem), ParseProfile) == Good(f.profiles)
    ensures ParseAll(Each(f.authKeys, AuthKeyItem), ParseAuthKey) == Good(f.authKeys)
    ensures ParseEntries(EntryPairs(names, f.entries)) == Good(f.entries)
  {
    forall i | 0 <= i < |f.profiles| ensures ParseProfile(ProfileItem(f.profiles[i])) == Good(f.profiles[i]) {
      ProfileRoundTrip(f.profiles[i]);
    }
    ParseEach(f.profiles, ProfileItem, ParseProfile);
    forall i | 0 <= i < |f.authKeys| ensures ParseAuthKey(AuthKeyItem(f.authKeys[i])) == Good(f.authKeys[i]) {
      AuthKeyRoundTrip(f.authKeys[i]);
    }
    ParseEach(f.authKeys, AuthKeyItem, ParseAuthKey);
    EntriesRoundTrip(names, f.entries);
    assert ParseEntries(EntryPairs(names, f.entries)).value == f.entries;
  }

  lemma ProfilesAbsorbed(f: Fields, items: seq<Item>, profiles: seq<Profile>)
    requires f.profiles == [] && ParseAll(items, ParseProfile) == Good(profiles)
    ensures AbsorbField(f, Profiles, Array(items)) == Good(f.(profiles := profiles))
  {
    assert f.profiles + profiles == profiles;
  }

  lemma WithProfiles(was: Fields, f: Fields, seen: set<Key>)
    requires Profiles !in seen
    ensures Partial(was, f, seen).profiles == []
    ensures Partial(was, f, seen + {Profiles}) == Partial(was, f, seen).(profiles := f.profiles)
  {
  }

  lemma AuthKeysAbsorbed(f: Fields, items: seq<Item>, keys: seq<AuthKey>)
    requires f.authKeys == [] && ParseAll(items, ParseAuthKey) == Good(keys)
    ensures AbsorbField(f, AuthKeys, Array(items)) == Good(f.(authKeys := keys))
  {
    assert f.authKeys + keys == keys;
  }

  lemma WithAuthKeys(was: Fields, f: Fields, seen: set<Key>)
    requires AuthKeys !in seen
    ensures Partial(was, f, seen).authKeys == []
    ensures Partial(was, f, seen + {AuthKeys}) == Partial(was, f, seen).(authKeys := f.authKeys)
  {
  }

  lemma ProfilesRoundTrip(was: Fields, f: Fields, names: seq<string>, seen: set<Key>)
    requires Visits(names, f.entries) && Profiles !in seen
    ensures AbsorbField(Partial(was, f, seen), Profiles, FieldItem(f, names, Profiles)) == Good(Partial(was, f, seen + {Profiles}))
  {
    ListFieldsRoundTrip(f, names);
    WithProfiles(was, f, seen);
    ProfilesAbsorbed(Partial(was, f, seen), Each(f.profiles, ProfileItem), f.profiles);
  }

  lemma AuthKeysRoundTrip(was: Fields, f: Fields, names: seq<string>, seen: set<Key>)
    requires Visits(names, f.entries) && AuthKeys !in seen
    ensures AbsorbField(Partial(was, f, seen), AuthKeys, FieldItem(f, names, AuthKeys)) == Good(Partial(was, f, seen + {AuthKeys}))
  {
    ListFieldsRoundTrip(f, names);
    WithAuthKeys(was, f, seen);
    AuthKeysAbsorbed(Partial(was, f, seen), Each(f.authKeys, AuthKeyItem), f.authKeys);
  }

  lemma EntriesAbsorbed(f: Fields, pairs: seq<(Item, Item)>, entries: map<string, EntryData>)
    requires f.entries == map[] && ParseEntries(pairs) == Good(entries)
    ensures AbsorbField(f, Entries, Map(pairs)) == Good(f.(entries := entries))
  {
    assert f.entries + entries == entries;
  }

  lemma WithEntries(was: Fields, f: Fields, seen: set<Key>)
    requires Entries !in seen
    ensures Partial(was, f, seen).entries == map[]
    ensures Partial(was, f, seen + {Entries}) == Partial(was, f, seen).(entries := f.entries)
  {
  }

  lemma EntryMapRoundTrip(was: Fields, f: Fields, names: seq<string>, seen: set<Key>)
    requires Visits(names, f.entries) && Entries !in seen
    ensures AbsorbField(Partial(was, f, seen), Entries, FieldItem(f, names, Entries)) == Good(Partial(was, f, seen + {Entries}))
  {
    ListFieldsRoundTrip(f, names);
    WithEntries(was, f, seen);
    EntriesAbsorbed(Partial(was, f, seen), EntryPairs(names, f.entries), f.entries);
  }

  lemma FieldRoundTrip(was: Fields, f: Fields, names: seq<string>, seen: set<Key>, key: Key)
    requires Visits(names, f.entries) && key !in seen
    ensures AbsorbField(Partial(was, f, seen), key, FieldItem(f, names, key)) == Good(Partial(was, f, seen + {key}))
  {
    match key
    case Profiles => ProfilesRoundTrip(was, f, names, seen);
    case AuthKeys => AuthKeysRoundTrip(was, f, names, seen);
    case Entries => EntryMapRoundTrip(was, f, names, seen);
    case KeyCount => NarrowStays(f.keyCount);
    case MaxUses => NarrowStays(f.maxUsesPerKey);
    case _ =>
  }

  function Set(keys: seq<Key>): set<Key> {
    set k | k in keys
  }

  lemma SavedFieldLoads(was: Fields, f: Fields, names: seq<string>, front: seq<Key>, last: Key)
    requires Visits(names, f.entries) && last !in front
    ensures Absorb(Partial(was, f, Set(front)), Tstr(Text(last)), FieldItem(f, names, last)) == Good(Partial(was, f, Set(front + [last])))
  {
    FieldRoundTrip(was, f, names, Set(front), last);
    KeysRoundTrip(last);
    assert Set(front + [last]) == Set(front) + {last};
  }

  lemma {:induction false} SavedFieldsLoad(was: Fields, f: Fields, names: seq<string>, keys: seq<Key>)
    requires Visits(names, f.entries)
    requires forall i, j :: 0 <= i < j < |keys| ==> keys[i] != keys[j]
    ensures AbsorbAll(Cleared(was), Saved(f, names, keys)) == Good(Partial(was, f, Set(keys)))
  {
    if keys == [] {
      assert Set(keys) == {};
    } else {
      var front, last := keys[..|keys| - 1], keys[|keys| - 1];
      SavedFieldsLoad(was, f, names, front);
      assert Saved(f, names, keys)[..|keys| - 1] == Saved(f, names, front);
      SavedFieldLoads(was, f, names, front, last);
      assert keys == front + [last];
    }
  }

  /**
   * Loading a saved credential restores every field, whatever order the top-level map and the
   * entries come in and whatever was in memory before; an incomplete one is refused.
   */
  lemma CredentialRoundTrip(was: Fields, f: Fields, names: seq<string>, keys: seq<Key>)
    requires Visits(names, f.entries)
    requires forall k: Key :: k in keys
    requires forall i, j :: 0 <= i < j < |keys| ==> keys[i] != keys[j]
    ensures Loaded(was, Map(Saved(f, names, keys))) ==
      if f.credentialData != [] && f.attestationCertificate != [] && ToUint64(f.keyCount) == |f.authKeys| then Good(f) else Bad
  {
    SavedFieldsLoad(was, f, names, keys);
    assert forall k: Key :: k in Set(keys);
    assert Partial(was, f, Set(keys)) == f;
  }

  // ---------- When loading dereferences null ----------

  /** The element at an index is the first that is not good, and it dereferences null. */
  ghost predicate NullAt<T>(items: seq<Item>, parse: Item -> Parsed<T>, q: int) {
    && 0 <= q < |items| && parse(items[q]).NullPointer?
    && forall i :: 0 <= i < q ==> parse(items[i]).Good?
  }

  lemma {:induction false} FirstDefectDecides<T>(items: seq<Item>, parse: Item -> Parsed<T>)
    ensures ParseAll(items, parse).Good? <==> forall i :: 0 <= i < |items| ==> parse(items[i]).Good?
    ensures ParseAll(items, parse).NullPointer? <==> exists q :: NullAt(items, parse, q)
  {
    if items != [] {
      var front, n := items[..|items| - 1], |items| - 1;
      FirstDefectDecides(front, parse);
      assert forall i :: 0 <= i < n ==> front[i] == items[i];
      forall q | NullAt(front, parse, q) ensures NullAt(items, parse, q) {
        assert front[q] == items[q];
      }
      forall q | NullAt(items, parse, q) && q < n ensures NullAt(front, parse, q) {
        assert front[q] == items[q];
      }
      if ParseAll(front, parse).Good? && parse(items[n]).NullPointer? {
        assert NullAt(items, parse, n);
      }
    }
  }

  lemma {:induction false} SoundEntries(pairs: seq<(Item, Item)>)
    ensures !ParseEntries(pairs).NullPointer?
    ensures ParseEntries(pairs).Good? <==> forall i :: 0 <= i < |pairs| ==> pairs[i].0.Tstr? && ParseEntry(pairs[i].1).Good?
  {
    if pairs != [] {
      var front, last := pairs[..|pairs| - 1], pairs[|pairs| - 1];
      SoundEntries(front);
      assert forall i :: 0 <= i < |front| ==> front[i] == pairs[i];
      if last.1.Array? && |last.1.items| >= 3 && last.1.items[2].Array? {
        FirstDefectDecides(last.1.items[2].items, ParseChunk);
      }
    }
  }

  /** A record whose first six fields are right and whose seventh, the expiration date, is not a number. */
  predicate BadExpiration(item: Item) {
    item.Array? && |item.items| >= 7 &&
    var a := item.items;
    a[0].Bstr? && a[1].Bstr? && a[2].Bstr? && a[3].Bstr? && a[4].Bstr? && a[5].Int? && !a[6].Int?
  }

  /** A value of the top-level map that can be read. */
  predicate SoundField(key: Key, value: Item) {
    match key
    case Profiles => value.Array? && forall i :: 0 <= i < |value.items| ==> ParseProfile(value.items[i]).Good?
    case AuthKeys => value.Array? && forall i :: 0 <= i < |value.items| ==> ParseAuthKey(value.items[i]).Good?
    case Entries => value.Map? && forall i :: 0 <= i < |value.pairs| ==> value.pairs[i].0.Tstr? && ParseEntry(value.pairs[i].1).Good?
    case CredentialBlob => value.Bstr?
    case Attestation => value.Bstr?
    case _ => value.Int?
  }

  predicate SoundPair(key: Item, value: Item) {
    key.Tstr? && (KeyOf(key.text).Some? ==> SoundField(KeyOf(key.text).value, value))
  }

  /** The list of authentication keys, in which a record with a bad expiration date is the first defect. */
  ghost predicate NullPair(key: Item, value: Item) {
    && key == Tstr("authKeyData") && value.Array?
    && exists q :: 0 <= q < |value.items| && BadExpiration(value.items[q]) && forall i :: 0 <= i < q ==> ParseAuthKey(value.items[i]).Good?
  }

  lemma AuthKeysOutcome(items: seq<Item>)
    ensures ParseAll(items, ParseAuthKey).Good? <==> forall i :: 0 <= i < |items| ==> ParseAuthKey(items[i]).Good?
    ensures ParseAll(items, ParseAuthKey).NullPointer? <==>
      exists q :: 0 <= q < |items| && BadExpiration(items[q]) && forall i :: 0 <= i < q ==> ParseAuthKey(items[i]).Good?
  {
    FirstDefectDecides(items, ParseAuthKey);
    forall q | 0 <= q < |items| ensures ParseAuthKey(items[q]).NullPointer? <==> BadExpiration(items[q]) {
    }
    if q :| 0 <= q < |items| && BadExpiration(items[q]) && forall i :: 0 <= i < q ==> ParseAuthKey(items[i]).Good? {
      assert NullAt(items, ParseAuthKey, q);
    }
  }

  lemma FieldOutcome(f: Fields, key: Key, value: Item)
    ensures AbsorbField(f, key, value).Good? <==> SoundField(key, value)
    ensures AbsorbField(f, key, value).NullPointer? <==> key == AuthKeys && NullPair(Tstr("authKeyData"), value)
  {
    match key
    case Profiles => if value.Array? { FirstDefectDecides(value.items, ParseProfile); }
    case AuthKeys => if value.Array? { AuthKeysOutcome(value.items); }
    case Entries => if value.Map? { SoundEntries(value.pairs); }
    case _ =>
  }

  lemma PairOutcome(f: Fields, key: Item, value: Item)
    ensures Absorb(f, key, value).Good? <==> SoundPair(key, value)
    ensures Absorb(f, key, value).NullPointer? <==> NullPair(key, value)
  {
    KeysRoundTrip(AuthKeys);
    if key.Tstr? && KeyOf(key.text).Some? {
      FieldOutcome(f, KeyOf(key.text).value, value);
    }
  }

  /** The pair at an index is the first that cannot be read, and reading it dereferences null. */
  ghost predicate NullPairAt(pairs: seq<(Item, Item)>, p: int) {
    && 0 <= p < |pairs| && NullPair(pairs[p].0, pairs[p].1)
    && forall i :: 0 <= i < p ==> SoundPair(pairs[i].0, pairs[i].1)
  }

  ghost predicate AllSound(pairs: seq<(Item, Item)>) {
    forall i :: 0 <= i < |pairs| ==> SoundPair(pairs[i].0, pairs[i].1)
  }

  ghost predicate HasNullPair(pairs: seq<(Item, Item)>) {
    exists p :: NullPairAt(pairs, p)
  }

  /** After sound pairs the next one decides; a defect before it has decided already. */
  lemma NextPairDecides(front: seq<(Item, Item)>, last: (Item, Item))
    ensures AllSound(front + [last]) <==> AllSound(front) && SoundPair(last.0, last.1)
    ensures HasNullPair(front + [last]) <==> HasNullPair(front) || (AllSound(front) && NullPair(last.0, last.1))
  {
    var pairs := front + [last];
    assert forall i :: 0 <= i < |front| ==> pairs[i] == front[i];
    assert pairs[|front|] == last;
    if p :| NullPairAt(front, p) {
      assert NullPairAt(pairs, p);
    }
    if p :| NullPairAt(pairs, p) {
      if p < |front| {
        assert NullPairAt(front, p);
      }
    }
    if AllSound(front) && NullPair(last.0, last.1) {
      assert NullPairAt(pairs, |front|);
    }
  }

  lemma {:induction false} PairsOutcome(f: Fields, pairs: seq<(Item, Item)>)
    ensures AbsorbAll(f, pairs).Good? <==> AllSound(pairs)
    ensures AbsorbAll(f, pairs).NullPointer? <==> HasNullPair(pairs)
  {
    if pairs != [] {
      var front, last := pairs[..|pairs| - 1], pairs[|pairs| - 1];
      PairsOutcome(f, front);
      assert pairs == front + [last];
      NextPairDecides(front, last);
      if AbsorbAll(f, front).Good? {
        PairOutcome(AbsorbAll(f, front).value, last.0, last.1);
        NoNullPair(front);
      }
    }
  }

  lemma NoNullPair(pairs: seq<(Item, Item)>)
    requires AllSound(pairs)
    ensures !HasNullPair(pairs)
  {
    forall p | 0 <= p < |pairs| ensures !NullPair(pairs[p].0, pairs[p].1) {
      SoundIsNotNull(pairs[p].0, pairs[p].1);
    }
  }

  lemma SoundIsNotNull(key: Item, value: Item)
    requires SoundPair(key, value)
    ensures !NullPair(key, value)
  {
    KeysRoundTrip(AuthKeys);
  }

  /**
   * Loading dereferences null exactly if the first defect of the file, in the order of its top-level
   * map, is a record of an authentication key whose expiration date is not a number.
   */
  lemma NullExactly(f: Fields, item: Item)
    ensures Loaded(f, item).NullPointer? <==> item.Map? && HasNullPair(item.pairs)
  {
    if item.Map? {
      PairsOutcome(Cleared(f), item.pairs);
    }
  }

  /** Such a file. */
  lemma NullWitness(f: Fields)
    ensures var record := Array([Bstr([]), Bstr([]), Bstr([]), Bstr([]), Bstr([]), Int(0), Bstr([])]);
      Loaded(f, Map([(Tstr("authKeyData"), Array([record]))])).NullPointer?
  {
    var record := Array([Bstr([]), Bstr([]), Bstr([]), Bstr([]), Bstr([]), Int(0), Bstr([])]);
    var pairs := [(Tstr("authKeyData"), Array([record]))];
    assert BadExpiration([record][0]);
    assert NullPairAt(pairs, 0);
    NullExactly(f, Map(pairs));
  }

  // ---------- Names of entries ----------

  /** The key of the map of entries. */
  function EntryId(namespaceName: string, entryName: string): string {
    namespaceName + ":" + entryName
  }

  /**
   * Two namespaces have an entry id in common exactly if they are the same or one of them goes on,
   * after the other one's name, with a colon. Then entries of one replace entries of the other.
   */
  lemma SharedEntryIds(n: string, m: string)
    ensures (exists a, b :: EntryId(n, a) == EntryId(m, b)) <==> n == m || n + ":" <= m || m + ":" <= n
  {
    if n == m {
      assert EntryId(n, "") == EntryId(m, "");
    } else if n + ":" <= m {
      var rest := m[|n| + 1..];
      assert m == n + ":" + rest;
      assert EntryId(n, rest + ":") == EntryId(m, "");
    } else if m + ":" <= n {
      var rest := n[|m| + 1..];
      assert n == m + ":" + rest;
      assert EntryId(n, "") == EntryId(m, rest + ":");
    } else {
      forall a, b ensures EntryId(n, a) != EntryId(m, b) {
        if EntryId(n, a) == EntryId(m, b) {
          DifferentEntryIds(n, a, m, b);
        }
      }
    }
  }

  lemma DifferentEntryIds(n: string, a: string, m: string, b: string)
    requires EntryId(n, a) == EntryId(m, b)
    ensures n == m || n + ":" <= m || m + ":" <= n
  {
    var id := EntryId(n, a);
    assert id[..|n|] == n && id[|n|] == ':' && id[..|m|] == m && id[|m|] == ':';
    if |n| < |m| {
      assert m[..|n|] == n && m[|n|] == ':';
    } else if |m| < |n| {
      assert n[..|m|] == m && n[|m|] == ':';
    }
  }
}
