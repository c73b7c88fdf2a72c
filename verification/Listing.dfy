/** Listing the keys of a namespace page by page, and counting them. */
module Listing {
  import opened Tables
  import opened Transactions
  import opened References
  import opened Ordering

  /** LIMIT of the listing query. */
  const PAGE_LIMIT: nat := 10000

  predicate Listed(row: KeyRow, domain: Domain, nspace: int, keyType: KeyType) {
    row.domain == Some(domain) && row.nspace == Some(nspace) && row.alias.Some? && row.state == Live && row.keyType == keyType
  }

  function ListedKeys(db: Db, domain: Domain, nspace: int, keyType: KeyType): set<int> {
    set k | k in db.keys && Listed(db.keys[k], domain, nspace, keyType)
  }

  /** SELECT DISTINCT alias. */
  function Aliases(db: Db, domain: Domain, nspace: int, keyType: KeyType): set<Alias> {
    set k | k in ListedKeys(db, domain, nspace, keyType) :: db.keys[k].alias.value
  }

  /** SELECT COUNT(alias). */
  function CountKeys(db: Db, domain: Domain, nspace: int, keyType: KeyType): nat {
    |ListedKeys(db, domain, nspace, keyType)|
  }

  function After(s: set<Alias>, past: Option<Alias>): set<Alias> {
    match past
    case None => s
    case Some(p) => set x | x in s && Less(p, x)
  }

  ghost function Take(s: seq<Alias>, limit: nat): (r: seq<Alias>)
    ensures |r| <= |s| && r == s[..|r|] && (|r| == |s| || |r| == limit)
  {
    if |s| <= limit then s[..|s|] else s[..limit]
  }

  ghost function Page(s: set<Alias>, past: Option<Alias>, limit: nat): seq<Alias> {
    Take(Sorted(After(s, past)), limit)
  }

  /** Past the last of the first `n` aliases there is what those leave out, and that is less. */
  lemma PastTheCut(s: set<Alias>, past: Option<Alias>, all: seq<Alias>, n: nat)
    requires Increasing(all) && Elements(all) == After(s, past) && 0 < n <= |all|
    ensures After(s, Some(all[n - 1])) == After(s, past) - Elements(all[..n])
    ensures |After(s, Some(all[n - 1]))| < |After(s, past)|
    ensures all[n..] == Sorted(After(s, Some(all[n - 1])))
  {
    var here, last := After(s, past), all[n - 1];
    SortedSplits(all, n);
    assert last in Elements(all);
    forall x | x in s && Less(last, x) ensures x in here {
      if past.Some? { Transitive(past.value, last, x); }
    }
    assert After(s, Some(last)) == here - Elements(all[..n]);
    assert all[..n][n - 1] == last;
    assert last in Elements(all[..n]);
    SmallerSet(After(s, Some(last)), here);
  }

  lemma Halves(all: seq<Alias>, n: nat)
    requires n <= |all|
    ensures all == all[..n] + all[n..]
  {
  }

  lemma CutPage(s: set<Alias>, past: Option<Alias>, all: seq<Alias>, p: seq<Alias>)
    requires Increasing(all) && Elements(all) == After(s, past) && p != [] && p <= all
    ensures |After(s, Some(p[|p| - 1]))| < |After(s, past)|
    ensures all == p + Sorted(After(s, Some(p[|p| - 1])))
  {
    assert p == all[..|p|] && p[|p| - 1] == all[|p| - 1];
    PastTheCut(s, past, all, |p|);
    Halves(all, |p|);
  }

  lemma NextPage(s: set<Alias>, past: Option<Alias>, limit: nat)
    requires Page(s, past, limit) != []
    ensures var p := Page(s, past, limit);
      && |After(s, Some(p[|p| - 1]))| < |After(s, past)|
      && Sorted(After(s, past)) == p + Sorted(After(s, Some(p[|p| - 1])))
  {
    CutPage(s, past, Sorted(After(s, past)), Page(s, past, limit));
  }

  lemma SmallerSet(a: set<Alias>, b: set<Alias>)
    requires a < b
    ensures |a| < |b|
  {
    var rest := b - a;
    assert b == a + rest && a !! rest;
    Ordering.Inhabited(rest);
    var x :| x in rest;
    assert |rest| == |rest - {x}| + 1;
  }

  /** All pages, each fetched past the last alias of the one before, until one comes back empty. */
  ghost function AllPages(s: set<Alias>, past: Option<Alias>, limit: nat): seq<Alias>
    decreases |After(s, past)|
  {
    var p := Page(s, past, limit);
    if p == [] then [] else
      NextPage(s, past, limit);
      p + AllPages(s, Some(p[|p| - 1]), limit)
  }

  lemma {:induction false} PagingIsComplete(s: set<Alias>, past: Option<Alias>, limit: nat)
    requires limit > 0
    ensures AllPages(s, past, limit) == Sorted(After(s, past))
    decreases |After(s, past)|
  {
    var p := Page(s, past, limit);
    if p != [] {
      NextPage(s, past, limit);
      PagingIsComplete(s, Some(p[|p| - 1]), limit);
    }
  }

  // ---------- Counting ----------

  lemma {:induction false} CountOfDistinct(db: Db, ids: set<int>, aliases: set<Alias>)
    requires forall k :: k in ids ==> k in db.keys && db.keys[k].alias.Some?
    requires aliases == set k | k in ids :: db.keys[k].alias.value
    requires forall k, j :: k in ids && j in ids && db.keys[k].alias == db.keys[j].alias ==> k == j
    ensures |aliases| == |ids|
    decreases |ids|
  {
    Tables.Inhabited(ids);
    if ids != {} {
      var k :| k in ids;
      var a := db.keys[k].alias.value;
      var rest := set j | j in ids - {k} :: db.keys[j].alias.value;
      forall x | x in aliases && x != a ensures x in rest {
        var j :| j in ids && db.keys[j].alias.value == x;
        assert j in ids - {k};
      }
      forall x | x in rest ensures x in aliases && x != a {
        var j :| j in ids - {k} && db.keys[j].alias.value == x;
        assert j in ids && k in ids;
      }
      assert a in aliases;
      assert rest == aliases - {a};
      CountOfDistinct(db, ids - {k}, rest);
    } else {
      assert aliases == {};
    }
  }

  lemma CountIsNumberOfAliases(db: Db, domain: Domain, nspace: int)
    requires KeyInv(db)
    ensures |Aliases(db, domain, nspace, Client)| == CountKeys(db, domain, nspace, Client)
  {
    var ids := ListedKeys(db, domain, nspace, Client);
    forall k, j | k in ids && j in ids && db.keys[k].alias == db.keys[j].alias ensures k == j {
      assert Clash(db.keys[k], db.keys[j]);
    }
    CountOfDistinct(db, ids, Aliases(db, domain, nspace, Client));
  }

  ghost predicate HasLiveKey(db: Db, domain: Domain, nspace: int, alias: Alias) {
    exists k :: k in db.keys && LiveClient(db.keys[k]) && AtLocation(db.keys[k], domain, nspace, alias)
  }

  lemma AliasesAreLive(db: Db, domain: Domain, nspace: int, alias: Alias)
    ensures alias in Aliases(db, domain, nspace, Client) <==> HasLiveKey(db, domain, nspace, alias)
  {
    if k :| k in db.keys && LiveClient(db.keys[k]) && AtLocation(db.keys[k], domain, nspace, alias) {
      assert k in ListedKeys(db, domain, nspace, Client);
    }
  }

  /**
   * For client keys, in every state that satisfies the invariant: the pages together are the live
   * aliases, each once, in increasing order, and they are as many as count_keys says.
   */
  lemma ListingIsComplete(db: Db, domain: Domain, nspace: int)
    requires KeyInv(db)
    ensures var listed := AllPages(Aliases(db, domain, nspace, Client), None, PAGE_LIMIT);
      && Increasing(listed)
      && (forall a :: a in Elements(listed) <==> HasLiveKey(db, domain, nspace, a))
      && |listed| == CountKeys(db, domain, nspace, Client)
  {
    PagingIsComplete(Aliases(db, domain, nspace, Client), None, PAGE_LIMIT);
    CountIsNumberOfAliases(db, domain, nspace);
    forall a ensures a in Aliases(db, domain, nspace, Client) <==> HasLiveKey(db, domain, nspace, a) {
      AliasesAreLive(db, domain, nspace, a);
    }
  }

  /** Super keys are not covered: storing one twice is counted twice and listed once. */
  lemma SuperKeysRepeat(db: Db, id: int, other: int, user: int, alias: Alias, blob: Bytes, meta: Meta, uuid: Bytes)
    requires db == EMPTY_DB && id != other && id != UNASSIGNED_KEY_ID && other != UNASSIGNED_KEY_ID
    ensures var one := Exec(db, StoreSuperKey(id, user, alias, blob, meta, map[], uuid)).db;
      var two := Exec(one, StoreSuperKey(other, user, alias, blob, meta, map[], uuid)).db;
      && CountKeys(two, App, user, Super) == 2
      && Aliases(two, App, user, Super) == {alias}
  {
    var one := Exec(db, StoreSuperKey(id, user, alias, blob, meta, map[], uuid)).db;
    var two := Exec(one, StoreSuperKey(other, user, alias, blob, meta, map[], uuid)).db;
    assert ListedKeys(two, App, user, Super) == {id, other};
    assert id in ListedKeys(two, App, user, Super);
  }
}
