/**
 * Whole runs of the garbage collector: left alone it finishes with nothing to collect, and what
 * runs of clients and collector together mean for keys and grants.
 */
module GcRuns {
  import opened Tables
  import opened Transactions
  import opened BlobStates
  import opened References
  import opened GarbageCollection

  function KeyBlobIds(db: Db): set<int> {
    set i | i in db.blobs && db.blobs[i].sc == KeyBlob
  }

  /** Key blobs that the collector has not yet put on its deletion list. */
  function Pending(s: Sys): set<int> {
    KeyBlobIds(s.db) - IdSet(s.deleted)
  }

  /** process_one_key: a transaction if the list ran out, then at most one blob is taken off it. */
  ghost predicate Processes(s: Sys, useStateColumn: bool, picked: seq<int>, mid: Sys, t: Sys) {
    && (if s.superseded == [] then Fetches(s, useStateColumn, picked, mid) else mid == s)
    && (if mid.superseded == [] then t == mid else Pops(mid, mid.superseded[|mid.superseded| - 1].id, t))
  }

  /** The selected query finds nothing, and no certificate is left that the final DELETE would take. */
  ghost predicate Drained(db: Db, useStateColumn: bool) {
    && OutOfDateKeyBlobs(db, useStateColumn) == {}
    && (forall i :: !Purgeable(db, useStateColumn, i))
    && KeysInState(db.keys, Unreferenced) == {}
  }

  /**
   * What that comes to for the query by id: each row that is left is the latest of its component, of
   * a key that exists and is not about to go; for the query by state: each is marked current.
   */
  lemma DrainedIsClean(db: Db, useStateColumn: bool)
    requires Drained(db, useStateColumn)
    ensures forall k :: k in db.keys ==> db.keys[k].state != Unreferenced
    ensures !useStateColumn ==> forall i :: i in db.blobs ==>
      && db.blobs[i].keyId in db.keys
      && forall j :: j in db.blobs && db.blobs[j].keyId == db.blobs[i].keyId && db.blobs[j].sc == db.blobs[i].sc ==> j <= i
    ensures useStateColumn ==> forall i :: i in db.blobs ==> db.blobs[i].state == Current
  {
    forall i | i in db.blobs ensures !OutOfDate(db, useStateColumn, i) {
      assert i !in OutOfDateKeyBlobs(db, useStateColumn) && !Purgeable(db, useStateColumn, i);
    }
    forall k | k in db.keys ensures db.keys[k].state != Unreferenced {
      assert k !in KeysInState(db.keys, Unreferenced);
    }
    forall i, j | !useStateColumn && i in db.blobs && j in db.blobs && db.blobs[j].keyId == db.blobs[i].keyId && db.blobs[j].sc == db.blobs[i].sc
      ensures j <= i
    {
      assert IsLatest(db.blobs, i) && SameComponent(db.blobs[j], db.blobs[i]);
    }
  }

  lemma PurgeLeavesNone(db: Db, useStateColumn: bool)
    requires OutOfDateKeyBlobs(db, useStateColumn) == {} && KeysInState(db.keys, Unreferenced) == {}
    ensures Drained(PurgeCertificates(db, useStateColumn), useStateColumn)
  {
    var p := PurgeCertificates(db, useStateColumn);
    forall i | i in p.blobs ensures !OutOfDate(p, useStateColumn, i) {
      assert p.blobs[i] == db.blobs[i];
      assert i !in OutOfDateKeyBlobs(db, useStateColumn);
    }
  }

  lemma FetchPending(s: Sys, useStateColumn: bool, picked: seq<int>, t: Sys)
    requires Fetches(s, useStateColumn, picked, t)
    ensures Pending(t) == Pending(s)
    ensures t.superseded == [] ==> Drained(t.db, useStateColumn)
  {
    assert forall i :: i in KeyBlobIds(t.db) <==> i in KeyBlobIds(s.db) && i !in s.deleted;
    if t.superseded == [] {
      assert picked == [];
      var swept := Swept(s.db, s.deleted);
      assert OutOfDateKeyBlobs(swept, useStateColumn) == {};
      assert KeysInState(swept.keys, Unreferenced) == {};
      PurgeLeavesNone(swept, useStateColumn);
    }
  }

  lemma PopPending(s: Sys, id: int, t: Sys)
    requires GcInv(s) && Pops(s, id, t)
    ensures id in Pending(s) && Pending(t) == Pending(s) - {id}
  {
    NextIsNotDeleted(s, id);
    assert Cached(s)[|Cached(s)| - 1] == id;
    assert id in Cached(s);
    assert IdSet(t.deleted) == IdSet(s.deleted) + {id};
  }

  /**
   * One step of the collector either leaves fewer key blobs to put on the deletion list, and then
   * another step is scheduled, or it leaves the database drained, and then none is.
   */
  lemma StepMakesProgress(s: Sys, useStateColumn: bool, picked: seq<int>, mid: Sys, t: Sys)
    requires SysInv(s) && Processes(s, useStateColumn, picked, mid, t)
    ensures SysInv(mid) && SysInv(t) && Pending(mid) == Pending(s) && Pending(t) <= Pending(s)
    ensures t.deleted != [] ==> |Pending(t)| < |Pending(s)|
    ensures t.deleted == [] ==> t.superseded == [] && Drained(t.db, useStateColumn)
  {
    if s.superseded == [] {
      FetchKeepsSysInv(s, useStateColumn, picked, mid);
      FetchPending(s, useStateColumn, picked, mid);
    }
    if mid.superseded != [] {
      var id := mid.superseded[|mid.superseded| - 1].id;
      PopKeepsSysInv(mid, id, t);
      PopPending(mid, id, t);
      assert |Pending(t)| == |Pending(mid)| - 1;
    }
  }

  // ---------- Draining ----------

  /** Consecutive steps with no client in between; every one but the last scheduled the next. */
  ghost predicate DrainRun(states: seq<Sys>, useStateColumn: bool, picks: seq<seq<int>>, mids: seq<Sys>) {
    && |states| == |mids| + 1 && |picks| == |mids| && SysInv(states[0])
    && (forall i :: 0 <= i < |mids| ==> Processes(states[i], useStateColumn, picks[i], mids[i], states[i + 1]))
    && (forall i :: 0 < i < |mids| ==> states[i].deleted != [])
  }

  lemma {:induction false} DrainPrefix(states: seq<Sys>, useStateColumn: bool, picks: seq<seq<int>>, mids: seq<Sys>, n: nat)
    requires DrainRun(states, useStateColumn, picks, mids) && n < |states|
    ensures SysInv(states[n])
    ensures n < |mids| ==> |Pending(states[n])| + n <= |Pending(states[0])|
    ensures forall k :: k in states[0].db.keys && states[0].db.keys[k].state != Unreferenced ==>
      k in states[n].db.keys && states[n].db.keys[k] == states[0].db.keys[k]
      && LoadKeyComponents(states[n].db, k) == LoadKeyComponents(states[0].db, k)
  {
    if n > 0 {
      DrainPrefix(states, useStateColumn, picks, mids, n - 1);
      var s, mid, t := states[n - 1], mids[n - 1], states[n];
      StepMakesProgress(s, useStateColumn, picks[n - 1], mid, t);
      forall k | k in s.db.keys && s.db.keys[k].state != Unreferenced
        ensures k in t.db.keys && t.db.keys[k] == s.db.keys[k] && LoadKeyComponents(t.db, k) == LoadKeyComponents(s.db, k)
      {
        if s.superseded == [] {
          CollectorIsInvisible(s, GcFetch(useStateColumn, picks[n - 1]), mid, k);
        }
      }
    }
  }

  /**
   * Left alone, the collector stops after at most one step more than there were key blobs, and
   * stops drained, with every key in use loading as before.
   */
  lemma CollectorDrains(states: seq<Sys>, useStateColumn: bool, picks: seq<seq<int>>, mids: seq<Sys>)
    requires DrainRun(states, useStateColumn, picks, mids) && mids != []
    ensures |mids| <= |Pending(states[0])| + 1
    ensures var last := states[|mids|];
      last.deleted == [] ==>
        Drained(last.db, useStateColumn)
        && (useStateColumn ==> OutOfDateKeyBlobs(last.db, false) == CurrentWithoutKey(last.db))
    ensures forall k :: k in states[0].db.keys && states[0].db.keys[k].state != Unreferenced ==>
      LoadKeyComponents(states[|mids|].db, k) == LoadKeyComponents(states[0].db, k)
  {
    var n := |mids| - 1;
    DrainPrefix(states, useStateColumn, picks, mids, n);
    DrainPrefix(states, useStateColumn, picks, mids, n + 1);
    StepMakesProgress(states[n], useStateColumn, picks[n], mids[n], states[n + 1]);
    StateTestWithinIdTest(states[n + 1].db);
  }

  lemma {:induction false} PendingShrinks(states: seq<Sys>, useStateColumn: bool, picks: seq<seq<int>>, mids: seq<Sys>, i: nat, j: nat)
    requires DrainRun(states, useStateColumn, picks, mids) && i <= j < |states|
    ensures Pending(states[j]) <= Pending(states[i])
    decreases j
  {
    if i < j {
      PendingShrinks(states, useStateColumn, picks, mids, i, j - 1);
      DrainPrefix(states, useStateColumn, picks, mids, j - 1);
      StepMakesProgress(states[j - 1], useStateColumn, picks[j - 1], mids[j - 1], states[j]);
    }
  }

  /** While the collector drains, no row id is handed over for invalidation twice. */
  lemma DrainHandsOverOnce(states: seq<Sys>, useStateColumn: bool, picks: seq<seq<int>>, mids: seq<Sys>, i: nat, j: nat)
    requires DrainRun(states, useStateColumn, picks, mids) && i < j < |mids|
    requires mids[i].superseded != [] && mids[j].superseded != []
    ensures mids[i].superseded[|mids[i].superseded| - 1].id != mids[j].superseded[|mids[j].superseded| - 1].id
  {
    DrainPrefix(states, useStateColumn, picks, mids, i);
    DrainPrefix(states, useStateColumn, picks, mids, j);
    StepMakesProgress(states[i], useStateColumn, picks[i], mids[i], states[i + 1]);
    StepMakesProgress(states[j], useStateColumn, picks[j], mids[j], states[j + 1]);
    PopPending(mids[i], mids[i].superseded[|mids[i].superseded| - 1].id, states[i + 1]);
    PopPending(mids[j], mids[j].superseded[|mids[j].superseded| - 1].id, states[j + 1]);
    PendingShrinks(states, useStateColumn, picks, mids, i + 1, j);
  }

  // ---------- Keys and grants over whole runs ----------

  /** The tables along a run, each related to the next by the key rules. */
  ghost predicate Obeys(dbs: seq<Db>) {
    forall n :: 0 <= n && n + 1 < |dbs| ==> KeyRules(dbs[n], dbs[n + 1])
  }

  function TablesAlong(states: seq<Sys>): (dbs: seq<Db>)
    ensures |dbs| == |states| && forall n :: 0 <= n < |states| ==> dbs[n] == states[n].db
  {
    seq(|states|, n requires 0 <= n < |states| => states[n].db)
  }

  /** Every run obeys the key rules at every step. */
  lemma RunObeys(states: seq<Sys>, steps: seq<Step>)
    requires Run(states, steps)
    ensures Obeys(TablesAlong(states))
  {
    forall n | 0 <= n && n + 1 < |states| ensures KeyRules(TablesAlong(states)[n], TablesAlong(states)[n + 1]) {
      CollectorIsSafe(states, steps, n);
      StepKeepsKeyRules(states[n], steps[n], states[n + 1]);
    }
  }

  /** As long as an entry stays in the table, its state only moves towards Unreferenced. */
  lemma {:induction false} LifeCycleOverRun(dbs: seq<Db>, i: nat, j: nat, k: int)
    requires Obeys(dbs) && i <= j < |dbs| && forall n :: i <= n <= j ==> k in dbs[n].keys
    ensures var a := dbs[i].keys[k]; var b := dbs[j].keys[k];
      b.keyType == a.keyType && b.kmUuid == a.kmUuid && (b.state == a.state || b.state == Unreferenced)
    decreases j
  {
    if i < j {
      LifeCycleOverRun(dbs, i, j - 1, k);
      assert KeyRules(dbs[j - 1], dbs[j - 1 + 1]);
    }
  }

  lemma {:induction false} GrantOverRun(dbs: seq<Db>, i: nat, j: nat, g: int)
    requires Obeys(dbs) && i <= j < |dbs| && forall n :: i <= n <= j ==> g in dbs[n].grants
    ensures SameGrant(dbs[i].grants[g], dbs[j].grants[g])
    decreases j
  {
    if i < j {
      GrantOverRun(dbs, i, j - 1, g);
      assert KeyRules(dbs[j - 1], dbs[j - 1 + 1]);
    }
  }

  lemma GrantIssued(db: Db, tx: Tx)
    requires tx.AddGrant? && Exec(db, tx).result.Ok?
    ensures var g := Exec(db, tx).result.value;
      g in Exec(db, tx).db.grants && Exec(db, tx).db.grants[g].grantee == tx.grantee
      && LoadAccessTuple(db, tx.key, Client, tx.caller).Ok?
      && Exec(db, tx).db.grants[g].keyId == LoadAccessTuple(db, tx.key, Client, tx.caller).value.keyId
  {
  }

  /**
   * A grant issued at some point of a run and not removed since resolves later only for the
   * grantee it was issued to, only to the key it was issued for, and only while that key is live.
   */
  lemma GrantResolvesAsIssued(states: seq<Sys>, steps: seq<Step>, i: nat, j: nat, tx: Tx, g: int, k: int, caller: int)
    requires Run(states, steps) && i < j < |states| && tx.AddGrant? && steps[i] == ClientTx(tx)
    requires Exec(states[i].db, tx).result == Ok(g)
    requires LoadAccessTuple(states[i].db, tx.key, Client, tx.caller).Ok?
    requires LoadAccessTuple(states[i].db, tx.key, Client, tx.caller).value.keyId == k
    requires forall n :: i < n <= j ==> g in states[n].db.grants
    ensures var r := LoadAccessTuple(states[j].db, Descriptor(Grant, g, None, None), Client, caller);
      r.Ok? <==> caller == tx.grantee && k in states[j].db.keys && states[j].db.keys[k].state == Live
    ensures var r := LoadAccessTuple(states[j].db, Descriptor(Grant, g, None, None), Client, caller);
      r.Ok? ==> r.value.keyId == k
  {
    assert Next(states[i], steps[i], states[i + 1]);
    GrantIssued(states[i].db, tx);
    RunObeys(states, steps);
    GrantOverRun(TablesAlong(states), i + 1, j, g);
    GrantResolvesForGrantee(states[j].db, g, None, Client, caller);
  }
}
