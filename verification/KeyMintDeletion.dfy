/**
 * Every key blob that was ever stored is in use, or KeyMint has been told to delete it: what becomes
 * of a stored blob over whole runs of clients and collector.
 */
module KeyMintDeletion {
  import opened Tables
  import opened Transactions
  import opened BlobRows
  import opened References
  import opened StoreLoad
  import opened GarbageCollection
  import opened GcHandOver
  import opened Removals

  /**
   * The step passes this blob to this KeyMint instance: it takes a row off the list whose metadata
   * names the instance, and whose blob is this one, decrypted (to `unwrapped`) if it is sealed.
   */
  ghost predicate Tells(s: Sys, step: Step, unwrapped: Option<Bytes>, uuid: Bytes, blob: Bytes) {
    step.GcPop? && s.superseded != [] &&
    var next := s.superseded[|s.superseded| - 1];
    && next.id == step.id && KM_UUID in next.meta && next.meta[KM_UUID] == uuid
    && if Sealed(next.meta) then unwrapped == Some(blob) else next.blob == blob
  }

  predicate Sealed(meta: Meta) {
    (ENCRYPTED_BY in meta && meta[ENCRYPTED_BY] != BY_PASSWORD) || MAX_BOOT_LEVEL in meta
  }

  // ---------- The row of a stored blob ----------

  /** The key's current key blob is this row, with this content and metadata. */
  ghost predicate HoldsBlob(db: Db, i: int, k: int, blob: Bytes, meta: Meta) {
    && i in db.blobs && db.blobs[i].sc == KeyBlob && db.blobs[i].keyId == k
    && db.blobs[i].blob == blob && MetaOf(db.blobMeta, i) == meta
  }

  ghost predicate LoadsBlob(db: Db, k: int, blob: Bytes, meta: Meta) {
    LoadKeyComponents(db, k).Ok? && LoadKeyComponents(db, k).value.keyBlob == Some((blob, meta))
  }

  lemma LoadedFromRow(db: Db, k: int, blob: Bytes, meta: Meta) returns (i: int)
    requires LoadsBlob(db, k, blob, meta)
    ensures HoldsBlob(db, i, k, blob, meta) && IsLatest(db.blobs, i)
  {
    i := LatestRow(db.blobs, k, KeyBlob).value;
  }

  lemma CurrentRowLoads(db: Db, i: int, k: int, blob: Bytes, meta: Meta)
    requires HoldsBlob(db, i, k, blob, meta) && k in db.keys && IsLatest(db.blobs, i)
    ensures LoadsBlob(db, k, blob, meta)
  {
    LatestRowIs(db.blobs, i);
  }

  lemma FetchKeepsRow(s: Sys, useStateColumn: bool, picked: seq<int>, t: Sys, id: int)
    requires Fetches(s, useStateColumn, picked, t) && id in s.db.blobs && s.db.blobs[id].sc == KeyBlob && id in t.db.blobs
    ensures KeepsRow(s.db, t.db, id)
  {
    assert id !in IdSet(s.deleted);
  }

  lemma StepKeepsRow(s: Sys, step: Step, t: Sys, id: int)
    requires SysInv(s) && Next(s, step, t) && id in s.db.blobs && s.db.blobs[id].sc == KeyBlob && id in t.db.blobs
    ensures KeepsRow(s.db, t.db, id)
  {
    match step
    case ClientTx(tx) => TxKeepsBlobs(s.db, tx);
    case GcFetch(useStateColumn, picked) => FetchKeepsRow(s, useStateColumn, picked, t, id);
    case GcPop(_) =>
  }

  ghost predicate HandedOverBy(states: seq<Sys>, steps: seq<Step>, h: nat, m: nat, db: Db, id: int)
    requires m < |states| && |states| == |steps| + 1
  {
    h < m && HandsOver(states[h], steps[h], db, id)
  }

  /** A key blob is in the table as it was stored, or it was handed over as it was stored. */
  lemma {:induction false} StoredUntilHandedOver(states: seq<Sys>, steps: seq<Step>, i: nat, m: nat, id: int) returns (h: nat)
    requires Run(states, steps) && i <= m < |states| && id in states[i].db.blobs && states[i].db.blobs[id].sc == KeyBlob
    ensures KeepsRow(states[i].db, states[m].db, id) || HandedOverBy(states, steps, h, m, states[i].db, id)
    decreases m
  {
    h := 0;
    if i < m {
      h := StoredUntilHandedOver(states, steps, i, m - 1, id);
      if KeepsRow(states[i].db, states[m - 1].db, id) {
        CollectorIsSafe(states, steps, m - 1);
        if id in states[m].db.blobs {
          StepKeepsRow(states[m - 1], steps[m - 1], states[m], id);
        } else {
          BlobGoesOnlyAfterHandOver(states, steps, m - 1, id);
          h :| 0 <= h < m - 1 && HandsOver(states[h], steps[h], states[m - 1].db, id);
          HandsOverSame(states[h], steps[h], states[m - 1].db, states[i].db, id);
        }
      }
    }
  }

  lemma HandingOverTells(s: Sys, step: Step, db: Db, i: int, k: int, blob: Bytes, meta: Meta, unwrapped: Option<Bytes>)
    requires HandsOver(s, step, db, i) && HoldsBlob(db, i, k, blob, meta) && KM_UUID in meta
    ensures !Sealed(meta) ==> Tells(s, step, unwrapped, meta[KM_UUID], blob)
    ensures Sealed(meta) && unwrapped.Some? ==> Tells(s, step, unwrapped, meta[KM_UUID], unwrapped.value)
  {
  }

  /**
   * A key that loads with a blob whose metadata names a KeyMint instance: if later the query by id
   * finds nothing, then it still loads with that blob, or that instance has been told to delete the
   * blob, in the form it was stored in if it is not sealed, and decrypted otherwise.
   */
  lemma KeyMintIsTold(states: seq<Sys>, steps: seq<Step>, i: nat, m: nat, k: int, blob: Bytes, meta: Meta, unwrapped: Option<Bytes>) returns (h: nat)
    requires Run(states, steps) && i <= m < |states| && OutOfDateKeyBlobs(states[m].db, false) == {}
    requires LoadsBlob(states[i].db, k, blob, meta) && KM_UUID in meta && (Sealed(meta) ==> unwrapped.Some?)
    ensures LoadsBlob(states[m].db, k, blob, meta) ||
      (h < m && Tells(states[h], steps[h], unwrapped, meta[KM_UUID], if Sealed(meta) then unwrapped.value else blob))
  {
    var row := LoadedFromRow(states[i].db, k, blob, meta);
    h := StoredUntilHandedOver(states, steps, i, m, row);
    if KeepsRow(states[i].db, states[m].db, row) {
      assert row !in OutOfDateKeyBlobs(states[m].db, false);
      CurrentRowLoads(states[m].db, row, k, blob, meta);
    } else {
      HandingOverTells(states[h], steps[h], states[i].db, row, k, blob, meta, unwrapped);
    }
  }

  /** So a key that is stored and later removed or given another blob is passed to its KeyMint instance. */
  lemma StoredKeyReachesKeyMint(states: seq<Sys>, steps: seq<Step>, i: nat, m: nat, tx: Tx, unwrapped: Option<Bytes>) returns (h: nat)
    requires Run(states, steps) && i < m < |states| && steps[i] == ClientTx(tx)
    requires tx.StoreNewKey? && tx.keyType == Client && Storable(tx.key) && KM_UUID in tx.meta && (Sealed(tx.meta) ==> unwrapped.Some?)
    requires OutOfDateKeyBlobs(states[m].db, false) == {} && !LoadsBlob(states[m].db, tx.id, tx.blob, tx.meta)
    ensures h < m && Tells(states[h], steps[h], unwrapped, tx.meta[KM_UUID], if Sealed(tx.meta) then unwrapped.value else tx.blob)
  {
    CollectorIsSafe(states, steps, i);
    assert Next(states[i], steps[i], states[i + 1]);
    StoredKeyLoads(states[i].db, tx);
    h := KeyMintIsTold(states, steps, i + 1, m, tx.id, tx.blob, tx.meta, unwrapped);
  }

  /** The transaction takes the key away and marks its blobs: all removals but that of a namespace. */
  ghost predicate TakesAway(db: Db, tx: Tx, k: int) {
    && (tx.UnbindKey? || tx.UnbindUser? || tx.UnbindAuthBound? || tx.UseKey?)
    && k in db.keys && k !in Exec(db, tx).db.keys
  }

  lemma GoneIsLeft(a: Db, b: Db, gone: iset<int>, k: int, i: int, u: bool)
    requires ExactlyGone(a, b, gone) && LeftToCollector(a, b, gone) && k in a.keys && k !in b.keys
    requires i in a.blobs && a.blobs[i].sc == KeyBlob && a.blobs[i].keyId == k
    ensures i in OutOfDateKeyBlobs(b, u)
  {
  }

  lemma UsedUpIsLeftToCollector(db: Db, used: int, k: int, i: int, u: bool)
    requires TakesAway(db, UseKey(used), k) && i in db.blobs && db.blobs[i].sc == KeyBlob && db.blobs[i].keyId == k
    ensures i in OutOfDateKeyBlobs(Exec(db, UseKey(used)).db, u)
  {
    var r := Exec(db, UseKey(used)).db;
    assert k == used && i in r.blobs && r.blobs[i].state == Orphaned && r.blobs[i].sc == KeyBlob && r.blobs[i].keyId == k;
  }

  lemma TakenIsLeftToCollector(db: Db, tx: Tx, k: int, i: int, u: bool)
    requires KeyInv(db) && TakesAway(db, tx, k) && i in db.blobs && db.blobs[i].sc == KeyBlob && db.blobs[i].keyId == k
    ensures i in OutOfDateKeyBlobs(Exec(db, tx).db, u)
  {
    match tx
    case UnbindKey(key, keyType, caller, permitted) =>
      KeyUnbound(db, key, keyType, caller, permitted);
      GoneIsLeft(db, Exec(db, tx).db, iset{LoadAccessTuple(db, key, keyType, caller).value.keyId}, k, i, u);
    case UnbindUser(user) =>
      UserRemoved(db, user);
      GoneIsLeft(db, Exec(db, tx).db, KeysWithUser(db, user), k, i, u);
    case UnbindAuthBound(user) =>
      AuthBoundRemoved(db, user);
      GoneIsLeft(db, Exec(db, tx).db, AuthBoundWithUser(db, user), k, i, u);
    case UseKey(used) => UsedUpIsLeftToCollector(db, used, k, i, u);
  }

  /** Under either query: a key that was removed is passed to its KeyMint instance before the query finds nothing any more. */
  lemma RemovedKeyReachesKeyMint(states: seq<Sys>, steps: seq<Step>, i: nat, m: nat, u: bool, k: int, blob: Bytes, meta: Meta, unwrapped: Option<Bytes>)
    returns (h: nat)
    requires Run(states, steps) && i < m < |states| && steps[i].ClientTx? && TakesAway(states[i].db, steps[i].tx, k)
    requires LoadsBlob(states[i].db, k, blob, meta) && KM_UUID in meta && (Sealed(meta) ==> unwrapped.Some?)
    requires OutOfDateKeyBlobs(states[m].db, u) == {}
    ensures h < m && Tells(states[h], steps[h], unwrapped, meta[KM_UUID], if Sealed(meta) then unwrapped.value else blob)
  {
    var row := LoadedFromRow(states[i].db, k, blob, meta);
    CollectorIsSafe(states, steps, i);
    assert Next(states[i], steps[i], states[i + 1]);
    TakenIsLeftToCollector(states[i].db, steps[i].tx, k, row, u);
    StepKeepsRow(states[i], steps[i], states[i + 1], row);
    h := SelectedIsHandedOver(states, steps, i + 1, m, u, row);
    HandsOverSame(states[h], steps[h], states[i + 1].db, states[i].db, row);
    HandingOverTells(states[h], steps[h], states[i].db, row, k, blob, meta, unwrapped);
  }
}
