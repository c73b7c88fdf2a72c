/**
 * Keys that may be used a limited number of times: each use counts, the last one removes the key, and
 * nothing else touches the count.
 */
module LimitedUse {
  import opened Tables
  import opened Transactions
  import opened References
  import opened GarbageCollection
  import opened Removals

  /** The one usage limit among the parameters stands at an index, and this many uses are left. */
  ghost predicate LimitedTo(params: seq<Param>, at: int, left: int) {
    && 0 <= at < |params| && params[at].tag == USAGE_COUNT_LIMIT && params[at].data == left
    && forall i :: 0 <= i < |params| && params[i].tag == USAGE_COUNT_LIMIT ==> i == at
  }

  /** The key exists and has these parameters. */
  ghost predicate LoadsParams(db: Db, k: int, params: seq<Param>) {
    k in db.keys && params == if k in db.params then db.params[k] else []
  }

  /** That is, it loads with them. */
  lemma LoadsParamsMeans(db: Db, k: int, params: seq<Param>)
    ensures LoadsParams(db, k, params) <==> LoadKeyComponents(db, k).Ok? && LoadKeyComponents(db, k).value.params == params
  {
  }

  lemma {:induction false} LimitFound(params: seq<Param>, at: int, left: int)
    requires LimitedTo(params, at, left)
    ensures UsageLimit(params) == Some(left)
  {
    if at != 0 {
      assert LimitedTo(params[1..], at - 1, left);
      LimitFound(params[1..], at - 1, left);
    }
  }

  lemma OneUseCounted(params: seq<Param>, at: int, left: int)
    requires LimitedTo(params, at, left) && left > 0
    ensures CountUse(params) == params[at := params[at].(data := left - 1)]
  {
  }

  // ---------- One use ----------

  /** Every key but one loads as before, and none is new. */
  ghost predicate OthersLoadSame(a: Db, b: Db, k: int) {
    forall j :: j != k ==> LoadKeyComponents(b, j) == LoadKeyComponents(a, j)
  }

  /** With more than one use left, a use succeeds, leaves one less, and changes nothing else. */
  lemma UseCounts(db: Db, k: int, params: seq<Param>, at: int, left: int)
    requires LoadsParams(db, k, params) && LimitedTo(params, at, left) && left > 1
    ensures var r := Exec(db, UseKey(k));
      && r.result == Ok(k)
      && LoadKeyComponents(r.db, k) == Ok(LoadKeyComponents(db, k).value.(params := params[at := params[at].(data := left - 1)]))
      && OthersLoadSame(db, r.db, k) && r.db.keys == db.keys && r.db.grants == db.grants && r.db.blobs == db.blobs
  {
    LimitFound(params, at, left);
    OneUseCounted(params, at, left);
  }

  /** The last use succeeds and removes the key. */
  lemma LastUseRemoves(db: Db, k: int, params: seq<Param>, at: int)
    requires LoadsParams(db, k, params) && LimitedTo(params, at, 1)
    ensures var r := Exec(db, UseKey(k));
      && r.result == Ok(k) && k !in r.db.keys && LoadKeyComponents(r.db, k).Err? && OthersLoadSame(db, r.db, k)
  {
    LimitFound(params, at, 1);
    var counted := db.(params := db.params[k := CountUse(params)]);
    forall j | j != k ensures LoadKeyComponents(Exec(db, UseKey(k)).db, j) == LoadKeyComponents(db, j) {
      RemovalLeavesOthers(counted, {k}, j);
    }
  }

  /** A key that is gone cannot be used. */
  lemma GoneIsUnusable(db: Db, k: int)
    requires KeyInv(db) && k !in db.keys
    ensures Exec(db, UseKey(k)) == Commit(db, Err(KeyExhausted), false)
  {
    assert k !in db.params;
  }

  /** Neither can a key whose limit was zero from the start, or one that has no limit. A negative one never runs out. */
  lemma OtherLimits(db: Db, k: int, params: seq<Param>, at: int, left: int)
    requires LoadsParams(db, k, params)
    ensures LimitedTo(params, at, left) && left == 0 ==> Exec(db, UseKey(k)) == Commit(db, Err(KeyExhausted), false)
    ensures (forall i :: 0 <= i < |params| ==> params[i].tag != USAGE_COUNT_LIMIT) ==> Exec(db, UseKey(k)) == Commit(db, Err(KeyExhausted), false)
    ensures LimitedTo(params, at, left) && left < 0 ==>
      Exec(db, UseKey(k)).result == Ok(k) && LoadsParams(Exec(db, UseKey(k)).db, k, params)
  {
    if LimitedTo(params, at, left) {
      LimitFound(params, at, left);
      assert left < 0 ==> CountUse(params) == params;
    }
    NoLimitFound(params);
  }

  lemma {:induction false} NoLimitFound(params: seq<Param>)
    ensures (forall i :: 0 <= i < |params| ==> params[i].tag != USAGE_COUNT_LIMIT) ==> UsageLimit(params).None?
  {
    if params != [] {
      NoLimitFound(params[1..]);
      assert forall i :: 0 <= i < |params| - 1 ==> params[1..][i] == params[i + 1];
    }
  }

  // ---------- Uses among all that clients and the collector do ----------

  /** How many of the steps from `i` on and before `j` use the key. */
  function Uses(steps: seq<Step>, i: nat, j: nat, k: int): nat
    requires i <= j <= |steps|
    decreases j
  {
    if i == j then 0 else Uses(steps, i, j - 1, k) + if steps[j - 1] == ClientTx(UseKey(k)) then 1 else 0
  }

  lemma StoringLeavesParams(db: Db, tx: Tx, k: int)
    requires tx.StoreNewKey? || tx.StoreNewCertificate? || tx.StoreSuperKey?
    requires k in db.keys && Admissible(db, tx)
    ensures ParamsOf(Exec(db, tx).db.params, k) == ParamsOf(db.params, k)
  {
    if tx.StoreNewKey? {
      BlobsLeaveParams(db, tx);
    }
  }

  lemma BlobsLeaveParams(db: Db, tx: Tx)
    requires tx.StoreNewKey?
    ensures forall k :: k != tx.id ==> ParamsOf(StoredComponents(db, tx).params, k) == ParamsOf(db.params, k)
  {
    var created := CreateKeyEntry(db, tx.id, tx.key.domain, tx.key.nspace, tx.keyType, tx.kmUuid);
    var prior := match tx.superseded
      case None => created
      case Some((b, m)) => InsertBlob(created, tx.id, KeyBlob, b, Some(m));
    var current := InsertBlob(prior, tx.id, KeyBlob, tx.blob, Some(tx.meta));
    var withCert := InsertOptional(current, tx.id, Cert, tx.cert);
    var certified := InsertOptional(withCert, tx.id, CertChain, tx.certChain);
    assert prior.params == db.params && current.params == db.params && withCert.params == db.params;
    assert certified.params == db.params;
  }

  /** No other transaction changes the parameters of a key that stays. */
  lemma OtherTxLeavesParams(db: Db, tx: Tx, k: int)
    requires Admissible(db, tx) && tx != UseKey(k) && k in db.keys && k in Exec(db, tx).db.keys
    ensures ParamsOf(Exec(db, tx).db.params, k) == ParamsOf(db.params, k)
  {
    if tx.StoreNewKey? || tx.StoreNewCertificate? || tx.StoreSuperKey? {
      StoringLeavesParams(db, tx, k);
    }
  }

  lemma StepLeavesParams(s: Sys, step: Step, t: Sys, k: int)
    requires SysInv(s) && Next(s, step, t) && step != ClientTx(UseKey(k)) && k in s.db.keys && k in t.db.keys
    ensures ParamsOf(t.db.params, k) == ParamsOf(s.db.params, k)
  {
    if step.ClientTx? {
      OtherTxLeavesParams(s.db, step.tx, k);
    }
  }

  lemma LoadsParamsOf(db: Db, k: int)
    requires k in db.keys
    ensures LoadsParams(db, k, ParamsOf(db.params, k))
  {
  }

  ghost predicate Stays(states: seq<Sys>, i: nat, j: nat, k: int)
    requires i <= j < |states|
  {
    forall m :: i <= m <= j ==> k in states[m].db.keys
  }

  /** The key loads with the parameters, but with so many uses left. */
  ghost predicate Counts(db: Db, k: int, params: seq<Param>, at: int, left: int) {
    0 <= at < |params| && LoadsParams(db, k, params[at := params[at].(data := left)])
  }

  /** A use with some left succeeds and leaves one less, or removes the key exactly if it was the last. */
  lemma UseWithSomeLeft(db: Db, k: int, params: seq<Param>, at: int, left: int)
    requires LoadsParams(db, k, params) && LimitedTo(params, at, left) && left > 0
    ensures Exec(db, UseKey(k)).result == Ok(k)
    ensures k !in Exec(db, UseKey(k)).db.keys <==> left == 1
    ensures left > 1 ==> ParamsOf(Exec(db, UseKey(k)).db.params, k) == params[at := params[at].(data := left - 1)]
  {
    if left == 1 {
      LastUseRemoves(db, k, params, at);
    } else {
      UseCounts(db, k, params, at, left);
      LoadsParamsOf(Exec(db, UseKey(k)).db, k);
    }
  }

  // What becomes of the parameters alone, step by step.

  /** With uses left: a use leaves one less and at least one, and anything else leaves all as it was. */
  ghost predicate StepsDown(p: seq<Param>, use: bool, q: seq<Param>, at: int) {
    0 <= at < |p| && LimitedTo(p, at, p[at].data) && p[at].data > 0 ==>
      if use then p[at].data > 1 && q == p[at := p[at].(data := p[at].data - 1)] else q == p
  }

  ghost function ParamsAlong(states: seq<Sys>, k: int): (r: seq<seq<Param>>)
    ensures |r| == |states| && forall m :: 0 <= m < |r| ==> r[m] == ParamsOf(states[m].db.params, k)
  {
    seq(|states|, m requires 0 <= m < |states| => ParamsOf(states[m].db.params, k))
  }

  lemma StateStepsDown(s: Sys, step: Step, t: Sys, k: int, at: int)
    requires SysInv(s) && Next(s, step, t) && k in s.db.keys && k in t.db.keys
    ensures StepsDown(ParamsOf(s.db.params, k), step == ClientTx(UseKey(k)), ParamsOf(t.db.params, k), at)
  {
    var p := ParamsOf(s.db.params, k);
    if step != ClientTx(UseKey(k)) {
      StepLeavesParams(s, step, t, k);
    } else if 0 <= at < |p| && LimitedTo(p, at, p[at].data) && p[at].data > 0 {
      LoadsParamsOf(s.db, k);
      UseWithSomeLeft(s.db, k, p, at, p[at].data);
    }
  }

  lemma RunStepsDown(states: seq<Sys>, steps: seq<Step>, j: nat, k: int, at: int)
    requires Run(states, steps) && j < |steps| && k in states[j].db.keys && k in states[j + 1].db.keys
    ensures StepsDown(ParamsOf(states[j].db.params, k), steps[j] == ClientTx(UseKey(k)), ParamsOf(states[j + 1].db.params, k), at)
  {
    CollectorIsSafe(states, steps, j);
    StateStepsDown(states[j], steps[j], states[j + 1], k, at);
  }

  ghost predicate DownChain(all: seq<seq<Param>>, steps: seq<Step>, i: nat, j: nat, k: int, at: int)
    requires i <= j <= |steps| < |all|
  {
    forall m :: i < m <= j ==> StepsDown(all[m - 1], steps[m - 1] == ClientTx(UseKey(k)), all[m], at)
  }

  /** The step before state `m`, if it is one of those in question, leads down. */
  ghost predicate LeadsDown(states: seq<Sys>, steps: seq<Step>, i: nat, j: nat, m: int, k: int, at: int)
    requires i <= j < |states| == |steps| + 1
  {
    i < m <= j ==> StepsDown(ParamsOf(states[m - 1].db.params, k), steps[m - 1] == ClientTx(UseKey(k)), ParamsOf(states[m].db.params, k), at)
  }

  lemma RunLeadsDown(states: seq<Sys>, steps: seq<Step>, i: nat, j: nat, m: int, k: int, at: int)
    requires Run(states, steps) && i <= j < |states| && Stays(states, i, j, k)
    ensures LeadsDown(states, steps, i, j, m, k, at)
  {
    if i < m <= j {
      RunStepsDown(states, steps, m - 1, k, at);
    }
  }

  lemma ChainFromSteps(states: seq<Sys>, steps: seq<Step>, i: nat, j: nat, k: int, at: int)
    requires i <= j < |states| == |steps| + 1 && forall m :: LeadsDown(states, steps, i, j, m, k, at)
    ensures DownChain(ParamsAlong(states, k), steps, i, j, k, at)
  {
    var all := ParamsAlong(states, k);
    forall m | i < m <= j ensures StepsDown(all[m - 1], steps[m - 1] == ClientTx(UseKey(k)), all[m], at) {
      assert LeadsDown(states, steps, i, j, m, k, at);
    }
  }

  lemma RunIsChain(states: seq<Sys>, steps: seq<Step>, i: nat, j: nat, k: int, at: int)
    requires Run(states, steps) && i <= j < |states| && Stays(states, i, j, k)
    ensures DownChain(ParamsAlong(states, k), steps, i, j, k, at)
  {
    forall m ensures LeadsDown(states, steps, i, j, m, k, at) {
      RunLeadsDown(states, steps, i, j, m, k, at);
    }
    ChainFromSteps(states, steps, i, j, k, at);
  }

  lemma {:induction false} DownAlong(all: seq<seq<Param>>, steps: seq<Step>, i: nat, j: nat, k: int, at: int, n: int)
    requires i <= j <= |steps| < |all| && LimitedTo(all[i], at, n) && n > 0 && DownChain(all, steps, i, j, k, at)
    ensures Uses(steps, i, j, k) < n && all[j] == all[i][at := all[i][at].(data := n - Uses(steps, i, j, k))]
    decreases j
  {
    if i == j {
      assert all[i][at := all[i][at].(data := n)] == all[i];
    } else {
      DownAlong(all, steps, i, j - 1, k, at, n);
      assert StepsDown(all[j - 1], steps[j - 1] == ClientTx(UseKey(k)), all[j], at);
    }
  }

  lemma ChainCounts(states: seq<Sys>, steps: seq<Step>, i: nat, j: nat, k: int, params: seq<Param>, at: int, n: int)
    requires i <= j <= |steps| < |states| && DownChain(ParamsAlong(states, k), steps, i, j, k, at) && k in states[j].db.keys
    requires LoadsParams(states[i].db, k, params) && LimitedTo(params, at, n) && n > 0
    ensures Uses(steps, i, j, k) < n && Counts(states[j].db, k, params, at, n - Uses(steps, i, j, k))
  {
    DownAlong(ParamsAlong(states, k), steps, i, j, k, at, n);
  }

  /**
   * Whatever clients and collector do in between: as long as the key exists, the uses left are those
   * at first less the uses since, of which there are fewer; its other parameters are as they were.
   */
  lemma LimitOverRun(states: seq<Sys>, steps: seq<Step>, i: nat, j: nat, k: int, params: seq<Param>, at: int, n: int)
    requires Run(states, steps) && i <= j < |states| && Stays(states, i, j, k)
    requires LoadsParams(states[i].db, k, params) && LimitedTo(params, at, n) && n > 0
    ensures Uses(steps, i, j, k) < n && Counts(states[j].db, k, params, at, n - Uses(steps, i, j, k))
  {
    RunIsChain(states, steps, i, j, k, at);
    ChainCounts(states, steps, i, j, k, params, at, n);
  }

  lemma RunStep(states: seq<Sys>, steps: seq<Step>, j: nat)
    requires Run(states, steps) && j < |steps| && steps[j].ClientTx?
    ensures states[j + 1].db == Exec(states[j].db, steps[j].tx).db
  {
    assert Next(states[j], steps[j], states[j + 1]);
  }

  lemma UseSucceeds(db: Db, k: int, params: seq<Param>, at: int, n: int, left: int)
    requires LimitedTo(params, at, n) && Counts(db, k, params, at, left) && left > 0
    ensures Exec(db, UseKey(k)).result == Ok(k)
  {
    var now := params[at := params[at].(data := left)];
    assert LimitedTo(now, at, left);
    UseWithSomeLeft(db, k, now, at, left);
  }

  lemma GoneAfter(db: Db, next: Db, k: int, params: seq<Param>, at: int, n: int, left: int)
    requires LimitedTo(params, at, n) && Counts(db, k, params, at, left) && left > 0 && next == Exec(db, UseKey(k)).db
    ensures k !in next.keys <==> left == 1
  {
    var now := params[at := params[at].(data := left)];
    assert LimitedTo(now, at, left);
    UseWithSomeLeft(db, k, now, at, left);
  }

  lemma ChainSucceeds(states: seq<Sys>, steps: seq<Step>, i: nat, j: nat, k: int, params: seq<Param>, at: int, n: int)
    requires i <= j <= |steps| < |states| && DownChain(ParamsAlong(states, k), steps, i, j, k, at) && k in states[j].db.keys
    requires LoadsParams(states[i].db, k, params) && LimitedTo(params, at, n) && n > 0
    ensures Exec(states[j].db, UseKey(k)).result == Ok(k)
  {
    ChainCounts(states, steps, i, j, k, params, at, n);
    UseSucceeds(states[j].db, k, params, at, n, n - Uses(steps, i, j, k));
  }

  /** Each use succeeds while the key exists. */
  lemma UsesSucceed(states: seq<Sys>, steps: seq<Step>, i: nat, j: nat, k: int, params: seq<Param>, at: int, n: int)
    requires Run(states, steps) && i <= j < |states| && Stays(states, i, j, k)
    requires LoadsParams(states[i].db, k, params) && LimitedTo(params, at, n) && n > 0
    ensures Exec(states[j].db, UseKey(k)).result == Ok(k)
  {
    RunIsChain(states, steps, i, j, k, at);
    ChainSucceeds(states, steps, i, j, k, params, at, n);
  }

  lemma ChainEnds(states: seq<Sys>, steps: seq<Step>, i: nat, j: nat, k: int, params: seq<Param>, at: int, n: int)
    requires i <= j < |steps| < |states| && DownChain(ParamsAlong(states, k), steps, i, j, k, at) && k in states[j].db.keys
    requires LoadsParams(states[i].db, k, params) && LimitedTo(params, at, n) && n > 0
    requires steps[j] == ClientTx(UseKey(k)) && states[j + 1].db == Exec(states[j].db, UseKey(k)).db
    ensures k !in states[j + 1].db.keys <==> Uses(steps, i, j + 1, k) == n
  {
    ChainCounts(states, steps, i, j, k, params, at, n);
    GoneAfter(states[j].db, states[j + 1].db, k, params, at, n, n - Uses(steps, i, j, k));
  }

  /** It is gone right after exactly the n-th use, if it is not removed otherwise. */
  lemma GoneAfterLastUse(states: seq<Sys>, steps: seq<Step>, i: nat, j: nat, k: int, params: seq<Param>, at: int, n: int)
    requires Run(states, steps) && i <= j < |steps| && Stays(states, i, j, k) && steps[j] == ClientTx(UseKey(k))
    requires LoadsParams(states[i].db, k, params) && LimitedTo(params, at, n) && n > 0
    ensures k !in states[j + 1].db.keys <==> Uses(steps, i, j + 1, k) == n
  {
    RunIsChain(states, steps, i, j, k, at);
    RunStep(states, steps, j);
    ChainEnds(states, steps, i, j, k, params, at, n);
  }

  /** Once it is gone every use fails, until a new key gets the id. */
  lemma UsedUpForGood(states: seq<Sys>, steps: seq<Step>, j: nat, k: int)
    requires Run(states, steps) && j < |steps| && k !in states[j].db.keys && steps[j] == ClientTx(UseKey(k))
    ensures Exec(states[j].db, UseKey(k)).result == Err(KeyExhausted) && states[j + 1] == states[j]
  {
    CollectorIsSafe(states, steps, j);
    GoneIsUnusable(states[j].db, k);
    assert Next(states[j], steps[j], states[j + 1]);
  }

  // ---------- Nothing but uses ----------

  /** The tables after using the key so many times. */
  function AfterUses(db: Db, k: int, m: nat): Db {
    if m == 0 then db else Exec(AfterUses(db, k, m - 1), UseKey(k)).db
  }

  /** With uses left the key loads as at first but for the limit, and otherwise it is gone; other keys load as at first. */
  ghost predicate UsedDownTo(first: Db, now: Db, k: int, params: seq<Param>, at: int, left: int)
    requires LoadKeyComponents(first, k).Ok? && 0 <= at < |params|
  {
    && OthersLoadSame(first, now, k)
    && if left > 0
       then LoadKeyComponents(now, k) == Ok(LoadKeyComponents(first, k).value.(params := params[at := params[at].(data := left)]))
       else k !in now.keys
  }

  lemma OneMoreUse(first: Db, now: Db, next: Db, k: int, params: seq<Param>, at: int, n: int, left: int)
    requires LoadsParams(first, k, params) && LimitedTo(params, at, n)
    requires KeyInv(now) && UsedDownTo(first, now, k, params, at, left) && next == Exec(now, UseKey(k)).db
    ensures UsedDownTo(first, next, k, params, at, left - 1)
  {
    if left > 0 {
      var current := params[at := params[at].(data := left)];
      assert LimitedTo(current, at, left);
      if left == 1 {
        LastUseRemoves(now, k, current, at);
      } else {
        UseCounts(now, k, current, at, left);
        assert current[at := current[at].(data := left - 1)] == params[at := params[at].(data := left - 1)];
      }
    } else {
      GoneIsUnusable(now, k);
    }
  }

  lemma NextResult(first: Db, now: Db, k: int, params: seq<Param>, at: int, n: int, left: int)
    requires LoadsParams(first, k, params) && LimitedTo(params, at, n) && KeyInv(now) && UsedDownTo(first, now, k, params, at, left)
    ensures Exec(now, UseKey(k)).result == if left > 0 then Ok(k) else Err(KeyExhausted)
  {
    if left > 0 {
      UseSucceeds(now, k, params, at, n, left);
    } else {
      GoneIsUnusable(now, k);
    }
  }

  lemma {:induction false} UsesKeepKeyInv(db: Db, k: int, m: nat)
    requires KeyInv(db)
    ensures KeyInv(AfterUses(db, k, m))
  {
    if m > 0 {
      UsesKeepKeyInv(db, k, m - 1);
      TxKeepsKeyRules(AfterUses(db, k, m - 1), UseKey(k));
    }
  }

  lemma NotUsedYet(db: Db, k: int, params: seq<Param>, at: int, n: int)
    requires LoadsParams(db, k, params) && LimitedTo(params, at, n) && n > 0
    ensures UsedDownTo(db, db, k, params, at, n)
  {
    assert params[at := params[at].(data := n)] == params;
  }

  lemma {:induction false} UsedDown(db: Db, k: int, params: seq<Param>, at: int, n: int, m: nat)
    requires KeyInv(db) && LoadsParams(db, k, params) && LimitedTo(params, at, n) && n > 0
    ensures UsedDownTo(db, AfterUses(db, k, m), k, params, at, n - m)
  {
    if m == 0 {
      NotUsedYet(db, k, params, at, n);
    } else {
      UsedDown(db, k, params, at, n, m - 1);
      UsesKeepKeyInv(db, k, m - 1);
      OneMoreUse(db, AfterUses(db, k, m - 1), AfterUses(db, k, m), k, params, at, n, n - m + 1);
    }
  }

  /**
   * A key with a limit of n can be used exactly n times: each of the first n uses succeeds and every
   * later one fails. After fewer the limit loads as what is left, and after n the key is gone.
   */
  lemma UsableExactly(db: Db, k: int, params: seq<Param>, at: int, n: int, m: nat)
    requires KeyInv(db) && LoadsParams(db, k, params) && LimitedTo(params, at, n) && n > 0
    ensures UsedDownTo(db, AfterUses(db, k, m), k, params, at, n - m)
    ensures Exec(AfterUses(db, k, m), UseKey(k)).result == if m < n then Ok(k) else Err(KeyExhausted)
  {
    UsesKeepKeyInv(db, k, m);
    UsedDown(db, k, params, at, n, m);
    NextResult(db, AfterUses(db, k, m), k, params, at, n, n - m);
  }
}
