/**
 * Loading a key while others use, rebind and delete keys: the key id lock and the two-phase
 * protocol of load_key_entry, as an interleaving of threads.
 */
module KeyLocks {
  import opened Tables
  import opened Transactions
  import opened References
  import opened Lookups

  datatype Request = Request(key: Descriptor, keyType: KeyType, caller: int)

  /** The access tuple a permission check passed for, and the tables it was read from. */
  datatype Permit = Permit(tables: Db, access: Access)

  datatype Phase =
    | Idle
    | WaitForKeyId(req: Request)
    | Begin(req: Request, early: Option<int>)
    | Checked(req: Request, early: Option<int>, permit: Permit)
    | WaitForLock(req: Request, permit: Permit)
    | Reopen(req: Request, permit: Permit)
    | Loading(req: Request, guard: int, permit: Permit, snapshot: Db)
    | Done(req: Request, guard: int, permit: Permit, snapshot: Db, entry: KeyEntry)
    | Holding(guard: int)

  datatype State = State(db: Db, locked: set<int>, threads: map<int, Phase>)

  datatype Step =
    | Commit(db: Db)
    | Start(tid: int, req: Request)
    | GetFirst(tid: int)
    | OpenFirst(tid: int, permitted: bool)
    | TryLock(tid: int)
    | GetSecond(tid: int)
    | OpenSecond(tid: int)
    | Load(tid: int)
    | Acquire(tid: int, keyId: int)
    | Release(tid: int)

  function PhaseOf(s: State, tid: int): Phase {
    if tid in s.threads then s.threads[tid] else Idle
  }

  /** The guard a thread owns; dropping the phase drops the guard. */
  function GuardOf(p: Phase): Option<int> {
    match p
    case Begin(_, early) => early
    case Checked(_, early, _) => early
    case Reopen(_, permit) => Some(permit.access.keyId)
    case Loading(_, guard, _, _) => Some(guard)
    case Done(_, guard, _, _, _) => Some(guard)
    case Holding(guard) => Some(guard)
    case _ => None
  }

  function Move(s: State, tid: int, p: Phase): State {
    s.(threads := s.threads[tid := p])
  }

  function Lock(s: State, tid: int, keyId: int, p: Phase): State {
    Move(s, tid, p).(locked := s.locked + {keyId})
  }

  /** The thread gives up or finishes: its guard, if it has one, is dropped. */
  function Leave(s: State, tid: int): State {
    var g := GuardOf(PhaseOf(s, tid));
    Move(s, tid, Idle).(locked := if g.Some? then s.locked - {g.value} else s.locked)
  }

  function ByKeyId(keyId: int): Descriptor {
    Descriptor(KeyId, keyId, None, None)
  }

  predicate Enabled(s: State, step: Step) {
    match step
    case Commit(_) => true
    case Start(tid, _) => PhaseOf(s, tid).Idle?
    case GetFirst(tid) => PhaseOf(s, tid).WaitForKeyId? && PhaseOf(s, tid).req.key.nspace !in s.locked
    case OpenFirst(tid, _) => PhaseOf(s, tid).Begin?
    case TryLock(tid) => PhaseOf(s, tid).Checked?
    case GetSecond(tid) => PhaseOf(s, tid).WaitForLock? && PhaseOf(s, tid).permit.access.keyId !in s.locked
    case OpenSecond(tid) => PhaseOf(s, tid).Reopen?
    case Load(tid) => PhaseOf(s, tid).Loading?
    case Acquire(tid, keyId) => PhaseOf(s, tid).Idle? && keyId !in s.locked
    case Release(tid) => PhaseOf(s, tid).Done? || PhaseOf(s, tid).Holding?
  }

  function Apply(s: State, step: Step): State
    requires Enabled(s, step)
  {
    match step
    // Other threads commit transactions at any time; an open one keeps its snapshot.
    case Commit(db) => s.(db := db)
    case Start(tid, req) =>
      if req.key.domain == KeyId then Move(s, tid, WaitForKeyId(req)) else Move(s, tid, Begin(req, None))
    case GetFirst(tid) =>
      var req := PhaseOf(s, tid).req;
      Lock(s, tid, req.key.nspace, Begin(req, Some(req.key.nspace)))
    case OpenFirst(tid, permitted) =>
      var p := PhaseOf(s, tid);
      var access := LoadAccessTuple(s.db, p.req.key, p.req.keyType, p.req.caller);
      if access.Err? || !permitted then Leave(s, tid)
      else Move(s, tid, Checked(p.req, p.early, Permit(s.db, access.value)))
    case TryLock(tid) =>
      var p := PhaseOf(s, tid);
      var keyId := p.permit.access.keyId;
      if p.early.Some? then Move(s, tid, Loading(p.req, p.early.value, p.permit, p.permit.tables))
      else if keyId in s.locked then Move(s, tid, WaitForLock(p.req, p.permit))
      else Lock(s, tid, keyId, Loading(p.req, keyId, p.permit, p.permit.tables))
    case GetSecond(tid) =>
      var p := PhaseOf(s, tid);
      Lock(s, tid, p.permit.access.keyId, Reopen(p.req, p.permit))
    case OpenSecond(tid) =>
      var p := PhaseOf(s, tid);
      var keyId := p.permit.access.keyId;
      if LoadAccessTuple(s.db, ByKeyId(keyId), p.req.keyType, p.req.caller).Err? then Leave(s, tid)
      else Move(s, tid, Loading(p.req, keyId, p.permit, s.db))
    case Load(tid) =>
      var p := PhaseOf(s, tid);
      var entry := LoadKeyComponents(p.snapshot, p.guard);
      if entry.Err? then Leave(s, tid) else Move(s, tid, Done(p.req, p.guard, p.permit, p.snapshot, entry.value))
    case Acquire(tid, keyId) => Lock(s, tid, keyId, Holding(keyId))
    case Release(tid) => Leave(s, tid)
  }

  // ---------- What holds in every reachable state ----------

  predicate LiveIn(db: Db, keyId: int) {
    keyId in db.keys && db.keys[keyId].state == Live
  }

  /** The permit was issued for what the request resolved to when it was read. */
  predicate Issued(req: Request, permit: Permit) {
    LoadAccessTuple(permit.tables, req.key, req.keyType, req.caller) == Ok(permit.access)
  }

  ghost predicate PhaseInv(p: Phase) {
    match p
    case WaitForKeyId(req) => req.key.domain == KeyId
    case Begin(req, early) => early == if req.key.domain == KeyId then Some(req.key.nspace) else None
    case Checked(req, early, permit) => Issued(req, permit) && (early.Some? ==> early.value == permit.access.keyId)
    case WaitForLock(req, permit) => Issued(req, permit)
    case Reopen(req, permit) => Issued(req, permit)
    case Loading(req, guard, permit, snapshot) =>
      Issued(req, permit) && guard == permit.access.keyId && LiveIn(snapshot, guard)
    case Done(req, guard, permit, snapshot, entry) =>
      Issued(req, permit) && guard == permit.access.keyId && LiveIn(snapshot, guard)
      && LoadKeyComponents(snapshot, guard) == Ok(entry)
    case _ => true
  }

  /** Guards are locked ids, and no two threads own a guard for the same id. */
  ghost predicate GuardInv(s: State) {
    && (forall t :: GuardOf(PhaseOf(s, t)).Some? ==> GuardOf(PhaseOf(s, t)).value in s.locked)
    && (forall t, u :: t != u && GuardOf(PhaseOf(s, t)).Some? ==> GuardOf(PhaseOf(s, t)) != GuardOf(PhaseOf(s, u)))
  }

  ghost predicate Owned(s: State, keyId: int) {
    exists t :: GuardOf(PhaseOf(s, t)) == Some(keyId)
  }

  /** No lock is left behind: every locked id has an owner. */
  ghost predicate OwnerInv(s: State) {
    forall keyId :: keyId in s.locked ==> Owned(s, keyId)
  }

  ghost predicate Inv(s: State) {
    GuardInv(s) && OwnerInv(s) && forall t :: PhaseInv(PhaseOf(s, t))
  }

  /** Moving a thread to a phase with the same guard, or none. */
  lemma MoveKeepsInv(s: State, tid: int, p: Phase)
    requires Inv(s) && PhaseInv(p) && GuardOf(p) == GuardOf(PhaseOf(s, tid))
    ensures Inv(Move(s, tid, p))
  {
    var r := Move(s, tid, p);
    assert forall t :: t != tid ==> PhaseOf(r, t) == PhaseOf(s, t);
    assert forall t :: GuardOf(PhaseOf(r, t)) == GuardOf(PhaseOf(s, t));
    SameGuardsSameOwners(s, r);
  }

  lemma SameGuardsSameOwners(s: State, r: State)
    requires OwnerInv(s) && r.locked == s.locked && forall t :: GuardOf(PhaseOf(r, t)) == GuardOf(PhaseOf(s, t))
    ensures OwnerInv(r)
  {
    forall keyId | keyId in r.locked ensures Owned(r, keyId) {
      assert Owned(s, keyId);
      var t :| GuardOf(PhaseOf(s, t)) == Some(keyId);
      assert GuardOf(PhaseOf(r, t)) == Some(keyId);
    }
  }

  lemma LockKeepsInv(s: State, tid: int, keyId: int, p: Phase)
    requires Inv(s) && PhaseInv(p) && keyId !in s.locked && GuardOf(p) == Some(keyId) && GuardOf(PhaseOf(s, tid)).None?
    ensures Inv(Lock(s, tid, keyId, p))
  {
    var r := Lock(s, tid, keyId, p);
    assert forall t :: t != tid ==> PhaseOf(r, t) == PhaseOf(s, t);
    assert PhaseOf(r, tid) == p;
    forall k | k in r.locked ensures Owned(r, k) {
      if k == keyId {
        assert GuardOf(PhaseOf(r, tid)) == Some(k);
      } else {
        var t :| GuardOf(PhaseOf(s, t)) == Some(k);
        assert t != tid;
        assert GuardOf(PhaseOf(r, t)) == Some(k);
      }
    }
  }

  lemma LeaveKeepsInv(s: State, tid: int)
    requires Inv(s)
    ensures Inv(Leave(s, tid))
  {
    var r := Leave(s, tid);
    assert forall t :: t != tid ==> PhaseOf(r, t) == PhaseOf(s, t);
    assert PhaseOf(r, tid) == Idle;
    forall k | k in r.locked ensures Owned(r, k) {
      var t :| GuardOf(PhaseOf(s, t)) == Some(k);
      assert t != tid;
      assert GuardOf(PhaseOf(r, t)) == Some(k);
    }
  }

  lemma StepKeepsInv(s: State, step: Step)
    requires Inv(s) && Enabled(s, step)
    ensures Inv(Apply(s, step))
  {
    match step
    case Commit(db) =>
      assert forall t :: PhaseOf(Apply(s, step), t) == PhaseOf(s, t);
      SameGuardsSameOwners(s, Apply(s, step));
    case Start(tid, req) =>
      MoveKeepsInv(s, tid, if req.key.domain == KeyId then WaitForKeyId(req) else Begin(req, None));
    case GetFirst(tid) =>
      var req := PhaseOf(s, tid).req;
      assert PhaseInv(PhaseOf(s, tid));
      LockKeepsInv(s, tid, req.key.nspace, Begin(req, Some(req.key.nspace)));
    case OpenFirst(tid, permitted) =>
      var p := PhaseOf(s, tid);
      assert PhaseInv(p);
      LeaveKeepsInv(s, tid);
      var access := LoadAccessTuple(s.db, p.req.key, p.req.keyType, p.req.caller);
      if access.Ok? { MoveKeepsInv(s, tid, Checked(p.req, p.early, Permit(s.db, access.value))); }
    case TryLock(tid) => TryLockKeepsInv(s, tid);
    case GetSecond(tid) =>
      var p := PhaseOf(s, tid);
      assert PhaseInv(p);
      LockKeepsInv(s, tid, p.permit.access.keyId, Reopen(p.req, p.permit));
    case OpenSecond(tid) =>
      var p := PhaseOf(s, tid);
      assert PhaseInv(p);
      LeaveKeepsInv(s, tid);
      var keyId := p.permit.access.keyId;
      if LoadAccessTuple(s.db, ByKeyId(keyId), p.req.keyType, p.req.caller).Ok? {
        MoveKeepsInv(s, tid, Loading(p.req, keyId, p.permit, s.db));
      }
    case Load(tid) =>
      var p := PhaseOf(s, tid);
      assert PhaseInv(p);
      LeaveKeepsInv(s, tid);
      var entry := LoadKeyComponents(p.snapshot, p.guard);
      if entry.Ok? { MoveKeepsInv(s, tid, Done(p.req, p.guard, p.permit, p.snapshot, entry.value)); }
    case Acquire(tid, keyId) => LockKeepsInv(s, tid, keyId, Holding(keyId));
    case Release(tid) => LeaveKeepsInv(s, tid);
  }

  lemma TryLockKeepsInv(s: State, tid: int)
    requires Inv(s) && Enabled(s, TryLock(tid))
    ensures Inv(Apply(s, TryLock(tid)))
  {
    var p := PhaseOf(s, tid);
    assert PhaseInv(p);
    AccessIsLive(p.permit.tables, p.req.key, p.req.keyType, p.req.caller);
    var keyId := p.permit.access.keyId;
    var loading := Loading(p.req, keyId, p.permit, p.permit.tables);
    if p.early.Some? {
      MoveKeepsInv(s, tid, loading);
    } else if keyId in s.locked {
      MoveKeepsInv(s, tid, WaitForLock(p.req, p.permit));
    } else {
      LockKeepsInv(s, tid, keyId, loading);
    }
  }

  ghost predicate Run(states: seq<State>, steps: seq<Step>) {
    && |states| == |steps| + 1 && states[0].threads == map[] && states[0].locked == {}
    && forall i {:trigger steps[i]} :: 0 <= i < |steps| ==> Enabled(states[i], steps[i]) && states[i + 1] == Apply(states[i], steps[i])
  }

  lemma {:induction false} EveryStateInv(states: seq<State>, steps: seq<Step>, n: nat)
    requires Run(states, steps) && n < |states|
    ensures Inv(states[n])
  {
    if n > 0 {
      EveryStateInv(states, steps, n - 1);
      StepKeepsInv(states[n - 1], steps[n - 1]);
    }
  }

  /**
   * Whatever other threads commit in between: when load_key_entry succeeds, the guard, the entry
   * and the permission are for the same key id, the entry is what that key consisted of in the
   * loading transaction, and the key was live there.
   */
  lemma LoadedKeyIsPermittedKey(states: seq<State>, steps: seq<Step>, n: nat, tid: int)
    requires Run(states, steps) && n < |states| && PhaseOf(states[n], tid).Done?
    ensures var p := PhaseOf(states[n], tid);
      && p.entry.id == p.guard == p.permit.access.keyId
      && LoadAccessTuple(p.permit.tables, p.req.key, p.req.keyType, p.req.caller) == Ok(p.permit.access)
      && LiveIn(p.snapshot, p.guard) && LoadKeyComponents(p.snapshot, p.guard) == Ok(p.entry)
  {
    EveryStateInv(states, steps, n);
    assert PhaseInv(PhaseOf(states[n], tid));
  }

  /** While one thread has a key loaded, no other thread has it loaded or is about to. */
  lemma LoadedKeyIsExclusive(states: seq<State>, steps: seq<Step>, n: nat, tid: int, other: int)
    requires Run(states, steps) && n < |states| && tid != other
    requires PhaseOf(states[n], tid).Done?
    ensures GuardOf(PhaseOf(states[n], other)) != Some(PhaseOf(states[n], tid).guard)
  {
    EveryStateInv(states, steps, n);
  }

  /** A key that was deleted or evicted while its lock was awaited is not loaded under any name. */
  lemma RebindWhileWaiting(s: State, tid: int)
    requires Inv(s) && PhaseOf(s, tid).Reopen?
    ensures var keyId := PhaseOf(s, tid).permit.access.keyId;
      var after := PhaseOf(Apply(s, OpenSecond(tid)), tid);
      && (after.Loading? <==> LiveIn(s.db, keyId) && s.db.keys[keyId].domain.Some? && s.db.keys[keyId].nspace.Some?)
      && (after.Loading? ==> after.guard == keyId && after.snapshot == s.db)
      && (!after.Loading? ==> after.Idle? && keyId !in Apply(s, OpenSecond(tid)).locked)
  {
  }

  // ---------- Asked for and permitted ----------

  /** What the thread was asked to load. */
  function RequestOf(p: Phase): Option<Request> {
    match p
    case Idle => None
    case Holding(_) => None
    case WaitForKeyId(req) => Some(req)
    case Begin(req, _) => Some(req)
    case Checked(req, _, _) => Some(req)
    case WaitForLock(req, _) => Some(req)
    case Reopen(req, _) => Some(req)
    case Loading(req, _, _, _) => Some(req)
    case Done(req, _, _, _, _) => Some(req)
  }

  function PermitOf(p: Phase): Option<Permit> {
    match p
    case Checked(_, _, permit) => Some(permit)
    case WaitForLock(_, permit) => Some(permit)
    case Reopen(_, permit) => Some(permit)
    case Loading(_, _, permit, _) => Some(permit)
    case Done(_, _, permit, _, _) => Some(permit)
    case _ => None
  }

  lemma StepKeepsRequest(s: State, step: Step, tid: int)
    requires Enabled(s, step)
    ensures var p := PhaseOf(s, tid); var q := PhaseOf(Apply(s, step), tid);
      && (RequestOf(q).Some? ==> RequestOf(q) == RequestOf(p) || step == Start(tid, RequestOf(q).value))
      && (PermitOf(q).Some? ==>
           || (PermitOf(q) == PermitOf(p) && RequestOf(q) == RequestOf(p))
           || (step == OpenFirst(tid, true) && RequestOf(q) == RequestOf(p) && PermitOf(q).value.tables == s.db))
  {
  }

  lemma {:induction false} RequestWasMade(states: seq<State>, steps: seq<Step>, n: nat, tid: int) returns (i: nat)
    requires Run(states, steps) && n < |states| && RequestOf(PhaseOf(states[n], tid)).Some?
    ensures i < n && steps[i] == Start(tid, RequestOf(PhaseOf(states[n], tid)).value)
  {
    StepKeepsRequest(states[n - 1], steps[n - 1], tid);
    if RequestOf(PhaseOf(states[n - 1], tid)) == RequestOf(PhaseOf(states[n], tid)) {
      i := RequestWasMade(states, steps, n - 1, tid);
    } else {
      i := n - 1;
    }
  }

  lemma {:induction false} PermissionWasGiven(states: seq<State>, steps: seq<Step>, n: nat, tid: int) returns (i: nat)
    requires Run(states, steps) && n < |states| && PermitOf(PhaseOf(states[n], tid)).Some?
    ensures i < n && steps[i] == OpenFirst(tid, true) && states[i].db == PermitOf(PhaseOf(states[n], tid)).value.tables
    ensures RequestOf(PhaseOf(states[i], tid)) == RequestOf(PhaseOf(states[n], tid))
  {
    StepKeepsRequest(states[n - 1], steps[n - 1], tid);
    var p, q := PhaseOf(states[n - 1], tid), PhaseOf(states[n], tid);
    if PermitOf(p) == PermitOf(q) && RequestOf(p) == RequestOf(q) {
      i := PermissionWasGiven(states, steps, n - 1, tid);
    } else {
      i := n - 1;
    }
  }

  /**
   * A thread that has a key loaded was asked for it, and permission was given, for what the request
   * resolved to in the tables of that time.
   */
  lemma LoadedOnRequest(states: seq<State>, steps: seq<Step>, n: nat, tid: int) returns (asked: nat, permitted: nat)
    requires Run(states, steps) && n < |states| && PhaseOf(states[n], tid).Done?
    ensures var p := PhaseOf(states[n], tid);
      && asked < permitted < n && steps[asked] == Start(tid, p.req) && steps[permitted] == OpenFirst(tid, true)
      && LoadAccessTuple(states[permitted].db, p.req.key, p.req.keyType, p.req.caller) == Ok(p.permit.access) && p.permit.access.keyId == p.guard
  {
    EveryStateInv(states, steps, n);
    assert PhaseInv(PhaseOf(states[n], tid));
    permitted := PermissionWasGiven(states, steps, n, tid);
    asked := RequestWasMade(states, steps, permitted, tid);
  }

  /** An app that asks for one of its keys is given a key that was its own, under that alias, when permission was given. */
  lemma LoadedKeyIsOwn(states: seq<State>, steps: seq<Step>, n: nat, tid: int)
    requires Run(states, steps) && n < |states| && PhaseOf(states[n], tid).Done?
    requires var p := PhaseOf(states[n], tid); p.req.key.domain == App && p.req.keyType == Client && KeyInv(p.permit.tables)
    ensures var p := PhaseOf(states[n], tid);
      p.req.key.alias.Some? && IsAt(p.permit.tables, p.guard, Client, App, p.req.caller, p.req.key.alias.value)
  {
    LoadedKeyIsPermittedKey(states, steps, n, tid);
    var p := PhaseOf(states[n], tid);
    AppFindsOwnKeys(p.permit.tables, p.req.key, p.req.caller, p.guard);
  }

  /** The steps of a request that nobody gets in the way of. */
  function Unhindered(tid: int, req: Request): seq<Step> {
    if req.key.domain == KeyId then [Start(tid, req), GetFirst(tid), OpenFirst(tid, true), TryLock(tid), Load(tid)]
    else [Start(tid, req), OpenFirst(tid, true), TryLock(tid), Load(tid)]
  }

  ghost predicate Leads(s: State, steps: seq<Step>, t: State)
    decreases |steps|
  {
    if steps == [] then s == t else Enabled(s, steps[0]) && Leads(Apply(s, steps[0]), steps[1..], t)
  }

  lemma LeadsByAll(s: State, a: Step, steps: seq<Step>, t: State)
    requires Enabled(s, a) && Leads(Apply(s, a), steps, t)
    ensures Leads(s, [a] + steps, t)
  {
    assert ([a] + steps)[1..] == steps;
  }

  lemma LastSteps(s: State, tid: int, req: Request, early: Option<int>, access: Access) returns (t: State)
    requires PhaseOf(s, tid) == Begin(req, early) && LoadAccessTuple(s.db, req.key, req.keyType, req.caller) == Ok(access)
    requires if early.Some? then early.value == access.keyId else access.keyId !in s.locked
    ensures LoadKeyComponents(s.db, access.keyId).Ok?
    ensures Leads(s, [OpenFirst(tid, true), TryLock(tid), Load(tid)], t)
    ensures PhaseOf(t, tid) == Done(req, access.keyId, Permit(s.db, access), s.db, LoadKeyComponents(s.db, access.keyId).value)
  {
    AccessIsLive(s.db, req.key, req.keyType, req.caller);
    var a := Apply(s, OpenFirst(tid, true));
    var b := Apply(a, TryLock(tid));
    t := Apply(b, Load(tid));
    assert Leads(t, [], t);
    LeadsByAll(b, Load(tid), [], t);
    LeadsByAll(a, TryLock(tid), [Load(tid)], t);
    LeadsByAll(s, OpenFirst(tid, true), [TryLock(tid), Load(tid)], t);
    assert [TryLock(tid)] + [Load(tid)] == [TryLock(tid), Load(tid)];
    assert [OpenFirst(tid, true)] + [TryLock(tid), Load(tid)] == [OpenFirst(tid, true), TryLock(tid), Load(tid)];
  }

  /** A request that resolves, is permitted and finds the key unlocked loads that key as it is. */
  lemma UnhinderedLoads(s: State, tid: int, req: Request, access: Access) returns (t: State)
    requires PhaseOf(s, tid).Idle? && LoadAccessTuple(s.db, req.key, req.keyType, req.caller) == Ok(access) && access.keyId !in s.locked
    ensures LoadKeyComponents(s.db, access.keyId).Ok?
    ensures Leads(s, Unhindered(tid, req), t)
    ensures PhaseOf(t, tid) == Done(req, access.keyId, Permit(s.db, access), s.db, LoadKeyComponents(s.db, access.keyId).value)
  {
    var rest := [OpenFirst(tid, true), TryLock(tid), Load(tid)];
    var a := Apply(s, Start(tid, req));
    if req.key.domain == KeyId {
      var b := Apply(a, GetFirst(tid));
      t := LastSteps(b, tid, req, Some(access.keyId), access);
      LeadsByAll(a, GetFirst(tid), rest, t);
      LeadsByAll(s, Start(tid, req), [GetFirst(tid)] + rest, t);
      assert [Start(tid, req)] + ([GetFirst(tid)] + rest) == Unhindered(tid, req);
    } else {
      t := LastSteps(a, tid, req, None, access);
      LeadsByAll(s, Start(tid, req), rest, t);
      assert [Start(tid, req)] + rest == Unhindered(tid, req);
    }
  }

  // ---------- The lock as it works ----------

  /** The key id a step waits for and locks. */
  function Wanted(s: State, step: Step): Option<int> {
    match step
    case GetFirst(tid) => if PhaseOf(s, tid).WaitForKeyId? then Some(PhaseOf(s, tid).req.key.nspace) else None
    case GetSecond(tid) => if PhaseOf(s, tid).WaitForLock? then Some(PhaseOf(s, tid).permit.access.keyId) else None
    case Acquire(_, keyId) => Some(keyId)
    case _ => None
  }

  /** Nobody but this thread has the guard of the key id. */
  ghost predicate Exclusive(s: State, tid: int, keyId: int) {
    GuardOf(PhaseOf(s, tid)) == Some(keyId) && forall t :: t != tid ==> GuardOf(PhaseOf(s, t)) != Some(keyId)
  }

  lemma GuardIsExclusive(s: State, tid: int, keyId: int)
    requires Inv(s) && GuardOf(PhaseOf(s, tid)) == Some(keyId)
    ensures Exclusive(s, tid, keyId)
  {
  }

  /** The set of locked key ids, behind its mutex. */
  class KeyIdLockDb {
    var lockedKeys: set<int>

    ghost predicate Shows(s: State)
      reads this
    {
      s.locked == lockedKeys
    }

    constructor ()
      ensures lockedKeys == {}
    {
      lockedKeys := {};
    }

    /** get, once the wait for the key id is over: the thread of the step owns the key id, and no other. */
    method Get(keyId: int, ghost s: State, ghost step: Step) returns (guard: int)
      requires Shows(s) && Inv(s) && Enabled(s, step) && Wanted(s, step) == Some(keyId)
      modifies this
      ensures Shows(Apply(s, step)) && Inv(Apply(s, step)) && Exclusive(Apply(s, step), step.tid, guard)
    {
      lockedKeys := lockedKeys + {keyId};
      guard := keyId;
      StepKeepsInv(s, step);
      GuardIsExclusive(Apply(s, step), step.tid, keyId);
    }

    /** try_get: refused exactly if another thread owns the key id. */
    method TryGet(keyId: int, ghost s: State, ghost tid: int) returns (guard: Option<int>)
      requires Shows(s) && Inv(s) && PhaseOf(s, tid).Checked? && PhaseOf(s, tid).early.None? && keyId == PhaseOf(s, tid).permit.access.keyId
      modifies this
      ensures Shows(Apply(s, TryLock(tid))) && Inv(Apply(s, TryLock(tid)))
      ensures guard.None? <==> Owned(s, keyId)
      ensures guard.Some? ==> guard == Some(keyId) && Exclusive(Apply(s, TryLock(tid)), tid, keyId)
    {
      if keyId in lockedKeys {
        guard := None;
      } else {
        lockedKeys := lockedKeys + {keyId};
        guard := Some(keyId);
      }
      StepKeepsInv(s, TryLock(tid));
    }

    /** Dropping the guard of a thread that is done or gives up: then nobody owns the key id. */
    method Drop(guard: int, ghost s: State, ghost tid: int)
      requires Shows(s) && Inv(s) && GuardOf(PhaseOf(s, tid)) == Some(guard)
      modifies this
      ensures Shows(Leave(s, tid)) && Inv(Leave(s, tid)) && !Owned(Leave(s, tid), guard)
    {
      lockedKeys := lockedKeys - {guard};
      LeaveKeepsInv(s, tid);
    }
  }
}
