/**
 * Which authentication key of a credential is used next: among the certified keys that have not
 * expired the one that was used least, as long as it was not used too often.
 */
module AuthKeys {
  import opened Tables
  import opened Credential

  predicate Expired(key: AuthKey, now: int) {
    now > key.expiration
  }

  predicate Eligible(key: AuthKey, now: int, allowExpired: bool) {
    key.certificate != [] && (allowExpired || !Expired(key, now))
  }

  /** The first eligible key of those with the least use count. */
  ghost predicate LeastUsed(keys: seq<AuthKey>, now: int, allowExpired: bool, c: int) {
    && 0 <= c < |keys| && Eligible(keys[c], now, allowExpired)
    && (forall i :: 0 <= i < |keys| && Eligible(keys[i], now, allowExpired) ==> keys[c].useCount <= keys[i].useCount)
    && (forall i :: 0 <= i < c && Eligible(keys[i], now, allowExpired) ==> keys[c].useCount < keys[i].useCount)
  }

  ghost predicate NoneEligible(keys: seq<AuthKey>, now: int, allowExpired: bool) {
    forall i :: 0 <= i < |keys| ==> !Eligible(keys[i], now, allowExpired)
  }

  /** What findAuthKey_ may return. */
  ghost predicate Finds(keys: seq<AuthKey>, maxUses: int, now: int, allowExhausted: bool, allowExpired: bool, r: Option<nat>) {
    match r
    case Some(c) => LeastUsed(keys, now, allowExpired, c) && (keys[c].useCount < maxUses || allowExhausted)
    case None =>
      || NoneEligible(keys, now, allowExpired)
      || (!allowExhausted && forall i :: 0 <= i < |keys| && Eligible(keys[i], now, allowExpired) ==> keys[i].useCount >= maxUses)
  }

  /** The same with a clock that may not fit into 64 bits in milliseconds. */
  ghost predicate FindsAt(keys: seq<AuthKey>, maxUses: int, now: Option<int>, allowExhausted: bool, allowExpired: bool, r: Option<nat>) {
    if now.None? then r.None? else Finds(keys, maxUses, now.value, allowExhausted, allowExpired, r)
  }

  /** There is one answer. */
  lemma FindsUnique(keys: seq<AuthKey>, maxUses: int, now: int, allowExhausted: bool, allowExpired: bool, a: Option<nat>, b: Option<nat>)
    requires Finds(keys, maxUses, now, allowExhausted, allowExpired, a) && Finds(keys, maxUses, now, allowExhausted, allowExpired, b)
    ensures a == b
  {
  }

  method FindAuthKey(keys: seq<AuthKey>, maxUses: int, now: Option<int>, allowExhausted: bool, allowExpired: bool) returns (r: Option<nat>)
    ensures FindsAt(keys, maxUses, now, allowExhausted, allowExpired, r)
    ensures now.Some? && r.Some? ==>
      && r.value < |keys| && keys[r.value].certificate != [] && (allowExpired || now.value <= keys[r.value].expiration)
      && (allowExhausted || keys[r.value].useCount < maxUses)
      && (forall i :: 0 <= i < |keys| && keys[i].certificate != [] && (allowExpired || now.value <= keys[i].expiration) ==>
           keys[r.value].useCount <= keys[i].useCount)
    ensures now.Some? && r.None? ==>
      forall i :: 0 <= i < |keys| && keys[i].certificate != [] && (allowExpired || now.value <= keys[i].expiration) ==>
        !allowExhausted && keys[i].useCount >= maxUses
  {
    if now.None? {
      return None;
    }
    var candidate: Option<nat> := None;
    for i := 0 to |keys|
      invariant candidate.None? ==> forall j :: 0 <= j < i ==> !Eligible(keys[j], now.value, allowExpired)
      invariant candidate.Some? ==> LeastUsed(keys[..i], now.value, allowExpired, candidate.value)
    {
      assert keys[..i + 1] == keys[..i] + [keys[i]];
      if Expired(keys[i], now.value) && !allowExpired {
        continue;
      }
      if keys[i].certificate != [] {
        if candidate.None? || keys[i].useCount < keys[candidate.value].useCount {
          candidate := Some(i);
        }
      }
    }
    assert keys[..|keys|] == keys;
    if candidate.None? {
      return None;
    }
    if keys[candidate.value].useCount >= maxUses && !allowExhausted {
      return None;
    }
    return candidate;
  }

  /** selectAuthKey: an expired key is taken only if there is no other one to take. */
  ghost predicate Selects(keys: seq<AuthKey>, maxUses: int, now: int, allowExhausted: bool, allowExpired: bool, r: Option<nat>) {
    || (r.Some? && Finds(keys, maxUses, now, allowExhausted, false, r))
    || (Finds(keys, maxUses, now, allowExhausted, false, None)
        && (if allowExpired then Finds(keys, maxUses, now, allowExhausted, true, r) else r.None?))
  }

  function Used(keys: seq<AuthKey>, c: int): seq<AuthKey>
    requires 0 <= c < |keys|
  {
    keys[c := keys[c].(useCount := ToInt32(keys[c].useCount + 1))]
  }

  // ---------- Fair use ----------

  function CountEligible(keys: seq<AuthKey>, now: int): nat {
    if keys == [] then 0 else CountEligible(keys[..|keys| - 1], now) + if Eligible(keys[|keys| - 1], now, false) then 1 else 0
  }

  /** How often the eligible keys may still be used altogether. */
  function Room(keys: seq<AuthKey>, now: int, maxUses: int): int {
    if keys == [] then 0
    else Room(keys[..|keys| - 1], now, maxUses) + if Eligible(keys[|keys| - 1], now, false) then maxUses - keys[|keys| - 1].useCount else 0
  }

  lemma {:induction false} FreshRoom(keys: seq<AuthKey>, now: int, maxUses: int)
    requires forall i :: 0 <= i < |keys| ==> keys[i].useCount == 0
    ensures Room(keys, now, maxUses) == maxUses * CountEligible(keys, now)
  {
    if keys != [] {
      var front := keys[..|keys| - 1];
      FreshRoom(front, now, maxUses);
      var n := CountEligible(front, now);
      assert maxUses * (n + 1) == maxUses * n + maxUses;
    }
  }

  lemma {:induction false} RoomShrinks(keys: seq<AuthKey>, now: int, maxUses: int, c: int)
    requires 0 <= c < |keys| && Eligible(keys[c], now, false) && keys[c].useCount + 1 < TWO_31
    ensures Room(Used(keys, c), now, maxUses) == Room(keys, now, maxUses) - 1
  {
    NarrowStays(keys[c].useCount + 1);
    var n := |keys| - 1;
    var after := Used(keys, c);
    if c == n {
      assert after[..n] == keys[..n];
    } else {
      assert after[..n] == Used(keys[..n], c);
      RoomShrinks(keys[..n], now, maxUses, c);
    }
  }

  /** There is room exactly as long as some eligible key is below the limit. */
  lemma {:induction false} RoomExactly(keys: seq<AuthKey>, now: int, maxUses: int)
    requires forall i :: 0 <= i < |keys| && Eligible(keys[i], now, false) ==> keys[i].useCount <= maxUses
    ensures Room(keys, now, maxUses) >= 0
    ensures Room(keys, now, maxUses) == 0 <==>
      forall i :: 0 <= i < |keys| && Eligible(keys[i], now, false) ==> keys[i].useCount >= maxUses
  {
    if keys != [] {
      var front := keys[..|keys| - 1];
      assert forall i :: 0 <= i < |front| ==> front[i] == keys[i];
      RoomExactly(front, now, maxUses);
    }
  }

  /** No eligible key was used too often, or twice more often than another one. */
  ghost predicate Fair(keys: seq<AuthKey>, now: int, maxUses: int) {
    && (forall i :: 0 <= i < |keys| && Eligible(keys[i], now, false) ==> 0 <= keys[i].useCount <= maxUses)
    && (forall i, j :: 0 <= i < |keys| && 0 <= j < |keys| && Eligible(keys[i], now, false) && Eligible(keys[j], now, false) ==>
         keys[i].useCount <= keys[j].useCount + 1)
  }

  lemma UseIsFair(keys: seq<AuthKey>, now: int, maxUses: Int32, c: nat)
    requires Fair(keys, now, maxUses) && LeastUsed(keys, now, false, c) && keys[c].useCount < maxUses
    ensures Fair(Used(keys, c), now, maxUses)
  {
    NarrowStays(keys[c].useCount + 1);
    var after := Used(keys, c);
    assert forall i :: 0 <= i < |keys| ==> Eligible(after[i], now, false) == Eligible(keys[i], now, false);
    assert forall i :: 0 <= i < |keys| && i != c ==> after[i] == keys[i];
  }

  lemma SelectionIsFair(keys: seq<AuthKey>, now: int, maxUses: Int32, r: Option<nat>)
    requires Fair(keys, now, maxUses) && Selects(keys, maxUses, now, false, false, r)
    ensures r.Some? <==> Room(keys, now, maxUses) > 0
    ensures r.Some? ==> r.value < |keys| && Fair(Used(keys, r.value), now, maxUses)
    ensures r.Some? ==> Room(Used(keys, r.value), now, maxUses) == Room(keys, now, maxUses) - 1
  {
    RoomExactly(keys, now, maxUses);
    if r.Some? {
      UseIsFair(keys, now, maxUses, r.value);
      RoomShrinks(keys, now, maxUses, r.value);
    }
  }

  /** Consecutive selections that count, with neither exhausted nor expired keys allowed. */
  ghost predicate SelectionRun(states: seq<seq<AuthKey>>, nows: seq<int>, picks: seq<Option<nat>>, maxUses: Int32) {
    && |states| == |picks| + 1 && |nows| == |picks|
    && forall t :: 0 <= t < |picks| ==>
         && Selects(states[t], maxUses, nows[t], false, false, picks[t])
         && (picks[t].Some? ==> picks[t].value < |states[t]|)
         && states[t + 1] == if picks[t].Some? then Used(states[t], picks[t].value) else states[t]
  }

  /** No key expires while the run lasts. */
  ghost predicate NothingExpires(keys: seq<AuthKey>, nows: seq<int>, now: int) {
    forall t, i :: 0 <= t < |nows| && 0 <= i < |keys| ==> (Expired(keys[i], nows[t]) <==> Expired(keys[i], now))
  }

  ghost predicate SameButUses(a: seq<AuthKey>, b: seq<AuthKey>) {
    |a| == |b| && forall i :: 0 <= i < |a| ==> a[i].certificate == b[i].certificate && a[i].expiration == b[i].expiration
  }

  lemma EligibleAlike(keys: seq<AuthKey>, maxUses: int, a: int, b: int, r: Option<nat>)
    requires forall i :: 0 <= i < |keys| ==> (Expired(keys[i], a) <==> Expired(keys[i], b))
    requires Selects(keys, maxUses, a, false, false, r)
    ensures Selects(keys, maxUses, b, false, false, r)
  {
    assert forall i :: 0 <= i < |keys| ==> Eligible(keys[i], a, false) == Eligible(keys[i], b, false);
  }

  /** One selection of a run, seen from the time the run began. */
  lemma StepOfRun(first: seq<AuthKey>, s: seq<AuthKey>, maxUses: Int32, now: int, later: int, r: Option<nat>)
    requires SameButUses(first, s) && Fair(s, now, maxUses) && Selects(s, maxUses, later, false, false, r)
    requires forall i :: 0 <= i < |first| ==> (Expired(first[i], later) <==> Expired(first[i], now))
    ensures r.Some? <==> Room(s, now, maxUses) > 0
    ensures r.Some? ==> r.value < |s|
    ensures var t := if r.Some? then Used(s, r.value) else s;
      && SameButUses(first, t) && Fair(t, now, maxUses)
      && Room(t, now, maxUses) == Room(s, now, maxUses) - if r.Some? then 1 else 0
  {
    EligibleAlike(s, maxUses, later, now, r);
    SelectionIsFair(s, now, maxUses, r);
  }

  lemma {:induction false} RunIsFair(states: seq<seq<AuthKey>>, nows: seq<int>, picks: seq<Option<nat>>, maxUses: Int32, now: int, t: nat)
    requires SelectionRun(states, nows, picks, maxUses) && NothingExpires(states[0], nows, now) && maxUses >= 0
    requires forall i :: 0 <= i < |states[0]| ==> states[0][i].useCount == 0
    requires t < |states|
    ensures Fair(states[t], now, maxUses) && SameButUses(states[0], states[t])
    ensures var total := maxUses * CountEligible(states[0], now);
      Room(states[t], now, maxUses) == if t < total then total - t else 0
  {
    if t == 0 {
      FreshRoom(states[0], now, maxUses);
      RoomExactly(states[0], now, maxUses);
    } else {
      RunIsFair(states, nows, picks, maxUses, now, t - 1);
      RoomExactly(states[t - 1], now, maxUses);
      StepOfRun(states[0], states[t - 1], maxUses, now, nows[t - 1], picks[t - 1]);
    }
  }

  /**
   * Of fresh keys, n of which are eligible, selections succeed exactly n times the limit; at every
   * point no two eligible keys differ by more than one use and none exceeds the limit.
   */
  lemma FairUse(states: seq<seq<AuthKey>>, nows: seq<int>, picks: seq<Option<nat>>, maxUses: Int32, now: int, t: nat)
    requires SelectionRun(states, nows, picks, maxUses) && NothingExpires(states[0], nows, now) && maxUses >= 0
    requires forall i :: 0 <= i < |states[0]| ==> states[0][i].useCount == 0
    requires t < |picks|
    ensures picks[t].Some? <==> t < maxUses * CountEligible(states[0], now)
    ensures Fair(states[t + 1], now, maxUses)
  {
    RunIsFair(states, nows, picks, maxUses, now, t);
    StepOfRun(states[0], states[t], maxUses, now, nows[t], picks[t]);
  }
}
