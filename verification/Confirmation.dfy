/**
 * Android Protected Confirmation: one prompt at a time, and clients whose prompts are declined, or
 * who abort them, have to wait longer and longer before they may show another one.
 */
module Confirmation {
  import opened Tables

  /** Time is counted in nanoseconds. */
  const SECOND: nat := 1_000_000_000

  const ONE_DAY: nat := 60 * 60 * 24

  datatype ResponseCode = OkCode | Cancelled | Aborted | OtherCode(code: int)

  datatype ApcError = Pending | CoolingDown | Unimplemented | Hal(code: ResponseCode) | Ignored

  datatype RateInfo = RateInfo(counter: nat, timestamp: nat)

  datatype Session = Session(client: int, uid: int, start: nat, clientAborted: bool)

  datatype HalAnswer = Missing | Refuses(code: ResponseCode) | Accepts

  // ---------- Back-off ----------

  function Pow2(n: nat): (p: nat)
    ensures p > 0
  {
    if n == 0 then 1 else 2 * Pow2(n - 1)
  }

  /** The seconds a client with this many failed attempts has to let pass since its last one began. */
  function BackOff(counter: nat): nat {
    if counter <= 2 then 0
    else if counter <= 5 then 30
    else if counter <= 16 then 60 * Pow2(counter - 6)
    else ONE_DAY
  }

  /** get_remaining_back_off: a client whose time is exactly up still has to wait, for no time at all. */
  function RemainingBackOff(info: RateInfo, now: nat): Option<nat>
    requires info.timestamp <= now
  {
    var elapsed := now - info.timestamp;
    if info.counter <= 2 then None
    else if elapsed <= BackOff(info.counter) * SECOND then Some(BackOff(info.counter) * SECOND - elapsed)
    else None
  }

  lemma {:induction false} Pow2Grows(i: nat, j: nat)
    requires i <= j
    ensures Pow2(i) <= Pow2(j)
    decreases j
  {
    if i < j {
      Pow2Grows(i, j - 1);
    }
  }

  /** The first two failures are free, the third to fifth cost half a minute, the sixth a minute. */
  lemma BackOffBegins(i: nat)
    ensures i <= 2 ==> BackOff(i) == 0
    ensures 3 <= i <= 5 ==> BackOff(i) == 30
    ensures i == 6 ==> BackOff(i) == 60
  {
  }

  /** The penalty never shrinks, doubles from the sixth attempt to the sixteenth, and stops at a day. */
  lemma BackOffGrows(i: nat, j: nat)
    requires i <= j
    ensures BackOff(i) <= BackOff(j) <= ONE_DAY
    ensures 6 <= i < 16 ==> BackOff(i + 1) == 2 * BackOff(i)
    ensures BackOff(16) == 60 * 1024 < ONE_DAY && (j >= 17 <==> BackOff(j) == ONE_DAY)
  {
    assert Pow2(10) == 1024 by {
      assert Pow2(3) == 8;
      assert Pow2(6) == 64;
      assert Pow2(9) == 512;
    }
    if 6 <= i <= 16 {
      Pow2Grows(i - 6, 10);
      Pow2Grows(0, i - 6);
    }
    if 6 <= j <= 16 {
      Pow2Grows(j - 6, 10);
      Pow2Grows(0, j - 6);
      if 6 <= i {
        Pow2Grows(i - 6, j - 6);
      }
    }
  }

  // ---------- The service ----------

  datatype State = State(
    now: nat, session: Option<Session>, rates: map<int, RateInfo>, sent: seq<Bytes>,
    shown: nat, ended: nat,            // prompts the HAL accepted, and those it reported the end of
    failed: map<int, seq<nat>>)        // when the failed attempts since the last success began, by uid

  function FailedBy(s: State, uid: int): seq<nat> {
    if uid in s.failed then s.failed[uid] else []
  }

  function Present(s: State, uid: int, client: int, hal: HalAnswer): (State, Outcome)
    requires uid in s.rates ==> s.rates[uid].timestamp <= s.now
  {
    if s.session.Some? then (s, Fails(Pending))
    else if uid in s.rates && RemainingBackOff(s.rates[uid], s.now).Some? then (s, Fails(CoolingDown))
    else match hal
      case Missing => (s, Fails(Unimplemented))
      case Refuses(code) => (s, Fails(Hal(code)))
      case Accepts => (s.(session := Some(Session(client, uid, s.now, false)), shown := s.shown + 1), Done)
  }

  datatype Outcome = Done | Fails(error: ApcError)

  function Cancel(s: State, client: int): (State, Outcome) {
    if s.session.None? || s.session.value.client != client then (s, Fails(Ignored))
    else (s.(session := Some(s.session.value.(clientAborted := true))), Done)
  }

  predicate Penalized(code: ResponseCode, clientAborted: bool) {
    code == Cancelled || (code == Aborted && clientAborted)
  }

  /** result: the session ends; success clears the client's record, and failures extend it. */
  function Ended(s: State, code: ResponseCode, token: Option<Bytes>): State {
    if s.session.None? then s else
      var session := s.session.value;
      var t := s.(session := None, ended := s.ended + 1);
      if code == OkCode && token.Some? then
        t.(rates := s.rates - {session.uid}, sent := s.sent + [token.value], failed := s.failed - {session.uid})
      else if Penalized(code, session.clientAborted) then
        var counter := if session.uid in s.rates then s.rates[session.uid].counter else 0;
        t.(rates := s.rates[session.uid := RateInfo(counter + 1, session.start)],
           failed := s.failed[session.uid := FailedBy(s, session.uid) + [session.start]])
      else t
  }

  datatype Step =
    | Tick(nanos: nat)
    | PresentPrompt(uid: int, client: int, hal: HalAnswer)
    | CancelPrompt(client: int)
    | PromptEnds(code: ResponseCode, token: Option<Bytes>)

  /** The HAL reports the end of a prompt that it showed, and does so once. */
  ghost predicate Next(s: State, step: Step, t: State) {
    match step
    case Tick(nanos) => t == s.(now := s.now + nanos)
    case PresentPrompt(uid, client, hal) =>
      (uid in s.rates ==> s.rates[uid].timestamp <= s.now) && t == Present(s, uid, client, hal).0
    case CancelPrompt(client) => t == Cancel(s, client).0
    case PromptEnds(code, token) => s.ended < s.shown && t == Ended(s, code, token)
  }

  function Init(): State {
    State(0, None, map[], [], 0, 0, map[])
  }

  ghost predicate Run(states: seq<State>, steps: seq<Step>) {
    && |states| == |steps| + 1 && states[0] == Init()
    && forall i {:trigger steps[i]} :: 0 <= i < |steps| ==> Next(states[i], steps[i], states[i + 1])
  }

  // ---------- What every step keeps ----------

  /** Attempt number `i`, made after `i` failures, began later than the one before by more than the back-off. */
  ghost predicate Spaced(starts: seq<nat>) {
    forall i :: 1 <= i < |starts| ==> Follows(starts[i - 1], i, starts[i])
  }

  predicate Follows(previous: nat, failures: nat, start: nat) {
    previous <= start && (failures >= 3 ==> start > previous + BackOff(failures) * SECOND)
  }

  /** The record of a client agrees with its history, and so does an open session. */
  ghost predicate RecordOk(s: State, uid: int) {
    var starts := FailedBy(s, uid);
    && Spaced(starts)
    && (uid in s.rates <==> starts != [])
    && (starts != [] ==>
         s.rates[uid] == RateInfo(|starts|, starts[|starts| - 1]) && starts[|starts| - 1] <= s.now)
    && (s.session.Some? && s.session.value.uid == uid && starts != [] ==>
         Follows(starts[|starts| - 1], |starts|, s.session.value.start))
  }

  ghost predicate Inv(s: State) {
    && s.shown == s.ended + (if s.session.Some? then 1 else 0)
    && (s.session.Some? ==> s.session.value.start <= s.now)
    && (forall uid :: RecordOk(s, uid))
  }

  lemma EndKeepsRecord(s: State, code: ResponseCode, token: Option<Bytes>, uid: int)
    requires Inv(s)
    ensures RecordOk(Ended(s, code, token), uid)
  {
    var t := Ended(s, code, token);
    assert RecordOk(s, uid);
    if s.session.Some? && s.session.value.uid == uid && FailedBy(t, uid) != FailedBy(s, uid) && FailedBy(t, uid) != [] {
      var starts := FailedBy(s, uid);
      assert FailedBy(t, uid) == starts + [s.session.value.start];
    }
  }

  lemma StepKeepsInv(s: State, step: Step, t: State)
    requires Inv(s) && Next(s, step, t)
    ensures Inv(t)
  {
    forall uid ensures RecordOk(t, uid) {
      assert RecordOk(s, uid);
      if step.PromptEnds? {
        EndKeepsRecord(s, step.code, step.token, uid);
      }
    }
  }

  lemma {:induction false} EveryStateInv(states: seq<State>, steps: seq<Step>, n: nat)
    requires Run(states, steps) && n < |states|
    ensures Inv(states[n])
  {
    if n > 0 {
      EveryStateInv(states, steps, n - 1);
      StepKeepsInv(states[n - 1], steps[n - 1], states[n]);
    }
  }

  // ---------- What follows for whole runs ----------

  /** No two prompts are on the screen at once. */
  lemma OnePromptAtATime(states: seq<State>, steps: seq<Step>, n: nat)
    requires Run(states, steps) && n < |states|
    ensures states[n].ended <= states[n].shown <= states[n].ended + 1
  {
    EveryStateInv(states, steps, n);
  }

  /** The least time `n` failures in a row take. */
  function Penance(n: nat): nat {
    if n <= 3 then 0 else Penance(n - 1) + BackOff(n - 1) * SECOND + 1
  }

  lemma {:induction false} SpacedSpan(starts: seq<nat>)
    requires Spaced(starts) && starts != []
    ensures starts[|starts| - 1] >= starts[0] + Penance(|starts|)
  {
    var n := |starts| - 1;
    if n > 0 {
      assert Spaced(starts[..n]) by {
        forall i | 1 <= i < n ensures Follows(starts[..n][i - 1], i, starts[..n][i]) {
          assert Follows(starts[i - 1], i, starts[i]);
        }
      }
      SpacedSpan(starts[..n]);
      assert Follows(starts[n - 1], n, starts[n]);
    }
  }

  /**
   * Whatever clients and users do, the failed attempts of a client since its last success are as
   * far apart as their number demands, and together take at least the sum of the back-offs.
   */
  lemma AttemptsAreSpaced(states: seq<State>, steps: seq<Step>, n: nat, uid: int)
    requires Run(states, steps) && n < |states|
    ensures Spaced(FailedBy(states[n], uid))
    ensures var starts := FailedBy(states[n], uid);
      starts != [] ==> states[n].now >= starts[|starts| - 1] >= starts[0] + Penance(|starts|)
  {
    EveryStateInv(states, steps, n);
    assert RecordOk(states[n], uid);
    if FailedBy(states[n], uid) != [] {
      SpacedSpan(FailedBy(states[n], uid));
    }
  }

  lemma {:induction false} PenanceIsLong(n: nat)
    requires n >= 17
    ensures Penance(n) >= (n - 17) * ONE_DAY * SECOND
  {
    if n > 17 {
      PenanceIsLong(n - 1);
      if n >= 18 {
        BackOffGrows(17, n - 1);
      }
    }
  }

  /** The 32-bit counter of failures cannot overflow in eleven million years. */
  lemma CounterFits(states: seq<State>, steps: seq<Step>, n: nat, uid: int)
    requires Run(states, steps) && n < |states| && uid in states[n].rates
    requires states[n].now < 11_000_000 * 365 * ONE_DAY * SECOND
    ensures states[n].rates[uid].counter < 0x1_0000_0000
  {
    EveryStateInv(states, steps, n);
    assert RecordOk(states[n], uid);
    AttemptsAreSpaced(states, steps, n, uid);
    var c := states[n].rates[uid].counter;
    if c >= 17 {
      PenanceIsLong(c);
    }
  }

  /** A client that may not show a prompt is told so, and the record of a success is clean. */
  lemma PromptAllowed(s: State, uid: int, client: int, hal: HalAnswer)
    requires Inv(s) && s.session.None?
    requires uid in s.rates ==> s.rates[uid].timestamp <= s.now
    ensures var starts := FailedBy(s, uid);
      Present(s, uid, client, hal).1 == Fails(CoolingDown) <==>
        |starts| >= 3 && s.now <= starts[|starts| - 1] + BackOff(|starts|) * SECOND
  {
    assert RecordOk(s, uid);
  }

  lemma SuccessClearsRecord(s: State, token: Bytes, uid: int)
    requires Inv(s)
    ensures var t := Ended(s, OkCode, Some(token));
      && FailedBy(t, uid) == (if s.session.Some? && s.session.value.uid == uid then [] else FailedBy(s, uid))
      && t.sent == (if s.session.Some? then s.sent + [token] else s.sent)
  {
    assert RecordOk(s, uid);
  }

  // ---------- From the showing of a prompt to its end ----------

  /** The step shows a prompt. */
  ghost predicate ShowsPrompt(s: State, step: Step, t: State, uid: int, client: int) {
    step == PresentPrompt(uid, client, Accepts) && t.shown == s.shown + 1
  }

  /**
   * A prompt is shown exactly if no other one is, the client need not wait, and the HAL accepts it;
   * otherwise nothing changes and the client is told what stood in the way.
   */
  lemma PromptOutcome(s: State, uid: int, client: int, hal: HalAnswer)
    requires Inv(s) && (uid in s.rates ==> s.rates[uid].timestamp <= s.now)
    ensures var (t, r) := Present(s, uid, client, hal); var starts := FailedBy(s, uid);
      var waits := |starts| >= 3 && s.now <= starts[|starts| - 1] + BackOff(|starts|) * SECOND;
      && (r == Done <==> s.session.None? && !waits && hal == Accepts)
      && (t.shown == s.shown + 1 <==> r == Done) && (r != Done ==> t == s)
      && (s.session.Some? ==> r == Fails(Pending))
      && (s.session.None? && !waits ==> (hal == Missing ==> r == Fails(Unimplemented)) && (hal.Refuses? ==> r == Fails(Hal(hal.code))))
  {
    assert RecordOk(s, uid);
    if s.session.None? {
      PromptAllowed(s, uid, client, hal);
    }
  }

  /** After step `p` and before step `n` no prompt ended. */
  ghost predicate NoneEnded(steps: seq<Step>, p: int, n: int)
    requires 0 <= p < n <= |steps|
  {
    forall i :: p < i < n ==> !steps[i].PromptEnds?
  }

  /** The client called for its own prompt to be taken away. */
  ghost predicate TookBack(steps: seq<Step>, client: int, p: int, n: int)
    requires 0 <= p < n <= |steps|
  {
    exists i :: p < i < n && steps[i] == CancelPrompt(client)
  }

  lemma {:induction false} OpenSession(states: seq<State>, steps: seq<Step>, p: nat, n: nat, uid: int, client: int)
    requires Run(states, steps) && p < n < |states| && ShowsPrompt(states[p], steps[p], states[p + 1], uid, client) && NoneEnded(steps, p, n)
    ensures states[n].session == Some(Session(client, uid, states[p].now, TookBack(steps, client, p, n)))
    decreases n
  {
    assert Next(states[n - 1], steps[n - 1], states[n]);
    if p + 1 < n {
      OpenSession(states, steps, p, n - 1, uid, client);
      assert steps[n - 1] == CancelPrompt(client) ==> TookBack(steps, client, p, n);
      if i :| p < i < n && steps[i] == CancelPrompt(client) {
        assert i < n - 1 ==> TookBack(steps, client, p, n - 1);
      }
    }
  }

  /**
   * What the end of a prompt means for its client: confirmed with a token it clears the record and the
   * token is sent; declined by the user, or aborted after the client took it back, it is one more
   * failed attempt, as of when it was shown; any other end counts for nothing. Nobody else's record
   * changes.
   */
  lemma EndOfPrompt(states: seq<State>, steps: seq<Step>, p: nat, n: nat, uid: int, client: int, code: ResponseCode, token: Option<Bytes>, who: int)
    requires Run(states, steps) && p < n < |steps| && ShowsPrompt(states[p], steps[p], states[p + 1], uid, client) && NoneEnded(steps, p, n)
    requires steps[n] == PromptEnds(code, token)
    ensures var before := FailedBy(states[n], who); var after := FailedBy(states[n + 1], who);
      after ==
        if who != uid then before
        else if code == OkCode && token.Some? then []
        else if code == Cancelled || (code == Aborted && TookBack(steps, client, p, n)) then before + [states[p].now]
        else before
    ensures states[n + 1].sent == if code == OkCode && token.Some? then states[n].sent + [token.value] else states[n].sent
    ensures states[n + 1].session.None?
  {
    OpenSession(states, steps, p, n, uid, client);
    assert Next(states[n], steps[n], states[n + 1]);
  }

  /** No other step touches a record or sends a token. */
  lemma OnlyEndsCount(s: State, step: Step, t: State)
    requires Next(s, step, t) && !step.PromptEnds?
    ensures t.failed == s.failed && t.rates == s.rates && t.sent == s.sent && t.ended == s.ended
  {
  }

  // ---------- The service as it works ----------

  class ApcManager {
    var session: Option<Session>
    var rateLimiting: map<int, RateInfo>
    var sent: seq<Bytes>

    ghost predicate Shows(s: State)
      reads this
    {
      s.session == session && s.rates == rateLimiting && s.sent == sent
    }

    constructor ()
      ensures Shows(Init())
    {
      session, rateLimiting, sent := None, map[], [];
    }

    method PresentPrompt(uid: int, client: int, hal: HalAnswer, now: nat, ghost s: State) returns (r: Outcome)
      requires Shows(s) && s.now == now && (uid in s.rates ==> s.rates[uid].timestamp <= now)
      modifies this
      ensures Shows(Present(s, uid, client, hal).0) && r == Present(s, uid, client, hal).1
    {
      if session.Some? {
        return Fails(Pending);
      }
      if uid in rateLimiting && RemainingBackOff(rateLimiting[uid], now).Some? {
        return Fails(CoolingDown);
      }
      match hal {
        case Missing => return Fails(Unimplemented);
        case Refuses(code) => return Fails(Hal(code));
        case Accepts =>
      }
      session := Some(Session(client, uid, now, false));
      r := Done;
    }

    method CancelPrompt(client: int, ghost s: State) returns (r: Outcome)
      requires Shows(s)
      modifies this
      ensures Shows(Cancel(s, client).0) && r == Cancel(s, client).1
    {
      if session.None? || session.value.client != client {
        return Fails(Ignored);
      }
      session := Some(session.value.(clientAborted := true));
      r := Done;
    }

    method OnResult(code: ResponseCode, token: Option<Bytes>, ghost s: State)
      requires Shows(s)
      modifies this
      ensures Shows(Ended(s, code, token))
    {
      if session.None? {
        return;
      }
      var ending := session.value;
      session := None;
      if code == OkCode && token.Some? {
        rateLimiting := rateLimiting - {ending.uid};
        sent := sent + [token.value];
      } else if code == Cancelled || (code == Aborted && ending.clientAborted) {
        var counter := if ending.uid in rateLimiting then rateLimiting[ending.uid].counter else 0;
        rateLimiting := rateLimiting[ending.uid := RateInfo(counter + 1, ending.start)];
      }
    }
  }
}
