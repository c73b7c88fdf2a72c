/**
 * Per-operation authorization: an operation that needs its own auth token registers a receiver
 * under the challenge KeyMint gave it, and may advance once a token with that challenge arrived.
 *
 * Tokens arrive on other threads, which take the receiver out of the map and hand the token over
 * afterwards; operations are created, advanced and dropped at any time in between.
 */
module OperationAuth {
  import opened Tables

  datatype Hat = Hat(challenge: int, content: Bytes)

  type TimeStamp = Bytes

  type Tokens = (Option<Hat>, Option<TimeStamp>)

  /** AuthRequest: what a waiting operation has received so far. */
  datatype Request =
    | OpAuth(got: Option<Hat>)
    | TimeStamped(hat: Option<Hat>, reply: Option<Result<TimeStamp>>)

  /** DeferredAuthState. The operation owns its request, so that the request lives while it waits. */
  datatype Auth =
    | NoAuthRequired
    | OpAuthRequired
    | TimeStampRequired(hat: Hat)
    | Waiting(request: Request)
    | Cached(hat: Hat, tst: Option<TimeStamp>)

  // ---------- The map of receivers ----------

  /** The number of registrations between two cleanups. */
  const CLEANUP_PERIOD: nat := 25

  type Receivers = map<int, int>

  function Retained(receivers: Receivers, live: set<int>): Receivers {
    map c | c in receivers && receivers[c] in live :: receivers[c]
  }

  function AfterRegistration(receivers: Receivers, counter: nat, challenge: int, op: int, live: set<int>): (Receivers, nat)
    requires counter > 0
  {
    if counter == 1 then (Retained(receivers[challenge := op], live), CLEANUP_PERIOD + 1)
    else (receivers[challenge := op], counter - 1)
  }

  // ---------- AuthInfo::get_auth_tokens ----------

  /** Whether the call returns now; it blocks while the time stamp is outstanding. */
  predicate Returns(auth: Auth) {
    auth.Waiting? && auth.request.TimeStamped? && auth.request.hat.Some? ==> auth.request.reply.Some?
  }

  /** The state afterwards and the answer. The auth token is taken even if the time stamp then fails. */
  function GetAuthTokens(auth: Auth): (Auth, Result<Tokens>)
    requires Returns(auth)
  {
    match auth
    case NoAuthRequired => (auth, Ok((None, None)))
    case Cached(hat, tst) => (auth, Ok((Some(hat), tst)))
    case Waiting(OpAuth(got)) =>
      if got.None? then (auth, Err(KeyUserNotAuthenticated)) else (Cached(got.value, None), Ok((got, None)))
    case Waiting(TimeStamped(hat, reply)) =>
      if hat.None? then (auth, Err(KeyUserNotAuthenticated))
      else if reply.value.Err? then (Waiting(TimeStamped(None, reply)), Err(reply.value.error))
      else (Cached(hat.value, Some(reply.value.value)), Ok((hat, Some(reply.value.value))))
    case OpAuthRequired => (auth, Err(KeyUserNotAuthenticated))
    case TimeStampRequired(_) => (auth, Err(KeyUserNotAuthenticated))
  }

  // ---------- Operations, tokens and the map together ----------

  /** A token that arrived, and the operation whose receiver it met. */
  datatype Arrival = Arrival(hat: Hat, target: Option<int>)

  /** Under which challenge an operation registered, and how many tokens had arrived before. */
  datatype Registration = Registration(challenge: int, since: nat)

  datatype State = State(
    ops: map<int, Auth>, receivers: Receivers, counter: nat,
    inFlight: seq<(int, Hat)>,          // taken out of the map, not yet handed over
    used: set<int>,                     // every operation there ever was
    arrived: seq<Arrival>, reg: map<int, Registration>,
    latest: map<int, int>)              // the last operation to register each challenge

  datatype Step =
    | Create(op: int, auth: Auth)
    | Finalize(op: int, challenge: int)
    | Arrive(hat: Hat)
    | HandOver(k: nat)
    | Reply(op: int, reply: Result<TimeStamp>)
    | Get(op: int, answer: Result<Tokens>)
    | Drop(op: int)

  function Init(): State {
    State(map[], map[], CLEANUP_PERIOD + 1, [], {}, [], map[], map[])
  }

  /** The operations whose request can be upgraded from a receiver's weak reference. */
  function WaitingOps(ops: map<int, Auth>): set<int> {
    set op | op in ops && ops[op].Waiting?
  }

  /** finalize_create_authorization */
  function Finalized(s: State, op: int, challenge: int): State
    requires op in s.ops && s.counter > 0
  {
    match s.ops[op]
    case OpAuthRequired =>
      var ops := s.ops[op := Waiting(OpAuth(None))];
      var (receivers, counter) := AfterRegistration(s.receivers, s.counter, challenge, op, WaitingOps(ops));
      s.(ops := ops, receivers := receivers, counter := counter,
         reg := s.reg[op := Registration(challenge, |s.arrived|)], latest := s.latest[challenge := op])
    case TimeStampRequired(hat) => s.(ops := s.ops[op := Waiting(TimeStamped(Some(hat), None))])
    case _ => s
  }

  function Arrived(s: State, hat: Hat): State {
    if hat.challenge in s.receivers then
      var op := s.receivers[hat.challenge];
      s.(receivers := s.receivers - {hat.challenge}, inFlight := s.inFlight + [(op, hat)],
         arrived := s.arrived + [Arrival(hat, Some(op))])
    else s.(arrived := s.arrived + [Arrival(hat, None)])
  }

  /** The request takes the token if it still exists. */
  function HandedOver(s: State, k: nat): State
    requires k < |s.inFlight|
  {
    var (op, hat) := s.inFlight[k];
    var rest := s.(inFlight := s.inFlight[..k] + s.inFlight[k + 1..]);
    if op in s.ops && s.ops[op].Waiting? && s.ops[op].request.OpAuth?
    then rest.(ops := s.ops[op := Waiting(OpAuth(Some(hat)))]) else rest
  }

  ghost predicate Next(s: State, step: Step, t: State) {
    match step
    case Create(op, auth) =>
      && op !in s.used && (auth.NoAuthRequired? || auth.OpAuthRequired? || auth.TimeStampRequired?)
      && t == s.(ops := s.ops[op := auth], used := s.used + {op})
    case Finalize(op, challenge) => op in s.ops && s.counter > 0 && t == Finalized(s, op, challenge)
    case Arrive(hat) => t == Arrived(s, hat)
    case HandOver(k) => k < |s.inFlight| && t == HandedOver(s, k)
    case Reply(op, reply) =>
      && op in s.ops && s.ops[op].Waiting? && s.ops[op].request.TimeStamped? && s.ops[op].request.reply.None?
      && t == s.(ops := s.ops[op := Waiting(TimeStamped(s.ops[op].request.hat, Some(reply)))])
    case Get(op, answer) =>
      && op in s.ops && Returns(s.ops[op]) && answer == GetAuthTokens(s.ops[op]).1
      && t == s.(ops := s.ops[op := GetAuthTokens(s.ops[op]).0])
    case Drop(op) => op in s.ops && t == s.(ops := s.ops - {op})
  }

  ghost predicate Run(states: seq<State>, steps: seq<Step>) {
    && |states| == |steps| + 1 && states[0] == Init()
    && forall i {:trigger steps[i]} :: 0 <= i < |steps| ==> Next(states[i], steps[i], states[i + 1])
  }

  // ---------- The invariant ----------

  ghost predicate Routed(arrived: seq<Arrival>, op: int, hat: Hat) {
    exists i :: 0 <= i < |arrived| && arrived[i] == Arrival(hat, Some(op))
  }

  ghost predicate Untouched(arrived: seq<Arrival>, op: int) {
    forall i :: 0 <= i < |arrived| ==> arrived[i].target != Some(op)
  }

  /** Tokens go to the operation that registered their challenge before they arrived, and one at most. */
  ghost predicate RoutingInv(arrived: seq<Arrival>, receivers: Receivers, reg: map<int, Registration>) {
    && (forall i :: 0 <= i < |arrived| && arrived[i].target.Some? ==>
         var op := arrived[i].target.value;
         op in reg && reg[op].challenge == arrived[i].hat.challenge && reg[op].since <= i)
    && (forall i :: 0 <= i < |arrived| && arrived[i].target.Some? ==> Untouched(arrived[..i], arrived[i].target.value))
    && (forall c :: c in receivers ==>
         receivers[c] in reg && reg[receivers[c]].challenge == c && Untouched(arrived, receivers[c]))
    && (forall op :: op in reg ==> reg[op].since <= |arrived|)
  }

  /** What a registered operation holds was routed to it. */
  ghost predicate Holds(arrived: seq<Arrival>, registered: bool, op: int, auth: Auth) {
    && (registered <==> (auth.Waiting? && auth.request.OpAuth?) || (auth.Cached? && auth.tst.None?))
    && (registered && auth.Cached? ==> Routed(arrived, op, auth.hat))
    && (registered && auth.Waiting? && auth.request.got.Some? ==> Routed(arrived, op, auth.request.got.value))
  }

  ghost predicate InFlightInv(arrived: seq<Arrival>, inFlight: seq<(int, Hat)>) {
    forall k :: 0 <= k < |inFlight| ==> Routed(arrived, inFlight[k].0, inFlight[k].1)
  }

  ghost predicate HoldingInv(s: State) {
    && s.ops.Keys <= s.used && s.reg.Keys <= s.used
    && (forall op :: op in s.ops ==> Holds(s.arrived, op in s.reg, op, s.ops[op]))
  }

  ghost predicate OnItsWay(inFlight: seq<(int, Hat)>, op: int) {
    exists k :: 0 <= k < |inFlight| && inFlight[k].0 == op
  }

  ghost predicate Hopeful(s: State, op: int) {
    op in s.ops && s.ops[op] == Waiting(OpAuth(None))
  }

  /** The last operation to register a challenge is still in the map, or its token is on its way. */
  ghost predicate Reachable(s: State, op: int) {
    op in s.reg ==>
      var c := s.reg[op].challenge;
      c in s.latest && (s.latest[c] == op ==> (c in s.receivers && s.receivers[c] == op) || OnItsWay(s.inFlight, op))
  }

  /** No cleanup drops the receiver of an operation that still waits for its first token. */
  ghost predicate ReceiverInv(s: State) {
    && 1 <= s.counter <= CLEANUP_PERIOD + 1
    && (forall c :: c in s.receivers ==> c in s.latest && s.latest[c] == s.receivers[c])
    && forall op :: Hopeful(s, op) ==> Reachable(s, op)
  }

  ghost predicate Inv(s: State) {
    RoutingInv(s.arrived, s.receivers, s.reg) && InFlightInv(s.arrived, s.inFlight) && HoldingInv(s) && ReceiverInv(s)
  }

  // ---------- Preservation ----------

  lemma RegistrationKeepsRouting(s: State, op: int, challenge: int, t: State)
    requires Inv(s) && op in s.ops && s.ops[op].OpAuthRequired? && s.counter > 0 && t == Finalized(s, op, challenge)
    ensures RoutingInv(t.arrived, t.receivers, t.reg)
  {
    assert Holds(s.arrived, op in s.reg, op, s.ops[op]);
    assert op !in s.reg;
    assert Untouched(s.arrived, op);
    assert forall c :: c in t.receivers ==> (c == challenge && t.receivers[c] == op) || (c in s.receivers && t.receivers[c] == s.receivers[c]);
  }

  lemma RegistrationKeepsReceivers(s: State, op: int, challenge: int, t: State)
    requires Inv(s) && op in s.ops && s.ops[op].OpAuthRequired? && s.counter > 0 && t == Finalized(s, op, challenge)
    ensures ReceiverInv(t)
  {
    forall x | Hopeful(t, x) ensures Reachable(t, x) {
      assert x in WaitingOps(t.ops);
      if x != op {
        assert Hopeful(s, x) && Reachable(s, x);
      }
    }
  }

  lemma FinalizeKeepsInv(s: State, op: int, challenge: int, t: State)
    requires Inv(s) && op in s.ops && s.counter > 0 && t == Finalized(s, op, challenge)
    ensures Inv(t)
  {
    assert Holds(s.arrived, op in s.reg, op, s.ops[op]);
    if s.ops[op].OpAuthRequired? {
      RegistrationKeepsRouting(s, op, challenge, t);
      RegistrationKeepsReceivers(s, op, challenge, t);
    } else {
      assert forall x :: Hopeful(t, x) ==> Hopeful(s, x) && Reachable(s, x);
    }
  }

  lemma RoutedLater(arrived: seq<Arrival>, a: Arrival, op: int, hat: Hat)
    requires Routed(arrived, op, hat)
    ensures Routed(arrived + [a], op, hat)
  {
    var i :| 0 <= i < |arrived| && arrived[i] == Arrival(hat, Some(op));
    assert (arrived + [a])[i] == Arrival(hat, Some(op));
  }

  lemma ArrivalKeepsRouting(s: State, hat: Hat, t: State)
    requires Inv(s) && t == Arrived(s, hat)
    ensures RoutingInv(t.arrived, t.receivers, t.reg)
  {
    var n := |s.arrived|;
    assert t.arrived[..n] == s.arrived;
    assert forall i :: 0 <= i < n ==> t.arrived[i] == s.arrived[i] && t.arrived[..i] == s.arrived[..i];
  }

  lemma ArrivalKeepsHolding(s: State, hat: Hat, t: State)
    requires Inv(s) && t == Arrived(s, hat)
    ensures InFlightInv(t.arrived, t.inFlight) && HoldingInv(t)
  {
    var a := t.arrived[|s.arrived|];
    assert t.arrived == s.arrived + [a];
    forall op, h | Routed(s.arrived, op, h) ensures Routed(t.arrived, op, h) { RoutedLater(s.arrived, a, op, h); }
    assert hat.challenge in s.receivers ==> Routed(t.arrived, s.receivers[hat.challenge], hat);
    forall op | op in t.ops ensures Holds(t.arrived, op in t.reg, op, t.ops[op]) {
      assert Holds(s.arrived, op in s.reg, op, s.ops[op]);
    }
  }

  lemma ArrivalKeepsReceivers(s: State, hat: Hat, t: State)
    requires Inv(s) && t == Arrived(s, hat)
    ensures ReceiverInv(t)
  {
    forall x | Hopeful(t, x) ensures Reachable(t, x) {
      assert Hopeful(s, x) && Reachable(s, x);
      if OnItsWay(s.inFlight, x) {
        var k :| 0 <= k < |s.inFlight| && s.inFlight[k].0 == x;
        assert t.inFlight[k].0 == x;
      } else if hat.challenge in s.receivers {
        assert t.inFlight[|s.inFlight|].0 == s.receivers[hat.challenge];
      }
    }
  }

  lemma HandOverKeepsHolding(s: State, k: nat, t: State)
    requires Inv(s) && k < |s.inFlight| && t == HandedOver(s, k)
    ensures InFlightInv(t.arrived, t.inFlight) && HoldingInv(t)
  {
    var (op, hat) := s.inFlight[k];
    assert Routed(s.arrived, op, hat);
    assert forall j :: 0 <= j < |t.inFlight| ==> t.inFlight[j] == s.inFlight[if j < k then j else j + 1];
    forall x | x in t.ops ensures Holds(t.arrived, x in t.reg, x, t.ops[x]) {
      assert Holds(s.arrived, x in s.reg, x, s.ops[x]);
    }
  }

  lemma HandOverKeepsReceivers(s: State, k: nat, t: State)
    requires Inv(s) && k < |s.inFlight| && t == HandedOver(s, k)
    ensures ReceiverInv(t)
  {
    var (op, hat) := s.inFlight[k];
    forall x | Hopeful(t, x) ensures Reachable(t, x) {
      assert Hopeful(s, x) && Reachable(s, x);
      if OnItsWay(s.inFlight, x) {
        var j :| 0 <= j < |s.inFlight| && s.inFlight[j].0 == x;
        assert j != k;
        assert t.inFlight[if j < k then j else j - 1].0 == x;
      }
    }
  }

  lemma HandOverKeepsInv(s: State, k: nat, t: State)
    requires Inv(s) && k < |s.inFlight| && t == HandedOver(s, k)
    ensures Inv(t)
  {
    HandOverKeepsHolding(s, k, t);
    HandOverKeepsReceivers(s, k, t);
  }

  /** One operation is created, replaced or dropped, and nothing else changes. */
  ghost predicate OnlyOps(s: State, op: int, t: State) {
    && t == s.(ops := t.ops, used := t.used) && s.used <= t.used && t.ops.Keys <= t.used
    && (forall x :: x in t.ops && x != op ==> x in s.ops && t.ops[x] == s.ops[x])
    && (op in t.ops ==> Holds(t.arrived, op in t.reg, op, t.ops[op]))
    && (Hopeful(t, op) ==> op !in t.reg || Hopeful(s, op))
  }

  lemma OnlyOpsKeepsInv(s: State, op: int, t: State)
    requires Inv(s) && OnlyOps(s, op, t)
    ensures Inv(t)
  {
    forall x | x in t.ops ensures Holds(t.arrived, x in t.reg, x, t.ops[x]) {
      assert x != op ==> Holds(s.arrived, x in s.reg, x, s.ops[x]);
    }
    forall x | Hopeful(t, x) ensures Reachable(t, x) {
      assert x in t.reg ==> Hopeful(s, x) && Reachable(s, x);
    }
  }

  lemma OpStepIsOnlyOps(s: State, step: Step, t: State)
    requires Inv(s) && Next(s, step, t) && (step.Create? || step.Reply? || step.Get? || step.Drop?)
    ensures OnlyOps(s, step.op, t)
  {
    if step.op in s.ops {
      assert Holds(s.arrived, step.op in s.reg, step.op, s.ops[step.op]);
    }
  }

  lemma StepKeepsInv(s: State, step: Step, t: State)
    requires Inv(s) && Next(s, step, t)
    ensures Inv(t)
  {
    match step
    case Finalize(op, challenge) => FinalizeKeepsInv(s, op, challenge, t);
    case Arrive(hat) =>
      ArrivalKeepsRouting(s, hat, t);
      ArrivalKeepsHolding(s, hat, t);
      ArrivalKeepsReceivers(s, hat, t);
    case HandOver(k) => HandOverKeepsInv(s, k, t);
    case _ =>
      OpStepIsOnlyOps(s, step, t);
      OnlyOpsKeepsInv(s, step.op, t);
  }

  lemma {:induction false} EveryStateInv(states: seq<State>, steps: seq<Step>, n: nat)
    requires Run(states, steps) && n < |states|
    ensures Inv(states[n])
  {
    if n > 0 {
      EveryStateInv(states, steps, n - 1);
      StepKeepsInv(states[n - 1], steps[n - 1], states[n]);
    }
  }

  // ---------- What follows for whole runs ----------

  /**
   * An operation that registered for its own token passes only with a token that carries its
   * challenge, arrived after the registration and was routed to this operation and to no other.
   */
  lemma PassesOnlyWithItsToken(states: seq<State>, steps: seq<Step>, n: nat, op: int, tokens: Tokens) returns (i: nat)
    requires Run(states, steps) && n < |steps| && op in states[n].reg && steps[n] == Get(op, Ok(tokens))
    ensures tokens.0.Some? && tokens.1.None?
    ensures i < |states[n].arrived| && states[n].arrived[i] == Arrival(tokens.0.value, Some(op))
    ensures tokens.0.value.challenge == states[n].reg[op].challenge && states[n].reg[op].since <= i
    ensures forall j :: 0 <= j < |states[n].arrived| && j != i ==> states[n].arrived[j].target != Some(op)
  {
    EveryStateInv(states, steps, n);
    var s := states[n];
    assert Next(s, steps[n], states[n + 1]);
    assert Holds(s.arrived, op in s.reg, op, s.ops[op]);
    assert Routed(s.arrived, op, tokens.0.value);
    i :| 0 <= i < |s.arrived| && s.arrived[i] == Arrival(tokens.0.value, Some(op));
    forall j | 0 <= j < |s.arrived| && j != i ensures s.arrived[j].target != Some(op) {
      assert i < j ==> s.arrived[..j][i] == s.arrived[i];
      assert j < i ==> s.arrived[..i][j] == s.arrived[j];
    }
  }

  /**
   * A token that arrives for the challenge of a waiting operation goes to that operation exactly if
   * it was the last one to register the challenge and no earlier token is on its way to it. So no
   * cleanup, whenever it happens, costs the last registrant its token.
   */
  lemma TokenReachesLatest(states: seq<State>, steps: seq<Step>, n: nat, hat: Hat, op: int)
    requires Run(states, steps) && n < |steps| && steps[n] == Arrive(hat)
    requires Hopeful(states[n], op) && op in states[n].reg && states[n].reg[op].challenge == hat.challenge
    ensures hat.challenge in states[n].latest
    ensures states[n + 1].arrived[|states[n].arrived|].target == Some(op) <==>
      !OnItsWay(states[n].inFlight, op) && states[n].latest[hat.challenge] == op
    ensures OnItsWay(states[n + 1].inFlight, op) <==> OnItsWay(states[n].inFlight, op) || states[n].latest[hat.challenge] == op
  {
    EveryStateInv(states, steps, n);
    var s, t := states[n], states[n + 1];
    assert Next(s, steps[n], t);
    assert Reachable(s, op);
    if hat.challenge in s.receivers {
      assert t.inFlight[|s.inFlight|].0 == s.receivers[hat.challenge];
      assert forall k :: 0 <= k < |s.inFlight| ==> t.inFlight[k] == s.inFlight[k];
    }
  }

  // ---------- An operation whose challenge was registered again ----------

  lemma RunGrows(states: seq<State>, steps: seq<Step>, step: Step, t: State)
    requires Run(states, steps) && Next(states[|steps|], step, t)
    ensures Run(states + [t], steps + [step])
  {
    var more, taken := states + [t], steps + [step];
    assert forall i :: 0 <= i < |states| ==> more[i] == states[i];
    forall i | 0 <= i < |taken| ensures Next(more[i], taken[i], more[i + 1]) {
      if i < |steps| { assert taken[i] == steps[i]; }
    }
  }

  /** One more operation that needs a token of its own is created and registers a challenge. */
  lemma Registers(states0: seq<State>, steps0: seq<Step>, op: int, challenge: int) returns (states: seq<State>, steps: seq<Step>)
    requires Run(states0, steps0) && op !in states0[|steps0|].used && states0[|steps0|].counter > 1
    ensures Run(states, steps)
    ensures var s, t := states0[|steps0|], states[|steps|];
      && t.ops == s.ops[op := Waiting(OpAuth(None))] && t.receivers == s.receivers[challenge := op] && t.counter == s.counter - 1
      && t.inFlight == s.inFlight && t.used == s.used + {op} && t.latest == s.latest[challenge := op]
  {
    var s := states0[|steps0|];
    var a := s.(ops := s.ops[op := OpAuthRequired], used := s.used + {op});
    RunGrows(states0, steps0, Create(op, OpAuthRequired), a);
    states, steps := states0 + [a], steps0 + [Create(op, OpAuthRequired)];
    var b := Finalized(a, op, challenge);
    assert b.ops == s.ops[op := Waiting(OpAuth(None))];
    RunGrows(states, steps, Finalize(op, challenge), b);
    states, steps := states + [b], steps + [Finalize(op, challenge)];
  }

  /**
   * Two operations register the same challenge. The token goes to the second one; the first one is
   * refused, although a token with its challenge arrived after it registered.
   */
  lemma OverwrittenIsRefused(hat: Hat) returns (states: seq<State>, steps: seq<Step>, n: nat)
    ensures Run(states, steps) && n + 4 == |steps| && steps[n] == Arrive(hat)
    ensures Hopeful(states[n], 1) && Hopeful(states[n], 2)
    ensures steps[n + 2] == Get(1, Err(KeyUserNotAuthenticated)) && steps[n + 3] == Get(2, Ok((Some(hat), None)))
  {
    states, steps := [Init()], [];
    states, steps := Registers(states, steps, 1, hat.challenge);
    states, steps := Registers(states, steps, 2, hat.challenge);
    n := |steps|;
    var s := states[n];
    var a := Arrived(s, hat);
    RunGrows(states, steps, Arrive(hat), a);
    states, steps := states + [a], steps + [Arrive(hat)];
    var b := HandedOver(a, 0);
    assert a.inFlight == [(2, hat)];
    RunGrows(states, steps, HandOver(0), b);
    states, steps := states + [b], steps + [HandOver(0)];
    assert b.ops[1] == Waiting(OpAuth(None)) && b.ops[2] == Waiting(OpAuth(Some(hat)));
    var c := b.(ops := b.ops[1 := GetAuthTokens(b.ops[1]).0]);
    RunGrows(states, steps, Get(1, Err(KeyUserNotAuthenticated)), c);
    states, steps := states + [c], steps + [Get(1, Err(KeyUserNotAuthenticated))];
    assert c.ops[2] == Waiting(OpAuth(Some(hat)));
    var d := c.(ops := c.ops[2 := GetAuthTokens(c.ops[2]).0]);
    RunGrows(states, steps, Get(2, Ok((Some(hat), None))), d);
    states, steps := states + [d], steps + [Get(2, Ok((Some(hat), None)))];
  }

  lemma CachedStays(s: State, step: Step, t: State, op: int)
    requires Inv(s) && Next(s, step, t) && op in s.used && (op in s.ops ==> s.ops[op].Cached?)
    ensures op in t.used && (op in t.ops ==> op in s.ops && t.ops[op] == s.ops[op])
  {
  }

  /** An operation that holds its tokens keeps them until it is dropped, and does not come back then. */
  ghost predicate CachedIn(s: State, op: int, auth: Auth) {
    op in s.used && (op in s.ops ==> s.ops[op] == auth)
  }

  lemma {:induction false} CachedOverRun(states: seq<State>, i: nat, j: nat, op: int, auth: Auth)
    requires i <= j < |states| && CachedIn(states[i], op, auth)
    requires forall n :: 0 <= n && n + 1 < |states| ==> CachedIn(states[n], op, auth) ==> CachedIn(states[n + 1], op, auth)
    ensures CachedIn(states[j], op, auth)
    decreases j
  {
    if i < j {
      CachedOverRun(states, i, j - 1, op, auth);
      assert CachedIn(states[j - 1], op, auth) ==> CachedIn(states[j - 1 + 1], op, auth);
    }
  }

  /** Once an operation has passed with a token, it passes with the same tokens ever after. */
  lemma KeepsPassing(states: seq<State>, steps: seq<Step>, i: nat, j: nat, op: int, tokens: Tokens, answer: Result<Tokens>)
    requires Run(states, steps) && i < j < |steps| && tokens.0.Some?
    requires steps[i] == Get(op, Ok(tokens)) && steps[j] == Get(op, answer)
    ensures answer == Ok(tokens)
  {
    var auth := Cached(tokens.0.value, tokens.1);
    forall n | 0 <= n && n + 1 < |states| && CachedIn(states[n], op, auth) ensures CachedIn(states[n + 1], op, auth) {
      EveryStateInv(states, steps, n);
      CachedStays(states[n], steps[n], states[n + 1], op);
    }
    EveryStateInv(states, steps, i);
    EveryStateInv(states, steps, i + 1);
    GetCaches(states[i], op, tokens, states[i + 1]);
    CachedOverRun(states, i + 1, j, op, auth);
    assert Next(states[j], steps[j], states[j + 1]);
  }

  lemma GetCaches(s: State, op: int, tokens: Tokens, t: State)
    requires Inv(s) && Next(s, Get(op, Ok(tokens)), t) && tokens.0.Some?
    ensures CachedIn(t, op, Cached(tokens.0.value, tokens.1))
  {
  }

  // ---------- What each operation is answered ----------

  /** The operation was finalized after step `c` and before step `n`. */
  ghost predicate WasFinalized(steps: seq<Step>, op: int, c: int, n: int)
    requires 0 <= c < n <= |steps|
    decreases n
  {
    n > c + 1 && ((steps[n - 1].Finalize? && steps[n - 1].op == op) || WasFinalized(steps, op, c, n - 1))
  }

  /** The reply to its request for a time stamp, if one came in between. */
  ghost function ReplyTo(steps: seq<Step>, op: int, c: int, n: int): Option<Result<TimeStamp>>
    requires 0 <= c < n <= |steps|
    decreases n
  {
    if n == c + 1 then None
    else if steps[n - 1].Reply? && steps[n - 1].op == op then Some(steps[n - 1].reply)
    else ReplyTo(steps, op, c, n - 1)
  }

  /** Whether it asked for its tokens after the reply had come. */
  ghost predicate AskedSince(steps: seq<Step>, op: int, c: int, n: int)
    requires 0 <= c < n <= |steps|
    decreases n
  {
    n > c + 1 && ((steps[n - 1].Get? && steps[n - 1].op == op && ReplyTo(steps, op, c, n - 1).Some?) || AskedSince(steps, op, c, n - 1))
  }

  lemma {:induction false} AskedMeansReplied(steps: seq<Step>, op: int, c: int, n: int)
    requires 0 <= c < n <= |steps|
    ensures AskedSince(steps, op, c, n) ==> ReplyTo(steps, op, c, n).Some?
    decreases n
  {
    if n > c + 1 {
      AskedMeansReplied(steps, op, c, n - 1);
    }
  }

  /** What an operation that needs a time stamp has come to, told from what happened to it since it was created. */
  ghost predicate Awaits(auth: Auth, hat: Hat, steps: seq<Step>, op: int, c: int, n: int)
    requires 0 <= c < n <= |steps|
  {
    if !WasFinalized(steps, op, c, n) then auth == TimeStampRequired(hat) && ReplyTo(steps, op, c, n).None? else
    match ReplyTo(steps, op, c, n)
    case None => auth == Waiting(TimeStamped(Some(hat), None))
    case Some(Ok(t)) => auth == Waiting(TimeStamped(Some(hat), Some(Ok(t)))) || auth == Cached(hat, Some(t))
    case Some(Err(e)) => auth == Waiting(TimeStamped(if AskedSince(steps, op, c, n) then None else Some(hat), Some(Err(e))))
  }

  lemma StepAwaits(s: State, steps: seq<Step>, t: State, op: int, hat: Hat, c: nat, n: nat)
    requires c < n < |steps| && Next(s, steps[n], t) && op in s.used && op in t.ops
    requires op in s.ops && Awaits(s.ops[op], hat, steps, op, c, n)
    ensures Awaits(t.ops[op], hat, steps, op, c, n + 1)
  {
    AskedMeansReplied(steps, op, c, n);
  }

  lemma NotCreatedAgain(s: State, step: Step, t: State, op: int)
    requires Inv(s) && Next(s, step, t) && op in s.used
    ensures op in t.used && (op in t.ops ==> op in s.ops)
  {
  }

  lemma {:induction false} StaysUsed(states: seq<State>, steps: seq<Step>, op: int, c: nat, n: nat)
    requires Run(states, steps) && c < n < |states| && steps[c].Create? && steps[c].op == op
    ensures op in states[n].used
    decreases n
  {
    assert Next(states[n - 1], steps[n - 1], states[n]);
    if c + 1 < n {
      StaysUsed(states, steps, op, c, n - 1);
    }
  }

  /** An operation that is there after a step, and was created before it, was there before it. */
  lemma WasThere(states: seq<State>, steps: seq<Step>, op: int, c: nat, n: nat)
    requires Run(states, steps) && c < n < |steps| && steps[c].Create? && steps[c].op == op && op in states[n + 1].ops
    ensures Inv(states[n]) && Next(states[n], steps[n], states[n + 1]) && op in states[n].used && op in states[n].ops
  {
    EveryStateInv(states, steps, n);
    StaysUsed(states, steps, op, c, n);
    NotCreatedAgain(states[n], steps[n], states[n + 1], op);
  }

  lemma Created(states: seq<State>, steps: seq<Step>, op: int, c: nat)
    requires Run(states, steps) && c < |steps| && steps[c].Create? && steps[c].op == op
    ensures op in states[c + 1].ops && states[c + 1].ops[op] == steps[c].auth
  {
    assert Next(states[c], steps[c], states[c + 1]);
  }

  lemma {:induction false} AwaitsOverRun(states: seq<State>, steps: seq<Step>, op: int, hat: Hat, c: nat, n: nat)
    requires Run(states, steps) && c < n < |states| && steps[c] == Create(op, TimeStampRequired(hat)) && op in states[n].ops
    ensures Awaits(states[n].ops[op], hat, steps, op, c, n)
    decreases n
  {
    if c + 1 < n {
      WasThere(states, steps, op, c, n - 1);
      AwaitsOverRun(states, steps, op, hat, c, n - 1);
      StepAwaits(states[n - 1], steps, states[n], op, hat, c, n - 1);
    } else {
      Created(states, steps, op, c);
    }
  }

  /**
   * What an operation that needs a time stamp for its token is answered: before it is finalized it is
   * refused. Then it is answered once the reply is there: with its token and the time stamp of the
   * reply, every time; or with the error of the reply, once, and after that it is refused for good.
   */
  lemma TimeStampedAnswers(states: seq<State>, steps: seq<Step>, op: int, hat: Hat, c: nat, n: nat, answer: Result<Tokens>)
    requires Run(states, steps) && c < n < |steps| && steps[c] == Create(op, TimeStampRequired(hat)) && steps[n] == Get(op, answer)
    ensures var reply := ReplyTo(steps, op, c, n);
      && (reply.Some? <==> WasFinalized(steps, op, c, n))
      && answer == match reply
         case None => Err(KeyUserNotAuthenticated)
         case Some(Ok(t)) => Ok((Some(hat), Some(t)))
         case Some(Err(e)) => Err(if AskedSince(steps, op, c, n) then KeyUserNotAuthenticated else e)
  {
    assert Next(states[n], steps[n], states[n + 1]);
    AwaitsOverRun(states, steps, op, hat, c, n);
  }

  // ---------- Operations with a token of their own, and with none ----------

  ghost predicate HandsTo(s: State, step: Step, op: int, hat: Hat) {
    step.HandOver? && step.k < |s.inFlight| && s.inFlight[step.k] == (op, hat)
  }

  /** The token that was handed over to the operation after step `c` and before step `n`. */
  ghost function HandedTo(states: seq<State>, steps: seq<Step>, op: int, c: int, n: int): Option<Hat>
    requires 0 <= c < n <= |steps| && |states| == |steps| + 1
    decreases n
  {
    if n == c + 1 then None else
    var s, step := states[n - 1], steps[n - 1];
    if step.HandOver? && step.k < |s.inFlight| && s.inFlight[step.k].0 == op then Some(s.inFlight[step.k].1)
    else HandedTo(states, steps, op, c, n - 1)
  }

  /** What an operation that needs its own token has come to. */
  ghost predicate AwaitsToken(auth: Auth, states: seq<State>, steps: seq<Step>, op: int, c: int, n: int)
    requires 0 <= c < n <= |steps| && |states| == |steps| + 1
  {
    if !WasFinalized(steps, op, c, n) then auth == OpAuthRequired && HandedTo(states, steps, op, c, n).None? else
    match HandedTo(states, steps, op, c, n)
    case None => auth == Waiting(OpAuth(None))
    case Some(hat) => auth == Waiting(OpAuth(Some(hat))) || auth == Cached(hat, None)
  }

  /** Only one token is ever routed to an operation. */
  lemma RoutedUnique(s: State, op: int, x: Hat, y: Hat)
    requires Inv(s) && Routed(s.arrived, op, x) && Routed(s.arrived, op, y)
    ensures x == y
  {
    var i :| 0 <= i < |s.arrived| && s.arrived[i] == Arrival(x, Some(op));
    var j :| 0 <= j < |s.arrived| && s.arrived[j] == Arrival(y, Some(op));
    forall k | 0 <= k < i ensures s.arrived[k].target != Some(op) { assert s.arrived[..i][k] == s.arrived[k]; }
    forall k | 0 <= k < j ensures s.arrived[k].target != Some(op) { assert s.arrived[..j][k] == s.arrived[k]; }
  }

  lemma HandedIsRegistered(s: State, step: Step, op: int, hat: Hat)
    requires Inv(s) && HandsTo(s, step, op, hat)
    ensures op in s.reg && Routed(s.arrived, op, hat)
  {
    var i :| 0 <= i < |s.arrived| && s.arrived[i] == Arrival(hat, Some(op));
  }

  /** A hand-over changes the operation only as a first token would. */
  lemma HandOverAwaits(s: State, k: nat, op: int, hat: Hat, held: Option<Hat>)
    requires Inv(s) && k < |s.inFlight| && s.inFlight[k] == (op, hat) && op in s.ops
    requires if held.None? then s.ops[op] == Waiting(OpAuth(None)) || s.ops[op] == OpAuthRequired
             else s.ops[op] == Waiting(OpAuth(held)) || s.ops[op] == Cached(held.value, None)
    ensures s.ops[op] != OpAuthRequired && (held.Some? ==> held.value == hat)
    ensures HandedOver(s, k).ops[op] == Waiting(OpAuth(Some(hat))) || HandedOver(s, k).ops[op] == Cached(hat, None)
  {
    HandedIsRegistered(s, HandOver(k), op, hat);
    assert Holds(s.arrived, op in s.reg, op, s.ops[op]);
    if held.Some? {
      RoutedUnique(s, op, held.value, hat);
    }
  }

  lemma StepAwaitsToken(states: seq<State>, steps: seq<Step>, op: int, c: nat, n: nat)
    requires c < n < |steps| && |states| == |steps| + 1 && Inv(states[n]) && Next(states[n], steps[n], states[n + 1])
    requires op in states[n].ops && op in states[n + 1].ops && op in states[n].used && AwaitsToken(states[n].ops[op], states, steps, op, c, n)
    ensures AwaitsToken(states[n + 1].ops[op], states, steps, op, c, n + 1)
  {
    var s, step := states[n], steps[n];
    if step.HandOver? && s.inFlight[step.k].0 == op {
      HandOverAwaits(s, step.k, op, s.inFlight[step.k].1, HandedTo(states, steps, op, c, n));
    }
  }

  lemma {:induction false} AwaitsTokenOverRun(states: seq<State>, steps: seq<Step>, op: int, c: nat, n: nat)
    requires Run(states, steps) && c < n < |states| && steps[c] == Create(op, OpAuthRequired) && op in states[n].ops
    ensures AwaitsToken(states[n].ops[op], states, steps, op, c, n)
    decreases n
  {
    if c + 1 < n {
      WasThere(states, steps, op, c, n - 1);
      AwaitsTokenOverRun(states, steps, op, c, n - 1);
      StepAwaitsToken(states, steps, op, c, n - 1);
    } else {
      Created(states, steps, op, c);
    }
  }

  /**
   * What an operation that needs its own token is answered: with the token that was handed over to
   * it, every time, and until then it is refused. None is handed over before it is finalized.
   */
  lemma TokenAnswers(states: seq<State>, steps: seq<Step>, op: int, c: nat, n: nat, answer: Result<Tokens>)
    requires Run(states, steps) && c < n < |steps| && steps[c] == Create(op, OpAuthRequired) && steps[n] == Get(op, answer)
    ensures var token := HandedTo(states, steps, op, c, n);
      && (token.Some? ==> WasFinalized(steps, op, c, n))
      && answer == if token.Some? then Ok((token, None)) else Err(KeyUserNotAuthenticated)
  {
    assert Next(states[n], steps[n], states[n + 1]);
    AwaitsTokenOverRun(states, steps, op, c, n);
  }

  lemma {:induction false} StaysWithout(states: seq<State>, steps: seq<Step>, op: int, c: nat, n: nat)
    requires Run(states, steps) && c < n < |states| && steps[c] == Create(op, NoAuthRequired) && op in states[n].ops
    ensures states[n].ops[op] == NoAuthRequired
    decreases n
  {
    if c + 1 < n {
      WasThere(states, steps, op, c, n - 1);
      StaysWithout(states, steps, op, c, n - 1);
    } else {
      Created(states, steps, op, c);
    }
  }

  /** An operation that needs no authorization passes every time, with no token. */
  lemma PassesWithoutToken(states: seq<State>, steps: seq<Step>, op: int, c: nat, n: nat, answer: Result<Tokens>)
    requires Run(states, steps) && c < n < |steps| && steps[c] == Create(op, NoAuthRequired) && steps[n] == Get(op, answer)
    ensures answer == Ok((None, None))
  {
    assert Next(states[n], steps[n], states[n + 1]);
    StaysWithout(states, steps, op, c, n);
  }

  // ---------- The map is cleaned up ----------

  predicate AddsReceiver(s: State, step: Step) {
    step.Finalize? && step.op in s.ops && s.ops[step.op].OpAuthRequired?
  }

  /** How many of the steps register a receiver. */
  ghost function Registrations(states: seq<State>, steps: seq<Step>, a: nat, b: nat): nat
    requires a <= b <= |steps| && |states| == |steps| + 1
  {
    if a == b then 0 else Registrations(states, steps, a, b - 1) + if AddsReceiver(states[b - 1], steps[b - 1]) then 1 else 0
  }

  /** Every receiver belongs to an operation that waits. */
  ghost predicate OnlyWaiting(s: State) {
    forall c :: c in s.receivers ==> s.receivers[c] in s.ops && s.ops[s.receivers[c]].Waiting?
  }

  ghost predicate CleanedUp(states: seq<State>, a: int, b: int)
    requires 0 <= a <= b < |states|
  {
    exists k :: a < k <= b && OnlyWaiting(states[k])
  }

  lemma StepCountsDown(s: State, step: Step, t: State)
    requires Inv(s) && Next(s, step, t)
    ensures OnlyWaiting(t) || t.counter == s.counter - if AddsReceiver(s, step) then 1 else 0
  {
  }

  lemma {:induction false} CountsDown(states: seq<State>, steps: seq<Step>, a: nat, b: nat)
    requires Run(states, steps) && a <= b < |states|
    ensures CleanedUp(states, a, b) || states[b].counter + Registrations(states, steps, a, b) == states[a].counter
    decreases b
  {
    if a < b {
      CountsDown(states, steps, a, b - 1);
      EveryStateInv(states, steps, b - 1);
      StepCountsDown(states[b - 1], steps[b - 1], states[b]);
      if CleanedUp(states, a, b - 1) {
        var k :| a < k <= b - 1 && OnlyWaiting(states[k]);
      }
    }
  }

  /** Among any 26 registrations there is a cleanup, after which no receiver is left of an operation that is gone or done. */
  lemma CleanedUpInTime(states: seq<State>, steps: seq<Step>, a: nat, b: nat)
    requires Run(states, steps) && a <= b < |states| && Registrations(states, steps, a, b) >= 26
    ensures CleanedUp(states, a, b)
  {
    CountsDown(states, steps, a, b);
    EveryStateInv(states, steps, a);
    EveryStateInv(states, steps, b);
  }

  // ---------- The map as it works ----------

  class TokenReceiverMap {
    var receivers: Receivers
    var cleanupCounter: nat

    /** The map and its counter, as part of a state; the counter is a byte that must not be decremented from zero. */
    ghost predicate Shows(s: State)
      reads this
    {
      receivers == s.receivers && cleanupCounter == s.counter
    }

    constructor ()
      ensures Shows(Init())
    {
      receivers, cleanupCounter := map[], CLEANUP_PERIOD + 1;
    }

    /** The critical section of add_auth_token: the operation that the token is routed to, if any. */
    method AddAuthToken(hat: Hat, ghost s: State) returns (op: Option<int>)
      requires Shows(s) && Inv(s)
      modifies this
      ensures Shows(Arrived(s, hat)) && Inv(Arrived(s, hat)) && Arrived(s, hat).arrived == s.arrived + [Arrival(hat, op)]
      ensures op.Some? ==>
        && op.value in s.reg && s.reg[op.value].challenge == hat.challenge && Untouched(s.arrived, op.value)
        && hat.challenge in s.latest && s.latest[hat.challenge] == op.value
    {
      op := if hat.challenge in receivers then Some(receivers[hat.challenge]) else None;
      receivers := receivers - {hat.challenge};
      StepKeepsInv(s, Arrive(hat), Arrived(s, hat));
    }

    /** add_receiver for an operation that finalizes its creation; `live` holds the operations whose request exists. */
    method AddReceiver(challenge: int, op: int, live: set<int>, ghost s: State)
      requires Shows(s) && Inv(s) && op in s.ops && s.ops[op].OpAuthRequired? && live == WaitingOps(s.ops[op := Waiting(OpAuth(None))])
      modifies this
      ensures Shows(Finalized(s, op, challenge)) && Inv(Finalized(s, op, challenge)) && receivers[challenge] == op
    {
      receivers := receivers[challenge := op];
      cleanupCounter := cleanupCounter - 1;
      if cleanupCounter == 0 {
        receivers := map c | c in receivers && receivers[c] in live :: receivers[c];
        cleanupCounter := CLEANUP_PERIOD + 1;
      }
      StepKeepsInv(s, Finalize(op, challenge), Finalized(s, op, challenge));
      assert op in live;
    }
  }
}
