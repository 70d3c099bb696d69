/** Completion of remote reads (hvac_comm_client.cpp): each caller blocks on a `done` flag, a result, a
    mutex and a condition variable in its own stack frame, and the response callback reaches them through
    pointers. Any number of requests are outstanding, callbacks interleave freely with everything,
    wake-ups may be spurious, and a frame's address is used again once its call has returned. With `timed`
    the wait gives up after a timeout, without it never. */
module Completion {

  type Addr = nat

  datatype Holder = Nobody | CallerOf(r: nat) | CallbackOf(r: nat)

  /** The variables of a stack frame. Those who sleep on its condition are found in the callers. */
  datatype Slot = Slot(done: bool, bytes: int, lock: Holder)

  datatype Caller =
    | Enter                   // the request is on its way; wants the mutex
    | Test                    // holds it, at the loop condition
    | Sleeping
    | Woken                   // wants the mutex back
    | Expired                 // the same, after a timeout
    | GiveUp                  // holds the mutex, will return -1
    | Fetch                   // holds it, saw `done`
    | Leave(result: int)      // holds it, has its result
    | Returned(result: int)

  datatype Callback =
    | Pending
    | Arrived(v: int)         // the response is v; stores it without the mutex
    | Wrote(v: int)           // wants the mutex
    | Locked(v: int)
    | DoneSet(v: int)
    | Signalled(v: int)
    | Finished(v: int)

  datatype Request = Request(addr: Addr, caller: Caller, callback: Callback, expired: bool)

  datatype State = State(memory: map<Addr, Slot>, requests: seq<Request>)

  datatype Action =
    | Issue(addr: Addr)
    | Respond(r: nat, v: int)
    | CallbackStep(r: nat)
    | CallerStep(r: nat)
    | SpuriousWake(r: nat)
    | TimeOut(r: nat)

  const INIT: State := State(map[], [])

  predicate Active(q: Request) {
    !q.caller.Returned?
  }

  // ---------------------------------------------------------------------------------------------
  // One request and its slot
  // ---------------------------------------------------------------------------------------------

  predicate CallerCan(q: Request, slot: Slot) {
    match q.caller
    case Enter => slot.lock == Nobody
    case Woken => slot.lock == Nobody
    case Expired => slot.lock == Nobody
    case Sleeping => false
    case Returned(_) => false
    case _ => true
  }

  function CallerNext(r: nat, q: Request, slot: Slot): (Request, Slot)
    requires CallerCan(q, slot)
  {
    match q.caller
    case Enter => (q.(caller := Test), slot.(lock := CallerOf(r)))
    case Woken => (q.(caller := Test), slot.(lock := CallerOf(r)))
    case Expired => (q.(caller := GiveUp), slot.(lock := CallerOf(r)))
    case Test => if slot.done then (q.(caller := Fetch), slot) else (q.(caller := Sleeping), slot.(lock := Nobody))
    case GiveUp => (q.(caller := Returned(-1)), slot.(lock := Nobody))
    case Fetch => (q.(caller := Leave(slot.bytes)), slot)
    case Leave(v) => (q.(caller := Returned(v)), slot.(lock := Nobody))
  }

  predicate CallbackCan(q: Request, slot: Slot) {
    match q.callback
    case Pending => false
    case Wrote(_) => slot.lock == Nobody
    case Finished(_) => false
    case _ => true
  }

  function CallbackNext(r: nat, q: Request, slot: Slot): (Request, Slot)
    requires CallbackCan(q, slot)
  {
    match q.callback
    case Arrived(v) => (q.(callback := Wrote(v)), slot.(bytes := v))
    case Wrote(v) => (q.(callback := Locked(v)), slot.(lock := CallbackOf(r)))
    case Locked(v) => (q.(callback := DoneSet(v)), slot.(done := true))
    case DoneSet(v) => (q.(callback := Signalled(v)), slot)
    case Signalled(v) => (q.(callback := Finished(v)), slot.(lock := Nobody))
  }

  // ---------------------------------------------------------------------------------------------
  // All of them
  // ---------------------------------------------------------------------------------------------

  predicate Known(s: State, r: nat) {
    r < |s.requests| && s.requests[r].addr in s.memory
  }

  ghost predicate Enabled(timed: bool, s: State, a: Action) {
    match a
    case Issue(addr) => forall r | 0 <= r < |s.requests| && Active(s.requests[r]) :: s.requests[r].addr != addr
    case Respond(r, _) => r < |s.requests| && s.requests[r].callback == Pending
    case CallbackStep(r) => Known(s, r) && CallbackCan(s.requests[r], s.memory[s.requests[r].addr])
    case CallerStep(r) => Known(s, r) && CallerCan(s.requests[r], s.memory[s.requests[r].addr])
    case SpuriousWake(r) => r < |s.requests| && s.requests[r].caller == Sleeping
    case TimeOut(r) => timed && r < |s.requests| && s.requests[r].caller == Sleeping
  }

  /** pthread_cond_signal on the condition at an address. */
  function Wake(requests: seq<Request>, addr: Addr): (out: seq<Request>)
    ensures |out| == |requests|
    ensures forall r | 0 <= r < |requests| :: (out[r] ==
      if requests[r].addr == addr && requests[r].caller == Sleeping then requests[r].(caller := Woken) else requests[r])
  {
    seq(|requests|, r requires 0 <= r < |requests| =>
      if requests[r].addr == addr && requests[r].caller == Sleeping then requests[r].(caller := Woken) else requests[r])
  }

  function Put(s: State, r: nat, next: (Request, Slot)): State
    requires r < |s.requests|
  {
    State(s.memory[s.requests[r].addr := next.1], s.requests[r := next.0])
  }

  ghost function Apply(timed: bool, s: State, a: Action): State
    requires Enabled(timed, s, a)
  {
    match a
    case Issue(addr) =>
      State(s.memory[addr := Slot(false, -1, Nobody)], s.requests + [Request(addr, Enter, Pending, false)])
    case Respond(r, v) => s.(requests := s.requests[r := s.requests[r].(callback := Arrived(v))])
    case CallbackStep(r) =>
      var s1 := Put(s, r, CallbackNext(r, s.requests[r], s.memory[s.requests[r].addr]));
      if s.requests[r].callback.DoneSet? then s1.(requests := Wake(s1.requests, s.requests[r].addr)) else s1
    case CallerStep(r) => Put(s, r, CallerNext(r, s.requests[r], s.memory[s.requests[r].addr]))
    case SpuriousWake(r) => s.(requests := s.requests[r := s.requests[r].(caller := Woken)])
    case TimeOut(r) => s.(requests := s.requests[r := s.requests[r].(caller := Expired, expired := true)])
  }

  /** A callback at work on a frame whose call has returned. */
  predicate Late(s: State, a: Action) {
    a.CallbackStep? && a.r < |s.requests| && !Active(s.requests[a.r])
  }

  // ---------------------------------------------------------------------------------------------
  // The invariant
  // ---------------------------------------------------------------------------------------------

  predicate CallerHolds(c: Caller) {
    c.Test? || c.GiveUp? || c.Fetch? || c.Leave?
  }

  predicate CallbackHolds(c: Callback) {
    c.Locked? || c.DoneSet? || c.Signalled?
  }

  /** A blocked caller's slot says exactly how far its own callback is. */
  predicate Good(r: nat, q: Request, slot: Slot) {
    && (slot.lock == Nobody || slot.lock == CallerOf(r) || slot.lock == CallbackOf(r))
    && (slot.lock == CallerOf(r) <==> CallerHolds(q.caller))
    && (slot.lock == CallbackOf(r) <==> CallbackHolds(q.callback))
    && (slot.done <==> q.callback.DoneSet? || q.callback.Signalled? || q.callback.Finished?)
    && (if q.callback.Pending? || q.callback.Arrived? then slot.bytes == -1 else slot.bytes == q.callback.v)
    && (q.caller == Sleeping && slot.done ==> q.callback.DoneSet?)
    && (q.caller.Fetch? ==> slot.done)
    && (q.caller.Leave? ==> q.callback == Finished(q.caller.result))
    && (q.expired <==> q.caller.Expired? || q.caller.GiveUp?)
  }

  /** A returned call has its own response, or -1 if it timed out. */
  predicate Settled(q: Request) {
    q.caller.Returned? ==> if q.expired then q.caller.result == -1 else q.callback == Finished(q.caller.result)
  }

  ghost predicate Alone(s: State) {
    forall r, r' | 0 <= r < r' < |s.requests| && Active(s.requests[r]) && Active(s.requests[r']) ::
      s.requests[r].addr != s.requests[r'].addr
  }

  ghost predicate Fine(s: State, r: nat)
    requires r < |s.requests|
  {
    && Known(s, r)
    && (Active(s.requests[r]) ==> Good(r, s.requests[r], s.memory[s.requests[r].addr]))
    && Settled(s.requests[r])
  }

  ghost predicate Inv(s: State) {
    Alone(s) && forall r: nat | r < |s.requests| :: Fine(s, r)
  }

  lemma CallerKeepsGood(r: nat, q: Request, slot: Slot)
    requires Good(r, q, slot) && Settled(q) && CallerCan(q, slot)
    ensures
      var next := CallerNext(r, q, slot);
      (Active(next.0) ==> Good(r, next.0, next.1)) && Settled(next.0)
  {
  }

  /** The request after its own callback's step, the signal included. */
  function Signalling(q: Request, next: Request): Request {
    if q.callback.DoneSet? && next.caller == Sleeping then next.(caller := Woken) else next
  }

  lemma CallbackKeepsGood(r: nat, q: Request, slot: Slot)
    requires Good(r, q, slot) && Settled(q) && CallbackCan(q, slot) && Active(q)
    ensures
      var next := CallbackNext(r, q, slot);
      Good(r, Signalling(q, next.0), next.1)
  {
  }

  /** Request r has moved on in its own slot; nobody else's request or slot has changed. */
  ghost predicate OnlyOwn(s: State, s': State, r: nat)
    requires r < |s.requests|
  {
    && |s'.requests| == |s.requests| && s'.requests[r].addr == s.requests[r].addr
    && (forall i | 0 <= i < |s.requests| && i != r :: s'.requests[i] == s.requests[i])
    && s.requests[r].addr in s'.memory
    && (forall x | x in s.memory && x != s.requests[r].addr :: x in s'.memory && s'.memory[x] == s.memory[x])
  }

  lemma OwnStepKeepsInv(s: State, s': State, r: nat)
    requires Inv(s) && r < |s.requests| && Active(s.requests[r]) && OnlyOwn(s, s', r)
    requires Active(s'.requests[r]) ==> Good(r, s'.requests[r], s'.memory[s.requests[r].addr])
    requires Settled(s'.requests[r])
    ensures Inv(s')
  {
    forall i: nat | i < |s'.requests| ensures Fine(s', i) {
      assert Fine(s, i);
    }
  }

  lemma CallbackIsOwn(timed: bool, s: State, r: nat)
    requires Inv(s) && Enabled(timed, s, CallbackStep(r)) && Active(s.requests[r])
    ensures
      var s' := Apply(timed, s, CallbackStep(r));
      var next := CallbackNext(r, s.requests[r], s.memory[s.requests[r].addr]);
      && OnlyOwn(s, s', r) && s'.memory[s.requests[r].addr] == next.1
      && s'.requests[r] == Signalling(s.requests[r], next.0)
  {
    forall i | 0 <= i < |s.requests| && i != r
      ensures !(s.requests[i].addr == s.requests[r].addr && s.requests[i].caller == Sleeping)
    {
    }
  }

  lemma IssueKeepsInv(timed: bool, s: State, addr: Addr)
    requires Inv(s) && Enabled(timed, s, Issue(addr))
    ensures Inv(Apply(timed, s, Issue(addr)))
  {
    var s' := Apply(timed, s, Issue(addr));
    forall i: nat | i < |s'.requests| ensures Fine(s', i) {
      assert i < |s.requests| ==> Fine(s, i) && s'.requests[i] == s.requests[i];
    }
  }

  lemma RespondKeepsInv(timed: bool, s: State, r: nat, v: int)
    requires Inv(s) && Enabled(timed, s, Respond(r, v))
    ensures Inv(Apply(timed, s, Respond(r, v)))
  {
    var s' := Apply(timed, s, Respond(r, v));
    forall i: nat | i < |s'.requests| ensures Fine(s', i) {
      assert Fine(s, i);
    }
  }

  lemma InvKept(timed: bool, s: State, a: Action)
    requires Inv(s) && Enabled(timed, s, a) && !Late(s, a)
    ensures Inv(Apply(timed, s, a))
  {
    match a
    case Issue(addr) => IssueKeepsInv(timed, s, addr);
    case Respond(r, v) => RespondKeepsInv(timed, s, r, v);
    case CallbackStep(r) =>
      assert Fine(s, r);
      CallbackKeepsGood(r, s.requests[r], s.memory[s.requests[r].addr]);
      CallbackIsOwn(timed, s, r);
      OwnStepKeepsInv(s, Apply(timed, s, a), r);
    case CallerStep(r) =>
      assert Fine(s, r);
      CallerKeepsGood(r, s.requests[r], s.memory[s.requests[r].addr]);
      OwnStepKeepsInv(s, Apply(timed, s, a), r);
    case SpuriousWake(r) =>
      assert Fine(s, r);
      OwnStepKeepsInv(s, Apply(timed, s, a), r);
    case TimeOut(r) =>
      assert Fine(s, r);
      OwnStepKeepsInv(s, Apply(timed, s, a), r);
  }

  // ---------------------------------------------------------------------------------------------
  // Runs
  // ---------------------------------------------------------------------------------------------

  ghost predicate IsRun(timed: bool, s: State, actions: seq<Action>)
    decreases |actions|
  {
    actions == [] || (Enabled(timed, s, actions[0]) && IsRun(timed, Apply(timed, s, actions[0]), actions[1..]))
  }

  ghost function After(timed: bool, s: State, actions: seq<Action>): State
    requires IsRun(timed, s, actions)
    decreases |actions|
  {
    if actions == [] then s else After(timed, Apply(timed, s, actions[0]), actions[1..])
  }

  /** No callback ever comes too late. */
  ghost predicate InTime(timed: bool, s: State, actions: seq<Action>)
    requires IsRun(timed, s, actions)
    decreases |actions|
  {
    actions == [] || (!Late(s, actions[0]) && InTime(timed, Apply(timed, s, actions[0]), actions[1..]))
  }

  /** Only a request that timed out can see its callback come too late. */
  lemma LateOnlyAfterTimeout(timed: bool, s: State, a: Action)
    requires Inv(s) && Enabled(timed, s, a) && Late(s, a)
    ensures s.requests[a.r].expired
  {
    assert Fine(s, a.r);
  }

  ghost predicate NoneExpired(s: State) {
    forall r | 0 <= r < |s.requests| :: !s.requests[r].expired
  }

  lemma NoneExpires(s: State, a: Action)
    requires NoneExpired(s) && Enabled(false, s, a)
    ensures NoneExpired(Apply(false, s, a))
  {
  }

  /** The untimed wait never sees a late callback. */
  lemma {:induction false} UntimedIsInTime(s: State, actions: seq<Action>)
    requires Inv(s) && NoneExpired(s) && IsRun(false, s, actions)
    ensures InTime(false, s, actions) && NoneExpired(After(false, s, actions))
    decreases |actions|
  {
    if actions != [] {
      if Late(s, actions[0]) {
        LateOnlyAfterTimeout(false, s, actions[0]);
      }
      InvKept(false, s, actions[0]);
      NoneExpires(s, actions[0]);
      UntimedIsInTime(Apply(false, s, actions[0]), actions[1..]);
    }
  }

  lemma {:induction false} InvAlways(timed: bool, s: State, actions: seq<Action>)
    requires Inv(s) && IsRun(timed, s, actions) && InTime(timed, s, actions)
    ensures Inv(After(timed, s, actions))
    decreases |actions|
  {
    if actions != [] {
      InvKept(timed, s, actions[0]);
      InvAlways(timed, Apply(timed, s, actions[0]), actions[1..]);
    }
  }

  /** No cross-talk with the untimed wait: over any run, a call that has returned has its own request's
      response, a callback about to touch a frame finds its own caller still blocked in it, and a caller
      asleep with `done` set is about to be signalled. */
  lemma EveryCallGetsItsOwnResponse(actions: seq<Action>, r: nat)
    requires IsRun(false, INIT, actions) && r < |After(false, INIT, actions).requests|
    ensures
      var s := After(false, INIT, actions);
      var q := s.requests[r];
      && Known(s, r)
      && (q.caller.Returned? ==> q.callback == Finished(q.caller.result))
      && (Enabled(false, s, CallbackStep(r)) ==> Active(q))
      && (q.caller == Sleeping && s.memory[q.addr].done ==>
            Enabled(false, s, CallbackStep(r)) && Apply(false, s, CallbackStep(r)).requests[r].caller == Woken)
  {
    UntimedIsInTime(INIT, actions);
    InvAlways(false, INIT, actions);
    assert Fine(After(false, INIT, actions), r);
  }

  /** Once its response is there, a request is never stuck: its caller or its callback can move. */
  lemma AnsweredRequestMoves(timed: bool, s: State, r: nat)
    requires Inv(s) && r < |s.requests| && Active(s.requests[r]) && s.requests[r].callback != Pending
    ensures Enabled(timed, s, CallerStep(r)) || Enabled(timed, s, CallbackStep(r))
  {
    assert Fine(s, r);
  }

  /** With the timed wait the same holds of any run without a late callback; a call that gave up has -1. */
  lemma TimedCallsInTime(actions: seq<Action>, r: nat)
    requires IsRun(true, INIT, actions) && InTime(true, INIT, actions)
    requires r < |After(true, INIT, actions).requests|
    ensures
      var q := After(true, INIT, actions).requests[r];
      q.caller.Returned? ==> q.callback == Finished(q.caller.result) || (q.expired && q.caller.result == -1)
  {
    InvAlways(true, INIT, actions);
    assert Fine(After(true, INIT, actions), r);
  }

  // ---------------------------------------------------------------------------------------------
  // A late callback
  // ---------------------------------------------------------------------------------------------

  lemma {:induction false} OneMoreStep(timed: bool, s: State, xs: seq<Action>, a: Action)
    requires IsRun(timed, s, xs) && Enabled(timed, After(timed, s, xs), a)
    ensures IsRun(timed, s, xs + [a]) && After(timed, s, xs + [a]) == Apply(timed, After(timed, s, xs), a)
    decreases |xs|
  {
    if xs == [] {
      assert [a][1..] == [];
    } else {
      assert (xs + [a])[1..] == xs[1..] + [a];
      OneMoreStep(timed, Apply(timed, s, xs[0]), xs[1..], a);
    }
  }

  function Frame(done: bool, bytes: int, lock: Holder): map<Addr, Slot> {
    map[0 := Slot(done, bytes, lock)]
  }

  lemma TimedOutOnce() returns (actions: seq<Action>)
    ensures IsRun(true, INIT, actions)
    ensures After(true, INIT, actions)
         == State(Frame(false, -1, Nobody), [Request(0, Returned(-1), Pending, true)])
  {
    actions := [Issue(0)];
    assert After(true, INIT, actions) == State(Frame(false, -1, Nobody), [Request(0, Enter, Pending, false)]);
    OneMoreStep(true, INIT, actions, CallerStep(0));
    actions := actions + [CallerStep(0)];
    assert After(true, INIT, actions) == State(Frame(false, -1, CallerOf(0)), [Request(0, Test, Pending, false)]);
    OneMoreStep(true, INIT, actions, CallerStep(0));
    actions := actions + [CallerStep(0)];
    assert After(true, INIT, actions) == State(Frame(false, -1, Nobody), [Request(0, Sleeping, Pending, false)]);
    OneMoreStep(true, INIT, actions, TimeOut(0));
    actions := actions + [TimeOut(0)];
    assert After(true, INIT, actions) == State(Frame(false, -1, Nobody), [Request(0, Expired, Pending, true)]);
    OneMoreStep(true, INIT, actions, CallerStep(0));
    actions := actions + [CallerStep(0)];
    assert After(true, INIT, actions) == State(Frame(false, -1, CallerOf(0)), [Request(0, GiveUp, Pending, true)]);
    OneMoreStep(true, INIT, actions, CallerStep(0));
    actions := actions + [CallerStep(0)];
  }

  /** The next call uses the same frame address, and the first request's response is stored in it. */
  lemma LateStore(v: int) returns (actions: seq<Action>)
    ensures IsRun(true, INIT, actions)
    ensures After(true, INIT, actions)
         == State(Frame(false, v, Nobody),
                  [Request(0, Returned(-1), Wrote(v), true), Request(0, Enter, Pending, false)])
  {
    var gone, next := Request(0, Returned(-1), Pending, true), Request(0, Enter, Pending, false);
    actions := TimedOutOnce();
    OneMoreStep(true, INIT, actions, Issue(0));
    actions := actions + [Issue(0)];
    assert After(true, INIT, actions) == State(Frame(false, -1, Nobody), [gone, next]);
    OneMoreStep(true, INIT, actions, Respond(0, v));
    actions := actions + [Respond(0, v)];
    assert After(true, INIT, actions) == State(Frame(false, -1, Nobody), [gone.(callback := Arrived(v)), next]);
    OneMoreStep(true, INIT, actions, CallbackStep(0));
    actions := actions + [CallbackStep(0)];
  }

  lemma LateDone(v: int) returns (actions: seq<Action>)
    ensures IsRun(true, INIT, actions)
    ensures After(true, INIT, actions) == State(Frame(true, v, CallbackOf(0)),
              [Request(0, Returned(-1), DoneSet(v), true), Request(0, Enter, Pending, false)])
  {
    actions := LateStore(v);
    OneMoreStep(true, INIT, actions, CallbackStep(0));
    actions := actions + [CallbackStep(0)];
    assert After(true, INIT, actions) == State(Frame(false, v, CallbackOf(0)),
             [Request(0, Returned(-1), Locked(v), true), Request(0, Enter, Pending, false)]);
    OneMoreStep(true, INIT, actions, CallbackStep(0));
    actions := actions + [CallbackStep(0)];
  }

  lemma LateAnswer(v: int) returns (actions: seq<Action>)
    ensures IsRun(true, INIT, actions)
    ensures After(true, INIT, actions) == State(Frame(true, v, Nobody),
              [Request(0, Returned(-1), Finished(v), true), Request(0, Enter, Pending, false)])
  {
    actions := LateDone(v);
    OneMoreStep(true, INIT, actions, CallbackStep(0));
    actions := actions + [CallbackStep(0)];
    assert After(true, INIT, actions) == State(Frame(true, v, CallbackOf(0)),
             [Request(0, Returned(-1), Signalled(v), true), Request(0, Enter, Pending, false)]);
    OneMoreStep(true, INIT, actions, CallbackStep(0));
    actions := actions + [CallbackStep(0)];
  }

  /** With the timed wait cross-talk is possible, for any value: the second call returns the first
      request's response although nobody has answered its own. */
  lemma TimedWaitCrossesTalk(v: int) returns (actions: seq<Action>)
    ensures IsRun(true, INIT, actions)
    ensures
      var s := After(true, INIT, actions);
      |s.requests| == 2 && s.requests[1].caller == Returned(v) && s.requests[1].callback == Pending
      && !s.requests[1].expired
  {
    var gone := Request(0, Returned(-1), Finished(v), true);
    actions := LateAnswer(v);
    OneMoreStep(true, INIT, actions, CallerStep(1));
    actions := actions + [CallerStep(1)];
    assert After(true, INIT, actions) == State(Frame(true, v, CallerOf(1)), [gone, Request(0, Test, Pending, false)]);
    OneMoreStep(true, INIT, actions, CallerStep(1));
    actions := actions + [CallerStep(1)];
    assert After(true, INIT, actions) == State(Frame(true, v, CallerOf(1)), [gone, Request(0, Fetch, Pending, false)]);
    OneMoreStep(true, INIT, actions, CallerStep(1));
    actions := actions + [CallerStep(1)];
    assert After(true, INIT, actions)
        == State(Frame(true, v, CallerOf(1)), [gone, Request(0, Leave(v), Pending, false)]);
    OneMoreStep(true, INIT, actions, CallerStep(1));
    actions := actions + [CallerStep(1)];
  }

  /** Every returned call has its own response, or -1 after its own timeout, over all runs exactly when the
      wait is untimed. */
  lemma NoCrossTalkExactly(timed: bool)
    ensures !timed <==> forall actions, r: nat |
      IsRun(timed, INIT, actions) && r < |After(timed, INIT, actions).requests| ::
      Settled(After(timed, INIT, actions).requests[r])
  {
    if timed {
      var actions := TimedWaitCrossesTalk(7);
      assert !Settled(After(true, INIT, actions).requests[1]);
    } else {
      forall actions, r: nat | IsRun(false, INIT, actions) && r < |After(false, INIT, actions).requests|
        ensures Settled(After(false, INIT, actions).requests[r])
      {
        EveryCallGetsItsOwnResponse(actions, r);
        UntimedIsInTime(INIT, actions);
      }
    }
  }
}
