/** The one global slot all seeks share (hvac_comm_client.cpp): a counter that the callback increments, the
    position it delivers, and the waiting loop that returns when the counter is exactly 1. Everything is
    done under one mutex, so a step here is a whole critical section. */
module SeekSlot {

  datatype Seek =
    | Sent                     // slot reset, request on its way
    | Sleeping
    | Woken
    | Returned(result: int)

  /** `answer` is the response, once the callback has run. */
  datatype Response = NoneYet | Given(v: int)

  datatype Request = Request(seek: Seek, answer: Response)

  /** `done` is an 8-bit counter. */
  datatype State = State(done: nat, readRet: int, seeks: seq<Request>)

  datatype Action =
    | Start                    // hvac_client_comm_gen_seek_rpc
    | Reply(r: nat, v: int)    // hvac_seek_cb
    | Look(r: nat)             // one turn of the loop in hvac_seek_block
    | SpuriousWake(r: nat)

  const INIT: State := State(0, -1, [])

  predicate Active(q: Request) {
    !q.seek.Returned?
  }

  predicate Looks(q: Request) {
    q.seek == Sent || q.seek == Woken
  }

  predicate Enabled(s: State, a: Action) {
    match a
    case Start => true
    case Reply(r, _) => r < |s.seeks| && s.seeks[r].answer == NoneYet
    case Look(r) => r < |s.seeks| && Looks(s.seeks[r])
    case SpuriousWake(r) => r < |s.seeks| && s.seeks[r].seek == Sleeping
  }

  /** The signal may wake any sleeper, and more than one. */
  ghost predicate WokenBy(before: seq<Request>, after: seq<Request>) {
    && |after| == |before|
    && (forall i | 0 <= i < |before| ::
          after[i] == before[i] || (before[i].seek == Sleeping && after[i] == before[i].(seek := Woken)))
    && ((exists i | 0 <= i < |before| :: before[i].seek == Sleeping) ==>
          exists i | 0 <= i < |before| :: before[i].seek == Sleeping && after[i] != before[i])
  }

  /** The states one action may lead to. */
  ghost predicate Next(s: State, a: Action, s': State) {
    Enabled(s, a) &&
    match a
    case Start => s' == State(0, -1, s.seeks + [Request(Sent, NoneYet)])
    case Reply(r, v) =>
      && s'.done == (s.done + 1) % 256 && s'.readRet == v
      && WokenBy(s.seeks[r := s.seeks[r].(answer := Given(v))], s'.seeks)
    case Look(r) =>
      s' == s.(seeks := s.seeks[r := s.seeks[r].(seek := if s.done == 1 then Returned(s.readRet) else Sleeping)])
    case SpuriousWake(r) => s' == s.(seeks := s.seeks[r := s.seeks[r].(seek := Woken)])
  }

  /** A run through the given states. */
  ghost predicate IsRun(states: seq<State>, actions: seq<Action>) {
    && |states| == |actions| + 1
    && forall i | 0 <= i < |actions| :: Next(states[i], actions[i], states[i + 1])
  }

  // ---------------------------------------------------------------------------------------------
  // Seeks one after the other
  // ---------------------------------------------------------------------------------------------

  /** Nobody is in the middle of a seek. */
  ghost predicate Clear(s: State) {
    forall i | 0 <= i < |s.seeks| :: !Active(s.seeks[i])
  }

  /** Only the latest seek can be under way, the slot is its own, and every earlier one has the position
      its own request was answered with. */
  ghost predicate Inv(s: State) {
    && (forall i | 0 <= i < |s.seeks| && s.seeks[i].seek.Returned? ::
          s.seeks[i].answer == Given(s.seeks[i].seek.result))
    && (forall i | 0 <= i < |s.seeks| - 1 :: !Active(s.seeks[i]))
    && (s.seeks != [] && Active(s.seeks[|s.seeks| - 1]) ==>
          var last := s.seeks[|s.seeks| - 1];
          match last.answer
          case NoneYet => s.done == 0
          case Given(v) => s.done == 1 && s.readRet == v && last.seek != Sleeping)
  }

  lemma InvKept(s: State, a: Action, s': State)
    requires Inv(s) && Next(s, a, s') && (a == Start ==> Clear(s))
    ensures Inv(s')
  {
    if a.Reply? {
      var before := s.seeks[a.r := s.seeks[a.r].(answer := Given(a.v))];
      assert a.r == |s.seeks| - 1;
      if before[a.r].seek == Sleeping {
        var i :| 0 <= i < |before| && before[i].seek == Sleeping && s'.seeks[i] != before[i];
        assert i == a.r;
      }
    }
  }

  ghost predicate NoOverlap(states: seq<State>, actions: seq<Action>)
    requires IsRun(states, actions)
  {
    forall i | 0 <= i < |actions| && actions[i] == Start :: Clear(states[i])
  }

  lemma {:induction false} InvAlways(states: seq<State>, actions: seq<Action>, n: nat)
    requires IsRun(states, actions) && Inv(states[0]) && NoOverlap(states, actions) && n <= |actions|
    ensures Inv(states[n])
  {
    if n > 0 {
      InvAlways(states, actions, n - 1);
      assert Next(states[n - 1], actions[n - 1], states[n - 1 + 1]);
      InvKept(states[n - 1], actions[n - 1], states[n]);
    }
  }

  /** When no seek starts before the previous one has returned, every seek returns the position its own
      request was answered with, and none sleeps once its answer is there. */
  lemma SeeksInTurnGetTheirOwn(states: seq<State>, actions: seq<Action>, n: nat, r: nat)
    requires IsRun(states, actions) && Inv(states[0]) && NoOverlap(states, actions)
    requires n <= |actions| && r < |states[n].seeks|
    ensures
      var q := states[n].seeks[r];
      && (q.seek.Returned? ==> q.answer == Given(q.seek.result))
      && (q.seek == Sleeping ==> q.answer == NoneYet)
  {
    InvAlways(states, actions, n);
  }

  lemma InvInit()
    ensures Inv(INIT) && Clear(INIT)
  {
  }

  // ---------------------------------------------------------------------------------------------
  // Overlapping seeks
  // ---------------------------------------------------------------------------------------------

  function TwoAnswered(v: int, w: int, done: nat): State {
    State(done, w, [Request(Sent, Given(v)), Request(Sent, Given(w))])
  }

  /** Two seeks under way at once: both answers arrive before either caller looks. */
  lemma BothAnswered(v: int, w: int) returns (states: seq<State>)
    ensures IsRun(states, [Start, Start, Reply(0, v), Reply(1, w)])
    ensures states[0] == INIT && states[4] == TwoAnswered(v, w, 2)
  {
    states := [INIT,
               State(0, -1, [Request(Sent, NoneYet)]),
               State(0, -1, [Request(Sent, NoneYet), Request(Sent, NoneYet)]),
               State(1, v, [Request(Sent, Given(v)), Request(Sent, NoneYet)]),
               TwoAnswered(v, w, 2)];
  }

  /** Every seek that has returned has its own request's position. */
  ghost predicate AllOwn(s: State) {
    forall i | 0 <= i < |s.seeks| && s.seeks[i].seek.Returned? :: s.seeks[i].answer == Given(s.seeks[i].seek.result)
  }

  /** A seek starts, and no further one does. */
  ghost predicate OneStart(actions: seq<Action>) {
    actions != [] && actions[0] == Start && forall i | 0 < i < |actions| :: actions[i] != Start
  }

  /** Nobody sleeps with its answer given. */
  ghost predicate NoneStuck(s: State) {
    forall i | 0 <= i < |s.seeks| && s.seeks[i].seek == Sleeping :: s.seeks[i].answer == NoneYet
  }

  ghost predicate Well(s: State) {
    AllOwn(s) && NoneStuck(s)
  }

  /** Whatever happens after starting a seek, nobody gets another one's position and nobody is left asleep. */
  ghost predicate SafeToStart(s: State) {
    forall states, actions | IsRun(states, actions) && states[0] == s && OneStart(actions) :: Well(states[|actions|])
  }

  lemma ClearIsSafe(s: State, states: seq<State>, actions: seq<Action>)
    requires Inv(s) && Clear(s) && IsRun(states, actions) && states[0] == s && OneStart(actions)
    ensures Well(states[|actions|])
  {
    InvAlways(states, actions, |actions|);
  }

  /** The pending seek is answered, and the new one takes the answer. */
  lemma NewTakesOld(s: State, v: int) returns (states: seq<State>, actions: seq<Action>)
    requires Inv(s) && !Clear(s) && s.seeks[|s.seeks| - 1].answer == NoneYet
    ensures IsRun(states, actions) && states[0] == s && OneStart(actions) && !AllOwn(states[|actions|])
  {
    var first, later := |s.seeks| - 1, |s.seeks|;
    var s1 := State(0, -1, s.seeks + [Request(Sent, NoneYet)]);
    var answered := s1.seeks[first := s1.seeks[first].(answer := Given(v))];
    var woken :=
      if answered[first].seek == Sleeping then answered[first := answered[first].(seek := Woken)] else answered;
    var s2 := State(1, v, woken);
    var s3 := s2.(seeks := s2.seeks[later := Request(Returned(v), NoneYet)]);
    assert WokenBy(answered, woken);
    states, actions := [s, s1, s2, s3], [Start, Reply(first, v), Look(later)];
    assert s3.seeks[later].seek.Returned?;
  }

  /** The pending seek has its answer but has not looked yet; the new one's answer comes first. */
  lemma OldTakesNew(s: State, v: int) returns (states: seq<State>, actions: seq<Action>)
    requires Inv(s) && !Clear(s) && s.seeks[|s.seeks| - 1].answer == Given(v)
    ensures IsRun(states, actions) && states[0] == s && OneStart(actions) && !AllOwn(states[|actions|])
  {
    var first, later := |s.seeks| - 1, |s.seeks|;
    var s1 := State(0, -1, s.seeks + [Request(Sent, NoneYet)]);
    var answered := s1.seeks[later := Request(Sent, Given(v + 1))];
    var s2 := State(1, v + 1, answered);
    var s3 := s2.(seeks := s2.seeks[first := s2.seeks[first].(seek := Returned(v + 1))]);
    assert forall i | 0 <= i < |answered| :: answered[i].seek != Sleeping;
    assert WokenBy(answered, answered);
    states, actions := [s, s1, s2, s3], [Start, Reply(later, v + 1), Look(first)];
    assert s3.seeks[first].seek.Returned?;
  }

  /** Starting a seek is safe exactly when no other seek is under way. */
  lemma SafeToStartExactly(s: State)
    requires Inv(s)
    ensures SafeToStart(s) <==> Clear(s)
  {
    if Clear(s) {
      forall states, actions | IsRun(states, actions) && states[0] == s && OneStart(actions)
        ensures Well(states[|actions|])
      {
        ClearIsSafe(s, states, actions);
      }
    } else {
      var states, actions;
      match s.seeks[|s.seeks| - 1].answer
      case NoneYet => states, actions := NewTakesOld(s, 0);
      case Given(v) => states, actions := OldTakesNew(s, v);
    }
  }

  /** Overlapping seeks can hang: in that state the counter is 2, and in any continuation without a further
      seek neither caller ever returns. */
  lemma OverlappingSeeksHang(v: int, w: int, states: seq<State>, actions: seq<Action>, n: nat, r: nat)
    requires IsRun(states, actions) && states[0] == TwoAnswered(v, w, 2) && n <= |actions| && r < 2
    requires forall i | 0 <= i < |actions| :: actions[i] != Start
    ensures r < |states[n].seeks| && Active(states[n].seeks[r])
  {
    CounterStays(states, actions, n, r);
  }

  /** n seeks under way at once, the first k of them answered, nobody has looked yet. */
  function Many(n: nat, k: nat, v: int): State {
    State(k % 256, if k == 0 then -1 else v, seq(n, i => Request(Sent, if i < k then Given(v) else NoneYet)))
  }

  lemma OneMore(states: seq<State>, actions: seq<Action>, a: Action, s: State)
    requires IsRun(states, actions) && Next(states[|actions|], a, s)
    ensures IsRun(states + [s], actions + [a])
  {
  }

  lemma ManyStart(n: nat, v: int)
    ensures Next(Many(n, 0, v), Start, Many(n + 1, 0, v))
  {
  }

  lemma ManyReply(n: nat, k: nat, v: int)
    requires k < n
    ensures Next(Many(n, k, v), Reply(k, v), Many(n, k + 1, v))
  {
    var before := Many(n, k, v).seeks[k := Request(Sent, Given(v))];
    assert before == Many(n, k + 1, v).seeks;
    assert forall i | 0 <= i < |before| :: before[i].seek != Sleeping;
    assert WokenBy(before, before);
  }

  lemma ManyReachable(n: nat, v: int) returns (states: seq<State>, actions: seq<Action>)
    ensures IsRun(states, actions) && states[0] == INIT && states[|actions|] == Many(n, n, v)
  {
    states, actions := [INIT], [];
    for i := 0 to n
      invariant IsRun(states, actions) && states[0] == INIT && states[|actions|] == Many(i, 0, v)
    {
      ManyStart(i, v);
      OneMore(states, actions, Start, Many(i + 1, 0, v));
      states, actions := states + [Many(i + 1, 0, v)], actions + [Start];
    }
    for k := 0 to n
      invariant IsRun(states, actions) && states[0] == INIT && states[|actions|] == Many(n, k, v)
    {
      ManyReply(n, k, v);
      OneMore(states, actions, Reply(k, v), Many(n, k + 1, v));
      states, actions := states + [Many(n, k + 1, v)], actions + [Reply(k, v)];
    }
  }

  /** The seek can still return without another one being started. */
  ghost predicate CanReturn(s: State, r: nat) {
    exists states: seq<State>, actions: seq<Action> ::
      && IsRun(states, actions) && states[0] == s && (forall i | 0 <= i < |actions| :: actions[i] != Start)
      && r < |states[|actions|].seeks| && !Active(states[|actions|].seeks[r])
  }

  lemma {:induction false} CounterStays(states: seq<State>, actions: seq<Action>, n: nat, r: nat)
    requires IsRun(states, actions) && n <= |actions| && states[0].done != 1
    requires forall i | 0 <= i < |states[0].seeks| :: states[0].seeks[i].answer != NoneYet
    requires r < |states[0].seeks| && Active(states[0].seeks[r])
    requires forall i | 0 <= i < |actions| :: actions[i] != Start
    ensures states[n].done == states[0].done && r < |states[n].seeks| && Active(states[n].seeks[r])
    ensures forall i | 0 <= i < |states[n].seeks| :: states[n].seeks[i].answer != NoneYet
  {
    if n > 0 {
      CounterStays(states, actions, n - 1, r);
      assert Next(states[n - 1], actions[n - 1], states[n - 1 + 1]);
      assert actions[n - 1] != Start;
    }
  }

  /** However many seeks overlap: a run from the start leads to n seeks that are all answered before anyone
      looks, and from there a caller can return exactly when the 8-bit counter has come round to 1. */
  lemma ManySeeksExactly(n: nat, v: int, r: nat) returns (states: seq<State>, actions: seq<Action>)
    requires r < n
    ensures IsRun(states, actions) && states[0] == INIT && states[|actions|] == Many(n, n, v)
    ensures CanReturn(states[|actions|], r) <==> n % 256 == 1
  {
    states, actions := ManyReachable(n, v);
    var s := Many(n, n, v);
    if n % 256 == 1 {
      var s' := s.(seeks := s.seeks[r := s.seeks[r].(seek := Returned(s.readRet))]);
      assert IsRun([s, s'], [Look(r)]);
      assert [s, s'][|[Look(r)]|] == s';
    } else {
      forall ss: seq<State>, acts: seq<Action> |
        IsRun(ss, acts) && ss[0] == s && (forall i | 0 <= i < |acts| :: acts[i] != Start)
        ensures r < |ss[|acts|].seeks| && Active(ss[|acts|].seeks[r])
      {
        CounterStays(ss, acts, |acts|, r);
      }
    }
  }

  /** Overlapping seeks can also cross: the second caller looks after the first answer and takes it. */
  lemma OverlappingSeeksCross(v: int) returns (states: seq<State>)
    ensures IsRun(states, [Start, Start, Reply(0, v), Look(1)]) && states[0] == INIT
    ensures |states[4].seeks| == 2 && states[4].seeks[1] == Request(Returned(v), NoneYet)
  {
    states := [INIT,
               State(0, -1, [Request(Sent, NoneYet)]),
               State(0, -1, [Request(Sent, NoneYet), Request(Sent, NoneYet)]),
               State(1, v, [Request(Sent, Given(v)), Request(Sent, NoneYet)]),
               State(1, v, [Request(Sent, Given(v)), Request(Returned(v), NoneYet)])];
  }
}
