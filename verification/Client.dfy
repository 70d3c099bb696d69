/** The routing half of hvac_client.cpp as the object it is: a ring that is rebuilt, the timeout
    counters and failure flags, and the table of tracked descriptors. Each call is proved to be a run of
    the transition system of module Failover; the network enters as the answer the call waits for. */
module Clients {
  import opened Failover
  import opened HashRings
  import opened Labels
  import opened Posix
  import opened Ring
  import Text

  /** What a blocked call gets: an answer, or nothing within the time limit. */
  datatype Answer = Answered(ret: int) | NoAnswer

  function Settled(t: nat, answer: Answer): Action {
    match answer
    case Answered(ret) => Reply(t, ret)
    case NoAnswer => Timeout(t)
  }

  /** `vector::resize`. */
  function Resized<T>(s: seq<T>, n: nat, fill: T): (r: seq<T>)
    ensures |r| == n
    ensures forall i | 0 <= i < n :: r[i] == if i < |s| then s[i] else fill
  {
    if n <= |s| then s[..n] else s + seq(n - |s|, _ => fill)
  }

  /** The actions lead from s to s'. */
  ghost predicate Leads(c: Config, s: State, actions: seq<Action>, s': State)
    requires ValidConfig(c)
  {
    IsRun(c, s, actions) && After(c, s, actions) == s'
  }

  lemma OneLeads(c: Config, s: State, a: Action)
    requires ValidConfig(c) && Inv(c, s) && Enabled(c, s, a)
    ensures Leads(c, s, [a], Apply(c, s, a).0) && Inv(c, Apply(c, s, a).0)
  {
    InvKept(c, s, a);
    OneMoreStep(c, s, [], a);
    assert [] + [a] == [a];
  }

  lemma NextLeads(c: Config, s: State, actions: seq<Action>, s1: State, a: Action)
    requires ValidConfig(c) && Inv(c, s1) && Leads(c, s, actions, s1) && Enabled(c, s1, a)
    ensures Leads(c, s, actions + [a], Apply(c, s1, a).0) && Inv(c, Apply(c, s1, a).0)
  {
    InvKept(c, s1, a);
    OneMoreStep(c, s, actions, a);
  }

  lemma TwoLeads(c: Config, s: State, a: Action, b: Action)
    requires ValidConfig(c) && Inv(c, s) && Enabled(c, s, a) && Enabled(c, Apply(c, s, a).0, b)
    ensures Leads(c, s, [a, b], Apply(c, Apply(c, s, a).0, b).0) && Inv(c, Apply(c, Apply(c, s, a).0, b).0)
  {
    OneLeads(c, s, a);
    NextLeads(c, s, [a], Apply(c, s, a).0, b);
    assert [a] + [b] == [a, b];
  }

  /** Where a tracked descriptor's ring-routed requests go. */
  ghost function Target(c: Config, s: State, fd: int): (host: nat)
    requires ValidConfig(c) && Inv(c, s) && fd in s.fdMap && s.ring != map[]
    ensures host < c.servers && !s.flags[host]
    ensures RingHost(c, s.ring, s.fdMap[fd]) == Ok(host as int)
  {
    FlaggedNeverRouted(c, s, s.fdMap[fd]);
    RingHost(c, s.ring, s.fdMap[fd]).value
  }

  /** One more timeout against the host, if the call met no answer. */
  function Charged(s: State, host: nat, answer: Answer): State
    requires host < |s.counters|
  {
    if answer == NoAnswer then s.(counters := s.counters[host := s.counters[host] + 1]) else s
  }

  function Value(answer: Answer): int {
    if answer.Answered? then answer.ret else -1
  }

  /** The host's timeout counter goes up when no answer came in time, and no counter changes otherwise. */
  ghost predicate CountsTimeout(counters: seq<nat>, counters': seq<nat>, host: nat, answer: Answer) {
    && host < |counters| == |counters'|
    && counters'[host] == counters[host] + (if answer == NoAnswer then 1 else 0)
    && forall h | 0 <= h < |counters| && h != host :: counters'[h] == counters[h]
  }

  function Untracked(s: State, fd: int): State {
    s.(fdMap := s.fdMap - {fd})
  }

  ghost predicate Quiescent(c: Config, s: State) {
    ValidConfig(c) && Inv(c, s) && s.threads == map[]
  }

  lemma TrackLeads(c: Config, s: State, path: string, fd: int, answer: Answer)
    requires Quiescent(c, s)
    ensures |s.counters| == c.servers
    ensures
      var s' := Charged(s.(ready := true, fdMap := s.fdMap[fd := path]), ModuloHost(c, path), answer);
      Leads(c, s, [Track(0, fd, path), Settled(0, answer)], s') && Inv(c, s')
  {
    var s1 := Apply(c, s, Track(0, fd, path)).0;
    TwoLeads(c, s, Track(0, fd, path), Settled(0, answer));
    if !s.ready {
      NoFlagsNoPositions(c, s.flags);
    }
    assert s1.threads - {0} == map[];
  }

  /** The host is off the ring and flagged, and the descriptor is forgotten. */
  function OffRing(c: Config, s: State, fd: int, host: nat): State
    requires host < |s.flags|
  {
    Untracked(OffRingOnly(c, s, host), fd)
  }

  function OffRingOnly(c: Config, s: State, host: nat): State
    requires host < |s.flags|
  {
    s.(ring := WithoutNode(s.ring, c.hash, ServerName(host + 1), c.replicas), flags := s.flags[host := true])
  }

  lemma LookupLeads(c: Config, s: State, kind: Kind, fd: int)
    requires Quiescent(c, s) && fd in s.fdMap && s.ring != map[]
    requires kind == Pread || kind == Close || kind == Seek
    ensures
      var s1 := s.(threads := map[0 := Routed(kind, fd, Target(c, s, fd))]);
      Leads(c, s, [Lookup(0, kind, fd)], s1) && Inv(c, s1) && Enabled(c, s1, Guard(0))
  {
    var host := Target(c, s, fd);
    assert Enabled(c, s, Lookup(0, kind, fd));
    OneLeads(c, s, Lookup(0, kind, fd));
  }

  lemma TrippedGuard(c: Config, s: State, kind: Kind, fd: int, host: nat)
    requires ValidConfig(c) && s.threads == map[0 := Routed(kind, fd, host)] && (kind == Pread || kind == Close)
    requires host < |s.counters| == |s.flags| && Trips(s, kind, host)
    ensures Enabled(c, s, Guard(0))
    ensures Apply(c, s, Guard(0)).0 == OffRing(c, s, fd, host).(threads := map[])
  {
    assert s.threads - {0} == map[];
    if kind == Close {
      assert s.fdMap - {fd} - {fd} == s.fdMap - {fd};
    }
  }

  lemma PassedGuard(c: Config, s: State, kind: Kind, fd: int, host: nat)
    requires ValidConfig(c) && s.threads == map[0 := Routed(kind, fd, host)]
    requires host < |s.counters| == |s.flags| && !Trips(s, kind, host)
    ensures Enabled(c, s, Guard(0))
    ensures Apply(c, s, Guard(0)).0
         == if kind == Close then Untracked(s, fd).(threads := map[])
            else s.(threads := map[0 := Waiting(kind, fd, host)])
  {
    assert s.threads - {0} == map[];
    assert s.threads[0 := Waiting(kind, fd, host)] == map[0 := Waiting(kind, fd, host)];
  }

  lemma AnswerArrives(c: Config, s: State, kind: Kind, fd: int, host: nat, answer: Answer)
    requires ValidConfig(c) && s.threads == map[0 := Waiting(kind, fd, host)] && host < |s.counters|
    requires kind == Pread || kind == Read
    ensures Enabled(c, s, Settled(0, answer))
    ensures Apply(c, s, Settled(0, answer)).0 == AfterAnswer(s, fd, host, answer).(threads := map[])
  {
    assert s.threads - {0} == map[];
  }

  /** A host at its limit is taken off the ring instead of being sent the request. */
  lemma GuardRemoves(c: Config, s: State, kind: Kind, fd: int)
    requires Quiescent(c, s) && fd in s.fdMap && s.ring != map[] && (kind == Pread || kind == Close)
    requires Target(c, s, fd) < |s.counters| && s.counters[Target(c, s, fd)] >= TIMEOUT_LIMIT
    ensures |s.flags| == c.servers
    ensures
      var s' := OffRing(c, s, fd, Target(c, s, fd));
      Leads(c, s, [Lookup(0, kind, fd), Guard(0)], s') && Inv(c, s')
  {
    var s1 := s.(threads := map[0 := Routed(kind, fd, Target(c, s, fd))]);
    LookupLeads(c, s, kind, fd);
    NextLeads(c, s, [Lookup(0, kind, fd)], s1, Guard(0));
    assert [Lookup(0, kind, fd)] + [Guard(0)] == [Lookup(0, kind, fd), Guard(0)];
    TrippedGuard(c, s1, kind, fd, Target(c, s, fd));
  }

  /** Otherwise the request leaves: a close is done with it, the other calls wait. */
  lemma GuardSends(c: Config, s: State, kind: Kind, fd: int)
    requires Quiescent(c, s) && fd in s.fdMap && s.ring != map[]
    requires kind == Pread || kind == Close || kind == Seek
    requires Target(c, s, fd) < |s.counters|
    requires kind != Seek ==> s.counters[Target(c, s, fd)] < TIMEOUT_LIMIT
    ensures
      var s' := if kind == Close then Untracked(s, fd)
                else s.(threads := map[0 := Waiting(kind, fd, Target(c, s, fd))]);
      Leads(c, s, [Lookup(0, kind, fd), Guard(0)], s') && Inv(c, s')
  {
    var s1 := s.(threads := map[0 := Routed(kind, fd, Target(c, s, fd))]);
    LookupLeads(c, s, kind, fd);
    NextLeads(c, s, [Lookup(0, kind, fd)], s1, Guard(0));
    assert [Lookup(0, kind, fd)] + [Guard(0)] == [Lookup(0, kind, fd), Guard(0)];
    PassedGuard(c, s1, kind, fd, Target(c, s, fd));
  }

  function AfterAnswer(s: State, fd: int, host: nat, answer: Answer): State
    requires host < |s.counters|
  {
    if Value(answer) == -1 then Untracked(Charged(s, host, answer), fd) else Charged(s, host, answer)
  }

  lemma NoThreadsLeft(s: State, s1: State, fd: int, host: nat, answer: Answer)
    requires s.threads == map[] && s1.(threads := map[]) == s && host < |s.counters|
    ensures AfterAnswer(s1, fd, host, answer).(threads := map[]) == AfterAnswer(s, fd, host, answer)
  {
  }

  lemma AnswerLeads(c: Config, s: State, kind: Kind, fd: int, host: nat, actions: seq<Action>, answer: Answer)
    requires ValidConfig(c) && s.threads == map[] && host < |s.counters| && (kind == Pread || kind == Read)
    requires
      var s1 := s.(threads := map[0 := Waiting(kind, fd, host)]);
      Inv(c, s1) && Leads(c, s, actions, s1)
    ensures
      var s' := AfterAnswer(s, fd, host, answer);
      Leads(c, s, actions + [Settled(0, answer)], s') && Inv(c, s')
  {
    var s1 := s.(threads := map[0 := Waiting(kind, fd, host)]);
    AnswerArrives(c, s1, kind, fd, host, answer);
    NextLeads(c, s, actions, s1, Settled(0, answer));
    NoThreadsLeft(s, s1, fd, host, answer);
  }

  lemma ReadLeads(c: Config, s: State, fd: int, answer: Answer)
    requires Quiescent(c, s) && fd in s.fdMap
    ensures |s.counters| == c.servers
    ensures
      var s' := AfterAnswer(s, fd, ModuloHost(c, s.fdMap[fd]), answer);
      Leads(c, s, [ReadStart(0, fd), Settled(0, answer)], s') && Inv(c, s')
  {
    var host := ModuloHost(c, s.fdMap[fd]);
    OneLeads(c, s, ReadStart(0, fd));
    AnswerLeads(c, s, Read, fd, host, [ReadStart(0, fd)], answer);
    assert [ReadStart(0, fd)] + [Settled(0, answer)] == [ReadStart(0, fd), Settled(0, answer)];
  }

  lemma PreadLeads(c: Config, s: State, fd: int, answer: Answer)
    requires Quiescent(c, s) && fd in s.fdMap && s.ring != map[]
    requires Target(c, s, fd) < |s.counters| && s.counters[Target(c, s, fd)] < TIMEOUT_LIMIT
    ensures
      var s' := AfterAnswer(s, fd, Target(c, s, fd), answer);
      Leads(c, s, [Lookup(0, Pread, fd), Guard(0)] + [Settled(0, answer)], s') && Inv(c, s')
  {
    GuardSends(c, s, Pread, fd);
    AnswerLeads(c, s, Pread, fd, Target(c, s, fd), [Lookup(0, Pread, fd), Guard(0)], answer);
  }

  /** What a pread does to a client in state s: on an untracked descriptor nothing; on an empty ring an
      error; a host at its limit is taken off the ring; otherwise the request goes out. */
  ghost predicate PreadDone(c: Config, s: State, fd: int, answer: Answer,
                            ret: Result<int>, sentTo: Text.Option<nat>, s': State)
    requires ValidConfig(c) && Inv(c, s)
  {
    if fd !in s.fdMap then
      ret == Ok(-1) && sentTo == Text.None && s' == s
    else if s.ring == map[] then
      ret == Err(EmptyRing) && sentTo == Text.None && s' == s
    else
      var host := Target(c, s, fd);
      if s.counters[host] >= TIMEOUT_LIMIT then
        && ret == Ok(-1) && sentTo == Text.None
        && Leads(c, s, [Lookup(0, Pread, fd), Guard(0)], s')
      else
        && ret == Ok(Value(answer)) && sentTo == Text.Some(host)
        && Leads(c, s, [Lookup(0, Pread, fd), Guard(0)] + [Settled(0, answer)], s')
  }

  lemma PreadDoneEither(c: Config, s: State, fd: int, answer: Answer)
    requires Quiescent(c, s) && fd in s.fdMap && s.ring != map[]
    ensures
      var host := Target(c, s, fd);
      if Trips(s, Pread, host) then
        && PreadDone(c, s, fd, answer, Ok(-1), Text.None, OffRing(c, s, fd, host))
        && Inv(c, OffRing(c, s, fd, host))
      else
        && PreadDone(c, s, fd, answer, Ok(Value(answer)), Text.Some(host), AfterAnswer(s, fd, host, answer))
        && Inv(c, AfterAnswer(s, fd, host, answer))
  {
    if Trips(s, Pread, Target(c, s, fd)) {
      GuardRemoves(c, s, Pread, fd);
    } else {
      PreadLeads(c, s, fd, answer);
    }
  }

  /** What `hvac_remove_fd` does to a client in state s, likewise. */
  ghost predicate CloseDone(c: Config, s: State, fd: int,
                            erased: Result<bool>, sentTo: Text.Option<nat>, s': State)
    requires ValidConfig(c) && Inv(c, s)
  {
    if fd !in s.fdMap then
      erased == Ok(false) && sentTo == Text.None && s' == s
    else if s.ring == map[] then
      erased == Err(EmptyRing) && sentTo == Text.None && s' == s
    else
      var host := Target(c, s, fd);
      && erased == Ok(true)
      && sentTo == (if s.counters[host] >= TIMEOUT_LIMIT then Text.None else Text.Some(host))
      && Leads(c, s, [Lookup(0, Close, fd), Guard(0)], s')
  }

  lemma CloseDoneEither(c: Config, s: State, fd: int)
    requires Quiescent(c, s) && fd in s.fdMap && s.ring != map[]
    ensures
      var host := Target(c, s, fd);
      var s' := if Trips(s, Close, host) then OffRing(c, s, fd, host) else Untracked(s, fd);
      && CloseDone(c, s, fd, Ok(true), if Trips(s, Close, host) then Text.None else Text.Some(host), s')
      && Inv(c, s')
  {
    if Trips(s, Close, Target(c, s, fd)) {
      GuardRemoves(c, s, Close, fd);
    } else {
      GuardSends(c, s, Close, fd);
    }
  }

  /** What an lseek does: no guard, and it changes nothing in the client. */
  ghost predicate SeekDone(c: Config, s: State, fd: int, reply: int,
                           ret: Result<int>, sentTo: Text.Option<nat>)
    requires ValidConfig(c) && Inv(c, s)
  {
    if fd !in s.fdMap then
      ret == Ok(-1) && sentTo == Text.None
    else if s.ring == map[] then
      ret == Err(EmptyRing) && sentTo == Text.None
    else
      && ret == Ok(reply) && sentTo == Text.Some(Target(c, s, fd))
      && Leads(c, s, [Lookup(0, Seek, fd), Guard(0)] + [Reply(0, reply)], s)
  }

  lemma SeekLeads(c: Config, s: State, fd: int, reply: int)
    requires Quiescent(c, s) && fd in s.fdMap && s.ring != map[]
    ensures Leads(c, s, [Lookup(0, Seek, fd), Guard(0)] + [Reply(0, reply)], s)
  {
    GuardSends(c, s, Seek, fd);
    var waiting := map[0 := Waiting(Seek, fd, Target(c, s, fd))];
    NextLeads(c, s, [Lookup(0, Seek, fd), Guard(0)], s.(threads := waiting), Reply(0, reply));
    assert waiting - {0} == map[];
  }

  class Client {
    const hash: Hash
    const serverCount: nat
    var hashRing: HashRing
    var timeoutCounters: seq<nat>
    var failureFlags: seq<bool>
    var fdMap: map<int, string>
    var mercuryInit: bool

    ghost function Conf(): Config {
      Config(hash, serverCount, VIRTUAL_NODE_CNT)
    }

    /** The protocol state between two calls: no thread is inside the library. */
    ghost function Abstract(): State
      reads this, hashRing
    {
      State(hashRing.ring, timeoutCounters, failureFlags, fdMap, mercuryInit, map[])
    }

    ghost predicate Valid()
      reads this, hashRing
    {
      && ValidConfig(Conf())
      && hashRing.Valid() && hashRing.hash == hash && hashRing.replicas == VIRTUAL_NODE_CNT
      && Inv(Conf(), Abstract())
    }

    /** The vectors and the ring have the shape that the steps of a call rely on. */
    ghost predicate Shaped()
      reads this, hashRing
    {
      && hashRing.Valid() && hashRing.hash == hash && hashRing.replicas == VIRTUAL_NODE_CNT
      && |timeoutCounters| == |failureFlags| == serverCount
    }

    constructor (hash: Hash, serverCount: nat)
      requires 0 < serverCount <= INT32_MAX
      ensures Valid() && Abstract() == Init(Conf())
      ensures this.hash == hash && this.serverCount == serverCount
      ensures fresh(hashRing)
    {
      this.hash := hash;
      this.serverCount := serverCount;
      hashRing := new HashRing(VIRTUAL_NODE_CNT, hash);
      timeoutCounters, failureFlags := [], [];
      fdMap := map[];
      mercuryInit := false;
      new;
      InitializeHashRing(serverCount, VIRTUAL_NODE_CNT);
      InvInit(Conf());
    }

    /** Builds a new ring; the vectors keep whatever they already hold. */
    method InitializeHashRing(servers: nat, vnodes: nat)
      requires servers <= INT32_MAX
      modifies this`hashRing, this`timeoutCounters, this`failureFlags
      ensures fresh(hashRing) && hashRing.Valid() && hashRing.hash == hash && hashRing.replicas == vnodes
      ensures hashRing.ring == BuildRing(hash, servers, vnodes)
      ensures timeoutCounters == Resized(old(timeoutCounters), servers, 0)
      ensures failureFlags == Resized(old(failureFlags), servers, false)
    {
      hashRing := new HashRing(vnodes, hash);
      for i := 1 to servers + 1
        invariant fresh(hashRing) && hashRing.Valid() && hashRing.hash == hash && hashRing.replicas == vnodes
        invariant hashRing.ring == BuildRing(hash, i - 1, vnodes)
        invariant timeoutCounters == old(timeoutCounters) && failureFlags == old(failureFlags)
      {
        var _ := hashRing.AddNode(ServerName(i));
      }
      timeoutCounters := Resized(timeoutCounters, servers, 0);
      failureFlags := Resized(failureFlags, servers, false);
    }

    /** Mercury is initialised before the first request, and the ring is built once more. */
    method InitializeOnce()
      requires Shaped() && serverCount <= INT32_MAX
      requires !mercuryInit ==> hashRing.ring == BuildRing(hash, serverCount, VIRTUAL_NODE_CNT)
      modifies this`mercuryInit, this`hashRing, this`timeoutCounters, this`failureFlags
      ensures hashRing == old(hashRing) || fresh(hashRing)
      ensures hashRing.Valid() && hashRing.hash == hash && hashRing.replicas == VIRTUAL_NODE_CNT
      ensures Abstract() == old(Abstract()).(ready := true)
    {
      if !mercuryInit {
        mercuryInit := true;
        InitializeHashRing(serverCount, VIRTUAL_NODE_CNT);
      }
    }

    /** The wait for an answer: a timeout is counted against the host. */
    method Wait(host: nat, answer: Answer)
      requires host < |timeoutCounters|
      modifies this`timeoutCounters
      ensures CountsTimeout(old(timeoutCounters), timeoutCounters, host, answer)
      ensures Abstract() == Charged(old(Abstract()), host, answer)
    {
      if answer == NoAnswer {
        timeoutCounters := timeoutCounters[host := timeoutCounters[host] + 1];
      }
    }

    /** `hvac_track_file` on a file the filter accepts; `answer` is what the open request meets. */
    method TrackFile(path: string, fd: int, answer: Answer) returns (host: nat)
      requires Valid()
      modifies this, hashRing
      ensures Valid() && (hashRing == old(hashRing) || fresh(hashRing))
      ensures host == ModuloHost(Conf(), path)
      ensures host < serverCount && (hash(path) - host) % serverCount == 0
      ensures fdMap == old(fdMap)[fd := path] && failureFlags == old(failureFlags)
      ensures CountsTimeout(old(timeoutCounters), timeoutCounters, host, answer)
      ensures Leads(Conf(), old(Abstract()), [Track(0, fd, path), Settled(0, answer)], Abstract())
    {
      ghost var s := Abstract();
      TrackLeads(Conf(), s, path, fd, answer);
      ModuloHostExactly(Conf(), path, ModuloHost(Conf(), path));
      if !mercuryInit {
        NoFlagsNoPositions(Conf(), failureFlags);
      }
      fdMap := fdMap[fd := path];
      InitializeOnce();
      host := hash(path) % serverCount;
      Wait(host, answer);
    }

    /** The wait of read and pread and what follows it: a timeout is charged to the host, and a result
        of -1 makes the client forget the descriptor. */
    method Await(fd: int, host: nat, answer: Answer) returns (ret: int)
      requires host < |timeoutCounters|
      modifies this`timeoutCounters, this`fdMap
      ensures ret == Value(answer)
      ensures Abstract() == AfterAnswer(old(Abstract()), fd, host, answer)
      ensures answer == NoAnswer ==> ret == -1
      ensures answer.Answered? ==> ret == answer.ret
      ensures CountsTimeout(old(timeoutCounters), timeoutCounters, host, answer)
      ensures fdMap == if ret == -1 then old(fdMap) - {fd} else old(fdMap)
    {
      ret := Value(answer);
      Wait(host, answer);
      if ret == -1 {
        fdMap := fdMap - {fd};
      }
    }

    /** `hvac_remote_read`: routed by modulo; -1 makes the wrapper read locally. */
    method RemoteRead(fd: int, answer: Answer) returns (ret: int, sentTo: Text.Option<nat>)
      requires Valid()
      modifies this`timeoutCounters, this`fdMap
      ensures Valid()
      ensures fd !in old(fdMap) ==> ret == -1 && sentTo == Text.None && Abstract() == old(Abstract())
      ensures fd in old(fdMap) ==>
        && ret == Value(answer) && sentTo == Text.Some(ModuloHost(Conf(), old(fdMap)[fd]))
        && Leads(Conf(), old(Abstract()), [ReadStart(0, fd), Settled(0, answer)], Abstract())
      ensures fd in old(fdMap) ==>
        && ret == (if answer.Answered? then answer.ret else -1)
        && sentTo.Some? && sentTo.value < serverCount && (hash(old(fdMap)[fd]) - sentTo.value) % serverCount == 0
        && CountsTimeout(old(timeoutCounters), timeoutCounters, sentTo.value, answer)
      ensures fdMap == if ret == -1 then old(fdMap) - {fd} else old(fdMap)
    {
      if fd !in fdMap {
        return -1, Text.None;
      }
      ReadLeads(Conf(), Abstract(), fd, answer);
      ModuloHostExactly(Conf(), fdMap[fd], ModuloHost(Conf(), fdMap[fd]));
      var host := hash(fdMap[fd]) % serverCount;
      sentTo := Text.Some(host);
      ret := Await(fd, host, answer);
    }

    /** Looks the host of a tracked descriptor up on the ring. */
    method RingLookup(fd: int) returns (host: Result<nat>)
      requires Valid() && fd in fdMap
      ensures host == if hashRing.ring == map[] then Err(EmptyRing) else Ok(Target(Conf(), Abstract(), fd))
      ensures host.Ok? ==> host.value < |timeoutCounters| == |failureFlags| && !failureFlags[host.value]
      ensures host.Ok? ==> FirstAtOrAfter(Conf(), hashRing.ring, hash(fdMap[fd]), host.value)
    {
      var name := hashRing.GetNode(fdMap[fd]);
      match name {
        case Err(e) =>
          host := Err(e);
        case Ok(n) =>
          FlaggedNeverRouted(Conf(), Abstract(), fdMap[fd]);
          var number := ConvertHostToNumber(n);
          host := Ok(number.value);
          RingHostExactly(Conf(), Abstract(), fdMap[fd], host.value);
      }
    }

    /** The guarded section of pread and close: gives back whether the host was taken off the ring. */
    method GuardHost(host: nat) returns (removed: bool)
      requires Shaped() && host < serverCount
      modifies this`failureFlags, hashRing
      ensures Shaped()
      ensures removed == Trips(old(Abstract()), Pread, host)
      ensures Abstract() == if removed then OffRingOnly(Conf(), old(Abstract()), host) else old(Abstract())
      ensures removed <==> old(timeoutCounters)[host] >= TIMEOUT_LIMIT && !old(failureFlags)[host]
      ensures removed ==> failureFlags == old(failureFlags)[host := true]
      ensures removed ==> hashRing.ring == old(hashRing.ring) - HostPositions(hash, host, VIRTUAL_NODE_CNT)
    {
      removed := timeoutCounters[host] >= TIMEOUT_LIMIT && !failureFlags[host];
      if removed {
        hashRing.RemoveNode(ServerName(host + 1));
        failureFlags := failureFlags[host := true];
      }
    }

    /** Guard, request and wait of a pread whose host is known. */
    method PreadAt(fd: int, host: nat, answer: Answer) returns (ret: int, sentTo: Text.Option<nat>)
      requires Shaped() && host < serverCount
      modifies this`timeoutCounters, this`failureFlags, this`fdMap, hashRing
      ensures Shaped()
      ensures
        if Trips(old(Abstract()), Pread, host) then
          && ret == -1 && sentTo == Text.None
          && Abstract() == OffRing(Conf(), old(Abstract()), fd, host)
        else
          && ret == Value(answer) && sentTo == Text.Some(host)
          && Abstract() == AfterAnswer(old(Abstract()), fd, host, answer)
      ensures sentTo.None? ==> ret == -1 && timeoutCounters == old(timeoutCounters)
      ensures sentTo.Some? ==>
        && ret == (if answer.Answered? then answer.ret else -1)
        && CountsTimeout(old(timeoutCounters), timeoutCounters, host, answer)
      ensures fdMap == if ret == -1 then old(fdMap) - {fd} else old(fdMap)
    {
      var removed := GuardHost(host);
      if removed {
        fdMap := fdMap - {fd};
        ret, sentTo := -1, Text.None;
      } else {
        ret := Await(fd, host, answer);
        sentTo := Text.Some(host);
      }
    }

    /** Guard and request of a close whose host is known, and the descriptor forgotten. */
    method CloseAt(fd: int, host: nat) returns (sentTo: Text.Option<nat>)
      requires Shaped() && host < serverCount
      modifies this`failureFlags, this`fdMap, hashRing
      ensures Shaped()
      ensures sentTo == if Trips(old(Abstract()), Close, host) then Text.None else Text.Some(host)
      ensures Abstract() == if Trips(old(Abstract()), Close, host)
        then OffRing(Conf(), old(Abstract()), fd, host) else Untracked(old(Abstract()), fd)
      ensures fdMap == old(fdMap) - {fd} && timeoutCounters == old(timeoutCounters)
    {
      var removed := GuardHost(host);
      sentTo := if removed then Text.None else Text.Some(host);
      fdMap := fdMap - {fd};
    }

    /** `hvac_remote_pread`. The host the request was sent to, if any, was below the limit. */
    method RemotePread(fd: int, answer: Answer) returns (ret: Result<int>, sentTo: Text.Option<nat>)
      requires Valid()
      modifies this`timeoutCounters, this`failureFlags, this`fdMap, hashRing
      ensures Valid()
      ensures PreadDone(Conf(), old(Abstract()), fd, answer, ret, sentTo, Abstract())
      ensures sentTo.Some? ==>
        && fd in old(fdMap) && ret == Ok(if answer.Answered? then answer.ret else -1)
        && FirstAtOrAfter(Conf(), old(hashRing.ring), hash(old(fdMap)[fd]), sentTo.value)
        && CountsTimeout(old(timeoutCounters), timeoutCounters, sentTo.value, answer)
      ensures sentTo.None? ==> ret == Ok(-1) || ret == Err(EmptyRing)
      ensures fdMap == if ret == Ok(-1) then old(fdMap) - {fd} else old(fdMap)
    {
      if fd !in fdMap {
        return Ok(-1), Text.None;
      }
      var lookup := RingLookup(fd);
      if lookup.Err? {
        return Err(lookup.error), Text.None;
      }
      PreadDoneEither(Conf(), Abstract(), fd, answer);
      var value: int;
      value, sentTo := PreadAt(fd, lookup.value, answer);
      ret := Ok(value);
    }

    /** `hvac_remote_lseek` has no guard and an untimed wait. */
    method RemoteLseek(fd: int, reply: int) returns (ret: Result<int>, sentTo: Text.Option<nat>)
      requires Valid()
      ensures SeekDone(Conf(), Abstract(), fd, reply, ret, sentTo)
      ensures sentTo.Some? ==> fd in fdMap && FirstAtOrAfter(Conf(), hashRing.ring, hash(fdMap[fd]), sentTo.value)
    {
      if fd !in fdMap {
        return Ok(-1), Text.None;
      }
      var lookup := RingLookup(fd);
      if lookup.Err? {
        return Err(lookup.error), Text.None;
      }
      SeekLeads(Conf(), Abstract(), fd, reply);
      return Ok(reply), Text.Some(lookup.value);
    }

    /** `hvac_remove_fd`: the guarded close request, then the descriptor is forgotten either way. */
    method RemoveFd(fd: int) returns (erased: Result<bool>, sentTo: Text.Option<nat>)
      requires Valid()
      modifies this`failureFlags, this`fdMap, hashRing
      ensures Valid()
      ensures CloseDone(Conf(), old(Abstract()), fd, erased, sentTo, Abstract())
      ensures sentTo.Some? ==>
        fd in old(fdMap) && FirstAtOrAfter(Conf(), old(hashRing.ring), hash(old(fdMap)[fd]), sentTo.value)
      ensures fdMap == if erased.Ok? then old(fdMap) - {fd} else old(fdMap)
    {
      if fd !in fdMap {
        return Ok(false), Text.None;
      }
      var lookup := RingLookup(fd);
      if lookup.Err? {
        return Err(lookup.error), Text.None;
      }
      CloseDoneEither(Conf(), Abstract(), fd);
      erased := Ok(true);
      sentTo := CloseAt(fd, lookup.value);
    }
  }
}
