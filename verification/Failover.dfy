/** The client's failover protocol as a transition system: timeout counting (the waits that return
    after a timeout), the guard that removes a host from the ring, and the routed requests
    (hvac_client.cpp). Any number of application threads take steps in any order; looking a host up
    and guarding it are separate steps, because only the guard holds `timeout_mutex`. */
module Failover {
  import opened Decimal
  import opened Labels
  import opened Posix
  import opened Ring

  const TIMEOUT_LIMIT: nat := 3
  const VIRTUAL_NODE_CNT: nat := 100

  datatype Config = Config(hash: Hash, servers: nat, replicas: nat)

  ghost predicate ValidConfig(c: Config) {
    0 < c.servers <= INT32_MAX
  }

  datatype Kind = Open | Read | Pread | Seek | Close

  /** What a thread inside the client library is doing. */
  datatype Phase =
    | Routed(kind: Kind, fd: int, host: nat)   // has looked its host up, has not passed the guard
    | Waiting(kind: Kind, fd: int, host: nat)  // has sent its request, is blocked on the answer

  datatype State = State(
    ring: NodeMap,
    counters: seq<nat>,
    flags: seq<bool>,
    fdMap: map<int, string>,
    ready: bool,
    threads: map<nat, Phase>)

  datatype Action =
    | Track(t: nat, fd: int, path: string)  // hvac_track_file on a tracked file
    | ReadStart(t: nat, fd: int)            // hvac_remote_read: routed by modulo, no guard
    | Lookup(t: nat, kind: Kind, fd: int)   // GetNode in pread, lseek and close
    | Guard(t: nat)                         // the timeout_mutex section, then the request if any
    | Timeout(t: nat)                       // ETIMEDOUT in hvac_client_block or hvac_read_block
    | Reply(t: nat, ret: int)

  datatype Event = Quiet | Sent(kind: Kind, host: nat, timeouts: nat) | Removed(host: nat)

  function Init(c: Config): State {
    State(BuildRing(c.hash, c.servers, c.replicas), seq(c.servers, _ => 0), seq(c.servers, _ => false),
          map[], false, map[])
  }

  function ModuloHost(c: Config, path: string): nat
    requires ValidConfig(c)
  {
    c.hash(path) % c.servers
  }

  lemma SmallMultiple(k: int, n: nat)
    requires 0 - n < k * n < n
    ensures k == 0
  {
  }

  lemma QuotientFromRemainder(a: int, q: int, r: int, n: nat)
    requires 0 < n && a == q * n + r && 0 <= r < n
    ensures a % n == r
  {
    assert a == a / n * n + a % n;
    assert (a / n - q) * n == a / n * n - q * n == r - a % n;
    SmallMultiple(a / n - q, n);
  }

  /** The host a path is opened and read at is the one number below the server count that is congruent to
      the path's hash. */
  lemma ModuloHostExactly(c: Config, path: string, host: nat)
    requires ValidConfig(c)
    ensures host == ModuloHost(c, path) <==> host < c.servers && (c.hash(path) - host) % c.servers == 0
  {
    var a: int, n := c.hash(path), c.servers;
    if host == a % n {
      assert a - host == a / n * n + 0;
      QuotientFromRemainder(a - host, a / n, 0, n);
    } else if host < n && (a - host) % n == 0 {
      assert a - host == (a - host) / n * n;
      QuotientFromRemainder(a, (a - host) / n, host, n);
    }
  }

  /** The host number of the node a path is routed to. */
  ghost function RingHost(c: Config, ring: NodeMap, path: string): Result<int>
    requires ring != map[]
  {
    ConvertHostToNumber(Route(ring, c.hash(path)))
  }

  ghost predicate Enabled(c: Config, s: State, a: Action)
    requires ValidConfig(c)
  {
    match a
    case Track(t, fd, path) => t !in s.threads && |s.counters| == c.servers
    case ReadStart(t, fd) => t !in s.threads && fd in s.fdMap && |s.counters| == c.servers
    case Lookup(t, kind, fd) =>
      && t !in s.threads && fd in s.fdMap && (kind == Pread || kind == Seek || kind == Close)
      && s.ring != map[] && RingHost(c, s.ring, s.fdMap[fd]).Ok? && 0 <= RingHost(c, s.ring, s.fdMap[fd]).value
    case Guard(t) => t in s.threads && s.threads[t].Routed? && s.threads[t].host < |s.counters| == |s.flags|
    case Timeout(t) =>
      && t in s.threads && s.threads[t].Waiting? && s.threads[t].host < |s.counters|
      && (s.threads[t].kind == Open || s.threads[t].kind == Read || s.threads[t].kind == Pread)
    case Reply(t, ret) => t in s.threads && s.threads[t].Waiting?
  }

  /** The guard of hvac_remote_pread and hvac_remote_close; lseek has none. */
  predicate Trips(s: State, kind: Kind, host: nat)
    requires host < |s.counters| == |s.flags|
  {
    kind != Seek && s.counters[host] >= TIMEOUT_LIMIT && !s.flags[host]
  }

  function Forgotten(s: State, kind: Kind, fd: int, failed: bool): State {
    if failed && (kind == Read || kind == Pread) then s.(fdMap := s.fdMap - {fd}) else s
  }

  ghost function Apply(c: Config, s: State, a: Action): (State, Event)
    requires ValidConfig(c) && Enabled(c, s, a)
  {
    match a
    case Track(t, fd, path) =>
      var host := ModuloHost(c, path);
      var s1 := if s.ready then s else s.(ready := true, ring := BuildRing(c.hash, c.servers, c.replicas));
      (s1.(fdMap := s.fdMap[fd := path], threads := s.threads[t := Waiting(Open, fd, host)]),
       Sent(Open, host, s.counters[host]))
    case ReadStart(t, fd) =>
      var host := ModuloHost(c, s.fdMap[fd]);
      (s.(threads := s.threads[t := Waiting(Read, fd, host)]), Sent(Read, host, s.counters[host]))
    case Lookup(t, kind, fd) =>
      var host := RingHost(c, s.ring, s.fdMap[fd]).value;
      (s.(threads := s.threads[t := Routed(kind, fd, host)]), Quiet)
    case Guard(t) =>
      var Routed(kind, fd, host) := s.threads[t];
      var out := s.(fdMap := if kind == Close then s.fdMap - {fd} else s.fdMap, threads := s.threads - {t});
      if Trips(s, kind, host) then
        (Forgotten(out.(ring := WithoutNode(s.ring, c.hash, ServerName(host + 1), c.replicas),
                        flags := s.flags[host := true]), kind, fd, true), Removed(host))
      else if kind == Close then
        (out, Sent(Close, host, s.counters[host]))
      else
        (out.(threads := s.threads[t := Waiting(kind, fd, host)]), Sent(kind, host, s.counters[host]))
    case Timeout(t) =>
      var Waiting(kind, fd, host) := s.threads[t];
      var out := s.(counters := s.counters[host := s.counters[host] + 1], threads := s.threads - {t});
      (Forgotten(out, kind, fd, true), Quiet)
    case Reply(t, ret) =>
      var Waiting(kind, fd, host) := s.threads[t];
      (Forgotten(s.(threads := s.threads - {t}), kind, fd, ret == -1), Quiet)
  }

  // ---------------------------------------------------------------------------------------------
  // Runs
  // ---------------------------------------------------------------------------------------------

  ghost predicate IsRun(c: Config, s: State, actions: seq<Action>)
    requires ValidConfig(c)
    decreases |actions|
  {
    actions == [] || (Enabled(c, s, actions[0]) && IsRun(c, Apply(c, s, actions[0]).0, actions[1..]))
  }

  ghost function After(c: Config, s: State, actions: seq<Action>): State
    requires ValidConfig(c) && IsRun(c, s, actions)
    decreases |actions|
  {
    if actions == [] then s else After(c, Apply(c, s, actions[0]).0, actions[1..])
  }

  ghost function Events(c: Config, s: State, actions: seq<Action>): seq<Event>
    requires ValidConfig(c) && IsRun(c, s, actions)
    decreases |actions|
  {
    if actions == [] then [] else [Apply(c, s, actions[0]).1] + Events(c, Apply(c, s, actions[0]).0, actions[1..])
  }

  function Removals(events: seq<Event>, host: nat): nat {
    if events == [] then 0 else (if events[0] == Removed(host) then 1 else 0) + Removals(events[1..], host)
  }

  // ---------------------------------------------------------------------------------------------
  // The invariant
  // ---------------------------------------------------------------------------------------------

  function FlaggedPositions(c: Config, flags: seq<bool>): set<Position> {
    set host, p | 0 <= host < |flags| && flags[host] && p in HostPositions(c.hash, host, c.replicas) :: p
  }

  /** The ring is always a function of the flags alone. */
  function Survivors(c: Config, flags: seq<bool>): NodeMap {
    BuildRing(c.hash, c.servers, c.replicas) - FlaggedPositions(c, flags)
  }

  ghost predicate Inv(c: Config, s: State) {
    && |s.counters| == |s.flags| == c.servers
    && s.ring == Survivors(c, s.flags)
    && (forall h | 0 <= h < c.servers && s.flags[h] :: s.counters[h] >= TIMEOUT_LIMIT)
    && (forall t | t in s.threads :: s.threads[t].host < c.servers)
    && (!s.ready ==> s.fdMap == map[] && s.threads == map[] && forall h | 0 <= h < c.servers :: !s.flags[h])
  }

  lemma NoFlagsNoPositions(c: Config, flags: seq<bool>)
    requires forall h | 0 <= h < |flags| :: !flags[h]
    ensures Survivors(c, flags) == BuildRing(c.hash, c.servers, c.replicas)
  {
    assert FlaggedPositions(c, flags) == {};
  }

  lemma InvInit(c: Config)
    ensures Inv(c, Init(c))
  {
    NoFlagsNoPositions(c, Init(c).flags);
  }

  /** Whatever survives on the ring belongs to a host that is not flagged, and its node name
      converts to that host's number. */
  lemma SurvivorIsUnflagged(c: Config, flags: seq<bool>, p: Position) returns (host: nat)
    requires ValidConfig(c) && |flags| == c.servers && p in Survivors(c, flags)
    ensures host < c.servers && !flags[host]
    ensures Survivors(c, flags)[p] == ServerName(host + 1) && p in HostPositions(c.hash, host, c.replicas)
    ensures ConvertHostToNumber(Survivors(c, flags)[p]) == Ok(host as int)
  {
    BuildOwner(c.hash, c.servers, c.replicas, p);
    host :| host < c.servers && BuildRing(c.hash, c.servers, c.replicas)[p] == ServerName(host + 1)
      && p in HostPositions(c.hash, host, c.replicas);
    HostNumberOfServer(host);
  }

  /** The ring never names a flagged host, and the host it names is a valid index of both vectors. */
  lemma FlaggedNeverRouted(c: Config, s: State, path: string)
    requires ValidConfig(c) && Inv(c, s) && s.ring != map[]
    ensures RingHost(c, s.ring, path).Ok?
    ensures 0 <= RingHost(c, s.ring, path).value < c.servers
    ensures !s.flags[RingHost(c, s.ring, path).value]
  {
    var host := SurvivorIsUnflagged(c, s.flags, OwnerPosition(s.ring, c.hash(path)));
  }

  /** One of the host's virtual nodes is the first on the ring at or after the key, with wrap-around, and it
      is the host's name that stands there. */
  ghost predicate FirstAtOrAfter(c: Config, ring: NodeMap, key: Position, host: nat) {
    exists p :: IsLowerBound(ring, key, p) && ring[p] == ServerName(host + 1)
      && p in HostPositions(c.hash, host, c.replicas)
  }

  lemma SameNameSameHost(h: nat, h': nat)
    requires ServerName(h + 1) == ServerName(h' + 1)
    ensures h == h'
  {
    assert ServerName(h + 1)[|PREFIX|..] == ToString(h + 1);
    assert ServerName(h' + 1)[|PREFIX|..] == ToString(h' + 1);
    ToStringInjective(h + 1, h' + 1);
  }

  /** A path's pread, lseek and close go to a host exactly when one of its virtual nodes is the first at or
      after the hash of the path. */
  lemma RingHostExactly(c: Config, s: State, path: string, host: nat)
    requires ValidConfig(c) && Inv(c, s) && s.ring != map[]
    ensures RingHost(c, s.ring, path) == Ok(host as int) <==> FirstAtOrAfter(c, s.ring, c.hash(path), host)
  {
    var p := OwnerPosition(s.ring, c.hash(path));
    var owner := SurvivorIsUnflagged(c, s.flags, p);
    LowerBoundIsNearest(s.ring, c.hash(path), p);
    if FirstAtOrAfter(c, s.ring, c.hash(path), host) {
      var q :| IsLowerBound(s.ring, c.hash(path), q) && s.ring[q] == ServerName(host + 1);
      LowerBoundIsNearest(s.ring, c.hash(path), q);
      OwnerUnique(s.ring, c.hash(path), q);
      SameNameSameHost(owner, host);
    }
  }

  lemma OneMoreFlag(c: Config, flags: seq<bool>, host: nat)
    requires |flags| == c.servers && host < c.servers
    ensures Survivors(c, flags[host := true])
         == WithoutNode(Survivors(c, flags), c.hash, ServerName(host + 1), c.replicas)
  {
    var f' := flags[host := true];
    forall p ensures p in FlaggedPositions(c, f') <==>
      p in FlaggedPositions(c, flags) || p in HostPositions(c.hash, host, c.replicas)
    {
      if p in FlaggedPositions(c, flags) {
        var h :| 0 <= h < |flags| && flags[h] && p in HostPositions(c.hash, h, c.replicas);
        assert f'[h];
      }
      if p in HostPositions(c.hash, host, c.replicas) {
        assert f'[host];
      }
    }
  }

  /** What a passing guard leaves of everything but the threads and the tracking: all of it. */
  lemma GuardPasses(c: Config, s: State, t: nat)
    requires ValidConfig(c) && Enabled(c, s, Guard(t)) && !Trips(s, s.threads[t].kind, s.threads[t].host)
    ensures
      var s' := Apply(c, s, Guard(t)).0;
      && s'.ring == s.ring && s'.flags == s.flags && s'.counters == s.counters && s'.ready == s.ready
      && s'.fdMap.Keys <= s.fdMap.Keys && s'.threads.Keys <= s.threads.Keys
      && forall x | x in s'.threads :: s'.threads[x].host == s.threads[x].host
  {
  }

  lemma GuardTrips(c: Config, s: State, t: nat)
    requires ValidConfig(c) && Enabled(c, s, Guard(t)) && Trips(s, s.threads[t].kind, s.threads[t].host)
    ensures
      var s', host := Apply(c, s, Guard(t)).0, s.threads[t].host;
      && s'.ring == WithoutNode(s.ring, c.hash, ServerName(host + 1), c.replicas)
      && s'.flags == s.flags[host := true] && s'.counters == s.counters && s'.ready == s.ready
      && s'.threads == s.threads - {t}
  {
  }

  lemma GuardKeepsInv(c: Config, s: State, t: nat)
    requires ValidConfig(c) && Inv(c, s) && Enabled(c, s, Guard(t))
    ensures Inv(c, Apply(c, s, Guard(t)).0)
  {
    var Routed(kind, _, host) := s.threads[t];
    if Trips(s, kind, host) {
      GuardTrips(c, s, t);
      OneMoreFlag(c, s.flags, host);
    } else {
      GuardPasses(c, s, t);
    }
  }

  lemma TrackKeepsInv(c: Config, s: State, t: nat, fd: int, path: string)
    requires ValidConfig(c) && Inv(c, s) && Enabled(c, s, Track(t, fd, path))
    ensures Inv(c, Apply(c, s, Track(t, fd, path)).0)
  {
    if !s.ready {
      NoFlagsNoPositions(c, s.flags);
    }
  }

  lemma LookupKeepsInv(c: Config, s: State, t: nat, kind: Kind, fd: int)
    requires ValidConfig(c) && Inv(c, s) && Enabled(c, s, Lookup(t, kind, fd))
    ensures Inv(c, Apply(c, s, Lookup(t, kind, fd)).0)
  {
    FlaggedNeverRouted(c, s, s.fdMap[fd]);
  }

  lemma InvKept(c: Config, s: State, a: Action)
    requires ValidConfig(c) && Inv(c, s) && Enabled(c, s, a)
    ensures Inv(c, Apply(c, s, a).0)
  {
    match a
    case Track(t, fd, path) => TrackKeepsInv(c, s, t, fd, path);
    case ReadStart(t, fd) =>
    case Lookup(t, kind, fd) => LookupKeepsInv(c, s, t, kind, fd);
    case Guard(t) => GuardKeepsInv(c, s, t);
    case Timeout(t) =>
    case Reply(t, ret) =>
  }

  lemma {:induction false} InvAlways(c: Config, s: State, actions: seq<Action>)
    requires ValidConfig(c) && Inv(c, s) && IsRun(c, s, actions)
    ensures Inv(c, After(c, s, actions))
    decreases |actions|
  {
    if actions != [] {
      InvKept(c, s, actions[0]);
      InvAlways(c, Apply(c, s, actions[0]).0, actions[1..]);
    }
  }

  lemma FlagStep(c: Config, s: State, a: Action, host: nat)
    requires ValidConfig(c) && Inv(c, s) && Enabled(c, s, a) && host < c.servers
    ensures |Apply(c, s, a).0.flags| == c.servers
    ensures Apply(c, s, a).0.flags[host] <==> s.flags[host] || Apply(c, s, a).1 == Removed(host)
    ensures Apply(c, s, a).1 == Removed(host) ==> !s.flags[host]
  {
  }

  /** Over a whole run a host's flag only ever goes up, and it goes up exactly as often as the host is
      taken off the ring: so each host is removed at most once. */
  lemma {:induction false} RemovedOnce(c: Config, s: State, actions: seq<Action>, host: nat)
    requires ValidConfig(c) && Inv(c, s) && IsRun(c, s, actions) && host < c.servers
    ensures |After(c, s, actions).flags| == c.servers
    ensures s.flags[host] ==> After(c, s, actions).flags[host]
    ensures Removals(Events(c, s, actions), host)
         == if After(c, s, actions).flags[host] && !s.flags[host] then 1 else 0
    decreases |actions|
  {
    if actions != [] {
      var step := Apply(c, s, actions[0]);
      InvKept(c, s, actions[0]);
      FlagStep(c, s, actions[0], host);
      RemovedOnce(c, step.0, actions[1..], host);
      assert Events(c, s, actions)[1..] == Events(c, step.0, actions[1..]);
    }
  }

  // ---------------------------------------------------------------------------------------------
  // Routing
  // ---------------------------------------------------------------------------------------------

  /** Two clients that have flagged the same hosts, each in its own order and over its own run, route
      every path to the same host. */
  lemma SameFailuresSameRouting(c: Config, s: State, s': State, path: string)
    requires ValidConfig(c) && Inv(c, s) && Inv(c, s')
    requires s.flags == s'.flags && s.ring != map[]
    ensures s'.ring != map[] && RingHost(c, s.ring, path) == RingHost(c, s'.ring, path)
  {
  }

  lemma FlagsOnlyGrow(c: Config, s: State, actions: seq<Action>)
    requires ValidConfig(c) && Inv(c, s) && IsRun(c, s, actions)
    ensures |After(c, s, actions).flags| == c.servers
    ensures forall h | 0 <= h < c.servers && s.flags[h] :: After(c, s, actions).flags[h]
  {
    InvAlways(c, s, actions);
    forall h | 0 <= h < c.servers && s.flags[h] ensures After(c, s, actions).flags[h] {
      RemovedOnce(c, s, actions, h);
    }
  }

  lemma MoreFlagsFewerPositions(c: Config, flags: seq<bool>, flags': seq<bool>)
    requires |flags| == |flags'| == c.servers
    requires forall h | 0 <= h < c.servers && flags[h] :: flags'[h]
    ensures Survivors(c, flags') == Survivors(c, flags) - FlaggedPositions(c, flags')
  {
    forall p | p in FlaggedPositions(c, flags) ensures p in FlaggedPositions(c, flags') {
      var h :| 0 <= h < |flags| && flags[h] && p in HostPositions(c.hash, h, c.replicas);
      assert flags'[h];
    }
  }

  /** Without any assumption on collisions: over any run a path keeps the position that owns it exactly
      until some removed host had a virtual node there. */
  lemma PositionAffinity(c: Config, s: State, actions: seq<Action>, path: string)
    requires ValidConfig(c) && Inv(c, s) && IsRun(c, s, actions) && After(c, s, actions).ring != map[]
    ensures s.ring != map[]
    ensures
      var later := After(c, s, actions);
      var owner := OwnerPosition(s.ring, c.hash(path));
      OwnerPosition(later.ring, c.hash(path)) == owner <==> owner !in FlaggedPositions(c, later.flags)
  {
    InvAlways(c, s, actions);
    FlagsOnlyGrow(c, s, actions);
    var flags := After(c, s, actions).flags;
    MoreFlagsFewerPositions(c, s.flags, flags);
    OwnerAfterErasing(s.ring, FlaggedPositions(c, flags), c.hash(path));
  }

  /** Affinity: with collision-free positions a path keeps its host over any run, whatever other hosts
      fail meanwhile, exactly as long as that host itself has not been removed. */
  lemma Affinity(c: Config, s: State, actions: seq<Action>, path: string)
    requires ValidConfig(c) && CollisionFree(c.hash, c.servers, c.replicas)
    requires Inv(c, s) && IsRun(c, s, actions)
    requires s.ring != map[] && After(c, s, actions).ring != map[]
    ensures RingHost(c, s.ring, path).Ok? && 0 <= RingHost(c, s.ring, path).value < c.servers
    ensures |After(c, s, actions).flags| == c.servers
    ensures RingHost(c, After(c, s, actions).ring, path) == RingHost(c, s.ring, path)
       <==> !After(c, s, actions).flags[RingHost(c, s.ring, path).value]
  {
    var s' := After(c, s, actions);
    InvAlways(c, s, actions);
    FlagsOnlyGrow(c, s, actions);
    FlaggedNeverRouted(c, s, path);
    FlaggedNeverRouted(c, s', path);
    var p := OwnerPosition(s.ring, c.hash(path));
    var host := SurvivorIsUnflagged(c, s.flags, p);
    PositionAffinity(c, s, actions, path);
    if !s'.flags[host] {
      assert p !in FlaggedPositions(c, s'.flags);
    }
  }

  /** The host has a virtual node at a position where no other host has one. */
  ghost predicate HasOwnPosition(c: Config, host: nat) {
    exists p :: p in HostPositions(c.hash, host, c.replicas) && OnlyThere(c, host, p)
  }

  ghost predicate OnlyThere(c: Config, host: nat, p: Position) {
    forall i: nat | i < c.servers && i != host :: p !in HostPositions(c.hash, i, c.replicas)
  }

  predicate AllSet(flags: seq<bool>) {
    forall h | 0 <= h < |flags| :: flags[h]
  }

  /** Whichever hosts are removed, the ring is empty only when all of them are. */
  ghost predicate EmptiesLast(c: Config) {
    forall flags: seq<bool> | |flags| == c.servers :: Survivors(c, flags) == map[] <==> AllSet(flags)
  }

  lemma AllSetLeavesNothing(c: Config, flags: seq<bool>)
    requires ValidConfig(c) && |flags| == c.servers && AllSet(flags)
    ensures Survivors(c, flags) == map[]
  {
    if p :| p in Survivors(c, flags) {
      var h := SurvivorIsUnflagged(c, flags, p);
      assert false;
    }
  }

  lemma OwnPositionSurvives(c: Config, flags: seq<bool>, h: nat)
    requires ValidConfig(c) && |flags| == c.servers && h < c.servers && !flags[h] && HasOwnPosition(c, h)
    ensures Survivors(c, flags) != map[]
  {
    var p :| p in HostPositions(c.hash, h, c.replicas) && OnlyThere(c, h, p);
    BuildCovers(c.hash, c.servers, c.replicas, h);
    assert p !in FlaggedPositions(c, flags);
    assert p in Survivors(c, flags);
  }

  /** All hosts removed but h. */
  function AllBut(c: Config, h: nat): (flags: seq<bool>)
    ensures |flags| == c.servers
    ensures forall i | 0 <= i < c.servers :: flags[i] <==> i != h
  {
    seq(c.servers, i => i != h)
  }

  lemma SharedIsFlagged(c: Config, h: nat, p: Position)
    requires p in HostPositions(c.hash, h, c.replicas) && !HasOwnPosition(c, h)
    ensures p in FlaggedPositions(c, AllBut(c, h))
  {
    assert !OnlyThere(c, h, p);
    var i: nat :| i < c.servers && i != h && p in HostPositions(c.hash, i, c.replicas);
    assert AllBut(c, h)[i];
  }

  lemma SharedPositionsVanish(c: Config, h: nat)
    requires ValidConfig(c) && h < c.servers && !HasOwnPosition(c, h)
    ensures Survivors(c, AllBut(c, h)) == map[]
  {
    var flags := AllBut(c, h);
    if p :| p in Survivors(c, flags) {
      var owner := SurvivorIsUnflagged(c, flags, p);
      SharedIsFlagged(c, h, p);
      assert false;
    }
  }

  /** "Empty ring" means that all hosts have failed, whichever failed and in whatever order, exactly when
      every host has a position of its own; without one, the ring is empty as soon as all others are
      removed. */
  lemma EmptiesLastExactly(c: Config)
    requires ValidConfig(c)
    ensures EmptiesLast(c) <==> forall h: nat | h < c.servers :: HasOwnPosition(c, h)
  {
    if forall h: nat | h < c.servers :: HasOwnPosition(c, h) {
      forall flags: seq<bool> | |flags| == c.servers ensures Survivors(c, flags) == map[] <==> AllSet(flags) {
        if AllSet(flags) {
          AllSetLeavesNothing(c, flags);
        } else {
          var h: nat :| h < |flags| && !flags[h];
          OwnPositionSurvives(c, flags, h);
        }
      }
    } else {
      var h: nat :| h < c.servers && !HasOwnPosition(c, h);
      SharedPositionsVanish(c, h);
      assert !AllSet(AllBut(c, h)) by {
        assert !AllBut(c, h)[h];
      }
    }
  }

  /** Hosts that share no position have one of their own each, given a virtual node. */
  lemma CollisionFreeHasOwn(c: Config, h: nat)
    requires CollisionFree(c.hash, c.servers, c.replicas) && 0 < c.replicas && h < c.servers
    ensures HasOwnPosition(c, h)
  {
    var p := c.hash(ReplicaLabel(ServerName(h + 1), 0));
    assert p in HostPositions(c.hash, h, c.replicas) && OnlyThere(c, h, p);
  }

  /** In a running client: GetNode's "Empty ring" error means exactly that every host has been flagged. */
  lemma EmptyRingMeansAllFailed(c: Config, s: State)
    requires ValidConfig(c) && Inv(c, s) && forall h: nat | h < c.servers :: HasOwnPosition(c, h)
    ensures s.ring == map[] <==> AllSet(s.flags)
  {
    EmptiesLastExactly(c);
  }

  // ---------------------------------------------------------------------------------------------
  // Requests and the timeout limit
  // ---------------------------------------------------------------------------------------------

  /** A guarded request leaves for a host at its limit exactly when that host is already flagged. */
  lemma SendAtLimitIffFlagged(c: Config, s: State, t: nat)
    requires ValidConfig(c) && Inv(c, s) && Enabled(c, s, Guard(t)) && s.threads[t].kind != Seek
    ensures Apply(c, s, Guard(t)).1.Sent? ==>
      && Apply(c, s, Guard(t)).1.host == s.threads[t].host
      && Apply(c, s, Guard(t)).1.timeouts == s.counters[s.threads[t].host]
      && (Apply(c, s, Guard(t)).1.timeouts >= TIMEOUT_LIMIT <==> s.flags[s.threads[t].host])
    ensures Apply(c, s, Guard(t)).1.Sent? || Apply(c, s, Guard(t)).1 == Removed(s.threads[t].host)
  {
  }

  /** In a client whose threads do not interleave between lookup and guard, a pread or close request
      only ever goes to a host below the limit. */
  lemma UninterruptedSendIsBelowLimit(c: Config, s: State, t: nat, kind: Kind, fd: int)
    requires ValidConfig(c) && Inv(c, s) && Enabled(c, s, Lookup(t, kind, fd)) && kind != Seek
    ensures Enabled(c, Apply(c, s, Lookup(t, kind, fd)).0, Guard(t))
    ensures
      var event := Apply(c, Apply(c, s, Lookup(t, kind, fd)).0, Guard(t)).1;
      match event
      case Sent(_, host, timeouts) => timeouts == s.counters[host] < TIMEOUT_LIMIT
      case Removed(host) => s.counters[host] >= TIMEOUT_LIMIT
      case Quiet => false
  {
    FlaggedNeverRouted(c, s, s.fdMap[fd]);
    var s1 := Apply(c, s, Lookup(t, kind, fd)).0;
    InvKept(c, s, Lookup(t, kind, fd));
    SendAtLimitIffFlagged(c, s1, t);
  }

  /** When other threads do interleave, the request goes to a host at its limit exactly when one of
      them removed that host between this thread's lookup and its guard. */
  lemma SendAtLimitIffRemovedMeanwhile(c: Config, s: State, t: nat, kind: Kind, fd: int, others: seq<Action>)
    requires ValidConfig(c) && Inv(c, s) && Enabled(c, s, Lookup(t, kind, fd)) && kind != Seek
    requires IsRun(c, Apply(c, s, Lookup(t, kind, fd)).0, others)
    requires
      var s1 := Apply(c, s, Lookup(t, kind, fd)).0;
      var s2 := After(c, s1, others);
      t in s2.threads && s2.threads[t] == s1.threads[t]
    ensures
      var s1 := Apply(c, s, Lookup(t, kind, fd)).0;
      var s2 := After(c, s1, others);
      && Enabled(c, s2, Guard(t))
      && var event := Apply(c, s2, Guard(t)).1;
         event.Sent? ==>
           (event.timeouts >= TIMEOUT_LIMIT <==> Removals(Events(c, s1, others), s1.threads[t].host) == 1)
  {
    var s1 := Apply(c, s, Lookup(t, kind, fd)).0;
    FlaggedNeverRouted(c, s, s.fdMap[fd]);
    InvKept(c, s, Lookup(t, kind, fd));
    InvAlways(c, s1, others);
    RemovedOnce(c, s1, others, s1.threads[t].host);
    SendAtLimitIffFlagged(c, After(c, s1, others), t);
  }

  /** Opens and reads go by modulo, past guard and ring: one is sent to a flagged host exactly when its path's
      modulo host is flagged, and its event tells that host's timeouts. */
  lemma ModuloSendsToFlaggedExactly(c: Config, s: State, a: Action)
    requires ValidConfig(c) && Inv(c, s) && Enabled(c, s, a) && (a.Track? || a.ReadStart?)
    ensures
      var path := if a.Track? then a.path else s.fdMap[a.fd];
      var event := Apply(c, s, a).1;
      && event.Sent? && event.host < c.servers
      && (s.flags[event.host] <==> s.flags[ModuloHost(c, path)])
      && event.host == ModuloHost(c, path) && event.timeouts == s.counters[event.host]
      && (s.flags[event.host] ==> TIMEOUT_LIMIT <= event.timeouts)
  {
  }

  // ---------------------------------------------------------------------------------------------
  // Runs in which a client loses something
  // ---------------------------------------------------------------------------------------------

  lemma {:induction false} OneMoreStep(c: Config, s: State, actions: seq<Action>, a: Action)
    requires ValidConfig(c) && IsRun(c, s, actions) && Enabled(c, After(c, s, actions), a)
    ensures IsRun(c, s, actions + [a])
    ensures After(c, s, actions + [a]) == Apply(c, After(c, s, actions), a).0
    decreases |actions|
  {
    if actions == [] {
      assert actions + [a] == [a];
      assert [a][1..] == [];
    } else {
      assert (actions + [a])[1..] == actions[1..] + [a];
      OneMoreStep(c, Apply(c, s, actions[0]).0, actions[1..], a);
    }
  }

  const FIVE: set<nat> := {0, 1, 2, 3, 4}

  /** Threads first..split-1 wait for a pread answer of the host, threads split..end-1 are about to
      guard. */
  function Preads(first: nat, split: nat, end: nat, fd: int, host: nat): map<nat, Phase> {
    map t | t in FIVE && first <= t < end ::
      if t < split then Waiting(Pread, fd, host) else Routed(Pread, fd, host)
  }

  function Tracked(c: Config, fd: int, path: string): State {
    Init(c).(fdMap := map[fd := path], ready := true)
  }

  lemma TrackOnce(c: Config, fd: int, path: string)
    requires ValidConfig(c)
    ensures IsRun(c, Init(c), [Track(0, fd, path), Reply(0, 0)])
    ensures After(c, Init(c), [Track(0, fd, path), Reply(0, 0)]) == Tracked(c, fd, path)
  {
    OneMoreStep(c, Init(c), [], Track(0, fd, path));
    assert [] + [Track(0, fd, path)] == [Track(0, fd, path)];
    OneMoreStep(c, Init(c), [Track(0, fd, path)], Reply(0, 0));
    assert [Track(0, fd, path)] + [Reply(0, 0)] == [Track(0, fd, path), Reply(0, 0)];
  }

  lemma InitialHost(c: Config, path: string) returns (host: nat)
    requires ValidConfig(c) && 0 < c.replicas
    ensures Init(c).ring != map[] && RingHost(c, Init(c).ring, path) == Ok(host as int) && host < c.servers
  {
    InvInit(c);
    BuildCovers(c.hash, c.servers, c.replicas, 0);
    assert c.hash(ReplicaLabel(ServerName(1), 0)) in HostPositions(c.hash, 0, c.replicas);
    FlaggedNeverRouted(c, Init(c), path);
    host := RingHost(c, Init(c).ring, path).value;
  }

  lemma NextLookup(c: Config, fd: int, path: string, t: nat, host: nat)
    requires ValidConfig(c) && Init(c).ring != map[] && t < 5
    requires RingHost(c, Init(c).ring, path) == Ok(host as int)
    ensures
      var s := Tracked(c, fd, path).(threads := Preads(0, 0, t, fd, host));
      && Enabled(c, s, Lookup(t, Pread, fd))
      && Apply(c, s, Lookup(t, Pread, fd)).0 == Tracked(c, fd, path).(threads := Preads(0, 0, t + 1, fd, host))
  {
    assert Preads(0, 0, t, fd, host)[t := Routed(Pread, fd, host)] == Preads(0, 0, t + 1, fd, host);
  }

  lemma FiveLookups(c: Config, fd: int, path: string, host: nat) returns (actions: seq<Action>)
    requires ValidConfig(c) && Init(c).ring != map[] && RingHost(c, Init(c).ring, path) == Ok(host as int)
    ensures IsRun(c, Init(c), actions)
    ensures After(c, Init(c), actions) == Tracked(c, fd, path).(threads := Preads(0, 0, 5, fd, host))
  {
    actions := [Track(0, fd, path), Reply(0, 0)];
    TrackOnce(c, fd, path);
    assert Preads(0, 0, 0, fd, host) == map[];
    for t := 0 to 5
      invariant IsRun(c, Init(c), actions)
      invariant After(c, Init(c), actions) == Tracked(c, fd, path).(threads := Preads(0, 0, t, fd, host))
    {
      NextLookup(c, fd, path, t, host);
      OneMoreStep(c, Init(c), actions, Lookup(t, Pread, fd));
      actions := actions + [Lookup(t, Pread, fd)];
    }
  }

  lemma NextGuard(c: Config, fd: int, path: string, t: nat, host: nat)
    requires ValidConfig(c) && t < 3 && host < c.servers
    ensures
      var s := Tracked(c, fd, path).(threads := Preads(0, t, 5, fd, host));
      && Enabled(c, s, Guard(t))
      && Apply(c, s, Guard(t)).0 == Tracked(c, fd, path).(threads := Preads(0, t + 1, 5, fd, host))
  {
    assert Preads(0, t, 5, fd, host)[t := Waiting(Pread, fd, host)] == Preads(0, t + 1, 5, fd, host);
  }

  lemma ThreeGuards(c: Config, fd: int, path: string, host: nat) returns (actions: seq<Action>)
    requires ValidConfig(c) && Init(c).ring != map[] && RingHost(c, Init(c).ring, path) == Ok(host as int)
    requires host < c.servers
    ensures IsRun(c, Init(c), actions)
    ensures After(c, Init(c), actions) == Tracked(c, fd, path).(threads := Preads(0, 3, 5, fd, host))
  {
    actions := FiveLookups(c, fd, path, host);
    for t := 0 to 3
      invariant IsRun(c, Init(c), actions)
      invariant After(c, Init(c), actions) == Tracked(c, fd, path).(threads := Preads(0, t, 5, fd, host))
    {
      NextGuard(c, fd, path, t, host);
      OneMoreStep(c, Init(c), actions, Guard(t));
      actions := actions + [Guard(t)];
    }
  }

  function TimedOut(c: Config, fd: int, path: string, host: nat, k: nat): State
    requires host < c.servers
  {
    Tracked(c, fd, path).(threads := Preads(k, 3, 5, fd, host),
                          fdMap := if k == 0 then map[fd := path] else map[],
                          counters := Init(c).counters[host := k])
  }

  lemma NextTimeout(c: Config, fd: int, path: string, host: nat, k: nat)
    requires ValidConfig(c) && k < 3 && host < c.servers
    ensures Enabled(c, TimedOut(c, fd, path, host, k), Timeout(k))
    ensures Apply(c, TimedOut(c, fd, path, host, k), Timeout(k)).0 == TimedOut(c, fd, path, host, k + 1)
  {
    assert Preads(k, 3, 5, fd, host) - {k} == Preads(k + 1, 3, 5, fd, host);
    assert map[fd := path] - {fd} == map[];
    assert TimedOut(c, fd, path, host, k).threads[k] == Waiting(Pread, fd, host);
  }

  lemma ThreeTimeouts(c: Config, fd: int, path: string, host: nat) returns (actions: seq<Action>)
    requires ValidConfig(c) && Init(c).ring != map[] && RingHost(c, Init(c).ring, path) == Ok(host as int)
    requires host < c.servers
    ensures IsRun(c, Init(c), actions)
    ensures After(c, Init(c), actions) == TimedOut(c, fd, path, host, 3)
  {
    actions := ThreeGuards(c, fd, path, host);
    assert Init(c).counters[host := 0] == Init(c).counters;
    for k := 0 to 3
      invariant IsRun(c, Init(c), actions)
      invariant After(c, Init(c), actions) == TimedOut(c, fd, path, host, k)
    {
      NextTimeout(c, fd, path, host, k);
      OneMoreStep(c, Init(c), actions, Timeout(k));
      actions := actions + [Timeout(k)];
    }
  }

  /** For every hash, server count and path there is a run in which one thread removes the path's host
      while another, past its lookup, still sends it a pread: three timeouts are on record and the
      flag in the guard lets the request through. */
  lemma LateGuardSendsAtLimit(c: Config, fd: int, path: string) returns (actions: seq<Action>, host: nat)
    requires ValidConfig(c) && 0 < c.replicas
    ensures IsRun(c, Init(c), actions) && host < c.servers
    ensures Init(c).ring != map[] && RingHost(c, Init(c).ring, path) == Ok(host as int)
    ensures After(c, Init(c), actions).flags == Init(c).flags[host := true]
    ensures Enabled(c, After(c, Init(c), actions), Guard(4))
    ensures Apply(c, After(c, Init(c), actions), Guard(4)).1 == Sent(Pread, host, TIMEOUT_LIMIT)
    ensures 9 !in After(c, Init(c), actions).threads
  {
    host := InitialHost(c, path);
    actions := ThreeTimeouts(c, fd, path, host);
    OneMoreStep(c, Init(c), actions, Guard(3));
    actions := actions + [Guard(3)];
  }

  /** After that removal any path can still be opened, and its open is sent to its modulo host; it goes to the
      removed and flagged host, at its limit, exactly when that is the path's modulo host. */
  lemma OpensStillGoToFlaggedHosts(c: Config, fd: int, path: string, later: string)
    returns (actions: seq<Action>, host: nat)
    requires ValidConfig(c) && 0 < c.replicas
    ensures IsRun(c, Init(c), actions) && host < c.servers
    ensures Init(c).ring != map[] && RingHost(c, Init(c).ring, path) == Ok(host as int)
    ensures After(c, Init(c), actions).flags == Init(c).flags[host := true]
    ensures
      var s := After(c, Init(c), actions);
      && Enabled(c, s, Track(9, 8, later))
      && var event := Apply(c, s, Track(9, 8, later)).1;
         && event.Sent? && event.kind == Open && event.host == ModuloHost(c, later) < c.servers
         && (s.flags[event.host] <==> ModuloHost(c, later) == host)
         && (ModuloHost(c, later) == host ==> event.timeouts >= TIMEOUT_LIMIT)
  {
    actions, host := LateGuardSendsAtLimit(c, fd, path);
    InvInit(c);
    InvAlways(c, Init(c), actions);
    ModuloSendsToFlaggedExactly(c, After(c, Init(c), actions), Track(9, 8, later));
  }

  /** Any path's host can come to be the only one removed. */
  lemma RemovalReachable(c: Config, path: string) returns (actions: seq<Action>, host: nat)
    requires ValidConfig(c) && 0 < c.replicas
    ensures IsRun(c, Init(c), actions) && host < c.servers
    ensures Init(c).ring != map[] && RingHost(c, Init(c).ring, path) == Ok(host as int)
    ensures After(c, Init(c), actions).flags == Init(c).flags[host := true]
    ensures After(c, Init(c), actions).ring == Survivors(c, Init(c).flags[host := true])
  {
    actions, host := LateGuardSendsAtLimit(c, 3, path);
    InvInit(c);
    InvAlways(c, Init(c), actions);
  }

  lemma CoveredNeverSurvives(c: Config, flags: seq<bool>, h: nat, i: nat, p: Position)
    requires ValidConfig(c) && |flags| == c.servers && i < c.servers && flags[i]
    requires HostPositions(c.hash, h, c.replicas) <= HostPositions(c.hash, i, c.replicas)
    requires p in HostPositions(c.hash, h, c.replicas)
    ensures p !in Survivors(c, flags)
  {
    assert p in FlaggedPositions(c, flags);
  }

  lemma CoveredIsSilent(c: Config, flags: seq<bool>, h: nat, i: nat, path: string)
    requires ValidConfig(c) && |flags| == c.servers && i < c.servers && flags[i]
    requires HostPositions(c.hash, h, c.replicas) <= HostPositions(c.hash, i, c.replicas)
    requires Survivors(c, flags) != map[]
    ensures RingHost(c, Survivors(c, flags), path) != Ok(h as int)
    ensures !(c.servers == 2 && h < 2 && h != i)
  {
    var p := OwnerPosition(Survivors(c, flags), c.hash(path));
    var owner := SurvivorIsUnflagged(c, flags, p);
    if owner == h {
      CoveredNeverSurvives(c, flags, h, i, p);
    }
  }

  /** Sharing positions costs a healthy host its place: if all of h's positions are also i's, and i serves
      some path, then a run from the start removes i alone, and no path is routed to h any more; with no
      third host the ring is empty. */
  lemma RemovalSilencesAHealthyHost(c: Config, h: nat, i: nat, served: string) returns (actions: seq<Action>)
    requires ValidConfig(c) && 0 < c.replicas && h < c.servers && i < c.servers && h != i
    requires HostPositions(c.hash, h, c.replicas) <= HostPositions(c.hash, i, c.replicas)
    requires Init(c).ring != map[] && RingHost(c, Init(c).ring, served) == Ok(i as int)
    ensures IsRun(c, Init(c), actions) && After(c, Init(c), actions).flags == Init(c).flags[i := true]
    ensures After(c, Init(c), actions).ring != map[] ==>
      forall path :: RingHost(c, After(c, Init(c), actions).ring, path) != Ok(h as int)
    ensures c.servers == 2 ==> After(c, Init(c), actions).ring == map[]
  {
    var host: nat;
    actions, host := RemovalReachable(c, served);
    var flags := Init(c).flags[i := true];
    if Survivors(c, flags) != map[] {
      forall path ensures RingHost(c, Survivors(c, flags), path) != Ok(h as int) {
        CoveredIsSilent(c, flags, h, i, path);
      }
      CoveredIsSilent(c, flags, h, i, served);
    }
  }

  /** A hash under which server1 and server2 share position 0. */
  function SharingHash(): Hash {
    (s: string) => if s == "p" then 3 else if s == "server11" then 5 else 0
  }

  lemma SharedPositions()
    ensures HostPositions(SharingHash(), 0, 2) == {0, 5}
    ensures HostPositions(SharingHash(), 1, 2) == {0}
  {
    TenPrinted();
    assert ServerName(1) == "server1";
    assert ToString(2) == "2";
    assert ServerName(2) == "server2";
    assert ReplicaLabel(ServerName(1), 0) == "server10" && ReplicaLabel(ServerName(1), 1) == "server11";
    assert ReplicaLabel(ServerName(2), 0)[6] == '2' && ReplicaLabel(ServerName(2), 1)[6] == '2';
    assert "server11"[6] == '1';
    assert 0 in HostPositions(SharingHash(), 0, 2);
    assert 5 in HostPositions(SharingHash(), 0, 2);
    assert 0 in HostPositions(SharingHash(), 1, 2);
  }

  lemma SharedRing()
    ensures BuildRing(SharingHash(), 2, 2) == map[0 := ServerName(2), 5 := ServerName(1)]
  {
    SharedPositions();
    var hash := SharingHash();
    assert BuildRing(hash, 0, 2) == map[];
    assert BuildRing(hash, 1, 2) == WithNode(map[], hash, ServerName(1), 2);
    assert BuildRing(hash, 1, 2) == map[0 := ServerName(1), 5 := ServerName(1)];
    assert BuildRing(hash, 2, 2) == WithNode(BuildRing(hash, 1, 2), hash, ServerName(2), 2);
  }

  lemma SharedRoute()
    ensures
      var ring := BuildRing(SharingHash(), 2, 2);
      ring != map[] && Route(ring, 3) == ServerName(1)
  {
    SharedRing();
    var ring := BuildRing(SharingHash(), 2, 2);
    assert Owns(ring, 3, 5);
    OwnerUnique(ring, 3, 5);
  }

  lemma SharedHash()
    ensures SharingHash()("p") == 3
  {
  }

  lemma SharedRingHost(c: Config, ring: NodeMap)
    requires c.hash == SharingHash() && ring == BuildRing(SharingHash(), 2, 2)
    ensures ring != map[] && RingHost(c, ring, "p") == Ok(0)
  {
    SharedRoute();
    HostNumberOfServer(0);
    SharedHash();
  }

  lemma SharedHost(c: Config)
    requires c == Config(c.hash, 2, 2) && c.hash == SharingHash()
    ensures Init(c).ring != map[] && RingHost(c, Init(c).ring, "p") == Ok(0)
    ensures Init(c).flags[0 := true] == [true, false]
  {
    SharedRingHost(c, Init(c).ring);
  }

  /** Such configurations exist: here a run removes server1, and the ring is empty although server2 never
      failed. */
  lemma SharedPositionsLoseAHealthyHost() returns (c: Config, actions: seq<Action>)
    ensures ValidConfig(c) && c.servers == 2
    ensures IsRun(c, Init(c), actions)
    ensures After(c, Init(c), actions).flags == [true, false]
    ensures After(c, Init(c), actions).ring == map[]
  {
    c := Config(SharingHash(), 2, 2);
    SharedPositions();
    SharedHost(c);
    actions := RemovalSilencesAHealthyHost(c, 1, 0, "p");
  }

  ghost predicate OwnedBy(ring: NodeMap, p: Position, host: nat) {
    p in ring && ring[p] == ServerName(host + 1)
  }

  lemma {:induction false} LaterOwner(hash: Hash, servers: nat, replicas: nat, host: nat, p: Position)
    requires host < servers && p in HostPositions(hash, host, replicas)
    ensures exists h: nat :: host <= h < servers && OwnedBy(BuildRing(hash, servers, replicas), p, h)
  {
    var last := servers - 1;
    if p in HostPositions(hash, last, replicas) {
      assert OwnedBy(BuildRing(hash, servers, replicas), p, last);
    } else {
      LaterOwner(hash, last, replicas, host, p);
      var h: nat :| host <= h < last && OwnedBy(BuildRing(hash, last, replicas), p, h);
      assert OwnedBy(BuildRing(hash, servers, replicas), p, h);
    }
  }

  /** From eleven servers and eleven replicas on this happens whatever the hash, as soon as server1 serves
      some path: a run from the start removes server1 alone, and with it a position that routed to a later
      server, which has not failed. The keys there (the label of server11's first virtual node is one) lose
      their owner. */
  lemma ElevenServersShareAPosition(c: Config, served: string) returns (actions: seq<Action>, host: nat)
    requires ValidConfig(c) && 11 <= c.servers && 11 <= c.replicas
    requires Init(c).ring != map[] && RingHost(c, Init(c).ring, served) == Ok(0)
    ensures IsRun(c, Init(c), actions)
    ensures After(c, Init(c), actions).flags == Init(c).flags[0 := true]
    ensures
      var key := c.hash(ReplicaLabel(ServerName(11), 0));
      var later := After(c, Init(c), actions).ring;
      && 0 < host < c.servers && Route(Init(c).ring, key) == ServerName(host + 1)
      && (later == map[] || OwnerPosition(later, key) != OwnerPosition(Init(c).ring, key))
  {
    var first: nat;
    actions, first := RemovalReachable(c, served);
    host := SharedWithServerOne(c);
    var p := c.hash(ReplicaLabel(ServerName(11), 0));
    var flags := Init(c).flags[0 := true];
    assert flags[0] && p in FlaggedPositions(c, flags);
  }

  /** The first position of server11 is also one of server1's, and routes to neither of the first ten. */
  lemma SharedWithServerOne(c: Config) returns (host: nat)
    requires ValidConfig(c) && 11 <= c.servers && 11 <= c.replicas
    ensures
      var p := c.hash(ReplicaLabel(ServerName(11), 0));
      && p in HostPositions(c.hash, 0, c.replicas)
      && 10 <= host < c.servers
      && Init(c).ring != map[] && OwnerPosition(Init(c).ring, p) == p && Route(Init(c).ring, p) == ServerName(host + 1)
  {
    var p := c.hash(ReplicaLabel(ServerName(11), 0));
    var ring := Init(c).ring;
    assert p in HostPositions(c.hash, 10, c.replicas);
    ElevenCollides();
    assert p == c.hash(ReplicaLabel(ServerName(1), 10)) && p in HostPositions(c.hash, 0, c.replicas);
    LaterOwner(c.hash, c.servers, c.replicas, 10, p);
    host :| 10 <= host < c.servers && OwnedBy(ring, p, host);
    assert Owns(ring, p, p);
    OwnerUnique(ring, p, p);
  }
}
