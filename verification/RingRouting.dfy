/** Ring routing in every operation, over runs in which the clients' failover protocol and their sessions
    interleave: each client has its own timeouts, flags and ring, and routes every request by it. */
module RingRouting {
  import opened Posix
  import opened Servers
  import opened Sessions
  import opened Refinement
  import Fallback
  import Failover
  import Ring

  type Clients = map<nat, Failover.State>

  /** A step of one client's failover protocol, or an action of the session protocol. */
  datatype Step = Protocol(client: nat, f: Failover.Action) | Call(a: Action)

  /** The flags of every client at the end of the run. */
  type Flags = map<nat, seq<bool>>

  ghost predicate Named(c: Failover.Config, clients: Clients, lfd: LocalFd, path: Path, host: Host) {
    && lfd.client in clients && clients[lfd.client].ring != map[]
    && Failover.RingHost(c, clients[lfd.client].ring, path) == Ring.Ok(host as int)
  }

  /** The host is never removed by that client. */
  ghost predicate Lasts(final: Flags, client: nat, host: Host) {
    client in final && host < |final[client]| && !final[client][host]
  }

  ghost predicate ToNamed(c: Failover.Config, clients: Clients, w: World, lfd: LocalFd, host: Host) {
    lfd in w.fdMap ==> Named(c, clients, lfd, w.fdMap[lfd], host)
  }

  /** The call goes where the client's ring says; files are opened on hosts that last. */
  ghost predicate RingRouted(c: Failover.Config, clients: Clients, final: Flags, w: World, a: Action) {
    match a
    case OpenFile(lfd, path, tracked, host, _) =>
      tracked ==> Named(c, clients, lfd, path, host) && Lasts(final, lfd.client, host)
    case ReadFile(lfd, _, host, _) => ToNamed(c, clients, w, lfd, host)
    case PreadFile(lfd, _, _, host, _) => ToNamed(c, clients, w, lfd, host)
    case SeekFile(lfd, _, _, host) => ToNamed(c, clients, w, lfd, host)
    case CloseFile(lfd, host, sent) => sent ==> ToNamed(c, clients, w, lfd, host)
    case _ => true
  }

  ghost predicate JointRun(pfs: Files, c: Failover.Config, clients: Clients, final: Flags, w: World, d: Direct,
                           steps: seq<Step>)
    requires Failover.ValidConfig(c)
    decreases |steps|
  {
    if steps == [] then
      final.Keys == clients.Keys && forall k | k in clients :: clients[k].flags == final[k]
    else
      match steps[0]
      case Protocol(k, f) =>
        && k in clients && Failover.Enabled(c, clients[k], f)
        && JointRun(pfs, c, clients[k := Failover.Apply(c, clients[k], f).0], final, w, d, steps[1..])
      case Call(a) =>
        && Enabled(pfs, w, a) && RingRouted(c, clients, final, w, a) && Answered(w, d, a) && DirectEnabled(pfs, d, a)
        && JointRun(pfs, c, clients, final, Apply(pfs, w, a).0, DirectApply(pfs, d, a).0, steps[1..])
  }

  function Calls(steps: seq<Step>): seq<Action> {
    if steps == [] then []
    else (if steps[0].Call? then [steps[0].a] else []) + Calls(steps[1..])
  }

  // ---------------------------------------------------------------------------------------------
  // Flags
  // ---------------------------------------------------------------------------------------------

  ghost predicate ClientsFine(c: Failover.Config, clients: Clients) {
    forall k | k in clients :: Failover.Inv(c, clients[k])
  }

  /** Whatever is flagged now is flagged at the end. */
  ghost predicate UpTo(c: Failover.Config, clients: Clients, final: Flags) {
    forall k | k in clients ::
      && k in final && |final[k]| == |clients[k].flags| == c.servers
      && forall h | 0 <= h < c.servers && clients[k].flags[h] :: final[k][h]
  }

  lemma FlagsUp(c: Failover.Config, s: Failover.State, f: Failover.Action)
    requires Failover.ValidConfig(c) && Failover.Inv(c, s) && Failover.Enabled(c, s, f)
    ensures |Failover.Apply(c, s, f).0.flags| == |s.flags| == c.servers
    ensures forall h | 0 <= h < c.servers && s.flags[h] :: Failover.Apply(c, s, f).0.flags[h]
  {
    Failover.InvKept(c, s, f);
    forall h | 0 <= h < c.servers && s.flags[h] ensures Failover.Apply(c, s, f).0.flags[h] {
      Failover.FlagStep(c, s, f, h);
    }
  }

  lemma {:induction false} FinalIsLast(pfs: Files, c: Failover.Config, clients: Clients, final: Flags, w: World,
                                      d: Direct, steps: seq<Step>)
    requires Failover.ValidConfig(c) && ClientsFine(c, clients) && JointRun(pfs, c, clients, final, w, d, steps)
    ensures UpTo(c, clients, final)
    decreases |steps|
  {
    if steps != [] {
      match steps[0]
      case Protocol(k, f) =>
        Failover.InvKept(c, clients[k], f);
        FlagsUp(c, clients[k], f);
        var clients' := clients[k := Failover.Apply(c, clients[k], f).0];
        FinalIsLast(pfs, c, clients', final, w, d, steps[1..]);
        forall i | i in clients
          ensures i in final && |final[i]| == |clients[i].flags| == c.servers
          ensures forall h | 0 <= h < c.servers && clients[i].flags[h] :: final[i][h]
        {
          assert i in clients';
        }
      case Call(a) =>
        FinalIsLast(pfs, c, clients, final, Apply(pfs, w, a).0, DirectApply(pfs, d, a).0, steps[1..]);
    }
  }

  // ---------------------------------------------------------------------------------------------
  // Places
  // ---------------------------------------------------------------------------------------------

  /** Every tracked descriptor's session is on the host the client's ring still names, and that host lasts. */
  ghost predicate InPlace(c: Failover.Config, clients: Clients, final: Flags, w: World, lfd: LocalFd) {
    && SessionOf(w, lfd) < |w.sessions|
    && lfd in w.fdMap
    && Named(c, clients, lfd, w.fdMap[lfd], w.sessions[SessionOf(w, lfd)].host)
    && Lasts(final, lfd.client, w.sessions[SessionOf(w, lfd)].host)
  }

  ghost predicate AllInPlace(c: Failover.Config, clients: Clients, final: Flags, w: World) {
    forall lfd | lfd in w.fdMap :: InPlace(c, clients, final, w, lfd)
  }

  /** A ring with an unflagged host on it is not empty. */
  lemma UnflaggedKeepsRing(c: Failover.Config, s: Failover.State, host: nat)
    requires Failover.ValidConfig(c) && Ring.CollisionFree(c.hash, c.servers, c.replicas) && 0 < c.replicas
    requires Failover.Inv(c, s) && host < c.servers && !s.flags[host]
    ensures s.ring != map[]
  {
    Failover.CollisionFreeHasOwn(c, host);
    Failover.OwnPositionSurvives(c, s.flags, host);
  }

  /** One step of the protocol does not change the host of a path while that host is not flagged. */
  lemma HostStays(c: Failover.Config, s: Failover.State, f: Failover.Action, path: Path, host: nat)
    requires Failover.ValidConfig(c) && Ring.CollisionFree(c.hash, c.servers, c.replicas) && 0 < c.replicas
    requires Failover.Inv(c, s) && Failover.Enabled(c, s, f) && host < c.servers
    requires s.ring != map[] && Failover.RingHost(c, s.ring, path) == Ring.Ok(host as int)
    requires |Failover.Apply(c, s, f).0.flags| == c.servers && !Failover.Apply(c, s, f).0.flags[host]
    ensures Failover.Apply(c, s, f).0.ring != map[]
    ensures Failover.RingHost(c, Failover.Apply(c, s, f).0.ring, path) == Ring.Ok(host as int)
  {
    var s' := Failover.Apply(c, s, f).0;
    Failover.InvKept(c, s, f);
    UnflaggedKeepsRing(c, s', host);
    Failover.OneMoreStep(c, s, [], f);
    assert [] + [f] == [f];
    Failover.Affinity(c, s, [f], path);
  }

  lemma ProtocolKeepsPlace(c: Failover.Config, clients: Clients, final: Flags, w: World, lfd: LocalFd, k: nat,
                           f: Failover.Action)
    requires Failover.ValidConfig(c) && Ring.CollisionFree(c.hash, c.servers, c.replicas) && 0 < c.replicas
    requires ClientsFine(c, clients) && k in clients && Failover.Enabled(c, clients[k], f)
    requires UpTo(c, clients[k := Failover.Apply(c, clients[k], f).0], final)
    requires InPlace(c, clients, final, w, lfd)
    ensures InPlace(c, clients[k := Failover.Apply(c, clients[k], f).0], final, w, lfd)
  {
    if lfd.client == k {
      var host := w.sessions[SessionOf(w, lfd)].host;
      var clients' := clients[k := Failover.Apply(c, clients[k], f).0];
      assert k in clients';
      HostStays(c, clients[k], f, w.fdMap[lfd], host);
    }
  }

  /** What a call leaves of the tracked descriptors. */
  ghost predicate FewerTracked(w: World, w': World) {
    && |w'.sessions| >= |w.sessions|
    && (forall id | 0 <= id < |w.sessions| :: w'.sessions[id].host == w.sessions[id].host)
    && (forall lfd | lfd in w'.fdMap ::
          lfd in w.fdMap && w'.fdMap[lfd] == w.fdMap[lfd] && SessionOf(w', lfd) == SessionOf(w, lfd))
  }

  lemma RemoteReadTracksFewer(w: World, lfd: LocalFd, count: nat, offset: int, host: Host, answer: Wait)
    requires host in w.servers
    ensures FewerTracked(w, RemoteRead(w, lfd, count, offset, host, answer).0)
  {
  }

  lemma CloseTracksFewer(pfs: Files, w: World, a: Action)
    requires Enabled(pfs, w, a) && a.CloseFile?
    ensures FewerTracked(w, Apply(pfs, w, a).0)
  {
    var phase := CloseFacts(pfs, w, a);
  }

  lemma DeliveriesTrackFewer(pfs: Files, w: World, a: Action)
    requires Enabled(pfs, w, a) && (a.DeliverClose? || a.DeliverRead? || a.ServeOpen? || a.HearOpen?)
    ensures FewerTracked(w, Apply(pfs, w, a).0)
  {
  }

  lemma CallsTrackFewer(pfs: Files, w: World, a: Action)
    requires Enabled(pfs, w, a) && !a.OpenTimesOut? && !(a.OpenFile? && a.tracked)
    ensures FewerTracked(w, Apply(pfs, w, a).0)
  {
    if a.ReadFile? {
      RemoteReadTracksFewer(w, a.lfd, a.count, -1, a.host, a.answer);
    } else if a.PreadFile? {
      RemoteReadTracksFewer(w, a.lfd, a.count, a.offset, a.host, a.answer);
    } else if a.CloseFile? {
      CloseTracksFewer(pfs, w, a);
    } else if !a.OpenFile? && !a.SeekFile? && !a.Copied? {
      DeliveriesTrackFewer(pfs, w, a);
    }
  }

  lemma FewerInPlace(c: Failover.Config, clients: Clients, final: Flags, w: World, w': World)
    requires AllInPlace(c, clients, final, w) && FewerTracked(w, w')
    ensures AllInPlace(c, clients, final, w')
  {
    forall lfd | lfd in w'.fdMap ensures InPlace(c, clients, final, w', lfd) {
      assert InPlace(c, clients, final, w, lfd);
    }
  }

  lemma OpenKeepsPlaces(pfs: Files, c: Failover.Config, clients: Clients, final: Flags, w: World, a: Action)
    requires AllInPlace(c, clients, final, w) && Enabled(pfs, w, a) && a.OpenFile? && a.tracked
    requires RingRouted(c, clients, final, w, a)
    ensures AllInPlace(c, clients, final, Apply(pfs, w, a).0)
  {
    var w' := Apply(pfs, w, a).0;
    forall lfd | lfd in w'.fdMap ensures InPlace(c, clients, final, w', lfd) {
      assert lfd != a.lfd ==> InPlace(c, clients, final, w, lfd);
    }
  }

  lemma CallKeepsPlaces(pfs: Files, c: Failover.Config, clients: Clients, final: Flags, w: World, a: Action)
    requires AllInPlace(c, clients, final, w) && Enabled(pfs, w, a) && !a.OpenTimesOut?
    requires RingRouted(c, clients, final, w, a)
    ensures AllInPlace(c, clients, final, Apply(pfs, w, a).0)
  {
    if a.OpenFile? && a.tracked {
      OpenKeepsPlaces(pfs, c, clients, final, w, a);
    } else {
      CallsTrackFewer(pfs, w, a);
      FewerInPlace(c, clients, final, w, Apply(pfs, w, a).0);
    }
  }

  /** A call that goes where the ring says arrives. */
  lemma NamedArrives(c: Failover.Config, clients: Clients, final: Flags, w: World, a: Action)
    requires AllInPlace(c, clients, final, w) && w.adrift == {} && RingRouted(c, clients, final, w, a)
    ensures Arrives(w, a)
  {
    match a
    case ReadFile(lfd, _, _, _) => assert lfd in w.fdMap ==> InPlace(c, clients, final, w, lfd);
    case PreadFile(lfd, _, _, _, _) => assert lfd in w.fdMap ==> InPlace(c, clients, final, w, lfd);
    case SeekFile(lfd, _, _, _) => assert lfd in w.fdMap ==> InPlace(c, clients, final, w, lfd);
    case CloseFile(lfd, _, _) => assert lfd in w.fdMap ==> InPlace(c, clients, final, w, lfd);
    case _ =>
  }

  // ---------------------------------------------------------------------------------------------
  // The run
  // ---------------------------------------------------------------------------------------------

  lemma CallsOf(steps: seq<Step>)
    requires steps != []
    ensures steps[0].Protocol? ==> Calls(steps) == Calls(steps[1..])
    ensures steps[0].Call? ==> Calls(steps) == [steps[0].a] + Calls(steps[1..])
    ensures steps[0].Call? ==> Calls(steps) != [] && Calls(steps)[1..] == Calls(steps[1..])
  {
    assert [] + Calls(steps[1..]) == Calls(steps[1..]);
  }

  /** What holds at every point of a joint run. */
  ghost predicate JointInv(pfs: Files, c: Failover.Config, clients: Clients, final: Flags, w: World, d: Direct) {
    && ClientsFine(c, clients)
    && Inv(pfs, w) && Same(w, d) && Fallback.AllAnswered(w) && AllInPlace(c, clients, final, w)
  }

  lemma ProtocolKeepsJoint(pfs: Files, c: Failover.Config, clients: Clients, final: Flags, w: World, d: Direct,
                           k: nat, f: Failover.Action)
    requires Failover.ValidConfig(c) && Ring.CollisionFree(c.hash, c.servers, c.replicas) && 0 < c.replicas
    requires JointInv(pfs, c, clients, final, w, d) && k in clients && Failover.Enabled(c, clients[k], f)
    requires UpTo(c, clients[k := Failover.Apply(c, clients[k], f).0], final)
    ensures JointInv(pfs, c, clients[k := Failover.Apply(c, clients[k], f).0], final, w, d)
  {
    Failover.InvKept(c, clients[k], f);
    forall lfd | lfd in w.fdMap
      ensures InPlace(c, clients[k := Failover.Apply(c, clients[k], f).0], final, w, lfd)
    {
      ProtocolKeepsPlace(c, clients, final, w, lfd, k, f);
    }
  }

  lemma CallKeepsJoint(pfs: Files, c: Failover.Config, clients: Clients, final: Flags, w: World, d: Direct, a: Action)
    requires JointInv(pfs, c, clients, final, w, d)
    requires Enabled(pfs, w, a) && RingRouted(c, clients, final, w, a) && Answered(w, d, a) && DirectEnabled(pfs, d, a)
    ensures Smooth(w, d, a)
    ensures JointInv(pfs, c, clients, final, Apply(pfs, w, a).0, DirectApply(pfs, d, a).0)
  {
    NamedArrives(c, clients, final, w, a);
    StepKeeps(pfs, w, d, a);
    Fallback.NothingDrifts(pfs, w, a);
    CallKeepsPlaces(pfs, c, clients, final, w, a);
  }

  lemma {:induction false} JointRunIsSmooth(pfs: Files, c: Failover.Config, clients: Clients, final: Flags, w: World,
                                           d: Direct, steps: seq<Step>)
    requires Failover.ValidConfig(c) && Ring.CollisionFree(c.hash, c.servers, c.replicas) && 0 < c.replicas
    requires JointRun(pfs, c, clients, final, w, d, steps) && JointInv(pfs, c, clients, final, w, d)
    ensures SmoothRun(pfs, w, d, Calls(steps))
    decreases |steps|
  {
    if steps != [] {
      CallsOf(steps);
      match steps[0]
      case Protocol(k, f) =>
        var clients' := clients[k := Failover.Apply(c, clients[k], f).0];
        Failover.InvKept(c, clients[k], f);
        FinalIsLast(pfs, c, clients', final, w, d, steps[1..]);
        ProtocolKeepsJoint(pfs, c, clients, final, w, d, k, f);
        JointRunIsSmooth(pfs, c, clients', final, w, d, steps[1..]);
      case Call(a) =>
        CallKeepsJoint(pfs, c, clients, final, w, d, a);
        JointRunIsSmooth(pfs, c, clients, final, Apply(pfs, w, a).0, DirectApply(pfs, d, a).0, steps[1..]);
    }
  }

  /** Ring routing in all operations, with collision-free positions: over any interleaving of timeouts and
      removals with calls, as long as the hosts that serve files are not themselves removed, every call
      returns what plain descriptors return, whatever other hosts are. */
  lemma RingRoutingRefines(pfs: Files, c: Failover.Config, clients: Clients, final: Flags, hosts: set<Host>,
                           steps: seq<Step>)
    requires Failover.ValidConfig(c) && Ring.CollisionFree(c.hash, c.servers, c.replicas) && 0 < c.replicas
    requires forall k | k in clients :: clients[k] == Failover.Init(c)
    requires JointRun(pfs, c, clients, final, Init(pfs, hosts), map[], steps)
    ensures SmoothRun(pfs, Init(pfs, hosts), map[], Calls(steps))
    ensures Outputs(pfs, Init(pfs, hosts), map[], Calls(steps))
         == DirectOutputs(pfs, Init(pfs, hosts), map[], Calls(steps))
  {
    Failover.InvInit(c);
    SameInit(pfs, hosts);
    JointRunIsSmooth(pfs, c, clients, final, Init(pfs, hosts), map[], steps);
    StreamRefinement(pfs, Init(pfs, hosts), map[], Calls(steps));
  }
}
