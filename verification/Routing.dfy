/** The routing hypothesis of the session protocol, discharged or refuted for each routing the client
    code contains: modulo in all operations, the ring in all operations, and modulo for open and read
    with the ring for the rest. */
module Routing {
  import opened Posix
  import opened Servers
  import opened Sessions
  import Refinement
  import Fallback
  import Failover
  import Ring
  import Labels
  import Decimal

  // ---------------------------------------------------------------------------------------------
  // A fixed host per path
  // ---------------------------------------------------------------------------------------------

  type Route = Path -> Host

  /** hash(path) % servers. */
  ghost function ModuloRoute(c: Failover.Config): Route
    requires Failover.ValidConfig(c)
  {
    path => Failover.ModuloHost(c, path)
  }

  ghost predicate OpensRouted(route: Route, a: Action) {
    && (a.OpenFile? && a.tracked ==> a.host == route(a.path))
    && (a.OpenTimesOut? ==> a.host == route(a.path))
  }

  ghost predicate To(route: Route, w: World, lfd: LocalFd, host: Host) {
    lfd in w.fdMap ==> host == route(w.fdMap[lfd])
  }

  /** Every operation goes where the path's route says. */
  ghost predicate Routed(route: Route, w: World, a: Action) {
    match a
    case OpenFile(_, _, _, _, _) => OpensRouted(route, a)
    case OpenTimesOut(_, _, _) => OpensRouted(route, a)
    case ReadFile(lfd, _, host, _) => To(route, w, lfd, host)
    case PreadFile(lfd, _, _, host, _) => To(route, w, lfd, host)
    case SeekFile(lfd, _, _, host) => To(route, w, lfd, host)
    case CloseFile(lfd, host, _) => To(route, w, lfd, host)
    case _ => true
  }

  /** Every open was sent where its path's route says. */
  ghost predicate Placed(route: Route, w: World) {
    && (forall id | 0 <= id < |w.sessions| :: w.sessions[id].host == route(w.sessions[id].path))
    && (forall k | 0 <= k < |w.lateOpens| && w.lateOpens[k].Asked? :: w.lateOpens[k].host == route(w.lateOpens[k].path))
  }

  ghost predicate SamePlaces(w: World, w': World) {
    && |w'.sessions| == |w.sessions| && w'.lateOpens == w.lateOpens
    && forall id | 0 <= id < |w.sessions| ::
         w'.sessions[id].host == w.sessions[id].host && w'.sessions[id].path == w.sessions[id].path
  }

  lemma RemoteReadPlacesNothing(w: World, lfd: LocalFd, count: nat, offset: int, host: Host, answer: Wait)
    requires host in w.servers
    ensures SamePlaces(w, RemoteRead(w, lfd, count, offset, host, answer).0)
  {
  }

  lemma OnlyOpensPlace(pfs: Files, w: World, a: Action)
    requires Enabled(pfs, w, a) && !a.OpenFile? && !a.OpenTimesOut? && !a.ServeOpen? && !a.HearOpen?
    ensures SamePlaces(w, Apply(pfs, w, a).0)
  {
    if a.ReadFile? {
      RemoteReadPlacesNothing(w, a.lfd, a.count, -1, a.host, a.answer);
    } else if a.PreadFile? {
      RemoteReadPlacesNothing(w, a.lfd, a.count, a.offset, a.host, a.answer);
    }
  }

  lemma PlacedKept(pfs: Files, route: Route, w: World, a: Action)
    requires Placed(route, w) && Enabled(pfs, w, a) && OpensRouted(route, a)
    ensures Placed(route, Apply(pfs, w, a).0)
  {
    if !a.OpenFile? && !a.OpenTimesOut? && !a.ServeOpen? && !a.HearOpen? {
      OnlyOpensPlace(pfs, w, a);
    }
  }

  /** A request whose open was answered reaches that host exactly when it goes where the path's route says,
      whatever the other operations do: enough for sessions of opens and reads when only those share a
      route. */
  lemma RoutedReaches(pfs: Files, route: Route, w: World, lfd: LocalFd, host: Host)
    requires DescriptorsTracked(pfs, w) && Placed(route, w) && lfd !in w.adrift
    ensures To(route, w, lfd, host) <==> Reaches(w, lfd, host)
  {
    assert lfd in w.fdMap ==> Tracked(pfs, w, lfd);
  }

  lemma RoutedArrives(pfs: Files, route: Route, w: World, a: Action)
    requires DescriptorsTracked(pfs, w) && Placed(route, w) && Routed(route, w, a) && w.adrift == {}
    ensures Refinement.Arrives(w, a)
  {
    match a
    case ReadFile(lfd, _, host, _) => RoutedReaches(pfs, route, w, lfd, host);
    case PreadFile(lfd, _, _, host, _) => RoutedReaches(pfs, route, w, lfd, host);
    case SeekFile(lfd, _, _, host) => RoutedReaches(pfs, route, w, lfd, host);
    case CloseFile(lfd, host, _) => RoutedReaches(pfs, route, w, lfd, host);
    case _ =>
  }

  /** A failure-free run in which every operation follows the route. */
  ghost predicate RoutedRun(pfs: Files, route: Route, w: World, d: Direct, actions: seq<Action>)
    decreases |actions|
  {
    actions == [] ||
    (Enabled(pfs, w, actions[0]) && Routed(route, w, actions[0]) && Refinement.Answered(w, d, actions[0]) &&
     DirectEnabled(pfs, d, actions[0]) &&
     RoutedRun(pfs, route, Apply(pfs, w, actions[0]).0, DirectApply(pfs, d, actions[0]).0, actions[1..]))
  }

  lemma {:induction false} RoutedRunIsSmooth(pfs: Files, route: Route, w: World, d: Direct, actions: seq<Action>)
    requires Inv(pfs, w) && Refinement.Same(w, d) && Placed(route, w) && Fallback.AllAnswered(w)
    requires RoutedRun(pfs, route, w, d, actions)
    ensures Refinement.SmoothRun(pfs, w, d, actions)
    decreases |actions|
  {
    if actions != [] {
      var a := actions[0];
      RoutedArrives(pfs, route, w, a);
      Refinement.StepAgrees(pfs, w, d, a);
      Refinement.SmoothIsWellRouted(pfs, w, d, a);
      InvKept(pfs, w, a);
      PlacedKept(pfs, route, w, a);
      Fallback.NothingDrifts(pfs, w, a);
      RoutedRunIsSmooth(pfs, route, Apply(pfs, w, a).0, DirectApply(pfs, d, a).0, actions[1..]);
    }
  }

  /** With modulo routing in all five operations nothing has to be assumed about where requests go: any
      failure-free run from the start gives every caller what plain descriptors give. */
  lemma ModuloRoutingRefines(pfs: Files, c: Failover.Config, hosts: set<Host>, actions: seq<Action>)
    requires Failover.ValidConfig(c)
    requires RoutedRun(pfs, ModuloRoute(c), Init(pfs, hosts), map[], actions)
    ensures Refinement.SmoothRun(pfs, Init(pfs, hosts), map[], actions)
    ensures Refinement.Outputs(pfs, Init(pfs, hosts), map[], actions)
         == Refinement.DirectOutputs(pfs, Init(pfs, hosts), map[], actions)
  {
    Refinement.SameInit(pfs, hosts);
    RoutedRunIsSmooth(pfs, ModuloRoute(c), Init(pfs, hosts), map[], actions);
    Refinement.StreamRefinement(pfs, Init(pfs, hosts), map[], actions);
  }

  // ---------------------------------------------------------------------------------------------
  // The ring in every operation
  // ---------------------------------------------------------------------------------------------

  /** A session opened on the host the ring named is reached by every later ring-routed operation, over
      any run of timeouts and removals, exactly until that host itself is removed. */
  lemma RingReachesExactly(pfs: Files, w: World, lfd: LocalFd, c: Failover.Config, s: Failover.State,
                           actions: seq<Failover.Action>)
    requires Failover.ValidConfig(c) && Ring.CollisionFree(c.hash, c.servers, c.replicas)
    requires Failover.Inv(c, s) && Failover.IsRun(c, s, actions)
    requires s.ring != map[] && Failover.After(c, s, actions).ring != map[]
    requires DescriptorsTracked(pfs, w) && lfd in w.fdMap && lfd !in w.adrift && SessionOf(w, lfd) < |w.sessions|
    requires Failover.RingHost(c, s.ring, w.fdMap[lfd]) == Ring.Ok(w.sessions[SessionOf(w, lfd)].host as int)
    ensures
      var later := Failover.After(c, s, actions);
      var host := w.sessions[SessionOf(w, lfd)].host;
      && host < |later.flags|
      && Failover.RingHost(c, later.ring, w.fdMap[lfd]).Ok?
      && 0 <= Failover.RingHost(c, later.ring, w.fdMap[lfd]).value
      && (Reaches(w, lfd, Failover.RingHost(c, later.ring, w.fdMap[lfd]).value) <==> !later.flags[host])
  {
    var path := w.fdMap[lfd];
    Failover.Affinity(c, s, actions, path);
    Failover.InvAlways(c, s, actions);
    Failover.FlaggedNeverRouted(c, Failover.After(c, s, actions), path);
  }

  // ---------------------------------------------------------------------------------------------
  // Modulo for open and read, the ring for pread, lseek and close
  // ---------------------------------------------------------------------------------------------

  /** A ring-routed call of a session opened by modulo reaches the host of its open exactly when the ring
      happens to name that host. */
  lemma RingCallReachesModuloOpenExactly(pfs: Files, w: World, lfd: LocalFd, c: Failover.Config, ring: Ring.NodeMap)
    requires Failover.ValidConfig(c) && ring != map[]
    requires DescriptorsTracked(pfs, w) && Placed(ModuloRoute(c), w) && lfd in w.fdMap && lfd !in w.adrift
    requires Failover.RingHost(c, ring, w.fdMap[lfd]).Ok? && 0 <= Failover.RingHost(c, ring, w.fdMap[lfd]).value
    ensures Reaches(w, lfd, Failover.RingHost(c, ring, w.fdMap[lfd]).value) <==>
            Failover.RingHost(c, ring, w.fdMap[lfd]) == Ring.Ok(Failover.ModuloHost(c, w.fdMap[lfd]) as int)
  {
    RoutedReaches(pfs, ModuloRoute(c), w, lfd, Failover.RingHost(c, ring, w.fdMap[lfd]).value);
  }

  /** In any world: a pread of x that goes where y was opened, and finds y's number there, returns y's bytes;
      it is right exactly when the two files agree there. */
  lemma MisroutedPreadReadsTheOtherFile(pfs: Files, w: World, x: LocalFd, y: LocalFd, host: Host,
                                        count: nat, offset: nat)
    requires Inv(pfs, w) && Enabled(pfs, w, PreadFile(x, count, offset, host, Reply)) && x in w.fdMap
    requires y in w.fdMap && Reaches(w, y, host) && Redir(w, x) == Redir(w, y) != -1
    ensures y in w.local
    ensures
      var result := Apply(pfs, w, PreadFile(x, count, offset, host, Reply)).1;
      && result == Got(Pread(w.local[y].content, count, offset))
      && (result == Got(Pread(w.local[x].content, count, offset)) <==>
          Slice(w.local[y].content, offset, count) == Slice(w.local[x].content, offset, count))
  {
    assert Tracked(pfs, w, y);
    Refinement.ReachingIsClean(pfs, w, y, host);
    Fallback.PreadResult(pfs, w, PreadFile(x, count, offset, host, Reply));
    Fallback.AnsweredPread(w.servers[host], Redir(w, x), count, offset);
  }

  lemma SeekElsewhere(pfs: Files, w: World, d: Direct, a: Action)
    requires a.SeekFile? && Enabled(pfs, w, a) && a.lfd in w.fdMap && a.lfd in d && a.lfd in w.local
    requires Refinement.Tied(w, d, a.lfd) && Refinement.Site(w, a.lfd) != (a.host, Redir(w, a.lfd))
    ensures
      var plain := d[a.lfd := Lseek(d[a.lfd], a.offset, a.whence).0];
      Refinement.Tied(Apply(pfs, w, a).0, plain, a.lfd) <==> plain[a.lfd] == d[a.lfd]
  {
  }

  /** A seek that goes elsewhere leaves its own descriptor where it was, so it stays in step exactly when the
      plain seek moves nothing. */
  lemma MisroutedSeekStaysTiedExactly(pfs: Files, w: World, d: Direct, a: Action)
    requires Inv(pfs, w) && Refinement.Same(w, d) && a.SeekFile? && Enabled(pfs, w, a) && a.lfd in w.fdMap
    requires Refinement.Site(w, a.lfd) != (a.host, Redir(w, a.lfd))
    ensures a.lfd in d
    ensures
      var d' := DirectApply(pfs, d, a).0;
      Refinement.Tied(Apply(pfs, w, a).0, d', a.lfd) <==> Lseek(d[a.lfd], a.offset, a.whence).0 == d[a.lfd]
  {
    assert Refinement.Tied(w, d, a.lfd);
    SeekElsewhere(pfs, w, d, a);
  }

  function Open(lfd: LocalFd, path: Path, host: Host): Action {
    OpenFile(lfd, path, true, host, 5)
  }

  lemma OpenAnswered(pfs: Files, w: World, lfd: LocalFd, path: Path, host: Host)
    requires Enabled(pfs, w, Open(lfd, path, host))
    ensures
      var w' := Apply(pfs, w, Open(lfd, path, host)).0;
      && w'.fdMap == w.fdMap[lfd := path] && Reaches(w', lfd, host) && Redir(w', lfd) == 5
      && forall x, h | x != lfd && x in w.fdMap && Reaches(w, x, h) :: Reaches(w', x, h) && Redir(w', x) == Redir(w, x)
  {
  }

  lemma BothEnabled(pfs: Files, a: Path, b: Path, h: Host, h': Host)
    requires a in pfs && b in pfs && h != h'
    ensures Enabled(pfs, Init(pfs, {h, h'}), Open(Fallback.X, a, h))
    ensures Enabled(pfs, Apply(pfs, Init(pfs, {h, h'}), Open(Fallback.X, a, h)).0, Open(Fallback.Y, b, h'))
  {
  }

  /** Such worlds are reached from the start by two opens on any two hosts. */
  lemma SameNumberOnTwoHosts(pfs: Files, a: Path, b: Path, h: Host, h': Host)
    requires a in pfs && b in pfs && h != h'
    ensures Refinement.IsRun(pfs, Init(pfs, {h, h'}), [Open(Fallback.X, a, h)] + [Open(Fallback.Y, b, h')])
    ensures
      var w := Refinement.After(pfs, Init(pfs, {h, h'}), [Open(Fallback.X, a, h)] + [Open(Fallback.Y, b, h')]);
      && Inv(pfs, w) && Fallback.X in w.fdMap && w.fdMap[Fallback.X] == a
      && Fallback.Y in w.fdMap && w.fdMap[Fallback.Y] == b
      && Reaches(w, Fallback.X, h) && Reaches(w, Fallback.Y, h') && Redir(w, Fallback.X) == Redir(w, Fallback.Y) == 5
  {
    var w0 := Init(pfs, {h, h'});
    BothEnabled(pfs, a, b, h, h');
    var w1 := Apply(pfs, w0, Open(Fallback.X, a, h)).0;
    Refinement.OneMoreStep(pfs, w0, [], Open(Fallback.X, a, h));
    assert [] + [Open(Fallback.X, a, h)] == [Open(Fallback.X, a, h)];
    Refinement.OneMoreStep(pfs, w0, [Open(Fallback.X, a, h)], Open(Fallback.Y, b, h'));
    InvInit(pfs, {h, h'});
    Refinement.InvAlways(pfs, w0, [Open(Fallback.X, a, h)] + [Open(Fallback.Y, b, h')]);
    OpenAnswered(pfs, w0, Fallback.X, a, h);
    OpenAnswered(pfs, w1, Fallback.Y, b, h');
  }

  /** A hash for two servers of one virtual node each. */
  function DisagreeingHash(): Ring.Hash {
    (s: string) => if s == "server10" then 10 else if s == "server20" then 20 else if s == "a" then 12 else 15
  }

  lemma DisagreeingPositions()
    ensures Ring.HostPositions(DisagreeingHash(), 0, 1) == {10}
    ensures Ring.HostPositions(DisagreeingHash(), 1, 1) == {20}
  {
    Labels.TenPrinted();
    assert Labels.ServerName(1) == "server1";
    assert Decimal.ToString(2) == "2";
    assert Labels.ServerName(2) == "server2";
    assert Labels.ReplicaLabel(Labels.ServerName(1), 0) == "server10";
    assert Labels.ReplicaLabel(Labels.ServerName(2), 0) == "server20";
    assert "server20"[6] != "server10"[6];
  }

  lemma DisagreeingRing()
    ensures Ring.BuildRing(DisagreeingHash(), 2, 1) == map[10 := Labels.ServerName(1), 20 := Labels.ServerName(2)]
  {
    DisagreeingPositions();
    var hash := DisagreeingHash();
    assert Ring.BuildRing(hash, 0, 1) == map[];
    assert Ring.BuildRing(hash, 1, 1) == Ring.WithNode(map[], hash, Labels.ServerName(1), 1);
    assert Ring.BuildRing(hash, 1, 1) == map[10 := Labels.ServerName(1)];
    assert Ring.BuildRing(hash, 2, 1) == Ring.WithNode(Ring.BuildRing(hash, 1, 1), hash, Labels.ServerName(2), 1);
  }

  lemma DisagreeingRoute()
    ensures
      var ring := Ring.BuildRing(DisagreeingHash(), 2, 1);
      ring != map[] && Ring.ConvertHostToNumber(Ring.Route(ring, 12)) == Ring.Ok(1)
  {
    DisagreeingRing();
    var ring := Ring.BuildRing(DisagreeingHash(), 2, 1);
    assert Ring.Owns(ring, 12, 20);
    Ring.OwnerUnique(ring, 12, 20);
    Ring.HostNumberOfServer(1);
  }

  lemma DisagreeingModulo(c: Failover.Config)
    requires c == Failover.Config(DisagreeingHash(), 2, 1)
    ensures Failover.ModuloHost(c, "a") == 0 && Failover.ModuloHost(c, "b") == 1 && c.hash("a") == 12
  {
  }

  /** Mixed routing does send calls away from the host of the open: modulo opens "a" on host 0 and "b" on
      host 1, and the ring of two healthy servers sends the pread of "a" to host 1. */
  lemma MixedRoutingDisagrees() returns (c: Failover.Config)
    ensures Failover.ValidConfig(c) && c.servers == 2
    ensures Ring.CollisionFree(c.hash, c.servers, c.replicas)
    ensures Failover.Init(c).ring != map[]
    ensures Failover.ModuloHost(c, "a") == 0 && Failover.ModuloHost(c, "b") == 1
    ensures Failover.RingHost(c, Failover.Init(c).ring, "a") == Ring.Ok(1)
  {
    c := Failover.Config(DisagreeingHash(), 2, 1);
    DisagreeingPositions();
    DisagreeingRoute();
    DisagreeingModulo(c);
  }
}
