/** What the session protocol promises: descriptors are owned, late closes are harmless, and, as long as
    requests reach the host of the open, the application cannot tell the library from plain descriptors. */
module Refinement {
  import opened Posix
  import opened Servers
  import opened Sessions

  // ---------------------------------------------------------------------------------------------
  // Runs
  // ---------------------------------------------------------------------------------------------

  ghost predicate IsRun(pfs: Files, w: World, actions: seq<Action>)
    decreases |actions|
  {
    actions == [] ||
    (Enabled(pfs, w, actions[0]) && WellRouted(w, actions[0]) && IsRun(pfs, Apply(pfs, w, actions[0]).0, actions[1..]))
  }

  ghost function After(pfs: Files, w: World, actions: seq<Action>): World
    requires IsRun(pfs, w, actions)
    decreases |actions|
  {
    if actions == [] then w else After(pfs, Apply(pfs, w, actions[0]).0, actions[1..])
  }

  lemma {:induction false} InvAlways(pfs: Files, w: World, actions: seq<Action>)
    requires Inv(pfs, w) && IsRun(pfs, w, actions)
    ensures Inv(pfs, After(pfs, w, actions))
    decreases |actions|
  {
    if actions != [] {
      InvKept(pfs, w, actions[0]);
      InvAlways(pfs, Apply(pfs, w, actions[0]).0, actions[1..]);
    }
  }

  lemma {:induction false} OneMoreStep(pfs: Files, w: World, xs: seq<Action>, a: Action)
    requires IsRun(pfs, w, xs) && Enabled(pfs, After(pfs, w, xs), a) && WellRouted(After(pfs, w, xs), a)
    ensures IsRun(pfs, w, xs + [a]) && After(pfs, w, xs + [a]) == Apply(pfs, After(pfs, w, xs), a).0
    decreases |xs|
  {
    if xs == [] {
      assert [a][1..] == [];
    } else {
      assert (xs + [a])[1..] == xs[1..] + [a];
      OneMoreStep(pfs, Apply(pfs, w, xs[0]).0, xs[1..], a);
    }
  }

  // ---------------------------------------------------------------------------------------------
  // Ownership
  // ---------------------------------------------------------------------------------------------

  /** Two live sessions never share a descriptor of a server. */
  lemma LiveSessionsDiffer(pfs: Files, w: World, x: LocalFd, y: LocalFd)
    requires Inv(pfs, w) && x in w.fdMap && y in w.fdMap && x != y
    ensures SessionOf(w, x) < |w.sessions| && SessionOf(w, y) < |w.sessions|
    ensures
      var s, t := w.sessions[SessionOf(w, x)], w.sessions[SessionOf(w, y)];
      s.fd != -1 && t.fd != -1 ==> (s.host, s.fd) != (t.host, t.fd)
  {
    assert Tracked(pfs, w, x) && Tracked(pfs, w, y);
    var s, t := w.sessions[SessionOf(w, x)], w.sessions[SessionOf(w, y)];
    if s.fd != -1 && t.fd != -1 {
      assert Held(pfs, w, SessionOf(w, x)) && Held(pfs, w, SessionOf(w, y));
    }
  }

  /** The sessions that still own a descriptor of the host. */
  ghost predicate Owner(w: World, host: Host, fd: int, id: nat) {
    id < |w.sessions| && w.sessions[id].host == host && w.sessions[id].fd == fd && w.sessions[id].phase != Gone
  }

  /** A server's open descriptors are exactly those of its unfinished sessions, one session each, and the
      path the server remembers for a descriptor is that session's path. */
  lemma DescriptorsAreSessions(pfs: Files, w: World, host: Host, fd: int)
    requires Inv(pfs, w) && host in w.servers && fd != -1
    ensures fd in w.servers[host].table <==> exists id: nat :: Owner(w, host, fd, id)
    ensures forall i: nat, j: nat | Owner(w, host, fd, i) && Owner(w, host, fd, j) :: i == j
    ensures forall id: nat | Owner(w, host, fd, id) ::
      fd in w.servers[host].fdToPath && w.servers[host].fdToPath[fd] == w.sessions[id].path
  {
    if fd in w.servers[host].table {
      assert (host, fd) in w.holder;
      assert Owner(w, host, fd, w.holder[(host, fd)]);
    }
    forall id: nat | Owner(w, host, fd, id) ensures Held(pfs, w, id) {
    }
    forall i: nat, j: nat | Owner(w, host, fd, i) && Owner(w, host, fd, j) ensures i == j {
      assert Held(pfs, w, i) && Held(pfs, w, j);
    }
  }

  /** fd_to_path has exactly the open descriptors as keys. */
  ghost predicate PathsExact(w: World) {
    forall h | h in w.servers :: w.servers[h].fdToPath.Keys == w.servers[h].table.Keys
  }

  /** No open failed, and no request names a descriptor the server does not have. */
  ghost predicate Clean(w: World, a: Action) {
    match a
    case OpenFile(_, _, tracked, _, fd) => tracked ==> fd != -1
    case ReadFile(lfd, _, host, answer) =>
      lfd in w.fdMap && answer == Reply ==> host in w.servers && Redir(w, lfd) in w.servers[host].table
    case PreadFile(lfd, _, _, host, answer) =>
      lfd in w.fdMap && answer == Reply ==> host in w.servers && Redir(w, lfd) in w.servers[host].table
    case DeliverRead(k) =>
      k < |w.lateReads| ==>
        w.lateReads[k].host in w.servers && w.lateReads[k].fd in w.servers[w.lateReads[k].host].table
    case ServeOpen(_, fd) => fd != -1
    case _ => true
  }

  ghost predicate Exact(s: State) {
    s.fdToPath.Keys == s.table.Keys
  }

  lemma HandlersStayExact(s: State, fd: int, count: nat, offset: int, whence: int)
    requires Exact(s)
    ensures fd in s.table ==> Exact(HandleRead(s, fd, count, offset).0)
    ensures Exact(HandleSeek(s, fd, offset, whence).0)
    ensures Exact(HandleClose(s, fd).0)
    ensures forall path | OpenReturns(s, path, fd) && fd != -1 :: Exact(HandleOpen(s, path, fd))
  {
  }

  lemma ReadServers(pfs: Files, w: World, a: Action)
    requires Enabled(pfs, w, a) && a.ReadFile? && a.lfd in w.fdMap && a.answer == Reply
    ensures Apply(pfs, w, a).0.servers
         == w.servers[a.host := HandleRead(w.servers[a.host], Redir(w, a.lfd), a.count, -1).0]
  {
  }

  lemma PreadServers(pfs: Files, w: World, a: Action)
    requires Enabled(pfs, w, a) && a.PreadFile? && a.lfd in w.fdMap && a.answer == Reply
    ensures Apply(pfs, w, a).0.servers
         == w.servers[a.host := HandleRead(w.servers[a.host], Redir(w, a.lfd), a.count, a.offset).0]
  {
  }

  lemma ReadsStayExact(pfs: Files, w: World, a: Action)
    requires Enabled(pfs, w, a) && Clean(w, a) && PathsExact(w) && a.ReadFile?
    ensures PathsExact(Apply(pfs, w, a).0)
  {
    if a.lfd in w.fdMap && a.answer == Reply {
      ReadServers(pfs, w, a);
      HandlersStayExact(w.servers[a.host], Redir(w, a.lfd), a.count, -1, 0);
    }
  }

  lemma PreadsStayExact(pfs: Files, w: World, a: Action)
    requires Enabled(pfs, w, a) && Clean(w, a) && PathsExact(w) && a.PreadFile?
    ensures PathsExact(Apply(pfs, w, a).0)
  {
    if a.lfd in w.fdMap && a.answer == Reply {
      PreadServers(pfs, w, a);
      HandlersStayExact(w.servers[a.host], Redir(w, a.lfd), a.count, a.offset, 0);
    }
  }

  lemma OpensStayExact(pfs: Files, w: World, a: Action)
    requires Enabled(pfs, w, a) && Clean(w, a) && PathsExact(w) && a.OpenFile?
    ensures PathsExact(Apply(pfs, w, a).0)
  {
    if a.tracked {
      HandlersStayExact(w.servers[a.host], a.fd, 0, 0, 0);
    }
  }

  lemma SeeksStayExact(pfs: Files, w: World, a: Action)
    requires Enabled(pfs, w, a) && PathsExact(w) && a.SeekFile?
    ensures PathsExact(Apply(pfs, w, a).0)
  {
    if a.lfd in w.fdMap {
      HandlersStayExact(w.servers[a.host], Redir(w, a.lfd), 0, a.offset, a.whence);
    }
  }

  lemma DeliveriesStayExact(pfs: Files, w: World, k: nat)
    requires Enabled(pfs, w, DeliverClose(k)) && PathsExact(w)
    ensures PathsExact(Apply(pfs, w, DeliverClose(k)).0)
  {
    HandlersStayExact(w.servers[w.inFlight[k].host], w.inFlight[k].fd, 0, 0, 0);
  }

  lemma LateReadsStayExact(pfs: Files, w: World, k: nat)
    requires Enabled(pfs, w, DeliverRead(k)) && Clean(w, DeliverRead(k)) && PathsExact(w)
    ensures PathsExact(Apply(pfs, w, DeliverRead(k)).0)
  {
    var m := w.lateReads[k];
    HandlersStayExact(w.servers[m.host], m.fd, m.count, m.offset, 0);
  }

  lemma LateOpensStayExact(pfs: Files, w: World, k: nat, fd: int)
    requires Enabled(pfs, w, ServeOpen(k, fd)) && fd != -1 && PathsExact(w)
    ensures PathsExact(Apply(pfs, w, ServeOpen(k, fd)).0)
  {
    HandlersStayExact(w.servers[w.lateOpens[k].host], fd, 0, 0, 0);
  }

  /** Without failed opens and stray requests the server's path table never has a key too many. */
  lemma PathsStayExact(pfs: Files, w: World, a: Action)
    requires Enabled(pfs, w, a) && Clean(w, a) && PathsExact(w)
    ensures PathsExact(Apply(pfs, w, a).0)
  {
    match a
    case OpenFile(_, _, _, _, _) => OpensStayExact(pfs, w, a);
    case OpenTimesOut(_, _, _) =>
    case ReadFile(_, _, _, _) => ReadsStayExact(pfs, w, a);
    case PreadFile(_, _, _, _, _) => PreadsStayExact(pfs, w, a);
    case SeekFile(_, _, _, _) => SeeksStayExact(pfs, w, a);
    case CloseFile(_, _, _) =>
    case DeliverClose(k) => DeliveriesStayExact(pfs, w, k);
    case DeliverRead(k) => LateReadsStayExact(pfs, w, k);
    case ServeOpen(k, fd) => LateOpensStayExact(pfs, w, k, fd);
    case HearOpen(_) =>
    case Copied(_, _, _) =>
  }

  /** A request of a tracked descriptor that reaches the host of a successful open is clean. */
  lemma ReachingIsClean(pfs: Files, w: World, lfd: LocalFd, host: Host)
    requires Inv(pfs, w) && lfd in w.fdMap && Reaches(w, lfd, host) && Redir(w, lfd) != -1
    ensures host in w.servers && Redir(w, lfd) in w.servers[host].table
    ensures w.servers[host].table[Redir(w, lfd)].content == w.local[lfd].content
  {
    assert Tracked(pfs, w, lfd);
    assert Held(pfs, w, SessionOf(w, lfd));
  }

  lemma DeliveryServers(pfs: Files, w: World, k: nat)
    requires Enabled(pfs, w, DeliverClose(k))
    ensures
      var m := w.inFlight[k];
      var (w', out) := Apply(pfs, w, DeliverClose(k));
      w'.servers == w.servers[m.host := HandleClose(w.servers[m.host], m.fd).0] &&
      out == At(HandleClose(w.servers[m.host], m.fd).1)
  {
  }

  /** However late a close message is delivered, the server's close succeeds (the assertion in the close
      handler), it closes the descriptor of the session that sent it and nothing else, and what it may
      queue for copying is that session's own path. */
  lemma LateCloseIsExact(pfs: Files, w: World, k: nat)
    requires Inv(pfs, w) && Enabled(pfs, w, DeliverClose(k)) && w.inFlight[k].fd != -1
    ensures
      var m := w.inFlight[k];
      var (w', out) := Apply(pfs, w, DeliverClose(k));
      && m.session < |w.sessions| && w.sessions[m.session].phase == Closing
      && (m.host, m.fd) in w.holder && w.holder[(m.host, m.fd)] == m.session
      && out == At(0)
      && w'.servers[m.host].table == w.servers[m.host].table - {m.fd}
      && (forall h | h in w.servers && h != m.host :: w'.servers[h] == w.servers[h])
      && w'.servers[m.host].queue == w.servers[m.host].queue
           + (if w.sessions[m.session].path in w.servers[m.host].cache then [] else [w.sessions[m.session].path])
  {
    DeliveryServers(pfs, w, k);
    assert Announced(w, w.inFlight[k]);
    assert Held(pfs, w, w.inFlight[k].session);
  }

  lemma SentThenDelivered(pfs: Files, w: World, lfd: LocalFd, host: Host)
    requires lfd in w.fdMap && Enabled(pfs, w, CloseFile(lfd, host, true))
    ensures
      var w1 := Apply(pfs, w, CloseFile(lfd, host, true)).0;
      && Enabled(pfs, w1, DeliverClose(|w.inFlight|))
      && Apply(pfs, w1, DeliverClose(|w.inFlight|)).0.servers
           == w.servers[host := HandleClose(w.servers[host], Redir(w, lfd)).0]
  {
  }

  ghost predicate IsOpen(servers: map<Host, State>, place: (Host, int)) {
    place.0 in servers && place.1 in servers[place.0].table
  }

  function Site(w: World, lfd: LocalFd): (Host, int) {
    var id := SessionOf(w, lfd);
    if id < |w.sessions| then (w.sessions[id].host, w.sessions[id].fd) else (0, -1)
  }

  /** No descriptor but the given one is closed. */
  ghost predicate ClosesOnly(servers: map<Host, State>, servers': map<Host, State>, own: (Host, int)) {
    forall place | IsOpen(servers, place) && place != own :: IsOpen(servers', place)
  }

  lemma HandleCloseCloses(servers: map<Host, State>, host: Host, fd: int, place: (Host, int))
    requires host in servers
    ensures IsOpen(servers[host := HandleClose(servers[host], fd).0], place) <==>
            IsOpen(servers, place) && place != (host, fd)
  {
  }

  /** In every world, a close that is sent and delivered closes exactly the descriptor (host, number) it
      names. So it ends its own session's descriptor exactly when that is the one named, and spares all
      others exactly when what it names is its own or is not open. */
  lemma CloseReachesOwnExactly(pfs: Files, w: World, lfd: LocalFd, host: Host)
    requires lfd in w.fdMap && Enabled(pfs, w, CloseFile(lfd, host, true))
    ensures
      var w1 := Apply(pfs, w, CloseFile(lfd, host, true)).0;
      && Enabled(pfs, w1, DeliverClose(|w.inFlight|))
      && var after := Apply(pfs, w1, DeliverClose(|w.inFlight|)).0.servers;
         var own, named := Site(w, lfd), (host, Redir(w, lfd));
         && (IsOpen(w.servers, own) ==> (!IsOpen(after, own) <==> named == own))
         && (ClosesOnly(w.servers, after, own) <==> (IsOpen(w.servers, named) ==> named == own))
  {
    SentThenDelivered(pfs, w, lfd, host);
    var own, named := Site(w, lfd), (host, Redir(w, lfd));
    var after := w.servers[host := HandleClose(w.servers[host], Redir(w, lfd)).0];
    forall place ensures IsOpen(after, place) <==> IsOpen(w.servers, place) && place != named {
      HandleCloseCloses(w.servers, host, Redir(w, lfd), place);
    }
  }

  // ---------------------------------------------------------------------------------------------
  // Stream refinement
  // ---------------------------------------------------------------------------------------------

  /** The direct descriptor is the server's open file description while the descriptor is tracked, and
      the local one otherwise: same contents, same position. */
  ghost predicate Tied(w: World, d: Direct, lfd: LocalFd)
    requires lfd in d && lfd in w.local
  {
    if lfd in w.fdMap then
      && SessionOf(w, lfd) < |w.sessions|
      && var s := w.sessions[SessionOf(w, lfd)];
         s.host in w.servers && s.fd in w.servers[s.host].table && w.servers[s.host].table[s.fd] == d[lfd]
    else
      w.local[lfd] == d[lfd]
  }

  ghost predicate Same(w: World, d: Direct) {
    && w.local.Keys == d.Keys
    && (forall lfd | lfd in d :: Tied(w, d, lfd))
  }

  /** Every request that is sent reaches the host that served and answered the open. */
  ghost predicate Arrives(w: World, a: Action) {
    match a
    case ReadFile(lfd, _, host, answer) => answer != Withheld ==> Reaches(w, lfd, host)
    case PreadFile(lfd, _, _, host, answer) => answer != Withheld ==> Reaches(w, lfd, host)
    case SeekFile(lfd, _, _, host) => Reaches(w, lfd, host)
    case CloseFile(lfd, host, sent) => sent ==> Reaches(w, lfd, host)
    case _ => true
  }

  /** No failure: opens succeed, requests are answered, a pread's offset is not negative, and a seek's
      offset and result are 32-bit numbers. */
  ghost predicate Answered(w: World, d: Direct, a: Action) {
    match a
    case OpenFile(_, _, tracked, _, fd) => tracked ==> fd != -1
    case OpenTimesOut(_, _, _) => false
    case ReadFile(_, _, _, answer) => answer == Reply
    case PreadFile(_, _, offset, _, answer) => answer == Reply && 0 <= offset
    case SeekFile(lfd, offset, whence, _) =>
      lfd in w.fdMap && lfd in d ==> FitsInt32(offset) && FitsInt32(Lseek(d[lfd], offset, whence).1)
    case _ => true
  }

  ghost predicate Smooth(w: World, d: Direct, a: Action) {
    Arrives(w, a) && Answered(w, d, a)
  }

  /** The call's result is the plain descriptor's, and afterwards the two are tied again. Deliveries have
      no caller. */
  ghost predicate Agrees(pfs: Files, w: World, d: Direct, a: Action)
    requires Enabled(pfs, w, a)
  {
    && DirectEnabled(pfs, d, a)
    && (!a.DeliverClose? ==> Apply(pfs, w, a).1 == DirectApply(pfs, d, a).1)
    && Same(Apply(pfs, w, a).0, DirectApply(pfs, d, a).0)
  }

  /** A descriptor in a server's table is never -1. */
  lemma NotMinusOne(pfs: Files, w: World, d: Direct, lfd: LocalFd)
    requires Inv(pfs, w) && lfd in d && lfd in w.local && Tied(w, d, lfd) && lfd in w.fdMap
    ensures w.sessions[SessionOf(w, lfd)].fd != -1
    ensures lfd !in w.adrift ==> Redir(w, lfd) == w.sessions[SessionOf(w, lfd)].fd
  {
    assert Tracked(pfs, w, lfd);
    var s := w.sessions[SessionOf(w, lfd)];
    assert (s.host, s.fd) in w.holder;
  }

  /** No other tracked descriptor sits in lfd's place. */
  ghost predicate Alone(w: World, d: Direct, lfd: LocalFd) {
    forall x | x in d && x in w.fdMap && x != lfd :: Site(w, x) != Site(w, lfd)
  }

  lemma Apart(pfs: Files, w: World, d: Direct, x: LocalFd, y: LocalFd)
    requires Inv(pfs, w) && x in w.fdMap && y in w.fdMap && x != y
    requires x in d && y in d && x in w.local && y in w.local && Tied(w, d, x) && Tied(w, d, y)
    ensures Site(w, x) != Site(w, y)
  {
    NotMinusOne(pfs, w, d, x);
    NotMinusOne(pfs, w, d, y);
    LiveSessionsDiffer(pfs, w, x, y);
  }

  /** Tracked descriptors of different sessions sit in different places. */
  lemma EveryoneIsAlone(pfs: Files, w: World, d: Direct, lfd: LocalFd)
    requires Inv(pfs, w) && Same(w, d) && lfd in w.fdMap && lfd in d
    ensures Alone(w, d, lfd)
  {
    forall x | x in d && x in w.fdMap && x != lfd ensures Site(w, x) != Site(w, lfd) {
      assert Tied(w, d, x) && Tied(w, d, lfd);
      Apart(pfs, w, d, x, lfd);
    }
  }

  lemma OwnUpdateElsewhere(w: World, d: Direct, lfd: LocalFd, s': State, desc: Description, x: LocalFd)
    requires lfd in w.fdMap && lfd in d && x in d && x != lfd && lfd in w.local && x in w.local
    requires Tied(w, d, x) && Tied(w, d, lfd)
    requires x in w.fdMap ==> Site(w, x) != Site(w, lfd)
    requires s'.table == w.servers[Site(w, lfd).0].table[Site(w, lfd).1 := desc]
    ensures Tied(WithServer(w, Site(w, lfd).0, s'), d[lfd := desc], x)
  {
  }

  lemma OwnUpdateHere(w: World, d: Direct, lfd: LocalFd, s': State, desc: Description)
    requires lfd in w.fdMap && lfd in d && lfd in w.local && Tied(w, d, lfd)
    requires s'.table == w.servers[Site(w, lfd).0].table[Site(w, lfd).1 := desc]
    ensures Tied(WithServer(w, Site(w, lfd).0, s'), d[lfd := desc], lfd)
  {
  }

  /** Only one descriptor of one server changes, and it is lfd's own. */
  lemma OwnUpdate(w: World, d: Direct, lfd: LocalFd, s': State, desc: Description)
    requires Same(w, d) && lfd in w.fdMap && lfd in d && Tied(w, d, lfd) && Alone(w, d, lfd)
    requires s'.table == w.servers[Site(w, lfd).0].table[Site(w, lfd).1 := desc]
    ensures Same(WithServer(w, Site(w, lfd).0, s'), d[lfd := desc])
  {
    var w' := WithServer(w, Site(w, lfd).0, s');
    forall x | x in d ensures Tied(w', d[lfd := desc], x) {
      if x == lfd {
        OwnUpdateHere(w, d, lfd, s', desc);
      } else {
        assert Tied(w, d, x);
        OwnUpdateElsewhere(w, d, lfd, s', desc, x);
      }
    }
  }

  lemma LocalUpdate(w: World, d: Direct, lfd: LocalFd, desc: Description)
    requires Same(w, d) && lfd !in w.fdMap && lfd in d
    ensures Same(w.(local := w.local[lfd := desc]), d[lfd := desc])
  {
    var w', d' := w.(local := w.local[lfd := desc]), d[lfd := desc];
    forall x | x in d' ensures Tied(w', d', x) {
      assert x != lfd ==> Tied(w, d, x);
    }
  }

  lemma ReadOne(pfs: Files, w: World, d: Direct, a: Action)
    requires a.ReadFile? && Enabled(pfs, w, a) && a.answer == Reply
    requires a.lfd in d && a.lfd in w.fdMap && Tied(w, d, a.lfd)
    requires Reaches(w, a.lfd, a.host) && Redir(w, a.lfd) == w.sessions[SessionOf(w, a.lfd)].fd
    ensures Apply(pfs, w, a).1 == Got(Posix.Read(d[a.lfd], a.count).1)
    ensures
      var s := HandleRead(w.servers[a.host], Redir(w, a.lfd), a.count, -1).0;
      && Apply(pfs, w, a).0 == WithServer(w, a.host, s)
      && s.table == w.servers[a.host].table[Redir(w, a.lfd) := Posix.Read(d[a.lfd], a.count).0]
  {
  }

  lemma ReadAgrees(pfs: Files, w: World, d: Direct, a: Action)
    requires Inv(pfs, w) && Same(w, d) && a.ReadFile? && Enabled(pfs, w, a) && Smooth(w, d, a)
    ensures Agrees(pfs, w, d, a)
  {
    assert Tied(w, d, a.lfd);
    var x := Posix.Read(d[a.lfd], a.count).0;
    if a.lfd in w.fdMap {
      NotMinusOne(pfs, w, d, a.lfd);
      ReadOne(pfs, w, d, a);
      EveryoneIsAlone(pfs, w, d, a.lfd);
      OwnUpdate(w, d, a.lfd, HandleRead(w.servers[a.host], Redir(w, a.lfd), a.count, -1).0, x);
    } else {
      LocalUpdate(w, d, a.lfd, x);
    }
  }

  lemma SeekOne(pfs: Files, w: World, d: Direct, a: Action)
    requires a.SeekFile? && Enabled(pfs, w, a) && a.lfd in d && a.lfd in w.fdMap && Tied(w, d, a.lfd)
    requires Reaches(w, a.lfd, a.host) && Redir(w, a.lfd) == w.sessions[SessionOf(w, a.lfd)].fd
    requires FitsInt32(a.offset) && FitsInt32(Lseek(d[a.lfd], a.offset, a.whence).1)
    ensures Apply(pfs, w, a).1 == At(Lseek(d[a.lfd], a.offset, a.whence).1)
    ensures
      var s := HandleSeek(w.servers[a.host], Redir(w, a.lfd), a.offset, a.whence).0;
      && Apply(pfs, w, a).0 == WithServer(w, a.host, s)
      && s.table == w.servers[a.host].table[Redir(w, a.lfd) := Lseek(d[a.lfd], a.offset, a.whence).0]
  {
  }

  lemma SeekAgrees(pfs: Files, w: World, d: Direct, a: Action)
    requires Inv(pfs, w) && Same(w, d) && a.SeekFile? && Enabled(pfs, w, a) && Smooth(w, d, a)
    ensures Agrees(pfs, w, d, a)
  {
    assert Tied(w, d, a.lfd);
    var x := Lseek(d[a.lfd], a.offset, a.whence).0;
    if a.lfd in w.fdMap {
      NotMinusOne(pfs, w, d, a.lfd);
      SeekOne(pfs, w, d, a);
      EveryoneIsAlone(pfs, w, d, a.lfd);
      OwnUpdate(w, d, a.lfd, HandleSeek(w.servers[a.host], Redir(w, a.lfd), a.offset, a.whence).0, x);
    } else {
      LocalUpdate(w, d, a.lfd, x);
    }
  }

  /** Nothing changes in any server's table. */
  ghost predicate TablesKept(w: World, w': World) {
    && w'.(servers := w.servers) == w && w'.servers.Keys == w.servers.Keys
    && forall h | h in w.servers :: w'.servers[h].table == w.servers[h].table
  }

  lemma KeptTablesAgree(w: World, d: Direct, w': World)
    requires Same(w, d) && TablesKept(w, w')
    ensures Same(w', d)
  {
    forall x | x in d ensures Tied(w', d, x) {
      assert Tied(w, d, x);
    }
  }

  lemma PreadOne(pfs: Files, w: World, d: Direct, a: Action)
    requires a.PreadFile? && Enabled(pfs, w, a) && a.answer == Reply && 0 <= a.offset && a.lfd in d
    requires a.lfd in w.fdMap && Tied(w, d, a.lfd)
    requires Reaches(w, a.lfd, a.host) && Redir(w, a.lfd) == w.sessions[SessionOf(w, a.lfd)].fd
    ensures Apply(pfs, w, a).1 == Got(Pread(d[a.lfd].content, a.count, a.offset))
    ensures TablesKept(w, Apply(pfs, w, a).0)
  {
  }

  lemma PreadAgrees(pfs: Files, w: World, d: Direct, a: Action)
    requires Inv(pfs, w) && Same(w, d) && a.PreadFile? && Enabled(pfs, w, a) && Smooth(w, d, a)
    ensures Agrees(pfs, w, d, a)
  {
    assert Tied(w, d, a.lfd);
    if a.lfd in w.fdMap {
      NotMinusOne(pfs, w, d, a.lfd);
      PreadOne(pfs, w, d, a);
      KeptTablesAgree(w, d, Apply(pfs, w, a).0);
    }
  }

  lemma OpenElsewhere(pfs: Files, w: World, d: Direct, a: Action, x: LocalFd)
    requires a.OpenFile? && Enabled(pfs, w, a) && x in d && x in w.local && Tied(w, d, x) && x != a.lfd
    ensures Tied(Apply(pfs, w, a).0, DirectApply(pfs, d, a).0, x)
  {
  }

  lemma OpenHere(pfs: Files, w: World, d: Direct, a: Action)
    requires a.OpenFile? && Enabled(pfs, w, a) && ServersCoherent(pfs, w) && a.lfd !in w.fdMap
    requires a.tracked ==> a.fd != -1
    ensures Tied(Apply(pfs, w, a).0, DirectApply(pfs, d, a).0, a.lfd)
  {
    if a.tracked {
      RedirectionIsTransparent(w.servers[a.host], pfs, a.path, a.fd);
    }
  }

  lemma OpenKeys(pfs: Files, w: World, d: Direct, a: Action)
    requires a.OpenFile? && Enabled(pfs, w, a)
    ensures Apply(pfs, w, a).0.local.Keys == w.local.Keys + {a.lfd}
    ensures DirectApply(pfs, d, a).0.Keys == d.Keys + {a.lfd}
  {
  }

  lemma OpenAgreesAll(pfs: Files, w: World, d: Direct, a: Action)
    requires Same(w, d) && a.OpenFile? && Enabled(pfs, w, a) && ServersCoherent(pfs, w) && a.lfd !in w.fdMap
    requires a.tracked ==> a.fd != -1
    ensures Same(Apply(pfs, w, a).0, DirectApply(pfs, d, a).0)
  {
    var w', d' := Apply(pfs, w, a).0, DirectApply(pfs, d, a).0;
    OpenHere(pfs, w, d, a);
    OpenKeys(pfs, w, d, a);
    forall x | x in d' ensures Tied(w', d', x) {
      if x != a.lfd {
        assert Tied(w, d, x);
        OpenElsewhere(pfs, w, d, a, x);
      }
    }
  }

  lemma OpenAgrees(pfs: Files, w: World, d: Direct, a: Action)
    requires Inv(pfs, w) && Same(w, d) && a.OpenFile? && Enabled(pfs, w, a) && Smooth(w, d, a)
    ensures Agrees(pfs, w, d, a)
  {
    FreshIsUntracked(pfs, w, a.lfd);
    OpenAgreesAll(pfs, w, d, a);
  }

  /** lfd is gone; every other descriptor is tracked or not as before, in the same place. */
  ghost predicate OnlyClosed(w: World, w': World, lfd: LocalFd) {
    && w'.servers == w.servers && w'.current == w.current && w'.local == w.local - {lfd}
    && |w'.sessions| == |w.sessions|
    && (forall x | x != lfd :: x in w'.fdMap <==> x in w.fdMap)
    && (forall x | x in w.fdMap :: Site(w', x) == Site(w, x))
  }

  lemma MovedSites(w: World, w': World, id: nat, phase: Phase)
    requires w'.current == w.current && w'.sessions == Moved(w.sessions, id, phase)
    ensures forall x | x in w.fdMap :: Site(w', x) == Site(w, x)
  {
  }

  /** What CloseFile does to the client. */
  lemma CloseFacts(pfs: Files, w: World, a: Action) returns (phase: Phase)
    requires a.CloseFile? && Enabled(pfs, w, a)
    ensures
      var w' := Apply(pfs, w, a).0;
      && w'.servers == w.servers && w'.current == w.current && w'.local == w.local - {a.lfd}
      && w'.fdMap == w.fdMap - {a.lfd}
      && w'.sessions == if a.lfd in w.fdMap then Moved(w.sessions, SessionOf(w, a.lfd), phase) else w.sessions
  {
    phase := if a.sent then Closing else Leaked;
  }

  lemma CloseOnly(pfs: Files, w: World, a: Action)
    requires a.CloseFile? && Enabled(pfs, w, a)
    ensures OnlyClosed(w, Apply(pfs, w, a).0, a.lfd)
  {
    var phase := CloseFacts(pfs, w, a);
    if a.lfd in w.fdMap {
      MovedSites(w, Apply(pfs, w, a).0, SessionOf(w, a.lfd), phase);
    }
  }

  lemma OnlyClosedAgrees(w: World, d: Direct, w': World, lfd: LocalFd)
    requires Same(w, d) && OnlyClosed(w, w', lfd)
    ensures Same(w', d - {lfd})
  {
    forall x | x in d && x != lfd ensures Tied(w', d - {lfd}, x) {
      assert Tied(w, d, x);
      assert x in w.fdMap ==> Site(w', x) == Site(w, x);
    }
  }

  lemma CloseAgrees(pfs: Files, w: World, d: Direct, a: Action)
    requires Same(w, d) && a.CloseFile? && Enabled(pfs, w, a)
    ensures Agrees(pfs, w, d, a)
  {
    CloseOnly(pfs, w, a);
    OnlyClosedAgrees(w, d, Apply(pfs, w, a).0, a.lfd);
  }

  /** A message never names the descriptor of a live session. */
  lemma MessageIsElsewhere(pfs: Files, w: World, d: Direct, k: nat, x: LocalFd)
    requires Inv(pfs, w) && k < |w.inFlight| && x in w.fdMap && x in d && x in w.local && Tied(w, d, x)
    ensures
      var s, m := w.sessions[SessionOf(w, x)], w.inFlight[k];
      (s.host, s.fd) != (m.host, m.fd)
  {
    NotMinusOne(pfs, w, d, x);
    assert Tracked(pfs, w, x) && Announced(w, w.inFlight[k]);
    assert Held(pfs, w, SessionOf(w, x));
    if w.inFlight[k].fd != -1 {
      assert Held(pfs, w, w.inFlight[k].session);
    }
  }

  lemma DeliverElsewhere(pfs: Files, w: World, d: Direct, k: nat, x: LocalFd)
    requires Enabled(pfs, w, DeliverClose(k)) && x in d && x in w.local && Tied(w, d, x)
    requires x in w.fdMap ==>
      var s, m := w.sessions[SessionOf(w, x)], w.inFlight[k];
      (s.host, s.fd) != (m.host, m.fd)
    ensures Tied(Apply(pfs, w, DeliverClose(k)).0, d, x)
  {
  }

  lemma DeliverAgrees(pfs: Files, w: World, d: Direct, k: nat)
    requires Inv(pfs, w) && Same(w, d) && Enabled(pfs, w, DeliverClose(k))
    ensures Agrees(pfs, w, d, DeliverClose(k))
  {
    forall x | x in d ensures Tied(Apply(pfs, w, DeliverClose(k)).0, d, x) {
      assert Tied(w, d, x);
      if x in w.fdMap {
        MessageIsElsewhere(pfs, w, d, k, x);
      }
      DeliverElsewhere(pfs, w, d, k, x);
    }
  }

  /** A late read moves a position only where no live session looks. */
  lemma LateReadIsElsewhere(pfs: Files, w: World, d: Direct, k: nat, x: LocalFd)
    requires Inv(pfs, w) && Enabled(pfs, w, DeliverRead(k)) && w.lateReads[k].offset == -1
    requires x in w.fdMap && x in d && x in w.local && Tied(w, d, x)
    ensures Site(w, x) != (w.lateReads[k].host, w.lateReads[k].fd)
  {
    var m := w.lateReads[k];
    NotMinusOne(pfs, w, d, x);
    assert Tracked(pfs, w, x) && OfLeaked(w, m);
    assert Held(pfs, w, SessionOf(w, x));
    if m.fd != -1 {
      assert Held(pfs, w, m.session);
    }
  }

  lemma LateReadElsewhere(pfs: Files, w: World, d: Direct, k: nat, x: LocalFd)
    requires Enabled(pfs, w, DeliverRead(k)) && x in d && x in w.local && Tied(w, d, x)
    requires x in w.fdMap && w.lateReads[k].offset == -1 ==> Site(w, x) != (w.lateReads[k].host, w.lateReads[k].fd)
    ensures Tied(Apply(pfs, w, DeliverRead(k)).0, d, x)
  {
  }

  lemma LateReadAgrees(pfs: Files, w: World, d: Direct, k: nat)
    requires Inv(pfs, w) && Same(w, d) && Enabled(pfs, w, DeliverRead(k))
    ensures Agrees(pfs, w, d, DeliverRead(k))
  {
    forall x | x in d ensures Tied(Apply(pfs, w, DeliverRead(k)).0, d, x) {
      assert Tied(w, d, x);
      if x in w.fdMap && w.lateReads[k].offset == -1 {
        LateReadIsElsewhere(pfs, w, d, k, x);
      }
      LateReadElsewhere(pfs, w, d, k, x);
    }
  }

  /** The session a late open belongs to has no descriptor yet, so nobody's position is there. */
  lemma UnservedIsElsewhere(pfs: Files, w: World, d: Direct, k: nat, x: LocalFd)
    requires Inv(pfs, w) && k < |w.lateOpens| && w.lateOpens[k].Asked?
    requires x in w.fdMap && x in d && x in w.local && Tied(w, d, x)
    ensures SessionOf(w, x) != w.lateOpens[k].session
  {
    NotMinusOne(pfs, w, d, x);
    assert OfSession(w, w.lateOpens[k]);
  }

  lemma ServeElsewhere(pfs: Files, w: World, d: Direct, k: nat, fd: int, x: LocalFd)
    requires Enabled(pfs, w, ServeOpen(k, fd)) && x in d && x in w.local && Tied(w, d, x)
    requires x in w.fdMap ==> SessionOf(w, x) != w.lateOpens[k].session
    ensures Tied(Apply(pfs, w, ServeOpen(k, fd)).0, d, x)
  {
  }

  lemma ServeAgrees(pfs: Files, w: World, d: Direct, k: nat, fd: int)
    requires Inv(pfs, w) && Same(w, d) && Enabled(pfs, w, ServeOpen(k, fd))
    ensures Agrees(pfs, w, d, ServeOpen(k, fd))
  {
    forall x | x in d ensures Tied(Apply(pfs, w, ServeOpen(k, fd)).0, d, x) {
      assert Tied(w, d, x);
      if x in w.fdMap {
        UnservedIsElsewhere(pfs, w, d, k, x);
      }
      ServeElsewhere(pfs, w, d, k, fd, x);
    }
  }

  lemma HearAgrees(pfs: Files, w: World, d: Direct, k: nat)
    requires Same(w, d) && Enabled(pfs, w, HearOpen(k))
    ensures Agrees(pfs, w, d, HearOpen(k))
  {
    forall x | x in d ensures Tied(Apply(pfs, w, HearOpen(k)).0, d, x) {
      assert Tied(w, d, x);
    }
  }

  lemma CopyAgrees(pfs: Files, w: World, d: Direct, a: Action)
    requires Same(w, d) && a.Copied? && Enabled(pfs, w, a)
    ensures Agrees(pfs, w, d, a)
  {
    KeptTablesAgree(w, d, Apply(pfs, w, a).0);
  }

  lemma SmoothIsWellRouted(pfs: Files, w: World, d: Direct, a: Action)
    requires Inv(pfs, w) && Same(w, d) && Enabled(pfs, w, a) && Smooth(w, d, a)
    ensures WellRouted(w, a)
  {
    if a.ReadFile? && a.lfd in w.fdMap {
      assert Tied(w, d, a.lfd);
      NotMinusOne(pfs, w, d, a.lfd);
    }
  }

  /** One failure-free call gives the application what a plain descriptor would, and leaves the server's
      position where the plain descriptor's is. */
  lemma StepAgrees(pfs: Files, w: World, d: Direct, a: Action)
    requires Inv(pfs, w) && Same(w, d) && Enabled(pfs, w, a) && Smooth(w, d, a)
    ensures Agrees(pfs, w, d, a)
  {
    match a
    case OpenFile(_, _, _, _, _) => OpenAgrees(pfs, w, d, a);
    case ReadFile(_, _, _, _) => ReadAgrees(pfs, w, d, a);
    case PreadFile(_, _, _, _, _) => PreadAgrees(pfs, w, d, a);
    case SeekFile(_, _, _, _) => SeekAgrees(pfs, w, d, a);
    case CloseFile(_, _, _) => CloseAgrees(pfs, w, d, a);
    case DeliverClose(k) => DeliverAgrees(pfs, w, d, k);
    case DeliverRead(k) => LateReadAgrees(pfs, w, d, k);
    case ServeOpen(k, fd) => ServeAgrees(pfs, w, d, k, fd);
    case HearOpen(k) => HearAgrees(pfs, w, d, k);
    case Copied(_, _, _) => CopyAgrees(pfs, w, d, a);
  }

  /** The same, with the invariant. */
  lemma StepKeeps(pfs: Files, w: World, d: Direct, a: Action)
    requires Inv(pfs, w) && Same(w, d) && Enabled(pfs, w, a) && Smooth(w, d, a)
    ensures Agrees(pfs, w, d, a) && Inv(pfs, Apply(pfs, w, a).0)
  {
    StepAgrees(pfs, w, d, a);
    SmoothIsWellRouted(pfs, w, d, a);
    InvKept(pfs, w, a);
  }

  /** What the application sees of a run: the results of its own calls. Late deliveries and copies give it
      nothing. */
  ghost function Seen(a: Action, out: Output): Output {
    if a.DeliverClose? then Silent else out
  }

  ghost predicate SmoothRun(pfs: Files, w: World, d: Direct, actions: seq<Action>)
    decreases |actions|
  {
    actions == [] ||
    (Enabled(pfs, w, actions[0]) && Smooth(w, d, actions[0]) && DirectEnabled(pfs, d, actions[0]) &&
     SmoothRun(pfs, Apply(pfs, w, actions[0]).0, DirectApply(pfs, d, actions[0]).0, actions[1..]))
  }

  ghost function Outputs(pfs: Files, w: World, d: Direct, actions: seq<Action>): seq<Output>
    requires SmoothRun(pfs, w, d, actions)
    decreases |actions|
  {
    if actions == [] then []
    else
      [Seen(actions[0], Apply(pfs, w, actions[0]).1)] +
      Outputs(pfs, Apply(pfs, w, actions[0]).0, DirectApply(pfs, d, actions[0]).0, actions[1..])
  }

  ghost function DirectOutputs(pfs: Files, w: World, d: Direct, actions: seq<Action>): seq<Output>
    requires SmoothRun(pfs, w, d, actions)
    decreases |actions|
  {
    if actions == [] then []
    else
      [DirectApply(pfs, d, actions[0]).1] +
      DirectOutputs(pfs, Apply(pfs, w, actions[0]).0, DirectApply(pfs, d, actions[0]).0, actions[1..])
  }

  /** Where the run leaves the world and the plain descriptors. */
  ghost function Ends(pfs: Files, w: World, d: Direct, actions: seq<Action>): (World, Direct)
    requires SmoothRun(pfs, w, d, actions)
    decreases |actions|
  {
    if actions == [] then (w, d)
    else Ends(pfs, Apply(pfs, w, actions[0]).0, DirectApply(pfs, d, actions[0]).0, actions[1..])
  }

  /** Stream refinement: over any failure-free run of any number of descriptors, clients and servers,
      with closes delivered late and copies made in between, every open, read, pread, lseek and close
      returns exactly what direct descriptors would, and at the end every server position is the direct
      one. */
  lemma {:induction false} StreamRefinement(pfs: Files, w: World, d: Direct, actions: seq<Action>)
    requires Inv(pfs, w) && Same(w, d) && SmoothRun(pfs, w, d, actions)
    ensures Outputs(pfs, w, d, actions) == DirectOutputs(pfs, w, d, actions)
    ensures Same(Ends(pfs, w, d, actions).0, Ends(pfs, w, d, actions).1) && Inv(pfs, Ends(pfs, w, d, actions).0)
    decreases |actions|
  {
    if actions != [] {
      StepAgrees(pfs, w, d, actions[0]);
      SmoothIsWellRouted(pfs, w, d, actions[0]);
      InvKept(pfs, w, actions[0]);
      StreamRefinement(pfs, Apply(pfs, w, actions[0]).0, DirectApply(pfs, d, actions[0]).0, actions[1..]);
    }
  }

  /** The results are those that plain descriptors promise, call by call from d to `end`. */
  ghost predicate AllPromised(pfs: Files, d: Direct, actions: seq<Action>, outs: seq<Output>, end: Direct)
    decreases |actions|
  {
    if actions == [] then outs == [] && d == end
    else outs != [] && exists d' ::
      Promised(pfs, d, actions[0], d', outs[0]) && AllPromised(pfs, d', actions[1..], outs[1..], end)
  }

  lemma SeenIsPromised(pfs: Files, w: World, d: Direct, a: Action)
    requires Inv(pfs, w) && Same(w, d) && Enabled(pfs, w, a) && Smooth(w, d, a)
    ensures DirectEnabled(pfs, d, a)
    ensures Promised(pfs, d, a, DirectApply(pfs, d, a).0, Seen(a, Apply(pfs, w, a).1))
  {
    StepAgrees(pfs, w, d, a);
    DirectKeepsPromises(pfs, d, a);
  }

  /** The same in bytes and positions: over any failure-free run, whatever open, read, pread, lseek and close
      promise on plain files is kept by every call. */
  lemma {:induction false} StreamsKeepPromises(pfs: Files, w: World, d: Direct, actions: seq<Action>)
    requires Inv(pfs, w) && Same(w, d) && SmoothRun(pfs, w, d, actions)
    ensures AllPromised(pfs, d, actions, Outputs(pfs, w, d, actions), Ends(pfs, w, d, actions).1)
    decreases |actions|
  {
    if actions != [] {
      var a := actions[0];
      var w', d' := Apply(pfs, w, a).0, DirectApply(pfs, d, a).0;
      SeenIsPromised(pfs, w, d, a);
      StepKeeps(pfs, w, d, a);
      StreamsKeepPromises(pfs, w', d', actions[1..]);
      assert Outputs(pfs, w, d, actions)[1..] == Outputs(pfs, w', d', actions[1..]);
    }
  }

  lemma SameInit(pfs: Files, hosts: set<Host>)
    ensures Inv(pfs, Init(pfs, hosts)) && Same(Init(pfs, hosts), map[])
  {
    InvInit(pfs, hosts);
  }

  // ---------------------------------------------------------------------------------------------
  // Leaked sessions, and path tables over whole runs
  // ---------------------------------------------------------------------------------------------

  ghost predicate IsLeaked(w: World, id: nat, s: Session) {
    id < |w.sessions| && w.sessions[id] == s && s.phase == Leaked
  }

  lemma RemoteReadLeaks(pfs: Files, w: World, lfd: LocalFd, count: nat, offset: int, host: Host, answer: Wait,
                        id: nat, s: Session)
    requires DescriptorsTracked(pfs, w) && host in w.servers && IsLeaked(w, id, s)
    ensures IsLeaked(RemoteRead(w, lfd, count, offset, host, answer).0, id, s)
  {
    assert lfd in w.fdMap ==> Tracked(pfs, w, lfd);
  }

  lemma LeakStays(pfs: Files, w: World, a: Action, id: nat, s: Session)
    requires DescriptorsTracked(pfs, w) && MessagesAnnounced(w) && LateOpensKnown(w) && Enabled(pfs, w, a)
    requires IsLeaked(w, id, s) && s.fd != -1
    ensures IsLeaked(Apply(pfs, w, a).0, id, s)
  {
    match a
    case ReadFile(lfd, count, host, answer) => RemoteReadLeaks(pfs, w, lfd, count, -1, host, answer, id, s);
    case PreadFile(lfd, count, offset, host, answer) =>
      RemoteReadLeaks(pfs, w, lfd, count, offset, host, answer, id, s);
    case CloseFile(lfd, _, _) => assert lfd in w.fdMap ==> Tracked(pfs, w, lfd);
    case DeliverClose(k) => assert Announced(w, w.inFlight[k]);
    case ServeOpen(k, _) => assert OfSession(w, w.lateOpens[k]);
    case _ =>
  }

  /** No open behind a tracked descriptor failed, nor one whose answer is still to come, and every read on
      its way, stream read or pread, is for an open descriptor of a leaked session. */
  ghost predicate OpensSucceeded(w: World) {
    && (forall lfd | lfd in w.fdMap && lfd !in w.adrift :: Redir(w, lfd) != -1)
    && (forall k | 0 <= k < |w.lateOpens| && w.lateOpens[k].Told? :: w.lateOpens[k].fd != -1)
    && (forall k | 0 <= k < |w.lateReads| :: OfLeaked(w, w.lateReads[k]) && w.lateReads[k].fd != -1)
  }

  /** The open succeeds. Lost answers, dropped descriptors, withheld closes and seeks of any width are
      allowed. */
  ghost predicate Succeeds(a: Action) {
    match a
    case OpenFile(_, _, tracked, _, fd) => tracked ==> fd != -1
    case ServeOpen(_, fd) => fd != -1
    case _ => true
  }

  lemma LateReadIsClean(pfs: Files, w: World, k: nat)
    requires Inv(pfs, w) && OpensSucceeded(w) && Enabled(pfs, w, DeliverRead(k))
    ensures Clean(w, DeliverRead(k))
  {
    assert OfLeaked(w, w.lateReads[k]);
    assert Held(pfs, w, w.lateReads[k].session);
  }

  lemma ArrivingIsClean(pfs: Files, w: World, a: Action)
    requires Inv(pfs, w) && OpensSucceeded(w) && Enabled(pfs, w, a) && Arrives(w, a) && Succeeds(a)
    ensures Clean(w, a) && WellRouted(w, a)
  {
    match a
    case ReadFile(lfd, _, host, answer) =>
      if lfd in w.fdMap && answer == Reply {
        ReachingIsClean(pfs, w, lfd, host);
      }
    case PreadFile(lfd, _, _, host, answer) =>
      if lfd in w.fdMap && answer == Reply {
        ReachingIsClean(pfs, w, lfd, host);
      }
    case DeliverRead(k) => LateReadIsClean(pfs, w, k);
    case _ =>
  }

  /** What a remote read does to the client's own state, w' being the state after it. */
  ghost predicate ReadClient(w: World, w': World, lfd: LocalFd, count: nat, offset: int, host: Host, answer: Wait) {
    && w'.fdMap.Keys <= w.fdMap.Keys && w'.redir == w.redir && w'.adrift == w.adrift && w'.lateOpens == w.lateOpens
    && w'.lateReads ==
         if lfd in w.fdMap && answer == TimedOut
         then w.lateReads + [ReadMessage(host, Redir(w, lfd), count, offset, SessionOf(w, lfd))] else w.lateReads
  }

  lemma AnsweredReadClient(w: World, lfd: LocalFd, count: nat, offset: int, host: Host)
    requires host in w.servers
    ensures ReadClient(w, RemoteRead(w, lfd, count, offset, host, Reply).0, lfd, count, offset, host, Reply)
  {
  }

  lemma RemoteReadClient(w: World, lfd: LocalFd, count: nat, offset: int, host: Host, answer: Wait)
    requires host in w.servers
    ensures ReadClient(w, RemoteRead(w, lfd, count, offset, host, answer).0, lfd, count, offset, host, answer)
  {
    if answer == Reply {
      AnsweredReadClient(w, lfd, count, offset, host);
    }
  }

  lemma AnswersKept(pfs: Files, w: World, a: Action)
    requires OpensSucceeded(w) && Enabled(pfs, w, a) && Succeeds(a)
    ensures
      var w' := Apply(pfs, w, a).0;
      forall k | 0 <= k < |w'.lateOpens| && w'.lateOpens[k].Told? :: w'.lateOpens[k].fd != -1
  {
    if a.ReadFile? {
      RemoteReadClient(w, a.lfd, a.count, -1, a.host, a.answer);
    } else if a.PreadFile? {
      RemoteReadClient(w, a.lfd, a.count, a.offset, a.host, a.answer);
    }
  }

  lemma HearIsReadable(pfs: Files, w: World, k: nat)
    requires OpensSucceeded(w) && Enabled(pfs, w, HearOpen(k))
    ensures
      var w' := Apply(pfs, w, HearOpen(k)).0;
      forall lfd | lfd in w'.fdMap && lfd !in w'.adrift :: Redir(w', lfd) != -1
  {
    assert w.lateOpens[k].Told?;
  }

  lemma ReadableKept(pfs: Files, w: World, a: Action)
    requires OpensSucceeded(w) && Enabled(pfs, w, a) && Succeeds(a)
    ensures
      var w' := Apply(pfs, w, a).0;
      forall lfd | lfd in w'.fdMap && lfd !in w'.adrift :: Redir(w', lfd) != -1
  {
    if a.ReadFile? {
      RemoteReadClient(w, a.lfd, a.count, -1, a.host, a.answer);
    } else if a.PreadFile? {
      RemoteReadClient(w, a.lfd, a.count, a.offset, a.host, a.answer);
    } else if a.HearOpen? {
      HearIsReadable(pfs, w, a.k);
    }
  }

  /** The reads on their way after an action: one more, one less, or the same. */
  lemma ReadsOnTheirWay(pfs: Files, w: World, a: Action, k: nat)
    requires Enabled(pfs, w, a) && k < |Apply(pfs, w, a).0.lateReads|
    ensures
      var m := Apply(pfs, w, a).0.lateReads[k];
      m in w.lateReads ||
      ((a.ReadFile? || a.PreadFile?) && a.answer == TimedOut && a.lfd in w.fdMap && m.host == a.host
        && m.fd == Redir(w, a.lfd) && m.session == SessionOf(w, a.lfd))
  {
    if a.ReadFile? {
      RemoteReadClient(w, a.lfd, a.count, -1, a.host, a.answer);
    } else if a.PreadFile? {
      RemoteReadClient(w, a.lfd, a.count, a.offset, a.host, a.answer);
    } else if !a.DeliverRead? {
      assert Apply(pfs, w, a).0.lateReads == w.lateReads;
    }
  }

  lemma GivenUpIsLeaked(pfs: Files, w: World, a: Action)
    requires DescriptorsTracked(pfs, w) && Enabled(pfs, w, a) && Arrives(w, a)
    requires (a.ReadFile? || a.PreadFile?) && a.answer == TimedOut && a.lfd in w.fdMap
    ensures
      var w' := Apply(pfs, w, a).0;
      && SessionOf(w, a.lfd) < |w'.sessions|
      && w'.sessions[SessionOf(w, a.lfd)].phase == Leaked
      && w'.sessions[SessionOf(w, a.lfd)].host == a.host
      && w'.sessions[SessionOf(w, a.lfd)].fd == Redir(w, a.lfd)
  {
    assert Tracked(pfs, w, a.lfd);
  }

  lemma SucceededKept(pfs: Files, w: World, a: Action)
    requires Inv(pfs, w) && OpensSucceeded(w) && Enabled(pfs, w, a) && Arrives(w, a) && Succeeds(a)
    ensures OpensSucceeded(Apply(pfs, w, a).0)
  {
    var w' := Apply(pfs, w, a).0;
    ReadableKept(pfs, w, a);
    AnswersKept(pfs, w, a);
    forall k | 0 <= k < |w'.lateReads| ensures OfLeaked(w', w'.lateReads[k]) && w'.lateReads[k].fd != -1 {
      var m := w'.lateReads[k];
      ReadsOnTheirWay(pfs, w, a, k);
      if m in w.lateReads {
        var j :| 0 <= j < |w.lateReads| && w.lateReads[j] == m;
        assert OfLeaked(w, w.lateReads[j]);
        LeakStays(pfs, w, a, m.session, w.sessions[m.session]);
      } else {
        GivenUpIsLeaked(pfs, w, a);
      }
    }
  }

  /** A run in which requests that are sent arrive and opens succeed. */
  ghost predicate ArrivingRun(pfs: Files, w: World, actions: seq<Action>)
    decreases |actions|
  {
    actions == [] ||
    (Enabled(pfs, w, actions[0]) && Arrives(w, actions[0]) && Succeeds(actions[0]) &&
     ArrivingRun(pfs, Apply(pfs, w, actions[0]).0, actions[1..]))
  }

  /** Over any run in which requests reach the host of the open and opens succeed, each server's path table
      has exactly its open descriptors as keys. */
  lemma {:induction false} PathsAlwaysExact(pfs: Files, w: World, actions: seq<Action>)
    requires Inv(pfs, w) && PathsExact(w) && OpensSucceeded(w) && ArrivingRun(pfs, w, actions)
    ensures IsRun(pfs, w, actions) && PathsExact(After(pfs, w, actions))
    decreases |actions|
  {
    if actions != [] {
      var a := actions[0];
      ArrivingIsClean(pfs, w, a);
      InvKept(pfs, w, a);
      PathsStayExact(pfs, w, a);
      SucceededKept(pfs, w, a);
      PathsAlwaysExact(pfs, Apply(pfs, w, a).0, actions[1..]);
    }
  }
}
