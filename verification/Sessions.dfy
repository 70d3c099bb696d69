/** Descriptor sessions across clients and servers: local descriptor, remote descriptor, server offset.
    Any number of client processes work on any number of servers. Close messages have no reply; they, the
    reads and the opens a client gave up waiting for are delivered at any later time, in any order. The
    world is compared with the direct descriptors the application would have had without the library. */
module Sessions {
  import opened Posix
  import opened Servers

  type Host = nat

  /** A local descriptor of one client process. */
  datatype LocalFd = LocalFd(client: nat, fd: nat)

  datatype Phase =
    | Live(lfd: LocalFd)
    | Closing             // its close message is on the way
    | Leaked              // no client tracks it, and it has sent no close message
    | Gone

  /** One remote open: where it was sent, the descriptor it got (-1 if it failed or is not served yet), and
      its path. */
  datatype Session = Session(host: Host, fd: int, path: Path, phase: Phase)

  datatype CloseMessage = CloseMessage(host: Host, fd: int, session: nat)

  /** A read or pread whose client stopped waiting. */
  datatype ReadMessage = ReadMessage(host: Host, fd: int, count: nat, offset: int, session: nat)

  /** An open whose client stopped waiting: still a request, or served and on its way back. */
  datatype LateOpen =
    | Asked(lfd: LocalFd, host: Host, path: Path, session: nat)
    | Told(lfd: LocalFd, fd: int, session: nat)

  /** `adrift` has the descriptors whose entry in fd_redir_map is not the answer to their own open: it has
      not come yet, or the answer to an earlier one came after it. It and the last three fields are
      bookkeeping for the statements below; no action reads them to decide what a client or server does. */
  datatype World = World(
    fdMap: map<LocalFd, Path>,
    redir: map<LocalFd, int>,
    local: map<LocalFd, Description>,
    servers: map<Host, State>,
    inFlight: seq<CloseMessage>,
    lateReads: seq<ReadMessage>,
    lateOpens: seq<LateOpen>,
    adrift: set<LocalFd>,
    sessions: seq<Session>,
    current: map<LocalFd, nat>,
    holder: map<(Host, int), nat>)

  /** How the wait for an answer ends: with it, after a timeout, or at once because the guard took the host
      off the ring instead of sending the request. */
  datatype Wait = Reply | TimedOut | Withheld

  /** `host` is the server the client's routing chose; `sent` tells whether the guard let a close message
      go. */
  datatype Action =
    | OpenFile(lfd: LocalFd, path: Path, tracked: bool, host: Host, fd: int)
    | OpenTimesOut(lfd: LocalFd, path: Path, host: Host)
    | ReadFile(lfd: LocalFd, count: nat, host: Host, answer: Wait)
    | PreadFile(lfd: LocalFd, count: nat, offset: int, host: Host, answer: Wait)
    | SeekFile(lfd: LocalFd, offset: int, whence: int, host: Host)
    | CloseFile(lfd: LocalFd, host: Host, sent: bool)
    | DeliverClose(k: nat)
    | DeliverRead(k: nat)
    | ServeOpen(k: nat, fd: int)
    | HearOpen(k: nat)
    | Copied(host: Host, cache: map<Path, Path>, files: Files)

  datatype Output = Silent | Got(r: IoResult) | At(position: int)

  function Init(pfs: Files, hosts: set<Host>): World {
    World(map[], map[], map[], map h | h in hosts :: State(map[], map[], map[], pfs, []), [], [], [], {}, [],
          map[], map[])
  }

  ghost predicate Enabled(pfs: Files, w: World, a: Action) {
    match a
    case OpenFile(lfd, path, tracked, host, fd) =>
      lfd !in w.local && path in pfs && (tracked ==> host in w.servers && OpenReturns(w.servers[host], path, fd))
    case OpenTimesOut(lfd, path, host) => lfd !in w.local && path in pfs && host in w.servers
    case ReadFile(lfd, count, host, _) => lfd in w.local && host in w.servers && count <= INT32_MAX
    case PreadFile(lfd, count, offset, host, _) => lfd in w.local && host in w.servers && count <= INT32_MAX
    case SeekFile(lfd, offset, whence, host) => lfd in w.local && host in w.servers
    case CloseFile(lfd, host, sent) => lfd in w.local && host in w.servers
    case DeliverClose(k) => k < |w.inFlight| && w.inFlight[k].host in w.servers
    case DeliverRead(k) => k < |w.lateReads| && w.lateReads[k].host in w.servers
    case ServeOpen(k, fd) =>
      && k < |w.lateOpens| && w.lateOpens[k].Asked? && w.lateOpens[k].path in pfs
      && w.lateOpens[k].host in w.servers && OpenReturns(w.servers[w.lateOpens[k].host], w.lateOpens[k].path, fd)
    case HearOpen(k) => k < |w.lateOpens| && w.lateOpens[k].Told?
    case Copied(host, cache, files) => host in w.servers && Coherent(cache, files, pfs)
  }

  /** `fd_redir_map[fd]`: a missing entry reads as 0. */
  function Redir(w: World, lfd: LocalFd): int {
    if lfd in w.redir then w.redir[lfd] else 0
  }

  function SessionOf(w: World, lfd: LocalFd): nat {
    if lfd in w.current then w.current[lfd] else 0
  }

  function Moved(sessions: seq<Session>, id: nat, phase: Phase): seq<Session> {
    if id < |sessions| then sessions[id := sessions[id].(phase := phase)] else sessions
  }

  /** `fd_map.erase(fd)` after a request came back as -1. */
  function Dropped(w: World, lfd: LocalFd): World {
    w.(fdMap := w.fdMap - {lfd}, sessions := Moved(w.sessions, SessionOf(w, lfd), Leaked))
  }

  /** The request of a caller that gave up stays on its way. */
  function GivenUp(w: World, lfd: LocalFd, count: nat, offset: int, host: Host, answer: Wait): World {
    if answer == TimedOut then
      w.(lateReads := w.lateReads + [ReadMessage(host, Redir(w, lfd), count, offset, SessionOf(w, lfd))])
    else
      w
  }

  /** hvac_remote_read and hvac_remote_pread: without an answer the caller sees -1, and -1 ends the
      tracking. */
  function RemoteRead(w: World, lfd: LocalFd, count: nat, offset: int, host: Host, answer: Wait): (World, IoResult)
    requires host in w.servers
  {
    if lfd !in w.fdMap then
      (w, FAILED)
    else if answer != Reply then
      (Dropped(GivenUp(w, lfd, count, offset, host, answer), lfd), FAILED)
    else
      var (s, r) := HandleRead(w.servers[host], Redir(w, lfd), count, offset);
      var w1 := w.(servers := w.servers[host := s]);
      if r.ret == -1 then (Dropped(w1, lfd), r) else (w1, r)
  }

  function Without<T>(s: seq<T>, k: nat): (r: seq<T>)
    requires k < |s|
    ensures |r| == |s| - 1
    ensures forall i | 0 <= i < |r| :: r[i] == (if i < k then s[i] else s[i + 1])
  {
    s[..k] + s[k + 1..]
  }

  /** The server opens the file for a caller that has given up. */
  function Served(w: World, k: nat, fd: int): World
    requires k < |w.lateOpens| && w.lateOpens[k].Asked? && w.lateOpens[k].host in w.servers
    requires OpenReturns(w.servers[w.lateOpens[k].host], w.lateOpens[k].path, fd)
  {
    var m := w.lateOpens[k];
    w.(servers := w.servers[m.host := HandleOpen(w.servers[m.host], m.path, fd)],
       lateOpens := w.lateOpens[k := Told(m.lfd, fd, m.session)],
       sessions := if m.session < |w.sessions|
                   then w.sessions[m.session := w.sessions[m.session].(fd := fd)] else w.sessions,
       holder := if fd == -1 then w.holder else w.holder[(m.host, fd) := m.session])
  }

  function LocalRead(w: World, lfd: LocalFd, count: nat): (World, IoResult)
    requires lfd in w.local
  {
    var (d, r) := Posix.Read(w.local[lfd], count);
    (w.(local := w.local[lfd := d]), r)
  }

  ghost function Apply(pfs: Files, w: World, a: Action): (World, Output)
    requires Enabled(pfs, w, a)
  {
    match a
    case OpenFile(lfd, path, tracked, host, fd) =>
      var w1 := w.(local := w.local[lfd := Description(pfs[path], 0)]);
      if !tracked then
        (w1, Silent)
      else
        (w1.(fdMap := w.fdMap[lfd := path],
             redir := w.redir[lfd := fd],
             servers := w.servers[host := HandleOpen(w.servers[host], path, fd)],
             sessions := w.sessions + [Session(host, fd, path, Live(lfd))],
             current := w.current[lfd := |w.sessions|],
             adrift := w.adrift - {lfd},
             holder := if fd == -1 then w.holder else w.holder[(host, fd) := |w.sessions|]), Silent)
    case OpenTimesOut(lfd, path, host) =>
      (w.(local := w.local[lfd := Description(pfs[path], 0)],
          fdMap := w.fdMap[lfd := path],
          lateOpens := w.lateOpens + [Asked(lfd, host, path, |w.sessions|)],
          sessions := w.sessions + [Session(host, -1, path, Live(lfd))],
          current := w.current[lfd := |w.sessions|],
          adrift := w.adrift + {lfd}), Silent)
    case ReadFile(lfd, count, host, answer) =>
      var (w1, r) := RemoteRead(w, lfd, count, -1, host, answer);
      if r.ret < 0 then
        var (w2, r2) := LocalRead(w1, lfd, count);
        (w2, Got(r2))
      else
        (w1, Got(r))
    case PreadFile(lfd, count, offset, host, answer) =>
      var (w1, r) := RemoteRead(w, lfd, count, offset, host, answer);
      (w1, Got(if r.ret < 0 then Pread(w.local[lfd].content, count, offset) else r))
    case SeekFile(lfd, offset, whence, host) =>
      if lfd !in w.fdMap then
        var (d, r) := Lseek(w.local[lfd], offset, whence);
        (w.(local := w.local[lfd := d]), At(r))
      else
        var (s, r) := HandleSeek(w.servers[host], Redir(w, lfd), offset, whence);
        (w.(servers := w.servers[host := s]), At(r))
    case CloseFile(lfd, host, sent) =>
      var w1 := w.(local := w.local - {lfd});
      if lfd !in w.fdMap then
        (w1, Silent)
      else if sent then
        (w1.(fdMap := w.fdMap - {lfd}, redir := w.redir - {lfd},
             inFlight := w.inFlight + [CloseMessage(host, Redir(w, lfd), SessionOf(w, lfd))],
             sessions := Moved(w.sessions, SessionOf(w, lfd), Closing)), Silent)
      else
        (Dropped(w1, lfd), Silent)
    case DeliverClose(k) =>
      var m := w.inFlight[k];
      var (s, ret) := HandleClose(w.servers[m.host], m.fd);
      (w.(servers := w.servers[m.host := s],
          inFlight := Without(w.inFlight, k),
          sessions := Moved(w.sessions, m.session, Gone),
          holder := w.holder - {(m.host, m.fd)}), At(ret))
    case DeliverRead(k) =>
      var m := w.lateReads[k];
      (w.(servers := w.servers[m.host := HandleRead(w.servers[m.host], m.fd, m.count, m.offset).0],
          lateReads := Without(w.lateReads, k)), Silent)
    case ServeOpen(k, fd) =>
      (Served(w, k, fd), Silent)
    case HearOpen(k) =>
      var m := w.lateOpens[k];
      (w.(redir := w.redir[m.lfd := m.fd],
          lateOpens := Without(w.lateOpens, k),
          adrift := if m.lfd in w.fdMap && SessionOf(w, m.lfd) == m.session then w.adrift - {m.lfd}
                    else w.adrift + {m.lfd}), Silent)
    case Copied(host, cache, files) =>
      (w.(servers := w.servers[host := w.servers[host].(cache := cache, files := files)]), Silent)
  }

  // ---------------------------------------------------------------------------------------------
  // Direct descriptors
  // ---------------------------------------------------------------------------------------------

  type Direct = map<LocalFd, Description>

  ghost predicate DirectEnabled(pfs: Files, d: Direct, a: Action) {
    match a
    case OpenFile(lfd, path, _, _, _) => path in pfs
    case OpenTimesOut(lfd, path, _) => path in pfs
    case ReadFile(lfd, _, _, _) => lfd in d
    case PreadFile(lfd, _, _, _, _) => lfd in d
    case SeekFile(lfd, _, _, _) => lfd in d
    case _ => true
  }

  /** The same call on a plain descriptor of the same file. */
  ghost function DirectApply(pfs: Files, d: Direct, a: Action): (Direct, Output)
    requires DirectEnabled(pfs, d, a)
  {
    match a
    case OpenFile(lfd, path, _, _, _) => (d[lfd := Description(pfs[path], 0)], Silent)
    case OpenTimesOut(lfd, path, _) => (d[lfd := Description(pfs[path], 0)], Silent)
    case ReadFile(lfd, count, _, _) => var (x, r) := Posix.Read(d[lfd], count); (d[lfd := x], Got(r))
    case PreadFile(lfd, count, offset, _, _) => (d, Got(Pread(d[lfd].content, count, offset)))
    case SeekFile(lfd, offset, whence, _) => var (x, r) := Lseek(d[lfd], offset, whence); (d[lfd := x], At(r))
    case CloseFile(lfd, _, _) => (d - {lfd}, Silent)
    case _ => (d, Silent)
  }

  /** What a call on plain descriptors promises, in bytes and positions: an opened file is read from its start,
      a read gives the bytes at the position and moves it by as many, a pread gives those at its offset, a
      seek goes where it is told, and nothing else moves. */
  ghost predicate Promised(pfs: Files, d: Direct, a: Action, d': Direct, out: Output) {
    match a
    case OpenFile(lfd, path, _, _, _) =>
      path in pfs && lfd in d' && d'[lfd] == Description(pfs[path], 0) && d' - {lfd} == d - {lfd}
    case OpenTimesOut(lfd, path, _) =>
      path in pfs && lfd in d' && d'[lfd] == Description(pfs[path], 0) && d' - {lfd} == d - {lfd}
    case ReadFile(lfd, count, _, _) =>
      && lfd in d && lfd in d' && d' - {lfd} == d - {lfd}
      && out.Got? && Gives(out.r, d[lfd].content, d[lfd].offset, count)
      && d'[lfd].content == d[lfd].content && d'[lfd].offset == d[lfd].offset + out.r.ret
    case PreadFile(lfd, count, offset, _, _) =>
      && lfd in d && d' == d && out.Got?
      && if offset < 0 then out.r.ret == -1 && out.r.data == [] else Gives(out.r, d[lfd].content, offset, count)
    case SeekFile(lfd, offset, whence, _) =>
      && lfd in d && lfd in d' && d' - {lfd} == d - {lfd}
      && out.At? && Sought(d[lfd], offset, whence, d'[lfd], out.position)
    case CloseFile(lfd, _, _) => d' == d - {lfd}
    case _ => d' == d
  }

  lemma DirectKeepsPromises(pfs: Files, d: Direct, a: Action)
    requires DirectEnabled(pfs, d, a)
    ensures Promised(pfs, d, a, DirectApply(pfs, d, a).0, DirectApply(pfs, d, a).1)
  {
    if a.SeekFile? {
      var (x, r) := Lseek(d[a.lfd], a.offset, a.whence);
      LseekExactly(d[a.lfd], a.offset, a.whence, x, r);
    }
  }

  // ---------------------------------------------------------------------------------------------
  // Ownership
  // ---------------------------------------------------------------------------------------------

  /** The session still has its descriptor: nobody else holds it, it shows the session's file, and the
      server remembers the session's path for it. */
  ghost predicate Held(pfs: Files, w: World, id: nat)
    requires id < |w.sessions|
  {
    var s := w.sessions[id];
    && 0 <= s.fd && s.path in pfs && s.host in w.servers
    && (s.host, s.fd) in w.holder && w.holder[(s.host, s.fd)] == id
    && s.fd in w.servers[s.host].table && w.servers[s.host].table[s.fd].content == pfs[s.path]
    && s.fd in w.servers[s.host].fdToPath && w.servers[s.host].fdToPath[s.fd] == s.path
  }

  ghost predicate Tracked(pfs: Files, w: World, lfd: LocalFd)
    requires lfd in w.fdMap
  {
    && lfd in w.current && w.current[lfd] < |w.sessions|
    && var s := w.sessions[w.current[lfd]];
       && s.phase == Live(lfd) && s.path == w.fdMap[lfd] && s.path in pfs
       && (lfd !in w.adrift ==> lfd in w.redir && w.redir[lfd] == s.fd)
       && lfd in w.local && w.local[lfd].content == pfs[s.path]
  }

  ghost predicate Announced(w: World, m: CloseMessage) {
    && m.session < |w.sessions| && w.sessions[m.session].phase == Closing
    && w.sessions[m.session].host == m.host && w.sessions[m.session].fd == m.fd
  }

  /** The message names the descriptor of a session that nobody uses any more, or none. */
  ghost predicate OfLeaked(w: World, m: ReadMessage) {
    && m.session < |w.sessions| && w.sessions[m.session].phase == Leaked
    && w.sessions[m.session].host == m.host && (m.fd == -1 || w.sessions[m.session].fd == m.fd)
  }

  /** The session's descriptor has no number yet, and if a client tracks it, it knows none. */
  ghost predicate Unserved(w: World, s: Session) {
    s.fd == -1 && (s.phase == Leaked || (s.phase.Live? && s.phase.lfd in w.adrift))
  }

  /** A late open belongs to a session that is not served yet, or brings that session's number. */
  ghost predicate OfSession(w: World, m: LateOpen) {
    && m.session < |w.sessions|
    && var s := w.sessions[m.session];
       match m
       case Asked(_, host, path, _) => s.host == host && s.path == path && Unserved(w, s)
       case Told(_, fd, _) => s.fd == fd
  }

  ghost predicate SessionsHold(pfs: Files, w: World) {
    forall id: nat | id < |w.sessions| && w.sessions[id].phase != Gone && w.sessions[id].fd != -1 :: Held(pfs, w, id)
  }

  ghost predicate HoldersKnown(w: World) {
    && (forall h, fd | h in w.servers && fd in w.servers[h].table :: (h, fd) in w.holder)
    && (forall key | key in w.holder ::
          && w.holder[key] < |w.sessions| && w.sessions[w.holder[key]].phase != Gone
          && w.sessions[w.holder[key]].host == key.0 && w.sessions[w.holder[key]].fd == key.1 != -1)
  }

  ghost predicate DescriptorsTracked(pfs: Files, w: World) {
    && (forall lfd | lfd in w.fdMap :: Tracked(pfs, w, lfd))
    && (forall id: nat | id < |w.sessions| && w.sessions[id].phase.Live? ::
          w.sessions[id].phase.lfd in w.fdMap && SessionOf(w, w.sessions[id].phase.lfd) == id)
  }

  ghost predicate MessagesAnnounced(w: World) {
    && (forall k | 0 <= k < |w.inFlight| :: Announced(w, w.inFlight[k]))
    && (forall j, k | 0 <= j < k < |w.inFlight| :: w.inFlight[j].session != w.inFlight[k].session)
  }

  /** Of the reads on their way, those that move a position (offset -1) can only move a leaked one. */
  ghost predicate LateReadsStray(w: World) {
    forall k | 0 <= k < |w.lateReads| && w.lateReads[k].offset == -1 :: OfLeaked(w, w.lateReads[k])
  }

  ghost predicate LateOpensKnown(w: World) {
    && (forall k | 0 <= k < |w.lateOpens| :: OfSession(w, w.lateOpens[k]))
    && (forall j, k | 0 <= j < k < |w.lateOpens| :: w.lateOpens[j].session != w.lateOpens[k].session)
  }

  ghost predicate ServersCoherent(pfs: Files, w: World) {
    forall h | h in w.servers :: Coherent(w.servers[h].cache, w.servers[h].files, pfs)
  }

  ghost predicate Inv(pfs: Files, w: World) {
    && SessionsHold(pfs, w)
    && HoldersKnown(w)
    && DescriptorsTracked(pfs, w)
    && MessagesAnnounced(w)
    && LateReadsStray(w)
    && LateOpensKnown(w)
    && ServersCoherent(pfs, w)
  }

  /** The operation is routed to the host its open was sent to. */
  ghost predicate Hosted(w: World, lfd: LocalFd, host: Host) {
    lfd in w.fdMap ==> SessionOf(w, lfd) < |w.sessions| && w.sessions[SessionOf(w, lfd)].host == host
  }

  /** The operation reaches the host that served the open, and the client has that host's answer, in time
      or late. */
  ghost predicate Reaches(w: World, lfd: LocalFd, host: Host) {
    Hosted(w, lfd, host) && (lfd in w.fdMap ==> lfd !in w.adrift)
  }

  /** The hypothesis on routing: every request that moves or closes a remote descriptor reaches the host of
      the open, and a server asked to read for a failed open does not reply; a pread may also miss, if it
      is not answered or its answer is a failure. */
  ghost predicate WellRouted(w: World, a: Action) {
    match a
    case ReadFile(lfd, _, host, answer) =>
      answer == Withheld || (Reaches(w, lfd, host) && (answer == Reply && lfd in w.fdMap ==> Redir(w, lfd) != -1))
    case PreadFile(lfd, count, offset, host, answer) =>
      answer == Withheld || Reaches(w, lfd, host) ||
      (offset != -1 && (answer == TimedOut ||
        (host in w.servers && HandleRead(w.servers[host], Redir(w, lfd), count, offset).1.ret < 0)))
    case SeekFile(lfd, _, _, host) => Reaches(w, lfd, host)
    case CloseFile(lfd, host, sent) => sent ==> Reaches(w, lfd, host)
    case _ => true
  }

  // ---------------------------------------------------------------------------------------------
  // Every action keeps the invariant
  // ---------------------------------------------------------------------------------------------

  /** The session keeps what it has; a leaked one stays leaked, and a descriptor that is adrift stays so as
      long as it is tracked. */
  ghost predicate Onward(w: World, w': World, id: nat)
    requires id < |w.sessions| <= |w'.sessions|
  {
    var s, s' := w.sessions[id], w'.sessions[id];
    && s'.host == s.host && s'.path == s.path && s'.fd == s.fd
    && (s.phase == Leaked ==> s'.phase == Leaked)
    && (s.phase.Live? && s.phase.lfd in w.adrift ==>
          s'.phase == Leaked || (s'.phase == s.phase && s.phase.lfd in w'.adrift))
  }

  /** What is said of late reads and opens is kept when sessions only move onward. */
  lemma LateKept(w: World, w': World)
    requires LateReadsStray(w) && LateOpensKnown(w) && w'.lateReads == w.lateReads && w'.lateOpens == w.lateOpens
    requires |w.sessions| <= |w'.sessions| && forall id: nat | id < |w.sessions| :: Onward(w, w', id)
    ensures LateReadsStray(w') && LateOpensKnown(w')
  {
    forall k | 0 <= k < |w'.lateReads| && w'.lateReads[k].offset == -1 ensures OfLeaked(w', w'.lateReads[k]) {
      assert OfLeaked(w, w.lateReads[k]) && Onward(w, w', w.lateReads[k].session);
    }
    forall k | 0 <= k < |w'.lateOpens| ensures OfSession(w', w'.lateOpens[k]) {
      assert OfSession(w, w.lateOpens[k]) && Onward(w, w', w.lateOpens[k].session);
    }
  }

  /** Same descriptors on the same contents, and no path forgotten or changed. */
  ghost predicate Similar(s: State, s': State) {
    && s'.table.Keys == s.table.Keys
    && (forall fd | fd in s.table :: s'.table[fd].content == s.table[fd].content)
    && s.fdToPath.Keys <= s'.fdToPath.Keys
    && (forall fd | fd in s.fdToPath :: s'.fdToPath[fd] == s.fdToPath[fd])
  }

  function WithServer(w: World, host: Host, s: State): World {
    w.(servers := w.servers[host := s])
  }

  lemma SimilarHolds(pfs: Files, w: World, host: Host, s: State)
    requires SessionsHold(pfs, w) && HoldersKnown(w) && host in w.servers && Similar(w.servers[host], s)
    ensures SessionsHold(pfs, WithServer(w, host, s)) && HoldersKnown(WithServer(w, host, s))
  {
    var w' := WithServer(w, host, s);
    forall id: nat | id < |w'.sessions| && w'.sessions[id].phase != Gone && w'.sessions[id].fd != -1
      ensures Held(pfs, w', id)
    {
      assert Held(pfs, w, id);
    }
    forall h, fd | h in w'.servers && fd in w'.servers[h].table ensures (h, fd) in w'.holder {
      assert fd in w.servers[h].table;
    }
  }

  lemma SimilarKeeps(pfs: Files, w: World, host: Host, s: State)
    requires Inv(pfs, w) && host in w.servers && Similar(w.servers[host], s)
    requires Coherent(s.cache, s.files, pfs)
    ensures Inv(pfs, WithServer(w, host, s))
  {
    var w' := WithServer(w, host, s);
    SimilarHolds(pfs, w, host, s);
    LateKept(w, w');
    forall lfd | lfd in w'.fdMap ensures Tracked(pfs, w', lfd) {
      assert Tracked(pfs, w, lfd);
    }
    forall k | 0 <= k < |w'.inFlight| ensures Announced(w', w'.inFlight[k]) {
      assert Announced(w, w.inFlight[k]);
    }
  }

  lemma ReadIsSimilar(s: State, fd: int, count: nat, offset: int)
    ensures
      var s' := HandleRead(s, fd, count, offset).0;
      Similar(s, s') && s'.cache == s.cache && s'.files == s.files
  {
  }

  lemma SeekIsSimilar(s: State, fd: int, offset: int, whence: int)
    ensures
      var s' := HandleSeek(s, fd, offset, whence).0;
      Similar(s, s') && s'.cache == s.cache && s'.files == s.files
  {
  }

  lemma RequestKeeps(pfs: Files, w: World, host: Host, fd: int, count: nat, offset: int)
    requires Inv(pfs, w) && host in w.servers
    ensures Inv(pfs, WithServer(w, host, HandleRead(w.servers[host], fd, count, offset).0))
  {
    ReadIsSimilar(w.servers[host], fd, count, offset);
    SimilarKeeps(pfs, w, host, HandleRead(w.servers[host], fd, count, offset).0);
  }

  /** Changes that leave sessions, holders, servers and messages alone keep what is said of them. */
  lemma ClientSideKeeps(pfs: Files, w: World, w': World)
    requires Inv(pfs, w)
    requires w'.servers == w.servers && w'.sessions == w.sessions && w'.holder == w.holder
    requires w'.inFlight == w.inFlight && w'.fdMap == w.fdMap && w'.current == w.current
    requires w'.lateReads == w.lateReads && w'.lateOpens == w.lateOpens && w.adrift <= w'.adrift
    requires forall lfd | lfd in w.fdMap && Tracked(pfs, w, lfd) ::
      && (lfd !in w'.adrift && lfd in w.redir ==> lfd in w'.redir && w'.redir[lfd] == w.redir[lfd])
      && lfd in w'.local && w'.local[lfd].content == w.local[lfd].content
    ensures Inv(pfs, w')
  {
    LateKept(w, w');
    forall id: nat | id < |w'.sessions| && w'.sessions[id].phase != Gone && w'.sessions[id].fd != -1
      ensures Held(pfs, w', id)
    {
      assert Held(pfs, w, id);
    }
    forall x | x in w'.fdMap ensures Tracked(pfs, w', x) {
      assert Tracked(pfs, w, x);
    }
    forall k | 0 <= k < |w'.inFlight| ensures Announced(w', w'.inFlight[k]) {
      assert Announced(w, w.inFlight[k]);
    }
  }

  /** The client stops tracking the descriptor; its session moves on but keeps its remote descriptor. */
  function Retired(w: World, lfd: LocalFd, phase: Phase): World {
    w.(fdMap := w.fdMap - {lfd}, sessions := Moved(w.sessions, SessionOf(w, lfd), phase))
  }

  lemma RetireHolds(pfs: Files, w: World, lfd: LocalFd, phase: Phase)
    requires SessionsHold(pfs, w) && HoldersKnown(w) && DescriptorsTracked(pfs, w)
    requires lfd in w.fdMap && (phase == Leaked || phase == Closing)
    ensures SessionsHold(pfs, Retired(w, lfd, phase)) && HoldersKnown(Retired(w, lfd, phase))
  {
    var w' := Retired(w, lfd, phase);
    assert Tracked(pfs, w, lfd);
    forall id: nat | id < |w'.sessions| && w'.sessions[id].phase != Gone && w'.sessions[id].fd != -1
      ensures Held(pfs, w', id)
    {
      assert Held(pfs, w, id);
    }
  }

  lemma RetireTracked(pfs: Files, w: World, lfd: LocalFd, phase: Phase)
    requires DescriptorsTracked(pfs, w) && lfd in w.fdMap && (phase == Leaked || phase == Closing)
    ensures DescriptorsTracked(pfs, Retired(w, lfd, phase))
  {
    var w' := Retired(w, lfd, phase);
    assert Tracked(pfs, w, lfd);
    forall x | x in w'.fdMap ensures Tracked(pfs, w', x) {
      assert Tracked(pfs, w, x);
    }
  }

  lemma RetireMessages(pfs: Files, w: World, lfd: LocalFd, phase: Phase)
    requires DescriptorsTracked(pfs, w) && MessagesAnnounced(w) && lfd in w.fdMap
    ensures MessagesAnnounced(Retired(w, lfd, phase))
    ensures forall k | 0 <= k < |w.inFlight| :: w.inFlight[k].session != SessionOf(w, lfd)
  {
    var w' := Retired(w, lfd, phase);
    assert Tracked(pfs, w, lfd);
    forall k | 0 <= k < |w.inFlight|
      ensures Announced(w', w.inFlight[k]) && w.inFlight[k].session != SessionOf(w, lfd)
    {
      assert Announced(w, w.inFlight[k]);
    }
  }

  lemma RetireKeeps(pfs: Files, w: World, lfd: LocalFd, phase: Phase)
    requires Inv(pfs, w) && lfd in w.fdMap && (phase == Leaked || (phase == Closing && lfd !in w.adrift))
    ensures Inv(pfs, Retired(w, lfd, phase))
  {
    RetireHolds(pfs, w, lfd, phase);
    RetireTracked(pfs, w, lfd, phase);
    RetireMessages(pfs, w, lfd, phase);
    assert Tracked(pfs, w, lfd);
    LateKept(w, Retired(w, lfd, phase));
  }

  lemma SendKeeps(pfs: Files, w: World, m: CloseMessage)
    requires Inv(pfs, w) && Announced(w, m)
    requires forall k | 0 <= k < |w.inFlight| :: w.inFlight[k].session != m.session
    ensures Inv(pfs, w.(inFlight := w.inFlight + [m]))
  {
    var w' := w.(inFlight := w.inFlight + [m]);
    LateKept(w, w');
    forall id: nat | id < |w'.sessions| && w'.sessions[id].phase != Gone && w'.sessions[id].fd != -1
      ensures Held(pfs, w', id)
    {
      assert Held(pfs, w, id);
    }
    forall x | x in w'.fdMap ensures Tracked(pfs, w', x) {
      assert Tracked(pfs, w, x);
    }
    forall k | 0 <= k < |w'.inFlight| ensures Announced(w', w'.inFlight[k]) {
      assert k < |w.inFlight| ==> Announced(w, w.inFlight[k]);
    }
  }

  lemma RetireForClose(pfs: Files, w: World, lfd: LocalFd, host: Host)
    requires Inv(pfs, w) && lfd in w.fdMap && Reaches(w, lfd, host)
    ensures Inv(pfs, Retired(w, lfd, Closing))
    ensures Announced(Retired(w, lfd, Closing), CloseMessage(host, Redir(w, lfd), SessionOf(w, lfd)))
    ensures forall k | 0 <= k < |w.inFlight| :: w.inFlight[k].session != SessionOf(w, lfd)
  {
    assert Tracked(pfs, w, lfd);
    RetireKeeps(pfs, w, lfd, Closing);
    RetireMessages(pfs, w, lfd, Closing);
  }

  /** The close request leaves the client. */
  function CloseSent(w: World, lfd: LocalFd, host: Host): World {
    w.(inFlight := w.inFlight + [CloseMessage(host, Redir(w, lfd), SessionOf(w, lfd))], redir := w.redir - {lfd})
  }

  function LocallyClosed(w: World, lfd: LocalFd): World {
    w.(local := w.local - {lfd})
  }

  lemma CloseInSteps(pfs: Files, w: World, lfd: LocalFd, host: Host, sent: bool)
    requires Enabled(pfs, w, CloseFile(lfd, host, sent))
    ensures Apply(pfs, w, CloseFile(lfd, host, sent)).0
         == LocallyClosed(
              if lfd !in w.fdMap then w
              else if sent then Retired(CloseSent(w, lfd, host), lfd, Closing)
              else Retired(w, lfd, Leaked), lfd)
  {
  }

  lemma SentAndClosed(pfs: Files, w: World, lfd: LocalFd, host: Host)
    requires Inv(pfs, w) && lfd in w.fdMap && Reaches(w, lfd, host)
    ensures Inv(pfs, LocallyClosed(Retired(CloseSent(w, lfd, host), lfd, Closing), lfd))
  {
    RetireForClose(pfs, w, lfd, host);
    var w1 := Retired(w, lfd, Closing);
    var m := CloseMessage(host, Redir(w, lfd), SessionOf(w, lfd));
    SendKeeps(pfs, w1, m);
    ClientSideKeeps(pfs, w1.(inFlight := w1.inFlight + [m]),
                    LocallyClosed(Retired(CloseSent(w, lfd, host), lfd, Closing), lfd));
  }

  lemma CloseKeeps(pfs: Files, w: World, a: Action)
    requires Inv(pfs, w) && a.CloseFile? && Enabled(pfs, w, a) && WellRouted(w, a)
    ensures Inv(pfs, Apply(pfs, w, a).0)
  {
    if a.lfd !in w.fdMap {
      ClientSideKeeps(pfs, w, Apply(pfs, w, a).0);
    } else if a.sent {
      CloseInSteps(pfs, w, a.lfd, a.host, true);
      SentAndClosed(pfs, w, a.lfd, a.host);
    } else {
      RetireKeeps(pfs, w, a.lfd, Leaked);
      ClientSideKeeps(pfs, Retired(w, a.lfd, Leaked), Apply(pfs, w, a).0);
    }
  }

  /** A message leaves the network. */
  function Received(w: World, k: nat): World
    requires k < |w.inFlight|
  {
    w.(inFlight := Without(w.inFlight, k))
  }

  lemma ReceiveKeeps(pfs: Files, w: World, k: nat)
    requires Inv(pfs, w) && k < |w.inFlight|
    ensures Inv(pfs, Received(w, k))
    ensures forall j | 0 <= j < |Received(w, k).inFlight| ::
      Received(w, k).inFlight[j].session != w.inFlight[k].session
  {
    var w' := Received(w, k);
    LateKept(w, w');
    forall id: nat | id < |w'.sessions| && w'.sessions[id].phase != Gone && w'.sessions[id].fd != -1
      ensures Held(pfs, w', id)
    {
      assert Held(pfs, w, id);
    }
    forall x | x in w'.fdMap ensures Tracked(pfs, w', x) {
      assert Tracked(pfs, w, x);
    }
    forall j | 0 <= j < |w'.inFlight| ensures Announced(w', w'.inFlight[j]) {
      assert Announced(w, w.inFlight[if j < k then j else j + 1]);
    }
  }

  /** The server closes a session's descriptor. */
  function Ended(w: World, m: CloseMessage): World
    requires m.host in w.servers
  {
    w.(servers := w.servers[m.host := HandleClose(w.servers[m.host], m.fd).0],
       sessions := Moved(w.sessions, m.session, Gone),
       holder := w.holder - {(m.host, m.fd)})
  }

  lemma EndHolds(pfs: Files, w: World, m: CloseMessage)
    requires SessionsHold(pfs, w) && Announced(w, m) && m.host in w.servers
    ensures SessionsHold(pfs, Ended(w, m))
  {
    var w' := Ended(w, m);
    forall i: nat | i < |w'.sessions| && w'.sessions[i].phase != Gone && w'.sessions[i].fd != -1
      ensures Held(pfs, w', i)
    {
      assert i != m.session && Held(pfs, w, i);
      assert m.fd != -1 ==> Held(pfs, w, m.session);
    }
  }

  lemma EndHolders(pfs: Files, w: World, m: CloseMessage)
    requires SessionsHold(pfs, w) && HoldersKnown(w) && Announced(w, m) && m.host in w.servers
    ensures HoldersKnown(Ended(w, m))
  {
    var w' := Ended(w, m);
    forall h, fd | h in w'.servers && fd in w'.servers[h].table ensures (h, fd) in w'.holder {
      assert fd in w.servers[h].table;
    }
    forall key | key in w'.holder ensures w.holder[key] != m.session {
      assert key in w.holder;
    }
  }

  lemma EndClientSide(pfs: Files, w: World, m: CloseMessage)
    requires DescriptorsTracked(pfs, w) && MessagesAnnounced(w) && Announced(w, m) && m.host in w.servers
    requires forall k | 0 <= k < |w.inFlight| :: w.inFlight[k].session != m.session
    ensures DescriptorsTracked(pfs, Ended(w, m)) && MessagesAnnounced(Ended(w, m))
  {
    var w' := Ended(w, m);
    forall x | x in w'.fdMap ensures Tracked(pfs, w', x) {
      assert Tracked(pfs, w, x);
    }
    forall j | 0 <= j < |w'.inFlight| ensures Announced(w', w'.inFlight[j]) {
      assert Announced(w, w.inFlight[j]);
    }
  }

  lemma EndKeeps(pfs: Files, w: World, m: CloseMessage)
    requires Inv(pfs, w) && Announced(w, m) && m.host in w.servers
    requires forall k | 0 <= k < |w.inFlight| :: w.inFlight[k].session != m.session
    ensures Inv(pfs, Ended(w, m))
  {
    EndHolds(pfs, w, m);
    EndHolders(pfs, w, m);
    EndClientSide(pfs, w, m);
    LateKept(w, Ended(w, m));
  }

  lemma DeliverIsReceiveThenEnd(pfs: Files, w: World, k: nat)
    requires Enabled(pfs, w, DeliverClose(k))
    ensures Apply(pfs, w, DeliverClose(k)).0 == Ended(Received(w, k), w.inFlight[k])
  {
  }

  lemma DeliverKeeps(pfs: Files, w: World, k: nat)
    requires Inv(pfs, w) && Enabled(pfs, w, DeliverClose(k))
    ensures Inv(pfs, Apply(pfs, w, DeliverClose(k)).0)
  {
    DeliverIsReceiveThenEnd(pfs, w, k);
    assert Announced(w, w.inFlight[k]);
    ReceiveKeeps(pfs, w, k);
    EndKeeps(pfs, Received(w, k), w.inFlight[k]);
  }

  /** A server has opened a descriptor for a session no client tracks yet. */
  function Started(w: World, host: Host, path: Path, fd: int): World
    requires host in w.servers && OpenReturns(w.servers[host], path, fd)
  {
    w.(servers := w.servers[host := HandleOpen(w.servers[host], path, fd)],
       sessions := w.sessions + [Session(host, fd, path, Leaked)],
       holder := if fd == -1 then w.holder else w.holder[(host, fd) := |w.sessions|])
  }

  lemma StartHeld(pfs: Files, w: World, host: Host, path: Path, fd: int, id: nat)
    requires SessionsHold(pfs, w) && HoldersKnown(w) && ServersCoherent(pfs, w)
    requires host in w.servers && OpenReturns(w.servers[host], path, fd) && path in pfs
    requires id <= |w.sessions|
    requires id < |w.sessions| ==> w.sessions[id].phase != Gone && w.sessions[id].fd != -1
    requires id == |w.sessions| ==> fd != -1
    ensures Held(pfs, Started(w, host, path, fd), id)
  {
    if id < |w.sessions| {
      assert Held(pfs, w, id);
      assert (w.sessions[id].host, w.sessions[id].fd) != (host, fd);
    } else {
      RedirectionIsTransparent(w.servers[host], pfs, path, fd);
    }
  }

  lemma StartHolds(pfs: Files, w: World, host: Host, path: Path, fd: int)
    requires SessionsHold(pfs, w) && HoldersKnown(w) && ServersCoherent(pfs, w)
    requires host in w.servers && OpenReturns(w.servers[host], path, fd) && path in pfs
    ensures SessionsHold(pfs, Started(w, host, path, fd))
  {
    var w' := Started(w, host, path, fd);
    forall id: nat | id < |w'.sessions| && w'.sessions[id].phase != Gone && w'.sessions[id].fd != -1
      ensures Held(pfs, w', id)
    {
      assert id < |w.sessions| ==> w'.sessions[id] == w.sessions[id];
      StartHeld(pfs, w, host, path, fd, id);
    }
  }

  lemma StartHolders(pfs: Files, w: World, host: Host, path: Path, fd: int)
    requires HoldersKnown(w) && host in w.servers && OpenReturns(w.servers[host], path, fd)
    ensures HoldersKnown(Started(w, host, path, fd))
  {
    var w' := Started(w, host, path, fd);
    forall h, x | h in w'.servers && x in w'.servers[h].table ensures (h, x) in w'.holder {
      assert (h == host && x == fd) || x in w.servers[h].table;
    }
  }

  lemma StartTracked(pfs: Files, w: World, host: Host, path: Path, fd: int)
    requires DescriptorsTracked(pfs, w) && host in w.servers && OpenReturns(w.servers[host], path, fd)
    ensures DescriptorsTracked(pfs, Started(w, host, path, fd))
  {
    var w' := Started(w, host, path, fd);
    forall x | x in w'.fdMap ensures Tracked(pfs, w', x) {
      assert Tracked(pfs, w, x);
    }
  }

  lemma StartKeeps(pfs: Files, w: World, host: Host, path: Path, fd: int)
    requires Inv(pfs, w) && host in w.servers && OpenReturns(w.servers[host], path, fd) && path in pfs
    ensures Inv(pfs, Started(w, host, path, fd))
  {
    var w' := Started(w, host, path, fd);
    StartHolds(pfs, w, host, path, fd);
    StartHolders(pfs, w, host, path, fd);
    StartTracked(pfs, w, host, path, fd);
    LateKept(w, w');
    forall k | 0 <= k < |w'.inFlight| ensures Announced(w', w'.inFlight[k]) {
      assert Announced(w, w.inFlight[k]);
    }
  }

  /** The client's list grows by a session that has no descriptor. */
  function Listed(w: World, host: Host, path: Path): World {
    w.(sessions := w.sessions + [Session(host, -1, path, Leaked)])
  }

  lemma ListLate(w: World, host: Host, path: Path)
    requires LateReadsStray(w) && LateOpensKnown(w)
    ensures LateReadsStray(Listed(w, host, path)) && LateOpensKnown(Listed(w, host, path))
  {
    LateKept(w, Listed(w, host, path));
  }

  lemma ListHolds(pfs: Files, w: World, host: Host, path: Path)
    requires SessionsHold(pfs, w) && HoldersKnown(w)
    ensures SessionsHold(pfs, Listed(w, host, path)) && HoldersKnown(Listed(w, host, path))
  {
    var w' := Listed(w, host, path);
    forall id: nat | id < |w'.sessions| && w'.sessions[id].phase != Gone && w'.sessions[id].fd != -1
      ensures Held(pfs, w', id)
    {
      assert Held(pfs, w, id);
    }
  }

  lemma ListKeeps(pfs: Files, w: World, host: Host, path: Path)
    requires Inv(pfs, w)
    ensures Inv(pfs, Listed(w, host, path))
  {
    var w' := Listed(w, host, path);
    ListLate(w, host, path);
    ListHolds(pfs, w, host, path);
    forall x | x in w'.fdMap ensures Tracked(pfs, w', x) {
      assert Tracked(pfs, w, x);
    }
    forall k | 0 <= k < |w'.inFlight| ensures Announced(w', w'.inFlight[k]) {
      assert Announced(w, w.inFlight[k]);
    }
  }

  /** A client starts tracking a descriptor on an untracked session; only an answer tells it the number. */
  function Adopted(w: World, lfd: LocalFd, id: nat, d: Description, answered: bool): World
    requires id < |w.sessions|
  {
    w.(fdMap := w.fdMap[lfd := w.sessions[id].path],
       redir := if answered then w.redir[lfd := w.sessions[id].fd] else w.redir,
       adrift := if answered then w.adrift - {lfd} else w.adrift + {lfd},
       local := w.local[lfd := d],
       sessions := Moved(w.sessions, id, Live(lfd)),
       current := w.current[lfd := id])
  }

  lemma AdoptTracked(pfs: Files, w: World, lfd: LocalFd, id: nat, d: Description, answered: bool)
    requires DescriptorsTracked(pfs, w) && lfd !in w.fdMap && id < |w.sessions| && w.sessions[id].phase == Leaked
    requires w.sessions[id].path in pfs && d.content == pfs[w.sessions[id].path]
    ensures DescriptorsTracked(pfs, Adopted(w, lfd, id, d, answered))
  {
    var w' := Adopted(w, lfd, id, d, answered);
    forall x | x in w'.fdMap ensures Tracked(pfs, w', x) {
      assert x != lfd ==> Tracked(pfs, w, x);
    }
  }

  lemma AdoptHolders(w: World, lfd: LocalFd, id: nat, d: Description, answered: bool)
    requires HoldersKnown(w) && id < |w.sessions| && w.sessions[id].phase == Leaked
    ensures HoldersKnown(Adopted(w, lfd, id, d, answered))
  {
  }

  lemma AdoptHolds(pfs: Files, w: World, lfd: LocalFd, id: nat, d: Description, answered: bool)
    requires SessionsHold(pfs, w) && HoldersKnown(w) && id < |w.sessions| && w.sessions[id].phase == Leaked
    ensures SessionsHold(pfs, Adopted(w, lfd, id, d, answered)) && HoldersKnown(Adopted(w, lfd, id, d, answered))
  {
    AdoptHolders(w, lfd, id, d, answered);
    var w' := Adopted(w, lfd, id, d, answered);
    forall i: nat | i < |w'.sessions| && w'.sessions[i].phase != Gone && w'.sessions[i].fd != -1
      ensures Held(pfs, w', i)
    {
      assert Held(pfs, w, i);
    }
  }

  lemma AdoptMessages(w: World, lfd: LocalFd, id: nat, d: Description, answered: bool)
    requires MessagesAnnounced(w) && id < |w.sessions| && w.sessions[id].phase == Leaked
    ensures MessagesAnnounced(Adopted(w, lfd, id, d, answered))
  {
    var w' := Adopted(w, lfd, id, d, answered);
    forall k | 0 <= k < |w'.inFlight| ensures Announced(w', w'.inFlight[k]) {
      assert Announced(w, w.inFlight[k]);
    }
  }

  lemma AdoptLate(pfs: Files, w: World, lfd: LocalFd, id: nat, d: Description, answered: bool)
    requires LateReadsStray(w) && LateOpensKnown(w) && DescriptorsTracked(pfs, w) && lfd !in w.fdMap
    requires id < |w.sessions| && LateBefore(w, id)
    ensures LateReadsStray(Adopted(w, lfd, id, d, answered)) && LateOpensKnown(Adopted(w, lfd, id, d, answered))
  {
    var w' := Adopted(w, lfd, id, d, answered);
    forall k | 0 <= k < |w'.lateReads| && w'.lateReads[k].offset == -1 ensures OfLeaked(w', w'.lateReads[k]) {
      assert OfLeaked(w, w.lateReads[k]);
    }
    forall k | 0 <= k < |w'.lateOpens| ensures OfSession(w', w'.lateOpens[k]) {
      assert OfSession(w, w.lateOpens[k]);
    }
  }

  lemma AdoptKeeps(pfs: Files, w: World, lfd: LocalFd, id: nat, d: Description, answered: bool)
    requires Inv(pfs, w) && lfd !in w.fdMap && id < |w.sessions| && w.sessions[id].phase == Leaked
    requires w.sessions[id].path in pfs && d.content == pfs[w.sessions[id].path]
    requires LateBefore(w, id)
    ensures Inv(pfs, Adopted(w, lfd, id, d, answered))
  {
    AdoptTracked(pfs, w, lfd, id, d, answered);
    AdoptHolds(pfs, w, lfd, id, d, answered);
    AdoptMessages(w, lfd, id, d, answered);
    AdoptLate(pfs, w, lfd, id, d, answered);
  }

  /** No late read that moves a position, and no late open, is for session id or a later one. */
  ghost predicate LateBefore(w: World, id: nat) {
    && (forall k | 0 <= k < |w.lateReads| && w.lateReads[k].offset == -1 :: w.lateReads[k].session < id)
    && (forall k | 0 <= k < |w.lateOpens| :: w.lateOpens[k].session < id)
  }

  lemma LateIsOld(w: World)
    requires LateReadsStray(w) && LateOpensKnown(w)
    ensures LateBefore(w, |w.sessions|)
  {
    forall k | 0 <= k < |w.lateReads| && w.lateReads[k].offset == -1
      ensures w.lateReads[k].session < |w.sessions|
    {
      assert OfLeaked(w, w.lateReads[k]);
    }
    forall k | 0 <= k < |w.lateOpens| ensures w.lateOpens[k].session < |w.sessions| {
      assert OfSession(w, w.lateOpens[k]);
    }
  }

  lemma OpenIsStartThenAdopt(pfs: Files, w: World, lfd: LocalFd, path: Path, host: Host, fd: int)
    requires Enabled(pfs, w, OpenFile(lfd, path, true, host, fd))
    ensures Apply(pfs, w, OpenFile(lfd, path, true, host, fd)).0
         == Adopted(Started(w, host, path, fd), lfd, |w.sessions|, Description(pfs[path], 0), true)
  {
    var sessions := w.sessions + [Session(host, fd, path, Leaked)];
    assert Moved(sessions, |w.sessions|, Live(lfd)) == w.sessions + [Session(host, fd, path, Live(lfd))];
  }

  lemma OpenTrackedKeeps(pfs: Files, w: World, lfd: LocalFd, path: Path, host: Host, fd: int)
    requires Inv(pfs, w) && Enabled(pfs, w, OpenFile(lfd, path, true, host, fd)) && lfd !in w.fdMap
    ensures Inv(pfs, Apply(pfs, w, OpenFile(lfd, path, true, host, fd)).0)
  {
    OpenIsStartThenAdopt(pfs, w, lfd, path, host, fd);
    StartKeeps(pfs, w, host, path, fd);
    LateIsOld(w);
    AdoptKeeps(pfs, Started(w, host, path, fd), lfd, |w.sessions|, Description(pfs[path], 0), true);
  }

  lemma FreshIsUntracked(pfs: Files, w: World, lfd: LocalFd)
    requires DescriptorsTracked(pfs, w) && lfd !in w.local
    ensures lfd !in w.fdMap
  {
    assert lfd in w.fdMap ==> Tracked(pfs, w, lfd);
  }

  lemma OpenKeeps(pfs: Files, w: World, a: Action)
    requires Inv(pfs, w) && a.OpenFile? && Enabled(pfs, w, a)
    ensures Inv(pfs, Apply(pfs, w, a).0)
  {
    FreshIsUntracked(pfs, w, a.lfd);
    if a.tracked {
      OpenTrackedKeeps(pfs, w, a.lfd, a.path, a.host, a.fd);
    } else {
      ClientSideKeeps(pfs, w, Apply(pfs, w, a).0);
    }
  }

  lemma LostOpenIsListThenAdopt(pfs: Files, w: World, lfd: LocalFd, path: Path, host: Host)
    requires Enabled(pfs, w, OpenTimesOut(lfd, path, host))
    ensures Apply(pfs, w, OpenTimesOut(lfd, path, host)).0
         == Adopted(Listed(w, host, path), lfd, |w.sessions|, Description(pfs[path], 0), false)
              .(lateOpens := w.lateOpens + [Asked(lfd, host, path, |w.sessions|)])
  {
    var sessions := w.sessions + [Session(host, -1, path, Leaked)];
    assert Moved(sessions, |w.sessions|, Live(lfd)) == w.sessions + [Session(host, -1, path, Live(lfd))];
  }

  lemma LateOpenKeeps(pfs: Files, w: World, m: LateOpen)
    requires Inv(pfs, w) && OfSession(w, m)
    requires forall k | 0 <= k < |w.lateOpens| :: w.lateOpens[k].session != m.session
    ensures Inv(pfs, w.(lateOpens := w.lateOpens + [m]))
  {
    OtherLateOpensKeep(pfs, w, w.lateOpens + [m]);
  }

  lemma OtherLateOpensKeep(pfs: Files, w: World, lateOpens: seq<LateOpen>)
    requires Inv(pfs, w)
    requires forall k | 0 <= k < |lateOpens| :: OfSession(w, lateOpens[k])
    requires forall j, k | 0 <= j < k < |lateOpens| :: lateOpens[j].session != lateOpens[k].session
    ensures Inv(pfs, w.(lateOpens := lateOpens))
  {
    var w' := w.(lateOpens := lateOpens);
    forall id: nat | id < |w'.sessions| && w'.sessions[id].phase != Gone && w'.sessions[id].fd != -1
      ensures Held(pfs, w', id)
    {
      assert Held(pfs, w, id);
    }
    forall x | x in w'.fdMap ensures Tracked(pfs, w', x) {
      assert Tracked(pfs, w, x);
    }
    forall k | 0 <= k < |w'.inFlight| ensures Announced(w', w'.inFlight[k]) {
      assert Announced(w, w.inFlight[k]);
    }
    forall k | 0 <= k < |w'.lateReads| && w'.lateReads[k].offset == -1 ensures OfLeaked(w', w'.lateReads[k]) {
      assert OfLeaked(w, w.lateReads[k]);
    }
    forall k | 0 <= k < |lateOpens| ensures OfSession(w', lateOpens[k]) {
      assert OfSession(w, lateOpens[k]);
    }
  }

  lemma LostOpenKeeps(pfs: Files, w: World, lfd: LocalFd, path: Path, host: Host)
    requires Inv(pfs, w) && Enabled(pfs, w, OpenTimesOut(lfd, path, host))
    ensures Inv(pfs, Apply(pfs, w, OpenTimesOut(lfd, path, host)).0)
  {
    FreshIsUntracked(pfs, w, lfd);
    LostOpenIsListThenAdopt(pfs, w, lfd, path, host);
    ListKeeps(pfs, w, host, path);
    LateIsOld(w);
    AdoptKeeps(pfs, Listed(w, host, path), lfd, |w.sessions|, Description(pfs[path], 0), false);
    LateOpenKeeps(pfs, Adopted(Listed(w, host, path), lfd, |w.sessions|, Description(pfs[path], 0), false),
                  Asked(lfd, host, path, |w.sessions|));
  }

  lemma ServedHeldOwn(pfs: Files, w: World, k: nat, fd: int)
    requires Enabled(pfs, w, ServeOpen(k, fd)) && fd != -1 && OfSession(w, w.lateOpens[k])
    requires Coherent(w.servers[w.lateOpens[k].host].cache, w.servers[w.lateOpens[k].host].files, pfs)
    ensures w.lateOpens[k].session < |Served(w, k, fd).sessions|
    ensures Held(pfs, Served(w, k, fd), w.lateOpens[k].session)
  {
    RedirectionIsTransparent(w.servers[w.lateOpens[k].host], pfs, w.lateOpens[k].path, fd);
  }

  lemma ServedHeldOther(pfs: Files, w: World, k: nat, fd: int, id: nat)
    requires Enabled(pfs, w, ServeOpen(k, fd)) && id < |w.sessions| && id != w.lateOpens[k].session && Held(pfs, w, id)
    ensures id < |Served(w, k, fd).sessions| && Held(pfs, Served(w, k, fd), id)
  {
  }

  lemma ServedHolds(pfs: Files, w: World, k: nat, fd: int)
    requires SessionsHold(pfs, w) && LateOpensKnown(w) && ServersCoherent(pfs, w)
    requires Enabled(pfs, w, ServeOpen(k, fd))
    ensures SessionsHold(pfs, Served(w, k, fd))
  {
    var w' := Served(w, k, fd);
    assert OfSession(w, w.lateOpens[k]);
    forall id: nat | id < |w'.sessions| && w'.sessions[id].phase != Gone && w'.sessions[id].fd != -1
      ensures Held(pfs, w', id)
    {
      if id == w.lateOpens[k].session {
        ServedHeldOwn(pfs, w, k, fd);
      } else {
        ServedHeldOther(pfs, w, k, fd, id);
      }
    }
  }

  lemma ServedHolders(pfs: Files, w: World, k: nat, fd: int)
    requires HoldersKnown(w) && LateOpensKnown(w) && Enabled(pfs, w, ServeOpen(k, fd))
    ensures HoldersKnown(Served(w, k, fd))
  {
    var w', m := Served(w, k, fd), w.lateOpens[k];
    assert OfSession(w, m);
    forall h, x | h in w'.servers && x in w'.servers[h].table ensures (h, x) in w'.holder {
      assert (h == m.host && x == fd) || x in w.servers[h].table;
    }
    forall key | key in w'.holder && key in w.holder && key != (m.host, fd) ensures w.holder[key] != m.session {
    }
  }

  lemma ServedClientSide(pfs: Files, w: World, k: nat, fd: int)
    requires DescriptorsTracked(pfs, w) && MessagesAnnounced(w) && LateOpensKnown(w)
    requires Enabled(pfs, w, ServeOpen(k, fd))
    ensures DescriptorsTracked(pfs, Served(w, k, fd)) && MessagesAnnounced(Served(w, k, fd))
  {
    var w', m := Served(w, k, fd), w.lateOpens[k];
    assert OfSession(w, m);
    forall x | x in w'.fdMap ensures Tracked(pfs, w', x) {
      assert Tracked(pfs, w, x);
    }
    forall j | 0 <= j < |w'.inFlight| ensures Announced(w', w'.inFlight[j]) {
      assert Announced(w, w.inFlight[j]);
    }
  }

  lemma ServedLate(pfs: Files, w: World, k: nat, fd: int)
    requires LateReadsStray(w) && LateOpensKnown(w) && Enabled(pfs, w, ServeOpen(k, fd))
    ensures LateReadsStray(Served(w, k, fd)) && LateOpensKnown(Served(w, k, fd))
  {
    var w', m := Served(w, k, fd), w.lateOpens[k];
    assert OfSession(w, m);
    forall j | 0 <= j < |w'.lateReads| && w'.lateReads[j].offset == -1 ensures OfLeaked(w', w'.lateReads[j]) {
      assert OfLeaked(w, w.lateReads[j]);
    }
    forall j | 0 <= j < |w'.lateOpens| ensures OfSession(w', w'.lateOpens[j]) {
      assert OfSession(w, w.lateOpens[j]);
    }
  }

  lemma ServeKeeps(pfs: Files, w: World, k: nat, fd: int)
    requires Inv(pfs, w) && Enabled(pfs, w, ServeOpen(k, fd))
    ensures Inv(pfs, Apply(pfs, w, ServeOpen(k, fd)).0)
  {
    ServedHolds(pfs, w, k, fd);
    ServedHolders(pfs, w, k, fd);
    ServedClientSide(pfs, w, k, fd);
    ServedLate(pfs, w, k, fd);
  }

  /** A number arrives at the client, for the open it last made on the descriptor or for another one. */
  function Heard(w: World, lfd: LocalFd, fd: int, own: bool): World {
    w.(redir := w.redir[lfd := fd], adrift := if own then w.adrift - {lfd} else w.adrift + {lfd})
  }

  lemma HeardKeeps(pfs: Files, w: World, lfd: LocalFd, fd: int, own: bool)
    requires Inv(pfs, w)
    requires own ==> lfd in w.fdMap && SessionOf(w, lfd) < |w.sessions| && w.sessions[SessionOf(w, lfd)].fd == fd
    requires own ==> forall k | 0 <= k < |w.lateOpens| && w.lateOpens[k].Asked? ::
      w.lateOpens[k].session != SessionOf(w, lfd)
    ensures Inv(pfs, Heard(w, lfd, fd, own))
  {
    var w' := Heard(w, lfd, fd, own);
    forall id: nat | id < |w'.sessions| && w'.sessions[id].phase != Gone && w'.sessions[id].fd != -1
      ensures Held(pfs, w', id)
    {
      assert Held(pfs, w, id);
    }
    forall x | x in w'.fdMap ensures Tracked(pfs, w', x) {
      assert Tracked(pfs, w, x);
    }
    forall k | 0 <= k < |w'.inFlight| ensures Announced(w', w'.inFlight[k]) {
      assert Announced(w, w.inFlight[k]);
    }
    forall k | 0 <= k < |w'.lateReads| && w'.lateReads[k].offset == -1 ensures OfLeaked(w', w'.lateReads[k]) {
      assert OfLeaked(w, w.lateReads[k]);
    }
    forall k | 0 <= k < |w'.lateOpens| ensures OfSession(w', w'.lateOpens[k]) {
      assert OfSession(w, w.lateOpens[k]);
    }
  }

  lemma FewerOpensKeep(pfs: Files, w: World, k: nat)
    requires Inv(pfs, w) && k < |w.lateOpens|
    ensures Inv(pfs, w.(lateOpens := Without(w.lateOpens, k)))
    ensures forall j | 0 <= j < |Without(w.lateOpens, k)| ::
      Without(w.lateOpens, k)[j].session != w.lateOpens[k].session
  {
    var lateOpens := Without(w.lateOpens, k);
    forall j | 0 <= j < |lateOpens| ensures OfSession(w, lateOpens[j]) {
      assert OfSession(w, w.lateOpens[if j < k then j else j + 1]);
    }
    OtherLateOpensKeep(pfs, w, lateOpens);
  }

  lemma HearKeeps(pfs: Files, w: World, k: nat)
    requires Inv(pfs, w) && Enabled(pfs, w, HearOpen(k))
    ensures Inv(pfs, Apply(pfs, w, HearOpen(k)).0)
  {
    var m := w.lateOpens[k];
    assert OfSession(w, m);
    FewerOpensKeep(pfs, w, k);
    HeardKeeps(pfs, w.(lateOpens := Without(w.lateOpens, k)), m.lfd, m.fd,
               m.lfd in w.fdMap && SessionOf(w, m.lfd) == m.session);
  }

  lemma LocalReadKeeps(pfs: Files, w: World, lfd: LocalFd, count: nat)
    requires Inv(pfs, w) && lfd in w.local
    ensures Inv(pfs, LocalRead(w, lfd, count).0)
  {
    ClientSideKeeps(pfs, w, LocalRead(w, lfd, count).0);
  }

  /** A read on its way that nobody waits for. */
  lemma StrayReadKeeps(pfs: Files, w: World, m: ReadMessage)
    requires Inv(pfs, w) && (m.offset == -1 ==> OfLeaked(w, m))
    ensures Inv(pfs, w.(lateReads := w.lateReads + [m]))
  {
    var w' := w.(lateReads := w.lateReads + [m]);
    forall id: nat | id < |w'.sessions| && w'.sessions[id].phase != Gone && w'.sessions[id].fd != -1
      ensures Held(pfs, w', id)
    {
      assert Held(pfs, w, id);
    }
    forall x | x in w'.fdMap ensures Tracked(pfs, w', x) {
      assert Tracked(pfs, w, x);
    }
    forall k | 0 <= k < |w'.inFlight| ensures Announced(w', w'.inFlight[k]) {
      assert Announced(w, w.inFlight[k]);
    }
    forall k | 0 <= k < |w'.lateReads| && w'.lateReads[k].offset == -1 ensures OfLeaked(w', w'.lateReads[k]) {
      assert k < |w.lateReads| ==> OfLeaked(w, w.lateReads[k]);
    }
  }

  lemma RetiredIsLeaked(pfs: Files, w: World, lfd: LocalFd, host: Host, count: nat, offset: int)
    requires DescriptorsTracked(pfs, w) && lfd in w.fdMap && Reaches(w, lfd, host)
    ensures OfLeaked(Retired(w, lfd, Leaked), ReadMessage(host, Redir(w, lfd), count, offset, SessionOf(w, lfd)))
  {
    assert Tracked(pfs, w, lfd);
  }

  /** Giving up on a request: the descriptor is dropped, and the request may still be on its way. */
  lemma GiveUpKeeps(pfs: Files, w: World, lfd: LocalFd, count: nat, offset: int, host: Host, answer: Wait)
    requires Inv(pfs, w) && lfd in w.fdMap
    requires answer == TimedOut && offset == -1 ==> Reaches(w, lfd, host)
    ensures Inv(pfs, Dropped(GivenUp(w, lfd, count, offset, host, answer), lfd))
  {
    var w1 := Retired(w, lfd, Leaked);
    RetireKeeps(pfs, w, lfd, Leaked);
    if answer == TimedOut {
      var m := ReadMessage(host, Redir(w, lfd), count, offset, SessionOf(w, lfd));
      if offset == -1 {
        RetiredIsLeaked(pfs, w, lfd, host, count, offset);
      }
      StrayReadKeeps(pfs, w1, m);
      assert Dropped(GivenUp(w, lfd, count, offset, host, answer), lfd) == w1.(lateReads := w1.lateReads + [m]);
    }
  }

  lemma RemoteReadKeeps(pfs: Files, w: World, lfd: LocalFd, count: nat, offset: int, host: Host, answer: Wait)
    requires Inv(pfs, w) && host in w.servers
    requires answer == TimedOut && offset == -1 ==> Reaches(w, lfd, host)
    ensures Inv(pfs, RemoteRead(w, lfd, count, offset, host, answer).0)
  {
    if lfd in w.fdMap {
      if answer != Reply {
        GiveUpKeeps(pfs, w, lfd, count, offset, host, answer);
      } else {
        var w1 := WithServer(w, host, HandleRead(w.servers[host], Redir(w, lfd), count, offset).0);
        RequestKeeps(pfs, w, host, Redir(w, lfd), count, offset);
        RetireKeeps(pfs, w1, lfd, Leaked);
      }
    }
  }

  lemma ReadKeeps(pfs: Files, w: World, a: Action)
    requires Inv(pfs, w) && a.ReadFile? && Enabled(pfs, w, a) && WellRouted(w, a)
    ensures Inv(pfs, Apply(pfs, w, a).0)
  {
    RemoteReadKeeps(pfs, w, a.lfd, a.count, -1, a.host, a.answer);
    LocalReadKeeps(pfs, RemoteRead(w, a.lfd, a.count, -1, a.host, a.answer).0, a.lfd, a.count);
  }

  lemma PreadKeeps(pfs: Files, w: World, a: Action)
    requires Inv(pfs, w) && a.PreadFile? && Enabled(pfs, w, a) && WellRouted(w, a)
    ensures Inv(pfs, Apply(pfs, w, a).0)
  {
    RemoteReadKeeps(pfs, w, a.lfd, a.count, a.offset, a.host, a.answer);
  }

  /** A read on its way is served at last. */
  lemma DeliverReadKeeps(pfs: Files, w: World, k: nat)
    requires Inv(pfs, w) && Enabled(pfs, w, DeliverRead(k))
    ensures Inv(pfs, Apply(pfs, w, DeliverRead(k)).0)
  {
    var m := w.lateReads[k];
    RequestKeeps(pfs, w, m.host, m.fd, m.count, m.offset);
    var w1 := WithServer(w, m.host, HandleRead(w.servers[m.host], m.fd, m.count, m.offset).0);
    FewerReadsKeep(pfs, w1, k);
  }

  lemma FewerReadsKeep(pfs: Files, w: World, k: nat)
    requires Inv(pfs, w) && k < |w.lateReads|
    ensures Inv(pfs, w.(lateReads := Without(w.lateReads, k)))
  {
    var w' := w.(lateReads := Without(w.lateReads, k));
    forall id: nat | id < |w'.sessions| && w'.sessions[id].phase != Gone && w'.sessions[id].fd != -1
      ensures Held(pfs, w', id)
    {
      assert Held(pfs, w, id);
    }
    forall x | x in w'.fdMap ensures Tracked(pfs, w', x) {
      assert Tracked(pfs, w, x);
    }
    forall j | 0 <= j < |w'.inFlight| ensures Announced(w', w'.inFlight[j]) {
      assert Announced(w, w.inFlight[j]);
    }
    forall j | 0 <= j < |w'.lateReads| && w'.lateReads[j].offset == -1 ensures OfLeaked(w', w'.lateReads[j]) {
      assert OfLeaked(w, w.lateReads[if j < k then j else j + 1]);
    }
  }

  lemma SeekKeeps(pfs: Files, w: World, a: Action)
    requires Inv(pfs, w) && a.SeekFile? && Enabled(pfs, w, a)
    ensures Inv(pfs, Apply(pfs, w, a).0)
  {
    if a.lfd in w.fdMap {
      SeekIsSimilar(w.servers[a.host], Redir(w, a.lfd), a.offset, a.whence);
      SimilarKeeps(pfs, w, a.host, HandleSeek(w.servers[a.host], Redir(w, a.lfd), a.offset, a.whence).0);
    } else {
      ClientSideKeeps(pfs, w, Apply(pfs, w, a).0);
    }
  }

  lemma InvKept(pfs: Files, w: World, a: Action)
    requires Inv(pfs, w) && Enabled(pfs, w, a) && WellRouted(w, a)
    ensures Inv(pfs, Apply(pfs, w, a).0)
  {
    match a
    case OpenFile(_, _, _, _, _) => OpenKeeps(pfs, w, a);
    case OpenTimesOut(lfd, path, host) => LostOpenKeeps(pfs, w, lfd, path, host);
    case ReadFile(_, _, _, _) => ReadKeeps(pfs, w, a);
    case PreadFile(_, _, _, _, _) => PreadKeeps(pfs, w, a);
    case SeekFile(_, _, _, _) => SeekKeeps(pfs, w, a);
    case CloseFile(_, _, _) => CloseKeeps(pfs, w, a);
    case DeliverClose(k) => DeliverKeeps(pfs, w, k);
    case DeliverRead(k) => DeliverReadKeeps(pfs, w, k);
    case ServeOpen(k, fd) => ServeKeeps(pfs, w, k, fd);
    case HearOpen(k) => HearKeeps(pfs, w, k);
    case Copied(host, cache, files) =>
      SimilarKeeps(pfs, w, host, w.servers[host].(cache := cache, files := files));
  }

  lemma InvInit(pfs: Files, hosts: set<Host>)
    ensures Inv(pfs, Init(pfs, hosts))
  {
  }
}
