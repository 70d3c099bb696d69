/** The intercepted calls (wrappers.c) with the client code under them, as methods on the state they
    update and on the servers they send requests to. Each is one action of the session protocol; what that
    means to the application is said against a plain descriptor kept beside every local one. Which host a
    request is routed to, and how the wait for an answer ends, come from outside. */
module Wrappers {
  import opened Posix
  import opened Servers
  import opened Sessions
  import opened Refinement
  import Fallback

  /** The plain descriptors after the same call. */
  ghost function Beside(pfs: Files, d: Direct, a: Action): Direct {
    if DirectEnabled(pfs, d, a) then DirectApply(pfs, d, a).0 else d
  }

  /** A call that does not fail, on a state in step with the plain descriptors: the state it leaves is in
      step with them, and its result is theirs, with the bytes and positions they promise. Deliveries have no
      result. */
  ghost predicate Kept(pfs: Files, w: World, d: Direct, a: Action, w': World, d': Direct, out: Output) {
    Inv(pfs, w) && Same(w, d) && Smooth(w, d, a) ==>
      && Inv(pfs, w') && Same(w', d')
      && DirectEnabled(pfs, d, a) && d' == DirectApply(pfs, d, a).0
      && (!a.DeliverClose? ==> out == DirectApply(pfs, d, a).1)
      && Promised(pfs, d, a, d', out)
  }

  lemma ApplyKeeps(pfs: Files, w: World, d: Direct, a: Action)
    requires Enabled(pfs, w, a)
    ensures Kept(pfs, w, d, a, Apply(pfs, w, a).0, Beside(pfs, d, a), Apply(pfs, w, a).1)
  {
    if Inv(pfs, w) && Same(w, d) && Smooth(w, d, a) {
      StepKeeps(pfs, w, d, a);
      DirectKeepsPromises(pfs, d, a);
    }
  }

  /** Even with failures, a well-routed pread leaves descriptors owned and gives the local pread's result. */
  ghost predicate PreadSafe(pfs: Files, w: World, a: Action, w': World, ret: IoResult)
    requires a.PreadFile?
  {
    Inv(pfs, w) && WellRouted(w, a) && a.lfd in w.local && a.offset != -1 ==>
      && Inv(pfs, w') && ret == Posix.Pread(w.local[a.lfd].content, a.count, a.offset)
      && if a.offset < 0 then ret.ret == -1 && ret.data == [] else Gives(ret, w.local[a.lfd].content, a.offset, a.count)
  }

  lemma ApplyPreadSafe(pfs: Files, w: World, a: Action, ret: IoResult)
    requires a.PreadFile? && Enabled(pfs, w, a) && Apply(pfs, w, a).1 == Got(ret)
    ensures PreadSafe(pfs, w, a, Apply(pfs, w, a).0, ret)
  {
    if Inv(pfs, w) && WellRouted(w, a) && a.offset != -1 {
      Fallback.PreadIsTransparent(pfs, w, a);
      PreadExactly(w.local[a.lfd].content, a.count, a.offset, ret);
      InvKept(pfs, w, a);
    }
  }

  /** A read whose answer is lost gives the file's first bytes, and leaves descriptors owned. */
  ghost predicate LostReadStartsOver(pfs: Files, w: World, d: Direct, a: Action, w': World, ret: IoResult)
    requires a.ReadFile?
  {
    Inv(pfs, w) && Same(w, d) && WellRouted(w, a) && Fallback.LocalsAtStart(w) && a.lfd in w.fdMap && a.answer != Reply
    ==>
      && Inv(pfs, w') && Fallback.LocalsAtStart(w')
      && a.lfd in d && Gives(ret, d[a.lfd].content, 0, a.count)
  }

  lemma ApplyStartsOver(pfs: Files, w: World, d: Direct, a: Action, ret: IoResult)
    requires a.ReadFile? && Enabled(pfs, w, a) && Apply(pfs, w, a).1 == Got(ret)
    ensures LostReadStartsOver(pfs, w, d, a, Apply(pfs, w, a).0, ret)
  {
    if Inv(pfs, w) && Same(w, d) && WellRouted(w, a) && Fallback.LocalsAtStart(w) && a.lfd in w.fdMap
       && a.answer != Reply
    {
      Fallback.LostReadExactly(pfs, w, d, a);
      Fallback.StartStep(pfs, w, a);
      InvKept(pfs, w, a);
    }
  }

  /** An open without an answer leaves descriptors owned. */
  ghost predicate StillOwned(pfs: Files, w: World, w': World) {
    Inv(pfs, w) ==> Inv(pfs, w')
  }

  lemma LostOpenStillOwned(pfs: Files, w: World, lfd: LocalFd, path: Path, host: Host)
    requires Enabled(pfs, w, OpenTimesOut(lfd, path, host))
    ensures StillOwned(pfs, w, Apply(pfs, w, OpenTimesOut(lfd, path, host)).0)
  {
    if Inv(pfs, w) {
      InvKept(pfs, w, OpenTimesOut(lfd, path, host));
    }
  }

  /** `sessions` and `current` only number the opens for the statements; no method decides by them. */
  class Wrapper {
    const pfs: Files
    const servers: map<Host, Server>
    var fdMap: map<LocalFd, Path>
    var fdRedirMap: map<LocalFd, int>
    var local: map<LocalFd, Description>
    var inFlight: seq<CloseMessage>
    var lateReads: seq<ReadMessage>
    var lateOpens: seq<LateOpen>
    var sessions: seq<Session>
    var current: map<LocalFd, nat>
    ghost var adrift: set<LocalFd>
    ghost var holder: map<(Host, int), nat>
    ghost var direct: Direct

    ghost function States(): map<Host, State>
      reads servers.Values
    {
      map h | h in servers :: servers[h].Abstract()
    }

    ghost function Abstract(): World
      reads this, servers.Values
    {
      World(fdMap, fdRedirMap, local, States(), inFlight, lateReads, lateOpens, adrift, sessions, current, holder)
    }

    /** Every host is a server of its own. */
    ghost predicate Separate() {
      forall h, h' | h in servers && h' in servers && h != h' :: servers[h] != servers[h']
    }

    /** Descriptors are owned, and each one is where the plain descriptor is. */
    ghost predicate Valid()
      reads this, servers.Values
    {
      Inv(pfs, Abstract()) && Same(Abstract(), direct)
    }

    constructor (pfs: Files, hosts: set<Host>)
      ensures this.pfs == pfs && Abstract() == Sessions.Init(pfs, hosts) && direct == map[]
      ensures Separate() && Valid() && fresh(servers.Values)
    {
      this.pfs := pfs;
      var made: map<Host, Server> := map[];
      var todo := hosts;
      while todo != {}
        invariant todo <= hosts && made.Keys == hosts - todo
        invariant forall h | h in made :: fresh(made[h])
        invariant forall h | h in made :: made[h].Abstract() == State(map[], map[], map[], pfs, [])
        invariant forall h, h' | h in made && h' in made && h != h' :: made[h] != made[h']
        decreases |todo|
      {
        var h :| h in todo;
        var server := new Server(pfs);
        made := made[h := server];
        todo := todo - {h};
      }
      servers := made;
      fdMap, fdRedirMap, local := map[], map[], map[];
      inFlight, lateReads, lateOpens := [], [], [];
      sessions, current := [], map[];
      adrift, holder, direct := {}, map[], map[];
      new;
      SameInit(pfs, hosts);
    }

    /** The plain descriptors follow. */
    ghost method Follow(a: Action)
      modifies this`direct
      ensures direct == Beside(pfs, old(direct), a) && Abstract() == old(Abstract())
    {
      direct := Beside(pfs, direct, a);
      assert States() == old(States());
    }

    // Requests to a server

    method AskOpen(host: Host, path: Path, remote: int) returns (retStatus: int)
      requires Separate() && host in servers && OpenReturns(States()[host], path, remote)
      modifies servers.Values
      ensures retStatus == remote
      ensures Abstract() == WithServer(old(Abstract()), host, HandleOpen(old(States())[host], path, remote))
    {
      retStatus := servers[host].OpenHandler(path, remote);
      assert States() == old(States())[host := HandleOpen(old(States())[host], path, remote)];
    }

    method AskRead(host: Host, fd: int, count: nat, offset: int) returns (r: IoResult)
      requires Separate() && host in servers
      modifies servers.Values
      ensures Abstract() == WithServer(old(Abstract()), host, HandleRead(old(States())[host], fd, count, offset).0)
      ensures r == HandleRead(old(States())[host], fd, count, offset).1
    {
      r := servers[host].ReadHandler(fd, count, offset);
      assert States() == old(States())[host := HandleRead(old(States())[host], fd, count, offset).0];
    }

    method AskSeek(host: Host, fd: int, offset: int, whence: int) returns (position: int)
      requires Separate() && host in servers
      modifies servers.Values
      ensures Abstract() == WithServer(old(Abstract()), host, HandleSeek(old(States())[host], fd, offset, whence).0)
      ensures position == HandleSeek(old(States())[host], fd, offset, whence).1
    {
      position := servers[host].SeekHandler(fd, offset, whence);
      assert States() == old(States())[host := HandleSeek(old(States())[host], fd, offset, whence).0];
    }

    method AskClose(host: Host, fd: int) returns (ret: int)
      requires Separate() && host in servers
      modifies servers.Values
      ensures Abstract() == WithServer(old(Abstract()), host, HandleClose(old(States())[host], fd).0)
      ensures ret == HandleClose(old(States())[host], fd).1
    {
      ret := servers[host].CloseHandler(fd);
      assert States() == old(States())[host := HandleClose(old(States())[host], fd).0];
    }

    // Steps of the calls

    method List(session: Session)
      modifies this`sessions, this`holder
      ensures Abstract() == old(Abstract()).(
        sessions := old(sessions) + [session],
        holder := if session.fd == -1 then old(holder)
                  else old(holder)[(session.host, session.fd) := |old(sessions)|])
    {
      sessions, holder := sessions + [session],
        if session.fd == -1 then holder else holder[(session.host, session.fd) := |sessions|];
    }

    /** The server opens the file. */
    method StartSession(host: Host, path: Path, remote: int)
      requires Separate() && host in servers && OpenReturns(States()[host], path, remote)
      modifies this`sessions, this`holder, servers.Values
      ensures Abstract() == Started(old(Abstract()), host, path, remote)
    {
      var _ := AskOpen(host, path, remote);
      List(Session(host, remote, path, Leaked));
    }

    /** `fd_redir_map[fd]` gets the answer, if there is one. */
    method KeepAnswer(lfd: LocalFd, fd: int, answered: bool)
      modifies this`fdRedirMap, this`adrift
      ensures Abstract() == old(Abstract()).(
        redir := if answered then old(fdRedirMap)[lfd := fd] else old(fdRedirMap),
        adrift := if answered then old(adrift) - {lfd} else old(adrift) + {lfd})
    {
      if answered {
        fdRedirMap, adrift := fdRedirMap[lfd := fd], adrift - {lfd};
      } else {
        adrift := adrift + {lfd};
      }
    }

    method Track(lfd: LocalFd, id: nat, d: Description)
      requires id < |sessions|
      modifies this`fdMap, this`local, this`sessions, this`current
      ensures Abstract() == old(Abstract()).(
        fdMap := old(fdMap)[lfd := old(sessions)[id].path], local := old(local)[lfd := d],
        sessions := Moved(old(sessions), id, Live(lfd)), current := old(current)[lfd := id])
    {
      fdMap, local, sessions, current :=
        fdMap[lfd := sessions[id].path], local[lfd := d], Moved(sessions, id, Live(lfd)), current[lfd := id];
    }

    /** The client tracks the file, and keeps the server's number if it was told. */
    method AdoptSession(lfd: LocalFd, id: nat, d: Description, answered: bool)
      requires id < |sessions|
      modifies this`fdMap, this`fdRedirMap, this`adrift, this`local, this`sessions, this`current
      ensures Abstract() == Adopted(old(Abstract()), lfd, id, d, answered)
    {
      KeepAnswer(lfd, sessions[id].fd, answered);
      Track(lfd, id, d);
    }

    /** `fd_map.erase(fd)`. */
    method StopTracking(lfd: LocalFd, phase: Phase)
      modifies this`fdMap, this`sessions
      ensures Abstract() == Retired(old(Abstract()), lfd, phase)
    {
      fdMap := fdMap - {lfd};
      sessions := Moved(sessions, if lfd in current then current[lfd] else 0, phase);
    }

    method Strike(m: CloseMessage)
      modifies this`sessions, this`holder
      ensures Abstract() == old(Abstract()).(
        sessions := Moved(old(sessions), m.session, Gone), holder := old(holder) - {(m.host, m.fd)})
    {
      sessions, holder := Moved(sessions, m.session, Gone), holder - {(m.host, m.fd)};
    }

    /** The server closes the descriptor. */
    method EndSession(m: CloseMessage)
      requires Separate() && m.host in servers
      modifies this`sessions, this`holder, servers.Values
      ensures Abstract() == Ended(old(Abstract()), m)
    {
      var _ := AskClose(m.host, m.fd);
      Strike(m);
    }

    method SetLocal(lfd: LocalFd, d: Description)
      modifies this`local
      ensures Abstract() == old(Abstract()).(local := old(local)[lfd := d])
    {
      local := local[lfd := d];
    }

    method CloseLocal(lfd: LocalFd)
      modifies this`local
      ensures Abstract() == LocallyClosed(old(Abstract()), lfd)
    {
      local := local - {lfd};
    }

    method LeaveRequest(m: LateOpen)
      modifies this`lateOpens
      ensures Abstract() == old(Abstract()).(lateOpens := old(lateOpens) + [m])
    {
      lateOpens := lateOpens + [m];
    }

    method SendClose(lfd: LocalFd, host: Host)
      modifies this`inFlight, this`fdRedirMap
      ensures Abstract() == CloseSent(old(Abstract()), lfd, host)
    {
      var fd := if lfd in fdRedirMap then fdRedirMap[lfd] else 0;
      var id := if lfd in current then current[lfd] else 0;
      inFlight, fdRedirMap := inFlight + [CloseMessage(host, fd, id)], fdRedirMap - {lfd};
    }

    method LeaveRead(m: ReadMessage)
      modifies this`lateReads
      ensures Abstract() == old(Abstract()).(lateReads := old(lateReads) + [m])
    {
      lateReads := lateReads + [m];
    }

    // Intercepted calls

    /** `tracked` is the decision of hvac_track_file; `remote` the descriptor the server's open returns. */
    method OpenAndTrack(lfd: LocalFd, path: Path, tracked: bool, host: Host, remote: int)
      requires Separate() && Enabled(pfs, Abstract(), OpenFile(lfd, path, tracked, host, remote))
      modifies this, servers.Values
      ensures Abstract() == Apply(pfs, old(Abstract()), OpenFile(lfd, path, tracked, host, remote)).0
      ensures direct == old(direct)
    {
      if tracked {
        OpenIsStartThenAdopt(pfs, Abstract(), lfd, path, host, remote);
        StartSession(host, path, remote);
        AdoptSession(lfd, |sessions| - 1, Description(pfs[path], 0), true);
      } else {
        SetLocal(lfd, Description(pfs[path], 0));
      }
    }

    method Open(lfd: LocalFd, path: Path, tracked: bool, host: Host, remote: int)
      requires Separate() && Enabled(pfs, Abstract(), OpenFile(lfd, path, tracked, host, remote))
      modifies this, servers.Values
      ensures Kept(pfs, old(Abstract()), old(direct), OpenFile(lfd, path, tracked, host, remote),
                   Abstract(), direct, Silent)
    {
      ApplyKeeps(pfs, Abstract(), direct, OpenFile(lfd, path, tracked, host, remote));
      OpenAndTrack(lfd, path, tracked, host, remote);
      Follow(OpenFile(lfd, path, tracked, host, remote));
    }

    method OpenAndGiveUp(lfd: LocalFd, path: Path, host: Host)
      requires Enabled(pfs, Abstract(), OpenTimesOut(lfd, path, host))
      modifies this
      ensures Abstract() == Apply(pfs, old(Abstract()), OpenTimesOut(lfd, path, host)).0
      ensures direct == old(direct) && lfd in fdMap && fdMap[lfd] == path && fdRedirMap == old(fdRedirMap)
    {
      LostOpenIsListThenAdopt(pfs, Abstract(), lfd, path, host);
      List(Session(host, -1, path, Leaked));
      AdoptSession(lfd, |sessions| - 1, Description(pfs[path], 0), false);
      LeaveRequest(Asked(lfd, host, path, |sessions| - 1));
    }

    /** The wait for the server's answer times out: the file is tracked all the same, and the entry in
        fd_redir_map stays as it was. */
    method OpenWithoutAnswer(lfd: LocalFd, path: Path, host: Host)
      requires Enabled(pfs, Abstract(), OpenTimesOut(lfd, path, host))
      modifies this
      ensures StillOwned(pfs, old(Abstract()), Abstract())
      ensures lfd in fdMap && fdMap[lfd] == path && fdRedirMap == old(fdRedirMap)
    {
      LostOpenStillOwned(pfs, Abstract(), lfd, path, host);
      OpenAndGiveUp(lfd, path, host);
      Follow(OpenTimesOut(lfd, path, host));
    }

    /** What hvac_remote_read and hvac_remote_pread leave behind: an answer, a request on its way, or
        nothing; and -1 ends the tracking. */
    method RemoteRead(lfd: LocalFd, count: nat, offset: int, host: Host, answer: Wait) returns (bytesRead: IoResult)
      requires Separate() && host in servers
      modifies this`fdMap, this`lateReads, this`sessions, servers.Values
      ensures (Abstract(), bytesRead) == Sessions.RemoteRead(old(Abstract()), lfd, count, offset, host, answer)
    {
      bytesRead := FAILED;
      if lfd in fdMap {
        var accessFd := if lfd in fdRedirMap then fdRedirMap[lfd] else 0;
        if answer == Reply {
          bytesRead := AskRead(host, accessFd, count, offset);
        } else if answer == TimedOut {
          var id := if lfd in current then current[lfd] else 0;
          LeaveRead(ReadMessage(host, accessFd, count, offset, id));
        }
        if bytesRead.ret == -1 {
          StopTracking(lfd, Leaked);
        }
      }
    }

    method ReadOrFallBack(lfd: LocalFd, count: nat, host: Host, answer: Wait) returns (ret: IoResult)
      requires Separate() && Enabled(pfs, Abstract(), ReadFile(lfd, count, host, answer))
      modifies this, servers.Values
      ensures (Abstract(), Got(ret)) == Apply(pfs, old(Abstract()), ReadFile(lfd, count, host, answer))
      ensures direct == old(direct)
    {
      ret := RemoteRead(lfd, count, -1, host, answer);
      if ret.ret < 0 {
        var after := Posix.Read(local[lfd], count);
        SetLocal(lfd, after.0);
        ret := after.1;
      }
    }

    method Read(lfd: LocalFd, count: nat, host: Host, answer: Wait) returns (ret: IoResult)
      requires Separate() && Enabled(pfs, Abstract(), ReadFile(lfd, count, host, answer))
      modifies this, servers.Values
      ensures Kept(pfs, old(Abstract()), old(direct), ReadFile(lfd, count, host, answer), Abstract(), direct, Got(ret))
      ensures LostReadStartsOver(pfs, old(Abstract()), old(direct), ReadFile(lfd, count, host, answer), Abstract(), ret)
    {
      ghost var w, d, a := Abstract(), direct, ReadFile(lfd, count, host, answer);
      ApplyKeeps(pfs, w, d, a);
      ret := ReadOrFallBack(lfd, count, host, answer);
      Follow(a);
      ApplyStartsOver(pfs, w, d, a, ret);
    }

    method PreadOrFallBack(lfd: LocalFd, count: nat, offset: int, host: Host, answer: Wait) returns (ret: IoResult)
      requires Separate() && Enabled(pfs, Abstract(), PreadFile(lfd, count, offset, host, answer))
      modifies this, servers.Values
      ensures (Abstract(), Got(ret)) == Apply(pfs, old(Abstract()), PreadFile(lfd, count, offset, host, answer))
      ensures direct == old(direct)
    {
      if lfd in fdMap {
        ret := RemoteRead(lfd, count, offset, host, answer);
        if ret.ret < 0 {
          ret := Posix.Pread(local[lfd].content, count, offset);
        }
      } else {
        ret := Posix.Pread(local[lfd].content, count, offset);
      }
    }

    method Pread(lfd: LocalFd, count: nat, offset: int, host: Host, answer: Wait) returns (ret: IoResult)
      requires Separate() && Enabled(pfs, Abstract(), PreadFile(lfd, count, offset, host, answer))
      modifies this, servers.Values
      ensures Kept(pfs, old(Abstract()), old(direct), PreadFile(lfd, count, offset, host, answer),
                   Abstract(), direct, Got(ret))
      ensures PreadSafe(pfs, old(Abstract()), PreadFile(lfd, count, offset, host, answer), Abstract(), ret)
    {
      ghost var w, a := Abstract(), PreadFile(lfd, count, offset, host, answer);
      ApplyKeeps(pfs, w, direct, a);
      ret := PreadOrFallBack(lfd, count, offset, host, answer);
      Follow(a);
      ApplyPreadSafe(pfs, w, a, ret);
    }

    method SeekThere(lfd: LocalFd, offset: int, whence: int, host: Host) returns (position: int)
      requires Separate() && Enabled(pfs, Abstract(), SeekFile(lfd, offset, whence, host))
      modifies this, servers.Values
      ensures (Abstract(), At(position)) == Apply(pfs, old(Abstract()), SeekFile(lfd, offset, whence, host))
      ensures direct == old(direct)
    {
      if lfd in fdMap {
        var fd := if lfd in fdRedirMap then fdRedirMap[lfd] else 0;
        position := AskSeek(host, fd, offset, whence);
      } else {
        var after := Posix.Lseek(local[lfd], offset, whence);
        SetLocal(lfd, after.0);
        position := after.1;
      }
    }

    method Lseek(lfd: LocalFd, offset: int, whence: int, host: Host) returns (position: int)
      requires Separate() && Enabled(pfs, Abstract(), SeekFile(lfd, offset, whence, host))
      modifies this, servers.Values
      ensures Kept(pfs, old(Abstract()), old(direct), SeekFile(lfd, offset, whence, host),
                   Abstract(), direct, At(position))
    {
      ApplyKeeps(pfs, Abstract(), direct, SeekFile(lfd, offset, whence, host));
      position := SeekThere(lfd, offset, whence, host);
      Follow(SeekFile(lfd, offset, whence, host));
    }

    /** The close request is sent and forgotten, unless the guard withholds it. */
    method CloseAndForget(lfd: LocalFd, host: Host, sent: bool)
      requires Enabled(pfs, Abstract(), CloseFile(lfd, host, sent))
      modifies this
      ensures Abstract() == Apply(pfs, old(Abstract()), CloseFile(lfd, host, sent)).0
      ensures direct == old(direct)
    {
      CloseInSteps(pfs, Abstract(), lfd, host, sent);
      if lfd in fdMap {
        if sent {
          SendClose(lfd, host);
        }
        StopTracking(lfd, if sent then Closing else Leaked);
      }
      CloseLocal(lfd);
    }

    method Close(lfd: LocalFd, host: Host, sent: bool)
      requires Enabled(pfs, Abstract(), CloseFile(lfd, host, sent))
      modifies this
      ensures Kept(pfs, old(Abstract()), old(direct), CloseFile(lfd, host, sent), Abstract(), direct, Silent)
    {
      ApplyKeeps(pfs, Abstract(), direct, CloseFile(lfd, host, sent));
      CloseAndForget(lfd, host, sent);
      Follow(CloseFile(lfd, host, sent));
    }

    method TakeMessage(k: nat) returns (m: CloseMessage)
      requires k < |inFlight|
      modifies this`inFlight
      ensures m == old(inFlight)[k] && Abstract() == Received(old(Abstract()), k)
    {
      m := inFlight[k];
      inFlight := Without(inFlight, k);
    }

    method ServeClose(k: nat)
      requires Separate() && Enabled(pfs, Abstract(), DeliverClose(k))
      modifies this, servers.Values
      ensures Abstract() == Apply(pfs, old(Abstract()), DeliverClose(k)).0
      ensures direct == old(direct)
    {
      DeliverIsReceiveThenEnd(pfs, Abstract(), k);
      var m := TakeMessage(k);
      EndSession(m);
    }

    /** A close message is handled by its server at last, and the application notices nothing. */
    method ReceiveClose(k: nat)
      requires Separate() && Enabled(pfs, Abstract(), DeliverClose(k))
      modifies this, servers.Values
      ensures Kept(pfs, old(Abstract()), old(direct), DeliverClose(k), Abstract(), direct, Silent)
    {
      ApplyKeeps(pfs, Abstract(), direct, DeliverClose(k));
      ServeClose(k);
      Follow(DeliverClose(k));
    }
  }
}
