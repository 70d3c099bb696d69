/** The stream promise for a single descriptor, whatever fails for the others: over any well-routed run in
    which its own calls are failure-free, it cannot be told from a plain descriptor. */
module Streams {
  import opened Posix
  import opened Servers
  import opened Sessions
  import opened Refinement

  /** The call is made on descriptor x. */
  predicate Mine(a: Action, x: LocalFd) {
    match a
    case OpenFile(lfd, _, _, _, _) => lfd == x
    case OpenTimesOut(lfd, _, _) => lfd == x
    case ReadFile(lfd, _, _, _) => lfd == x
    case PreadFile(lfd, _, _, _, _) => lfd == x
    case SeekFile(lfd, _, _, _) => lfd == x
    case CloseFile(lfd, _, _) => lfd == x
    case _ => false
  }

  /** x is open exactly when its plain descriptor is, and in the same place. */
  ghost predicate Following(w: World, d: Direct, x: LocalFd) {
    (x in d <==> x in w.local) && (x in d ==> Tied(w, d, x))
  }

  /** The plain descriptor sees x's calls only. */
  ghost function NextDirect(pfs: Files, d: Direct, a: Action, x: LocalFd): Direct
    requires DirectEnabled(pfs, d, a) || !Mine(a, x)
  {
    if Mine(a, x) then DirectApply(pfs, d, a).0 else d
  }

  // ---------------------------------------------------------------------------------------------
  // Calls of others
  // ---------------------------------------------------------------------------------------------

  /** x is tracked or not as before, in the same place, with the same file and position behind it. */
  ghost predicate Untouched(w: World, w': World, x: LocalFd) {
    && (x in w'.local <==> x in w.local) && (x in w.local ==> w'.local[x] == w.local[x])
    && (x in w'.fdMap <==> x in w.fdMap) && SessionOf(w', x) == SessionOf(w, x)
    && (x in w.fdMap && SessionOf(w, x) < |w.sessions| ==>
          && SessionOf(w, x) < |w'.sessions| && Site(w', x) == Site(w, x)
          && (IsOpen(w.servers, Site(w, x)) ==>
                IsOpen(w'.servers, Site(w, x)) &&
                w'.servers[Site(w, x).0].table[Site(w, x).1] == w.servers[Site(w, x).0].table[Site(w, x).1]))
  }

  lemma UntouchedFollows(w: World, w': World, d: Direct, x: LocalFd)
    requires Following(w, d, x) && Untouched(w, w', x)
    ensures Following(w', d, x)
  {
  }

  /** A request of y names y's own descriptor, which is not x's. */
  lemma OthersNameOthers(pfs: Files, w: World, d: Direct, x: LocalFd, y: LocalFd, host: Host)
    requires Inv(pfs, w) && Following(w, d, x) && x in w.fdMap && y in w.fdMap && x != y && Reaches(w, y, host)
    ensures Site(w, x) != (host, Redir(w, y))
  {
    assert Tracked(pfs, w, x) && Tracked(pfs, w, y);
    NotMinusOne(pfs, w, d, x);
    LiveSessionsDiffer(pfs, w, x, y);
  }

  lemma DropElsewhere(w: World, x: LocalFd, y: LocalFd)
    requires x != y && (y in w.fdMap ==> SessionOf(w, y) < |w.sessions|)
    ensures Untouched(w, Dropped(w, y), x)
  {
  }

  lemma AskElsewhere(w: World, x: LocalFd, fd: int, count: nat, offset: int, host: Host)
    requires host in w.servers && (x in w.fdMap && offset == -1 ==> Site(w, x) != (host, fd))
    ensures Untouched(w, WithServer(w, host, HandleRead(w.servers[host], fd, count, offset).0), x)
  {
  }

  lemma GivenUpElsewhere(w: World, x: LocalFd, y: LocalFd, count: nat, offset: int, host: Host, answer: Wait)
    ensures Untouched(w, GivenUp(w, y, count, offset, host, answer), x)
  {
  }

  lemma OtherRemoteRead(pfs: Files, w: World, d: Direct, x: LocalFd, y: LocalFd, count: nat, offset: int, host: Host,
                        answer: Wait)
    requires Inv(pfs, w) && Following(w, d, x) && host in w.servers && x != y
    requires answer == Reply && offset == -1 ==> Reaches(w, y, host)
    ensures Following(RemoteRead(w, y, count, offset, host, answer).0, d, x)
  {
    if y in w.fdMap {
      assert Tracked(pfs, w, y);
      if answer != Reply {
        var w1 := GivenUp(w, y, count, offset, host, answer);
        GivenUpElsewhere(w, x, y, count, offset, host, answer);
        UntouchedFollows(w, w1, d, x);
        DropElsewhere(w1, x, y);
        UntouchedFollows(w1, Dropped(w1, y), d, x);
      } else {
        if x in w.fdMap && offset == -1 {
          OthersNameOthers(pfs, w, d, x, y, host);
        }
        var w1 := WithServer(w, host, HandleRead(w.servers[host], Redir(w, y), count, offset).0);
        AskElsewhere(w, x, Redir(w, y), count, offset, host);
        UntouchedFollows(w, w1, d, x);
        DropElsewhere(w1, x, y);
        UntouchedFollows(w1, Dropped(w1, y), d, x);
      }
    }
  }

  lemma OtherLocalRead(w: World, d: Direct, x: LocalFd, y: LocalFd, count: nat)
    requires Following(w, d, x) && y in w.local && x != y
    ensures Following(LocalRead(w, y, count).0, d, x)
  {
    assert Untouched(w, LocalRead(w, y, count).0, x);
  }

  lemma RemoteReadLocal(w: World, y: LocalFd, count: nat, offset: int, host: Host, answer: Wait)
    requires host in w.servers
    ensures RemoteRead(w, y, count, offset, host, answer).0.local == w.local
  {
  }

  lemma OtherRead(pfs: Files, w: World, d: Direct, a: Action, x: LocalFd)
    requires Inv(pfs, w) && Following(w, d, x) && Enabled(pfs, w, a) && WellRouted(w, a) && !Mine(a, x)
    requires a.ReadFile? || a.PreadFile?
    ensures Following(Apply(pfs, w, a).0, d, x)
  {
    var offset := if a.ReadFile? then -1 else a.offset;
    OtherRemoteRead(pfs, w, d, x, a.lfd, a.count, offset, a.host, a.answer);
    if a.ReadFile? {
      RemoteReadLocal(w, a.lfd, a.count, offset, a.host, a.answer);
      OtherLocalRead(RemoteRead(w, a.lfd, a.count, offset, a.host, a.answer).0, d, x, a.lfd, a.count);
    }
  }

  lemma SeekElsewhere(pfs: Files, w: World, a: Action, x: LocalFd)
    requires a.SeekFile? && Enabled(pfs, w, a) && a.lfd != x
    requires x in w.fdMap && a.lfd in w.fdMap ==> Site(w, x) != (a.host, Redir(w, a.lfd))
    ensures Untouched(w, Apply(pfs, w, a).0, x)
  {
  }

  lemma OtherSeek(pfs: Files, w: World, d: Direct, a: Action, x: LocalFd)
    requires Inv(pfs, w) && Following(w, d, x) && Enabled(pfs, w, a) && WellRouted(w, a) && !Mine(a, x) && a.SeekFile?
    ensures Following(Apply(pfs, w, a).0, d, x)
  {
    if x in w.fdMap && a.lfd in w.fdMap {
      OthersNameOthers(pfs, w, d, x, a.lfd, a.host);
    }
    SeekElsewhere(pfs, w, a, x);
    UntouchedFollows(w, Apply(pfs, w, a).0, d, x);
  }

  lemma OtherOpen(pfs: Files, w: World, d: Direct, a: Action, x: LocalFd)
    requires Following(w, d, x) && Enabled(pfs, w, a) && !Mine(a, x) && (a.OpenFile? || a.OpenTimesOut?)
    ensures Following(Apply(pfs, w, a).0, d, x)
  {
    assert Untouched(w, Apply(pfs, w, a).0, x);
    UntouchedFollows(w, Apply(pfs, w, a).0, d, x);
  }

  lemma OtherClose(pfs: Files, w: World, d: Direct, a: Action, x: LocalFd)
    requires Following(w, d, x) && Enabled(pfs, w, a) && !Mine(a, x) && a.CloseFile?
    ensures Following(Apply(pfs, w, a).0, d, x)
  {
    CloseOnly(pfs, w, a);
    var w' := Apply(pfs, w, a).0;
    assert x in w.fdMap ==> Site(w', x) == Site(w, x);
    UntouchedFollows(w, w', d, x);
  }

  lemma LateDelivery(pfs: Files, w: World, d: Direct, a: Action, x: LocalFd)
    requires Inv(pfs, w) && Following(w, d, x) && Enabled(pfs, w, a) && x in d
    requires a.DeliverClose? || a.DeliverRead? || a.ServeOpen?
    ensures Tied(Apply(pfs, w, a).0, d, x)
  {
    match a
    case DeliverClose(k) =>
      if x in w.fdMap {
        MessageIsElsewhere(pfs, w, d, k, x);
      }
      DeliverElsewhere(pfs, w, d, k, x);
    case DeliverRead(k) =>
      if x in w.fdMap && w.lateReads[k].offset == -1 {
        LateReadIsElsewhere(pfs, w, d, k, x);
      }
      LateReadElsewhere(pfs, w, d, k, x);
    case ServeOpen(k, fd) =>
      if x in w.fdMap {
        UnservedIsElsewhere(pfs, w, d, k, x);
      }
      ServeElsewhere(pfs, w, d, k, fd, x);
  }

  lemma OtherDelivery(pfs: Files, w: World, d: Direct, a: Action, x: LocalFd)
    requires Inv(pfs, w) && Following(w, d, x) && Enabled(pfs, w, a)
    requires a.DeliverClose? || a.DeliverRead? || a.ServeOpen?
    ensures Following(Apply(pfs, w, a).0, d, x)
  {
    if x in d {
      LateDelivery(pfs, w, d, a, x);
    }
  }

  lemma Unnoticed(pfs: Files, w: World, d: Direct, a: Action, x: LocalFd)
    requires Following(w, d, x) && Enabled(pfs, w, a) && (a.HearOpen? || a.Copied?)
    ensures Following(Apply(pfs, w, a).0, d, x)
  {
    assert Untouched(w, Apply(pfs, w, a).0, x);
  }

  /** Whatever well-routed thing happens to others, x stays where it is. */
  lemma OthersLeaveItAlone(pfs: Files, w: World, d: Direct, a: Action, x: LocalFd)
    requires Inv(pfs, w) && Following(w, d, x) && Enabled(pfs, w, a) && WellRouted(w, a) && !Mine(a, x)
    ensures Following(Apply(pfs, w, a).0, d, x)
  {
    match a
    case OpenFile(_, _, _, _, _) => OtherOpen(pfs, w, d, a, x);
    case OpenTimesOut(_, _, _) => OtherOpen(pfs, w, d, a, x);
    case ReadFile(_, _, _, _) => OtherRead(pfs, w, d, a, x);
    case PreadFile(_, _, _, _, _) => OtherRead(pfs, w, d, a, x);
    case SeekFile(_, _, _, _) => OtherSeek(pfs, w, d, a, x);
    case CloseFile(_, _, _) => OtherClose(pfs, w, d, a, x);
    case HearOpen(_) => Unnoticed(pfs, w, d, a, x);
    case Copied(_, _, _) => Unnoticed(pfs, w, d, a, x);
    case _ => OtherDelivery(pfs, w, d, a, x);
  }

  // ---------------------------------------------------------------------------------------------
  // Its own calls
  // ---------------------------------------------------------------------------------------------

  /** The result is the plain descriptor's, and x stays in step. */
  ghost predicate InStep(pfs: Files, w: World, d: Direct, a: Action, x: LocalFd)
    requires Enabled(pfs, w, a)
  {
    && DirectEnabled(pfs, d, a)
    && Apply(pfs, w, a).1 == DirectApply(pfs, d, a).1
    && Following(Apply(pfs, w, a).0, DirectApply(pfs, d, a).0, x)
  }

  lemma MyOpen(pfs: Files, w: World, d: Direct, a: Action, x: LocalFd)
    requires Inv(pfs, w) && a.OpenFile? && Mine(a, x) && Enabled(pfs, w, a) && Smooth(w, d, a)
    ensures InStep(pfs, w, d, a, x)
  {
    FreshIsUntracked(pfs, w, x);
    OpenHere(pfs, w, d, a);
  }

  lemma MyRead(pfs: Files, w: World, d: Direct, a: Action, x: LocalFd)
    requires Inv(pfs, w) && Following(w, d, x) && a.ReadFile? && Mine(a, x) && Enabled(pfs, w, a) && Smooth(w, d, a)
    ensures InStep(pfs, w, d, a, x)
  {
    if x in w.fdMap {
      NotMinusOne(pfs, w, d, x);
      ReadOne(pfs, w, d, a);
      OwnUpdateHere(w, d, x, HandleRead(w.servers[a.host], Redir(w, x), a.count, -1).0,
                    Posix.Read(d[x], a.count).0);
    }
  }

  lemma KeptTablesFollow(w: World, w': World, d: Direct, x: LocalFd)
    requires Following(w, d, x) && TablesKept(w, w')
    ensures Following(w', d, x)
  {
  }

  lemma MyPread(pfs: Files, w: World, d: Direct, a: Action, x: LocalFd)
    requires Inv(pfs, w) && Following(w, d, x) && a.PreadFile? && Mine(a, x) && Enabled(pfs, w, a) && Smooth(w, d, a)
    ensures InStep(pfs, w, d, a, x)
  {
    if x in w.fdMap {
      NotMinusOne(pfs, w, d, x);
      PreadOne(pfs, w, d, a);
      KeptTablesFollow(w, Apply(pfs, w, a).0, d, x);
    }
  }

  lemma MySeek(pfs: Files, w: World, d: Direct, a: Action, x: LocalFd)
    requires Inv(pfs, w) && Following(w, d, x) && a.SeekFile? && Mine(a, x) && Enabled(pfs, w, a) && Smooth(w, d, a)
    ensures InStep(pfs, w, d, a, x)
  {
    if x in w.fdMap {
      NotMinusOne(pfs, w, d, x);
      SeekOne(pfs, w, d, a);
      OwnUpdateHere(w, d, x, HandleSeek(w.servers[a.host], Redir(w, x), a.offset, a.whence).0,
                    Lseek(d[x], a.offset, a.whence).0);
    }
  }

  lemma MyCall(pfs: Files, w: World, d: Direct, a: Action, x: LocalFd)
    requires Inv(pfs, w) && Following(w, d, x) && Mine(a, x) && Enabled(pfs, w, a) && Smooth(w, d, a)
    ensures InStep(pfs, w, d, a, x)
  {
    match a
    case OpenFile(_, _, _, _, _) => MyOpen(pfs, w, d, a, x);
    case ReadFile(_, _, _, _) => MyRead(pfs, w, d, a, x);
    case PreadFile(_, _, _, _, _) => MyPread(pfs, w, d, a, x);
    case SeekFile(_, _, _, _) => MySeek(pfs, w, d, a, x);
    case CloseFile(_, _, _) => CloseOnly(pfs, w, a);
    case _ =>
  }

  // ---------------------------------------------------------------------------------------------
  // Runs
  // ---------------------------------------------------------------------------------------------

  /** A well-routed run in which x's own calls are failure-free; anything may fail for the others. */
  ghost predicate OwnRun(pfs: Files, w: World, d: Direct, x: LocalFd, actions: seq<Action>)
    decreases |actions|
  {
    actions == [] ||
    (var a := actions[0];
     && Enabled(pfs, w, a) && WellRouted(w, a)
     && (Mine(a, x) ==> Smooth(w, d, a) && DirectEnabled(pfs, d, a))
     && OwnRun(pfs, Apply(pfs, w, a).0, NextDirect(pfs, d, a, x), x, actions[1..]))
  }

  /** The results of x's calls. */
  ghost function OwnOutputs(pfs: Files, w: World, d: Direct, x: LocalFd, actions: seq<Action>): seq<Output>
    requires OwnRun(pfs, w, d, x, actions)
    decreases |actions|
  {
    if actions == [] then []
    else
      (if Mine(actions[0], x) then [Apply(pfs, w, actions[0]).1] else []) +
      OwnOutputs(pfs, Apply(pfs, w, actions[0]).0, NextDirect(pfs, d, actions[0], x), x, actions[1..])
  }

  ghost function PlainOutputs(pfs: Files, w: World, d: Direct, x: LocalFd, actions: seq<Action>): seq<Output>
    requires OwnRun(pfs, w, d, x, actions)
    decreases |actions|
  {
    if actions == [] then []
    else
      (if Mine(actions[0], x) then [DirectApply(pfs, d, actions[0]).1] else []) +
      PlainOutputs(pfs, Apply(pfs, w, actions[0]).0, NextDirect(pfs, d, actions[0], x), x, actions[1..])
  }

  ghost function OwnEnds(pfs: Files, w: World, d: Direct, x: LocalFd, actions: seq<Action>): (World, Direct)
    requires OwnRun(pfs, w, d, x, actions)
    decreases |actions|
  {
    if actions == [] then (w, d)
    else OwnEnds(pfs, Apply(pfs, w, actions[0]).0, NextDirect(pfs, d, actions[0], x), x, actions[1..])
  }

  lemma OwnStep(pfs: Files, w: World, d: Direct, a: Action, x: LocalFd)
    requires Inv(pfs, w) && Following(w, d, x) && Enabled(pfs, w, a) && WellRouted(w, a)
    requires Mine(a, x) ==> Smooth(w, d, a)
    ensures Mine(a, x) ==> DirectEnabled(pfs, d, a) && Apply(pfs, w, a).1 == DirectApply(pfs, d, a).1
    ensures Following(Apply(pfs, w, a).0, NextDirect(pfs, d, a, x), x)
  {
    if Mine(a, x) {
      MyCall(pfs, w, d, a, x);
    } else {
      OthersLeaveItAlone(pfs, w, d, a, x);
    }
  }

  /** Stream refinement, descriptor by descriptor: whatever fails for other descriptors, clients and servers,
      all calls on x return what plain ones do, and its position is the plain one's at the end. */
  lemma {:induction false} OwnStreamRefinement(pfs: Files, w: World, d: Direct, x: LocalFd, actions: seq<Action>)
    requires Inv(pfs, w) && Following(w, d, x) && OwnRun(pfs, w, d, x, actions)
    ensures OwnOutputs(pfs, w, d, x, actions) == PlainOutputs(pfs, w, d, x, actions)
    ensures Following(OwnEnds(pfs, w, d, x, actions).0, OwnEnds(pfs, w, d, x, actions).1, x)
    decreases |actions|
  {
    if actions != [] {
      var a := actions[0];
      OwnStep(pfs, w, d, a, x);
      InvKept(pfs, w, a);
      OwnStreamRefinement(pfs, Apply(pfs, w, a).0, NextDirect(pfs, d, a, x), x, actions[1..]);
    }
  }

  lemma FollowingInit(pfs: Files, hosts: set<Host>, x: LocalFd)
    ensures Inv(pfs, Init(pfs, hosts)) && Following(Init(pfs, hosts), map[], x)
  {
    InvInit(pfs, hosts);
  }

  /** A slow open catches up: when the server opens the file for a client that gave up waiting and has not
      used the descriptor since, it is a plain one at position 0. */
  lemma ServedOpenFollows(pfs: Files, w: World, d: Direct, k: nat, fd: int)
    requires Inv(pfs, w) && Enabled(pfs, w, ServeOpen(k, fd)) && fd != -1
    requires
      var m := w.lateOpens[k];
      m.lfd in w.fdMap && SessionOf(w, m.lfd) == m.session && m.lfd in d && d[m.lfd] == Description(pfs[m.path], 0)
    ensures Following(Apply(pfs, w, ServeOpen(k, fd)).0, d, w.lateOpens[k].lfd)
  {
    var m := w.lateOpens[k];
    assert OfSession(w, m) && Tracked(pfs, w, m.lfd);
    RedirectionIsTransparent(w.servers[m.host], pfs, m.path, fd);
  }
}
