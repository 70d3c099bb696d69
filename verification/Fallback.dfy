/** What is left of the session promises when requests fail: a pread still gives the bytes a plain pread
    gives, and a session the client stopped tracking keeps its server descriptor for ever. */
module Fallback {
  import opened Posix
  import opened Servers
  import opened Sessions
  import opened Refinement

  // ---------------------------------------------------------------------------------------------
  // pread falls back
  // ---------------------------------------------------------------------------------------------

  lemma FailedOpenHasNoDescriptor(pfs: Files, w: World, host: Host)
    requires Inv(pfs, w) && host in w.servers
    ensures -1 !in w.servers[host].table
  {
    assert -1 in w.servers[host].table ==> (host, -1) in w.holder;
  }

  lemma AnsweredPread(s: State, fd: int, count: nat, offset: int)
    requires offset != -1
    ensures fd in s.table ==> HandleRead(s, fd, count, offset).1 == Pread(s.table[fd].content, count, offset)
    ensures fd !in s.table ==> HandleRead(s, fd, count, offset).1 == FAILED
  {
  }

  /** The answer a tracked pread gets from the server, if it asks one. */
  function FromServer(w: World, a: Action): IoResult
    requires a.PreadFile? && a.host in w.servers
  {
    HandleRead(w.servers[a.host], Redir(w, a.lfd), a.count, a.offset).1
  }

  lemma PreadResult(pfs: Files, w: World, a: Action)
    requires a.PreadFile? && Enabled(pfs, w, a)
    ensures Apply(pfs, w, a).1
         == Got(if a.lfd in w.fdMap && a.answer == Reply && 0 <= FromServer(w, a).ret then FromServer(w, a)
                else Pread(w.local[a.lfd].content, a.count, a.offset))
  {
  }

  /** The two files have the same bytes in the range, and the range does not start before them. */
  predicate SameBytes(x: Bytes, y: Bytes, offset: int, count: nat) {
    0 <= offset && Slice(x, offset, count) == Slice(y, offset, count)
  }

  /** In every world at all, whatever the routing and whatever fd_redir_map holds: an answered pread of a
      tracked descriptor gives the local pread's result exactly when the number it sends is not open at the
      server, or the offset is refused by both, or the file behind that number has the same bytes there. */
  lemma AnsweredPreadExactly(pfs: Files, w: World, a: Action)
    requires a.PreadFile? && Enabled(pfs, w, a) && a.lfd in w.fdMap && a.answer == Reply
    ensures
      var table := w.servers[a.host].table;
      var fd := Redir(w, a.lfd);
      Apply(pfs, w, a).1 == Got(Pread(w.local[a.lfd].content, a.count, a.offset)) <==>
        (fd in table ==> a.offset < -1 || SameBytes(table[fd].content, w.local[a.lfd].content, a.offset, a.count))
  {
    PreadResult(pfs, w, a);
    if a.offset != -1 {
      AnsweredPread(w.servers[a.host], Redir(w, a.lfd), a.count, a.offset);
    } else if Redir(w, a.lfd) in w.servers[a.host].table {
      SentinelReads(w.servers[a.host], Redir(w, a.lfd), a.count);
    }
  }

  /** Whether the file is tracked or not, the open had failed, the pread's answer was lost, the request
      reached the host that answered the open, or it went elsewhere and failed there: the result is the
      local pread's. */
  lemma PreadIsTransparent(pfs: Files, w: World, a: Action)
    requires Inv(pfs, w) && a.PreadFile? && Enabled(pfs, w, a) && WellRouted(w, a) && a.offset != -1
    ensures Apply(pfs, w, a).1 == Got(Pread(w.local[a.lfd].content, a.count, a.offset))
  {
    PreadResult(pfs, w, a);
    AnsweredPread(w.servers[a.host], Redir(w, a.lfd), a.count, a.offset);
    if a.lfd in w.fdMap && Reaches(w, a.lfd, a.host) {
      if Redir(w, a.lfd) == -1 {
        FailedOpenHasNoDescriptor(pfs, w, a.host);
      } else {
        ReachingIsClean(pfs, w, a.lfd, a.host);
      }
    }
  }

  lemma SentinelReads(s: State, fd: int, count: nat)
    requires fd in s.table
    ensures 0 <= HandleRead(s, fd, count, -1).1.ret
  {
  }

  /** Offset -1 is the wire's mark for read, so the promise ends exactly there: an answered pread on an
      open remote descriptor is transparent for every offset but -1, where a plain pread fails. */
  lemma PreadTransparentExactly(pfs: Files, w: World, a: Action)
    requires Inv(pfs, w) && a.PreadFile? && Enabled(pfs, w, a)
    requires a.lfd in w.fdMap && a.answer == Reply && Reaches(w, a.lfd, a.host) && Redir(w, a.lfd) != -1
    ensures Apply(pfs, w, a).1 == Got(Pread(w.local[a.lfd].content, a.count, a.offset)) <==> a.offset != -1
  {
    if a.offset != -1 {
      PreadIsTransparent(pfs, w, a);
    } else {
      PreadResult(pfs, w, a);
      ReachingIsClean(pfs, w, a.lfd, a.host);
      SentinelReads(w.servers[a.host], Redir(w, a.lfd), a.count);
    }
  }

  /** Below -1 nothing is wrong with the result, but the server's refusal is taken for a failure: the
      descriptor is tracked afterwards exactly when the offset was not negative (or was -1). */
  lemma NegativeOffsetStopsTracking(pfs: Files, w: World, a: Action)
    requires Inv(pfs, w) && a.PreadFile? && Enabled(pfs, w, a)
    requires a.lfd in w.fdMap && a.answer == Reply && Reaches(w, a.lfd, a.host) && Redir(w, a.lfd) != -1
    ensures a.lfd in Apply(pfs, w, a).0.fdMap <==> -1 <= a.offset
  {
    ReachingIsClean(pfs, w, a.lfd, a.host);
    if a.offset == -1 {
      SentinelReads(w.servers[a.host], Redir(w, a.lfd), a.count);
    } else {
      AnsweredPread(w.servers[a.host], Redir(w, a.lfd), a.count, a.offset);
    }
  }

  // ---------------------------------------------------------------------------------------------
  // read falls back too
  // ---------------------------------------------------------------------------------------------

  /** While a file is tracked its local descriptor is where open left it. */
  ghost predicate LocalsAtStart(w: World) {
    forall lfd | lfd in w.fdMap :: lfd in w.local && w.local[lfd].offset == 0
  }

  lemma RemoteReadStaysAtStart(w: World, lfd: LocalFd, count: nat, offset: int, host: Host, answer: Wait)
    requires LocalsAtStart(w) && host in w.servers
    ensures
      var (w', r) := RemoteRead(w, lfd, count, offset, host, answer);
      LocalsAtStart(w') && w'.local == w.local && (r.ret < 0 ==> lfd !in w'.fdMap)
  {
  }

  lemma RequestStaysAtStart(pfs: Files, w: World, a: Action)
    requires LocalsAtStart(w) && Enabled(pfs, w, a) && (a.ReadFile? || a.PreadFile?)
    ensures LocalsAtStart(Apply(pfs, w, a).0)
  {
    RemoteReadStaysAtStart(w, a.lfd, a.count, if a.ReadFile? then -1 else a.offset, a.host, a.answer);
  }

  lemma CloseStaysAtStart(pfs: Files, w: World, a: Action)
    requires LocalsAtStart(w) && Enabled(pfs, w, a) && a.CloseFile?
    ensures LocalsAtStart(Apply(pfs, w, a).0)
  {
    CloseInSteps(pfs, w, a.lfd, a.host, a.sent);
  }

  lemma SeekStaysAtStart(pfs: Files, w: World, a: Action)
    requires LocalsAtStart(w) && Enabled(pfs, w, a) && a.SeekFile?
    ensures LocalsAtStart(Apply(pfs, w, a).0)
  {
  }

  lemma StartStep(pfs: Files, w: World, a: Action)
    requires LocalsAtStart(w) && Enabled(pfs, w, a)
    ensures LocalsAtStart(Apply(pfs, w, a).0)
  {
    if a.ReadFile? || a.PreadFile? {
      RequestStaysAtStart(pfs, w, a);
    } else if a.CloseFile? {
      CloseStaysAtStart(pfs, w, a);
    } else if a.SeekFile? {
      SeekStaysAtStart(pfs, w, a);
    }
  }

  lemma {:induction false} LocalsAlwaysAtStart(pfs: Files, w: World, actions: seq<Action>)
    requires LocalsAtStart(w) && IsRun(pfs, w, actions)
    ensures LocalsAtStart(After(pfs, w, actions))
    decreases |actions|
  {
    if actions != [] {
      StartStep(pfs, w, actions[0]);
      LocalsAlwaysAtStart(pfs, Apply(pfs, w, actions[0]).0, actions[1..]);
    }
  }

  predicate AlikeAt(content: Bytes, i: nat, j: nat, k: nat) {
    && (i + k < |content| <==> j + k < |content|)
    && (i + k < |content| ==> content[i + k] == content[j + k])
  }

  /** The file reads the same from both positions, as far as count goes: the same bytes, and its end in the
      same place. */
  predicate ReadsAlike(content: Bytes, i: nat, j: nat, count: nat) {
    forall k: nat | k < count :: AlikeAt(content, i, j, k)
  }

  lemma AlikeLengths(content: Bytes, i: nat, j: nat, count: nat)
    requires ReadsAlike(content, i, j, count)
    ensures |Slice(content, i, count)| <= |Slice(content, j, count)|
  {
    var n := |Slice(content, j, count)|;
    assert n < count ==> AlikeAt(content, i, j, n);
  }

  lemma AlikeReversed(content: Bytes, i: nat, j: nat, count: nat)
    requires ReadsAlike(content, i, j, count)
    ensures ReadsAlike(content, j, i, count)
  {
    forall k: nat | k < count ensures AlikeAt(content, j, i, k) {
      assert AlikeAt(content, i, j, k);
    }
  }

  lemma SliceAt(content: Bytes, i: nat, count: nat, k: nat)
    requires k < count
    ensures k < |Slice(content, i, count)| <==> i + k < |content|
    ensures k < |Slice(content, i, count)| ==> Slice(content, i, count)[k] == content[i + k]
  {
  }

  lemma AlikeExactly(content: Bytes, i: nat, j: nat, count: nat)
    ensures Slice(content, i, count) == Slice(content, j, count) <==> ReadsAlike(content, i, j, count)
  {
    var x, y := Slice(content, i, count), Slice(content, j, count);
    if x == y {
      forall k: nat | k < count ensures AlikeAt(content, i, j, k) {
        SliceAt(content, i, count, k);
        SliceAt(content, j, count, k);
      }
    }
    if ReadsAlike(content, i, j, count) {
      AlikeLengths(content, i, j, count);
      AlikeReversed(content, i, j, count);
      AlikeLengths(content, j, i, count);
      forall k | 0 <= k < |x| ensures x[k] == y[k] {
        SliceAt(content, i, count, k);
        SliceAt(content, j, count, k);
        assert AlikeAt(content, i, j, k);
      }
    }
  }

  /** The same file read from its start and from another position. */
  lemma ReadFromTheStart(local: Description, plain: Description, count: nat)
    requires local.content == plain.content && local.offset == 0
    ensures Gives(Read(local, count).1, plain.content, 0, count)
    ensures Read(local, count).0 == Description(plain.content, Read(local, count).1.ret)
    ensures Read(local, count).1 == Read(plain, count).1 <==> ReadsAlike(plain.content, 0, plain.offset, count)
  {
    AlikeExactly(plain.content, 0, plain.offset, count);
  }

  lemma TrackedContents(pfs: Files, w: World, d: Direct, lfd: LocalFd)
    requires Inv(pfs, w) && Same(w, d) && lfd in w.fdMap && lfd in w.local
    ensures lfd in d && w.local[lfd].content == d[lfd].content
  {
    assert Tracked(pfs, w, lfd) && Tied(w, d, lfd);
    NotMinusOne(pfs, w, d, lfd);
    assert Held(pfs, w, SessionOf(w, lfd));
  }

  lemma LostRead(pfs: Files, w: World, a: Action)
    requires a.ReadFile? && Enabled(pfs, w, a) && a.lfd in w.fdMap && a.answer != Reply
    ensures
      var (w', out) := Apply(pfs, w, a);
      && out == Got(Read(w.local[a.lfd], a.count).1)
      && a.lfd !in w'.fdMap && a.lfd in w'.local && w'.local[a.lfd] == Read(w.local[a.lfd], a.count).0
  {
  }

  lemma PlainRead(pfs: Files, d: Direct, a: Action)
    requires a.ReadFile? && DirectEnabled(pfs, d, a)
    ensures DirectApply(pfs, d, a).1 == Got(Read(d[a.lfd], a.count).1)
  {
  }

  /** A read whose answer is lost is done again on the local descriptor, which has stood at the start of the
      file all the time: it gives the file's first bytes, and so does what a plain read would exactly when
      the file reads the same from there as from the plain position. */
  lemma LostReadExactly(pfs: Files, w: World, d: Direct, a: Action)
    requires Inv(pfs, w) && Same(w, d) && LocalsAtStart(w) && a.ReadFile? && Enabled(pfs, w, a)
    requires a.lfd in w.fdMap && a.answer != Reply
    ensures a.lfd in d
    ensures
      var (w', out) := Apply(pfs, w, a);
      && out.Got? && Gives(out.r, d[a.lfd].content, 0, a.count)
      && a.lfd !in w'.fdMap && a.lfd in w'.local
      && w'.local[a.lfd].content == d[a.lfd].content && w'.local[a.lfd].offset == out.r.ret
      && (out == DirectApply(pfs, d, a).1 <==> ReadsAlike(d[a.lfd].content, 0, d[a.lfd].offset, a.count))
  {
    TrackedContents(pfs, w, d, a.lfd);
    LostRead(pfs, w, a);
    PlainRead(pfs, d, a);
    ReadFromTheStart(w.local[a.lfd], d[a.lfd], a.count);
  }

  /** The read whose caller gave up is served all the same, and moves the position of the descriptor it
      names by what it finds there. */
  lemma LateReadMovesItsDescriptor(pfs: Files, w: World, a: Action)
    requires a.ReadFile? && Enabled(pfs, w, a) && a.lfd in w.fdMap && a.answer == TimedOut
    requires Redir(w, a.lfd) in w.servers[a.host].table
    ensures
      var w1 := Apply(pfs, w, a).0;
      && w1.servers == w.servers && Enabled(pfs, w1, DeliverRead(|w.lateReads|))
      && var table := Apply(pfs, w1, DeliverRead(|w.lateReads|)).0.servers[a.host].table;
         var before, fd := w.servers[a.host].table[Redir(w, a.lfd)], Redir(w, a.lfd);
         && fd in table && table[fd].content == before.content
         && before.offset <= table[fd].offset <= before.offset + a.count
         && (before.offset < table[fd].offset ==> table[fd].offset <= |before.content|)
         && (table[fd].offset < before.offset + a.count ==> |before.content| <= table[fd].offset)
  {
  }

  // ---------------------------------------------------------------------------------------------
  // Whole runs with failures
  // ---------------------------------------------------------------------------------------------

  /** The application's descriptors are on the files the plain descriptors are on. */
  ghost predicate Matching(w: World, d: Direct) {
    w.local.Keys == d.Keys && forall lfd | lfd in d :: w.local[lfd].content == d[lfd].content
  }

  ghost predicate SameFiles(w: World, w': World) {
    w'.local.Keys == w.local.Keys && forall lfd | lfd in w.local :: w'.local[lfd].content == w.local[lfd].content
  }

  lemma RemoteReadKeepsFiles(w: World, lfd: LocalFd, count: nat, offset: int, host: Host, answer: Wait)
    requires host in w.servers
    ensures RemoteRead(w, lfd, count, offset, host, answer).0.local == w.local
  {
  }

  lemma SeekKeepsFiles(pfs: Files, w: World, a: Action)
    requires Enabled(pfs, w, a) && a.SeekFile?
    ensures SameFiles(w, Apply(pfs, w, a).0)
  {
  }

  lemma ReadKeepsFiles(pfs: Files, w: World, a: Action)
    requires Enabled(pfs, w, a) && (a.ReadFile? || a.PreadFile?)
    ensures SameFiles(w, Apply(pfs, w, a).0)
  {
    RemoteReadKeepsFiles(w, a.lfd, a.count, if a.ReadFile? then -1 else a.offset, a.host, a.answer);
  }

  lemma RequestsKeepFiles(pfs: Files, w: World, a: Action)
    requires Enabled(pfs, w, a) && !a.OpenFile? && !a.OpenTimesOut? && !a.CloseFile?
    ensures SameFiles(w, Apply(pfs, w, a).0)
  {
    if a.ReadFile? || a.PreadFile? {
      ReadKeepsFiles(pfs, w, a);
    } else if a.SeekFile? {
      SeekKeepsFiles(pfs, w, a);
    } else {
      assert Apply(pfs, w, a).0.local == w.local;
    }
  }

  lemma DirectKeepsFiles(pfs: Files, d: Direct, a: Action)
    requires DirectEnabled(pfs, d, a) && !a.OpenFile? && !a.OpenTimesOut? && !a.CloseFile?
    ensures DirectApply(pfs, d, a).0.Keys == d.Keys
    ensures forall lfd | lfd in d :: DirectApply(pfs, d, a).0[lfd].content == d[lfd].content
  {
  }

  lemma OpenAndCloseFiles(pfs: Files, w: World, a: Action)
    requires Enabled(pfs, w, a)
    ensures a.OpenFile? || a.OpenTimesOut? ==> Apply(pfs, w, a).0.local == w.local[a.lfd := Description(pfs[a.path], 0)]
    ensures a.CloseFile? ==> Apply(pfs, w, a).0.local == w.local - {a.lfd}
  {
  }

  lemma MatchingKept(pfs: Files, w: World, d: Direct, a: Action)
    requires Matching(w, d) && Enabled(pfs, w, a)
    ensures DirectEnabled(pfs, d, a)
    ensures Matching(Apply(pfs, w, a).0, DirectApply(pfs, d, a).0)
  {
    if a.OpenFile? || a.OpenTimesOut? || a.CloseFile? {
      OpenAndCloseFiles(pfs, w, a);
    } else {
      RequestsKeepFiles(pfs, w, a);
      DirectKeepsFiles(pfs, d, a);
    }
  }

  ghost predicate IsDirectRun(pfs: Files, d: Direct, actions: seq<Action>)
    decreases |actions|
  {
    actions == [] ||
    (DirectEnabled(pfs, d, actions[0]) && IsDirectRun(pfs, DirectApply(pfs, d, actions[0]).0, actions[1..]))
  }

  predicate IsPread(a: Action) {
    a.PreadFile? && a.offset != -1
  }

  /** The results of a run's preads, in order. */
  ghost function Preads(pfs: Files, w: World, actions: seq<Action>): seq<Output>
    requires IsRun(pfs, w, actions)
    decreases |actions|
  {
    if actions == [] then []
    else
      (if IsPread(actions[0]) then [Apply(pfs, w, actions[0]).1] else []) +
      Preads(pfs, Apply(pfs, w, actions[0]).0, actions[1..])
  }

  ghost function DirectPreads(pfs: Files, d: Direct, actions: seq<Action>): seq<Output>
    requires IsDirectRun(pfs, d, actions)
    decreases |actions|
  {
    if actions == [] then []
    else
      (if IsPread(actions[0]) then [DirectApply(pfs, d, actions[0]).1] else []) +
      DirectPreads(pfs, DirectApply(pfs, d, actions[0]).0, actions[1..])
  }

  lemma PreadStep(pfs: Files, w: World, d: Direct, a: Action)
    requires Inv(pfs, w) && Matching(w, d) && Enabled(pfs, w, a) && WellRouted(w, a)
    ensures DirectEnabled(pfs, d, a)
    ensures IsPread(a) ==> Apply(pfs, w, a).1 == DirectApply(pfs, d, a).1
  {
    if IsPread(a) {
      PreadIsTransparent(pfs, w, a);
    }
  }

  /** Over any run in which answered preads go to the host that answered their open, or fail, every pread
      returns what a plain pread would, whatever else goes wrong: opens refused or timed out, answers lost,
      descriptors dropped mid-session, closes withheld or late. */
  lemma {:induction false} PreadsAreTransparent(pfs: Files, w: World, d: Direct, actions: seq<Action>)
    requires Inv(pfs, w) && Matching(w, d) && IsRun(pfs, w, actions)
    ensures IsDirectRun(pfs, d, actions) && Preads(pfs, w, actions) == DirectPreads(pfs, d, actions)
    decreases |actions|
  {
    if actions != [] {
      var a := actions[0];
      PreadStep(pfs, w, d, a);
      InvKept(pfs, w, a);
      MatchingKept(pfs, w, d, a);
      PreadsAreTransparent(pfs, Apply(pfs, w, a).0, DirectApply(pfs, d, a).0, actions[1..]);
    }
  }

  // ---------------------------------------------------------------------------------------------
  // Opens that time out
  // ---------------------------------------------------------------------------------------------

  /** No open has timed out so far, and no answer of one is still to come. */
  ghost predicate AllAnswered(w: World) {
    w.adrift == {} && w.lateOpens == []
  }

  /** The condition a client can check: as long as none of its waits for an open times out, every tracked
      descriptor has the answer to its own open, and a request reaches that server exactly when it is routed
      there. */
  lemma {:induction false} AnsweredOpensNeverDrift(pfs: Files, w: World, actions: seq<Action>)
    requires AllAnswered(w) && IsRun(pfs, w, actions)
    requires forall k | 0 <= k < |actions| :: !actions[k].OpenTimesOut?
    ensures AllAnswered(After(pfs, w, actions))
    ensures
      var w' := After(pfs, w, actions);
      forall lfd, host :: Reaches(w', lfd, host) <==> Hosted(w', lfd, host)
    decreases |actions|
  {
    if actions != [] {
      assert !actions[0].OpenTimesOut?;
      NothingDrifts(pfs, w, actions[0]);
      AnsweredOpensNeverDrift(pfs, Apply(pfs, w, actions[0]).0, actions[1..]);
    }
  }

  lemma RequestsDriftNothing(pfs: Files, w: World, a: Action)
    requires AllAnswered(w) && Enabled(pfs, w, a) && (a.ReadFile? || a.PreadFile?)
    ensures AllAnswered(Apply(pfs, w, a).0)
  {
    RemoteReadClient(w, a.lfd, a.count, if a.ReadFile? then -1 else a.offset, a.host, a.answer);
  }

  lemma NothingDrifts(pfs: Files, w: World, a: Action)
    requires AllAnswered(w) && Enabled(pfs, w, a) && !a.OpenTimesOut?
    ensures AllAnswered(Apply(pfs, w, a).0)
  {
    if a.ReadFile? || a.PreadFile? {
      RequestsDriftNothing(pfs, w, a);
    }
  }

  /** The answer to a timed-out open, come late: from then on the descriptor's requests reach the host that
      served it like those of any other. */
  lemma LateAnswerMakesItReach(pfs: Files, w: World, k: nat)
    requires Inv(pfs, w) && Enabled(pfs, w, HearOpen(k))
    requires w.lateOpens[k].lfd in w.fdMap && SessionOf(w, w.lateOpens[k].lfd) == w.lateOpens[k].session
    ensures
      var m, w' := w.lateOpens[k], Apply(pfs, w, HearOpen(k)).0;
      && m.session < |w.sessions| && Reaches(w', m.lfd, w.sessions[m.session].host)
      && Redir(w', m.lfd) == m.fd == w.sessions[m.session].fd
  {
    assert OfSession(w, w.lateOpens[k]);
  }

  const X: LocalFd := LocalFd(0, 3)
  const Y: LocalFd := LocalFd(0, 4)

  lemma OpenStartsBoth(pfs: Files, a: Path, h: Host)
    requires a in pfs
    ensures Enabled(pfs, Init(pfs, {h}), OpenFile(X, a, true, h, 5))
    ensures
      var w := Apply(pfs, Init(pfs, {h}), OpenFile(X, a, true, h, 5)).0;
      && X in w.fdMap && X in w.local && w.local[X] == Description(pfs[a], 0) && Redir(w, X) == 5
      && h in w.servers && 5 in w.servers[h].table && w.servers[h].table[5] == Description(pfs[a], 0)
      && Reaches(w, X, h)
  {
  }

  lemma AnsweredRead(pfs: Files, w: World, count: nat, h: Host, d: Description)
    requires X in w.fdMap && X in w.local && Redir(w, X) == 5 && count <= INT32_MAX && Reaches(w, X, h)
    requires h in w.servers && 5 in w.servers[h].table && w.servers[h].table[5] == d
    ensures Enabled(pfs, w, ReadFile(X, count, h, Reply)) && WellRouted(w, ReadFile(X, count, h, Reply))
    ensures
      var (w', out) := Apply(pfs, w, ReadFile(X, count, h, Reply));
      && out == Got(Read(d, count).1) && w'.local == w.local && X in w'.fdMap && Reaches(w', X, h)
      && h in w'.servers && Redir(w', X) == 5
      && 5 in w'.servers[h].table && w'.servers[h].table[5] == Read(d, count).0
  {
  }

  /** A run from the start: a file is opened and read, and the answer to the next read is lost. That read then
      gives the first bytes once more, although the server's position, and a plain descriptor's, is behind
      them. */
  lemma LostReadStartsOver(pfs: Files, a: Path, h: Host, count: nat)
    requires a in pfs && count <= INT32_MAX
    ensures IsRun(pfs, Init(pfs, {h}), [OpenFile(X, a, true, h, 5)] + [ReadFile(X, count, h, Reply)])
    ensures
      var w := After(pfs, Init(pfs, {h}), [OpenFile(X, a, true, h, 5)] + [ReadFile(X, count, h, Reply)]);
      var lost := ReadFile(X, count, h, TimedOut);
      && Enabled(pfs, w, lost) && WellRouted(w, lost)
      && var out := Apply(pfs, w, lost).1;
         out.Got? && Gives(out.r, pfs[a], 0, count)
         && h in w.servers && 5 in w.servers[h].table && w.servers[h].table[5] == Description(pfs[a], out.r.ret)
  {
    var w0, open, read := Init(pfs, {h}), OpenFile(X, a, true, h, 5), ReadFile(X, count, h, Reply);
    OpenStartsBoth(pfs, a, h);
    OneMoreStep(pfs, w0, [], open);
    assert [] + [open] == [open];
    var w1 := Apply(pfs, w0, open).0;
    AnsweredRead(pfs, w1, count, h, Description(pfs[a], 0));
    OneMoreStep(pfs, w0, [open], read);
    LostRead(pfs, Apply(pfs, w1, read).0, ReadFile(X, count, h, TimedOut));
    ReadFromTheStart(Description(pfs[a], 0), Description(pfs[a], 0), count);
  }

  /** A file opened and closed after its pread timed out, then another one opened on the same descriptor,
      whose open times out as well. */
  function StaleEntry(a: Path, b: Path, h: Host): seq<Action> {
    [OpenFile(X, a, true, h, 5)] + [PreadFile(X, 0, 0, h, TimedOut)] + [CloseFile(X, h, true)]
    + [OpenTimesOut(X, b, h)]
  }

  /** fd_redir_map sends the descriptor to number fd of host h, and that is a's; no close is on its way. */
  ghost predicate Entry(pfs: Files, w: World, lfd: LocalFd, h: Host, fd: int, a: Path)
    requires a in pfs
  {
    && Redir(w, lfd) == fd && h in w.servers && fd in w.servers[h].table && w.servers[h].table[fd].content == pfs[a]
    && w.inFlight == []
  }

  /** The first session got that number. */
  ghost predicate First(w: World, h: Host, fd: int, a: Path, phase: Phase) {
    w.sessions != [] && w.sessions[0] == Session(h, fd, a, phase)
  }

  lemma OpenMakesEntry(pfs: Files, lfd: LocalFd, a: Path, h: Host, fd: nat)
    requires a in pfs
    ensures Enabled(pfs, Init(pfs, {h}), OpenFile(lfd, a, true, h, fd))
    ensures
      var w := Apply(pfs, Init(pfs, {h}), OpenFile(lfd, a, true, h, fd)).0;
      && Entry(pfs, w, lfd, h, fd, a) && Reaches(w, lfd, h) && First(w, h, fd, a, Live(lfd)) && |w.sessions| == 1
      && w.local.Keys == {lfd} && w.fdMap.Keys == {lfd} && w.redir.Keys == {lfd} && SessionOf(w, lfd) == 0
  {
  }

  lemma EntryOutlives(pfs: Files, w: World, lfd: LocalFd, h: Host, fd: int, a: Path)
    requires a in pfs && Entry(pfs, w, lfd, h, fd, a) && lfd in w.fdMap && lfd in w.local
    requires First(w, h, fd, a, Live(lfd)) && SessionOf(w, lfd) == 0
    ensures Enabled(pfs, w, PreadFile(lfd, 0, 0, h, TimedOut))
    ensures
      var w1 := Apply(pfs, w, PreadFile(lfd, 0, 0, h, TimedOut)).0;
      && Enabled(pfs, w1, CloseFile(lfd, h, true)) && lfd !in w1.fdMap
      && var w2 := Apply(pfs, w1, CloseFile(lfd, h, true)).0;
         Entry(pfs, w2, lfd, h, fd, a) && lfd !in w2.local && First(w2, h, fd, a, Leaked)
  {
  }

  lemma TimedOutOpenKeepsEntry(pfs: Files, w: World, lfd: LocalFd, h: Host, fd: int, a: Path, b: Path, phase: Phase)
    requires a in pfs && b in pfs && Entry(pfs, w, lfd, h, fd, a) && lfd !in w.local && First(w, h, fd, a, phase)
    ensures Enabled(pfs, w, OpenTimesOut(lfd, b, h))
    ensures
      var w1 := Apply(pfs, w, OpenTimesOut(lfd, b, h)).0;
      && Entry(pfs, w1, lfd, h, fd, a) && Hosted(w1, lfd, h) && lfd in w1.fdMap && First(w1, h, fd, a, phase)
      && lfd in w1.local && w1.local[lfd].content == pfs[b] && SessionOf(w1, lfd) == |w.sessions|
      && forall y | y != lfd && y in w.fdMap :: y in w1.fdMap && SessionOf(w1, y) == SessionOf(w, y)
  {
  }

  lemma EntryIsRead(pfs: Files, w: World, lfd: LocalFd, h: Host, fd: int, a: Path, count: nat, offset: nat)
    requires a in pfs && Entry(pfs, w, lfd, h, fd, a) && lfd in w.fdMap && lfd in w.local && count <= INT32_MAX
    ensures Enabled(pfs, w, PreadFile(lfd, count, offset, h, Reply))
    ensures Apply(pfs, w, PreadFile(lfd, count, offset, h, Reply)).1 == Got(Pread(pfs[a], count, offset))
  {
    PreadResult(pfs, w, PreadFile(lfd, count, offset, h, Reply));
    AnsweredPread(w.servers[h], fd, count, offset);
  }

  lemma StaleEntryRun(pfs: Files, a: Path, b: Path, h: Host)
    requires a in pfs && b in pfs
    ensures IsRun(pfs, Init(pfs, {h}), StaleEntry(a, b, h))
    ensures
      var w := After(pfs, Init(pfs, {h}), StaleEntry(a, b, h));
      && Entry(pfs, w, X, h, 5, a) && First(w, h, 5, a, Leaked) && Hosted(w, X, h)
      && X in w.fdMap && X in w.local && w.local[X].content == pfs[b] && SessionOf(w, X) > 0
  {
    var w0 := Init(pfs, {h});
    var a1, a2, a3, a4 := OpenFile(X, a, true, h, 5), PreadFile(X, 0, 0, h, TimedOut), CloseFile(X, h, true),
      OpenTimesOut(X, b, h);
    OpenMakesEntry(pfs, X, a, h, 5);
    OneMoreStep(pfs, w0, [], a1);
    assert [] + [a1] == [a1];
    var w1 := Apply(pfs, w0, a1).0;
    EntryOutlives(pfs, w1, X, h, 5, a);
    OneMoreStep(pfs, w0, [a1], a2);
    var w2 := Apply(pfs, w1, a2).0;
    OneMoreStep(pfs, w0, [a1] + [a2], a3);
    var w3 := Apply(pfs, w2, a3).0;
    TimedOutOpenKeepsEntry(pfs, w3, X, h, 5, a, b, Leaked);
    OneMoreStep(pfs, w0, [a1] + [a2] + [a3], a4);
  }

  /** fd_redir_map keeps an entry whose close was never sent, so after an open that timed out the next pread
      sends the earlier file's number, to the very host its own open went to, and returns that file's bytes. */
  lemma TimedOutOpenReadsTheOldFile(pfs: Files, a: Path, b: Path, h: Host, count: nat, offset: nat)
    requires a in pfs && b in pfs && count <= INT32_MAX
    ensures IsRun(pfs, Init(pfs, {h}), StaleEntry(a, b, h))
    ensures
      var w := After(pfs, Init(pfs, {h}), StaleEntry(a, b, h));
      var pread := PreadFile(X, count, offset, h, Reply);
      && Enabled(pfs, w, pread) && Hosted(w, X, h)
      && w.local[X].content == pfs[b]
      && Apply(pfs, w, pread).1 == Got(Pread(pfs[a], count, offset))
  {
    StaleEntryRun(pfs, a, b, h);
    EntryIsRead(pfs, After(pfs, Init(pfs, {h}), StaleEntry(a, b, h)), X, h, 5, a, count, offset);
  }

  /** Closing a descriptor and opening it again without an answer, in any world: the next request names 0 if the
      close was sent, and otherwise still the number of the file the descriptor had before. */
  lemma EntryAfterReopening(pfs: Files, w: World, lfd: LocalFd, host: Host, sent: bool, b: Path)
    requires Enabled(pfs, w, CloseFile(lfd, host, sent)) && b in pfs
    ensures
      var w1 := Apply(pfs, w, CloseFile(lfd, host, sent)).0;
      && Enabled(pfs, w1, OpenTimesOut(lfd, b, host))
      && var w2 := Apply(pfs, w1, OpenTimesOut(lfd, b, host)).0;
         && lfd in w2.fdMap && w2.fdMap[lfd] == b
         && if lfd in w.fdMap && sent then Redir(w2, lfd) == 0 else Redir(w2, lfd) == Redir(w, lfd)
  {
    CloseInSteps(pfs, w, lfd, host, sent);
  }

  lemma StaleClose(pfs: Files, w: World, h: Host, a: Path)
    requires a in pfs && Entry(pfs, w, X, h, 5, a) && First(w, h, 5, a, Leaked)
    requires X in w.fdMap && X in w.local && SessionOf(w, X) > 0
    ensures Enabled(pfs, w, CloseFile(X, h, true))
    ensures
      var w1 := Apply(pfs, w, CloseFile(X, h, true)).0;
      && Enabled(pfs, w1, DeliverClose(0))
      && var w2 := Apply(pfs, w1, DeliverClose(0)).0;
         First(w2, h, 5, a, Leaked) && !IsOpen(w2.servers, (h, 5))
  {
    SentThenDelivered(pfs, w, X, h);
    HandleCloseCloses(w.servers, h, 5, (h, 5));
  }

  /** The same stale entry closes a dropped session's descriptor: the close of the descriptor's next file, whose
      open timed out, names it. */
  lemma DroppedSessionClosedByAnother(pfs: Files, a: Path, b: Path, h: Host)
    requires a in pfs && b in pfs
    ensures FreeRun(pfs, Init(pfs, {h}), StaleEntry(a, b, h) + [CloseFile(X, h, true)] + [DeliverClose(0)])
    ensures
      var w := Ending(pfs, Init(pfs, {h}), StaleEntry(a, b, h) + [CloseFile(X, h, true)] + [DeliverClose(0)]);
      First(w, h, 5, a, Leaked) && !IsOpen(w.servers, (h, 5))
  {
    var w0 := Init(pfs, {h});
    StaleEntryRun(pfs, a, b, h);
    RunIsFree(pfs, w0, StaleEntry(a, b, h));
    StaleClose(pfs, Ending(pfs, w0, StaleEntry(a, b, h)), h, a);
    OneMoreFree(pfs, w0, StaleEntry(a, b, h), CloseFile(X, h, true));
    OneMoreFree(pfs, w0, StaleEntry(a, b, h) + [CloseFile(X, h, true)], DeliverClose(0));
  }

  function ZeroEntry(a: Path, b: Path, h: Host): seq<Action> {
    [OpenFile(Y, a, true, h, 0)] + [OpenTimesOut(X, b, h)]
  }

  lemma ZeroEntryRun(pfs: Files, a: Path, b: Path, h: Host)
    requires a in pfs && b in pfs
    ensures IsRun(pfs, Init(pfs, {h}), ZeroEntry(a, b, h))
    ensures
      var w := After(pfs, Init(pfs, {h}), ZeroEntry(a, b, h));
      && Entry(pfs, w, X, h, 0, a) && First(w, h, 0, a, Live(Y)) && Hosted(w, X, h)
      && X in w.fdMap && X in w.local && w.local[X].content == pfs[b]
      && Y in w.fdMap && SessionOf(w, Y) == 0
  {
    var w0 := Init(pfs, {h});
    var a1, a2 := OpenFile(Y, a, true, h, 0), OpenTimesOut(X, b, h);
    OpenMakesEntry(pfs, Y, a, h, 0);
    OneMoreStep(pfs, w0, [], a1);
    assert [] + [a1] == [a1];
    TimedOutOpenKeepsEntry(pfs, Apply(pfs, w0, a1).0, X, h, 0, a, b, Live(Y));
    OneMoreStep(pfs, w0, [a1], a2);
  }

  /** Without an earlier entry the missing one reads as 0, and descriptor 0 of the server is read. */
  lemma TimedOutOpenReadsDescriptorZero(pfs: Files, a: Path, b: Path, h: Host, count: nat, offset: nat)
    requires a in pfs && b in pfs && count <= INT32_MAX
    ensures IsRun(pfs, Init(pfs, {h}), ZeroEntry(a, b, h))
    ensures
      var w := After(pfs, Init(pfs, {h}), ZeroEntry(a, b, h));
      var pread := PreadFile(X, count, offset, h, Reply);
      && Enabled(pfs, w, pread) && Hosted(w, X, h)
      && w.local[X].content == pfs[b]
      && Apply(pfs, w, pread).1 == Got(Pread(pfs[a], count, offset))
  {
    ZeroEntryRun(pfs, a, b, h);
    EntryIsRead(pfs, After(pfs, Init(pfs, {h}), ZeroEntry(a, b, h)), X, h, 0, a, count, offset);
  }

  /** In that state a close of X ends Y's session's descriptor while Y is in use, and a seek of X moves Y's
      position. */
  lemma TimedOutOpenHarmsDescriptorZero(pfs: Files, a: Path, b: Path, h: Host, offset: nat)
    requires a in pfs && b in pfs && offset <= INT32_MAX
    ensures IsRun(pfs, Init(pfs, {h}), ZeroEntry(a, b, h))
    ensures
      var w := After(pfs, Init(pfs, {h}), ZeroEntry(a, b, h));
      && Y in w.fdMap && Site(w, Y) == (h, 0)
      && Enabled(pfs, w, CloseFile(X, h, true)) && Enabled(pfs, w, SeekFile(X, offset, SEEK_SET, h))
      && var closing := Apply(pfs, w, CloseFile(X, h, true)).0;
         var sought := Apply(pfs, w, SeekFile(X, offset, SEEK_SET, h)).0;
         && Enabled(pfs, closing, DeliverClose(0))
         && !IsOpen(Apply(pfs, closing, DeliverClose(0)).0.servers, (h, 0))
         && IsOpen(sought.servers, (h, 0)) && sought.servers[h].table[0].offset == offset
  {
    ZeroEntryRun(pfs, a, b, h);
    StrayRequestsHitOthers(pfs, After(pfs, Init(pfs, {h}), ZeroEntry(a, b, h)), X, Y, h, offset);
  }

  // ---------------------------------------------------------------------------------------------
  // Leaked sessions
  // ---------------------------------------------------------------------------------------------

  /** Over well-routed runs a session dropped without a close message is never closed at the server: its
      descriptor stays open, on its own file and for itself alone. */
  lemma {:induction false} LeaksAreForever(pfs: Files, w: World, actions: seq<Action>, id: nat, s: Session)
    requires Inv(pfs, w) && IsRun(pfs, w, actions) && IsLeaked(w, id, s) && s.fd != -1
    ensures
      var w' := After(pfs, w, actions);
      IsLeaked(w', id, s) && Held(pfs, w', id)
    decreases |actions|
  {
    if actions != [] {
      LeakStays(pfs, w, actions[0], id, s);
      InvKept(pfs, w, actions[0]);
      LeaksAreForever(pfs, Apply(pfs, w, actions[0]).0, actions[1..], id, s);
    }
  }

  // ---------------------------------------------------------------------------------------------
  // What closes a descriptor
  // ---------------------------------------------------------------------------------------------

  /** A run of any actions at all: nothing is assumed about where requests go or what they name. */
  ghost predicate FreeRun(pfs: Files, w: World, actions: seq<Action>)
    decreases |actions|
  {
    actions == [] || (Enabled(pfs, w, actions[0]) && FreeRun(pfs, Apply(pfs, w, actions[0]).0, actions[1..]))
  }

  ghost function Ending(pfs: Files, w: World, actions: seq<Action>): World
    requires FreeRun(pfs, w, actions)
    decreases |actions|
  {
    if actions == [] then w else Ending(pfs, Apply(pfs, w, actions[0]).0, actions[1..])
  }

  /** The action delivers a close that names the place. */
  predicate Closes(w: World, a: Action, place: (Host, int)) {
    a.DeliverClose? && a.k < |w.inFlight| && (w.inFlight[a.k].host, w.inFlight[a.k].fd) == place
  }

  ghost predicate NeverClosed(pfs: Files, w: World, actions: seq<Action>, place: (Host, int))
    requires FreeRun(pfs, w, actions)
    decreases |actions|
  {
    actions == [] ||
    (!Closes(w, actions[0], place) && NeverClosed(pfs, Apply(pfs, w, actions[0]).0, actions[1..], place))
  }

  ghost predicate AlwaysOpen(pfs: Files, w: World, actions: seq<Action>, place: (Host, int))
    requires FreeRun(pfs, w, actions)
    decreases |actions|
  {
    && IsOpen(w.servers, place)
    && (actions == [] || AlwaysOpen(pfs, Apply(pfs, w, actions[0]).0, actions[1..], place))
  }

  lemma RemoteReadOpens(w: World, lfd: LocalFd, count: nat, offset: int, host: Host, answer: Wait, place: (Host, int))
    requires host in w.servers && IsOpen(w.servers, place)
    ensures IsOpen(RemoteRead(w, lfd, count, offset, host, answer).0.servers, place)
  {
  }

  lemma RequestsKeepOpen(pfs: Files, w: World, a: Action, place: (Host, int))
    requires Enabled(pfs, w, a) && IsOpen(w.servers, place) && (a.ReadFile? || a.PreadFile?)
    ensures IsOpen(Apply(pfs, w, a).0.servers, place)
  {
    RemoteReadOpens(w, a.lfd, a.count, if a.ReadFile? then -1 else a.offset, a.host, a.answer, place);
  }

  lemma OpensKeepOpen(pfs: Files, w: World, a: Action, place: (Host, int))
    requires Enabled(pfs, w, a) && IsOpen(w.servers, place) && (a.OpenFile? || a.OpenTimesOut? || a.ServeOpen?)
    ensures IsOpen(Apply(pfs, w, a).0.servers, place)
  {
  }

  lemma OthersKeepOpen(pfs: Files, w: World, a: Action, place: (Host, int))
    requires Enabled(pfs, w, a) && IsOpen(w.servers, place)
    requires a.SeekFile? || a.CloseFile? || a.DeliverRead? || a.HearOpen? || a.Copied?
    ensures IsOpen(Apply(pfs, w, a).0.servers, place)
  {
  }

  lemma OnlyDeliveriesClose(pfs: Files, w: World, a: Action, place: (Host, int))
    requires Enabled(pfs, w, a) && IsOpen(w.servers, place)
    ensures IsOpen(Apply(pfs, w, a).0.servers, place) <==> !Closes(w, a, place)
  {
    if a.DeliverClose? {
      DeliveryServers(pfs, w, a.k);
      HandleCloseCloses(w.servers, w.inFlight[a.k].host, w.inFlight[a.k].fd, place);
    } else if a.ReadFile? || a.PreadFile? {
      RequestsKeepOpen(pfs, w, a, place);
    } else if a.OpenFile? || a.OpenTimesOut? || a.ServeOpen? {
      OpensKeepOpen(pfs, w, a, place);
    } else {
      OthersKeepOpen(pfs, w, a, place);
    }
  }

  /** In every world and over every run, an open descriptor (host, number) stays open throughout exactly when
      no close naming that host and number is delivered, whichever session sent it. */
  lemma {:induction false} OpenUntilNamedExactly(pfs: Files, w: World, actions: seq<Action>, place: (Host, int))
    requires FreeRun(pfs, w, actions) && IsOpen(w.servers, place)
    ensures AlwaysOpen(pfs, w, actions, place) <==> NeverClosed(pfs, w, actions, place)
    decreases |actions|
  {
    if actions != [] {
      OnlyDeliveriesClose(pfs, w, actions[0], place);
      if !Closes(w, actions[0], place) {
        OpenUntilNamedExactly(pfs, Apply(pfs, w, actions[0]).0, actions[1..], place);
      }
    }
  }

  lemma {:induction false} RunIsFree(pfs: Files, w: World, actions: seq<Action>)
    requires IsRun(pfs, w, actions)
    ensures FreeRun(pfs, w, actions) && Ending(pfs, w, actions) == After(pfs, w, actions)
    decreases |actions|
  {
    if actions != [] {
      RunIsFree(pfs, Apply(pfs, w, actions[0]).0, actions[1..]);
    }
  }

  lemma {:induction false} OneMoreFree(pfs: Files, w: World, xs: seq<Action>, a: Action)
    requires FreeRun(pfs, w, xs) && Enabled(pfs, Ending(pfs, w, xs), a)
    ensures FreeRun(pfs, w, xs + [a]) && Ending(pfs, w, xs + [a]) == Apply(pfs, Ending(pfs, w, xs), a).0
    decreases |xs|
  {
    if xs == [] {
      assert [a][1..] == [];
    } else {
      assert (xs + [a])[1..] == xs[1..] + [a];
      OneMoreFree(pfs, Apply(pfs, w, xs[0]).0, xs[1..], a);
    }
  }

  /** In any world, a close of x that names y's descriptor closes it while y is in use, and a seek of x that
      names it moves y's position. */
  lemma StrayRequestsHitOthers(pfs: Files, w: World, x: LocalFd, y: LocalFd, host: Host, offset: nat)
    requires x in w.fdMap && Enabled(pfs, w, CloseFile(x, host, true)) && offset <= INT32_MAX
    requires Site(w, y) == (host, Redir(w, x)) && IsOpen(w.servers, Site(w, y))
    ensures
      var w1 := Apply(pfs, w, CloseFile(x, host, true)).0;
      && Enabled(pfs, w1, DeliverClose(|w.inFlight|))
      && !IsOpen(Apply(pfs, w1, DeliverClose(|w.inFlight|)).0.servers, Site(w, y))
    ensures Enabled(pfs, w, SeekFile(x, offset, SEEK_SET, host))
    ensures
      var w' := Apply(pfs, w, SeekFile(x, offset, SEEK_SET, host)).0;
      IsOpen(w'.servers, Site(w, y)) && w'.servers[host].table[Redir(w, x)].offset == offset
  {
    SentThenDelivered(pfs, w, x, host);
    HandleCloseCloses(w.servers, host, Redir(w, x), Site(w, y));
  }

  // ---------------------------------------------------------------------------------------------
  // Closes
  // ---------------------------------------------------------------------------------------------

  /** The assertion in the backup's close handler: a delivered close succeeds exactly when the open of its
      session had, for the client sends a close even for the descriptor -1 of a failed open. */
  lemma CloseSucceedsExactly(pfs: Files, w: World, k: nat)
    requires Inv(pfs, w) && Enabled(pfs, w, DeliverClose(k))
    ensures Apply(pfs, w, DeliverClose(k)).1 == At(0) <==> w.inFlight[k].fd != -1
  {
    if w.inFlight[k].fd != -1 {
      LateCloseIsExact(pfs, w, k);
    } else {
      FailedOpenHasNoDescriptor(pfs, w, w.inFlight[k].host);
    }
  }

  // ---------------------------------------------------------------------------------------------
  // Seeks
  // ---------------------------------------------------------------------------------------------

  /** The seek request and its reply are 32 bits wide. The remote lseek does what a plain one does,
      position and result, exactly when the offset and the target fit, or both seeks fail; or when the
      plain one fails and the truncated one moves nothing and its position is reported as -1. */
  lemma SeekAgreesExactly(s: State, fd: int, offset: int, whence: int)
    requires fd in s.table
    ensures
      var (s', r) := HandleSeek(s, fd, offset, whence);
      var target := SeekTarget(s.table[fd], offset, whence);
      var sent := SeekTarget(s.table[fd], AsInt32(offset), whence);
      (s'.table[fd], r) == Lseek(s.table[fd], offset, whence) <==>
      if 0 <= target then FitsInt32(offset) && FitsInt32(target)
      else sent < 0 || (sent == s.table[fd].offset && AsInt32(sent) == -1)
  {
  }
}
