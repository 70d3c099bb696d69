/** The two inner loops of `hvac_data_mover_fn` on the mover's own variables: moving the shared queue to
    the private list, and copying the list. Each is shown to be a run of the interleaving model in which
    no handler happens to step in between. */
module DataMovers {
  import Servers
  import opened Mover
  import Sessions

  type Path = Servers.Path
  type Files = Servers.Files

  /** How one copy turns out: the directory mkdtemp makes for it, or a failure. */
  datatype Attempt = Copies(dir: string) | Fails

  ghost predicate Possible(e: Site, dirs: set<string>, path: Path, a: Attempt) {
    a.Copies? ==> path in e.pfs && DirName(e, a.dir) && a.dir !in dirs
  }

  /** The state after one turn of the copy loop. */
  ghost function Copied(e: Site, s: State, a: Attempt): State
    requires s.batch != [] && Possible(e, s.dirs, s.batch[0], a)
  {
    var path := s.batch[0];
    var s1 := s.(batch := s.batch[1..], processed := s.processed + [Done(path, a.Copies?)]);
    if a == Fails then s1
    else
      var dst := CopyName(a.dir, path);
      s1.(dirs := s.dirs + {a.dir}, files := s.files[dst := e.pfs[path]], cache := s.cache[path := dst])
  }

  lemma OneCopyIsARun(e: Site, s: State, a: Attempt) returns (steps: seq<Action>)
    requires s.worker == Batch && s.mapLock == Free && s.batch != [] && Possible(e, s.dirs, s.batch[0], a)
    ensures IsRun(e, s, steps) && After(e, s, steps) == Copied(e, s, a)
  {
    if a == Fails {
      steps := [CopyFails];
      assert After(e, s, steps) == s.(worker := Pop(false));
      OneMoreStep(e, s, steps, WorkerStep);
      steps := steps + [WorkerStep];
    } else {
      var path, dst := s.batch[0], CopyName(a.dir, s.batch[0]);
      var s1 := s.(dirs := s.dirs + {a.dir}, worker := Copy(dst));
      steps := [MakeDir(a.dir)];
      assert After(e, s, steps) == s1;
      var held := if e.backup then Free else By(Copier);
      var s2 := s1.(files := s.files[dst := e.pfs[path]], worker := WantMap(dst));
      OneMoreStep(e, s, steps, WorkerStep);
      steps := steps + [WorkerStep];
      assert After(e, s, steps) == s2;
      OneMoreStep(e, s, steps, WorkerStep);
      steps := steps + [WorkerStep];
      assert After(e, s, steps) == s2.(mapLock := held, worker := Publish(dst));
      OneMoreStep(e, s, steps, WorkerStep);
      steps := steps + [WorkerStep];
      assert After(e, s, steps) == s2.(mapLock := held, cache := s.cache[path := dst], worker := MapUnlock(dst));
      OneMoreStep(e, s, steps, WorkerStep);
      steps := steps + [WorkerStep];
      assert After(e, s, steps) == s2.(cache := s.cache[path := dst], worker := Pop(true));
      OneMoreStep(e, s, steps, WorkerStep);
      steps := steps + [WorkerStep];
    }
  }

  /** Draining is a run of the interleaving model too: path by path under the lock, then the unlock. */
  lemma {:induction false} DrainIsARun(e: Site, s: State) returns (steps: seq<Action>)
    requires s.worker == Drain
    ensures IsRun(e, s, steps)
    ensures After(e, s, steps) == s.(batch := s.batch + s.queue, queue := [], dataLock := Free, worker := Batch)
    decreases |s.queue|
  {
    if s.queue == [] {
      steps := [WorkerStep];
      assert s.batch + s.queue == s.batch;
    } else {
      var s1 := s.(batch := s.batch + [s.queue[0]], queue := s.queue[1..]);
      var rest := DrainIsARun(e, s1);
      steps := [WorkerStep] + rest;
      assert steps[1..] == rest;
      assert s1.batch + s1.queue == s.batch + s.queue;
    }
  }

  /** The attempts of a whole batch: as many as paths, every copy in a directory of its own. */
  ghost predicate AllPossible(e: Site, dirs: set<string>, batch: seq<Path>, attempts: seq<Attempt>) {
    && |attempts| == |batch|
    && (forall i | 0 <= i < |batch| :: Possible(e, dirs, batch[i], attempts[i]))
    && (forall i, j | 0 <= i < j < |attempts| && attempts[i].Copies? && attempts[j].Copies? ::
          attempts[i].dir != attempts[j].dir)
  }

  function Outcomes(batch: seq<Path>, attempts: seq<Attempt>): seq<Done>
    requires |batch| == |attempts|
  {
    seq(|batch|, i requires 0 <= i < |batch| => Done(batch[i], attempts[i].Copies?))
  }

  lemma RestIsPossible(e: Site, s: State, attempts: seq<Attempt>)
    requires attempts != [] && AllPossible(e, s.dirs, s.batch, attempts)
    ensures AllPossible(e, Copied(e, s, attempts[0]).dirs, Copied(e, s, attempts[0]).batch, attempts[1..])
  {
    var a, s1 := attempts[0], Copied(e, s, attempts[0]);
    assert s1.batch == s.batch[1..];
    forall i | 0 <= i < |s1.batch| ensures Possible(e, s1.dirs, s1.batch[i], attempts[1..][i]) {
      assert Possible(e, s.dirs, s.batch[i + 1], attempts[i + 1]);
      assert a.Copies? && attempts[i + 1].Copies? ==> attempts[i + 1].dir != a.dir;
    }
  }

  /** The state after the whole copy loop. */
  ghost function CopiedAll(e: Site, s: State, attempts: seq<Attempt>): State
    requires AllPossible(e, s.dirs, s.batch, attempts)
    decreases |attempts|
  {
    if attempts == [] then s
    else
      RestIsPossible(e, s, attempts);
      CopiedAll(e, Copied(e, s, attempts[0]), attempts[1..])
  }

  /** The loop is a run of the interleaving model in which no handler steps in between. */
  lemma {:induction false} BatchIsARun(e: Site, s: State, attempts: seq<Attempt>) returns (steps: seq<Action>)
    requires s.worker == Batch && s.mapLock == Free && AllPossible(e, s.dirs, s.batch, attempts)
    ensures IsRun(e, s, steps) && After(e, s, steps) == CopiedAll(e, s, attempts)
    decreases |attempts|
  {
    if attempts == [] {
      steps := [];
    } else {
      var first := OneCopyIsARun(e, s, attempts[0]);
      RestIsPossible(e, s, attempts);
      var rest := BatchIsARun(e, Copied(e, s, attempts[0]), attempts[1..]);
      RunConcat(e, s, first, rest);
      steps := first + rest;
    }
  }

  /** The loop deals with every path, in order. */
  lemma {:induction false} BatchOutcomes(e: Site, s: State, attempts: seq<Attempt>)
    requires AllPossible(e, s.dirs, s.batch, attempts)
    ensures CopiedAll(e, s, attempts).batch == []
    ensures CopiedAll(e, s, attempts).processed == s.processed + Outcomes(s.batch, attempts)
    decreases |attempts|
  {
    if attempts == [] {
      assert Outcomes(s.batch, attempts) == [];
    } else {
      RestIsPossible(e, s, attempts);
      BatchOutcomes(e, Copied(e, s, attempts[0]), attempts[1..]);
      assert Outcomes(s.batch, attempts)
          == [Done(s.batch[0], attempts[0].Copies?)] + Outcomes(s.batch[1..], attempts[1..]);
    }
  }

  /** The attempt succeeds and is the last of its path that does. */
  ghost predicate LastSuccess(batch: seq<Path>, attempts: seq<Attempt>, i: nat)
    requires i < |batch| == |attempts|
  {
    attempts[i].Copies? && forall j | i < j < |batch| && batch[j] == batch[i] :: attempts[j] == Fails
  }

  lemma {:induction false} NoSuccessNoChange(e: Site, s: State, attempts: seq<Attempt>, path: Path)
    requires AllPossible(e, s.dirs, s.batch, attempts)
    requires forall j | 0 <= j < |s.batch| && s.batch[j] == path :: attempts[j] == Fails
    ensures path in CopiedAll(e, s, attempts).cache <==> path in s.cache
    ensures path in s.cache ==> CopiedAll(e, s, attempts).cache[path] == s.cache[path]
    decreases |attempts|
  {
    if attempts != [] {
      RestIsPossible(e, s, attempts);
      var s1 := Copied(e, s, attempts[0]);
      assert s1.batch == s.batch[1..];
      assert forall j | 0 <= j < |s1.batch| :: s1.batch[j] == s.batch[j + 1] && attempts[1..][j] == attempts[j + 1];
      NoSuccessNoChange(e, s1, attempts[1..], path);
    }
  }

  /** After the loop a path leads to the last copy of it that succeeded, in that copy's own directory; a path
      without such a copy leads where it did before. */
  lemma {:induction false} LastCopyWins(e: Site, s: State, attempts: seq<Attempt>, i: nat)
    requires AllPossible(e, s.dirs, s.batch, attempts) && i < |s.batch| && LastSuccess(s.batch, attempts, i)
    ensures
      var cache := CopiedAll(e, s, attempts).cache;
      s.batch[i] in cache && cache[s.batch[i]] == attempts[i].dir + "/" + FileName(s.batch[i])
    decreases |attempts|
  {
    RestIsPossible(e, s, attempts);
    var s1 := Copied(e, s, attempts[0]);
    assert s1.batch == s.batch[1..];
    assert forall j | 0 <= j < |s1.batch| :: s1.batch[j] == s.batch[j + 1] && attempts[1..][j] == attempts[j + 1];
    if i == 0 {
      NoSuccessNoChange(e, s1, attempts[1..], s.batch[0]);
    } else {
      assert LastSuccess(s1.batch, attempts[1..], i - 1);
      LastCopyWins(e, s1, attempts[1..], i - 1);
    }
  }

  class DataMover {
    const site: Site
    var dataQueue: seq<Path>
    var localList: seq<Path>
    var pathCacheMap: map<Path, Path>
    var files: Files
    var dirs: set<string>
    ghost var pushed: seq<Path>
    ghost var processed: seq<Done>

    constructor (site: Site)
      ensures this.site == site && Abstract(Free, WantData) == Mover.Init(site)
    {
      this.site := site;
      dataQueue, localList, pathCacheMap, files, dirs := [], [], map[], site.pfs, {};
      pushed, processed := [], [];
    }

    ghost function Abstract(dataLock: Lock, worker: Worker): State
      reads this
    {
      State.State(files, dirs, pathCacheMap, dataQueue, localList, pushed, processed, dataLock, Free, Idle, worker)
    }

    /** Under data_mutex: the whole queue goes to the end of the list, in order. */
    method DrainQueue()
      modifies this`dataQueue, this`localList
      ensures dataQueue == [] && localList == old(localList) + old(dataQueue)
    {
      while dataQueue != []
        invariant localList + dataQueue == old(localList) + old(dataQueue)
        decreases |dataQueue|
      {
        assert dataQueue == [dataQueue[0]] + dataQueue[1..];
        localList := localList + [dataQueue[0]];
        dataQueue := dataQueue[1..];
      }
    }

    /** One turn of the copy loop. */
    method CopyNext(attempt: Attempt)
      requires localList != [] && Possible(site, dirs, localList[0], attempt)
      modifies this`files, this`dirs, this`pathCacheMap, this`localList, this`processed
      ensures Abstract(Free, Batch) == Copied(site, old(Abstract(Free, Batch)), attempt)
      ensures pathCacheMap.Keys == old(pathCacheMap.Keys) + (if attempt.Copies? then {old(localList)[0]} else {})
      ensures attempt.Copies? ==>
        && pathCacheMap[old(localList)[0]] == attempt.dir + "/" + FileName(old(localList)[0])
        && pathCacheMap[old(localList)[0]] in files
        && files[pathCacheMap[old(localList)[0]]] == site.pfs[old(localList)[0]]
      ensures forall p | p in old(pathCacheMap) && (attempt.Copies? ==> p != old(localList)[0]) ::
        pathCacheMap[p] == old(pathCacheMap)[p]
      ensures localList == old(localList)[1..]
      ensures processed == old(processed) + [Done(old(localList)[0], attempt.Copies?)]
    {
      var path := localList[0];
      if attempt.Copies? {
        dirs := dirs + {attempt.dir};
        var filename := CopyName(attempt.dir, path);
        files := files[filename := site.pfs[path]];
        pathCacheMap := pathCacheMap[path := filename];
      }
      processed := processed + [Done(path, attempt.Copies?)];
      localList := localList[1..];
    }

    /** Empties the list: every path is dealt with in order, and cached unless its copy fails. */
    method CopyBatch(attempts: seq<Attempt>)
      requires AllPossible(site, dirs, localList, attempts)
      modifies this`files, this`dirs, this`pathCacheMap, this`localList, this`processed
      ensures Abstract(Free, Batch) == CopiedAll(site, old(Abstract(Free, Batch)), attempts)
      ensures localList == [] && processed == old(processed) + Outcomes(old(localList), attempts)
    {
      ghost var start := Abstract(Free, Batch);
      BatchOutcomes(site, start, attempts);
      var i := 0;
      while localList != []
        invariant 0 <= i <= |attempts| && AllPossible(site, dirs, localList, attempts[i..])
        invariant CopiedAll(site, Abstract(Free, Batch), attempts[i..]) == CopiedAll(site, start, attempts)
        decreases |localList|
      {
        RestIsPossible(site, Abstract(Free, Batch), attempts[i..]);
        assert attempts[i..][1..] == attempts[i + 1..];
        CopyNext(attempts[i]);
        i := i + 1;
      }
    }
  }

  /** What the mover does to a server between requests is what the session protocol allows: whatever
      happens on the server's node, the cache it ends up with is coherent. */
  lemma MoverRunsAreCopies(e: Site, actions: seq<Action>, w: Sessions.World, host: Sessions.Host)
    requires ValidSite(e) && IsRun(e, Mover.Init(e), actions) && host in w.servers
    ensures
      var s := After(e, Mover.Init(e), actions);
      Sessions.Enabled(e.pfs, w, Sessions.Copied(host, s.cache, s.files))
  {
    CacheAlwaysCoherent(e, actions);
  }

  /** And it is made use of: once the mover has run on a server's node, a file it has cached is served from a
      complete copy in one of its directories, and every other one from the parallel file system. */
  lemma OpenAfterCopies(e: Site, actions: seq<Action>, w: Sessions.World, lfd: Sessions.LocalFd, path: Path,
                        host: Sessions.Host, fd: nat)
    requires ValidSite(e) && IsRun(e, Mover.Init(e), actions) && host in w.servers && path in e.pfs
    requires lfd !in w.local && fd !in w.servers[host].table
    ensures
      var s := After(e, Mover.Init(e), actions);
      && Sessions.Enabled(e.pfs, w, Sessions.Copied(host, s.cache, s.files))
      && var w1 := Sessions.Apply(e.pfs, w, Sessions.Copied(host, s.cache, s.files)).0;
         var open := Sessions.OpenFile(lfd, path, true, host, fd);
         && Sessions.Enabled(e.pfs, w1, open)
         && var table := Sessions.Apply(e.pfs, w1, open).0.servers[host].table;
            && fd in table && table[fd].content == e.pfs[path] && table[fd].offset == 0
            && (path in s.cache ==>
                  && s.cache[path] !in e.pfs && InDirs(e, s, s.cache[path])
                  && s.cache[path] in s.files && table[fd].content == s.files[s.cache[path]])
            && Servers.Redirected(w1.servers[host].cache, path) == if path in s.cache then s.cache[path] else path
  {
    var s := After(e, Mover.Init(e), actions);
    CacheAlwaysCoherent(e, actions);
    InvInit(e);
    InvAlways(e, Mover.Init(e), actions);
    if path in s.cache {
      NotOnPfs(e, s, s.cache[path]);
    }
  }
}
