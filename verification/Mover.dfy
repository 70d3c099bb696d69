/** The server's cache with its background mover (hvac_data_mover.cpp and the open and close handlers of
    hvac_comm.cpp) as an interleaving of two threads: the progress thread, which runs the handlers, and
    the mover, which copies closed files to node-local storage. Two mutexes, one condition variable, a
    shared queue, a private batch list, and the map from paths to copies. A copy is written in pieces. */
module Mover {
  import opened Posix
  import opened Servers

  datatype Thread = Progress | Copier

  datatype Lock = Free | By(holder: Thread)

  /** Where the progress thread is. `path` is the file of the request being handled. */
  datatype Handler =
    | Idle
    | OpenWant(path: Path)                    // wants path_map_mutex
    | OpenLook(path: Path)                    // holds it
    | OpenUnlock(path: Path, redir: Path)
    | Opening(path: Path, redir: Path)        // no lock: calls open(redir)
    | CloseWant(path: Path)                   // the descriptor is closed; wants path_map_mutex
    | CloseLook(path: Path)                   // holds it
    | PushWant(path: Path)                    // wants data_mutex as well
    | Push(path: Path)                        // holds both
    | Signal(path: Path)
    | PushUnlock(path: Path)
    | CloseUnlock(path: Path)

  /** Where the mover is. `dst` is the copy being made of the first path of its batch list. */
  datatype Worker =
    | WantData
    | Check                                   // holds data_mutex, looks at the queue
    | Asleep                                  // in pthread_cond_wait, mutex released
    | Woken                                   // signalled or spuriously woken, wants the mutex back
    | Drain                                   // holds data_mutex, moves the queue to its list
    | Batch                                   // no lock: head of the copy loop
    | Copy(dst: Path)                         // inside fs::copy
    | WantMap(dst: Path)                      // the copy is complete
    | Publish(dst: Path)                      // holds path_map_mutex
    | MapUnlock(dst: Path)
    | Pop(cached: bool)

  datatype Done = Done(path: Path, cached: bool)

  /** `pushed` and `processed` are bookkeeping: everything ever queued, and everything dealt with. */
  datatype State = State(
    files: Files,
    dirs: set<string>,
    cache: map<Path, Path>,
    queue: seq<Path>,
    batch: seq<Path>,
    pushed: seq<Path>,
    processed: seq<Done>,
    dataLock: Lock,
    mapLock: Lock,
    handler: Handler,
    worker: Worker)

  /** `base` is the node-local directory. `rechecks` tells the wait that looks at the queue first from an
      unconditional one. `backup` tells the handlers and the mover of backup/, which signal before they push
      and never take path_map_mutex, from the committed ones. The committed code is (true, false), the backup
      (false, true). */
  datatype Site = Site(pfs: Files, base: string, rechecks: bool, backup: bool)

  datatype Action =
    | BeginOpen(path: Path)
    | BeginClose(path: Path)
    | HandlerStep
    | WorkerStep
    | SpuriousWake
    | MakeDir(dir: string)   // mkdtemp
    | CopySome(n: nat)       // fs::copy has written n bytes so far
    | CopyFails              // mkdtemp or fs::copy failed, with whatever was written left behind

  function DirLength(e: Site): nat {
    |e.base| + 7
  }

  /** The names mkdtemp makes out of base/XXXXXX. */
  predicate DirName(e: Site, dir: string) {
    |dir| == DirLength(e) && e.base + "/" <= dir
  }

  function FileName(path: Path): string {
    if '/' !in path then path else FileName(path[1..])
  }

  function CopyName(dir: string, path: Path): Path {
    dir + "/" + FileName(path)
  }

  lemma {:induction false} FileNameAfter(dir: string, name: string)
    requires '/' !in name
    ensures FileName(dir + "/" + name) == name
  {
    var path := dir + "/" + name;
    assert path[|dir|] == '/';
    if dir == [] {
      assert path[1..] == name;
    } else {
      assert path[1..] == dir[1..] + "/" + name;
      FileNameAfter(dir[1..], name);
    }
  }

  /** The name is what follows the last slash, or all of a path without one; and a copy keeps it. */
  lemma {:induction false} FileNameIsLastPart(path: Path) returns (parent: string)
    ensures '/' !in FileName(path)
    ensures path == if '/' in path then parent + "/" + FileName(path) else FileName(path)
    ensures forall dir :: FileName(CopyName(dir, path)) == FileName(path)
  {
    if '/' !in path {
      parent := "";
    } else if '/' in path[1..] {
      var rest := FileNameIsLastPart(path[1..]);
      parent := [path[0]] + rest;
    } else {
      parent := "";
    }
    forall dir ensures FileName(CopyName(dir, path)) == FileName(path) {
      FileNameAfter(dir, FileName(path));
    }
  }

  /** The parallel file system holds nothing under the node-local directory. */
  ghost predicate ValidSite(e: Site) {
    forall p | p in e.pfs :: !(e.base + "/" <= p)
  }

  function Init(e: Site): State {
    State.State(e.pfs, {}, map[], [], [], [], [], Free, Free, Idle, WantData)
  }

  // ---------------------------------------------------------------------------------------------
  // Steps
  // ---------------------------------------------------------------------------------------------

  ghost predicate HandlerCan(e: Site, s: State) {
    match s.handler
    case Idle => false
    case OpenWant(_) => e.backup || s.mapLock == Free
    case CloseWant(_) => e.backup || s.mapLock == Free
    case PushWant(_) => s.dataLock == Free
    case _ => true
  }

  ghost predicate WorkerCan(e: Site, s: State) {
    match s.worker
    case WantData => s.dataLock == Free
    case Woken => s.dataLock == Free
    case Asleep => false
    case Batch => s.batch == []
    case Copy(_) => s.batch != [] && s.batch[0] in e.pfs
    case WantMap(_) => e.backup || s.mapLock == Free
    case Publish(_) => s.batch != []
    case Pop(_) => s.batch != []
    case _ => true
  }

  ghost predicate Enabled(e: Site, s: State, a: Action) {
    match a
    case BeginOpen(_) => s.handler == Idle
    case BeginClose(_) => s.handler == Idle
    case HandlerStep => HandlerCan(e, s)
    case WorkerStep => WorkerCan(e, s)
    case SpuriousWake => s.worker == Asleep
    case MakeDir(dir) => s.worker == Batch && s.batch != [] && DirName(e, dir) && dir !in s.dirs
    case CopySome(n) => s.worker.Copy? && s.batch != [] && s.batch[0] in e.pfs && n <= |e.pfs[s.batch[0]]|
    case CopyFails => (s.worker == Batch || s.worker.Copy?) && s.batch != []
  }

  /** path_map_mutex after a thread's lock or unlock; the backup has none. */
  function MapLock(e: Site, s: State, lock: Lock): Lock {
    if e.backup then s.mapLock else lock
  }

  ghost function HandlerNext(e: Site, s: State): State
    requires HandlerCan(e, s)
  {
    match s.handler
    case OpenWant(path) => s.(mapLock := MapLock(e, s, By(Progress)), handler := OpenLook(path))
    case OpenLook(path) => s.(handler := OpenUnlock(path, Redirected(s.cache, path)))
    case OpenUnlock(path, redir) => s.(mapLock := MapLock(e, s, Free), handler := Opening(path, redir))
    case Opening(path, redir) => s.(handler := Idle)
    case CloseWant(path) => s.(mapLock := MapLock(e, s, By(Progress)), handler := CloseLook(path))
    case CloseLook(path) => s.(handler := if path in s.cache then CloseUnlock(path) else PushWant(path))
    case PushWant(path) => s.(dataLock := By(Progress), handler := if e.backup then Signal(path) else Push(path))
    case Push(path) =>
      s.(queue := s.queue + [path], pushed := s.pushed + [path],
         handler := if e.backup then PushUnlock(path) else Signal(path))
    case Signal(path) =>
      s.(worker := if s.worker == Asleep then Woken else s.worker,
         handler := if e.backup then Push(path) else PushUnlock(path))
    case PushUnlock(path) => s.(dataLock := Free, handler := CloseUnlock(path))
    case CloseUnlock(path) => s.(mapLock := MapLock(e, s, Free), handler := Idle)
  }

  ghost function WorkerNext(e: Site, s: State): State
    requires WorkerCan(e, s)
  {
    match s.worker
    case WantData => s.(dataLock := By(Copier), worker := Check)
    case Check =>
      if e.rechecks && s.queue != [] then s.(worker := Drain) else s.(dataLock := Free, worker := Asleep)
    case Woken => s.(dataLock := By(Copier), worker := if e.rechecks then Check else Drain)
    case Drain =>
      if s.queue == [] then s.(dataLock := Free, worker := Batch)
      else s.(batch := s.batch + [s.queue[0]], queue := s.queue[1..])
    case Batch => s.(worker := WantData)
    case Copy(dst) => s.(files := s.files[dst := e.pfs[s.batch[0]]], worker := WantMap(dst))
    case WantMap(dst) => s.(mapLock := MapLock(e, s, By(Copier)), worker := Publish(dst))
    case Publish(dst) => s.(cache := s.cache[s.batch[0] := dst], worker := MapUnlock(dst))
    case MapUnlock(dst) => s.(mapLock := MapLock(e, s, Free), worker := Pop(true))
    case Pop(cached) =>
      s.(processed := s.processed + [Done(s.batch[0], cached)], batch := s.batch[1..], worker := Batch)
  }

  ghost function Apply(e: Site, s: State, a: Action): State
    requires Enabled(e, s, a)
  {
    match a
    case BeginOpen(path) => s.(handler := OpenWant(path))
    case BeginClose(path) => s.(handler := CloseWant(path))
    case HandlerStep => HandlerNext(e, s)
    case WorkerStep => WorkerNext(e, s)
    case SpuriousWake => s.(worker := Woken)
    case MakeDir(dir) => s.(dirs := s.dirs + {dir}, worker := Copy(CopyName(dir, s.batch[0])))
    case CopySome(n) => s.(files := s.files[s.worker.dst := e.pfs[s.batch[0]][..n]])
    case CopyFails => s.(worker := Pop(false))
  }

  ghost predicate IsRun(e: Site, s: State, actions: seq<Action>)
    decreases |actions|
  {
    actions == [] || (Enabled(e, s, actions[0]) && IsRun(e, Apply(e, s, actions[0]), actions[1..]))
  }

  ghost function After(e: Site, s: State, actions: seq<Action>): State
    requires IsRun(e, s, actions)
    decreases |actions|
  {
    if actions == [] then s else After(e, Apply(e, s, actions[0]), actions[1..])
  }

  // ---------------------------------------------------------------------------------------------
  // Locks
  // ---------------------------------------------------------------------------------------------

  predicate HandlerHoldsData(h: Handler) {
    h.Push? || h.Signal? || h.PushUnlock?
  }

  predicate HandlerHoldsMap(h: Handler) {
    h.OpenLook? || h.OpenUnlock? || h.CloseLook? || h.PushWant? || HandlerHoldsData(h) || h.CloseUnlock?
  }

  predicate WorkerHoldsData(k: Worker) {
    k.Check? || k.Drain?
  }

  predicate WorkerHoldsMap(k: Worker) {
    k.Publish? || k.MapUnlock?
  }

  ghost predicate DataLockHeld(s: State) {
    && (s.dataLock == By(Progress) <==> HandlerHoldsData(s.handler))
    && (s.dataLock == By(Copier) <==> WorkerHoldsData(s.worker))
  }

  ghost predicate MapLockHeld(e: Site, s: State) {
    && (s.mapLock == By(Progress) <==> !e.backup && HandlerHoldsMap(s.handler))
    && (s.mapLock == By(Copier) <==> !e.backup && WorkerHoldsMap(s.worker))
  }

  /** Each mutex is held by exactly the thread whose code is between its lock and unlock. */
  ghost predicate LocksHeld(e: Site, s: State) {
    DataLockHeld(s) && MapLockHeld(e, s)
  }

  lemma DataLockKeptByWorker(e: Site, s: State)
    requires DataLockHeld(s) && WorkerCan(e, s)
    ensures DataLockHeld(WorkerNext(e, s))
  {
  }

  lemma DataLockKept(e: Site, s: State, a: Action)
    requires DataLockHeld(s) && Enabled(e, s, a)
    ensures DataLockHeld(Apply(e, s, a))
  {
    if a.WorkerStep? {
      DataLockKeptByWorker(e, s);
    }
  }

  lemma MapLockKeptByWorker(e: Site, s: State)
    requires MapLockHeld(e, s) && WorkerCan(e, s)
    ensures MapLockHeld(e, WorkerNext(e, s))
  {
  }

  lemma MapLockKeptByHandler(e: Site, s: State)
    requires MapLockHeld(e, s) && HandlerCan(e, s)
    ensures MapLockHeld(e, HandlerNext(e, s))
  {
  }

  lemma MapLockKept(e: Site, s: State, a: Action)
    requires MapLockHeld(e, s) && Enabled(e, s, a)
    ensures MapLockHeld(e, Apply(e, s, a))
  {
    if a.WorkerStep? {
      MapLockKeptByWorker(e, s);
    } else if a.HandlerStep? {
      MapLockKeptByHandler(e, s);
    }
  }

  // ---------------------------------------------------------------------------------------------
  // Sleep
  // ---------------------------------------------------------------------------------------------

  /** A sleeping mover has nothing to do, or the handler that pushed is about to signal it. */
  ghost predicate SleepsSoundly(s: State) {
    s.worker == Asleep && s.queue != [] ==> s.handler.Signal?
  }

  /** In the backup's order, a handler that has signalled and not yet pushed has nobody to wake. */
  ghost predicate SleepInv(e: Site, s: State) {
    SleepsSoundly(s) && (e.backup && s.handler.Push? ==> s.worker != Asleep)
  }

  lemma SleepKeptByWorker(e: Site, s: State)
    requires e.rechecks && DataLockHeld(s) && SleepInv(e, s) && WorkerCan(e, s)
    ensures SleepInv(e, WorkerNext(e, s))
  {
  }

  lemma SleepKeptByHandler(e: Site, s: State)
    requires SleepInv(e, s) && HandlerCan(e, s)
    ensures SleepInv(e, HandlerNext(e, s))
  {
  }

  lemma SleepKept(e: Site, s: State, a: Action)
    requires e.rechecks && DataLockHeld(s) && SleepInv(e, s) && Enabled(e, s, a)
    ensures SleepInv(e, Apply(e, s, a))
  {
    if a.WorkerStep? {
      SleepKeptByWorker(e, s);
    } else if a.HandlerStep? {
      SleepKeptByHandler(e, s);
    }
  }

  // ---------------------------------------------------------------------------------------------
  // Copy requests
  // ---------------------------------------------------------------------------------------------

  function Paths(done: seq<Done>): seq<Path> {
    seq(|done|, i requires 0 <= i < |done| => done[i].path)
  }

  predicate HasItem(k: Worker) {
    k.Copy? || k.WantMap? || k.Publish? || k.MapUnlock? || k.Pop?
  }

  ghost predicate Ordered(s: State) {
    s.pushed == Paths(s.processed) + s.batch + s.queue
  }

  ghost predicate BatchUsed(s: State) {
    && (HasItem(s.worker) ==> s.batch != [])
    && (!HasItem(s.worker) && s.worker != Batch && s.worker != Drain ==> s.batch == [])
  }

  /** Nothing pushed is lost, duplicated or reordered. */
  ghost predicate Conserved(s: State) {
    Ordered(s) && BatchUsed(s)
  }

  lemma PathsAppend(done: seq<Done>, d: Done)
    ensures Paths(done + [d]) == Paths(done) + [d.path]
  {
  }

  lemma MovedOn(pushed: seq<Path>, done: seq<Done>, batch: seq<Path>, queue: seq<Path>, cached: bool)
    requires pushed == Paths(done) + batch + queue && batch != []
    ensures pushed == Paths(done + [Done(batch[0], cached)]) + batch[1..] + queue
  {
    PathsAppend(done, Done(batch[0], cached));
    assert batch == [batch[0]] + batch[1..];
  }

  lemma Drained(done: seq<Path>, batch: seq<Path>, queue: seq<Path>)
    requires queue != []
    ensures done + batch + queue == done + (batch + [queue[0]]) + queue[1..]
  {
  }

  lemma OrderKeptByWorker(e: Site, s: State)
    requires Ordered(s) && WorkerCan(e, s)
    ensures Ordered(WorkerNext(e, s))
  {
    if s.worker.Pop? {
      MovedOn(s.pushed, s.processed, s.batch, s.queue, s.worker.cached);
    } else if s.worker == Drain && s.queue != [] {
      Drained(Paths(s.processed), s.batch, s.queue);
    }
  }

  lemma PushedLast(done: seq<Path>, batch: seq<Path>, queue: seq<Path>, path: Path)
    ensures done + batch + queue + [path] == done + batch + (queue + [path])
  {
  }

  lemma OrderKeptByHandler(e: Site, s: State)
    requires Ordered(s) && HandlerCan(e, s)
    ensures Ordered(HandlerNext(e, s))
  {
    if s.handler.Push? {
      PushedLast(Paths(s.processed), s.batch, s.queue, s.handler.path);
    }
  }

  lemma OrderKept(e: Site, s: State, a: Action)
    requires Ordered(s) && Enabled(e, s, a)
    ensures Ordered(Apply(e, s, a))
  {
    if a.WorkerStep? {
      OrderKeptByWorker(e, s);
    } else if a.HandlerStep? {
      OrderKeptByHandler(e, s);
    }
  }

  lemma BatchKeptByWorker(e: Site, s: State)
    requires BatchUsed(s) && WorkerCan(e, s)
    ensures BatchUsed(WorkerNext(e, s))
  {
  }

  lemma BatchKept(e: Site, s: State, a: Action)
    requires BatchUsed(s) && Enabled(e, s, a)
    ensures BatchUsed(Apply(e, s, a))
  {
    if a.WorkerStep? {
      BatchKeptByWorker(e, s);
    }
  }

  /** What has been processed is cached, unless its copy failed. */
  ghost predicate OutcomesTrue(s: State) {
    && (forall i | 0 <= i < |s.processed| && s.processed[i].cached :: s.processed[i].path in s.cache)
    && (s.worker.MapUnlock? || s.worker == Pop(true) ==> s.batch != [] && s.batch[0] in s.cache)
  }

  lemma OutcomesKeptByWorker(e: Site, s: State)
    requires OutcomesTrue(s) && WorkerCan(e, s)
    ensures OutcomesTrue(WorkerNext(e, s))
  {
  }

  lemma OutcomesKeptByHandler(e: Site, s: State)
    requires OutcomesTrue(s) && HandlerCan(e, s)
    ensures OutcomesTrue(HandlerNext(e, s))
  {
  }

  lemma OutcomesKept(e: Site, s: State, a: Action)
    requires OutcomesTrue(s) && Enabled(e, s, a)
    ensures OutcomesTrue(Apply(e, s, a))
  {
    if a.WorkerStep? {
      OutcomesKeptByWorker(e, s);
    } else if a.HandlerStep? {
      OutcomesKeptByHandler(e, s);
    }
  }

  // ---------------------------------------------------------------------------------------------
  // Copies
  // ---------------------------------------------------------------------------------------------

  /** The name lies in one of the directories made so far. */
  ghost predicate InDirs(e: Site, s: State, q: Path) {
    DirLength(e) <= |q| && q[..DirLength(e)] in s.dirs
  }

  ghost predicate DirsNamed(e: Site, s: State) {
    && (forall dir | dir in s.dirs :: DirName(e, dir))
    && (forall q | q in s.files :: q in e.pfs || InDirs(e, s, q))
  }

  /** The worker's copy is its own: not a source, and nobody has been pointed at it. */
  ghost predicate Private(e: Site, s: State, dst: Path) {
    dst !in e.pfs && InDirs(e, s, dst) && forall p | p in s.cache :: s.cache[p] != dst
  }

  ghost predicate CopiesPrivate(e: Site, s: State) {
    s.worker.Copy? || s.worker.WantMap? || s.worker.Publish? ==> Private(e, s, s.worker.dst)
  }

  ghost predicate CopiesComplete(e: Site, s: State) {
    s.worker.WantMap? || s.worker.Publish? ==>
      s.batch != [] && s.batch[0] in e.pfs && s.worker.dst in s.files && s.files[s.worker.dst] == e.pfs[s.batch[0]]
  }

  lemma FreshName(e: Site, s: State, dir: string, path: Path)
    requires ValidSite(e) && DirsNamed(e, s) && Coherent(s.cache, s.files, e.pfs)
    requires DirName(e, dir) && dir !in s.dirs
    ensures CopyName(dir, path) !in s.files
    ensures CopyName(dir, path) !in e.pfs
    ensures forall p | p in s.cache :: s.cache[p] != CopyName(dir, path)
    ensures DirLength(e) <= |CopyName(dir, path)| && CopyName(dir, path)[..DirLength(e)] == dir
  {
    var dst := CopyName(dir, path);
    assert dst[..DirLength(e)] == dir;
    assert e.base + "/" == dir[..|e.base| + 1] == dst[..|e.base| + 1];
  }

  lemma DirsKept(e: Site, s: State, a: Action)
    requires DirsNamed(e, s) && CopiesPrivate(e, s) && Enabled(e, s, a)
    ensures DirsNamed(e, Apply(e, s, a))
  {
    var s' := Apply(e, s, a);
    forall q | q in s'.files ensures q in e.pfs || InDirs(e, s', q) {
      assert q in s.files || q == s.worker.dst;
    }
  }

  lemma PrivacyKeptByWorker(e: Site, s: State)
    requires CopiesPrivate(e, s) && WorkerCan(e, s)
    ensures CopiesPrivate(e, WorkerNext(e, s))
  {
  }

  lemma PrivacyOfNewCopy(e: Site, s: State, dir: string)
    requires ValidSite(e) && DirsNamed(e, s) && Coherent(s.cache, s.files, e.pfs) && Enabled(e, s, MakeDir(dir))
    ensures CopiesPrivate(e, Apply(e, s, MakeDir(dir)))
  {
    FreshName(e, s, dir, s.batch[0]);
  }

  lemma PrivacyKept(e: Site, s: State, a: Action)
    requires ValidSite(e) && DirsNamed(e, s) && CopiesPrivate(e, s) && Coherent(s.cache, s.files, e.pfs)
    requires Enabled(e, s, a)
    ensures CopiesPrivate(e, Apply(e, s, a))
  {
    if a.MakeDir? {
      PrivacyOfNewCopy(e, s, a.dir);
    } else if a.WorkerStep? {
      PrivacyKeptByWorker(e, s);
    }
  }

  lemma CompletenessKept(e: Site, s: State, a: Action)
    requires CopiesComplete(e, s) && Conserved(s) && Enabled(e, s, a)
    ensures CopiesComplete(e, Apply(e, s, a))
  {
  }

  lemma CoherenceKeptByWorker(e: Site, s: State)
    requires CopiesPrivate(e, s) && CopiesComplete(e, s) && Coherent(s.cache, s.files, e.pfs) && WorkerCan(e, s)
    ensures Coherent(WorkerNext(e, s).cache, WorkerNext(e, s).files, e.pfs)
  {
  }

  lemma CoherenceKept(e: Site, s: State, a: Action)
    requires CopiesPrivate(e, s) && CopiesComplete(e, s) && Coherent(s.cache, s.files, e.pfs) && Enabled(e, s, a)
    ensures Coherent(Apply(e, s, a).cache, Apply(e, s, a).files, e.pfs)
  {
    if a.WorkerStep? {
      CoherenceKeptByWorker(e, s);
    }
  }

  /** Whatever a path leads to lies in one of the mover's directories. */
  ghost predicate CacheInDirs(e: Site, s: State) {
    forall p | p in s.cache :: InDirs(e, s, s.cache[p])
  }

  lemma CacheInDirsKept(e: Site, s: State, a: Action)
    requires CacheInDirs(e, s) && CopiesPrivate(e, s) && Enabled(e, s, a)
    ensures CacheInDirs(e, Apply(e, s, a))
  {
    var s' := Apply(e, s, a);
    assert s.dirs <= s'.dirs;
    forall p | p in s'.cache ensures InDirs(e, s', s'.cache[p]) {
      assert InDirs(e, s, s'.cache[p]);
    }
  }

  /** The name a handler is about to open leads to the file's bytes, although it no longer holds the lock
      under which it looked the name up. */
  ghost predicate RedirectionValid(e: Site, s: State) {
    (s.handler.OpenUnlock? || s.handler.Opening?) && s.handler.path in e.pfs ==>
      && s.handler.redir in s.files && s.files[s.handler.redir] == e.pfs[s.handler.path]
      && (s.worker.Copy? ==> s.handler.redir != s.worker.dst)
  }

  lemma RedirectionKeptByWorker(e: Site, s: State)
    requires CopiesPrivate(e, s) && RedirectionValid(e, s) && WorkerCan(e, s)
    ensures RedirectionValid(e, WorkerNext(e, s))
  {
  }

  lemma RedirectionKeptByHandler(e: Site, s: State)
    requires CopiesPrivate(e, s) && Coherent(s.cache, s.files, e.pfs) && RedirectionValid(e, s) && HandlerCan(e, s)
    ensures RedirectionValid(e, HandlerNext(e, s))
  {
  }

  lemma RedirectionKept(e: Site, s: State, a: Action)
    requires ValidSite(e) && DirsNamed(e, s) && CopiesPrivate(e, s) && Coherent(s.cache, s.files, e.pfs)
    requires RedirectionValid(e, s) && Enabled(e, s, a)
    ensures RedirectionValid(e, Apply(e, s, a))
  {
    if a.MakeDir? {
      FreshName(e, s, a.dir, s.batch[0]);
    } else if a.WorkerStep? {
      RedirectionKeptByWorker(e, s);
    } else if a.HandlerStep? {
      RedirectionKeptByHandler(e, s);
    }
  }

  // ---------------------------------------------------------------------------------------------
  // The invariant
  // ---------------------------------------------------------------------------------------------

  ghost predicate Inv(e: Site, s: State) {
    && LocksHeld(e, s)
    && (e.rechecks ==> SleepInv(e, s))
    && Conserved(s) && OutcomesTrue(s)
    && DirsNamed(e, s) && CopiesPrivate(e, s) && CopiesComplete(e, s)
    && CacheInDirs(e, s) && Coherent(s.cache, s.files, e.pfs)
    && RedirectionValid(e, s)
  }

  lemma InvInit(e: Site)
    ensures Inv(e, Init(e))
  {
  }

  lemma InvKept(e: Site, s: State, a: Action)
    requires ValidSite(e) && Inv(e, s) && Enabled(e, s, a)
    ensures Inv(e, Apply(e, s, a))
  {
    DataLockKept(e, s, a);
    MapLockKept(e, s, a);
    if e.rechecks {
      SleepKept(e, s, a);
    }
    OrderKept(e, s, a);
    BatchKept(e, s, a);
    OutcomesKept(e, s, a);
    DirsKept(e, s, a);
    PrivacyKept(e, s, a);
    CompletenessKept(e, s, a);
    CacheInDirsKept(e, s, a);
    CoherenceKept(e, s, a);
    RedirectionKept(e, s, a);
  }

  lemma {:induction false} InvAlways(e: Site, s: State, actions: seq<Action>)
    requires ValidSite(e) && Inv(e, s) && IsRun(e, s, actions)
    ensures Inv(e, After(e, s, actions))
    decreases |actions|
  {
    if actions != [] {
      InvKept(e, s, actions[0]);
      InvAlways(e, Apply(e, s, actions[0]), actions[1..]);
    }
  }

  // ---------------------------------------------------------------------------------------------
  // What it promises
  // ---------------------------------------------------------------------------------------------

  /** Cache coherence over every interleaving: a cached path leads to a complete copy, and the name a
      handler is about to open, found under a lock it has since released, has the source's bytes. */
  lemma CacheAlwaysCoherent(e: Site, actions: seq<Action>)
    requires ValidSite(e) && IsRun(e, Init(e), actions)
    ensures
      var s := After(e, Init(e), actions);
      && Coherent(s.cache, s.files, e.pfs)
      && ((s.handler.OpenUnlock? || s.handler.Opening?) && s.handler.path in e.pfs ==>
            s.handler.redir in s.files && s.files[s.handler.redir] == e.pfs[s.handler.path])
  {
    InvInit(e);
    InvAlways(e, Init(e), actions);
  }

  /** The open handler looks the name up, unlocks, and opens: the descriptor it gets is the one the
      handler would have got by doing all of it at once, whatever was published in between. */
  lemma OpenIsAtomic(e: Site, s: State, table: map<int, Description>, fdToPath: map<int, Path>, fd: int)
    requires Inv(e, s) && s.handler.Opening? && s.handler.path in e.pfs
    requires 0 <= fd && fd !in table
    ensures
      var server := Servers.State(table, fdToPath, s.cache, s.files, s.queue);
      && s.handler.redir in s.files
      && OpenReturns(server, s.handler.path, fd)
      && HandleOpen(server, s.handler.path, fd).table == table[fd := Description(s.files[s.handler.redir], 0)]
  {
    var server := Servers.State(table, fdToPath, s.cache, s.files, s.queue);
    RedirectionIsTransparent(server, e.pfs, s.handler.path, fd);
  }

  /** What lies in the mover's directories is not on the parallel file system. */
  lemma NotOnPfs(e: Site, s: State, q: Path)
    requires ValidSite(e) && DirsNamed(e, s) && InDirs(e, s, q)
    ensures q !in e.pfs
  {
    var dir := q[..DirLength(e)];
    assert DirName(e, dir);
    assert e.base + "/" == dir[..|e.base| + 1] == q[..|e.base| + 1];
  }

  /** What open(2) is handed: the copy of a path that is cached, the path itself if it is not. */
  lemma LookupPicksTheCopy(e: Site, s: State)
    requires ValidSite(e) && Inv(e, s) && s.handler.OpenLook?
    ensures
      var path, h := s.handler.path, HandlerNext(e, s).handler;
      && h.OpenUnlock? && h.path == path
      && if path in s.cache then h.redir == s.cache[path] && InDirs(e, s, h.redir) && h.redir !in e.pfs
         else h.redir == path
  {
    if s.handler.path in s.cache {
      NotOnPfs(e, s, s.cache[s.handler.path]);
    }
  }

  /** The open of a cached path is on its way, or over; once looked up, the name is in a directory of the
      mover's. */
  ghost predicate OpeningCopy(e: Site, s: State, path: Path) {
    && path in s.cache
    && (s.handler == Idle || s.handler == OpenWant(path) || s.handler == OpenLook(path) ||
        ((s.handler.OpenUnlock? || s.handler.Opening?) && s.handler.path == path && InDirs(e, s, s.handler.redir)))
  }

  predicate NewRequest(a: Action) {
    a.BeginOpen? || a.BeginClose?
  }

  lemma OpeningCopyKept(e: Site, s: State, a: Action, path: Path)
    requires CacheInDirs(e, s) && OpeningCopy(e, s, path) && Enabled(e, s, a) && !NewRequest(a)
    ensures OpeningCopy(e, Apply(e, s, a), path)
  {
    var s' := Apply(e, s, a);
    assert s.dirs <= s'.dirs && s.cache.Keys <= s'.cache.Keys;
    if !a.HandlerStep? {
      assert s'.handler == s.handler;
    }
  }

  /** When an open of a cached path comes in, then whatever the mover does until it is handled, the name that
      is opened is a complete copy in one of the mover's directories, never the file on the parallel file
      system. */
  lemma {:induction false} CachedOpenUsesTheCopy(e: Site, s: State, actions: seq<Action>, path: Path)
    requires ValidSite(e) && Inv(e, s) && IsRun(e, s, actions) && OpeningCopy(e, s, path)
    requires forall i | 0 <= i < |actions| :: !NewRequest(actions[i])
    ensures
      var s' := After(e, s, actions);
      s'.handler.Opening? ==>
        && s'.handler.path == path && InDirs(e, s', s'.handler.redir) && s'.handler.redir !in e.pfs
        && path in e.pfs && s'.handler.redir in s'.files && s'.files[s'.handler.redir] == e.pfs[path]
    decreases |actions|
  {
    if actions == [] {
      if s.handler.Opening? {
        NotOnPfs(e, s, s.handler.redir);
      }
    } else {
      assert !NewRequest(actions[0]);
      OpeningCopyKept(e, s, actions[0], path);
      InvKept(e, s, actions[0]);
      CachedOpenUsesTheCopy(e, Apply(e, s, actions[0]), actions[1..], path);
    }
  }

  /** A close of the path is on its way, or over: whether it has queued the path, `before` having been queued
      when it came in. It has not if the path was cached then; and if it ends without queueing it, the path
      is cached by then. */
  ghost predicate ClosingPath(e: Site, s: State, path: Path, cached: bool, before: seq<Path>) {
    && (cached ==> path in s.cache)
    && match s.handler
       case CloseWant(p) => p == path && s.pushed == before
       case CloseLook(p) => p == path && s.pushed == before
       case PushWant(p) => p == path && !cached && s.pushed == before
       case Push(p) => p == path && !cached && s.pushed == before
       case Signal(p) => p == path && !cached && s.pushed == if e.backup then before else before + [path]
       case PushUnlock(p) => p == path && !cached && s.pushed == before + [path]
       case CloseUnlock(p) => p == path && QueuedUnlessCached(s, path, cached, before)
       case Idle => QueuedUnlessCached(s, path, cached, before)
       case _ => false
  }

  ghost predicate QueuedUnlessCached(s: State, path: Path, cached: bool, before: seq<Path>) {
    (!cached && s.pushed == before + [path]) || (path in s.cache && s.pushed == before)
  }

  lemma ClosingPathKept(e: Site, s: State, a: Action, path: Path, cached: bool, before: seq<Path>)
    requires ClosingPath(e, s, path, cached, before) && Enabled(e, s, a) && !NewRequest(a)
    ensures ClosingPath(e, Apply(e, s, a), path, cached, before)
  {
    var s' := Apply(e, s, a);
    assert s.cache.Keys <= s'.cache.Keys;
    if !a.HandlerStep? {
      assert s'.handler == s.handler && s'.pushed == s.pushed;
    }
  }

  lemma {:induction false} ClosingPathAlways(e: Site, s: State, actions: seq<Action>, path: Path, cached: bool,
                                             before: seq<Path>)
    requires IsRun(e, s, actions) && ClosingPath(e, s, path, cached, before)
    requires forall i | 0 <= i < |actions| :: !NewRequest(actions[i])
    ensures ClosingPath(e, After(e, s, actions), path, cached, before)
    decreases |actions|
  {
    if actions != [] {
      assert !NewRequest(actions[0]);
      ClosingPathKept(e, s, actions[0], path, cached, before);
      ClosingPathAlways(e, Apply(e, s, actions[0]), actions[1..], path, cached, before);
    }
  }

  /** A close, whatever the mover does meanwhile: of a path that was cached when it came in it queues nothing,
      of one that is still not cached when it is over it has queued exactly that path, once; in between it
      does one or the other. */
  lemma CloseQueuesExactly(e: Site, s: State, actions: seq<Action>, path: Path)
    requires IsRun(e, s, actions) && s.handler == CloseWant(path)
    requires forall i | 0 <= i < |actions| :: !NewRequest(actions[i])
    requires After(e, s, actions).handler == Idle
    ensures
      var s' := After(e, s, actions);
      && (path in s.cache ==> s'.pushed == s.pushed)
      && (path !in s'.cache ==> s'.pushed == s.pushed + [path])
      && (s'.pushed == s.pushed || s'.pushed == s.pushed + [path])
  {
    ClosingPathAlways(e, s, actions, path, path in s.cache, s.pushed);
  }

  /** q is a complete copy of p and is not being written. */
  ghost predicate IsCopy(e: Site, s: State, p: Path, q: Path) {
    p in e.pfs && q in s.files && s.files[q] == e.pfs[p] && (s.worker.Copy? ==> s.worker.dst != q)
  }

  /** Only the copy being made is ever written. */
  lemma FilesStep(e: Site, s: State, a: Action)
    requires Enabled(e, s, a)
    ensures forall q | q in s.files && (s.worker.Copy? ==> q != s.worker.dst) ::
      q in Apply(e, s, a).files && Apply(e, s, a).files[q] == s.files[q]
    ensures s.cache.Keys <= Apply(e, s, a).cache.Keys
    ensures Apply(e, s, a).worker.Copy? && !a.MakeDir? ==> Apply(e, s, a).worker == s.worker
  {
  }

  lemma CopyStays(e: Site, s: State, a: Action, p: Path, q: Path)
    requires ValidSite(e) && DirsNamed(e, s) && Coherent(s.cache, s.files, e.pfs) && Enabled(e, s, a)
    requires IsCopy(e, s, p, q) && p in s.cache
    ensures IsCopy(e, Apply(e, s, a), p, q) && p in Apply(e, s, a).cache
  {
    FilesStep(e, s, a);
    if a.MakeDir? {
      FreshName(e, s, a.dir, s.batch[0]);
    }
  }

  lemma {:induction false} CopyStaysForGood(e: Site, s: State, actions: seq<Action>, p: Path, q: Path)
    requires ValidSite(e) && Inv(e, s) && IsRun(e, s, actions) && IsCopy(e, s, p, q) && p in s.cache
    ensures IsCopy(e, After(e, s, actions), p, q) && p in After(e, s, actions).cache
    decreases |actions|
  {
    if actions != [] {
      CopyStays(e, s, actions[0], p, q);
      InvKept(e, s, actions[0]);
      CopyStaysForGood(e, Apply(e, s, actions[0]), actions[1..], p, q);
    }
  }

  /** Once cached, a path stays cached, and the copy it led to keeps its bytes for ever, even when a
      second request has meanwhile replaced it by another copy. */
  lemma CachedForGood(e: Site, s: State, actions: seq<Action>, p: Path)
    requires ValidSite(e) && Inv(e, s) && IsRun(e, s, actions) && p in s.cache
    ensures
      var s' := After(e, s, actions);
      p in s'.cache && p in e.pfs && s.cache[p] in s'.files && s'.files[s.cache[p]] == e.pfs[p]
  {
    assert IsCopy(e, s, p, s.cache[p]);
    CopyStaysForGood(e, s, actions, p, s.cache[p]);
  }

  /** The steps a close has still to take, by where it is. */
  ghost function StepsLeft(e: Site, h: Handler): nat {
    match h
    case CloseLook(_) => 6
    case PushWant(_) => 5
    case Push(_) => if e.backup then 3 else 4
    case Signal(_) => if e.backup then 4 else 3
    case PushUnlock(_) => 2
    case CloseUnlock(_) => 1
    case _ => 0
  }

  /** The handler is in the middle of a close, nobody else has moved, and the queue, which was `before`, will
      end as `after`. */
  ghost predicate ClosingAlone(e: Site, s: State, path: Path, before: seq<Path>, after: seq<Path>) {
    match s.handler
    case CloseLook(p) =>
      p == path && s.dataLock == Free && s.queue == before
      && (if path in s.cache then after == before else after == before + [path])
    case PushWant(p) => p == path && s.dataLock == Free && s.queue == before && after == before + [path]
    case Push(p) => p == path && s.queue == before && after == before + [path]
    case Signal(p) =>
      p == path && after == before + [path] && s.queue == if e.backup then before else after
    case PushUnlock(p) => s.queue == after
    case CloseUnlock(p) => s.queue == after
    case Idle => s.queue == after
    case _ => false
  }

  lemma ClosingAloneStep(e: Site, s: State, path: Path, before: seq<Path>, after: seq<Path>)
    requires ClosingAlone(e, s, path, before, after) && s.handler != Idle
    ensures HandlerCan(e, s)
    ensures ClosingAlone(e, HandlerNext(e, s), path, before, after)
    ensures StepsLeft(e, HandlerNext(e, s).handler) < StepsLeft(e, s.handler)
  {
  }

  lemma {:induction false} ClosingAloneEnds(e: Site, s: State, path: Path, before: seq<Path>, after: seq<Path>)
    returns (actions: seq<Action>)
    requires ClosingAlone(e, s, path, before, after)
    ensures IsRun(e, s, actions) && After(e, s, actions).handler == Idle && After(e, s, actions).queue == after
    ensures forall i | 0 <= i < |actions| :: actions[i] == HandlerStep
    decreases StepsLeft(e, s.handler)
  {
    if s.handler == Idle {
      actions := [];
    } else {
      ClosingAloneStep(e, s, path, before, after);
      var rest := ClosingAloneEnds(e, HandlerNext(e, s), path, before, after);
      actions := [HandlerStep] + rest;
      assert actions[1..] == rest;
    }
  }

  /** With the mover standing still, the steps of a close queue what the handler of module Servers queues in one:
      nothing if the descriptor's path is cached, that path otherwise. */
  lemma CloseIsHandleClose(e: Site, s: State, table: map<int, Description>, fdToPath: map<int, Path>, fd: int)
    returns (actions: seq<Action>)
    requires s.handler.CloseLook? && s.dataLock == Free
    requires s.handler.path == if fd in fdToPath then fdToPath[fd] else ""
    ensures IsRun(e, s, actions) && forall i | 0 <= i < |actions| :: actions[i] == HandlerStep
    ensures After(e, s, actions).handler == Idle
    ensures
      var server := Servers.State(table, fdToPath, s.cache, s.files, s.queue);
      After(e, s, actions).queue == HandleClose(server, fd).0.queue
    ensures After(e, s, actions).queue == s.queue + if s.handler.path in s.cache then [] else [s.handler.path]
  {
    var path := s.handler.path;
    var after := if path in s.cache then s.queue else s.queue + [path];
    actions := ClosingAloneEnds(e, s, path, s.queue, after);
    assert s.queue + [] == s.queue;
  }

  /** Every request ever queued is, in order, dealt with, in the mover's list or in the queue; what was
      dealt with is cached unless its copy failed. */
  lemma RequestsConserved(e: Site, actions: seq<Action>)
    requires ValidSite(e) && IsRun(e, Init(e), actions)
    ensures
      var s := After(e, Init(e), actions);
      && s.pushed == Paths(s.processed) + s.batch + s.queue
      && forall i | 0 <= i < |s.processed| && s.processed[i].cached :: s.processed[i].path in s.cache
  {
    InvInit(e);
    InvAlways(e, Init(e), actions);
  }

  function FailedCopies(done: seq<Done>): nat {
    if done == [] then 0 else FailedCopies(done[..|done| - 1]) + (if done[|done| - 1].cached then 0 else 1)
  }

  function Failures(actions: seq<Action>): nat {
    if actions == [] then 0 else (if actions[0].CopyFails? then 1 else 0) + Failures(actions[1..])
  }

  /** Failures recorded or about to be. */
  ghost function Recorded(s: State): nat {
    FailedCopies(s.processed) + (if s.worker == Pop(false) then 1 else 0)
  }

  lemma RecordedStep(e: Site, s: State, a: Action)
    requires Enabled(e, s, a)
    ensures Recorded(Apply(e, s, a)) == Recorded(s) + (if a.CopyFails? then 1 else 0)
  {
    if a.WorkerStep? && s.worker.Pop? {
      var d := Done(s.batch[0], s.worker.cached);
      assert (s.processed + [d])[..|s.processed|] == s.processed;
    } else {
      assert Apply(e, s, a).processed == s.processed;
    }
  }

  /** A path is recorded as not cached only for a copy that failed, once for each. */
  lemma {:induction false} FailuresExact(e: Site, s: State, actions: seq<Action>)
    requires IsRun(e, s, actions)
    ensures Recorded(After(e, s, actions)) == Recorded(s) + Failures(actions)
    decreases |actions|
  {
    if actions != [] {
      RecordedStep(e, s, actions[0]);
      FailuresExact(e, Apply(e, s, actions[0]), actions[1..]);
    }
  }

  ghost predicate WorkerMoves(e: Site, s: State) {
    Enabled(e, s, WorkerStep) || Enabled(e, s, CopyFails)
  }

  lemma LockCases(lock: Lock)
    ensures lock == Free || lock == By(Progress) || lock == By(Copier)
  {
    if lock.By? {
      match lock.holder
      case Progress =>
      case Copier =>
    }
  }

  /** No deadlock: a thread that cannot move is waiting for a mutex that the other one holds, and the
      other one can move. Idle and asleep are not waiting for a mutex. */
  lemma NoDeadlock(e: Site, s: State)
    requires Inv(e, s)
    ensures s.handler == Idle || Enabled(e, s, HandlerStep) || WorkerMoves(e, s)
    ensures s.worker == Asleep || WorkerMoves(e, s) || Enabled(e, s, HandlerStep)
    ensures s.handler != Idle && !Enabled(e, s, HandlerStep) ==>
      (s.handler.PushWant? && s.dataLock == By(Copier)) || (!s.handler.PushWant? && s.mapLock == By(Copier))
    ensures s.worker != Asleep && !WorkerMoves(e, s) ==>
      (s.worker.WantMap? && s.mapLock == By(Progress)) || (!s.worker.WantMap? && s.dataLock == By(Progress))
  {
    LockCases(s.dataLock);
    LockCases(s.mapLock);
  }

  /** The mover never holds both mutexes. */
  lemma WorkerHoldsOne(e: Site, s: State)
    requires LocksHeld(e, s)
    ensures !(s.dataLock == By(Copier) && s.mapLock == By(Copier))
  {
  }

  /** When the mover sleeps and no handler is running, everything ever queued has been dealt with. */
  lemma QuietMeansDone(e: Site, s: State)
    requires e.rechecks && Inv(e, s) && s.handler == Idle && s.worker == Asleep
    ensures s.pushed == Paths(s.processed)
  {
    assert s.queue == [] && s.batch == [];
    assert Paths(s.processed) + [] + [] == Paths(s.processed);
  }

  function ThreadOf(a: Action): Thread {
    if a.BeginOpen? || a.BeginClose? || a.HandlerStep? then Progress else Copier
  }

  /** A thread that does not hold data_mutex neither changes the queue nor depends on it. */
  lemma QueueIsGuarded(e: Site, s: State, a: Action, queue: seq<Path>)
    requires DataLockHeld(s) && Enabled(e, s, a) && s.dataLock != By(ThreadOf(a))
    ensures Enabled(e, s.(queue := queue), a)
    ensures Apply(e, s.(queue := queue), a) == Apply(e, s, a).(queue := queue)
  {
  }

  /** A thread that does not hold path_map_mutex neither changes the map nor depends on it. */
  lemma CacheIsGuarded(e: Site, s: State, a: Action, cache: map<Path, Path>)
    requires !e.backup && MapLockHeld(e, s) && Enabled(e, s, a) && s.mapLock != By(ThreadOf(a))
    ensures Enabled(e, s.(cache := cache), a)
    ensures Apply(e, s.(cache := cache), a) == Apply(e, s, a).(cache := cache)
  {
  }

  // ---------------------------------------------------------------------------------------------
  // The unconditional wait
  // ---------------------------------------------------------------------------------------------

  lemma {:induction false} RunConcat(e: Site, s: State, xs: seq<Action>, ys: seq<Action>)
    requires IsRun(e, s, xs) && IsRun(e, After(e, s, xs), ys)
    ensures IsRun(e, s, xs + ys) && After(e, s, xs + ys) == After(e, After(e, s, xs), ys)
    decreases |xs|
  {
    if xs == [] {
      assert xs + ys == ys;
    } else {
      assert (xs + ys)[1..] == xs[1..] + ys;
      RunConcat(e, Apply(e, s, xs[0]), xs[1..], ys);
    }
  }

  lemma {:induction false} OneMoreStep(e: Site, s: State, xs: seq<Action>, a: Action)
    requires IsRun(e, s, xs) && Enabled(e, After(e, s, xs), a)
    ensures IsRun(e, s, xs + [a]) && After(e, s, xs + [a]) == Apply(e, After(e, s, xs), a)
    decreases |xs|
  {
    if xs == [] {
      assert [a][1..] == [];
    } else {
      assert (xs + [a])[1..] == xs[1..] + [a];
      OneMoreStep(e, Apply(e, s, xs[0]), xs[1..], a);
    }
  }

  /** A close on its way through the handler, after the given number of steps. */
  ghost function Closing(e: Site, p: Path, steps: nat): State {
    var free := Init(e);
    var looking := free.(mapLock := if e.backup then Free else By(Progress));
    var locked := looking.(dataLock := By(Progress));
    if steps == 0 then free.(handler := CloseWant(p))
    else if steps == 1 then looking.(handler := CloseLook(p))
    else if steps == 2 then looking.(handler := PushWant(p))
    else if steps == 3 then locked.(handler := if e.backup then Signal(p) else Push(p))
    else if steps == 4 then
      if e.backup then locked.(handler := Push(p)) else locked.(handler := Signal(p), queue := [p], pushed := [p])
    else if steps == 5 then locked.(handler := PushUnlock(p), queue := [p], pushed := [p])
    else if steps == 6 then looking.(handler := CloseUnlock(p), queue := [p], pushed := [p])
    else free.(queue := [p], pushed := [p])
  }

  lemma NextClosing(e: Site, p: Path, steps: nat)
    requires steps < 7
    ensures Enabled(e, Closing(e, p, steps), HandlerStep)
    ensures Apply(e, Closing(e, p, steps), HandlerStep) == Closing(e, p, steps + 1)
  {
  }

  /** A close handled before the mover first waits. */
  lemma ClosedBeforeTheWait(e: Site, p: Path) returns (actions: seq<Action>)
    ensures IsRun(e, Init(e), actions)
    ensures After(e, Init(e), actions) == Init(e).(queue := [p], pushed := [p])
  {
    actions := [BeginClose(p)];
    assert After(e, Init(e), actions) == Closing(e, p, 0);
    var i := 0;
    while i < 7
      invariant 0 <= i <= 7 && IsRun(e, Init(e), actions)
      invariant After(e, Init(e), actions) == Closing(e, p, i)
    {
      NextClosing(e, p, i);
      OneMoreStep(e, Init(e), actions, HandlerStep);
      actions := actions + [HandlerStep];
      i := i + 1;
    }
  }

  /** Waiting without looking at the queue first loses the wake-up of a close that came earlier, with the
      committed handlers as with the backup's: the mover sleeps, the request is queued, and nobody is about
      to signal. */
  lemma UnconditionalWaitLosesWakeups(e: Site, p: Path) returns (actions: seq<Action>)
    requires !e.rechecks
    ensures IsRun(e, Init(e), actions)
    ensures
      var s := After(e, Init(e), actions);
      s.worker == Asleep && s.queue == [p] && s.handler == Idle
  {
    actions := ClosedBeforeTheWait(e, p);
    OneMoreStep(e, Init(e), actions, WorkerStep);
    actions := actions + [WorkerStep];
    OneMoreStep(e, Init(e), actions, WorkerStep);
    actions := actions + [WorkerStep];
  }

  /** No wake-up is lost over any interleaving exactly when the wait looks at the queue first; the order of
      push and signal makes no difference. */
  lemma NoLostWakeupExactly(e: Site)
    requires ValidSite(e)
    ensures e.rechecks <==> forall actions | IsRun(e, Init(e), actions) :: SleepsSoundly(After(e, Init(e), actions))
  {
    if e.rechecks {
      forall actions | IsRun(e, Init(e), actions) ensures SleepsSoundly(After(e, Init(e), actions)) {
        InvInit(e);
        InvAlways(e, Init(e), actions);
      }
    } else {
      var actions := UnconditionalWaitLosesWakeups(e, "p");
      assert !SleepsSoundly(After(e, Init(e), actions));
    }
  }
}
