/** The server side of hvac_comm.cpp: the four request handlers as functions on the server's state, and
    the object whose methods run them. Requests are handled one at a time by the progress thread. */
module Servers {
  import opened Posix

  type Path = string

  type Files = map<Path, Bytes>

  /** `table` is the server process's own descriptor table; `files` is what its node can open, the
      parallel file system and its NVMe copies. */
  datatype State = State(
    table: map<int, Description>,
    fdToPath: map<int, Path>,
    cache: map<Path, Path>,
    files: Files,
    queue: seq<Path>)

  /** Every cached path leads to a complete copy of the file on the parallel file system. */
  ghost predicate Coherent(cache: map<Path, Path>, files: Files, pfs: Files) {
    && (forall p | p in pfs :: p in files && files[p] == pfs[p])
    && (forall p | p in cache :: p in pfs && cache[p] in files && files[cache[p]] == pfs[p])
  }

  function Redirected(cache: map<Path, Path>, path: Path): Path {
    if path in cache then cache[path] else path
  }

  /** What open(2) may return for the redirected path: -1, or any descriptor that is free. */
  predicate OpenReturns(s: State, path: Path, fd: int) {
    fd == -1 || (0 <= fd && fd !in s.table && Redirected(s.cache, path) in s.files)
  }

  function HandleOpen(s: State, path: Path, fd: int): State
    requires OpenReturns(s, path, fd)
  {
    s.(table := if fd == -1 then s.table else s.table[fd := Description(s.files[Redirected(s.cache, path)], 0)],
       fdToPath := s.fdToPath[fd := path])
  }

  /** The value of `fd_to_path[fd]`: looking a missing key up creates it with the empty string. */
  function PathOf(s: State, fd: int): Path {
    if fd in s.fdToPath then s.fdToPath[fd] else ""
  }

  function Mentioned(s: State, fd: int): State {
    s.(fdToPath := s.fdToPath[fd := PathOf(s, fd)])
  }

  /** Offset -1 selects read, every other offset pread. */
  function HandleRead(s: State, fd: int, count: nat, offset: int): (State, IoResult) {
    var logged := Mentioned(s, fd);
    if fd !in s.table then
      (logged, FAILED)
    else if offset == -1 then
      var (d, r) := Posix.Read(s.table[fd], count);
      (logged.(table := s.table[fd := d]), r)
    else
      (logged, Pread(s.table[fd].content, count, offset))
  }

  /** The request carries offset and reply as 32-bit numbers. */
  function HandleSeek(s: State, fd: int, offset: int, whence: int): (State, int) {
    if fd !in s.table then
      (s, -1)
    else
      var (d, r) := Lseek(s.table[fd], AsInt32(offset), whence);
      (s.(table := s.table[fd := d]), AsInt32(r))
  }

  /** Closes the descriptor, asks for its path to be copied unless it is cached, and forgets it. */
  function HandleClose(s: State, fd: int): (State, int) {
    var path := PathOf(s, fd);
    (s.(table := s.table - {fd},
        fdToPath := s.fdToPath - {fd},
        queue := if path in s.cache then s.queue else s.queue + [path]),
     if fd in s.table then 0 else -1)
  }

  /** An open that is redirected to a copy sees the same bytes as an open of the original. */
  lemma RedirectionIsTransparent(s: State, pfs: Files, path: Path, fd: int)
    requires Coherent(s.cache, s.files, pfs) && path in pfs
    requires OpenReturns(s, path, fd) && fd != -1
    ensures HandleOpen(s, path, fd).table[fd] == Description(pfs[path], 0)
  {
  }

  /** `pfs` is what the parallel file system holds, which the server may or may not have copied. */
  class Server {
    ghost const pfs: Files
    var table: map<int, Description>
    var fdToPath: map<int, Path>
    var pathCacheMap: map<Path, Path>
    var files: Files
    var dataQueue: seq<Path>

    ghost function Abstract(): State
      reads this
    {
      State(table, fdToPath, pathCacheMap, files, dataQueue)
    }

    /** The cache is coherent, and every open descriptor has a path and shows that file of the PFS, whether
        it was opened there or in a copy. */
    ghost predicate Valid()
      reads this
    {
      && Coherent(pathCacheMap, files, pfs)
      && forall fd | fd in table ::
           0 <= fd && fd in fdToPath && (fdToPath[fd] in pfs ==> table[fd].content == pfs[fdToPath[fd]])
    }

    /** The descriptor is open on a file of the PFS. */
    ghost predicate Shows(fd: int)
      reads this
    {
      fd in table && fd in fdToPath && fdToPath[fd] in pfs
    }

    /** A plain descriptor of that file, at the same position. */
    ghost function Plain(fd: int): Description
      reads this
      requires Shows(fd)
    {
      Description(pfs[fdToPath[fd]], table[fd].offset)
    }

    constructor (pfs: Files)
      ensures this.pfs == pfs && Valid() && Abstract() == State(map[], map[], map[], pfs, [])
    {
      this.pfs := pfs;
      table, fdToPath, pathCacheMap, files, dataQueue := map[], map[], map[], pfs, [];
    }

    /** The caller names the descriptor that open(2) returns. It is on the copy if the path is cached, and
        on the path itself otherwise; on a file of the PFS it is a plain one at position 0 either way. */
    method OpenHandler(path: Path, fd: int) returns (retStatus: int)
      requires OpenReturns(Abstract(), path, fd)
      modifies this`table, this`fdToPath
      ensures retStatus == fd && Abstract() == HandleOpen(old(Abstract()), path, fd)
      ensures old(Valid()) ==> Valid()
      ensures old(Valid()) && fd != -1 && path in pfs ==>
        fd !in old(table) && Shows(fd) && Plain(fd) == Description(pfs[path], 0) == table[fd]
      ensures fdToPath == old(fdToPath)[fd := path] && table.Keys == old(table.Keys) + (if fd == -1 then {} else {fd})
      ensures forall x | x in old(table) :: table[x] == old(table)[x]
      ensures fd != -1 ==>
        if path in pathCacheMap
        then pathCacheMap[path] in files && table[fd] == Description(files[pathCacheMap[path]], 0)
        else path in files && table[fd] == Description(files[path], 0)
    {
      var redirPath := path;
      if redirPath in pathCacheMap {
        redirPath := pathCacheMap[redirPath];
      }
      if fd != -1 {
        table := table[fd := Description(files[redirPath], 0)];
      }
      retStatus := fd;
      fdToPath := fdToPath[retStatus := path];
    }

    /** On a file of the PFS the answer is a plain read's or pread's: that file's bytes from the position or
        the offset on. Only a read moves the position, by what it gave. */
    method ReadHandler(accessFd: int, count: nat, offset: int) returns (r: IoResult)
      modifies this`table, this`fdToPath
      ensures (Abstract(), r) == HandleRead(old(Abstract()), accessFd, count, offset)
      ensures old(Valid()) ==> Valid()
      ensures old(Valid()) && old(Shows(accessFd)) ==>
        && Shows(accessFd)
        && r == (if offset == -1 then Posix.Read(old(Plain(accessFd)), count).1
                 else Pread(old(Plain(accessFd)).content, count, offset))
        && Plain(accessFd) == (if offset == -1 then Posix.Read(old(Plain(accessFd)), count).0 else old(Plain(accessFd)))
      ensures old(Valid()) && old(Shows(accessFd)) && -1 <= offset ==>
        Gives(r, pfs[old(fdToPath)[accessFd]], if offset == -1 then old(table)[accessFd].offset else offset, count)
      ensures accessFd in old(table) ==>
        (accessFd in table && table[accessFd].offset - old(table)[accessFd].offset == if offset == -1 then r.ret else 0)
      ensures r.ret == -1 <==> accessFd !in old(table) || offset < -1
      ensures r.ret == -1 ==> r.data == [] && table == old(table)
      ensures fdToPath == if accessFd in old(fdToPath) then old(fdToPath) else old(fdToPath)[accessFd := ""]
    {
      r := FAILED;
      if accessFd in table {
        if offset == -1 {
          var after := Posix.Read(table[accessFd], count);
          table, r := table[accessFd := after.0], after.1;
        } else {
          r := Pread(table[accessFd].content, count, offset);
        }
      }
      if accessFd !in fdToPath {
        fdToPath := fdToPath[accessFd := ""];
      }
      assert fdToPath == old(fdToPath)[accessFd := PathOf(old(Abstract()), accessFd)];
    }

    /** On a file of the PFS, within 32 bits, the answer and the new position are a plain lseek's: counted
        from the file's start, from the position or from the file's end. */
    method SeekHandler(fd: int, offset: int, whence: int) returns (ret: int)
      modifies this`table
      ensures (Abstract(), ret) == HandleSeek(old(Abstract()), fd, offset, whence)
      ensures old(Valid()) ==> Valid()
      ensures old(Valid()) && old(Shows(fd)) && FitsInt32(offset) ==>
        Shows(fd) && (FitsInt32(Lseek(old(Plain(fd)), offset, whence).1) ==>
          (Plain(fd), ret) == Lseek(old(Plain(fd)), offset, whence) &&
          Sought(old(Plain(fd)), offset, whence, Plain(fd), ret))
      ensures fd !in old(table) ==> ret == -1 && table == old(table)
    {
      if fd !in table {
        return -1;
      }
      var after := Lseek(table[fd], AsInt32(offset), whence);
      table := table[fd := after.0];
      ret := AsInt32(after.1);
    }

    /** Exactly this descriptor and its path are gone, and the path is asked to be copied unless it is
        cached already. */
    method CloseHandler(fd: int) returns (ret: int)
      modifies this`table, this`fdToPath, this`dataQueue
      ensures (Abstract(), ret) == HandleClose(old(Abstract()), fd)
      ensures old(Valid()) ==> Valid()
      ensures ret == 0 <==> fd in old(table)
      ensures table.Keys == old(table.Keys) - {fd} && fdToPath.Keys == old(fdToPath.Keys) - {fd}
      ensures forall x | x in table :: table[x] == old(table)[x]
      ensures forall x | x in fdToPath :: fdToPath[x] == old(fdToPath)[x]
      ensures fd in old(fdToPath) ==>
        dataQueue == old(dataQueue) + (if old(fdToPath)[fd] in pathCacheMap then [] else [old(fdToPath)[fd]])
      ensures fd !in old(fdToPath) ==> dataQueue == old(dataQueue) + (if "" in pathCacheMap then [] else [""])
    {
      ret := if fd in table then 0 else -1;
      table := table - {fd};
      if fd !in fdToPath {
        fdToPath := fdToPath[fd := ""];
      }
      if fdToPath[fd] !in pathCacheMap {
        dataQueue := dataQueue + [fdToPath[fd]];
      }
      fdToPath := fdToPath - {fd};
      assert fdToPath == old(fdToPath) - {fd};
    }
  }
}
