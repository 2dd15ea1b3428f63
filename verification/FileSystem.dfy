/**
 * The in-memory filesystem as a value: an inode table, a descriptor table and
 * two counters, with one function per call. The class in `Fs.dfy` is proved to
 * compute these functions; what they guarantee is proved in `FileTree.dfy`.
 */
module FileSystems {
  import opened LockRecords
  import opened BlockStorages

  datatype Error =
    NotFound | NotADirectory | IsADirectory | InvalidArgument
    | BadFileDescriptor | PermissionDenied | AlreadyExists | NotEmpty

  datatype Result<+T> = Ok(value: T) | Err(error: Error)

  datatype Access = ReadOnly | WriteOnly | ReadWrite | Neither

  /** Open flags: the two access bits and O_CREAT, O_EXCL, O_TRUNC, O_APPEND. */
  datatype Flags = Flags(access: Access, create: bool, exclusive: bool, truncate: bool, append: bool)

  datatype Metadata = Metadata(size: nat, created: nat, modified: nat, permissions: nat, isDir: bool)

  datatype Content = File(extent: Extent) | Dir(entries: map<string, nat>)

  datatype Inode = Inode(meta: Metadata, content: Content)

  datatype Handle = Handle(inode: nat, position: nat, flags: Flags)

  type Table = map<nat, Inode>

  datatype FsState = FsState(
    nextInode: nat, nextFd: nat, fds: map<nat, Handle>, inodes: Table, root: nat, clock: nat)

  const FILE_MODE: nat := 420
  const DIR_MODE: nat := 493

  function NewFile(now: nat): Inode { Inode(Metadata(0, now, now, FILE_MODE, false), File(EMPTY)) }

  function NewDir(now: nat): Inode { Inode(Metadata(0, now, now, DIR_MODE, true), Dir(map[])) }

  function Fresh(): FsState { FsState(1, 3, map[], map[0 := NewDir(0)], 0, 1) }

  // -------------------------------------------------------------- paths ---

  /** The pieces of `path` between slashes, empty ones dropped. */
  function Components(path: string): seq<string> {
    Pieces("", path)
  }

  function Pieces(current: string, rest: string): seq<string>
    decreases |rest|
  {
    if rest == "" then (if current == "" then [] else [current])
    else if rest[0] == '/' then (if current == "" then [] else [current]) + Pieces("", rest[1..])
    else Pieces(current + [rest[0]], rest[1..])
  }

  function Front(comps: seq<string>): seq<string>
    requires comps != []
  {
    comps[..|comps| - 1]
  }

  function Last(comps: seq<string>): string
    requires comps != []
  {
    comps[|comps| - 1]
  }

  /** The entry `name` of directory `dir`, if there is one. */
  function Entry(inodes: Table, dir: nat, name: string): Option<nat> {
    if dir in inodes && inodes[dir].content.Dir? && name in inodes[dir].content.entries
    then Some(inodes[dir].content.entries[name]) else None
  }

  predicate IsDir(inodes: Table, id: nat) {
    id in inodes && inodes[id].content.Dir?
  }

  function Child(inodes: Table, dir: nat, name: string): Result<nat> {
    if !IsDir(inodes, dir) then Err(NotADirectory)
    else if Entry(inodes, dir, name).Some? then Ok(Entry(inodes, dir, name).value)
    else Err(NotFound)
  }

  /** The inode that `comps` names, starting at `start`. */
  function Resolve(inodes: Table, start: nat, comps: seq<string>): Result<nat> {
    if comps == [] then Ok(start)
    else
      var dir := Resolve(inodes, start, Front(comps));
      if dir.Err? then dir else Child(inodes, dir.value, Last(comps))
  }

  function ResolveDir(inodes: Table, start: nat, comps: seq<string>): Result<nat> {
    var r := Resolve(inodes, start, comps);
    if r.Ok? && !IsDir(inodes, r.value) then Err(NotADirectory) else r
  }

  // ------------------------------------------------------------ updates ---

  /** Set or remove one directory entry. */
  function Relink(inodes: Table, dir: nat, name: string, target: Option<nat>, now: nat): Table
    requires IsDir(inodes, dir)
  {
    var entries := inodes[dir].content.entries;
    var relinked := if target.Some? then entries[name := target.value] else entries - {name};
    inodes[dir := Inode(inodes[dir].meta.(modified := now), Dir(relinked))]
  }

  /** A new inode named `name` in `dir`. */
  function Create(s: FsState, dir: nat, name: string, isDir: bool): FsState
    requires IsDir(s.inodes, dir)
  {
    var inode := if isDir then NewDir(s.clock) else NewFile(s.clock);
    s.(nextInode := s.nextInode + 1, clock := s.clock + 1,
       inodes := Relink(s.inodes, dir, name, Some(s.nextInode), s.clock)[s.nextInode := inode])
  }

  /** Remove entry `name` of `dir`; the inode it named stays in the table. */
  function Detach(s: FsState, dir: nat, name: string): FsState
    requires IsDir(s.inodes, dir)
  {
    s.(inodes := Relink(s.inodes, dir, name, None, s.clock), clock := s.clock + 1)
  }

  function Store(s: FsState, id: nat, e: Extent): FsState
    requires id in s.inodes
  {
    var meta := s.inodes[id].meta.(size := |e.bytes|, modified := s.clock);
    s.(inodes := s.inodes[id := Inode(meta, File(e))], clock := s.clock + 1)
  }

  function MoveTo(s: FsState, fd: nat, position: nat): FsState
    requires fd in s.fds
  {
    s.(fds := s.fds[fd := s.fds[fd].(position := position)])
  }

  function AddFd(s: FsState, id: nat, flags: Flags): FsState {
    s.(fds := s.fds[s.nextFd := Handle(id, 0, flags)], nextFd := s.nextFd + 1)
  }

  // -------------------------------------------------------------- calls ---

  datatype Call =
    | Open(path: string, flags: Flags)
    | OpenAt(dirFd: nat, path: string, flags: Flags)
    | Write(fd: nat, data: seq<byte>)
    | WriteAtOffset(fd: nat, offset: nat, data: seq<byte>)
    | AppendWrite(fd: nat, data: seq<byte>)
    | Read(fd: nat, len: nat)
    | ReadAtOffset(fd: nat, offset: nat, len: nat)
    | Ftruncate(fd: nat, size: nat)
    | Close(fd: nat)
    | Seek(fd: nat, delta: int, whence: int)
    | Mkdir(path: string)
    | MkdirP(path: string)
    | Unlink(path: string)
    | Rmdir(path: string)
    | Rename(path: string, target: string)

  datatype Reply = Failed(error: Error) | Opened(fd: nat) | Wrote(count: nat) | Got(data: seq<byte>) | At(position: nat) | Done

  datatype Outcome = Outcome(state: FsState, reply: Reply)

  function Fail(s: FsState, e: Error): Outcome { Outcome(s, Failed(e)) }

  function OpenInode(s: FsState, id: nat, flags: Flags): Outcome
    requires id in s.inodes
  {
    var content := s.inodes[id].content;
    if content.Dir? && (flags.access.WriteOnly? || flags.access.ReadWrite? || flags.truncate) then Fail(s, IsADirectory)
    else if flags.truncate && flags.access.ReadOnly? then Fail(s, InvalidArgument)
    else
      var cut := if flags.truncate && content.File? then Store(s, id, Resize(content.extent, 0)) else s;
      Outcome(AddFd(cut, id, flags), Opened(s.nextFd))
  }

  function OpenFrom(s: FsState, start: nat, comps: seq<string>, flags: Flags): Outcome
    requires comps != []
  {
    var dir := ResolveDir(s.inodes, start, Front(comps));
    if dir.Err? then Fail(s, dir.error)
    else
      var file := Child(s.inodes, dir.value, Last(comps));
      if file.Ok? then
        if file.value in s.inodes then OpenInode(s, file.value, flags) else Fail(s, NotFound)
      else if file.error == NotFound && flags.create && IsDir(s.inodes, dir.value) then
        OpenInode(Create(s, dir.value, Last(comps), false), s.nextInode, flags)
      else Fail(s, file.error)
  }

  function OpenPath(s: FsState, path: string, flags: Flags): Outcome {
    var comps := Components(path);
    if path == "" then Fail(s, InvalidArgument)
    else if comps == [] then Outcome(AddFd(s, s.root, flags), Opened(s.nextFd))
    else OpenFrom(s, s.root, comps, flags)
  }

  function OpenAtDir(s: FsState, dirFd: nat, path: string, flags: Flags): Outcome {
    if path != "" && path[0] == '/' then Fail(s, InvalidArgument)
    else if dirFd !in s.fds then Fail(s, BadFileDescriptor)
    else if !IsDir(s.inodes, s.fds[dirFd].inode) then Fail(s, NotADirectory)
    else if Components(path) == [] then Fail(s, InvalidArgument)
    else OpenFrom(s, s.fds[dirFd].inode, Components(path), flags)
  }

  /** What a call on a descriptor finds: the file's extent, or why it is refused. */
  function Reach(s: FsState, fd: nat, refused: Access): Result<Extent> {
    if fd !in s.fds then Err(BadFileDescriptor)
    else if s.fds[fd].flags.access == refused then Err(PermissionDenied)
    else if s.fds[fd].inode !in s.inodes then Err(NotFound)
    else if s.inodes[s.fds[fd].inode].content.Dir? then Err(BadFileDescriptor)
    else Ok(s.inodes[s.fds[fd].inode].content.extent)
  }

  function Put(s: FsState, fd: nat, position: nat, data: seq<byte>): Outcome
    requires Reach(s, fd, ReadOnly).Ok?
  {
    var e := Reach(s, fd, ReadOnly).value;
    Outcome(MoveTo(Store(s, s.fds[fd].inode, WriteAt(e, position, data)), fd, position + |data|), Wrote(|data|))
  }

  function WriteCall(s: FsState, fd: nat, data: seq<byte>): Outcome {
    var a := Reach(s, fd, ReadOnly);
    if a.Err? then Fail(s, a.error)
    else Put(s, fd, if s.fds[fd].flags.append then |a.value.bytes| else s.fds[fd].position, data)
  }

  function WriteAtCall(s: FsState, fd: nat, offset: nat, data: seq<byte>): Outcome {
    var a := Reach(s, fd, ReadOnly);
    if a.Err? then Fail(s, a.error) else Put(s, fd, offset, data)
  }

  function AppendCall(s: FsState, fd: nat, data: seq<byte>): Outcome {
    var a := Reach(s, fd, ReadOnly);
    if a.Err? then Fail(s, a.error) else Put(s, fd, |a.value.bytes|, data)
  }

  function ReadAtCall(s: FsState, fd: nat, offset: nat, len: nat): Outcome {
    var a := Reach(s, fd, WriteOnly);
    if a.Err? then Fail(s, a.error)
    else
      var data := ReadAt(a.value, offset, len);
      Outcome(MoveTo(s, fd, offset + |data|), Got(data))
  }

  function ReadCall(s: FsState, fd: nat, len: nat): Outcome {
    ReadAtCall(s, fd, if fd in s.fds then s.fds[fd].position else 0, len)
  }

  function FtruncateCall(s: FsState, fd: nat, size: nat): Outcome {
    var a := Reach(s, fd, ReadOnly);
    if a.Err? then Fail(s, a.error)
    else Outcome(Store(s, s.fds[fd].inode, Resize(a.value, size)), Done)
  }

  function CloseCall(s: FsState, fd: nat): Outcome {
    if fd !in s.fds then Fail(s, BadFileDescriptor) else Outcome(s.(fds := s.fds - {fd}), Done)
  }

  function SeekCall(s: FsState, fd: nat, delta: int, whence: int): Outcome {
    if fd !in s.fds then Fail(s, BadFileDescriptor)
    else if s.fds[fd].inode !in s.inodes then Fail(s, NotFound)
    else if s.inodes[s.fds[fd].inode].content.Dir? then Fail(s, BadFileDescriptor)
    else
      var size := |s.inodes[s.fds[fd].inode].content.extent.bytes|;
      var from := if whence == 0 then 0 else if whence == 1 then s.fds[fd].position else size;
      if !(0 <= whence <= 2) || from + delta < 0 then Fail(s, InvalidArgument)
      else Outcome(MoveTo(s, fd, from + delta), At(from + delta))
  }

  function MkdirCall(s: FsState, path: string): Outcome {
    var comps := Components(path);
    if comps == [] then Fail(s, InvalidArgument)
    else
      var dir := ResolveDir(s.inodes, s.root, Front(comps));
      if dir.Err? then Fail(s, dir.error)
      else if !IsDir(s.inodes, dir.value) then Fail(s, NotADirectory)
      else if Entry(s.inodes, dir.value, Last(comps)).Some? then Fail(s, AlreadyExists)
      else Outcome(Create(s, dir.value, Last(comps), true), Done)
  }

  /** Walk down `comps` from directory `at`, creating what is missing. */
  function MakeAll(s: FsState, at: nat, comps: seq<string>): Outcome
    decreases |comps|
  {
    if comps == [] then Outcome(s, Done)
    else
      var next := Child(s.inodes, at, comps[0]);
      if next.Ok? then
        if IsDir(s.inodes, next.value) then MakeAll(s, next.value, comps[1..]) else Fail(s, NotADirectory)
      else if next.error == NotFound && IsDir(s.inodes, at) then
        MakeAll(Create(s, at, comps[0], true), s.nextInode, comps[1..])
      else Fail(s, next.error)
  }

  function MkdirPCall(s: FsState, path: string): Outcome {
    if path == "" then Fail(s, InvalidArgument) else MakeAll(s, s.root, Components(path))
  }

  /** Where an entry that must exist is: its directory and its inode. */
  function Locate(s: FsState, comps: seq<string>): Result<(nat, nat)>
    requires comps != []
  {
    var dir := ResolveDir(s.inodes, s.root, Front(comps));
    if dir.Err? then Err(dir.error)
    else
      var id := Child(s.inodes, dir.value, Last(comps));
      if id.Err? then Err(id.error) else Ok((dir.value, id.value))
  }

  function UnlinkCall(s: FsState, path: string): Outcome {
    var comps := Components(path);
    if comps == [] then Fail(s, InvalidArgument)
    else
      var at := Locate(s, comps);
      if at.Err? then Fail(s, at.error)
      else if IsDir(s.inodes, at.value.1) then Fail(s, IsADirectory)
      else if !IsDir(s.inodes, at.value.0) then Fail(s, NotADirectory)
      else Outcome(Detach(s, at.value.0, Last(comps)), Done)
  }

  function RmdirCall(s: FsState, path: string): Outcome {
    var comps := Components(path);
    if comps == [] then Fail(s, InvalidArgument)
    else
      var at := Locate(s, comps);
      if at.Err? then Fail(s, at.error)
      else if !IsDir(s.inodes, at.value.1) then Fail(s, NotADirectory)
      else if s.inodes[at.value.1].content.entries != map[] then Fail(s, NotEmpty)
      else if !IsDir(s.inodes, at.value.0) then Fail(s, NotADirectory)
      else Outcome(Detach(s, at.value.0, Last(comps)), Done)
  }

  /** Why `source` may not take the place of what `dest` now names, if it may not. */
  function Refusal(inodes: Table, source: nat, dest: Result<nat>): Option<Error>
    requires source in inodes && (dest.Ok? ==> dest.value in inodes)
  {
    if dest.Err? then None
    else if inodes[source].meta.isDir && !inodes[dest.value].meta.isDir then Some(NotADirectory)
    else if !inodes[source].meta.isDir && inodes[dest.value].meta.isDir then Some(IsADirectory)
    else if IsDir(inodes, dest.value) && inodes[dest.value].content.entries != map[] && inodes[dest.value].meta.isDir then Some(NotEmpty)
    else None
  }

  function Move(s: FsState, id: nat, from: nat, name: string, to: nat, newName: string): FsState
    requires IsDir(s.inodes, from) && IsDir(s.inodes, to)
  {
    var without := Relink(s.inodes, from, name, None, s.clock);
    s.(inodes := Relink(without, to, newName, Some(id), s.clock), clock := s.clock + 1)
  }

  function RenameComps(s: FsState, source: seq<string>, target: seq<string>): Outcome
    requires source != [] && target != []
  {
    var at := Locate(s, source);
    if at.Err? then Fail(s, at.error)
    else
      var to := ResolveDir(s.inodes, s.root, Front(target));
      if to.Err? then Fail(s, to.error)
      else
        var (from, id) := at.value;
        var dest := Child(s.inodes, to.value, Last(target));
        if id !in s.inodes || (dest.Ok? && dest.value !in s.inodes) then Fail(s, NotFound)
        else if Refusal(s.inodes, id, dest).Some? then Fail(s, Refusal(s.inodes, id, dest).value)
        else if !IsDir(s.inodes, from) || !IsDir(s.inodes, to.value) then Fail(s, NotADirectory)
        else Outcome(Move(s, id, from, Last(source), to.value, Last(target)), Done)
  }

  function RenameCall(s: FsState, path: string, target: string): Outcome {
    if Components(path) == [] || Components(target) == [] then Fail(s, InvalidArgument)
    else if Components(path) == Components(target) then Outcome(s, Done)
    else RenameComps(s, Components(path), Components(target))
  }

  function Step(s: FsState, c: Call): Outcome {
    match c
    case Open(path, flags) => OpenPath(s, path, flags)
    case OpenAt(dirFd, path, flags) => OpenAtDir(s, dirFd, path, flags)
    case Write(fd, data) => WriteCall(s, fd, data)
    case WriteAtOffset(fd, offset, data) => WriteAtCall(s, fd, offset, data)
    case AppendWrite(fd, data) => AppendCall(s, fd, data)
    case Read(fd, len) => ReadCall(s, fd, len)
    case ReadAtOffset(fd, offset, len) => ReadAtCall(s, fd, offset, len)
    case Ftruncate(fd, size) => FtruncateCall(s, fd, size)
    case Close(fd) => CloseCall(s, fd)
    case Seek(fd, delta, whence) => SeekCall(s, fd, delta, whence)
    case Mkdir(path) => MkdirCall(s, path)
    case MkdirP(path) => MkdirPCall(s, path)
    case Unlink(path) => UnlinkCall(s, path)
    case Rmdir(path) => RmdirCall(s, path)
    case Rename(path, target) => RenameCall(s, path, target)
  }

  /** The filesystem after `calls`, oldest first. */
  function Run(s: FsState, calls: seq<Call>): FsState {
    if calls == [] then s else Step(Run(s, calls[..|calls| - 1]), calls[|calls| - 1]).state
  }

  // ---------------------------------------------------------- invariant ---

  predicate SoundInode(inode: Inode) {
    && inode.meta.isDir == inode.content.Dir?
    && (inode.content.File? ==> inode.meta.size == |inode.content.extent.bytes| && Sparse(inode.content.extent))
  }

  /** Every entry leads to an inode in the table other than the root, and no
      two entries lead to the same inode. */
  ghost predicate Tree(inodes: Table, root: nat) {
    && IsDir(inodes, root)
    && (forall d, n :: Entry(inodes, d, n).Some? ==>
          Entry(inodes, d, n).value in inodes && Entry(inodes, d, n).value != root)
    && (forall d, n, d', n' :: Entry(inodes, d, n).Some? && Entry(inodes, d, n) == Entry(inodes, d', n') ==> d == d' && n == n')
  }

  ghost predicate Inv(s: FsState) {
    && Tree(s.inodes, s.root)
    && (forall id :: id in s.inodes ==> id < s.nextInode && SoundInode(s.inodes[id]))
    && (forall fd :: fd in s.fds ==> fd < s.nextFd && s.fds[fd].inode in s.inodes)
  }
}
