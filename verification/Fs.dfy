/**
 * The filesystem object. Its methods walk paths component by component and
 * update the tables in place; each is proved to compute the function of the
 * same call in `FileSystem.dfy`.
 */
module FsObjects {
  import opened LockRecords
  import opened BlockStorages
  import opened FileSystems
  import opened FileTree
  import opened FileRename

  class Fs {
    var nextInode: nat
    var nextFd: nat
    var fds: map<nat, Handle>
    var inodes: map<nat, Inode>
    var root: nat
    var clock: nat

    ghost function State(): FsState
      reads this
    {
      FsState(nextInode, nextFd, fds, inodes, root, clock)
    }

    ghost predicate Valid()
      reads this
    {
      Inv(State())
    }

    constructor ()
      ensures Valid() && State() == FileSystems.Fresh()
    {
      nextInode, nextFd, fds, root, clock := 1, 3, map[], 0, 1;
      inodes := map[0 := NewDir(0)];
      new;
      RunKeeps([]);
    }

    method FindInode(parent: nat, name: string) returns (r: Result<nat>)
      requires Valid() && parent in inodes
      ensures r == Child(inodes, parent, name)
      ensures r.Ok? ==> r.value in inodes
    {
      match inodes[parent].content
      case Dir(entries) =>
        if name in entries {
          assert Entry(inodes, parent, name) == Some(entries[name]);
          r := if entries[name] in inodes then Ok(entries[name]) else Err(NotFound);
        } else {
          r := Err(NotFound);
        }
      case File(_) =>
        r := Err(NotADirectory);
    }

    method CreateInode(parent: nat, name: string, isDir: bool) returns (r: Result<nat>)
      requires Valid() && parent in inodes
      modifies this
      ensures Valid()
      ensures r == if !IsDir(old(inodes), parent) then Err(NotADirectory)
                   else if Entry(old(inodes), parent, name).Some? then Err(AlreadyExists)
                   else Ok(old(nextInode))
      ensures State() == if r.Ok? then Create(old(State()), parent, name, isDir) else old(State())
    {
      match inodes[parent].content
      case Dir(entries) =>
        if name in entries {
          return Err(AlreadyExists);
        }
        CreateKeeps(State(), parent, name, isDir);
        var id := nextInode;
        nextInode := nextInode + 1;
        var timestamp := clock;
        clock := clock + 1;
        var inode := if isDir then NewDir(timestamp) else NewFile(timestamp);
        inodes := inodes[parent := inodes[parent].(content := Dir(entries[name := id]))];
        inodes := inodes[id := inode];
        inodes := inodes[parent := inodes[parent].(meta := inodes[parent].meta.(modified := timestamp))];
        assert inodes == Create(old(State()), parent, name, isDir).inodes;
        r := Ok(id);
      case File(_) =>
        r := Err(NotADirectory);
    }

    /** Follow all but the last component; each step must lead to a directory. */
    method WalkToParent(start: nat, comps: seq<string>) returns (r: Result<nat>)
      requires Valid() && IsDir(inodes, start) && comps != []
      ensures r == ResolveDir(inodes, start, Front(comps))
      ensures r.Ok? ==> IsDir(inodes, r.value)
    {
      var current := start;
      var i := 0;
      while i < |comps| - 1
        invariant 0 <= i <= |comps| - 1
        invariant Resolve(inodes, start, comps[..i]) == Ok(current) && IsDir(inodes, current)
      {
        var next := FindInode(current, comps[i]);
        assert Front(comps[..i + 1]) == comps[..i] && Last(comps[..i + 1]) == comps[i];
        if next.Err? || inodes[next.value].content.File? {
          assert Front(comps)[..i + 1] == comps[..i + 1];
          StopsHere(inodes, start, Front(comps), i + 1);
          return Err(if next.Err? then next.error else NotADirectory);
        }
        current := next.value;
        i := i + 1;
      }
      r := Ok(current);
    }

    method OpenAt(dirFd: nat, path: string, flags: Flags) returns (r: Reply)
      requires Valid()
      modifies this
      ensures Valid() && Outcome(State(), r) == OpenAtDir(old(State()), dirFd, path, flags)
    {
      if path != "" && path[0] == '/' {
        return Failed(InvalidArgument);
      }
      if dirFd !in fds {
        return Failed(BadFileDescriptor);
      }
      var dir := fds[dirFd].inode;
      if inodes[dir].content.File? {
        return Failed(NotADirectory);
      }
      if path == "" {
        return Failed(InvalidArgument);
      }
      var comps := Components(path);
      if comps == [] {
        return Failed(InvalidArgument);
      }
      r := OpenBelow(dir, comps, flags);
    }

    method OpenPathWithFlags(path: string, flags: Flags) returns (r: Reply)
      requires Valid()
      modifies this
      ensures Valid() && Outcome(State(), r) == OpenPath(old(State()), path, flags)
    {
      if path == "" {
        return Failed(InvalidArgument);
      }
      var comps := Components(path);
      if comps == [] {
        AddFdKeeps(State(), root, flags);
        r := AllocateFd(root, flags);
        return;
      }
      r := OpenBelow(root, comps, flags);
    }

    method AllocateFd(id: nat, flags: Flags) returns (r: Reply)
      modifies this
      ensures State() == AddFd(old(State()), id, flags) && r == Opened(old(nextFd))
    {
      var fd := nextFd;
      nextFd := nextFd + 1;
      fds := fds[fd := Handle(id, 0, flags)];
      r := Opened(fd);
    }

    method OpenBelow(start: nat, comps: seq<string>, flags: Flags) returns (r: Reply)
      requires Valid() && IsDir(inodes, start) && comps != []
      modifies this
      ensures Valid() && Outcome(State(), r) == OpenFrom(old(State()), start, comps, flags)
    {
      hide OpenInode;
      var dir := WalkToParent(start, comps);
      if dir.Err? {
        return Failed(dir.error);
      }
      var name := comps[|comps| - 1];
      var file := FindInode(dir.value, name);
      if file.Err? {
        if file.error != NotFound || !flags.create {
          return Failed(file.error);
        }
        file := CreateInode(dir.value, name, false);
      }
      r := OpenFound(file.value, flags);
    }

    method OpenFound(id: nat, flags: Flags) returns (r: Reply)
      requires Valid() && id in inodes
      modifies this
      ensures Valid() && Outcome(State(), r) == OpenInode(old(State()), id, flags)
    {
      OpenInodeKeeps(State(), id, flags);
      hide Inv;
      if inodes[id].content.Dir? {
        if flags.access == WriteOnly || flags.access == ReadWrite {
          return Failed(IsADirectory);
        }
        if flags.truncate {
          return Failed(IsADirectory);
        }
      }
      if flags.truncate {
        if flags.access == ReadOnly {
          return Failed(InvalidArgument);
        }
        match inodes[id].content {
          case File(storage) => StoreFile(id, Resize(storage, 0));
          case Dir(_) =>
        }
      }
      r := AllocateFd(id, flags);
    }

    /** Put new bytes in a file and note its size and time. */
    method StoreFile(id: nat, storage: Extent)
      requires id in inodes
      modifies this
      ensures State() == Store(old(State()), id, storage)
    {
      var meta := inodes[id].meta.(size := |storage.bytes|, modified := clock);
      clock := clock + 1;
      inodes := inodes[id := Inode(meta, File(storage))];
    }

    method WriteCall(fd: nat, buf: seq<byte>) returns (r: Reply)
      requires Valid()
      modifies this
      ensures Valid() && Outcome(State(), r) == FileSystems.WriteCall(old(State()), fd, buf)
    {
      StepKeeps(State(), FileSystems.Write(fd, buf));
      hide Inv;
      var storage := Reachable(fd, ReadOnly);
      if storage.Err? {
        return Failed(storage.error);
      }
      var position := if fds[fd].flags.append then |storage.value.bytes| else fds[fd].position;
      r := Overwrite(fd, storage.value, position, buf);
    }

    method WriteAtCall(fd: nat, offset: nat, buf: seq<byte>) returns (r: Reply)
      requires Valid()
      modifies this
      ensures Valid() && Outcome(State(), r) == FileSystems.WriteAtCall(old(State()), fd, offset, buf)
    {
      StepKeeps(State(), WriteAtOffset(fd, offset, buf));
      hide Inv;
      var storage := Reachable(fd, ReadOnly);
      if storage.Err? {
        return Failed(storage.error);
      }
      r := Overwrite(fd, storage.value, offset, buf);
    }

    method AppendWriteCall(fd: nat, buf: seq<byte>) returns (r: Reply)
      requires Valid()
      modifies this
      ensures Valid() && Outcome(State(), r) == AppendCall(old(State()), fd, buf)
    {
      StepKeeps(State(), AppendWrite(fd, buf));
      hide Inv;
      var storage := Reachable(fd, ReadOnly);
      if storage.Err? {
        return Failed(storage.error);
      }
      r := Overwrite(fd, storage.value, |storage.value.bytes|, buf);
    }

    /** The storage behind a descriptor whose access mode is not `refused`. */
    method Reachable(fd: nat, refused: Access) returns (r: Result<Extent>)
      ensures r == Reach(State(), fd, refused)
    {
      if fd !in fds {
        return Err(BadFileDescriptor);
      }
      if fds[fd].flags.access == refused {
        return Err(PermissionDenied);
      }
      if fds[fd].inode !in inodes {
        return Err(NotFound);
      }
      match inodes[fds[fd].inode].content
      case File(storage) => r := Ok(storage);
      case Dir(_) => r := Err(BadFileDescriptor);
    }

    method Overwrite(fd: nat, storage: Extent, position: nat, buf: seq<byte>) returns (r: Reply)
      requires Reach(State(), fd, ReadOnly) == Ok(storage)
      modifies this
      ensures Outcome(State(), r) == Put(old(State()), fd, position, buf)
    {
      var n := |buf|;
      StoreFile(fds[fd].inode, WriteAt(storage, position, buf));
      fds := fds[fd := fds[fd].(position := position + n)];
      r := Wrote(n);
    }

    method ReadCall(fd: nat, len: nat) returns (r: Reply)
      requires Valid()
      modifies this`fds
      ensures Valid() && Outcome(State(), r) == FileSystems.ReadCall(old(State()), fd, len)
    {
      StepKeeps(State(), FileSystems.Read(fd, len));
      hide Inv;
      var storage := Reachable(fd, WriteOnly);
      if storage.Err? {
        return Failed(storage.error);
      }
      var position := fds[fd].position;
      var data := ReadAt(storage.value, position, len);
      fds := fds[fd := fds[fd].(position := position + |data|)];
      r := Got(data);
    }

    method ReadAtCall(fd: nat, offset: nat, len: nat) returns (r: Reply)
      requires Valid()
      modifies this`fds
      ensures Valid() && Outcome(State(), r) == FileSystems.ReadAtCall(old(State()), fd, offset, len)
    {
      StepKeeps(State(), ReadAtOffset(fd, offset, len));
      hide Inv;
      var storage := Reachable(fd, WriteOnly);
      if storage.Err? {
        return Failed(storage.error);
      }
      var data := ReadAt(storage.value, offset, len);
      fds := fds[fd := fds[fd].(position := offset + |data|)];
      r := Got(data);
    }

    method FtruncateFd(fd: nat, size: nat) returns (r: Reply)
      requires Valid()
      modifies this
      ensures Valid() && Outcome(State(), r) == FtruncateCall(old(State()), fd, size)
    {
      StepKeeps(State(), Ftruncate(fd, size));
      hide Inv;
      var storage := Reachable(fd, ReadOnly);
      if storage.Err? {
        return Failed(storage.error);
      }
      StoreFile(fds[fd].inode, Resize(storage.value, size));
      r := Done;
    }

    method CloseFd(fd: nat) returns (r: Reply)
      requires Valid()
      modifies this`fds
      ensures Valid() && Outcome(State(), r) == CloseCall(old(State()), fd)
    {
      if fd !in fds {
        return Failed(BadFileDescriptor);
      }
      fds := fds - {fd};
      r := Done;
    }

    method SeekFd(fd: nat, offset: int, whence: int) returns (r: Reply)
      requires Valid()
      modifies this`fds
      ensures Valid() && Outcome(State(), r) == SeekCall(old(State()), fd, offset, whence)
    {
      StepKeeps(State(), Seek(fd, offset, whence));
      if fd !in fds {
        return Failed(BadFileDescriptor);
      }
      match inodes[fds[fd].inode].content {
        case Dir(_) =>
          return Failed(BadFileDescriptor);
        case File(storage) =>
          var position: int;
          if whence == 0 {
            position := offset;
          } else if whence == 1 {
            position := fds[fd].position + offset;
          } else if whence == 2 {
            position := |storage.bytes| + offset;
          } else {
            return Failed(InvalidArgument);
          }
          if position < 0 {
            return Failed(InvalidArgument);
          }
          hide Inv;
          fds := fds[fd := fds[fd].(position := position)];
          r := At(position);
      }
    }

    method Stat(path: string) returns (r: Result<Metadata>)
      requires Valid()
      ensures path == "" ==> r == Err(InvalidArgument)
      ensures path != "" ==>
                var at := Resolve(inodes, root, Components(path));
                && (at.Err? ==> r == Err(at.error))
                && (at.Ok? ==> at.value in inodes && r == Ok(inodes[at.value].meta))
    {
      if path == "" {
        return Err(InvalidArgument);
      }
      var comps := Components(path);
      var current := root;
      var i := 0;
      while i < |comps|
        invariant 0 <= i <= |comps| && current in inodes
        invariant Resolve(inodes, root, comps[..i]) == Ok(current)
      {
        var next := FindInode(current, comps[i]);
        assert Front(comps[..i + 1]) == comps[..i] && Last(comps[..i + 1]) == comps[i];
        if next.Err? {
          StopsHere(inodes, root, comps, i + 1);
          return Err(next.error);
        }
        current := next.value;
        i := i + 1;
      }
      assert comps[..i] == comps;
      r := Ok(inodes[current].meta);
    }

    method MakeDir(path: string) returns (r: Reply)
      requires Valid()
      modifies this
      ensures Valid() && Outcome(State(), r) == MkdirCall(old(State()), path)
    {
      var comps := Components(path);
      if comps == [] {
        return Failed(InvalidArgument);
      }
      var dir := WalkToParent(root, comps);
      if dir.Err? {
        return Failed(dir.error);
      }
      var made := CreateInode(dir.value, comps[|comps| - 1], true);
      r := if made.Ok? then Done else Failed(made.error);
    }

    method MakeDirs(path: string) returns (r: Reply)
      requires Valid()
      modifies this
      ensures Valid() && Outcome(State(), r) == MkdirPCall(old(State()), path)
    {
      if path == "" {
        return Failed(InvalidArgument);
      }
      var comps := Components(path);
      var current := root;
      var i := 0;
      while i < |comps|
        invariant 0 <= i <= |comps| && Valid() && IsDir(inodes, current)
        invariant MakeAll(State(), current, comps[i..]) == MakeAll(old(State()), old(root), comps)
      {
        assert comps[i..][0] == comps[i] && comps[i..][1..] == comps[i + 1..];
        var next := FindInode(current, comps[i]);
        if next.Ok? {
          if inodes[next.value].content.File? {
            return Failed(NotADirectory);
          }
          current := next.value;
        } else {
          ghost var before := State();
          var made := CreateInode(current, comps[i], true);
          assert Create(before, current, comps[i], true) == State();
          current := made.value;
        }
        i := i + 1;
      }
      r := Done;
    }

    method RemoveEntry(dir: nat, name: string) returns (r: Reply)
      requires Valid() && IsDir(inodes, dir)
      modifies this
      ensures Valid() && State() == Detach(old(State()), dir, name) && r == Done
    {
      DetachKeeps(State(), dir, name);
      var entries := inodes[dir].content.entries;
      var meta := inodes[dir].meta.(modified := clock);
      clock := clock + 1;
      inodes := inodes[dir := Inode(meta, Dir(entries - {name}))];
      r := Done;
    }

    method UnlinkPath(path: string) returns (r: Reply)
      requires Valid()
      modifies this
      ensures Valid() && Outcome(State(), r) == UnlinkCall(old(State()), path)
    {
      var comps := Components(path);
      if comps == [] {
        return Failed(InvalidArgument);
      }
      var dir := WalkToParent(root, comps);
      if dir.Err? {
        return Failed(dir.error);
      }
      var target := FindInode(dir.value, comps[|comps| - 1]);
      if target.Err? {
        return Failed(target.error);
      }
      if inodes[target.value].content.Dir? {
        return Failed(IsADirectory);
      }
      r := RemoveEntry(dir.value, comps[|comps| - 1]);
    }

    method RmdirPath(path: string) returns (r: Reply)
      requires Valid()
      modifies this
      ensures Valid() && Outcome(State(), r) == RmdirCall(old(State()), path)
    {
      var comps := Components(path);
      if comps == [] {
        return Failed(InvalidArgument);
      }
      var dir := WalkToParent(root, comps);
      if dir.Err? {
        return Failed(dir.error);
      }
      var target := FindInode(dir.value, comps[|comps| - 1]);
      if target.Err? {
        return Failed(target.error);
      }
      match inodes[target.value].content {
        case File(_) =>
          return Failed(NotADirectory);
        case Dir(entries) =>
          if entries != map[] {
            return Failed(NotEmpty);
          }
      }
      r := RemoveEntry(dir.value, comps[|comps| - 1]);
    }

    method RenamePath(oldPath: string, newPath: string) returns (r: Reply)
      requires Valid()
      modifies this
      ensures Valid() && Outcome(State(), r) == RenameCall(old(State()), oldPath, newPath)
    {
      var source, target := Components(oldPath), Components(newPath);
      if source == [] || target == [] {
        return Failed(InvalidArgument);
      }
      if source == target {
        return Done;
      }
      var from := WalkToParent(root, source);
      if from.Err? {
        return Failed(from.error);
      }
      var name := source[|source| - 1];
      var moved := FindInode(from.value, name);
      if moved.Err? {
        return Failed(moved.error);
      }
      var to := WalkToParent(root, target);
      if to.Err? {
        return Failed(to.error);
      }
      var newName := target[|target| - 1];
      var dest := FindInode(to.value, newName);
      if dest.Ok? {
        var sourceIsDir, destIsDir := inodes[moved.value].meta.isDir, inodes[dest.value].meta.isDir;
        if sourceIsDir && !destIsDir {
          return Failed(NotADirectory);
        }
        if !sourceIsDir && destIsDir {
          return Failed(IsADirectory);
        }
        if destIsDir && inodes[dest.value].content.Dir? && inodes[dest.value].content.entries != map[] {
          return Failed(NotEmpty);
        }
      }
      MoveEntry(moved.value, from.value, name, to.value, newName);
      r := Done;
    }

    /** Take the entry out of one directory and put it in the other, or the same. */
    method MoveEntry(id: nat, from: nat, name: string, to: nat, newName: string)
      requires Valid() && IsDir(inodes, from) && IsDir(inodes, to) && Entry(inodes, from, name) == Some(id)
      modifies this
      ensures Valid() && State() == Move(old(State()), id, from, name, to, newName)
    {
      MoveKeeps(State(), from, name, to, newName);
      hide Inv;
      var timestamp := clock;
      clock := clock + 1;
      if from == to {
        var entries := inodes[from].content.entries;
        entries := (entries - {name})[newName := entries[name]];
        inodes := inodes[from := Inode(inodes[from].meta.(modified := timestamp), Dir(entries))];
      } else {
        var oldEntries := inodes[from].content.entries;
        var newEntries := inodes[to].content.entries;
        inodes := inodes[from := Inode(inodes[from].meta.(modified := timestamp), Dir(oldEntries - {name}))];
        inodes := inodes[to := Inode(inodes[to].meta.(modified := timestamp), Dir(newEntries[newName := oldEntries[name]]))];
      }
      assert inodes == Move(old(State()), id, from, name, to, newName).inodes;
    }
  }

  /** A walk that stops after `n` components, for want of an entry or at a file
      with components still to go, decides the result for the whole list. */
  lemma StopsHere(inodes: Table, start: nat, comps: seq<string>, n: nat)
    requires n <= |comps|
    requires Resolve(inodes, start, comps[..n]).Err?
             || !IsDir(inodes, Resolve(inodes, start, comps[..n]).value)
    ensures Resolve(inodes, start, comps[..n]).Err? ==> Resolve(inodes, start, comps) == Resolve(inodes, start, comps[..n])
    ensures Resolve(inodes, start, comps[..n]).Ok? ==> ResolveDir(inodes, start, comps) == Err(NotADirectory)
  {
    var rest := comps[n..];
    assert comps[..n] + rest == comps;
    if Resolve(inodes, start, comps[..n]).Err? {
      BelowMissing(inodes, start, comps[..n], rest);
    } else if rest == [] {
      assert comps[..n] == comps;
    } else {
      var past := comps[..n] + [comps[n]];
      assert Front(past) == comps[..n];
      BelowMissing(inodes, start, past, comps[n + 1..]);
      assert past + comps[n + 1..] == comps;
    }
  }
}
