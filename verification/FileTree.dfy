/**
 * What every run of filesystem calls keeps: the entries form a tree, so no two
 * component lists name the same inode; what a rename does to every path; and
 * what a failing call leaves behind.
 */
module FileTree {
  import opened LockRecords
  import opened BlockStorages
  import opened FileSystems

  // ------------------------------------------------- building blocks ---

  /** Table `after` differs from `before` by one entry only. */
  ghost predicate Relinked(before: Table, after: Table, dir: nat, name: string, target: Option<nat>) {
    && (forall d, n :: Entry(after, d, n) == if d == dir && n == name then target else Entry(before, d, n))
    && (forall d :: IsDir(after, d) == IsDir(before, d))
    && after.Keys == before.Keys
  }

  lemma RelinkChanges(inodes: Table, dir: nat, name: string, target: Option<nat>, now: nat)
    requires IsDir(inodes, dir)
    ensures Relinked(inodes, Relink(inodes, dir, name, target, now), dir, name, target)
  {
  }

  /** No entry leads to `id`. */
  ghost predicate Unnamed(inodes: Table, id: nat) {
    forall d, n :: Entry(inodes, d, n) != Some(id)
  }

  lemma RelinkedTree(before: Table, after: Table, root: nat, dir: nat, name: string, target: Option<nat>)
    requires Tree(before, root) && Relinked(before, after, dir, name, target)
    requires target.Some? ==> target.value in before && target.value != root && Unnamed(before, target.value)
    ensures Tree(after, root)
  {
    hide Entry;
    hide IsDir;
  }

  lemma UnlinkedIsUnnamed(before: Table, after: Table, root: nat, dir: nat, name: string)
    requires Tree(before, root) && Relinked(before, after, dir, name, None)
    requires Entry(before, dir, name).Some?
    ensures Unnamed(after, Entry(before, dir, name).value)
  {
    hide Entry;
    hide IsDir;
  }

  /** Directory entries are the same, and so is what is a directory. */
  ghost predicate SameShape(before: Table, after: Table) {
    && (forall d, n :: Entry(after, d, n) == Entry(before, d, n))
    && (forall d :: IsDir(before, d) == IsDir(after, d))
    && before.Keys == after.Keys
  }

  lemma NewInodeTree(inodes: Table, root: nat, id: nat, inode: Inode)
    requires Tree(inodes, root) && id !in inodes
    requires inode.content.Dir? ==> inode.content.entries == map[]
    ensures Tree(inodes[id := inode], root) && Unnamed(inodes[id := inode], id)
    ensures forall d, n :: Entry(inodes[id := inode], d, n) == Entry(inodes, d, n)
  {
    var after := inodes[id := inode];
    assert forall d, n :: Entry(after, d, n) == Entry(inodes, d, n);
    assert forall d :: d != id ==> IsDir(after, d) == IsDir(inodes, d);
    hide Entry;
  }

  lemma CreateKeeps(s: FsState, dir: nat, name: string, isDir: bool)
    requires Inv(s) && IsDir(s.inodes, dir) && Entry(s.inodes, dir, name).None?
    ensures Inv(Create(s, dir, name, isDir))
  {
    var id, now := s.nextInode, s.clock;
    var inode := if isDir then NewDir(now) else NewFile(now);
    var grown := s.inodes[id := inode];
    NewInodeTree(s.inodes, s.root, id, inode);
    var after := Relink(grown, dir, name, Some(id), now);
    RelinkChanges(grown, dir, name, Some(id), now);
    RelinkedTree(grown, after, s.root, dir, name, Some(id));
    assert Create(s, dir, name, isDir).inodes == after;
    hide Tree;
  }

  lemma DetachKeeps(s: FsState, dir: nat, name: string)
    requires Inv(s) && IsDir(s.inodes, dir)
    ensures Inv(Detach(s, dir, name))
  {
    RelinkChanges(s.inodes, dir, name, None, s.clock);
    RelinkedTree(s.inodes, Relink(s.inodes, dir, name, None, s.clock), s.root, dir, name, None);
    hide Tree;
  }

  lemma StoreKeeps(s: FsState, id: nat, e: Extent)
    requires Inv(s) && id in s.inodes && s.inodes[id].content.File? && Sparse(e)
    ensures Inv(Store(s, id, e)) && SameShape(s.inodes, Store(s, id, e).inodes)
  {
    hide Sparse;
    var after := Store(s, id, e).inodes;
    assert SameShape(s.inodes, after);
    assert Tree(after, s.root) by {
      hide Entry;
      hide IsDir;
    }
    hide Tree;
  }

  lemma AddFdKeeps(s: FsState, id: nat, flags: Flags)
    requires Inv(s) && id in s.inodes
    ensures Inv(AddFd(s, id, flags))
  {
    hide Tree;
  }

  lemma MoveKeeps(s: FsState, from: nat, name: string, to: nat, newName: string)
    requires Inv(s) && IsDir(s.inodes, from) && IsDir(s.inodes, to)
    requires Entry(s.inodes, from, name).Some?
    ensures Inv(Move(s, Entry(s.inodes, from, name).value, from, name, to, newName))
  {
    var id := Entry(s.inodes, from, name).value;
    var mid := Relink(s.inodes, from, name, None, s.clock);
    var after := Relink(mid, to, newName, Some(id), s.clock);
    RelinkChanges(s.inodes, from, name, None, s.clock);
    RelinkedTree(s.inodes, mid, s.root, from, name, None);
    UnlinkedIsUnnamed(s.inodes, mid, s.root, from, name);
    RelinkChanges(mid, to, newName, Some(id), s.clock);
    RelinkedTree(mid, after, s.root, to, newName, Some(id));
    hide Tree;
    hide Entry;
  }

  // ------------------------------------------------------- every call ---

  lemma {:induction false} ResolvesInTable(inodes: Table, root: nat, start: nat, comps: seq<string>)
    requires Tree(inodes, root) && start in inodes
    ensures Resolve(inodes, start, comps).Ok? ==> Resolve(inodes, start, comps).value in inodes
  {
    if comps != [] {
      ResolvesInTable(inodes, root, start, Front(comps));
    }
  }

  lemma OpenInodeKeeps(s: FsState, id: nat, flags: Flags)
    requires Inv(s) && id in s.inodes
    ensures Inv(OpenInode(s, id, flags).state)
  {
    var content := s.inodes[id].content;
    if content.File? {
      ApplyKeepsSparse(content.extent, Truncate(0));
      StoreKeeps(s, id, Resize(content.extent, 0));
      AddFdKeeps(Store(s, id, Resize(content.extent, 0)), id, flags);
    }
    AddFdKeeps(s, id, flags);
    hide Inv;
    hide Sparse;
  }

  lemma OpenFromKeeps(s: FsState, start: nat, comps: seq<string>, flags: Flags)
    requires Inv(s) && start in s.inodes && comps != []
    ensures Inv(OpenFrom(s, start, comps, flags).state)
  {
    hide OpenInode;
    ResolvesInTable(s.inodes, s.root, start, Front(comps));
    var dir := ResolveDir(s.inodes, start, Front(comps));
    if dir.Ok? {
      var file := Child(s.inodes, dir.value, Last(comps));
      if file.Ok? {
        OpenInodeKeeps(s, file.value, flags);
      } else if file.error == NotFound {
        CreateKeeps(s, dir.value, Last(comps), false);
        OpenInodeKeeps(Create(s, dir.value, Last(comps), false), s.nextInode, flags);
      }
    }
  }

  lemma PutKeeps(s: FsState, fd: nat, position: nat, data: seq<byte>)
    requires Inv(s) && Reach(s, fd, ReadOnly).Ok?
    ensures Inv(Put(s, fd, position, data).state)
  {
    var e := Reach(s, fd, ReadOnly).value;
    ApplyKeepsSparse(e, BlockStorages.Write(position, data));
    StoreKeeps(s, s.fds[fd].inode, WriteAt(e, position, data));
    hide Tree;
    hide Sparse;
  }

  lemma {:induction false} MakeAllKeeps(s: FsState, at: nat, comps: seq<string>)
    requires Inv(s) && IsDir(s.inodes, at)
    ensures Inv(MakeAll(s, at, comps).state)
    decreases |comps|
  {
    if comps != [] {
      var next := Child(s.inodes, at, comps[0]);
      if next.Ok? {
        if IsDir(s.inodes, next.value) {
          MakeAllKeeps(s, next.value, comps[1..]);
        }
      } else {
        CreateKeeps(s, at, comps[0], true);
        MakeAllKeeps(Create(s, at, comps[0], true), s.nextInode, comps[1..]);
      }
    }
  }

  lemma RenameCompsKeeps(s: FsState, source: seq<string>, target: seq<string>)
    requires Inv(s) && source != [] && target != []
    ensures Inv(RenameComps(s, source, target).state)
  {
    hide Inv;
    hide Move;
    hide Refusal;
    var at := Locate(s, source);
    var to := ResolveDir(s.inodes, s.root, Front(target));
    if RenameComps(s, source, target).reply.Done? {
      MoveKeeps(s, at.value.0, Last(source), to.value, Last(target));
    }
  }

  lemma StepKeeps(s: FsState, c: Call)
    requires Inv(s)
    ensures Inv(Step(s, c).state)
  {
    hide Tree;
    hide OpenFrom;
    hide Put;
    hide MakeAll;
    hide RenameComps;
    hide Detach;
    hide Sparse;
    hide Components;
    match c
    case Open(path, flags) => OpenKeeps(s, path, flags);
    case OpenAt(dirFd, path, flags) => {
      if OpenAtDir(s, dirFd, path, flags) != Fail(s, InvalidArgument) && dirFd in s.fds && Components(path) != [] {
        OpenFromKeeps(s, s.fds[dirFd].inode, Components(path), flags);
      }
    }
    case Write(fd, data) => {
      var a := Reach(s, fd, ReadOnly);
      if a.Ok? {
        PutKeeps(s, fd, if s.fds[fd].flags.append then |a.value.bytes| else s.fds[fd].position, data);
      }
    }
    case WriteAtOffset(fd, offset, data) => {
      if Reach(s, fd, ReadOnly).Ok? {
        PutKeeps(s, fd, offset, data);
      }
    }
    case AppendWrite(fd, data) => {
      if Reach(s, fd, ReadOnly).Ok? {
        PutKeeps(s, fd, |Reach(s, fd, ReadOnly).value.bytes|, data);
      }
    }
    case Read(fd, len) =>
    case ReadAtOffset(fd, offset, len) =>
    case Ftruncate(fd, size) => FtruncateKeeps(s, fd, size);
    case Close(fd) =>
    case Seek(fd, delta, whence) =>
    case Mkdir(path) => MkdirKeeps(s, path);
    case MkdirP(path) => RootIsDir(s); MakeAllKeeps(s, s.root, Components(path));
    case Unlink(path) => UnlinkKeeps(s, path);
    case Rmdir(path) => UnlinkKeeps(s, path);
    case Rename(path, target) => {
      if Components(path) != [] && Components(target) != [] {
        RenameCompsKeeps(s, Components(path), Components(target));
      }
    }
  }

  lemma RootIsDir(s: FsState)
    requires Inv(s)
    ensures IsDir(s.inodes, s.root)
  {
  }

  lemma OpenKeeps(s: FsState, path: string, flags: Flags)
    requires Inv(s)
    ensures Inv(OpenPath(s, path, flags).state)
  {
    hide Components;
    hide OpenFrom;
    AddFdKeeps(s, s.root, flags);
    if Components(path) != [] {
      OpenFromKeeps(s, s.root, Components(path), flags);
    }
  }

  lemma FtruncateKeeps(s: FsState, fd: nat, size: nat)
    requires Inv(s)
    ensures Inv(FtruncateCall(s, fd, size).state)
  {
    var a := Reach(s, fd, ReadOnly);
    if a.Ok? {
      ApplyKeepsSparse(a.value, Truncate(size));
      StoreKeeps(s, s.fds[fd].inode, Resize(a.value, size));
    }
  }

  lemma MkdirKeeps(s: FsState, path: string)
    requires Inv(s)
    ensures Inv(MkdirCall(s, path).state)
  {
    hide Components;
    hide Inv;
    hide Create;
    var comps := Components(path);
    if MkdirCall(s, path).reply.Done? {
      CreateKeeps(s, ResolveDir(s.inodes, s.root, Front(comps)).value, Last(comps), true);
    }
  }

  lemma UnlinkKeeps(s: FsState, path: string)
    requires Inv(s)
    ensures Inv(UnlinkCall(s, path).state) && Inv(RmdirCall(s, path).state)
  {
    hide Components;
    hide Inv;
    hide Detach;
    var comps := Components(path);
    if comps != [] && Locate(s, comps).Ok? && IsDir(s.inodes, Locate(s, comps).value.0) {
      DetachKeeps(s, Locate(s, comps).value.0, Last(comps));
    }
  }

  /** Every state reached from the empty filesystem is a tree with sound tables. */
  lemma {:induction false} RunKeeps(calls: seq<Call>)
    ensures Inv(Run(Fresh(), calls))
  {
    if calls != [] {
      RunKeeps(calls[..|calls| - 1]);
      StepKeeps(Run(Fresh(), calls[..|calls| - 1]), calls[|calls| - 1]);
    }
  }

  // ------------------------------------------------------------- paths ---

  lemma {:induction false} SameShapeResolves(before: Table, after: Table, start: nat, p: seq<string>)
    requires SameShape(before, after)
    ensures Resolve(after, start, p) == Resolve(before, start, p)
  {
    if p != [] {
      SameShapeResolves(before, after, start, Front(p));
      hide Entry;
      hide IsDir;
    }
  }

  /** Different component lists never name the same inode. */
  lemma {:induction false} NamesAreUnique(inodes: Table, root: nat, p: seq<string>, q: seq<string>)
    requires Tree(inodes, root)
    requires Resolve(inodes, root, p).Ok? && Resolve(inodes, root, p) == Resolve(inodes, root, q)
    ensures p == q
    decreases |p| + |q|
  {
    if p != [] && q != [] {
      NamesAreUnique(inodes, root, Front(p), Front(q));
      assert p == Front(p) + [Last(p)] && q == Front(q) + [Last(q)];
    }
  }

  /** In every reachable state, whatever renames came before. */
  lemma PathsAreUnique(calls: seq<Call>, p: seq<string>, q: seq<string>)
    ensures var s := Run(Fresh(), calls);
            Resolve(s.inodes, s.root, p).Ok? && p != q ==> Resolve(s.inodes, s.root, p) != Resolve(s.inodes, s.root, q)
  {
    var s := Run(Fresh(), calls);
    RunKeeps(calls);
    if Resolve(s.inodes, s.root, p).Ok? && Resolve(s.inodes, s.root, p) == Resolve(s.inodes, s.root, q) {
      NamesAreUnique(s.inodes, s.root, p, q);
    }
  }
}
