/**
 * Two things the code says of itself and does not do: O_EXCL never makes an open
 * of an existing name fail, and an inode without a name is never cleaned up.
 */
module FilePromises {
  import opened LockRecords
  import opened BlockStorages
  import opened FileSystems
  import opened FileTree
  import opened FileCalls

  // ------------------------------------------------------------- O_EXCL ---

  /** The two outcomes differ at most in the flags kept with the new descriptor. */
  ghost predicate SameButFlags(a: Outcome, b: Outcome) {
    && a.reply == b.reply && a.state == b.state.(fds := a.state.fds)
    && a.state.fds.Keys == b.state.fds.Keys
    && forall fd :: fd in a.state.fds ==>
         && a.state.fds[fd].inode == b.state.fds[fd].inode && a.state.fds[fd].position == b.state.fds[fd].position
         && (a.reply != Opened(fd) ==> a.state.fds[fd] == b.state.fds[fd])
  }

  lemma ExclusiveIgnoredAt(s: FsState, id: nat, flags: Flags)
    requires id in s.inodes
    ensures SameButFlags(OpenInode(s, id, flags), OpenInode(s, id, flags.(exclusive := !flags.exclusive)))
    ensures OpenInode(s, id, flags).reply != Failed(AlreadyExists)
  {
    hide Resize;
  }

  lemma ExclusiveIgnoredBelow(s: FsState, start: nat, comps: seq<string>, flags: Flags)
    requires comps != []
    ensures SameButFlags(OpenFrom(s, start, comps, flags), OpenFrom(s, start, comps, flags.(exclusive := !flags.exclusive)))
    ensures OpenFrom(s, start, comps, flags).reply != Failed(AlreadyExists)
  {
    hide Resolve, Relink, OpenInode;
    ResolveErrors(s.inodes, start, Front(comps));
    var dir := ResolveDir(s.inodes, start, Front(comps));
    if dir.Ok? {
      var file := Child(s.inodes, dir.value, Last(comps));
      if file.Ok? {
        if file.value in s.inodes { ExclusiveIgnoredAt(s, file.value, flags); }
      } else if IsDir(s.inodes, dir.value) {
        ExclusiveIgnoredAt(Create(s, dir.value, Last(comps), false), s.nextInode, flags);
      }
    }
  }

  lemma {:induction false} ResolveErrors(inodes: Table, start: nat, comps: seq<string>)
    ensures Resolve(inodes, start, comps) != Err(AlreadyExists)
  {
    if comps != [] { ResolveErrors(inodes, start, Front(comps)); }
  }

  /** Whatever the state, the path and the other flags: O_EXCL changes neither the
      reply nor what the open does. */
  lemma ExclusiveIsIgnored(s: FsState, dirFd: nat, path: string, flags: Flags)
    ensures SameButFlags(OpenPath(s, path, flags), OpenPath(s, path, flags.(exclusive := !flags.exclusive)))
    ensures SameButFlags(OpenAtDir(s, dirFd, path, flags), OpenAtDir(s, dirFd, path, flags.(exclusive := !flags.exclusive)))
  {
    hide OpenFrom, Components;
    if Components(path) != [] {
      ExclusiveIgnoredBelow(s, s.root, Components(path), flags);
      if dirFd in s.fds { ExclusiveIgnoredBelow(s, s.fds[dirFd].inode, Components(path), flags); }
    }
  }

  /** O_EXCL with O_CREAT promises that the open fails if the name is taken. */
  predicate ExclusiveKept(flags: Flags, taken: bool, reply: Reply) {
    flags.create && flags.exclusive && taken ==> reply.Failed?
  }

  /** What `open` refuses for another reason. */
  predicate RefusedAnyway(inode: Inode, flags: Flags) {
    || (inode.content.Dir? && (flags.access.WriteOnly? || flags.access.ReadWrite? || flags.truncate))
    || (flags.truncate && flags.access.ReadOnly?)
  }

  lemma ExclusiveBelow(s: FsState, root: nat, start: nat, comps: seq<string>, flags: Flags)
    requires Tree(s.inodes, root) && start in s.inodes && comps != []
    ensures var target := Resolve(s.inodes, start, comps);
            && (target.Ok? ==> target.value in s.inodes)
            && (ExclusiveKept(flags, target.Ok?, OpenFrom(s, start, comps, flags).reply) <==>
                  !(flags.create && flags.exclusive && target.Ok?) || RefusedAnyway(s.inodes[target.value], flags))
  {
    ResolvesInTable(s.inodes, root, start, comps);
    hide Tree;
    if Resolve(s.inodes, start, comps).Ok? {
      ResolveStep(s.inodes, start, comps);
    }
    hide Resolve;
  }

  /** The promise is met exactly when the call does not ask for it, the name is
      free, or the open is refused for another reason; never by the check it
      names. */
  lemma ExclusiveKeptIff(s: FsState, path: string, flags: Flags)
    requires Inv(s) && Components(path) != []
    ensures var target := Resolve(s.inodes, s.root, Components(path));
            && (target.Ok? ==> target.value in s.inodes)
            && (ExclusiveKept(flags, target.Ok?, Step(s, Open(path, flags)).reply) <==>
                  !(flags.create && flags.exclusive && target.Ok?) || RefusedAnyway(s.inodes[target.value], flags))
            && Step(s, Open(path, flags)).reply != Failed(AlreadyExists)
  {
    hide Components, OpenFrom;
    EmptyPath();
    ExclusiveIgnoredBelow(s, s.root, Components(path), flags);
    ExclusiveBelow(s, s.root, s.root, Components(path), flags);
  }

  lemma ExclusiveKeptAtIff(s: FsState, dirFd: nat, path: string, flags: Flags)
    requires Inv(s) && Components(path) != [] && !("/" <= path) && dirFd in s.fds && IsDir(s.inodes, s.fds[dirFd].inode)
    ensures var target := Resolve(s.inodes, s.fds[dirFd].inode, Components(path));
            && (target.Ok? ==> target.value in s.inodes)
            && (ExclusiveKept(flags, target.Ok?, Step(s, OpenAt(dirFd, path, flags)).reply) <==>
                  !(flags.create && flags.exclusive && target.Ok?) || RefusedAnyway(s.inodes[target.value], flags))
            && Step(s, OpenAt(dirFd, path, flags)).reply != Failed(AlreadyExists)
  {
    hide Components, OpenFrom;
    ExclusiveIgnoredBelow(s, s.fds[dirFd].inode, Components(path), flags);
    ExclusiveBelow(s, s.root, s.fds[dirFd].inode, Components(path), flags);
  }

  const CREATE_EXCLUSIVE := Flags(ReadWrite, true, true, false, false)

  /** An exclusive create of a name that the same open has just created succeeds. */
  lemma ExclusiveOpensExisting(s: FsState, path: string)
    requires Inv(s) && Step(s, Open(path, CREATE_EXCLUSIVE)).reply.Opened? && Components(path) != []
    requires Resolve(s.inodes, s.root, Components(path)).Err?
    ensures Step(Step(s, Open(path, CREATE_EXCLUSIVE)).state, Open(path, CREATE_EXCLUSIVE)).reply.Opened?
  {
    hide Components;
    var t := Step(s, Open(path, CREATE_EXCLUSIVE)).state;
    OpenNamesItsFile(s, path, CREATE_EXCLUSIVE);
    StepKeeps(s, Open(path, CREATE_EXCLUSIVE));
    CreatedIsFile(s, path, CREATE_EXCLUSIVE);
    ExclusiveKeptIff(t, path, CREATE_EXCLUSIVE);
    OpenReplies(t, path, CREATE_EXCLUSIVE);
    hide Step, Inv, Resolve;
  }

  lemma OpenReplies(s: FsState, path: string, flags: Flags)
    ensures var reply := Step(s, Open(path, flags)).reply; reply.Opened? || reply.Failed?
  {
    hide Components, Resolve;
  }

  /** What a successful open of a free name creates is a file. */
  lemma CreatedIsFile(s: FsState, path: string, flags: Flags)
    requires Inv(s) && Step(s, Open(path, flags)).reply.Opened? && Components(path) != []
    requires Resolve(s.inodes, s.root, Components(path)).Err?
    ensures var t := Step(s, Open(path, flags)).state;
            var target := Resolve(t.inodes, t.root, Components(path));
            target.Ok? && target.value in t.inodes && t.inodes[target.value].content.File?
  {
    hide Components, OpenFrom;
    var comps := Components(path);
    EmptyPath();
    OpenFromOpens(s, comps, flags);
    OpenedNewIsFile(s, comps, flags);
  }

  lemma OpenedNewIsFile(s: FsState, comps: seq<string>, flags: Flags)
    requires Inv(s) && comps != [] && OpenFrom(s, s.root, comps, flags).reply.Opened? && Resolve(s.inodes, s.root, comps).Err?
    ensures var t := OpenFrom(s, s.root, comps, flags).state;
            t.fds[s.nextFd].inode == s.nextInode && s.nextInode in t.inodes && t.inodes[s.nextInode].content.File?
  {
    hide Tree;
    ResolveStepErr(s, comps);
    hide Resolve, Relink;
  }

  lemma ResolveStepErr(s: FsState, comps: seq<string>)
    requires comps != [] && Resolve(s.inodes, s.root, comps).Err?
    ensures var dir := ResolveDir(s.inodes, s.root, Front(comps)); dir.Ok? ==> Child(s.inodes, dir.value, Last(comps)).Err?
  {
  }

  // --------------------------------------------------- unlinked inodes ---

  lemma {:induction false} MakeAllKeepsInodes(s: FsState, at: nat, comps: seq<string>)
    ensures s.inodes.Keys <= MakeAll(s, at, comps).state.inodes.Keys
    decreases |comps|
  {
    if comps != [] {
      var next := Child(s.inodes, at, comps[0]);
      if next.Ok? {
        if IsDir(s.inodes, next.value) { MakeAllKeepsInodes(s, next.value, comps[1..]); }
      } else if IsDir(s.inodes, at) {
        MakeAllKeepsInodes(Create(s, at, comps[0], true), s.nextInode, comps[1..]);
      }
    }
  }

  lemma OpenFromKeepsInodes(s: FsState, start: nat, comps: seq<string>, flags: Flags)
    requires comps != []
    ensures s.inodes.Keys <= OpenFrom(s, start, comps, flags).state.inodes.Keys
  {
    hide Resolve;
  }

  lemma StepKeepsInodes(s: FsState, c: Call)
    ensures s.inodes.Keys <= Step(s, c).state.inodes.Keys
  {
    hide Components, Resolve, MakeAll, OpenFrom, ReadAt, WriteAt, Resize, Refusal;
    match c
    case Open(path, flags) => if Components(path) != [] { OpenFromKeepsInodes(s, s.root, Components(path), flags); }
    case OpenAt(dirFd, path, flags) =>
      if Components(path) != [] && dirFd in s.fds { OpenFromKeepsInodes(s, s.fds[dirFd].inode, Components(path), flags); }
    case MkdirP(path) => MakeAllKeepsInodes(s, s.root, Components(path));
    case _ =>
  }

  /** No sequence of calls ever takes an inode out of the table. */
  lemma {:induction false} InodesAreForever(s: FsState, calls: seq<Call>)
    ensures s.inodes.Keys <= Run(s, calls).inodes.Keys
  {
    hide Step;
    if calls != [] {
      InodesAreForever(s, calls[..|calls| - 1]);
      StepKeepsInodes(Run(s, calls[..|calls| - 1]), calls[|calls| - 1]);
    }
  }

  /** An unlinked file has lost its only name, and its inode is still in the table
      after whatever calls follow, closes of all its descriptors included. */
  lemma UnlinkedInodeStays(s: FsState, path: string, calls: seq<Call>)
    requires Inv(s) && Step(s, Unlink(path)).reply.Done?
    ensures var t := Step(s, Unlink(path)).state;
            var target := Resolve(s.inodes, s.root, Components(path));
            target.Ok? && Unnamed(t.inodes, target.value) && target.value in Run(t, calls).inodes
  {
    var comps := Components(path);
    var at := Locate(s, comps).value;
    var t := Step(s, Unlink(path)).state;
    hide Components;
    ResolveStep(s.inodes, s.root, comps);
    RelinkChanges(s.inodes, at.0, Last(comps), None, s.clock);
    UnlinkedIsUnnamed(s.inodes, t.inodes, s.root, at.0, Last(comps));
    StepKeepsInodes(s, Unlink(path));
    InodesAreForever(t, calls);
    hide Run, Unnamed;
  }
}
