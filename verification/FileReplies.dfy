/**
 * When each call on a path succeeds, and which error it gives otherwise, read off
 * what the path names before the call.
 */
module FileReplies {
  import opened LockRecords
  import opened BlockStorages
  import opened FileSystems
  import opened FileTree
  import opened FileRename
  import opened FileCalls
  import opened FilePromises

  /** What `comps` names, and that it is in the table. */
  lemma Names(s: FsState, start: nat, comps: seq<string>)
    requires Inv(s) && start in s.inodes
    ensures var at := Resolve(s.inodes, start, comps); at.Ok? ==> at.value in s.inodes
  {
    ResolvesInTable(s.inodes, s.root, start, comps);
  }

  /** A path that does not lead anywhere fails as its directory does, or for want
      of the name. */
  lemma MissingWhy(s: FsState, start: nat, comps: seq<string>)
    requires Inv(s) && start in s.inodes && comps != [] && Resolve(s.inodes, start, comps).Err?
    ensures var dir, at := ResolveDir(s.inodes, start, Front(comps)), Resolve(s.inodes, start, comps);
            && (dir.Err? ==> at == Err(dir.error) && !FreeName(s, start, comps))
            && (dir.Ok? ==> at == Err(NotFound) && FreeName(s, start, comps) && IsDir(s.inodes, dir.value))
  {
    Names(s, start, Front(comps));
  }

  // ------------------------------------------------------------ opening ---

  /** Why an open of what is there is refused. */
  function OpenError(inode: Inode): Error {
    if inode.content.Dir? then IsADirectory else InvalidArgument
  }

  /** The reply of an open that gets as far as its last component. */
  predicate OpenReply(s: FsState, start: nat, comps: seq<string>, flags: Flags, reply: Reply)
    requires var at := Resolve(s.inodes, start, comps); at.Ok? ==> at.value in s.inodes
  {
    var at := Resolve(s.inodes, start, comps);
    var creates := FreeName(s, start, comps) && flags.create;
    && (reply.Opened? <==>
          || (at.Ok? && !RefusedAnyway(s.inodes[at.value], flags))
          || (creates && !(flags.truncate && flags.access.ReadOnly?)))
    && (!reply.Opened? ==>
          reply == Failed(if at.Ok? then OpenError(s.inodes[at.value]) else if creates then InvalidArgument else at.error))
  }

  lemma OpenFromReplies(s: FsState, start: nat, comps: seq<string>, flags: Flags)
    requires Inv(s) && start in s.inodes && comps != []
    ensures var at := Resolve(s.inodes, start, comps); at.Ok? ==> at.value in s.inodes
    ensures OpenReply(s, start, comps, flags, OpenFrom(s, start, comps, flags).reply)
  {
    Names(s, start, comps);
    var at := Resolve(s.inodes, start, comps);
    if at.Ok? {
      ResolveStep(s.inodes, start, comps);
      Names(s, start, Front(comps));
    } else {
      MissingWhy(s, start, comps);
    }
    hide Resolve, Tree, Resize;
  }

  /** An open by path succeeds exactly when the path is made of slashes, or leads to
      an inode that the access mode and O_TRUNC do not refuse, or its name is free
      in an existing directory and O_CREAT may make it. */
  lemma OpenReplyIs(s: FsState, path: string, flags: Flags)
    requires Inv(s)
    ensures var at := Resolve(s.inodes, s.root, Components(path)); at.Ok? ==> at.value in s.inodes
    ensures var comps, reply := Components(path), Step(s, Open(path, flags)).reply;
            if path == "" then reply == Failed(InvalidArgument)
            else if comps == [] then reply.Opened?
            else OpenReply(s, s.root, comps, flags, reply)
  {
    RootIsDir(s);
    Names(s, s.root, Components(path));
    hide Components, OpenFrom, OpenReply, Tree, Resolve;
    if Components(path) != [] { OpenFromReplies(s, s.root, Components(path), flags); }
  }

  /** The same relative to a directory descriptor, which has refusals of its own. */
  lemma OpenAtReplyIs(s: FsState, dirFd: nat, path: string, flags: Flags)
    requires Inv(s)
    ensures dirFd in s.fds ==>
              var at := Resolve(s.inodes, s.fds[dirFd].inode, Components(path)); at.Ok? ==> at.value in s.inodes
    ensures var comps, reply := Components(path), Step(s, OpenAt(dirFd, path, flags)).reply;
            if "/" <= path then reply == Failed(InvalidArgument)
            else if dirFd !in s.fds then reply == Failed(BadFileDescriptor)
            else if !IsDir(s.inodes, s.fds[dirFd].inode) then reply == Failed(NotADirectory)
            else if comps == [] then reply == Failed(InvalidArgument)
            else OpenReply(s, s.fds[dirFd].inode, comps, flags, reply)
  {
    hide Components, OpenFrom, OpenReply, Resolve;
    if dirFd in s.fds {
      Names(s, s.fds[dirFd].inode, Components(path));
      if Components(path) != [] { OpenFromReplies(s, s.fds[dirFd].inode, Components(path), flags); }
    }
    hide Tree;
  }

  /** Every entry and every directory there was is still there. */
  ghost predicate Grows(before: Table, after: Table) {
    && (forall d, n :: Entry(before, d, n).Some? ==> Entry(after, d, n) == Entry(before, d, n))
    && (forall d :: IsDir(before, d) ==> IsDir(after, d))
  }

  /** What a path led to, from the root or from any directory, it leads to still. */
  lemma {:induction false} GrownResolves(before: Table, after: Table, start: nat, p: seq<string>)
    requires Grows(before, after) && Resolve(before, start, p).Ok?
    ensures Resolve(after, start, p) == Resolve(before, start, p)
  {
    if p != [] {
      GrownResolves(before, after, start, Front(p));
      hide Entry, IsDir;
    }
  }

  lemma CreateGrows(s: FsState, dir: nat, name: string, isDir: bool)
    requires Inv(s) && IsDir(s.inodes, dir) && Entry(s.inodes, dir, name).None?
    ensures Grows(s.inodes, Create(s, dir, name, isDir).inodes)
  {
    CreateEntries(s, dir, name, isDir);
    hide Create, Tree;
  }

  /** A successful open from anywhere: a new descriptor at position zero of what the
      path now leads to, every other descriptor and name as before. */
  ghost predicate OpensAt(s: FsState, out: Outcome, start: nat, comps: seq<string>, flags: Flags) {
    && out.reply == Opened(s.nextFd) && s.nextFd !in s.fds
    && Grows(s.inodes, out.state.inodes) && out.state.root == s.root
    && Resolve(out.state.inodes, start, comps).Ok?
    && var id := Resolve(out.state.inodes, start, comps).value;
    && out.state.fds == s.fds[s.nextFd := Handle(id, 0, flags)]
    && OpenedContent(s, out.state, id, flags.truncate)
    && (forall other :: other in s.inodes && other != id && s.inodes[other].content.File? ==>
          other in out.state.inodes && out.state.inodes[other] == s.inodes[other])
  }

  lemma OpenFromOpensAt(s: FsState, start: nat, comps: seq<string>, flags: Flags)
    requires Inv(s) && start in s.inodes && comps != [] && OpenFrom(s, start, comps, flags).reply.Opened?
    ensures OpensAt(s, OpenFrom(s, start, comps, flags), start, comps, flags)
  {
    hide OpenInode, Tree;
    var out := OpenFrom(s, start, comps, flags);
    var dir := ResolveDir(s.inodes, start, Front(comps)).value;
    ResolveStep(s.inodes, start, comps);
    var file := Child(s.inodes, dir, Last(comps));
    if file.Ok? {
      OpenInodeOpens(s, file.value, flags);
      SameShapeResolves(s.inodes, out.state.inodes, start, comps);
      hide Resolve;
    } else {
      var made := Create(s, dir, Last(comps), false);
      CreateGrows(s, dir, Last(comps), false);
      CreateEntries(s, dir, Last(comps), false);
      CreateKeeps(s, dir, Last(comps), false);
      CreateKeepsFiles(s, dir, Last(comps), false);
      GrownResolves(s.inodes, made.inodes, start, Front(comps));
      ResolveStep(made.inodes, start, comps);
      hide Create;
      OpenInodeOpens(made, s.nextInode, flags);
      SameShapeResolves(made.inodes, out.state.inodes, start, comps);
      hide Resolve;
    }
  }

  /** What a successful open relative to a descriptor does. */
  lemma OpenAtNamesItsFile(s: FsState, dirFd: nat, path: string, flags: Flags)
    requires Inv(s) && Step(s, OpenAt(dirFd, path, flags)).reply.Opened?
    ensures dirFd in s.fds && OpensAt(s, Step(s, OpenAt(dirFd, path, flags)), s.fds[dirFd].inode, Components(path), flags)
  {
    hide Components, OpenFrom, OpensAt, Tree;
    OpenFromOpensAt(s, s.fds[dirFd].inode, Components(path), flags);
  }

  // ----------------------------------------------- making and removing ---

  /** The state after `p` alone has come to name something else. */
  ghost predicate OnlyPathChanged(before: FsState, after: FsState, p: seq<string>) {
    && after.root == before.root && after.fds == before.fds
    && (forall q :: q != p ==> Resolve(after.inodes, after.root, q) == Resolve(before.inodes, before.root, q))
  }

  /** `mkdir` succeeds exactly when its name is free in an existing directory. Then the
      path names a new empty directory and no other path leads anywhere else than
      before; otherwise the error says what is in the way. */
  lemma MkdirMakesDirectory(s: FsState, path: string)
    requires Inv(s)
    ensures var comps, out := Components(path), Step(s, Mkdir(path));
            && (out.reply.Done? <==> comps != [] && FreeName(s, s.root, comps))
            && (out.reply.Done? ==>
                  && s.nextInode !in s.inodes && OnlyPathChanged(s, out.state, comps)
                  && Resolve(out.state.inodes, s.root, comps) == Ok(s.nextInode)
                  && s.nextInode in out.state.inodes && out.state.inodes[s.nextInode].content == Dir(map[]))
            && (!out.reply.Done? ==>
                  && out.state == s
                  && out.reply == Failed(
                       if comps == [] then InvalidArgument
                       else if Resolve(s.inodes, s.root, comps).Ok? then AlreadyExists
                       else Resolve(s.inodes, s.root, comps).error))
  {
    var comps := Components(path);
    RootIsDir(s);
    hide Components;
    if comps != [] {
      Names(s, s.root, Front(comps));
      if FreeName(s, s.root, comps) {
        NewDirectory(s, comps);
      } else if Resolve(s.inodes, s.root, comps).Ok? {
        ResolveStep(s.inodes, s.root, comps);
      } else {
        MissingWhy(s, s.root, comps);
      }
      hide OnlyPathChanged, Create, Resolve, Tree;
    }
  }

  lemma NewDirectory(s: FsState, comps: seq<string>)
    requires Inv(s) && FreeName(s, s.root, comps)
    requires var dir := ResolveDir(s.inodes, s.root, Front(comps)).value; IsDir(s.inodes, dir)
    ensures var made := Create(s, ResolveDir(s.inodes, s.root, Front(comps)).value, Last(comps), true);
            && s.nextInode !in s.inodes && OnlyPathChanged(s, made, comps)
            && Resolve(made.inodes, s.root, comps) == Ok(s.nextInode)
            && s.nextInode in made.inodes && made.inodes[s.nextInode].content == Dir(map[])
  {
    var dir := ResolveDir(s.inodes, s.root, Front(comps)).value;
    var made := Create(s, dir, Last(comps), true);
    CreatesEmpty(s, dir, Last(comps));
    NewName(s, comps, dir);
    hide Create, Resolve, Inv, FreeName, OneEntryChanged, Entry, IsDir;
    forall q | q != comps ensures Resolve(made.inodes, s.root, q) == Resolve(s.inodes, s.root, q) {
      OthersAsBefore(s.inodes, made.inodes, s.root, comps, dir, q);
    }
  }

  lemma CreatesEmpty(s: FsState, dir: nat, name: string)
    requires Inv(s) && IsDir(s.inodes, dir)
    ensures var made := Create(s, dir, name, true);
            && made.root == s.root && made.fds == s.fds && s.nextInode !in s.inodes
            && s.nextInode in made.inodes && made.inodes[s.nextInode].content == Dir(map[])
  {
    hide Tree;
  }

  lemma NewName(s: FsState, comps: seq<string>, dir: nat)
    requires Inv(s) && FreeName(s, s.root, comps)
    requires ResolveDir(s.inodes, s.root, Front(comps)) == Ok(dir) && IsDir(s.inodes, dir)
    ensures var after := Create(s, dir, Last(comps), true).inodes;
            && Resolve(s.inodes, s.root, comps) == Err(NotFound)
            && Resolve(after, s.root, comps) == Ok(s.nextInode)
            && OneEntryChanged(s.inodes, after, s.root, Front(comps), dir, Last(comps))
            && IsDir(after, s.nextInode) && forall n :: Entry(after, s.nextInode, n).None?
  {
    assert Front(comps) + [Last(comps)] == comps;
    FreeEntry(s, comps, dir);
    hide FreeName, Resolve, ResolveDir, Create, Inv, OneEntryChanged, Entry, IsDir;
    NewEntryOnly(s, comps, dir);
    CreateAddsPath(s, Front(comps), dir, Last(comps), true, comps);
  }

  lemma FreeEntry(s: FsState, comps: seq<string>, dir: nat)
    requires FreeName(s, s.root, comps)
    requires ResolveDir(s.inodes, s.root, Front(comps)) == Ok(dir) && IsDir(s.inodes, dir)
    ensures Resolve(s.inodes, s.root, Front(comps)) == Ok(dir) && Entry(s.inodes, dir, Last(comps)).None?
    ensures Resolve(s.inodes, s.root, comps) == Err(NotFound)
  {
    ResolveStep(s.inodes, s.root, comps);
  }

  lemma NewEntryOnly(s: FsState, comps: seq<string>, dir: nat)
    requires Inv(s) && comps != [] && IsDir(s.inodes, dir) && Resolve(s.inodes, s.root, Front(comps)) == Ok(dir)
    ensures var after := Create(s, dir, Last(comps), true).inodes;
            && OneEntryChanged(s.inodes, after, s.root, Front(comps), dir, Last(comps))
            && IsDir(after, s.nextInode) && forall n :: Entry(after, s.nextInode, n).None?
  {
    CreateEntries(s, dir, Last(comps), true);
    hide Create, Resolve, Entry, IsDir;
  }

  lemma OthersAsBefore(before: Table, after: Table, root: nat, comps: seq<string>, dir: nat, q: seq<string>)
    requires comps != [] && OneEntryChanged(before, after, root, Front(comps), dir, Last(comps))
    requires Resolve(before, root, comps) == Err(NotFound) && q != comps
    requires var at := Resolve(after, root, comps);
             at.Ok? && IsDir(after, at.value) && forall n :: Entry(after, at.value, n).None?
    ensures Resolve(after, root, q) == Resolve(before, root, q)
  {
    hide OneEntryChanged;
    assert Front(comps) + [Last(comps)] == comps;
    if comps <= q {
      var rest := q[|comps|..];
      assert comps + rest == q;
      BelowMissing(before, root, comps, rest);
      BelowEmptyDir(after, root, comps, rest);
    } else {
      OthersResolve(before, after, root, Front(comps), dir, Last(comps), q);
    }
  }

  /** Nothing is found below an empty directory. */
  lemma {:induction false} BelowEmptyDir(inodes: Table, root: nat, p: seq<string>, rest: seq<string>)
    requires var at := Resolve(inodes, root, p);
             at.Ok? && IsDir(inodes, at.value) && forall n :: Entry(inodes, at.value, n).None?
    requires rest != []
    ensures Resolve(inodes, root, p + rest) == Err(NotFound)
    decreases |rest|
  {
    assert Front(p + rest) == p + Front(rest) && Last(p + rest) == Last(rest);
    if Front(rest) == [] {
      assert p + Front(rest) == p;
    } else {
      BelowEmptyDir(inodes, root, p, Front(rest));
    }
  }

  /** `unlink` succeeds exactly on a path that leads to a file. */
  lemma UnlinkReplyIs(s: FsState, path: string)
    requires Inv(s)
    ensures var comps, reply := Components(path), Step(s, Unlink(path)).reply;
            var at := Resolve(s.inodes, s.root, comps);
            reply == if comps == [] then Failed(InvalidArgument)
                     else if at.Err? then Failed(at.error)
                     else if IsDir(s.inodes, at.value) then Failed(IsADirectory)
                     else Done
  {
    RemovalFinds(s, Components(path));
    hide Components, Resolve, Locate, Detach, Tree;
  }

  /** `rmdir` succeeds exactly on a path that leads to an empty directory. */
  lemma RmdirReplyIs(s: FsState, path: string)
    requires Inv(s)
    ensures var comps, reply := Components(path), Step(s, Rmdir(path)).reply;
            var at := Resolve(s.inodes, s.root, comps);
            reply == if comps == [] then Failed(InvalidArgument)
                     else if at.Err? then Failed(at.error)
                     else if !IsDir(s.inodes, at.value) then Failed(NotADirectory)
                     else if exists n :: Entry(s.inodes, at.value, n).Some? then Failed(NotEmpty)
                     else Done
  {
    var comps := Components(path);
    RemovalFinds(s, comps);
    hide Components, Resolve, Locate, Detach, Tree;
    if comps != [] && Locate(s, comps).Ok? && IsDir(s.inodes, Locate(s, comps).value.1) {
      HasEntries(s.inodes, Locate(s, comps).value.1);
    }
    hide Entry;
  }

  lemma HasEntries(inodes: Table, dir: nat)
    requires IsDir(inodes, dir)
    ensures inodes[dir].content.entries != map[] <==> exists n :: Entry(inodes, dir, n).Some?
  {
    var entries := inodes[dir].content.entries;
    if entries != map[] {
      assert entries.Keys != {};
      var n :| n in entries.Keys;
      assert Entry(inodes, dir, n).Some?;
    }
  }

  /** A removal or rename finds what the path leads to, in the directory that holds it. */
  lemma RemovalFinds(s: FsState, comps: seq<string>)
    requires Inv(s)
    ensures comps != [] ==>
              var at, found := Resolve(s.inodes, s.root, comps), Locate(s, comps);
              && (at.Err? ==> found == Err(at.error))
              && (at.Ok? ==> found.Ok? && found.value.1 == at.value && IsDir(s.inodes, found.value.0) && at.value in s.inodes)
  {
    RootIsDir(s);
    if comps != [] {
      Names(s, s.root, comps);
      Names(s, s.root, Front(comps));
      if Resolve(s.inodes, s.root, comps).Ok? {
        ResolveStep(s.inodes, s.root, comps);
      } else {
        MissingWhy(s, s.root, comps);
      }
      hide Resolve, Tree;
    }
  }

  // ------------------------------------------------------------ renaming ---

  /** Why `source` may not take the place of `target`: one is a directory and the
      other is not, or the directory in the way is not empty. */
  ghost function ReplaceError(inodes: Table, source: nat, target: nat): Option<Error> {
    if IsDir(inodes, source) && !IsDir(inodes, target) then Some(NotADirectory)
    else if !IsDir(inodes, source) && IsDir(inodes, target) then Some(IsADirectory)
    else if exists n :: Entry(inodes, target, n).Some? then Some(NotEmpty)
    else None
  }

  /** `rename` succeeds exactly when both paths spell one name, or the source leads
      somewhere, the target's directory is there, and what the target names, if
      anything, may be replaced by the source. */
  lemma RenameReplyIs(s: FsState, path: string, target: string)
    requires Inv(s)
    ensures var from, to, reply := Components(path), Components(target), Step(s, Rename(path, target)).reply;
            var source, place := Resolve(s.inodes, s.root, from), Resolve(s.inodes, s.root, to);
            reply == if from == [] || to == [] then Failed(InvalidArgument)
                     else if from == to then Done
                     else if source.Err? then Failed(source.error)
                     else if place.Err? && !FreeName(s, s.root, to) then Failed(place.error)
                     else if place.Ok? && ReplaceError(s.inodes, source.value, place.value).Some? then
                       Failed(ReplaceError(s.inodes, source.value, place.value).value)
                     else Done
  {
    var from, to := Components(path), Components(target);
    hide Components;
    if from != [] && to != [] && from != to {
      RenameCompsReplies(s, from, to);
    }
    hide RenameComps, Resolve, ReplaceError, FreeName, Inv;
  }

  lemma RenameCompsReplies(s: FsState, from: seq<string>, to: seq<string>)
    requires Inv(s) && from != [] && to != []
    ensures var source, place := Resolve(s.inodes, s.root, from), Resolve(s.inodes, s.root, to);
            RenameComps(s, from, to).reply ==
              if source.Err? then Failed(source.error)
              else if place.Err? && !FreeName(s, s.root, to) then Failed(place.error)
              else if place.Ok? && ReplaceError(s.inodes, source.value, place.value).Some? then
                Failed(ReplaceError(s.inodes, source.value, place.value).value)
              else Done
  {
    RootIsDir(s);
    RemovalFinds(s, from);
    RemovalFinds(s, to);
    var source, place := Resolve(s.inodes, s.root, from), Resolve(s.inodes, s.root, to);
    if source.Ok? {
      if place.Ok? {
        ResolveStep(s.inodes, s.root, to);
        RefusalIs(s, source.value, place.value);
      } else {
        MissingWhy(s, s.root, to);
      }
    }
    hide Resolve, Refusal, ReplaceError, Move, Tree;
  }

  lemma RefusalIs(s: FsState, source: nat, target: nat)
    requires Inv(s) && source in s.inodes && target in s.inodes
    ensures Refusal(s.inodes, source, Ok(target)) == ReplaceError(s.inodes, source, target)
  {
    assert SoundInode(s.inodes[source]) && SoundInode(s.inodes[target]);
    if IsDir(s.inodes, target) { HasEntries(s.inodes, target); }
    hide Tree, Sparse;
  }
}
