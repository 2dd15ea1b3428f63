/**
 * What an open request of the RPC server leaves behind: the descriptor it answers
 * with, the path and lease it is registered under, and the content it will find.
 */
module RpcOpens {
  import opened LockRecords
  import Keys = ObjectStores
  import opened BlockStorages
  import opened FileSystems
  import opened FileTree
  import opened FileRename
  import opened FileCalls
  import opened FilePromises
  import opened FileReplies
  import opened FilePaths
  import opened RpcServers

  // ------------------------------------------- what a refresh leaves alone ---

  /** Nothing that was named or open has moved. */
  ghost predicate Undisturbed(before: FsState, after: FsState) {
    && after.root == before.root && Grows(before.inodes, after.inodes) && before.nextFd <= after.nextFd
    && forall fd :: fd in before.fds && fd < before.nextFd ==> fd in after.fds && after.fds[fd].inode == before.fds[fd].inode
  }

  lemma UndisturbedTwice(a: FsState, b: FsState, c: FsState)
    requires Undisturbed(a, b) && Undisturbed(b, c)
    ensures Undisturbed(a, c)
  {
    hide Entry, IsDir;
  }

  lemma CreateUndisturbed(s: FsState, dir: nat, name: string, isDir: bool)
    requires Inv(s) && IsDir(s.inodes, dir) && Entry(s.inodes, dir, name).None?
    ensures Undisturbed(s, Create(s, dir, name, isDir))
  {
    CreateGrows(s, dir, name, isDir);
    hide Grows, Tree;
  }

  lemma {:induction false} MakeAllUndisturbed(s: FsState, at: nat, comps: seq<string>)
    requires Inv(s) && IsDir(s.inodes, at)
    ensures Undisturbed(s, MakeAll(s, at, comps).state)
    decreases |comps|
  {
    if comps != [] {
      var next := Child(s.inodes, at, comps[0]);
      if next.Ok? {
        if IsDir(s.inodes, next.value) { MakeAllUndisturbed(s, next.value, comps[1..]); }
      } else {
        var made := Create(s, at, comps[0], true);
        CreateKeeps(s, at, comps[0], true);
        CreateUndisturbed(s, at, comps[0], true);
        MakeAllUndisturbed(made, s.nextInode, comps[1..]);
        UndisturbedTwice(s, made, MakeAll(made, s.nextInode, comps[1..]).state);
      }
      hide Inv, Undisturbed;
    }
  }

  lemma OpenUndisturbed(s: FsState, path: string, flags: Flags)
    requires Inv(s)
    ensures Undisturbed(s, OpenPath(s, path, flags).state)
  {
    hide Components, OpenFrom;
    var comps := Components(path);
    RootIsDir(s);
    if comps != [] {
      OpenFromUndisturbed(s, s.root, comps, flags);
    }
    hide Tree;
  }

  lemma OpenFromUndisturbed(s: FsState, start: nat, comps: seq<string>, flags: Flags)
    requires Inv(s) && start in s.inodes && comps != []
    ensures Undisturbed(s, OpenFrom(s, start, comps, flags).state)
  {
    var out := OpenFrom(s, start, comps, flags);
    if out.reply.Opened? {
      OpenFromOpensAt(s, start, comps, flags);
      hide Tree, OpenFrom, Resolve, Grows;
    } else {
      OpenFromFailure(s, start, comps, flags);
      OpenFromReplies(s, start, comps, flags);
      if out.state != s {
        var dir := ResolveDir(s.inodes, start, Front(comps)).value;
        Names(s, start, Front(comps));
        CreateUndisturbed(s, dir, Last(comps), false);
      }
      hide Tree, OpenFrom, Resolve, Create;
    }
  }

  lemma WriteUndisturbed(s: FsState, fd: nat, data: seq<byte>)
    requires Inv(s)
    ensures Undisturbed(s, WriteCall(s, fd, data).state)
  {
    hide WriteAt, Tree;
  }

  lemma CloseOwn(before: FsState, s: FsState, fd: nat)
    requires Undisturbed(before, s) && before.nextFd <= fd
    ensures Undisturbed(before, CloseCall(s, fd).state)
  {
    hide Grows;
  }

  lemma RefreshUndisturbed(fs: FsState, path: string, content: Option<seq<byte>>)
    requires Inv(fs)
    ensures Undisturbed(fs, Refresh(fs, path, content))
  {
    hide OpenPath, WriteCall, CloseCall;
    if content.Some? {
      var parent := ParentOf(path);
      RootIsDir(fs);
      MakeAllUndisturbed(fs, fs.root, Components(parent));
      StepKeeps(fs, MkdirP(parent));
      var made := if parent == "" then fs else MkdirPCall(fs, parent).state;
      assert Undisturbed(fs, made) && Inv(made) by { hide MakeAll; }
      OpenUndisturbed(made, path, REPLACE);
      OpenAdds(made, path, REPLACE);
      var out := OpenPath(made, path, REPLACE);
      hide Inv, MkdirPCall, MakeAll, Components;
      UndisturbedTwice(fs, made, out.state);
      if out.reply.Opened? {
        WriteUndisturbed(out.state, out.reply.fd, content.value);
        UndisturbedTwice(fs, out.state, WriteCall(out.state, out.reply.fd, content.value).state);
        assert fs.nextFd <= out.reply.fd;
        CloseOwn(fs, WriteCall(out.state, out.reply.fd, content.value).state, out.reply.fd);
      }
      hide Undisturbed;
    }
  }

  // ------------------------------------------------- opening by request ---

  /** The request has added one descriptor: a new number, open with these flags,
      registered under `path` if there is one and in its session. */
  ghost predicate AddsDescriptor(v: Server, w: Server, fd: nat, path: Option<string>, flags: Flags, session: Option<string>) {
    && fd !in v.fs.fds && fd !in v.fdFlags
    && fd in w.fs.fds && w.fs.fds[fd].flags == flags && w.fs.fds[fd].position == 0
    && w.fdFlags == v.fdFlags[fd := flags]
    && w.fdPath == (if path.Some? then v.fdPath[fd := path.value] else v.fdPath)
    && (forall id :: id in w.sessions && fd in w.sessions[id] <==> session == Some(id))
    && (forall id :: id in v.sessions ==> id in w.sessions && w.sessions[id] - {fd} == v.sessions[id])
  }

  /** A write open holds one more reference to the lease of `path`, a read open none. */
  ghost predicate TakesReference(before: map<string, nat>, after: map<string, nat>, path: string, flags: Flags) {
    && (IsWrite(flags) ==> path in after && Refs(after, path) == Refs(before, path) + 1)
    && (forall q :: q != path || !IsWrite(flags) ==> Refs(after, q) == Refs(before, q) && (q in after <==> q in before))
  }

  lemma AfterOpenAdds(v: Server, mid: Server, out: Outcome, path: Option<string>, flags: Flags, session: Option<string>)
    requires ServerInv(v) && mid == v.(leases := mid.leases, fs := mid.fs) && v.fs.nextFd <= mid.fs.nextFd
    requires out.reply == Opened(mid.fs.nextFd) && mid.fs.nextFd in out.state.fds
    requires out.state.fds[mid.fs.nextFd].flags == flags && out.state.fds[mid.fs.nextFd].position == 0
    ensures AddsDescriptor(v, AfterOpen(mid, out, path, flags, session).server, mid.fs.nextFd, path, flags, session)
  {
    hide Tree, Counted;
    assert mid.fs.nextFd !in v.fs.fds;
  }

  lemma BeforeOpenTakes(v: Server, path: string, flags: Flags, answer: Answer)
    requires ServerInv(v) && BeforeOpen(v, path, flags, answer).Some?
    ensures var w := BeforeOpen(v, path, flags, answer).value;
            && w == v.(leases := w.leases, fs := w.fs) && Inv(w.fs) && Undisturbed(v.fs, w.fs)
            && TakesReference(v.leases, w.leases, path, flags)
            && w.fs == (if path in v.leases then v.fs else Refresh(v.fs, path, answer.content))
  {
    BeforeOpenKeeps(v, path, flags, answer);
    RefreshUndisturbed(v.fs, path, answer.content);
    assert Undisturbed(v.fs, v.fs);
    hide Refresh, Undisturbed, Counted, Inv;
  }

  /** An open request that answers a descriptor: it is new, registered under the
      path asked for, which leads to it, and a writer holds one more reference to the
      lease of exactly that path. The sync layer refuses exactly a writer whose
      path has no lease yet and is not granted one. */
  lemma OpenIsRegistered(v: Server, path: string, flags: Flags, session: Option<string>, answer: Answer)
    requires ServerInv(v)
    ensures var w, response := Serve(v, OpenRequest(path, flags, session, answer)), ServeOpen(v, path, flags, session, answer).response;
            && (response.SyncRefused? <==> IsWrite(flags) && path !in v.leases && !answer.granted)
            && (response.FdOf? ==>
                  && AddsDescriptor(v, w, response.fd, Some(path), flags, session)
                  && TakesReference(v.leases, w.leases, path, flags)
                  && Resolve(w.fs.inodes, w.fs.root, Components(path)) == Ok(w.fs.fds[response.fd].inode))
  {
    var before := BeforeOpen(v, path, flags, answer);
    if before.Some? {
      BeforeOpenTakes(v, path, flags, answer);
      var mid := before.value;
      var out := OpenPath(mid.fs, path, flags);
      if out.reply.Opened? {
        OpenNamesItsFile(mid.fs, path, flags);
        OpenAdds(mid.fs, path, flags);
        hide OpenPath, Components, Resolve;
        AfterOpenAdds(v, mid, out, Some(path), flags, session);
      }
    }
    hide AddsDescriptor, TakesReference, OpenPath, Components, ServerInv, Inv, Refresh, Undisturbed;
  }

  /** Both parts are spelled cleanly: one slash before each component. */
  predicate Clean(dir: string, path: string) {
    && Components(path) != [] && "/" + path == Spell(Components(path))
    && (dir == "/" || (dir != "" && dir == Spell(Components(dir))))
  }

  /** The path a relative open is registered under: the directory's components and
      then the relative ones, in the very text of an open by path if both parts are
      clean. */
  ghost predicate JoinedPath(dir: string, path: string, full: string) {
    && Components(full) == Components(dir) + Components(path)
    && (Clean(dir, path) ==> full == Spell(Components(dir) + Components(path)))
  }

  lemma JoinDirJoins(dir: string, path: string)
    ensures JoinedPath(dir, path, JoinDir(dir, path))
  {
    JoinDirComponents(dir, path);
    if Clean(dir, path) { JoinIsSpelled(dir, path); }
  }

  /** A relative open request through a registered directory that answers a
      descriptor: it is new, registered under the directory's path joined with the
      relative one, and a writer holds one more reference to the lease of exactly
      that path. While the directory is still at its path, the registered path
      leads to the descriptor's inode. */
  lemma RelativeOpenIsRegistered(v: Server, dirFd: nat, path: string, flags: Flags, session: Option<string>, answer: Answer)
    requires ServerInv(v) && dirFd in v.fdPath
    ensures dirFd in v.fs.fds
    ensures var w, response := Serve(v, OpenAtRequest(dirFd, path, flags, session, answer)), ServeOpenAt(v, dirFd, path, flags, session, answer).response;
            var dir := v.fdPath[dirFd];
            && (Clean(dir, path) ==>
                  (response.SyncRefused? <==>
                     IsWrite(flags) && Spell(Components(dir) + Components(path)) !in v.leases && !answer.granted))
            && (response.FdOf? ==>
                  response.fd in w.fdPath
                  && var full := w.fdPath[response.fd];
                  && JoinedPath(dir, path, full)
                  && AddsDescriptor(v, w, response.fd, Some(full), flags, session)
                  && TakesReference(v.leases, w.leases, full, flags)
                  && (Resolve(v.fs.inodes, v.fs.root, Components(dir)) == Ok(v.fs.fds[dirFd].inode) ==>
                        Resolve(w.fs.inodes, w.fs.root, Components(full)) == Ok(w.fs.fds[response.fd].inode)))
  {
    var dir := v.fdPath[dirFd];
    var full := JoinDir(dir, path);
    JoinDirJoins(dir, path);
    var before := BeforeOpen(v, full, flags, answer);
    if before.Some? {
      BeforeOpenTakes(v, full, flags, answer);
      var mid := before.value;
      var out := OpenAtDir(mid.fs, dirFd, path, flags);
      if out.reply.Opened? {
        OpenedBelow(v.fs, mid.fs, dirFd, dir, path, flags);
        hide OpenAtDir, Components, Resolve, JoinDir, JoinedPath, Clean;
        AfterOpenAdds(v, mid, out, Some(full), flags, session);
      }
    }
    hide AddsDescriptor, TakesReference, OpenAtDir, Components, Inv, Counted, Refresh, Undisturbed, Resolve, JoinDir, Clean;
  }

  /** The local part of a relative open, after a refresh that disturbed nothing. */
  lemma OpenedBelow(fs: FsState, mid: FsState, dirFd: nat, dir: string, path: string, flags: Flags)
    requires Inv(fs) && Inv(mid) && Undisturbed(fs, mid) && dirFd in fs.fds && OpenAtDir(mid, dirFd, path, flags).reply.Opened?
    ensures var out := OpenAtDir(mid, dirFd, path, flags);
            && out.reply == Opened(mid.nextFd) && out.state.fds == mid.fds[mid.nextFd := Handle(out.state.fds[mid.nextFd].inode, 0, flags)]
            && (Resolve(fs.inodes, fs.root, Components(dir)) == Ok(fs.fds[dirFd].inode) ==>
                  Resolve(out.state.inodes, out.state.root, Components(dir) + Components(path)) == Ok(out.state.fds[mid.nextFd].inode))
  {
    var out := OpenAtDir(mid, dirFd, path, flags);
    var start := fs.fds[dirFd].inode;
    assert mid.fds[dirFd].inode == start;
    assert Step(mid, OpenAt(dirFd, path, flags)) == out;
    OpenAtNamesItsFile(mid, dirFd, path, flags);
    hide Components, OpenAtDir, Inv, Step;
    if Resolve(fs.inodes, fs.root, Components(dir)) == Ok(start) {
      GrownResolves(fs.inodes, mid.inodes, fs.root, Components(dir));
      GrownResolves(mid.inodes, out.state.inodes, fs.root, Components(dir));
      ResolveFrom(out.state.inodes, fs.root, Components(dir), Components(path));
    }
    hide Resolve, Grows;
  }

  /** A directory descriptor without a path gives descriptors without one, and no
      lease is touched. */
  lemma PathlessOpenTakesNothing(v: Server, dirFd: nat, path: string, flags: Flags, session: Option<string>, answer: Answer)
    requires ServerInv(v) && dirFd !in v.fdPath
    ensures var w, response := Serve(v, OpenAtRequest(dirFd, path, flags, session, answer)), ServeOpenAt(v, dirFd, path, flags, session, answer).response;
            && w.leases == v.leases && !response.SyncRefused?
            && (response.FdOf? ==> AddsDescriptor(v, w, response.fd, None, flags, session))
  {
    var out := OpenAtDir(v.fs, dirFd, path, flags);
    if out.reply.Opened? {
      assert Step(v.fs, OpenAt(dirFd, path, flags)) == out;
      OpenAtNamesItsFile(v.fs, dirFd, path, flags);
      hide OpenAtDir, Components, Resolve;
      AfterOpenAdds(v, v, out, None, flags, session);
    }
    hide AddsDescriptor, OpenAtDir, Components, ServerInv;
  }

  // --------------------------------------------- what the open will find ---

  /** No file can be at `comps`: a directory is, or a file is above. */
  ghost predicate Blocked(s: FsState, comps: seq<string>) {
    NamesDir(s, comps) || exists k :: 0 <= k < |comps| && NamesFile(s, comps[..k])
  }

  /** The path names a file with exactly these bytes, all of them backed by slots. */
  predicate NamesContent(s: FsState, comps: seq<string>, content: seq<byte>) {
    var at := Resolve(s.inodes, s.root, comps);
    at.Ok? && at.value in s.inodes && s.inodes[at.value].content == File(Extent(content, Ceil(|content|)))
  }

  /** A refresh puts the downloaded bytes at the path, creating directories as
      needed, exactly unless no file can be there; then no open will make one
      either. */
  lemma RefreshWrites(fs: FsState, path: string, content: seq<byte>)
    requires Inv(fs) && Components(path) != []
    ensures var r, comps := Refresh(fs, path, Some(content)), Components(path);
            && (NamesContent(r, comps, content) <==> !Blocked(fs, comps))
            && (Blocked(fs, comps) ==> !NamesFile(r, comps) && !FreeName(r, r.root, comps))
  {
    var comps, parent := Components(path), ParentOf(path);
    var made := if parent == "" then fs else MkdirPCall(fs, parent).state;
    ParentComponents(path);
    ParentMade(fs, parent, made, comps);
    OpenReplaces(made, path, content);
    hide Inv, Components, MkdirPCall, OpenPath, WriteCall, CloseCall, Resolve, Blocked;
  }

  /** After the directories are made, the directory of the path is there or a file is above it. */
  lemma ParentMade(fs: FsState, parent: string, made: FsState, comps: seq<string>)
    requires Inv(fs) && comps != [] && Components(parent) == Front(comps)
    requires made == if parent == "" then fs else MkdirPCall(fs, parent).state
    ensures Inv(made)
    ensures Blocked(fs, comps) <==> NamesDir(made, comps) || !NamesDir(made, Front(comps))
  {
    var home := Front(comps);
    RootIsDir(fs);
    StepKeeps(fs, MkdirP(parent));
    MakeAllKeepsFiles(fs, fs.root, home);
    assert Inv(made) && InodesKept(fs.inodes, made.inodes) by { hide MakeAll; }
    assert forall k :: 0 <= k < |comps| ==> comps[..k] == home[..k];
    assert home[..|home|] == home;
    if parent == "" {
      assert home == [] && comps[..0] == [];
      hide Components, InodesKept;
    } else {
      MkdirPAllOrNothing(fs, parent);
      var out := MkdirPCall(fs, parent);
      hide MkdirPCall, Components, Inv;
      if out.reply.Failed? {
        var k :| 0 <= k <= |home| && NamesFile(fs, home[..k]);
        assert NamesFile(fs, comps[..k]);
        BelowFile(fs, home, k);
      } else {
        assert forall k :: 0 <= k <= |home| ==> !NamesFile(fs, home[..k]);
        assert NamesDir(made, home[..|home|]);
        SameDirs(fs, made, comps, home);
      }
    }
  }

  /** Nothing below a file is a directory. */
  lemma BelowFile(s: FsState, p: seq<string>, k: nat)
    requires k <= |p| && NamesFile(s, p[..k])
    ensures !NamesDir(s, p)
  {
    if k < |p| && NamesDir(s, p) {
      PrefixHasEntry(s.inodes, s.root, p[..k], p);
    }
    assert p[..|p|] == p;
  }

  lemma SameDirs(before: FsState, after: FsState, comps: seq<string>, home: seq<string>)
    requires Inv(before) && AddsAlong(before, after, home) && InodesKept(before.inodes, after.inodes) && home < comps
    ensures NamesDir(before, comps) <==> NamesDir(after, comps)
  {
    RootIsDir(before);
    Names(before, before.root, comps);
    hide Resolve, Inv;
  }

  /** Opening with O_CREAT and O_TRUNC and writing leaves these bytes at the path, if
      its directory is there and it is not a directory itself. */
  lemma OpenReplaces(made: FsState, path: string, content: seq<byte>)
    requires Inv(made) && Components(path) != []
    ensures var comps, out := Components(path), OpenPath(made, path, REPLACE);
            var r := if !out.reply.Opened? then out.state
                     else
                       var written := WriteCall(out.state, out.reply.fd, content);
                       if written.reply.Failed? then written.state else CloseCall(written.state, out.reply.fd).state;
            && (NamesContent(r, comps, content) <==> !NamesDir(made, comps) && NamesDir(made, Front(comps)))
            && (NamesDir(made, comps) || !NamesDir(made, Front(comps)) ==> !NamesFile(r, comps) && !FreeName(r, r.root, comps))
  {
    var comps, out := Components(path), OpenPath(made, path, REPLACE);
    EmptyPath();
    OpenReplyIs(made, path, REPLACE);
    ReplaceWhen(made, comps);
    FailuresChangeNothing(made, Open(path, REPLACE));
    assert Step(made, Open(path, REPLACE)) == out;
    hide Components, OpenPath;
    if out.reply.Opened? {
      OpenNamesItsFile(made, path, REPLACE);
      StepKeeps(made, Open(path, REPLACE));
      if Resolve(made.inodes, made.root, comps).Err? { CreatedIsFile(made, path, REPLACE); }
      NotOpenedDir(made, out.state, comps);
      ReplaceWrites(out.state, out.reply.fd, comps, content);
    }
    hide Step, Inv, WriteCall, CloseCall, Resolve, NamesDir, FreeName, RefusedAnyway;
  }

  /** When such an open succeeds, said of directories. */
  lemma ReplaceWhen(s: FsState, comps: seq<string>)
    requires Inv(s) && comps != []
    ensures var at := Resolve(s.inodes, s.root, comps); at.Ok? ==> at.value in s.inodes
    ensures var at := Resolve(s.inodes, s.root, comps);
            && ((at.Ok? && !RefusedAnyway(s.inodes[at.value], REPLACE)) || FreeName(s, s.root, comps)
                <==> !NamesDir(s, comps) && NamesDir(s, Front(comps)))
            && (NamesDir(s, comps) || !NamesDir(s, Front(comps)) ==> !NamesFile(s, comps) && !FreeName(s, s.root, comps))
  {
    RootIsDir(s);
    Names(s, s.root, comps);
    Names(s, s.root, Front(comps));
    if Resolve(s.inodes, s.root, comps).Ok? {
      ResolveStep(s.inodes, s.root, comps);
    } else {
      MissingWhy(s, s.root, comps);
    }
    hide Resolve, Tree;
  }

  /** What was opened for replacing is an empty file. */
  lemma NotOpenedDir(s: FsState, t: FsState, comps: seq<string>)
    requires Inv(s) && !NamesDir(s, comps) && AddsAlong(s, t, comps)
    requires var at := Resolve(t.inodes, t.root, comps);
             at.Ok? && OpenedContent(s, t, at.value, true) && (Resolve(s.inodes, s.root, comps).Err? ==> t.inodes[at.value].content.File?)
    ensures t.inodes[Resolve(t.inodes, t.root, comps).value].content == File(EMPTY)
  {
  }

  lemma ReplaceWrites(t: FsState, fd: nat, comps: seq<string>, content: seq<byte>)
    requires Inv(t) && fd in t.fds && t.fds[fd] == Handle(t.fds[fd].inode, 0, REPLACE)
    requires Resolve(t.inodes, t.root, comps) == Ok(t.fds[fd].inode) && t.inodes[t.fds[fd].inode].content == File(EMPTY)
    ensures var written := WriteCall(t, fd, content);
            !written.reply.Failed? && NamesContent(CloseCall(written.state, fd).state, comps, content)
  {
    var id, e := t.fds[fd].inode, WriteAt(EMPTY, 0, content);
    assert e == Extent(content, Ceil(|content|));
    ApplyKeepsSparse(EMPTY, BlockStorages.Write(0, content));
    StoreKeeps(t, id, e);
    SameShapeResolves(t.inodes, Store(t, id, e).inodes, t.root, comps);
    hide Resolve, Inv, WriteAt, Sparse, SameShape;
  }

  /** The descriptor finds `content`, if it is of a file at all. */
  predicate Finds(fs: FsState, fd: nat, content: seq<byte>) {
    && fd in fs.fds && fs.fds[fd].inode in fs.inodes
    && var inode := fs.inodes[fs.fds[fd].inode];
    && (inode.content.File? ==> inode.content == File(Extent(content, Ceil(|content|))))
  }

  /** What the sync layer downloaded for an open is what the descriptor it answers
      with finds, to the last byte; a path with a lease is not refreshed. */
  lemma OpenFindsDownload(v: Server, path: string, flags: Flags, session: Option<string>, answer: Answer)
    requires ServerInv(v) && path !in v.leases && answer.content.Some? && !flags.truncate && Components(path) != []
    ensures var w, response := Serve(v, OpenRequest(path, flags, session, answer)), ServeOpen(v, path, flags, session, answer).response;
            response.FdOf? ==> Finds(w.fs, response.fd, answer.content.value)
  {
    var before := BeforeOpen(v, path, flags, answer);
    if before.Some? {
      BeforeOpenTakes(v, path, flags, answer);
      RefreshWrites(v.fs, path, answer.content.value);
      EmptyPath();
      OpensWhatIsThere(before.value.fs, path, flags, answer.content.value);
    }
    hide OpenPath, Components, ServerInv, Inv, Refresh, NamesContent, NamesFile, FreeName, Finds;
  }

  lemma OpensWhatIsThere(s: FsState, path: string, flags: Flags, content: seq<byte>)
    requires Inv(s) && Components(path) != [] && path != "" && !flags.truncate
    requires NamesContent(s, Components(path), content)
             || (!NamesFile(s, Components(path)) && !FreeName(s, s.root, Components(path)))
    ensures var out := OpenPath(s, path, flags); out.reply.Opened? ==> Finds(out.state, out.reply.fd, content)
  {
    var comps, out := Components(path), OpenPath(s, path, flags);
    if out.reply.Opened? {
      OpenNamesItsFile(s, path, flags);
      OpenReplyIs(s, path, flags);
      assert Step(s, Open(path, flags)) == out;
      hide OpenPath, Components, Step, FreeName, Resolve, Inv;
    }
  }
}
