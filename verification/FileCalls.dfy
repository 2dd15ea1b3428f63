/**
 * What creating, removing and failing calls do to the paths of the tree.
 */
module FileCalls {
  import opened LockRecords
  import opened BlockStorages
  import opened FileSystems
  import opened FileTree
  import opened FileRename

  // --------------------------------------------------- one new entry ---

  lemma CreateEntries(s: FsState, dir: nat, name: string, isDir: bool)
    requires Inv(s) && IsDir(s.inodes, dir)
    ensures var after := Create(s, dir, name, isDir).inodes;
            && (forall d, n :: Entry(after, d, n) == if d == dir && n == name then Some(s.nextInode) else Entry(s.inodes, d, n))
            && (forall d :: d in s.inodes ==> IsDir(after, d) == IsDir(s.inodes, d))
            && (forall n :: Entry(after, s.nextInode, n).None?)
            && IsDir(after, s.nextInode) == isDir
  {
    hide Tree;
  }

  /** Only the entry `name` of `dir`, which `home` names, has changed. */
  ghost predicate OneEntryChanged(before: Table, after: Table, root: nat, home: seq<string>, dir: nat, name: string) {
    && Tree(before, root) && Resolve(before, root, home) == Ok(dir)
    && (forall d, n :: d != dir || n != name ==> Entry(after, d, n) == Entry(before, d, n))
    && (forall d :: d in before ==> IsDir(after, d) == IsDir(before, d))
  }

  lemma SameChild(before: Table, after: Table, root: nat, home: seq<string>, dir: nat, name: string, d: nat, n: string)
    requires OneEntryChanged(before, after, root, home, dir, name) && d in before && (d != dir || n != name)
    ensures Child(after, d, n) == Child(before, d, n)
  {
    hide Tree;
    hide IsDir;
    hide Entry;
  }

  /** Every path not at or below `home + [name]` is as it was. */
  lemma {:induction false} OthersResolve(before: Table, after: Table, root: nat, home: seq<string>, dir: nat, name: string, p: seq<string>)
    requires OneEntryChanged(before, after, root, home, dir, name) && !(home + [name] <= p)
    ensures Resolve(after, root, p) == Resolve(before, root, p)
  {
    if p != [] {
      OthersResolve(before, after, root, home, dir, name, Front(p));
      var d := Resolve(before, root, Front(p));
      if d.Ok? {
        assert Front(p) + [Last(p)] == p && Front(home + [name]) == home;
        SamePlace(before, root, Front(p), Last(p), home + [name]);
        ResolvesInTable(before, root, root, Front(p));
        SameChild(before, after, root, home, dir, name, d.value, Last(p));
        hide OneEntryChanged;
        hide Child;
      }
    }
  }

  /** A new entry names the new inode, and adds no other path. */
  lemma CreateAddsPath(s: FsState, home: seq<string>, dir: nat, name: string, isDir: bool, p: seq<string>)
    requires Inv(s) && IsDir(s.inodes, dir) && Resolve(s.inodes, s.root, home) == Ok(dir)
    requires Entry(s.inodes, dir, name).None?
    ensures var after := Create(s, dir, name, isDir).inodes;
            && (p == home + [name] ==> Resolve(after, s.root, p) == Ok(s.nextInode))
            && (Resolve(s.inodes, s.root, p).Ok? ==> Resolve(after, s.root, p) == Resolve(s.inodes, s.root, p))
            && (Resolve(after, s.root, p).Ok? ==> p == home + [name] || Resolve(s.inodes, s.root, p).Ok?)
  {
    var full := home + [name];
    var after := Create(s, dir, name, isDir).inodes;
    assert Front(full) == home && Last(full) == name;
    CreateEntries(s, dir, name, isDir);
    assert OneEntryChanged(s.inodes, after, s.root, home, dir, name);
    hide Inv;
    hide Create;
    if full <= p {
      OthersResolve(s.inodes, after, s.root, home, dir, name, home);
      assert Resolve(after, s.root, full) == Ok(s.nextInode) by {
        hide Resolve;
        ResolveStep(after, s.root, full);
      }
      assert Resolve(s.inodes, s.root, full).Err?;
      BelowMissing(s.inodes, s.root, full, p[|full|..]);
      assert full + p[|full|..] == p;
      if p != full && Resolve(after, s.root, p).Ok? {
        PrefixHasEntry(after, s.root, full, p);
      }
    } else {
      OthersResolve(s.inodes, after, s.root, home, dir, name, p);
    }
  }

  lemma ResolveStep(inodes: Table, root: nat, p: seq<string>)
    requires p != [] && Resolve(inodes, root, Front(p)).Ok?
    ensures Resolve(inodes, root, p) == Child(inodes, Resolve(inodes, root, Front(p)).value, Last(p))
  {
  }

  // ---------------------------------------------------------- mkdir_p ---

  predicate NamesDir(s: FsState, p: seq<string>) {
    Resolve(s.inodes, s.root, p).Ok? && IsDir(s.inodes, Resolve(s.inodes, s.root, p).value)
  }

  predicate NamesFile(s: FsState, p: seq<string>) {
    Resolve(s.inodes, s.root, p).Ok? && !IsDir(s.inodes, Resolve(s.inodes, s.root, p).value)
  }

  /** Below a directory that is still empty nothing can fail. */
  lemma {:induction false} MakeAllInEmpty(s: FsState, at: nat, comps: seq<string>)
    requires Inv(s) && IsDir(s.inodes, at) && forall n :: Entry(s.inodes, at, n).None?
    ensures MakeAll(s, at, comps).reply.Done?
    decreases |comps|
  {
    if comps != [] {
      assert Entry(s.inodes, at, comps[0]).None?;
      CreateKeeps(s, at, comps[0], true);
      CreateEntries(s, at, comps[0], true);
      MakeAllInEmpty(Create(s, at, comps[0], true), s.nextInode, comps[1..]);
      hide Inv;
      hide Create;
    }
  }

  /** `after` has the paths of `before`, and new ones only along `full`. */
  ghost predicate AddsAlong(before: FsState, after: FsState, full: seq<string>) {
    && after.root == before.root
    && (forall p :: Resolve(before.inodes, before.root, p).Ok? ==>
          Resolve(after.inodes, after.root, p) == Resolve(before.inodes, before.root, p))
    && (forall p :: Resolve(after.inodes, after.root, p).Ok? ==>
          p <= full || Resolve(before.inodes, before.root, p).Ok?)
  }

  /** Either nothing happened because some prefix is a file, or all prefixes are directories. */
  ghost predicate MadeAll(before: FsState, out: Outcome, done: seq<string>, comps: seq<string>) {
    if out.reply.Done? then
      && AddsAlong(before, out.state, done + comps)
      && (forall k :: 0 <= k <= |comps| ==> NamesDir(out.state, done + comps[..k]))
    else
      && out.state == before && out.reply.Failed?
      && (exists k :: 0 <= k <= |comps| && NamesFile(before, done + comps[..k]))
  }

  lemma {:induction false} MakeAllMakes(s: FsState, at: nat, done: seq<string>, comps: seq<string>)
    requires Inv(s) && IsDir(s.inodes, at) && Resolve(s.inodes, s.root, done) == Ok(at)
    ensures MadeAll(s, MakeAll(s, at, comps), done, comps)
    decreases |comps|
  {
    var out := MakeAll(s, at, comps);
    assert done + comps[..0] == done;
    if comps == [] {
      assert AddsAlong(s, out.state, done + comps);
    } else {
      var name, rest := comps[0], comps[1..];
      assert Front(done + [name]) == done && Last(done + [name]) == name;
      assert done + comps[..1] == done + [name];
      ResolveStep(s.inodes, s.root, done + [name]);
      var next := Child(s.inodes, at, name);
      hide Resolve;
      if next.Ok? {
        if IsDir(s.inodes, next.value) {
          MakeAllMakes(s, next.value, done + [name], rest);
          MadeOneMore(s, s, out, done, comps);
        } else {
          assert NamesFile(s, done + comps[..1]);
        }
      } else {
        NewDirAdds(s, at, done, name);
        var made := Create(s, at, name, true);
        hide Inv;
        hide Create;
        hide AddsAlong;
        MakeAllInEmpty(made, s.nextInode, rest);
        MakeAllMakes(made, s.nextInode, done + [name], rest);
        MadeOneMore(s, made, out, done, comps);
      }
    }
  }

  lemma NewDirAdds(s: FsState, at: nat, done: seq<string>, name: string)
    requires Inv(s) && IsDir(s.inodes, at) && Resolve(s.inodes, s.root, done) == Ok(at)
    requires Entry(s.inodes, at, name).None?
    ensures var made := Create(s, at, name, true);
            && Inv(made) && AddsAlong(s, made, done + [name])
            && Resolve(made.inodes, made.root, done + [name]) == Ok(s.nextInode)
            && IsDir(made.inodes, s.nextInode) && (forall n :: Entry(made.inodes, s.nextInode, n).None?)
  {
    var made := Create(s, at, name, true);
    CreateKeeps(s, at, name, true);
    CreateEntries(s, at, name, true);
    CreateAddsPath(s, done, at, name, true, done + [name]);
    hide Inv;
    assert made.root == s.root;
    hide Create;
    hide Resolve;
    forall p ensures
      && (Resolve(s.inodes, s.root, p).Ok? ==> Resolve(made.inodes, s.root, p) == Resolve(s.inodes, s.root, p))
      && (Resolve(made.inodes, s.root, p).Ok? ==> p == done + [name] || Resolve(s.inodes, s.root, p).Ok?)
    {
      CreateAddsPath(s, done, at, name, true, p);
    }
  }

  /** From the outcome one component further on to the outcome here. */
  lemma MadeOneMore(s: FsState, mid: FsState, out: Outcome, done: seq<string>, comps: seq<string>)
    requires comps != [] && NamesDir(s, done) && AddsAlong(s, mid, done + comps[..1])
    requires MadeAll(mid, out, done + [comps[0]], comps[1..])
    requires out.reply.Done? || mid == s
    ensures MadeAll(s, out, done, comps)
  {
    hide NamesDir;
    hide NamesFile;
    hide AddsAlong;
    assert forall k :: 1 <= k <= |comps| ==> done + comps[..k] == done + [comps[0]] + comps[1..][..k - 1];
    assert done + comps == done + [comps[0]] + comps[1..];
    if out.reply.Done? {
      AddsAlongTwice(s, mid, out.state, done + comps[..1], done + comps);
      assert done + comps[..0] == done;
      assert done + [comps[0]] + comps[1..][..0] == done + [comps[0]];
      assert NamesDir(out.state, done + [comps[0]] + comps[1..][..0]);
      ParentNamesDir(out.state, done, comps[0]);
      forall k | 0 <= k <= |comps| ensures NamesDir(out.state, done + comps[..k]) {
        if k > 0 {
          assert NamesDir(out.state, done + [comps[0]] + comps[1..][..k - 1]);
        }
      }
    } else {
      var k :| 0 <= k <= |comps[1..]| && NamesFile(mid, done + [comps[0]] + comps[1..][..k]);
      assert NamesFile(s, done + comps[..k + 1]);
    }
  }

  lemma ParentNamesDir(s: FsState, p: seq<string>, name: string)
    requires NamesDir(s, p + [name])
    ensures NamesDir(s, p)
  {
    PrefixHasEntry(s.inodes, s.root, p, p + [name]);
  }

  lemma AddsAlongTwice(a: FsState, b: FsState, c: FsState, p: seq<string>, q: seq<string>)
    requires AddsAlong(a, b, p) && AddsAlong(b, c, q) && p <= q
    ensures AddsAlong(a, c, q)
  {
    hide Resolve;
  }

  /** `mkdir_p` fails exactly when a prefix of the path is a file, and then changes
      nothing; otherwise every prefix is a directory and no other path appears. */
  lemma MkdirPAllOrNothing(s: FsState, path: string)
    requires Inv(s) && path != ""
    ensures var out, comps := MkdirPCall(s, path), Components(path);
            && (out.reply.Failed? <==> exists k :: 0 <= k <= |comps| && NamesFile(s, comps[..k]))
            && (out.reply.Failed? ==> out.state == s)
            && (!out.reply.Failed? ==> AddsAlong(s, out.state, comps) && forall k :: 0 <= k <= |comps| ==> NamesDir(out.state, comps[..k]))
  {
    var out, comps := MkdirPCall(s, path), Components(path);
    RootIsDir(s);
    MakeAllMakes(s, s.root, [], comps);
    MakeAllKeepsFiles(s, s.root, comps);
    assert forall k :: 0 <= k <= |comps| ==> [] + comps[..k] == comps[..k];
    assert [] + comps == comps;
    if out.reply.Done? {
      forall k | 0 <= k <= |comps| ensures !NamesFile(s, comps[..k]) {
        assert NamesDir(out.state, [] + comps[..k]);
        ResolvesInTable(s.inodes, s.root, s.root, comps[..k]);
      }
    }
    hide Inv;
    hide Resolve;
    hide MakeAll;
    hide Components;
  }

  // --------------------------------------------------- failing calls ---

  /** The call asks to create and truncate a file it opens for reading only. */
  predicate ReadOnlyTruncatingCreate(flags: Flags) {
    flags.create && flags.truncate && flags.access.ReadOnly?
  }

  /** The last name of `comps` is free in an existing directory. */
  predicate FreeName(s: FsState, start: nat, comps: seq<string>) {
    && comps != []
    && ResolveDir(s.inodes, start, Front(comps)).Ok?
    && Entry(s.inodes, ResolveDir(s.inodes, start, Front(comps)).value, Last(comps)).None?
  }

  /** The opens that fail after they have created their file. */
  predicate LeavesFile(s: FsState, c: Call) {
    match c
    case Open(path, flags) => ReadOnlyTruncatingCreate(flags) && FreeName(s, s.root, Components(path))
    case OpenAt(dirFd, path, flags) =>
      && ReadOnlyTruncatingCreate(flags) && !("/" <= path) && dirFd in s.fds
      && IsDir(s.inodes, s.fds[dirFd].inode) && FreeName(s, s.fds[dirFd].inode, Components(path))
    case _ => false
  }

  lemma OpenFromFailure(s: FsState, start: nat, comps: seq<string>, flags: Flags)
    requires Inv(s) && comps != [] && start in s.inodes
    ensures var out := OpenFrom(s, start, comps, flags);
            && (out.reply.Failed? && out.state != s <==> ReadOnlyTruncatingCreate(flags) && FreeName(s, start, comps))
            && (ReadOnlyTruncatingCreate(flags) && FreeName(s, start, comps) ==>
                  && out.reply == Failed(InvalidArgument)
                  && out.state == Create(s, ResolveDir(s.inodes, start, Front(comps)).value, Last(comps), false))
  {
    ResolvesInTable(s.inodes, s.root, start, Front(comps));
    hide Resolve;
    hide Tree;
  }

  /** A failing call changes nothing, unless it is an open that has already
      created its file when it finds that it may not truncate it. */
  lemma FailuresChangeNothing(s: FsState, c: Call)
    requires Inv(s)
    ensures Step(s, c).reply.Failed? && Step(s, c).state != s <==> LeavesFile(s, c)
  {
    hide Tree;
    hide Sparse;
    hide Components;
    hide OpenFrom;
    hide MakeAll;
    hide RenameComps;
    hide Resolve;
    match c
    case Open(path, flags) => {
      RootIsDir(s);
      if Components(path) != [] {
        EmptyPath();
        OpenFromFailure(s, s.root, Components(path), flags);
      }
    }
    case OpenAt(dirFd, path, flags) => {
      if Components(path) != [] && dirFd in s.fds {
        OpenFromFailure(s, s.fds[dirFd].inode, Components(path), flags);
      }
    }
    case MkdirP(path) => {
      if path != "" {
        MkdirPAllOrNothing(s, path);
      }
    }
    case Rename(path, target) => RenameFailure(s, path, target);
    case _ =>
  }

  lemma EmptyPath()
    ensures Components("") == []
  {
  }

  lemma RenameFailure(s: FsState, path: string, target: string)
    ensures RenameCall(s, path, target).reply.Failed? ==> RenameCall(s, path, target).state == s
  {
    hide Components;
    hide Refusal;
    hide Resolve;
  }

  /** What such an open leaves: a new empty file at its path, and no other path. */
  lemma FailedOpenLeavesEmptyFile(s: FsState, path: string, flags: Flags)
    requires Inv(s) && LeavesFile(s, Open(path, flags))
    ensures var after := Step(s, Open(path, flags)).state;
            && Resolve(after.inodes, s.root, Components(path)) == Ok(s.nextInode)
            && after.inodes[s.nextInode].content == File(EMPTY) && after.fds == s.fds
            && (forall p :: p != Components(path) ==>
                  (Resolve(after.inodes, s.root, p).Ok? <==> Resolve(s.inodes, s.root, p).Ok?))
  {
    var comps := Components(path);
    RootIsDir(s);
    EmptyPath();
    OpenFromFailure(s, s.root, comps, flags);
    var dir := ResolveDir(s.inodes, s.root, Front(comps)).value;
    ResolvesInTable(s.inodes, s.root, s.root, Front(comps));
    assert Front(comps) + [Last(comps)] == comps;
    hide OpenFrom;
    hide Tree;
    hide Components;
    CreateAddsPath(s, Front(comps), dir, Last(comps), false, comps);
    hide Resolve;
    forall p | p != comps
      ensures Resolve(Create(s, dir, Last(comps), false).inodes, s.root, p).Ok? <==> Resolve(s.inodes, s.root, p).Ok?
    {
      CreateAddsPath(s, Front(comps), dir, Last(comps), false, p);
    }
  }

  // ------------------------------------------------- removing a path ---

  /** A path leads to the same inode as before, or to none as before. */
  predicate SameAnswer(before: FsState, after: FsState, p: seq<string>) {
    var was, now := Resolve(before.inodes, before.root, p), Resolve(after.inodes, after.root, p);
    was == now || (was.Err? && now.Err?)
  }

  /** `unlink` and `rmdir` take away exactly the path they were given. */
  lemma RemovalTakesOnePath(s: FsState, c: Call, p: seq<string>)
    requires Inv(s) && (c.Unlink? || c.Rmdir?) && Step(s, c).reply.Done?
    ensures if p == Components(c.path) then Resolve(Step(s, c).state.inodes, s.root, p) == Err(NotFound)
            else SameAnswer(s, Step(s, c).state, p)
  {
    var comps := Components(c.path);
    var at := Locate(s, comps).value;
    assert Front(comps) + [Last(comps)] == comps;
    hide Components;
    DetachTakesOnePath(s, comps, at.0, at.1, p);
    hide Detach;
    hide Resolve;
    hide Inv;
  }

  lemma DetachTakesOnePath(s: FsState, comps: seq<string>, dir: nat, id: nat, p: seq<string>)
    requires Inv(s) && comps != [] && IsDir(s.inodes, dir) && Resolve(s.inodes, s.root, Front(comps)) == Ok(dir)
    requires Entry(s.inodes, dir, Last(comps)) == Some(id) && forall n :: Entry(s.inodes, id, n).None?
    ensures if p == comps then Resolve(Detach(s, dir, Last(comps)).inodes, s.root, p) == Err(NotFound)
            else SameAnswer(s, Detach(s, dir, Last(comps)), p)
  {
    var after := Detach(s, dir, Last(comps)).inodes;
    assert Front(comps) + [Last(comps)] == comps;
    RelinkChanges(s.inodes, dir, Last(comps), None, s.clock);
    assert OneEntryChanged(s.inodes, after, s.root, Front(comps), dir, Last(comps));
    if comps <= p {
      OthersResolve(s.inodes, after, s.root, Front(comps), dir, Last(comps), Front(comps));
      hide Inv;
      hide OneEntryChanged;
      assert Resolve(after, s.root, comps) == Err(NotFound);
      assert Resolve(s.inodes, s.root, comps) == Ok(id);
      BelowMissing(after, s.root, comps, p[|comps|..]);
      assert comps + p[|comps|..] == p;
      if p != comps && Resolve(s.inodes, s.root, p).Ok? {
        PrefixHasEntry(s.inodes, s.root, comps, p);
      }
    } else {
      OthersResolve(s.inodes, after, s.root, Front(comps), dir, Last(comps), p);
    }
  }

  // ------------------------------------------------------------ opening ---

  /** What the inode of an opened path holds: nothing if it was created or
      truncated, else what it held. */
  predicate OpenedContent(before: FsState, after: FsState, id: nat, truncate: bool) {
    && id in after.inodes
    && (if id !in before.inodes then after.inodes[id].content == File(EMPTY)
        else if truncate && before.inodes[id].content.File? then after.inodes[id].content == File(EMPTY)
        else after.inodes[id] == before.inodes[id])
  }

  lemma OpenInodeOpens(s: FsState, id: nat, flags: Flags)
    requires id in s.inodes && SoundInode(s.inodes[id]) && OpenInode(s, id, flags).reply.Opened?
    ensures var out := OpenInode(s, id, flags);
            && out.reply.fd == s.nextFd && out.state.fds == s.fds[s.nextFd := Handle(id, 0, flags)]
            && OpenedContent(s, out.state, id, flags.truncate)
            && (SameShape(s.inodes, out.state.inodes) && out.state.root == s.root)
            && (forall other :: other in s.inodes && other != id ==> out.state.inodes[other] == s.inodes[other])
  {
    var content := s.inodes[id].content;
    if content.File? {
      assert Ceil(0) == 0;
      assert Resize(content.extent, 0) == EMPTY;
    }
  }

  /** A successful open gives a new descriptor at position zero of the inode that
      the path now names, disturbs no other descriptor or path, and leaves the
      file as it was unless it created or truncated it. */
  lemma OpenNamesItsFile(s: FsState, path: string, flags: Flags)
    requires Inv(s) && Step(s, Open(path, flags)).reply.Opened?
    ensures var after, fd := Step(s, Open(path, flags)).state, Step(s, Open(path, flags)).reply.fd;
            && fd !in s.fds && AddsAlong(s, after, Components(path))
            && Resolve(after.inodes, after.root, Components(path)).Ok?
            && var id := Resolve(after.inodes, after.root, Components(path)).value;
            && after.fds == s.fds[fd := Handle(id, 0, flags)]
            && (Components(path) != [] ==> OpenedContent(s, after, id, flags.truncate))
  {
    hide Components;
    hide OpenFrom;
    var comps := Components(path);
    if comps != [] {
      OpenFromOpens(s, comps, flags);
    }
    hide Tree;
  }

  lemma SameShapeAdds(before: FsState, mid: FsState, after: FsState, full: seq<string>)
    requires AddsAlong(before, mid, full) && SameShape(mid.inodes, after.inodes) && after.root == mid.root
    ensures AddsAlong(before, after, full)
    ensures forall p :: Resolve(after.inodes, after.root, p) == Resolve(mid.inodes, mid.root, p)
  {
    forall p ensures Resolve(after.inodes, after.root, p) == Resolve(mid.inodes, mid.root, p) {
      SameShapeResolves(mid.inodes, after.inodes, mid.root, p);
    }
    hide SameShape;
    hide Resolve;
  }

  lemma OpenFromOpens(s: FsState, comps: seq<string>, flags: Flags)
    requires Inv(s) && comps != [] && OpenFrom(s, s.root, comps, flags).reply.Opened?
    ensures var out := OpenFrom(s, s.root, comps, flags);
            && out.reply.fd == s.nextFd && AddsAlong(s, out.state, comps)
            && Resolve(out.state.inodes, out.state.root, comps).Ok?
            && var id := Resolve(out.state.inodes, out.state.root, comps).value;
            && out.state.fds == s.fds[s.nextFd := Handle(id, 0, flags)]
            && OpenedContent(s, out.state, id, flags.truncate)
  {
    hide Tree;
    hide OpenInode;
    var out := OpenFrom(s, s.root, comps, flags);
    var dir := ResolveDir(s.inodes, s.root, Front(comps)).value;
    ResolveStep(s.inodes, s.root, comps);
    hide Resolve;
    var file := Child(s.inodes, dir, Last(comps));
    if file.Ok? {
      OpenInodeOpens(s, file.value, flags);
      SameShapeAdds(s, s, out.state, comps);
    } else {
      var made := Create(s, dir, Last(comps), false);
      CreateAdds(s, comps, dir);
      CreateKeeps(s, dir, Last(comps), false);
      OpenInodeOpens(made, s.nextInode, flags);
      SameShapeAdds(s, made, out.state, comps);
    }
  }

  lemma CreateAdds(s: FsState, comps: seq<string>, dir: nat)
    requires Inv(s) && comps != [] && Resolve(s.inodes, s.root, Front(comps)) == Ok(dir) && IsDir(s.inodes, dir)
    requires Entry(s.inodes, dir, Last(comps)).None?
    ensures var made := Create(s, dir, Last(comps), false);
            AddsAlong(s, made, comps) && Resolve(made.inodes, made.root, comps) == Ok(s.nextInode)
  {
    hide Inv, Resolve, Entry, IsDir;
    assert Front(comps) + [Last(comps)] == comps;
    var made := Create(s, dir, Last(comps), false);
    assert made.root == s.root;
    CreateAddsPath(s, Front(comps), dir, Last(comps), false, comps);
    hide Create;
    forall p ensures
      && (Resolve(s.inodes, s.root, p).Ok? ==> Resolve(made.inodes, s.root, p) == Resolve(s.inodes, s.root, p))
      && (Resolve(made.inodes, s.root, p).Ok? ==> p == comps || Resolve(s.inodes, s.root, p).Ok?)
    {
      CreateAddsPath(s, Front(comps), dir, Last(comps), false, p);
    }
  }
}
