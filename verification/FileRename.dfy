/**
 * What a rename does to every path, and to open descriptors.
 */
module FileRename {
  import opened LockRecords
  import opened BlockStorages
  import opened FileSystems
  import opened FileTree

  /** `after` is `before` with the entry at `source` moved to `target`. */
  ghost predicate Moved(before: Table, after: Table, root: nat, source: seq<string>, target: seq<string>) {
    && source != [] && target != [] && source != target
    && Tree(before, root)
    && Resolve(before, root, source).Ok?
    && var from := Resolve(before, root, Front(source));
    && var to := Resolve(before, root, Front(target));
    && from.Ok? && to.Ok? && IsDir(before, to.value)
    && (forall d, n :: Entry(after, d, n) ==
          if d == to.value && n == Last(target) then Some(Resolve(before, root, source).value)
          else if d == from.value && n == Last(source) then None
          else Entry(before, d, n))
    && (forall d :: IsDir(after, d) == IsDir(before, d))
  }

  /** The inode a successful rename moves is the one its source named. */
  lemma RenameIsMove(s: FsState, source: seq<string>, target: seq<string>)
    requires Inv(s) && source != [] && target != [] && source != target
    requires RenameComps(s, source, target).reply.Done?
    ensures Moved(s.inodes, RenameComps(s, source, target).state.inodes, s.root, source, target)
    ensures RenameComps(s, source, target).state.fds == s.fds
  {
    hide Refusal;
    var at := Locate(s, source).value;
    var to := ResolveDir(s.inodes, s.root, Front(target)).value;
    var mid := Relink(s.inodes, at.0, Last(source), None, s.clock);
    RelinkChanges(s.inodes, at.0, Last(source), None, s.clock);
    RelinkChanges(mid, to, Last(target), Some(at.1), s.clock);
    hide Entry;
    hide IsDir;
    hide Tree;
    hide Relink;
  }

  /** Nothing but the two entries is affected: paths below neither resolve as before. */
  lemma {:induction false} OutsideUnchanged(before: Table, after: Table, root: nat, source: seq<string>, target: seq<string>, p: seq<string>)
    requires Moved(before, after, root, source, target)
    requires !(source <= p) && !(target <= p)
    ensures Resolve(after, root, p) == Resolve(before, root, p)
  {
    if p != [] {
      var q := Front(p);
      OutsideUnchanged(before, after, root, source, target, q);
      var d := Resolve(before, root, q);
      if d.Ok? {
        SamePlace(before, root, q, Last(p), source);
        SamePlace(before, root, q, Last(p), target);
        hide Tree;
        hide IsDir;
        hide Entry;
      }
    }
  }

  /** A name in the directory that holds `place` is `place` only if the path is. */
  lemma SamePlace(inodes: Table, root: nat, dir: seq<string>, name: string, place: seq<string>)
    requires Tree(inodes, root) && place != [] && !(place <= dir + [name])
    requires Resolve(inodes, root, dir).Ok? && Resolve(inodes, root, Front(place)).Ok?
    ensures Resolve(inodes, root, dir) == Resolve(inodes, root, Front(place)) ==> name != Last(place)
  {
    assert place == Front(place) + [Last(place)];
    if Resolve(inodes, root, dir) == Resolve(inodes, root, Front(place)) {
      NamesAreUnique(inodes, root, dir, Front(place));
    }
  }

  /** A target that is not below the source now leads where the source led. */
  lemma {:induction false} TargetTakesOver(before: Table, after: Table, root: nat, source: seq<string>, target: seq<string>, rest: seq<string>)
    requires Moved(before, after, root, source, target) && !(source <= target)
    ensures Resolve(after, root, target + rest) == Resolve(before, root, source + rest)
    decreases |rest|
  {
    if rest == [] {
      assert target + rest == target && source + rest == source;
      OutsideUnchanged(before, after, root, source, target, Front(target));
    } else {
      var r := Front(rest);
      TargetTakesOver(before, after, root, source, target, r);
      assert Front(target + rest) == target + r && Front(source + rest) == source + r;
      assert Last(target + rest) == Last(rest) && Last(source + rest) == Last(rest);
      var d := Resolve(before, root, source + r);
      if d.Ok? {
        ElsewhereThan(before, root, source + r, Front(source));
        ElsewhereThan(before, root, source + r, Front(target));
        hide Tree;
        hide IsDir;
        hide Entry;
      }
    }
  }

  lemma ElsewhereThan(inodes: Table, root: nat, p: seq<string>, q: seq<string>)
    requires Tree(inodes, root) && Resolve(inodes, root, p).Ok? && p != q
    ensures Resolve(inodes, root, p) != Resolve(inodes, root, q)
  {
    if Resolve(inodes, root, p) == Resolve(inodes, root, q) {
      NamesAreUnique(inodes, root, p, q);
    }
  }

  /** Once a path fails to resolve, so does everything below it. */
  lemma {:induction false} BelowMissing(inodes: Table, root: nat, p: seq<string>, rest: seq<string>)
    requires Resolve(inodes, root, p).Err?
    ensures Resolve(inodes, root, p + rest) == Resolve(inodes, root, p)
    decreases |rest|
  {
    if rest == [] {
      assert p + rest == p;
    } else {
      BelowMissing(inodes, root, p, Front(rest));
      assert Front(p + rest) == p + Front(rest);
    }
  }

  /** The old name is gone, with everything that was below it. */
  lemma SourceIsGone(before: Table, after: Table, root: nat, source: seq<string>, target: seq<string>, rest: seq<string>)
    requires Moved(before, after, root, source, target) && !(target <= source)
    ensures Resolve(after, root, source + rest) == Err(NotFound)
  {
    OutsideUnchanged(before, after, root, source, target, Front(source));
    assert Front(source) + [Last(source)] == source;
    SamePlace(before, root, Front(source), Last(source), target);
    assert Resolve(after, root, source) == Err(NotFound) by {
      hide Tree;
    }
    BelowMissing(after, root, source, rest);
  }

  /** The entry through which a longer path leaves `p`. */
  lemma {:induction false} PrefixHasEntry(inodes: Table, root: nat, p: seq<string>, longer: seq<string>)
    requires p <= longer && p != longer && Resolve(inodes, root, longer).Ok?
    ensures Resolve(inodes, root, p).Ok?
    ensures Entry(inodes, Resolve(inodes, root, p).value, longer[|p|]).Some?
    decreases |longer|
  {
    if p != Front(longer) {
      PrefixHasEntry(inodes, root, p, Front(longer));
    }
  }

  /** No rename puts something in place of a directory that holds it. */
  lemma RenameOntoAncestorFails(s: FsState, source: seq<string>, target: seq<string>)
    requires Inv(s) && target != [] && target <= source && source != target
    ensures !RenameComps(s, source, target).reply.Done?
  {
    if Resolve(s.inodes, s.root, source).Ok? {
      PrefixHasEntry(s.inodes, s.root, target, source);
      var up := Resolve(s.inodes, s.root, target).value;
      assert source[|target|] in s.inodes[up].content.entries;
    }
    hide Tree;
  }

  /** What a successful rename does to every path. The first part needs a target
      that is not below the source, which the code does not check. */
  lemma RenameMovesPaths(s: FsState, path: string, target: string)
    requires Inv(s) && RenameCall(s, path, target).reply.Done?
    ensures var before, after := s.inodes, RenameCall(s, path, target).state.inodes;
            var from, to := Components(path), Components(target);
            && (from == to || !(from <= to) ==>
                  forall rest :: Resolve(after, s.root, to + rest) == Resolve(before, s.root, from + rest))
            && (forall p :: !(from <= p) && !(to <= p) ==> Resolve(after, s.root, p) == Resolve(before, s.root, p))
            && (from != to ==> forall rest :: Resolve(after, s.root, from + rest) == Err(NotFound))
  {
    hide Inv;
    hide Components;
    hide RenameComps;
    hide Moved;
    var from, to := Components(path), Components(target);
    if from != to {
      var before, after := s.inodes, RenameComps(s, from, to).state.inodes;
      RenameIsMove(s, from, to);
      if to <= from {
        RenameOntoAncestorFails(s, from, to);
        assert false;
      }
      forall p | !(from <= p) && !(to <= p) ensures Resolve(after, s.root, p) == Resolve(before, s.root, p) {
        OutsideUnchanged(before, after, s.root, from, to, p);
      }
      forall rest: seq<string> ensures Resolve(after, s.root, from + rest) == Err(NotFound) {
        SourceIsGone(before, after, s.root, from, to, rest);
      }
      if !(from <= to) {
        forall rest: seq<string> ensures Resolve(after, s.root, to + rest) == Resolve(before, s.root, from + rest) {
          TargetTakesOver(before, after, s.root, from, to, rest);
        }
      }
    }
  }

  /** A rename delivers the source at the target exactly when the target is not
      below the source; otherwise the whole subtree is cut off from the root. */
  lemma RenameDelivers(s: FsState, path: string, target: string)
    requires Inv(s) && RenameCall(s, path, target).reply.Done? && Components(path) != Components(target)
    ensures Resolve(RenameCall(s, path, target).state.inodes, s.root, Components(target))
            == Resolve(s.inodes, s.root, Components(path))
            <==> !(Components(path) <= Components(target))
  {
    hide Inv;
    hide Components;
    hide RenameComps;
    RenameMovesPaths(s, path, target);
    var from, to := Components(path), Components(target);
    var after := RenameCall(s, path, target).state.inodes;
    if from <= to {
      var rest := to[|from|..];
      assert to == from + rest;
      RenameIsMove(s, from, to);
      assert Resolve(s.inodes, s.root, from).Ok? by {
        assert Moved(s.inodes, after, s.root, from, to);
      }
    } else {
      assert to + [] == to && from + [] == from;
    }
  }

  /** The missing check, at work: any directory can be renamed to a free name inside
      itself. The call succeeds, and then neither name leads anywhere. */
  lemma RenameIntoItself(s: FsState, path: string, target: string, n: string)
    requires Inv(s) && Components(path) != [] && Components(target) == Components(path) + [n]
    requires var at := Resolve(s.inodes, s.root, Components(path));
             at.Ok? && IsDir(s.inodes, at.value) && Entry(s.inodes, at.value, n).None?
    ensures var out := RenameCall(s, path, target);
            && out.reply.Done?
            && Resolve(out.state.inodes, s.root, Components(path)).Err?
            && Resolve(out.state.inodes, s.root, Components(target)).Err?
  {
    var from, to := Components(path), Components(target);
    var id := Resolve(s.inodes, s.root, from).value;
    hide Components;
    assert Front(to) == from && Last(to) == n;
    PrefixHasEntry(s.inodes, s.root, Front(from), from);
    assert RenameComps(s, from, to).reply.Done? by { hide Move; }
    RenameMovesPaths(s, path, target);
    assert from + [] == from;
    hide RenameComps, Resolve, Inv;
  }

  /** The calls that only change names: they touch no descriptor but the one they open. */
  predicate OnlyNames(c: Call) {
    c.Mkdir? || c.MkdirP? || c.Unlink? || c.Rmdir? || c.Rename?
    || (c.Open? && !c.flags.truncate) || (c.OpenAt? && !c.flags.truncate)
  }

  /** Inodes stay in the table, files with the same metadata and bytes. */
  ghost predicate InodesKept(before: Table, after: Table) {
    forall id :: id in before ==>
      && id in after && after[id].content.Dir? == before[id].content.Dir?
      && (before[id].content.File? ==> after[id] == before[id])
  }

  /** Descriptors open before are as they were, and so is every file. */
  ghost predicate FilesKept(before: FsState, after: FsState) {
    && before.nextFd <= after.nextFd
    && (forall fd :: fd in before.fds ==> fd in after.fds && after.fds[fd] == before.fds[fd])
    && InodesKept(before.inodes, after.inodes)
  }

  lemma RelinkKeepsInodes(inodes: Table, dir: nat, name: string, target: Option<nat>, now: nat)
    requires IsDir(inodes, dir)
    ensures InodesKept(inodes, Relink(inodes, dir, name, target, now))
  {
  }

  lemma KeptTwice(a: Table, b: Table, c: Table)
    requires InodesKept(a, b) && InodesKept(b, c)
    ensures InodesKept(a, c)
  {
  }

  lemma CreateKeepsFiles(s: FsState, dir: nat, name: string, isDir: bool)
    requires s.nextInode !in s.inodes && IsDir(s.inodes, dir)
    ensures FilesKept(s, Create(s, dir, name, isDir))
  {
    var mid := Relink(s.inodes, dir, name, Some(s.nextInode), s.clock);
    RelinkKeepsInodes(s.inodes, dir, name, Some(s.nextInode), s.clock);
    KeptTwice(s.inodes, mid, Create(s, dir, name, isDir).inodes);
  }

  lemma MoveKeepsFiles(s: FsState, id: nat, from: nat, name: string, to: nat, newName: string)
    requires IsDir(s.inodes, from) && IsDir(s.inodes, to)
    ensures FilesKept(s, Move(s, id, from, name, to, newName))
  {
    var mid := Relink(s.inodes, from, name, None, s.clock);
    RelinkKeepsInodes(s.inodes, from, name, None, s.clock);
    RelinkKeepsInodes(mid, to, newName, Some(id), s.clock);
    KeptTwice(s.inodes, mid, Relink(mid, to, newName, Some(id), s.clock));
  }

  lemma RenameKeepsFiles(s: FsState, source: seq<string>, target: seq<string>)
    requires source != [] && target != []
    ensures FilesKept(s, RenameComps(s, source, target).state)
  {
    hide Move;
    hide Resolve;
    hide Refusal;
    if RenameComps(s, source, target).reply.Done? {
      var at, to := Locate(s, source).value, ResolveDir(s.inodes, s.root, Front(target)).value;
      MoveKeepsFiles(s, at.1, at.0, Last(source), to, Last(target));
    }
  }

  lemma {:induction false} MakeAllKeepsFiles(s: FsState, at: nat, comps: seq<string>)
    requires Inv(s) && IsDir(s.inodes, at)
    ensures FilesKept(s, MakeAll(s, at, comps).state)
    decreases |comps|
  {
    if comps != [] {
      var next := Child(s.inodes, at, comps[0]);
      if next.Ok? {
        if IsDir(s.inodes, next.value) {
          MakeAllKeepsFiles(s, next.value, comps[1..]);
        }
      } else {
        var made := Create(s, at, comps[0], true);
        CreateKeeps(s, at, comps[0], true);
        CreateKeepsFiles(s, at, comps[0], true);
        MakeAllKeepsFiles(made, s.nextInode, comps[1..]);
        KeptTwice(s.inodes, made.inodes, MakeAll(made, s.nextInode, comps[1..]).state.inodes);
      }
      hide Inv;
      hide InodesKept;
    }
  }

  lemma OpenFromKeepsFiles(s: FsState, start: nat, comps: seq<string>, flags: Flags)
    requires Inv(s) && comps != [] && !flags.truncate
    ensures FilesKept(s, OpenFrom(s, start, comps, flags).state)
  {
    hide Resolve;
    hide Create;
    var dir := ResolveDir(s.inodes, start, Front(comps));
    if dir.Ok? && IsDir(s.inodes, dir.value) {
      CreateKeepsFiles(s, dir.value, Last(comps), false);
    }
    hide Inv;
  }

  lemma NamesKeepFiles(s: FsState, c: Call)
    requires Inv(s) && OnlyNames(c)
    ensures FilesKept(s, Step(s, c).state)
  {
    hide Tree;
    hide Components;
    hide OpenFrom;
    hide MakeAll;
    hide Resolve;
    hide RenameComps;
    hide Relink;
    match c
    case Open(path, flags) => {
      if Components(path) != [] {
        OpenFromKeepsFiles(s, s.root, Components(path), flags);
      }
    }
    case OpenAt(dirFd, path, flags) => {
      if Components(path) != [] && dirFd in s.fds {
        OpenFromKeepsFiles(s, s.fds[dirFd].inode, Components(path), flags);
      }
    }
    case Mkdir(path) => {
      if MkdirCall(s, path).reply.Done? {
        CreateKeepsFiles(s, ResolveDir(s.inodes, s.root, Front(Components(path))).value, Last(Components(path)), true);
      }
    }
    case MkdirP(path) => RootIsDir(s); MakeAllKeepsFiles(s, s.root, Components(path));
    case Unlink(path) => DetachKeepsFiles(s, path);
    case Rmdir(path) => DetachKeepsFiles(s, path);
    case Rename(path, target) => {
      if Components(path) != [] && Components(target) != [] {
        RenameKeepsFiles(s, Components(path), Components(target));
      }
    }
  }

  lemma DetachKeepsFiles(s: FsState, path: string)
    ensures FilesKept(s, UnlinkCall(s, path).state) && FilesKept(s, RmdirCall(s, path).state)
  {
    hide Components;
    hide Resolve;
    hide Relink;
    var comps := Components(path);
    if comps != [] && Locate(s, comps).Ok? && IsDir(s.inodes, Locate(s, comps).value.0) {
      RelinkKeepsInodes(s.inodes, Locate(s, comps).value.0, Last(comps), None, s.clock);
    }
  }

  /** Any number of renames, unlinks and other calls on names: a descriptor open
      before still reads the same bytes, even when its file has lost its name. */
  lemma {:induction false} DescriptorsOutliveNames(s: FsState, calls: seq<Call>, fd: nat)
    requires Inv(s) && (forall i :: 0 <= i < |calls| ==> OnlyNames(calls[i])) && fd in s.fds
    ensures Inv(Run(s, calls)) && FilesKept(s, Run(s, calls))
    ensures forall offset, len :: Step(Run(s, calls), ReadAtOffset(fd, offset, len)).reply == Step(s, ReadAtOffset(fd, offset, len)).reply
  {
    if calls != [] {
      var before, last := calls[..|calls| - 1], calls[|calls| - 1];
      DescriptorsOutliveNames(s, before, fd);
      var mid := Run(s, before);
      NamesKeepFiles(mid, last);
      StepKeeps(mid, last);
      KeptTwice(s.inodes, mid.inodes, Run(s, calls).inodes);
      hide Step;
      hide Inv;
      hide InodesKept;
    }
    SameReads(s, Run(s, calls), fd);
  }

  lemma SameReads(before: FsState, after: FsState, fd: nat)
    requires FilesKept(before, after) && fd in before.fds && Inv(before) && Inv(after)
    ensures forall offset, len :: Step(after, ReadAtOffset(fd, offset, len)).reply == Step(before, ReadAtOffset(fd, offset, len)).reply
  {
    hide Tree;
    hide Sparse;
  }
}
