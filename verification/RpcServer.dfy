/**
 * The RPC server's descriptor tables, sessions and lease references, with file
 * locks on. The sync layer answers each call that reaches the store: whether a
 * lease was granted, and what it wrote to the local copy.
 */
module RpcServers {
  import opened LockRecords
  import Keys = ObjectStores
  import opened BlockStorages
  import opened FileSystems
  import opened FileTree
  import opened FsObjects

  /** `failedOpens` is a history: the write opens whose lease was taken and
      whose local open then failed. Nothing in the server reads it. */
  datatype Server = Server(
    fs: FsState,
    leases: map<string, nat>,
    fdPath: map<nat, string>,
    fdFlags: map<nat, Flags>,
    sessions: map<string, set<nat>>,
    failedOpens: multiset<string>)

  /** What the sync layer did: granted the lease or not, and the content it
      downloaded over the local file, if it did. */
  datatype Answer = Answer(granted: bool, content: Option<seq<byte>>)

  datatype Response = FdOf(fd: nat) | SyncRefused | Local(reply: Reply)

  datatype Served = Served(server: Server, response: Response)

  predicate IsWrite(flags: Flags) { !flags.access.ReadOnly? }

  // -------------------------------------------------------- paths ---

  function DropName(s: string): string
    decreases |s|
  {
    if s != "" && s[|s| - 1] != '/' then DropName(s[..|s| - 1]) else s
  }

  /** The path `path` has when opened relative to the directory at `dir`. */
  function JoinDir(dir: string, path: string): string {
    if dir == "/" then "/" + Keys.TrimSlashesStart(path) else Keys.TrimSlashesEnd(dir) + "/" + Keys.TrimSlashesStart(path)
  }

  function ParentOf(path: string): string {
    Keys.TrimSlashesEnd(DropName(Keys.TrimSlashesEnd(path)))
  }

  // ---------------------------------------------- the sync layer's part ---

  const REPLACE := Flags(ReadWrite, true, false, true, false)

  /** Local copy overwritten with downloaded content, through a descriptor of its own. */
  function Refresh(fs: FsState, path: string, content: Option<seq<byte>>): FsState {
    if content.None? then fs
    else
      var parent := ParentOf(path);
      var made := if parent == "" then fs else MkdirPCall(fs, parent).state;
      var out := OpenPath(made, path, REPLACE);
      if !out.reply.Opened? then out.state
      else
        var written := WriteCall(out.state, out.reply.fd, content.value);
        if written.reply.Failed? then written.state else CloseCall(written.state, out.reply.fd).state
  }

  function Refs(leases: map<string, nat>, path: string): nat {
    if path in leases then leases[path] else 0
  }

  /** Drop one reference; the last one may meet a conflict and refresh, then the lease goes. */
  function OnClose(v: Server, path: string, content: Option<seq<byte>>): Server {
    if path !in v.leases then v
    else if v.leases[path] > 1 then v.(leases := v.leases[path := v.leases[path] - 1])
    else v.(leases := v.leases - {path}, fs := Refresh(v.fs, path, content))
  }

  /** Before a local open: take the lease, or refresh for a reader. */
  function BeforeOpen(v: Server, path: string, flags: Flags, answer: Answer): Option<Server> {
    if IsWrite(flags) then
      if path in v.leases then Some(v.(leases := v.leases[path := v.leases[path] + 1]))
      else if answer.granted then Some(v.(leases := v.leases[path := 1], fs := Refresh(v.fs, path, answer.content)))
      else None
    else Some(if path in v.leases then v else v.(fs := Refresh(v.fs, path, answer.content)))
  }

  // ------------------------------------------------------ registration ---

  function AddTo(sessions: map<string, set<nat>>, session: Option<string>, fd: nat): map<string, set<nat>> {
    match session
    case None => sessions
    case Some(id) => sessions[id := (if id in sessions then sessions[id] else {}) + {fd}]
  }

  function Register(v: Server, fd: nat, path: Option<string>, flags: Flags, session: Option<string>): Server {
    v.(fdPath := if path.Some? then v.fdPath[fd := path.value] else v.fdPath,
       fdFlags := v.fdFlags[fd := flags],
       sessions := AddTo(v.sessions, session, fd))
  }

  function Unregister(v: Server, fd: nat): Server {
    v.(fdPath := v.fdPath - {fd},
       fdFlags := v.fdFlags - {fd},
       sessions := map id | id in v.sessions :: v.sessions[id] - {fd})
  }

  // ----------------------------------------------------------- requests ---

  /** After the local open: register the descriptor, or note the reference it leaves. */
  function AfterOpen(v: Server, out: Outcome, path: Option<string>, flags: Flags, session: Option<string>): Served {
    var w := v.(fs := out.state);
    if out.reply.Opened? then Served(Register(w, out.reply.fd, path, flags, session), FdOf(out.reply.fd))
    else if path.Some? && IsWrite(flags) then
      Served(w.(failedOpens := w.failedOpens + multiset{path.value}), Local(out.reply))
    else Served(w, Local(out.reply))
  }

  function ServeOpen(v: Server, path: string, flags: Flags, session: Option<string>, answer: Answer): Served {
    var before := BeforeOpen(v, path, flags, answer);
    if before.None? then Served(v.(fs := Refresh(v.fs, path, answer.content)), SyncRefused)
    else AfterOpen(before.value, OpenPath(before.value.fs, path, flags), Some(path), flags, session)
  }

  function ServeOpenAt(v: Server, dirFd: nat, path: string, flags: Flags, session: Option<string>, answer: Answer): Served {
    if dirFd !in v.fdPath then AfterOpen(v, OpenAtDir(v.fs, dirFd, path, flags), None, flags, session)
    else
      var full := JoinDir(v.fdPath[dirFd], path);
      var before := BeforeOpen(v, full, flags, answer);
      if before.None? then Served(v.(fs := Refresh(v.fs, full, answer.content)), SyncRefused)
      else AfterOpen(before.value, OpenAtDir(before.value.fs, dirFd, path, flags), Some(full), flags, session)
  }

  function CloseFd(v: Server, fd: nat, content: Option<seq<byte>>): Server {
    var w := Unregister(v, fd).(fs := CloseCall(v.fs, fd).state);
    if fd in v.fdPath && fd in v.fdFlags && IsWrite(v.fdFlags[fd]) then OnClose(w, v.fdPath[fd], content) else w
  }

  function CloseAll(v: Server, order: seq<nat>, contents: map<nat, seq<byte>>): Server {
    if order == [] then v
    else CloseFd(CloseAll(v, order[..|order| - 1], contents), order[|order| - 1], Lookup(contents, order[|order| - 1]))
  }

  function Lookup(contents: map<nat, seq<byte>>, fd: nat): Option<seq<byte>> {
    if fd in contents then Some(contents[fd]) else None
  }

  function EndSession(v: Server, session: string, order: seq<nat>, contents: map<nat, seq<byte>>): Server {
    CloseAll(v.(sessions := v.sessions - {session}), order, contents)
  }

  datatype Event =
    | OpenRequest(path: string, flags: Flags, session: Option<string>, answer: Answer)
    | OpenAtRequest(dirFd: nat, path: string, flags: Flags, session: Option<string>, answer: Answer)
    | CloseRequest(fd: nat, content: Option<seq<byte>>)
    | OtherRequest(call: Call)
    | Disconnect(id: string, order: seq<nat>, contents: map<nat, seq<byte>>)

  function Serve(v: Server, e: Event): Server {
    match e
    case OpenRequest(path, flags, session, answer) => ServeOpen(v, path, flags, session, answer).server
    case OpenAtRequest(dirFd, path, flags, session, answer) => ServeOpenAt(v, dirFd, path, flags, session, answer).server
    case CloseRequest(fd, content) => CloseFd(v, fd, content)
    case OtherRequest(call) =>
      if call.Open? || call.OpenAt? || call.Close? then v else v.(fs := Step(v.fs, call).state)
    case Disconnect(session, order, contents) => EndSession(v, session, order, contents)
  }

  function ServeAll(v: Server, events: seq<Event>): Server {
    if events == [] then v else Serve(ServeAll(v, events[..|events| - 1]), events[|events| - 1])
  }

  function Start(): Server { Server(FileSystems.Fresh(), map[], map[], map[], map[], multiset{}) }

  // ---------------------------------------------------------- invariant ---

  /** The registered write descriptors of `path`. */
  function WriteFds(fdPath: map<nat, string>, fdFlags: map<nat, Flags>, path: string): set<nat> {
    set fd | fd in fdPath && fd in fdFlags && fdPath[fd] == path && IsWrite(fdFlags[fd])
  }

  /** The write opens of `path` that hold a reference. */
  function Holders(fdPath: map<nat, string>, fdFlags: map<nat, Flags>, failed: multiset<string>, path: string): nat {
    |WriteFds(fdPath, fdFlags, path)| + failed[path]
  }

  /** The lease has count `n`, and exists exactly when `n` is positive. */
  predicate Holds(leases: map<string, nat>, path: string, n: int) {
    Refs(leases, path) == n && (path in leases <==> n > 0)
  }

  ghost predicate Counted(leases: map<string, nat>, fdPath: map<nat, string>, fdFlags: map<nat, Flags>, failed: multiset<string>) {
    forall p :: Holds(leases, p, Holders(fdPath, fdFlags, failed, p))
  }

  /** What is registered is open, and sessions own registered descriptors. */
  ghost predicate Tables(fds: map<nat, Handle>, fdPath: map<nat, string>, fdFlags: map<nat, Flags>, sessions: map<string, set<nat>>) {
    && fdPath.Keys <= fdFlags.Keys <= fds.Keys
    && (forall id :: id in sessions ==> sessions[id] <= fdFlags.Keys)
  }

  ghost predicate ServerInv(v: Server) {
    && Inv(v.fs)
    && Counted(v.leases, v.fdPath, v.fdFlags, v.failedOpens)
    && Tables(v.fs.fds, v.fdPath, v.fdFlags, v.sessions)
  }

  // ------------------------------------------- descriptors of the Fs ---

  /** An open adds one descriptor with a new number, or none. */
  ghost predicate AddsAtMostOne(before: FsState, out: Outcome) {
    before.nextFd <= out.state.nextFd &&
    if out.reply.Opened? then
      out.reply.fd == before.nextFd && out.reply.fd !in before.fds && out.state.fds.Keys == before.fds.Keys + {out.reply.fd}
    else out.reply.Failed? && out.state.fds == before.fds
  }

  lemma OpenFromAdds(s: FsState, start: nat, comps: seq<string>, flags: Flags)
    requires Inv(s) && comps != []
    ensures AddsAtMostOne(s, OpenFrom(s, start, comps, flags))
  {
    hide Tree;
    hide Resolve;
    hide Relink;
  }

  lemma OpenAdds(s: FsState, path: string, flags: Flags)
    requires Inv(s)
    ensures AddsAtMostOne(s, OpenPath(s, path, flags)) && Inv(OpenPath(s, path, flags).state)
  {
    OpenKeeps(s, path, flags);
    hide Components;
    hide OpenFrom;
    hide Tree;
    if Components(path) != [] {
      OpenFromAdds(s, s.root, Components(path), flags);
    }
  }

  lemma OpenAtAdds(s: FsState, dirFd: nat, path: string, flags: Flags)
    requires Inv(s)
    ensures AddsAtMostOne(s, OpenAtDir(s, dirFd, path, flags)) && Inv(OpenAtDir(s, dirFd, path, flags).state)
  {
    hide Components;
    hide OpenFrom;
    hide Tree;
    if Components(path) != [] && dirFd in s.fds {
      OpenFromKeeps(s, s.fds[dirFd].inode, Components(path), flags);
      OpenFromAdds(s, s.fds[dirFd].inode, Components(path), flags);
    }
  }

  lemma {:induction false} MakeAllKeepsFds(s: FsState, at: nat, comps: seq<string>)
    ensures MakeAll(s, at, comps).state.fds == s.fds && MakeAll(s, at, comps).state.nextFd == s.nextFd
    decreases |comps|
  {
    if comps != [] {
      var next := Child(s.inodes, at, comps[0]);
      if next.Ok? {
        if IsDir(s.inodes, next.value) {
          MakeAllKeepsFds(s, next.value, comps[1..]);
        }
      } else if IsDir(s.inodes, at) {
        MakeAllKeepsFds(Create(s, at, comps[0], true), s.nextInode, comps[1..]);
      }
    }
  }

  /** No call but a close takes a descriptor away, and only opens add one. */
  lemma OtherCallsKeepFds(s: FsState, c: Call)
    requires Inv(s) && !c.Open? && !c.OpenAt? && !c.Close?
    ensures Inv(Step(s, c).state) && Step(s, c).state.fds.Keys == s.fds.Keys && Step(s, c).state.nextFd == s.nextFd
  {
    StepKeeps(s, c);
    hide Inv;
    hide Components;
    hide Resolve;
    hide Relink;
    hide MakeAll;
    hide Refusal;
    hide ReadAt;
    hide WriteAt;
    if c.MkdirP? {
      MakeAllKeepsFds(s, s.root, Components(c.path));
    }
  }

  /** Descriptors handed out so far are open in both, or in neither. */
  ghost predicate SameOpen(before: FsState, after: FsState) {
    && before.nextFd <= after.nextFd
    && (forall fd :: fd in before.fds ==> fd in after.fds)
    && (forall fd :: fd in after.fds && fd < before.nextFd ==> fd in before.fds)
  }

  /** A refresh may leave a descriptor of its own behind, and touches no other. */
  lemma RefreshKeeps(fs: FsState, path: string, content: Option<seq<byte>>)
    requires Inv(fs)
    ensures Inv(Refresh(fs, path, content)) && SameOpen(fs, Refresh(fs, path, content))
  {
    hide Inv;
    hide MkdirPCall;
    hide OpenPath;
    hide WriteCall;
    if content.Some? {
      var parent := ParentOf(path);
      OtherCallsKeepFds(fs, MkdirP(parent));
      var made := if parent == "" then fs else MkdirPCall(fs, parent).state;
      OpenAdds(made, path, REPLACE);
      var out := OpenPath(made, path, REPLACE);
      if out.reply.Opened? {
        var fd := out.reply.fd;
        OtherCallsKeepFds(out.state, Call.Write(fd, content.value));
        StepKeeps(WriteCall(out.state, fd, content.value).state, Close(fd));
      }
    }
  }

  // ---------------------------------------------------------- counting ---

  lemma RegisterCounts(fdPath: map<nat, string>, fdFlags: map<nat, Flags>, fd: nat, path: string, flags: Flags, q: string)
    requires fd !in fdFlags && fdPath.Keys <= fdFlags.Keys
    ensures |WriteFds(fdPath[fd := path], fdFlags[fd := flags], q)|
            == |WriteFds(fdPath, fdFlags, q)| + if q == path && IsWrite(flags) then 1 else 0
  {
    var before, after := WriteFds(fdPath, fdFlags, q), WriteFds(fdPath[fd := path], fdFlags[fd := flags], q);
    if q == path && IsWrite(flags) {
      assert after == before + {fd};
    } else {
      assert after == before;
    }
  }

  lemma PathlessCounts(fdPath: map<nat, string>, fdFlags: map<nat, Flags>, fd: nat, flags: Flags, q: string)
    requires fd !in fdFlags && fdPath.Keys <= fdFlags.Keys
    ensures WriteFds(fdPath, fdFlags[fd := flags], q) == WriteFds(fdPath, fdFlags, q)
  {
  }

  lemma UnregisterCounts(fdPath: map<nat, string>, fdFlags: map<nat, Flags>, fd: nat, q: string)
    ensures |WriteFds(fdPath - {fd}, fdFlags - {fd}, q)|
            == |WriteFds(fdPath, fdFlags, q)| - if fd in WriteFds(fdPath, fdFlags, q) then 1 else 0
  {
    assert WriteFds(fdPath - {fd}, fdFlags - {fd}, q) == WriteFds(fdPath, fdFlags, q) - {fd};
  }

  function One(b: bool): nat { if b then 1 else 0 }

  // ------------------------------------------------------ every request ---

  /** The references right after `BeforeOpen`: one more than counted, for a write open. */
  ghost predicate OneAhead(leases: map<string, nat>, fdPath: map<nat, string>, fdFlags: map<nat, Flags>, failed: multiset<string>, path: string, ahead: bool) {
    forall p :: Holds(leases, p, Holders(fdPath, fdFlags, failed, p) + One(ahead && p == path))
  }

  lemma TakeReference(v: Server, path: string)
    requires Counted(v.leases, v.fdPath, v.fdFlags, v.failedOpens)
    ensures OneAhead(v.leases[path := Refs(v.leases, path) + 1], v.fdPath, v.fdFlags, v.failedOpens, path, true)
  {
    hide Holders;
    assert Holds(v.leases, path, Holders(v.fdPath, v.fdFlags, v.failedOpens, path));
  }

  lemma BeforeOpenCounts(v: Server, path: string, flags: Flags, answer: Answer)
    requires Counted(v.leases, v.fdPath, v.fdFlags, v.failedOpens) && BeforeOpen(v, path, flags, answer).Some?
    ensures OneAhead(BeforeOpen(v, path, flags, answer).value.leases, v.fdPath, v.fdFlags, v.failedOpens, path, IsWrite(flags))
  {
    hide Refresh;
    hide Holders;
    if IsWrite(flags) {
      TakeReference(v, path);
      hide Counted;
      hide OneAhead;
    }
  }

  lemma BeforeOpenKeeps(v: Server, path: string, flags: Flags, answer: Answer)
    requires ServerInv(v) && BeforeOpen(v, path, flags, answer).Some?
    ensures var w := BeforeOpen(v, path, flags, answer).value;
            && Inv(w.fs) && Tables(w.fs.fds, v.fdPath, v.fdFlags, v.sessions)
            && OneAhead(w.leases, v.fdPath, v.fdFlags, v.failedOpens, path, IsWrite(flags))
            && w == v.(leases := w.leases, fs := w.fs)
  {
    RefreshKeeps(v.fs, path, answer.content);
    BeforeOpenCounts(v, path, flags, answer);
    hide Inv;
    hide Refresh;
    hide Counted;
    hide OneAhead;
  }

  lemma RegisterTables(v: Server, fd: nat, path: Option<string>, flags: Flags, session: Option<string>, was: map<nat, Handle>)
    requires fd !in was && v.fs.fds.Keys == was.Keys + {fd} && Tables(was, v.fdPath, v.fdFlags, v.sessions)
    ensures var w := Register(v, fd, path, flags, session); Tables(w.fs.fds, w.fdPath, w.fdFlags, w.sessions)
  {
  }

  lemma RegisterHolders(v: Server, fd: nat, path: Option<string>, flags: Flags, session: Option<string>, p: string)
    requires fd !in v.fdFlags && v.fdPath.Keys <= v.fdFlags.Keys
    ensures var w := Register(v, fd, path, flags, session);
            Holders(w.fdPath, w.fdFlags, w.failedOpens, p)
            == Holders(v.fdPath, v.fdFlags, v.failedOpens, p) + One(path == Some(p) && IsWrite(flags))
  {
    if path.Some? {
      RegisterCounts(v.fdPath, v.fdFlags, fd, path.value, flags, p);
    } else {
      PathlessCounts(v.fdPath, v.fdFlags, fd, flags, p);
    }
    hide WriteFds;
  }

  lemma RegisterKeeps(v: Server, fd: nat, path: Option<string>, flags: Flags, session: Option<string>, was: map<nat, Handle>)
    requires Inv(v.fs) && fd !in was && v.fs.fds.Keys == was.Keys + {fd} && Tables(was, v.fdPath, v.fdFlags, v.sessions)
    requires path.Some? ==> OneAhead(v.leases, v.fdPath, v.fdFlags, v.failedOpens, path.value, IsWrite(flags))
    requires path.None? ==> Counted(v.leases, v.fdPath, v.fdFlags, v.failedOpens)
    ensures ServerInv(Register(v, fd, path, flags, session))
  {
    var w := Register(v, fd, path, flags, session);
    RegisterTables(v, fd, path, flags, session, was);
    hide Inv;
    hide Holders;
    hide Holds;
    forall p ensures Holds(w.leases, p, Holders(w.fdPath, w.fdFlags, w.failedOpens, p)) {
      RegisterHolders(v, fd, path, flags, session, p);
    }
    hide Tables;
  }

  lemma FailedHolders(v: Server, path: string, p: string)
    ensures Holders(v.fdPath, v.fdFlags, v.failedOpens + multiset{path}, p)
            == Holders(v.fdPath, v.fdFlags, v.failedOpens, p) + One(p == path)
  {
    hide WriteFds;
  }

  lemma AfterOpenKeeps(v: Server, out: Outcome, path: Option<string>, flags: Flags, session: Option<string>)
    requires Inv(out.state) && AddsAtMostOne(v.fs, out) && Tables(v.fs.fds, v.fdPath, v.fdFlags, v.sessions)
    requires path.Some? ==> OneAhead(v.leases, v.fdPath, v.fdFlags, v.failedOpens, path.value, IsWrite(flags))
    requires path.None? ==> Counted(v.leases, v.fdPath, v.fdFlags, v.failedOpens)
    ensures ServerInv(AfterOpen(v, out, path, flags, session).server)
  {
    hide Inv;
    hide Holders;
    hide Holds;
    var w := AfterOpen(v, out, path, flags, session).server;
    if out.reply.Opened? {
      RegisterKeeps(v.(fs := out.state), out.reply.fd, path, flags, session, v.fs.fds);
    } else {
      forall p ensures Holds(w.leases, p, Holders(w.fdPath, w.fdFlags, w.failedOpens, p)) {
        if path.Some? {
          FailedHolders(v, path.value, p);
        }
      }
    }
    hide Register;
    hide Tables;
  }

  lemma CloseHolders(v: Server, fd: nat, p: string)
    ensures var w := Unregister(v, fd);
            Holders(w.fdPath, w.fdFlags, w.failedOpens, p)
            == Holders(v.fdPath, v.fdFlags, v.failedOpens, p) - One(fd in WriteFds(v.fdPath, v.fdFlags, p))
  {
    UnregisterCounts(v.fdPath, v.fdFlags, fd, p);
    hide WriteFds;
  }

  lemma CloseCounts(v: Server, fd: nat, content: Option<seq<byte>>)
    requires Counted(v.leases, v.fdPath, v.fdFlags, v.failedOpens)
    ensures var w := CloseFd(v, fd, content); Counted(w.leases, w.fdPath, w.fdFlags, w.failedOpens)
  {
    var w := CloseFd(v, fd, content);
    hide Refresh;
    hide Holders;
    forall p ensures Holds(w.leases, p, Holders(w.fdPath, w.fdFlags, w.failedOpens, p)) {
      CloseHolders(v, fd, p);
      assert Holds(v.leases, p, Holders(v.fdPath, v.fdFlags, v.failedOpens, p));
    }
  }

  lemma TablesGrow(v: Server, fs: FsState)
    requires Tables(v.fs.fds, v.fdPath, v.fdFlags, v.sessions) && SameOpen(v.fs, fs)
    ensures Tables(fs.fds, v.fdPath, v.fdFlags, v.sessions)
  {
  }

  lemma UnregisterTables(v: Server, fd: nat)
    requires Tables(v.fs.fds, v.fdPath, v.fdFlags, v.sessions)
    ensures var w := Unregister(v, fd); Tables(CloseCall(v.fs, fd).state.fds, w.fdPath, w.fdFlags, w.sessions)
  {
  }

  lemma CloseCallKeeps(fs: FsState, fd: nat)
    requires Inv(fs)
    ensures Inv(CloseCall(fs, fd).state)
  {
    hide Tree;
  }

  /** Releasing a reference changes the lease, and at most refreshes the local file. */
  lemma OnCloseChanges(w: Server, path: string, content: Option<seq<byte>>)
    requires Inv(w.fs) && Tables(w.fs.fds, w.fdPath, w.fdFlags, w.sessions)
    ensures var u := OnClose(w, path, content);
            && u == w.(leases := u.leases, fs := u.fs)
            && Inv(u.fs) && SameOpen(w.fs, u.fs) && Tables(u.fs.fds, u.fdPath, u.fdFlags, u.sessions)
  {
    hide Inv;
    hide Refresh;
    hide Tables;
    SameOpenItself(w.fs);
    hide SameOpen;
    RefreshKeeps(w.fs, path, content);
    TablesGrow(w, Refresh(w.fs, path, content));
  }

  lemma CloseTables(v: Server, fd: nat, content: Option<seq<byte>>)
    requires Inv(v.fs) && Tables(v.fs.fds, v.fdPath, v.fdFlags, v.sessions)
    ensures var w := CloseFd(v, fd, content);
            && Inv(w.fs) && Tables(w.fs.fds, w.fdPath, w.fdFlags, w.sessions)
            && w.fdFlags == v.fdFlags - {fd} && SameOpen(CloseCall(v.fs, fd).state, w.fs)
  {
    hide Inv;
    hide Tables;
    hide SameOpen;
    hide OnClose;
    hide CloseCall;
    var fs := CloseCall(v.fs, fd).state;
    var w := Unregister(v, fd).(fs := fs);
    CloseCallKeeps(v.fs, fd);
    UnregisterTables(v, fd);
    SameOpenItself(fs);
    if fd in v.fdPath {
      OnCloseChanges(w, v.fdPath[fd], content);
    }
  }

  lemma SameOpenItself(fs: FsState)
    ensures SameOpen(fs, fs)
  {
  }

  lemma CloseKeeps(v: Server, fd: nat, content: Option<seq<byte>>)
    requires ServerInv(v)
    ensures ServerInv(CloseFd(v, fd, content)) && CloseFd(v, fd, content).fdFlags == v.fdFlags - {fd}
    ensures SameOpen(CloseCall(v.fs, fd).state, CloseFd(v, fd, content).fs)
  {
    CloseCounts(v, fd, content);
    CloseTables(v, fd, content);
    hide Inv;
    hide Counted;
    hide Tables;
    hide CloseFd;
    hide SameOpen;
    hide CloseCall;
  }

  /** Every descriptor in `order` is forgotten and closed, and no other handed out so far. */
  lemma {:induction false} CloseAllKeeps(v: Server, order: seq<nat>, contents: map<nat, seq<byte>>)
    requires ServerInv(v)
    ensures ServerInv(CloseAll(v, order, contents)) && v.fs.nextFd <= CloseAll(v, order, contents).fs.nextFd
    ensures forall fd :: fd in CloseAll(v, order, contents).fdFlags <==> fd in v.fdFlags && fd !in order
    ensures forall fd :: fd < v.fs.nextFd ==> (fd in CloseAll(v, order, contents).fs.fds <==> fd in v.fs.fds && fd !in order)
  {
    hide ServerInv;
    hide CloseFd;
    if order != [] {
      var front, last := order[..|order| - 1], order[|order| - 1];
      CloseAllKeeps(v, front, contents);
      CloseKeeps(CloseAll(v, front, contents), last, Lookup(contents, last));
      assert order == front + [last];
    }
  }

  /** Every request and every disconnect keeps the references exact. */
  lemma ServeKeeps(v: Server, e: Event)
    requires ServerInv(v)
    ensures ServerInv(Serve(v, e))
  {
    match e
    case OpenRequest(path, flags, session, answer) => OpenRequestKeeps(v, path, flags, session, answer);
    case OpenAtRequest(dirFd, path, flags, session, answer) => OpenAtRequestKeeps(v, dirFd, path, flags, session, answer);
    case CloseRequest(fd, content) => CloseKeeps(v, fd, content);
    case OtherRequest(call) => {
      if !call.Open? && !call.OpenAt? && !call.Close? {
        OtherCallsKeepFds(v.fs, call);
      }
      hide Inv;
      hide Counted;
      hide Step;
    }
    case Disconnect(session, order, contents) => {
      CloseAllKeeps(v.(sessions := v.sessions - {session}), order, contents);
      hide Inv;
      hide Counted;
    }
  }

  lemma OpenRequestKeeps(v: Server, path: string, flags: Flags, session: Option<string>, answer: Answer)
    requires ServerInv(v)
    ensures ServerInv(ServeOpen(v, path, flags, session, answer).server)
  {
    RefreshKeeps(v.fs, path, answer.content);
    var before := BeforeOpen(v, path, flags, answer);
    if before.Some? {
      BeforeOpenKeeps(v, path, flags, answer);
      OpenAdds(before.value.fs, path, flags);
      hide ServerInv;
      hide Inv;
      AfterOpenKeeps(before.value, OpenPath(before.value.fs, path, flags), Some(path), flags, session);
    } else {
      hide Inv;
      hide Counted;
    }
  }

  lemma OpenAtRequestKeeps(v: Server, dirFd: nat, path: string, flags: Flags, session: Option<string>, answer: Answer)
    requires ServerInv(v)
    ensures ServerInv(ServeOpenAt(v, dirFd, path, flags, session, answer).server)
  {
    hide JoinDir;
    if dirFd !in v.fdPath {
      OpenAtAdds(v.fs, dirFd, path, flags);
      AfterOpenKeeps(v, OpenAtDir(v.fs, dirFd, path, flags), None, flags, session);
    } else {
      var full := JoinDir(v.fdPath[dirFd], path);
      RefreshKeeps(v.fs, full, answer.content);
      var before := BeforeOpen(v, full, flags, answer);
      if before.Some? {
        BeforeOpenKeeps(v, full, flags, answer);
        OpenAtAdds(before.value.fs, dirFd, path, flags);
        hide ServerInv;
        hide Inv;
        AfterOpenKeeps(before.value, OpenAtDir(before.value.fs, dirFd, path, flags), Some(full), flags, session);
      } else {
        hide Inv;
        hide Counted;
      }
    }
  }

  /** After any history, each lease's count is its registered write descriptors
      plus the write opens that failed locally, and it exists exactly when that
      is positive. */
  lemma {:induction false} LeasesAreCounted(events: seq<Event>, path: string)
    ensures ServerInv(ServeAll(Start(), events))
    ensures var v := ServeAll(Start(), events);
            var n := |WriteFds(v.fdPath, v.fdFlags, path)| + v.failedOpens[path];
            Refs(v.leases, path) == n && (path in v.leases <==> n > 0)
  {
    if events == [] {
      RunKeeps([]);
      assert forall p :: WriteFds(map[], map[], p) == {};
    } else {
      LeasesAreCounted(events[..|events| - 1], path);
      ServeKeeps(ServeAll(Start(), events[..|events| - 1]), events[|events| - 1]);
      var v := ServeAll(Start(), events);
      assert Holds(v.leases, path, Holders(v.fdPath, v.fdFlags, v.failedOpens, path));
      hide Inv;
      hide Tables;
      hide Serve;
      hide WriteFds;
    }
  }

  /** A disconnect closes what the session had open, on the server and in the
      filesystem, and nothing of anyone else's. */
  lemma DisconnectClosesSession(v: Server, session: string, order: seq<nat>, contents: map<nat, seq<byte>>, fd: nat)
    requires ServerInv(v) && session in v.sessions && (forall f :: f in order <==> f in v.sessions[session])
    ensures var w := EndSession(v, session, order, contents);
            && (fd in v.sessions[session] ==> fd !in w.fdFlags && fd !in w.fs.fds)
            && (fd in v.fdFlags && fd !in v.sessions[session] ==> fd in w.fdFlags && fd in w.fs.fds)
  {
    CloseAllKeeps(v.(sessions := v.sessions - {session}), order, contents);
    hide Counted;
    hide Tree;
  }
}
