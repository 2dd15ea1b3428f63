/**
 * The server object: descriptor, flag and session maps updated per request.
 * Each method is proved to compute the function of the same step in
 * `RpcServer.dfy`, where the counting of lease references is proved.
 */
module ServerContexts {
  import opened LockRecords
  import opened BlockStorages
  import opened FileSystems
  import opened FsObjects
  import opened RpcServers

  class ServerContext {
    const fs: Fs
    var leases: map<string, nat>
    var fdPath: map<nat, string>
    var fdFlags: map<nat, Flags>
    var sessions: map<string, set<nat>>
    ghost var failedOpens: multiset<string>

    ghost function State(): Server
      reads this, fs
    {
      Server(fs.State(), leases, fdPath, fdFlags, sessions, failedOpens)
    }

    ghost predicate Valid()
      reads this, fs
    {
      ServerInv(State())
    }

    constructor ()
      ensures fresh(fs) && Valid() && State() == Start()
    {
      fs := new Fs();
      leases, fdPath, fdFlags, sessions := map[], map[], map[], map[];
      failedOpens := multiset{};
      new;
      LeasesAreCounted([], "");
    }

    method RegisterFd(fd: nat, path: Option<string>, flags: Flags, session: Option<string>)
      modifies this
      ensures State() == Register(old(State()), fd, path, flags, session)
    {
      if path.Some? {
        fdPath := fdPath[fd := path.value];
      }
      fdFlags := fdFlags[fd := flags];
      if session.Some? {
        var id := session.value;
        if id !in sessions {
          sessions := sessions[id := {}];
        }
        sessions := sessions[id := sessions[id] + {fd}];
      }
    }

    /** Forget `fd` in every map; returns its path when known, and its flags. */
    method UnregisterFd(fd: nat) returns (path: Option<string>, write: bool)
      modifies this
      ensures State() == Unregister(old(State()), fd)
      ensures path == if fd in old(fdPath) then Some(old(fdPath)[fd]) else None
      ensures write == (fd in old(fdFlags) && IsWrite(old(fdFlags)[fd]))
    {
      path := if fd in fdPath then Some(fdPath[fd]) else None;
      fdPath := fdPath - {fd};
      write := fd in fdFlags && IsWrite(fdFlags[fd]);
      fdFlags := fdFlags - {fd};
      ForgetInSessions(fd);
    }

    method ForgetInSessions(fd: nat)
      modifies this`sessions
      ensures sessions == map id | id in old(sessions) :: old(sessions)[id] - {fd}
    {
      var rest := sessions.Keys;
      while rest != {}
        invariant rest <= sessions.Keys == old(sessions).Keys
        invariant forall id :: id in sessions ==> sessions[id] == if id in rest then old(sessions)[id] else old(sessions)[id] - {fd}
        decreases |rest|
      {
        var id :| id in rest;
        sessions := sessions[id := sessions[id] - {fd}];
        rest := rest - {id};
      }
    }

    /** Overwrite the local copy of `path` with downloaded content. */
    method WriteFileContent(path: string, content: Option<seq<byte>>)
      requires fs.Valid()
      modifies fs
      ensures fs.Valid() && fs.State() == Refresh(old(fs.State()), path, content)
    {
      hide Inv;
      hide MkdirPCall;
      hide OpenPath;
      hide FileSystems.WriteCall;
      if content.None? {
        return;
      }
      var parent := ParentOf(path);
      if parent != "" {
        var made := fs.MakeDirs(parent);
      }
      var out := fs.OpenPathWithFlags(path, REPLACE);
      if !out.Opened? {
        return;
      }
      var written := fs.WriteCall(out.fd, content.value);
      if written.Failed? {
        return;
      }
      var closed := fs.CloseFd(out.fd);
    }

    /** Whether the open may go on: for a writer, whether it holds the lease. */
    method BeforeOpenHook(path: string, flags: Flags, answer: Answer) returns (ok: bool)
      requires fs.Valid()
      modifies this, fs
      ensures fs.Valid() && ok == BeforeOpen(old(State()), path, flags, answer).Some?
      ensures ok ==> State() == BeforeOpen(old(State()), path, flags, answer).value
      ensures !ok ==> State() == old(State()).(fs := Refresh(old(fs.State()), path, answer.content))
    {
      hide Refresh;
      hide Inv;
      ok := true;
      if IsWrite(flags) {
        if path in leases {
          leases := leases[path := leases[path] + 1];
          return;
        }
        WriteFileContent(path, answer.content);
        if answer.granted {
          leases := leases[path := 1];
        } else {
          ok := false;
        }
      } else if path !in leases {
        WriteFileContent(path, answer.content);
      }
    }

    method HandleOpen(path: string, flags: Flags, session: Option<string>, answer: Answer) returns (r: Response)
      requires Valid()
      modifies this, fs
      ensures Valid() && Served(State(), r) == ServeOpen(old(State()), path, flags, session, answer)
    {
      hide ServerInv;
      hide Inv;
      OpenRequestKeeps(State(), path, flags, session, answer);
      ServerFsIsSound(State());
      hide OpenPath;
      hide BeforeOpen;
      hide AfterOpen;
      hide Refresh;
      var ok := BeforeOpenHook(path, flags, answer);
      if !ok {
        return SyncRefused;
      }
      var out := fs.OpenPathWithFlags(path, flags);
      r := FinishOpen(out, Some(path), flags, session);
    }

    method HandleOpenAt(dirFd: nat, path: string, flags: Flags, session: Option<string>, answer: Answer) returns (r: Response)
      requires Valid()
      modifies this, fs
      ensures Valid() && Served(State(), r) == ServeOpenAt(old(State()), dirFd, path, flags, session, answer)
    {
      hide ServerInv;
      hide Inv;
      OpenAtRequestKeeps(State(), dirFd, path, flags, session, answer);
      ServerFsIsSound(State());
      hide OpenAtDir;
      hide BeforeOpen;
      hide AfterOpen;
      hide Refresh;
      hide JoinDir;
      var full := if dirFd in fdPath then Some(JoinDir(fdPath[dirFd], path)) else None;
      if full.Some? {
        var ok := BeforeOpenHook(full.value, flags, answer);
        if !ok {
          return SyncRefused;
        }
      }
      var out := fs.OpenAt(dirFd, path, flags);
      r := FinishOpen(out, full, flags, session);
    }

    method FinishOpen(out: Reply, path: Option<string>, flags: Flags, session: Option<string>) returns (r: Response)
      modifies this
      ensures Served(State(), r) == AfterOpen(old(State()), Outcome(old(fs.State()), out), path, flags, session)
    {
      if out.Opened? {
        RegisterFd(out.fd, path, flags, session);
        return FdOf(out.fd);
      }
      if path.Some? && IsWrite(flags) {
        failedOpens := failedOpens + multiset{path.value};
      }
      r := Local(out);
    }

    /** Drop one reference to the lease of `path`. */
    method ReleaseOne(path: string, content: Option<seq<byte>>)
      requires fs.Valid()
      modifies this, fs
      ensures fs.Valid() && State() == OnClose(old(State()), path, content)
    {
      hide Refresh;
      hide Inv;
      if path !in leases {
        return;
      }
      if leases[path] > 1 {
        leases := leases[path := leases[path] - 1];
        return;
      }
      WriteFileContent(path, content);
      leases := leases - {path};
    }

    method CloseDescriptor(fd: nat, content: Option<seq<byte>>)
      requires Valid()
      modifies this, fs
      ensures Valid() && State() == RpcServers.CloseFd(old(State()), fd, content)
    {
      hide ServerInv;
      hide Inv;
      CloseKeeps(State(), fd, content);
      ServerFsIsSound(State());
      hide OnClose;
      var path, write := UnregisterFd(fd);
      var closed := fs.CloseFd(fd);
      if path.Some? && write {
        ReleaseOne(path.value, content);
      }
    }

    /** Close every descriptor a session left open, in some order. */
    method CloseSession(session: string, contents: map<nat, seq<byte>>) returns (ghost order: seq<nat>)
      requires Valid()
      modifies this, fs
      ensures Valid() && State() == EndSession(old(State()), session, order, contents)
      ensures forall fd :: fd in order <==> session in old(sessions) && fd in old(sessions)[session]
    {
      var left := if session in sessions then sessions[session] else {};
      ghost var all := left;
      sessions := sessions - {session};
      ghost var before := State();
      assert Valid();
      hide ServerInv;
      hide RpcServers.CloseFd;
      order := [];
      while left != {}
        invariant Valid() && State() == CloseAll(before, order, contents)
        invariant left <= all && forall fd :: fd in order <==> fd in all && fd !in left
        decreases |left|
      {
        var fd :| fd in left;
        CloseDescriptor(fd, Lookup(contents, fd));
        left := left - {fd};
        assert (order + [fd])[..|order|] == order;
        order := order + [fd];
      }
    }
  }

  lemma ServerFsIsSound(v: Server)
    requires ServerInv(v)
    ensures Inv(v.fs)
  {
  }
}
