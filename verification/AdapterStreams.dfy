/**
 * The RPC adapter's objects: the registry, output streams that buffer until
 * they are flushed or dropped, and input streams that read ahead. The server
 * is the filesystem of `Fs.dfy`, one call per request.
 */
module AdapterStreams {
  import opened LockRecords
  import opened BlockStorages
  import opened FileSystems
  import opened FileTree
  import opened FsObjects
  import opened RpcAdapters

  class RpcState {
    var descToFd: map<nat, nat>
    var fdToDesc: map<nat, nat>
    var flags: map<nat, Flags>
    var live: map<nat, seq<nat>>
    var pending: set<nat>
    var next: nat

    ghost function View(): Registry
      reads this
    {
      Registry(descToFd, fdToDesc, flags, live, pending, next)
    }

    constructor ()
      ensures View() == NewRegistry()
    {
      descToFd, fdToDesc, flags, live, pending, next := map[0 := 0], map[0 := 0], map[], map[], {}, 1;
    }

    method AllocateDescriptor(fd: nat, openFlags: Flags) returns (desc: nat)
      modifies this
      ensures desc == old(next) && View() == Allocate(old(View()), fd, openFlags)
    {
      desc := next;
      next := next + 1;
      descToFd := descToFd[desc := fd];
      fdToDesc := fdToDesc[fd := desc];
      flags := flags[desc := openFlags];
    }

    method ReleaseDescriptor(desc: nat) returns (fd: Option<nat>)
      modifies this
      ensures Released(View(), fd) == Release(old(View()), desc)
    {
      if desc !in descToFd {
        return None;
      }
      var server := descToFd[desc];
      descToFd := descToFd - {desc};
      fdToDesc := fdToDesc - {server};
      flags := flags - {desc};
      live := live - {desc};
      pending := pending - {desc};
      fd := Some(server);
    }

    method NoteStreamOpened(desc: nat, stream: nat)
      modifies this
      ensures View() == StreamOpened(old(View()), desc, stream)
    {
      if desc !in live {
        live := live[desc := []];
      }
      live := live[desc := live[desc] + [stream]];
    }

    /** `alive` holds the streams whose strong count is not zero. */
    method NoteStreamClosed(desc: nat, alive: set<nat>) returns (fd: Option<nat>)
      modifies this
      ensures Released(View(), fd) == StreamClosed(old(View()), desc, alive)
    {
      if desc in live {
        live := live[desc := Retain(live[desc], alive)];
      }
      if |Retain(Streams(live, desc), alive)| == 0 && desc in pending {
        fd := ReleaseDescriptor(desc);
      } else {
        fd := None;
      }
    }

    method NoteDescriptorDropped(desc: nat, alive: set<nat>) returns (fd: Option<nat>)
      modifies this
      ensures Released(View(), fd) == DescriptorDropped(old(View()), desc, alive)
    {
      if |Retain(Streams(live, desc), alive)| > 0 {
        pending := pending + {desc};
        return None;
      }
      fd := ReleaseDescriptor(desc);
    }
  }

  // ----------------------------------------------------- output streams ---

  datatype Writer = Writer(offset: nat, append: bool, buffer: seq<byte>)

  datatype Flushed = Flushed(server: FsState, writer: Writer, ok: bool)

  /** Send the buffer. It is emptied first, so a failed flush loses it. */
  function Flush(s: FsState, w: Writer, fd: Option<nat>, connected: bool): Flushed {
    var emptied := w.(buffer := []);
    if w.buffer == [] then Flushed(s, w, true)
    else if fd.None? || !connected then Flushed(s, emptied, false)
    else if w.append then
      var out := AppendCall(s, fd.value, w.buffer);
      Flushed(out.state, emptied, out.reply.Wrote?)
    else
      var seek := SeekCall(s, fd.value, w.offset, 0);
      if !seek.reply.At? then Flushed(seek.state, emptied, false)
      else
        var out := WriteCall(seek.state, fd.value, w.buffer);
        Flushed(out.state, if out.reply.Wrote? then emptied.(offset := w.offset + |w.buffer|) else emptied, out.reply.Wrote?)
  }

  class FileOutputStream {
    const handle: nat
    const append: bool
    var offset: nat
    var buffer: seq<byte>

    ghost function View(): Writer
      reads this
    {
      Writer(offset, append, buffer)
    }

    constructor (handle: nat, offset: nat, append: bool)
      ensures this.handle == handle && View() == Writer(offset, append, [])
    {
      this.handle, this.offset, this.append, this.buffer := handle, offset, append, [];
    }

    method Write(contents: seq<byte>)
      modifies this
      ensures View() == old(View()).(buffer := old(buffer) + contents)
    {
      buffer := buffer + contents;
    }

    method FlushBuffer(registry: RpcState, server: Fs, connected: bool) returns (ok: bool)
      requires server.Valid()
      modifies this, server
      ensures server.Valid()
      ensures Flushed(server.State(), View(), ok) == Flush(old(server.State()), old(View()), ServerFd(registry.View(), handle), connected)
    {
      hide Inv;
      hide AppendCall;
      hide SeekCall;
      hide WriteCall;
      var data := buffer;
      buffer := [];
      if data == [] {
        return true;
      }
      if handle !in registry.descToFd {
        return false;
      }
      var fd := registry.descToFd[handle];
      if !connected {
        return false;
      }
      if append {
        var r := server.AppendWriteCall(fd, data);
        return r.Wrote?;
      }
      var start := offset;
      var p := server.SeekFd(fd, start, 0);
      if !p.At? {
        return false;
      }
      var r := server.WriteCall(fd, data);
      ok := r.Wrote?;
      if ok {
        offset := start + |data|;
      }
    }
  }

  datatype StreamOp = Push(data: seq<byte>) | Sync

  function Pushed(ops: seq<StreamOp>): seq<byte> {
    if ops == [] then []
    else Pushed(ops[..|ops| - 1]) + if ops[|ops| - 1].Push? then ops[|ops| - 1].data else []
  }

  /** A stream's life: writes and flushes, oldest first. */
  function Live(s: FsState, w: Writer, fd: nat, ops: seq<StreamOp>): Flushed {
    if ops == [] then Flushed(s, w, true)
    else
      var before := Live(s, w, fd, ops[..|ops| - 1]);
      match ops[|ops| - 1]
      case Push(data) => before.(writer := before.writer.(buffer := before.writer.buffer + data))
      case Sync =>
        var f := Flush(before.server, before.writer, Some(fd), true);
        f.(ok := before.ok && f.ok)
  }

  /** Ending with the flush that its drop makes. */
  function LiveAndDrop(s: FsState, w: Writer, fd: nat, ops: seq<StreamOp>): Flushed {
    Live(s, w, fd, ops + [Sync])
  }

  /** The file behind `fd` is open for writing at positions of the caller's choice. */
  predicate WritableFile(s: FsState, fd: nat) {
    Reach(s, fd, ReadOnly).Ok? && !s.fds[fd].flags.append
  }

  /** `after` is `before` with `data` written to the file at `start`, in one go. */
  ghost predicate WroteOnce(before: FsState, after: FsState, fd: nat, start: nat, data: seq<byte>) {
    && WritableFile(before, fd) && WritableFile(after, fd) && after.fds[fd].inode == before.fds[fd].inode
    && Reach(after, fd, ReadOnly).value == WriteAt(Reach(before, fd, ReadOnly).value, start, data)
    && after.inodes.Keys == before.inodes.Keys
    && (forall id :: id in before.inodes && id != before.fds[fd].inode ==> after.inodes[id] == before.inodes[id])
    && (forall f :: f in before.fds && f != fd ==> f in after.fds && after.fds[f] == before.fds[f])
  }

  lemma SeekAndPut(s: FsState, fd: nat, start: nat, data: seq<byte>)
    requires WritableFile(s, fd)
    ensures var seek := SeekCall(s, fd, start, 0);
            && seek.reply.At? && WriteCall(seek.state, fd, data).reply.Wrote?
            && WroteOnce(s, WriteCall(seek.state, fd, data).state, fd, start, data)
  {
    hide WriteAt;
  }

  lemma AppendPuts(s: FsState, fd: nat, data: seq<byte>)
    requires WritableFile(s, fd)
    ensures AppendCall(s, fd, data).reply.Wrote?
            && WroteOnce(s, AppendCall(s, fd, data).state, fd, |Reach(s, fd, ReadOnly).value.bytes|, data)
  {
    hide WriteAt;
  }

  lemma WroteOnceTwice(a: FsState, b: FsState, c: FsState, fd: nat, start: nat, x: seq<byte>, y: seq<byte>)
    requires WroteOnce(a, b, fd, start, x) && WroteOnce(b, c, fd, start + |x|, y)
    ensures WroteOnce(a, c, fd, start, x + y)
  {
    WriteTwice(Reach(a, fd, ReadOnly).value, start, x, y);
    hide WriteAt;
  }

  lemma WroteOnceFile(s: FsState, after: FsState, fd: nat, start: nat, data: seq<byte>)
    requires WroteOnce(s, after, fd, start, data)
    ensures WritableFile(after, fd) && Reach(after, fd, ReadOnly).value == WriteAt(Reach(s, fd, ReadOnly).value, start, data)
  {
  }

  /** Where a stream's data belongs: its offset, or the end of the file. */
  function StartOf(s: FsState, w: Writer, fd: nat): nat
    requires WritableFile(s, fd)
  {
    if w.append then |Reach(s, fd, ReadOnly).value.bytes| else w.offset
  }

  /** One flush moves the buffer to where the stream has got to. */
  lemma FlushWrites(s: FsState, mid: FsState, w: Writer, fd: nat, start: nat, sent: seq<byte>)
    requires WroteOnce(s, mid, fd, start, sent)
    requires if w.append then Reach(s, fd, ReadOnly).Ok? && start == |Reach(s, fd, ReadOnly).value.bytes| else w.offset == start + |sent|
    ensures var f := Flush(mid, w, Some(fd), true);
            && f.ok && f.writer.buffer == [] && f.writer.append == w.append
            && WroteOnce(s, f.server, fd, start, sent + w.buffer)
            && (!w.append ==> f.writer.offset == start + |sent + w.buffer|)
  {
    hide WroteOnce;
    hide WritableFile;
    hide AppendCall;
    hide SeekCall;
    hide WriteCall;
    hide WriteAt;
    hide Reach;
    WroteOnceFile(s, mid, fd, start, sent);
    assert sent + [] == sent;
    if w.append {
      AppendedLength(Reach(s, fd, ReadOnly).value, sent);
      AppendPuts(mid, fd, w.buffer);
      WroteOnceTwice(s, mid, AppendCall(mid, fd, w.buffer).state, fd, start, sent, w.buffer);
    } else {
      SeekAndPut(mid, fd, w.offset, w.buffer);
      WroteOnceTwice(s, mid, WriteCall(SeekCall(mid, fd, w.offset, 0).state, fd, w.buffer).state, fd, start, sent, w.buffer);
    }
  }

  lemma AppendedLength(e: Extent, data: seq<byte>)
    ensures |WriteAt(e, |e.bytes|, data).bytes| == |e.bytes| + |data|
  {
  }

  /** At every moment: what was sent is one write, and what was not is in the buffer. */
  ghost predicate SentSoFar(s: FsState, w: Writer, fd: nat, data: seq<byte>, f: Flushed)
    requires WritableFile(s, fd)
  {
    && f.ok && f.writer.append == w.append && |f.writer.buffer| <= |data|
    && var n := |data| - |f.writer.buffer|;
    && f.writer.buffer == data[n..]
    && WroteOnce(s, f.server, fd, StartOf(s, w, fd), data[..n])
    && (!w.append ==> f.writer.offset == StartOf(s, w, fd) + n)
  }

  lemma PushKeeps(s: FsState, w: Writer, fd: nat, data: seq<byte>, f: Flushed, more: seq<byte>)
    requires WritableFile(s, fd) && SentSoFar(s, w, fd, data, f)
    ensures SentSoFar(s, w, fd, data + more, f.(writer := f.writer.(buffer := f.writer.buffer + more)))
  {
    var n := |data| - |f.writer.buffer|;
    assert (data + more)[..n] == data[..n] && (data + more)[n..] == data[n..] + more;
    hide WroteOnce;
    hide StartOf;
  }

  lemma SyncKeeps(s: FsState, w: Writer, fd: nat, data: seq<byte>, f: Flushed)
    requires WritableFile(s, fd) && SentSoFar(s, w, fd, data, f)
    ensures var g := Flush(f.server, f.writer, Some(fd), true);
            g.ok && g.writer.buffer == [] && SentSoFar(s, w, fd, data, g)
  {
    hide WroteOnce;
    hide Flush;
    hide Reach;
    var n := |data| - |f.writer.buffer|;
    FlushWrites(s, f.server, f.writer, fd, StartOf(s, w, fd), data[..n]);
    assert data[..n] + data[n..] == data && data[..|data|] == data;
  }

  lemma {:induction false} LiveSends(s: FsState, w: Writer, fd: nat, ops: seq<StreamOp>)
    requires WritableFile(s, fd) && w.buffer == []
    ensures SentSoFar(s, w, fd, Pushed(ops), Live(s, w, fd, ops))
  {
    hide WritableFile;
    hide Flush;
    if ops == [] {
      NothingSent(s, w, fd);
    } else {
      hide SentSoFar;
      var front, last := ops[..|ops| - 1], ops[|ops| - 1];
      LiveSends(s, w, fd, front);
      var f := Live(s, w, fd, front);
      match last
      case Push(data) => PushKeeps(s, w, fd, Pushed(front), f, data);
      case Sync => {
        SyncKeeps(s, w, fd, Pushed(front), f);
        assert Pushed(front) + [] == Pushed(front);
        FlushedOk(s, w, fd, Pushed(front), f);
      }
    }
  }

  lemma FlushedOk(s: FsState, w: Writer, fd: nat, data: seq<byte>, f: Flushed)
    requires WritableFile(s, fd) && SentSoFar(s, w, fd, data, f)
    ensures f.ok
  {
  }

  lemma NothingSent(s: FsState, w: Writer, fd: nat)
    requires WritableFile(s, fd) && w.buffer == []
    ensures SentSoFar(s, w, fd, [], Flushed(s, w, true))
  {
  }

  /** However its data arrives and whenever it is flushed, a stream that is
      dropped has written all of it in one piece from where it started. */
  lemma StreamIsOneWrite(s: FsState, w: Writer, fd: nat, ops: seq<StreamOp>)
    requires WritableFile(s, fd) && w.buffer == []
    ensures var f := LiveAndDrop(s, w, fd, ops);
            f.ok && f.writer.buffer == [] && WroteOnce(s, f.server, fd, StartOf(s, w, fd), Pushed(ops))
  {
    hide WroteOnce;
    hide WritableFile;
    hide Flush;
    assert (ops + [Sync])[..|ops|] == ops;
    var f := Live(s, w, fd, ops);
    LiveSends(s, w, fd, ops);
    SyncKeeps(s, w, fd, Pushed(ops), f);
    FlushedOk(s, w, fd, Pushed(ops), f);
    assert Pushed(ops)[..|Pushed(ops)|] == Pushed(ops);
    hide Pushed;
  }
}
