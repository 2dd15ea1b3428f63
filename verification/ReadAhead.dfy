/**
 * The RPC adapter's input streams, which fetch more than was asked for when
 * reads are sequential, against unbuffered reads of the same file.
 */
module ReadAhead {
  import opened LockRecords
  import opened BlockStorages
  import opened FileSystems
  import opened FsObjects
  import opened RpcAdapters
  import opened AdapterStreams

  const READ_AHEAD: nat := 256 * 1024

  datatype Reader = Reader(offset: nat, buf: seq<byte>, bufOffset: nat)

  /** `data` is `None` when the stream reports Closed. */
  datatype ReadResult = ReadResult(reader: Reader, data: Option<seq<byte>>)

  /** The request can be answered from the buffer alone. */
  predicate Buffered(r: Reader, len: nat) {
    r.bufOffset <= r.offset && r.offset + len <= r.bufOffset + |r.buf|
  }

  /** How much to fetch: more than asked when continuing where the buffer ends. */
  function FetchLength(r: Reader, len: nat): nat {
    if r.buf != [] && r.offset == r.bufOffset + |r.buf| then Max(len, READ_AHEAD) else len
  }

  /** A read of the stream; `file` is what its server fd reads from, if anything. */
  function StreamRead(file: Option<Extent>, r: Reader, len: nat): ReadResult {
    if Buffered(r, len) then
      var local := r.offset - r.bufOffset;
      ReadResult(r.(offset := r.offset + len), Some(r.buf[local..local + len]))
    else if file.None? then ReadResult(r, None)
    else
      var bytes := ReadAt(file.value, r.offset, FetchLength(r, len));
      if bytes == [] then ReadResult(r, None)
      else
        var n := Min(|bytes|, len);
        ReadResult(Reader(r.offset + n, bytes, r.offset), Some(bytes[..n]))
  }

  class FileInputStream {
    const handle: nat
    var offset: nat
    var buf: seq<byte>
    var bufOffset: nat

    ghost function View(): Reader
      reads this
    {
      Reader(offset, buf, bufOffset)
    }

    constructor (handle: nat, offset: nat)
      ensures this.handle == handle && View() == Reader(offset, [], 0)
    {
      this.handle, this.offset, buf, bufOffset := handle, offset, [], 0;
    }

    method BlockingRead(registry: RpcState, server: Fs, len: nat) returns (data: Option<seq<byte>>)
      requires server.Valid()
      modifies this, server`fds
      ensures server.Valid() && server.inodes == old(server.inodes)
      ensures ReadResult(View(), data) == StreamRead(ReadableFile(old(server.State()), ServerFd(registry.View(), handle)), old(View()), len)
    {
      hide Inv;
      hide ReadAt;
      if bufOffset <= offset && offset + len <= bufOffset + |buf| {
        var local := offset - bufOffset;
        data := Some(buf[local..local + len]);
        offset := offset + len;
        return;
      }
      if handle !in registry.descToFd {
        return None;
      }
      var fd := registry.descToFd[handle];
      var fetch := if buf != [] && offset == bufOffset + |buf| then Max(len, READ_AHEAD) else len;
      var p := server.SeekFd(fd, offset, 0);
      if !p.At? {
        return None;
      }
      var r := server.ReadCall(fd, fetch);
      if !r.Got? || r.data == [] {
        return None;
      }
      var bytes := r.data;
      var n := Min(|bytes|, len);
      data := Some(bytes[..n]);
      bufOffset := offset;
      buf := bytes;
      offset := offset + n;
    }

    method BlockingSkip(len: nat) returns (n: nat)
      modifies this
      ensures n == len && View() == old(View()).(offset := old(offset) + len)
    {
      offset := offset + len;
      n := len;
    }
  }

  /** The file a server fd reads from, when the server would let it. */
  function ReadableFile(s: FsState, fd: Option<nat>): Option<Extent> {
    if fd.Some? && Reach(s, fd.value, WriteOnly).Ok? then Some(Reach(s, fd.value, WriteOnly).value) else None
  }

  // ---------------------------------------------- against direct reads ---

  datatype ReadOp = Read(len: nat) | Skip(len: nat)

  /** Unbuffered: each read asks the server for exactly what it wants, and end
      of file closes the stream. */
  function DirectRead(e: Extent, offset: nat, len: nat): Option<seq<byte>> {
    var data := ReadAt(e, offset, len);
    if data == [] then None else Some(data)
  }

  function Length(data: Option<seq<byte>>): nat { if data.Some? then |data.value| else 0 }

  function DirectOffset(e: Extent, start: nat, ops: seq<ReadOp>): nat {
    if ops == [] then start
    else
      var offset := DirectOffset(e, start, ops[..|ops| - 1]);
      match ops[|ops| - 1]
      case Read(len) => offset + Length(DirectRead(e, offset, len))
      case Skip(len) => offset + len
  }

  function DirectReplies(e: Extent, start: nat, ops: seq<ReadOp>): seq<Option<seq<byte>>> {
    if ops == [] then []
    else
      var front := ops[..|ops| - 1];
      match ops[|ops| - 1]
      case Read(len) => DirectReplies(e, start, front) + [DirectRead(e, DirectOffset(e, start, front), len)]
      case Skip(_) => DirectReplies(e, start, front)
  }

  function StreamAfter(e: Extent, start: nat, ops: seq<ReadOp>): Reader {
    if ops == [] then Reader(start, [], 0)
    else
      var r := StreamAfter(e, start, ops[..|ops| - 1]);
      match ops[|ops| - 1]
      case Read(len) => StreamRead(Some(e), r, len).reader
      case Skip(len) => r.(offset := r.offset + len)
  }

  function StreamReplies(e: Extent, start: nat, ops: seq<ReadOp>): seq<Option<seq<byte>>> {
    if ops == [] then []
    else
      var front := ops[..|ops| - 1];
      match ops[|ops| - 1]
      case Read(len) => StreamReplies(e, start, front) + [StreamRead(Some(e), StreamAfter(e, start, front), len).data]
      case Skip(_) => StreamReplies(e, start, front)
  }

  /** The buffer holds what the file has there. */
  predicate Faithful(e: Extent, r: Reader) {
    r.buf != [] ==> r.bufOffset + |r.buf| <= BlockStorages.Readable(e) && r.buf == e.bytes[r.bufOffset..r.bufOffset + |r.buf|]
  }

  lemma BufferedRead(e: Extent, r: Reader, len: nat)
    requires Faithful(e, r) && len > 0 && Buffered(r, len)
    ensures var local := r.offset - r.bufOffset; ReadAt(e, r.offset, len) == r.buf[local..local + len]
  {
    var local := r.offset - r.bufOffset;
    assert r.buf[local..local + len] == e.bytes[r.offset..r.offset + len];
  }

  lemma FetchedRead(e: Extent, offset: nat, len: nat, fetch: nat)
    requires 0 < len <= fetch
    ensures var bytes := ReadAt(e, offset, fetch);
            && ReadAt(e, offset, len) == bytes[..Min(|bytes|, len)]
            && Faithful(e, Reader(offset + Min(|bytes|, len), bytes, offset))
  {
    var limit := BlockStorages.Readable(e);
    if offset < limit {
      var bytes := ReadAt(e, offset, fetch);
      assert bytes == e.bytes[offset..Min(offset + fetch, limit)];
      assert bytes[..Min(|bytes|, len)] == e.bytes[offset..Min(offset + len, limit)];
    }
  }

  /** One read from a faithful buffer is a direct read, and keeps it faithful. */
  lemma ReadRefines(e: Extent, r: Reader, len: nat)
    requires Faithful(e, r) && len > 0
    ensures var out := StreamRead(Some(e), r, len);
            && out.data == DirectRead(e, r.offset, len)
            && out.reader.offset == r.offset + Length(out.data) && Faithful(e, out.reader)
  {
    hide ReadAt;
    if Buffered(r, len) {
      BufferedRead(e, r, len);
    } else {
      FetchedRead(e, r.offset, len, FetchLength(r, len));
      hide Faithful;
    }
  }

  /** Any mix of skips and non-empty reads of an unchanged file returns what
      direct reads return, end of file included. */
  lemma {:induction false} StreamRefinesDirect(e: Extent, start: nat, ops: seq<ReadOp>)
    requires forall i :: 0 <= i < |ops| && ops[i].Read? ==> ops[i].len > 0
    ensures StreamReplies(e, start, ops) == DirectReplies(e, start, ops)
    ensures StreamAfter(e, start, ops).offset == DirectOffset(e, start, ops) && Faithful(e, StreamAfter(e, start, ops))
  {
    if ops != [] {
      var front, last := ops[..|ops| - 1], ops[|ops| - 1];
      StreamRefinesDirect(e, start, front);
      var r := StreamAfter(e, start, front);
      if last.Read? {
        ReadRefines(e, r, last.len);
      }
      hide ReadAt;
      hide StreamRead;
    }
  }

  /** Closed is reported exactly at or past the last readable byte. */
  lemma ClosedAtEnd(e: Extent, r: Reader, len: nat)
    requires Faithful(e, r) && len > 0
    ensures StreamRead(Some(e), r, len).data.None? <==> BlockStorages.Readable(e) <= r.offset
  {
    ReadRefines(e, r, len);
    hide StreamRead;
  }

  /** An empty read is different: outside the buffer it reports Closed unless
      it triggers a read-ahead that finds something. */
  lemma EmptyReadCloses(e: Extent, r: Reader)
    ensures StreamRead(Some(e), r, 0).data.None?
            <==> !Buffered(r, 0) && (FetchLength(r, 0) == 0 || BlockStorages.Readable(e) <= r.offset)
    ensures StreamRead(Some(Extent([7, 7], 1)), Reader(1, [], 0), 0).data.None?
  {
    assert ReadAt(Extent([7, 7], 1), 1, 0) == [];
  }

  // -------------------------------------------------------- busy retries ---


  /** The delay before retry `i` if the budget allowed it: doubling from 20, at most 500. */
  function Doubling(i: nat): (d: nat)
    ensures 20 <= d <= 500
  {
    if i == 0 then 20 else Min(2 * Doubling(i - 1), 500)
  }

  /** Doubling delays, the last one possibly cut if `cut`. */
  ghost predicate Schedule(delays: seq<nat>, cut: bool) {
    && (forall i :: 0 <= i < |delays| ==> 0 < delays[i] <= Doubling(i))
    && (forall i :: 0 <= i < |delays| - 1 ==> delays[i] == Doubling(i))
    && (delays != [] && !cut ==> delays[|delays| - 1] == Doubling(|delays| - 1))
  }

  lemma ScheduleGrows(delays: seq<nat>, d: nat, cut: bool)
    requires Schedule(delays, false) && 0 < d <= Doubling(|delays|) && (!cut ==> d == Doubling(|delays|))
    ensures Schedule(delays + [d], cut) && Sum(delays + [d]) == Sum(delays) + d
  {
    assert (delays + [d])[..|delays|] == delays;
    hide Doubling;
  }

  /** Delays between retries of a busy open: each the doubling delay, the last
      cut so that together they use the budget exactly. */
  method BusyBackoffSchedule(budget: nat) returns (delays: seq<nat>)
    ensures Sum(delays) == budget
    ensures forall i :: 0 <= i < |delays| ==> 0 < delays[i] <= Doubling(i)
    ensures forall i :: 0 <= i < |delays| - 1 ==> delays[i] == Doubling(i)
  {
    delays := [];
    var spent := 0;
    var step := 20;
    while spent < budget
      invariant spent == Sum(delays) <= budget && step == Doubling(|delays|)
      invariant Schedule(delays, spent == budget)
      decreases budget - spent
    {
      var d := Min(step, budget - spent);
      ScheduleGrows(delays, d, spent + d == budget);
      hide Schedule;
      delays := delays + [d];
      spent := spent + d;
      step := Min(step * 2, 500);
    }
  }
}
