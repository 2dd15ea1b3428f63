/**
 * Reading and writing through descriptors: where a call takes place, what later
 * reads return, and that any number of reads or writes in a row are one.
 */
module FilePositions {
  import opened LockRecords
  import opened BlockStorages
  import opened FileSystems
  import opened FileTree

  /** What a descriptor answers when asked where it stands. */
  function Tell(s: FsState, fd: nat): Reply { Step(s, Seek(fd, 0, 1)).reply }

  /** The size of the file of a descriptor, as its metadata has it. */
  function SizeOf(s: FsState, fd: nat): nat
    requires fd in s.fds && s.fds[fd].inode in s.inodes
  {
    s.inodes[s.fds[fd].inode].meta.size
  }

  /** A descriptor of a file, open for reading (`refused` is WriteOnly) or for
      writing (`refused` is ReadOnly). */
  predicate Usable(s: FsState, fd: nat, refused: Access) {
    && fd in s.fds && s.fds[fd].flags.access != refused
    && s.fds[fd].inode in s.inodes && s.inodes[s.fds[fd].inode].content.File?
  }

  predicate SameFile(s: FsState, fd: nat, other: nat) {
    fd in s.fds && other in s.fds && s.fds[other].inode == s.fds[fd].inode
  }

  // -------------------------------------------------------------- seek ---

  /** The three bases of a seek: the start, where the descriptor stands, and the end
      of the file. The next read or write is there. */
  lemma SeekMoves(s: FsState, fd: nat, delta: int, whence: int)
    requires Inv(s) && fd in s.fds && s.inodes[s.fds[fd].inode].content.File?
    ensures var out := Step(s, Seek(fd, delta, whence));
            && Tell(s, fd).At?
            && var to := delta + if whence == 0 then 0 else if whence == 1 then Tell(s, fd).position else SizeOf(s, fd);
            && (out.reply.At? <==> 0 <= whence <= 2 && 0 <= to)
            && (!out.reply.At? ==> out == Outcome(s, Failed(InvalidArgument)))
            && (out.reply.At? ==>
                  && out.reply == At(to) && Tell(out.state, fd) == At(to) && out.state.inodes == s.inodes
                  && (forall len :: Usable(s, fd, WriteOnly) ==>
                        Step(out.state, Read(fd, len)) == Step(s, ReadAtOffset(fd, to, len)))
                  && (forall data :: Usable(s, fd, ReadOnly) && !s.fds[fd].flags.append ==>
                        Step(out.state, Call.Write(fd, data)) == Step(s, WriteAtOffset(fd, to, data))))
  {
    assert SoundInode(s.inodes[s.fds[fd].inode]);
    hide Tree, Sparse;
    var out := Step(s, Seek(fd, delta, whence));
    if out.reply.At? {
      var to: nat := out.reply.position;
      hide Inv;
      assert out.state == MoveTo(s, fd, to);
      forall len: nat | Usable(s, fd, WriteOnly)
        ensures Step(out.state, Read(fd, len)) == Step(s, ReadAtOffset(fd, to, len))
      {
        ReadWhereMoved(s, fd, to, len);
      }
      forall data: seq<byte> | Usable(s, fd, ReadOnly) && !s.fds[fd].flags.append
        ensures Step(out.state, Call.Write(fd, data)) == Step(s, WriteAtOffset(fd, to, data))
      {
        WriteWhereMoved(s, fd, to, data);
      }
      hide Step;
    }
  }

  lemma ReadWhereMoved(s: FsState, fd: nat, to: nat, len: nat)
    requires Usable(s, fd, WriteOnly)
    ensures Step(MoveTo(s, fd, to), Read(fd, len)) == Step(s, ReadAtOffset(fd, to, len))
  {
    hide ReadAt;
    MovedTwice(s, fd, to, to + |ReadAt(s.inodes[s.fds[fd].inode].content.extent, to, len)|);
  }

  lemma WriteWhereMoved(s: FsState, fd: nat, to: nat, data: seq<byte>)
    requires Usable(s, fd, ReadOnly) && !s.fds[fd].flags.append
    ensures Step(MoveTo(s, fd, to), Call.Write(fd, data)) == Step(s, WriteAtOffset(fd, to, data))
  {
    hide WriteAt;
    var written := WriteAt(s.inodes[s.fds[fd].inode].content.extent, to, data);
    var u := Store(s, s.fds[fd].inode, written);
    MovedTwice(u, fd, to, to + |data|);
    assert MoveTo(u, fd, to) == Store(MoveTo(s, fd, to), s.fds[fd].inode, written);
  }

  lemma MovedTwice(s: FsState, fd: nat, a: nat, b: nat)
    requires fd in s.fds
    ensures MoveTo(MoveTo(s, fd, a), fd, b) == MoveTo(s, fd, b)
  {
    assert s.fds[fd := s.fds[fd].(position := a)][fd := s.fds[fd].(position := b)] == s.fds[fd := s.fds[fd].(position := b)];
  }

  // -------------------------------------------------------------- reads ---

  lemma ReadTwice(e: Extent, offset: nat, m: nat, n: nat)
    ensures var a := ReadAt(e, offset, m); ReadAt(e, offset, m + n) == a + ReadAt(e, offset + |a|, n)
  {
  }

  /** A read takes place where the descriptor stands, and leaves it after what it
      returned; so does a positional read, from its own offset. */
  lemma ReadMoves(s: FsState, fd: nat, offset: nat, len: nat)
    requires Inv(s)
    ensures var out := Step(s, ReadAtOffset(fd, offset, len));
            && (out.reply.Got? <==> Usable(s, fd, WriteOnly))
            && (!out.reply.Got? ==> out.state == s && Step(s, Read(fd, len)) == out)
            && (out.reply.Got? ==> out.state.inodes == s.inodes && Tell(out.state, fd) == At(offset + |out.reply.data|))
            && (Usable(s, fd, WriteOnly) && Tell(s, fd) == At(offset) ==> Step(s, Read(fd, len)) == out)
  {
    hide Tree, Sparse, ReadAt;
  }

  /** A read continues where a positional read ended: together they return what one
      longer read returns. */
  lemma ReadContinuesAfter(s: FsState, fd: nat, offset: nat, m: nat, n: nat)
    requires Inv(s) && Usable(s, fd, WriteOnly)
    ensures var first, whole := Step(s, ReadAtOffset(fd, offset, m)), Step(s, ReadAtOffset(fd, offset, m + n));
            var second := Step(first.state, Read(fd, n));
            && first.reply.Got? && second.reply.Got? && whole.reply == Got(first.reply.data + second.reply.data)
            && second.state == whole.state
  {
    var e := s.inodes[s.fds[fd].inode].content.extent;
    ReadTwice(e, offset, m, n);
    hide ReadAt, Inv;
    var a := ReadAt(e, offset, m);
    MovedTwice(s, fd, offset + |a|, offset + |a| + |ReadAt(e, offset + |a|, n)|);
  }

  /** Two reads in a row answer what one read answers, and leave the descriptor
      where it would. */
  lemma ReadsContinue(s: FsState, fd: nat, m: nat, n: nat)
    requires Inv(s) && Usable(s, fd, WriteOnly)
    ensures var first, whole := Step(s, Read(fd, m)), Step(s, Read(fd, m + n));
            var second := Step(first.state, Read(fd, n));
            && first.reply.Got? && second.reply.Got? && whole.reply == Got(first.reply.data + second.reply.data)
            && second.state == whole.state
  {
    ReadContinuesAfter(s, fd, s.fds[fd].position, m, n);
    hide ReadAt, Inv;
  }

  /** What a reader has collected after reads of these lengths. */
  function ReadAll(s: FsState, fd: nat, lens: seq<nat>): (FsState, seq<byte>) {
    if lens == [] then (s, [])
    else
      var (t, data) := ReadAll(s, fd, lens[..|lens| - 1]);
      var out := Step(t, Read(fd, lens[|lens| - 1]));
      (out.state, if out.reply.Got? then data + out.reply.data else data)
  }

  /** Any number of reads, of any lengths, collect what one read of their sum
      returns, and leave the descriptor where it would. */
  lemma {:induction false} ReadsAreOneRead(s: FsState, fd: nat, lens: seq<nat>)
    requires Inv(s) && Usable(s, fd, WriteOnly)
    ensures var whole, (t, data) := Step(s, Read(fd, Sum(lens))), ReadAll(s, fd, lens);
            whole.reply == Got(data) && whole.state == t
  {
    hide Inv, Step, Usable;
    if lens == [] {
      ReadNothing(s, fd);
    } else {
      var front, last := lens[..|lens| - 1], lens[|lens| - 1];
      ReadsAreOneRead(s, fd, front);
      ReadsContinue(s, fd, Sum(front), last);
    }
  }

  lemma ReadNothing(s: FsState, fd: nat)
    requires Usable(s, fd, WriteOnly)
    ensures Step(s, Read(fd, 0)) == Outcome(s, Got([]))
  {
    assert s.fds[fd := s.fds[fd]] == s.fds;
  }

  // ------------------------------------------------------------- writes ---

  /** Where a write takes place: where the descriptor stands, or at the end of the
      file if it was opened with O_APPEND. */
  function WritesTo(s: FsState, fd: nat): nat
    requires Usable(s, fd, ReadOnly)
  {
    if s.fds[fd].flags.append then SizeOf(s, fd) else s.fds[fd].position
  }

  /** A write, an append and a positional write differ in where they take place and
      in nothing else, and leave the descriptor after what they wrote. */
  lemma WriteMoves(s: FsState, fd: nat, data: seq<byte>, offset: nat)
    requires Inv(s)
    ensures var out := Step(s, WriteAtOffset(fd, offset, data));
            && (out.reply == Wrote(|data|) <==> Usable(s, fd, ReadOnly))
            && (!Usable(s, fd, ReadOnly) ==>
                  out.reply.Failed? && out.state == s && Step(s, Call.Write(fd, data)) == out && Step(s, AppendWrite(fd, data)) == out)
            && (Usable(s, fd, ReadOnly) ==>
                  && Tell(out.state, fd) == At(offset + |data|)
                  && (offset == WritesTo(s, fd) ==> Step(s, Call.Write(fd, data)) == out)
                  && (offset == SizeOf(s, fd) ==> Step(s, AppendWrite(fd, data)) == out))
    ensures Usable(s, fd, ReadOnly) && !s.fds[fd].flags.append ==> Tell(s, fd) == At(WritesTo(s, fd))
  {
    assert Usable(s, fd, ReadOnly) ==> SoundInode(s.inodes[s.fds[fd].inode]);
    hide Tree, Sparse, WriteAt;
  }

  /** The same files and descriptors, times aside. */
  ghost predicate SameButTimes(a: FsState, b: FsState) {
    && a.fds == b.fds && a.root == b.root && a.nextInode == b.nextInode && a.nextFd == b.nextFd
    && a.inodes.Keys == b.inodes.Keys
    && forall id :: id in a.inodes ==>
         a.inodes[id].content == b.inodes[id].content && a.inodes[id].meta == b.inodes[id].meta.(modified := a.inodes[id].meta.modified)
  }

  /** Storing and moving twice is, times aside, storing and moving once. */
  lemma StoreTwice(s: FsState, fd: nat, e1: Extent, x: nat, e2: Extent, y: nat)
    requires fd in s.fds && s.fds[fd].inode in s.inodes
    ensures var id := s.fds[fd].inode;
            SameButTimes(MoveTo(Store(MoveTo(Store(s, id, e1), fd, x), id, e2), fd, y), MoveTo(Store(s, id, e2), fd, y))
  {
    assert s.fds[fd := s.fds[fd].(position := x)][fd := s.fds[fd].(position := y)] == s.fds[fd := s.fds[fd].(position := y)];
  }

  lemma PutTwice(s: FsState, fd: nat, offset: nat, a: seq<byte>, b: seq<byte>)
    requires Usable(s, fd, ReadOnly)
    ensures var t := Put(s, fd, offset, a).state;
            && Usable(t, fd, ReadOnly) && t.fds[fd] == s.fds[fd].(position := offset + |a|)
            && |Reach(t, fd, ReadOnly).value.bytes| == |WriteAt(Reach(s, fd, ReadOnly).value, offset, a).bytes|
            && SameButTimes(Put(t, fd, offset + |a|, b).state, Put(s, fd, offset, a + b).state)
  {
    var e := Reach(s, fd, ReadOnly).value;
    var e1 := WriteAt(e, offset, a);
    WriteTwice(e, offset, a, b);
    hide WriteAt;
    StoreTwice(s, fd, e1, offset + |a|, WriteAt(e1, offset + |a|, b), offset + |a| + |b|);
    assert |a + b| == |a| + |b|;
    hide SameButTimes;
  }

  /** A write follows a positional write: together they do what one longer write does. */
  lemma WriteContinuesAfter(s: FsState, fd: nat, offset: nat, a: seq<byte>, b: seq<byte>)
    requires Inv(s) && Usable(s, fd, ReadOnly) && (s.fds[fd].flags.append ==> offset == SizeOf(s, fd))
    ensures var first, whole := Step(s, WriteAtOffset(fd, offset, a)), Step(s, WriteAtOffset(fd, offset, a + b));
            var second := Step(first.state, Call.Write(fd, b));
            && first.reply == Wrote(|a|) && second.reply == Wrote(|b|) && whole.reply == Wrote(|a| + |b|)
            && SameButTimes(second.state, whole.state)
  {
    var e := s.inodes[s.fds[fd].inode].content.extent;
    assert SoundInode(s.inodes[s.fds[fd].inode]);
    PutTwice(s, fd, offset, a, b);
    assert |e.bytes| == offset ==> |WriteAt(e, offset, a).bytes| == offset + |a|;
    hide WriteAt, Inv, Sparse, SameButTimes, Store, MoveTo;
  }

  /** Two writes in a row, in append mode or not, do what one write of both does. */
  lemma WritesFollow(s: FsState, fd: nat, a: seq<byte>, b: seq<byte>)
    requires Inv(s) && Usable(s, fd, ReadOnly)
    ensures var first, whole := Step(s, Call.Write(fd, a)), Step(s, Call.Write(fd, a + b));
            var second := Step(first.state, Call.Write(fd, b));
            && first.reply == Wrote(|a|) && second.reply == Wrote(|b|) && whole.reply == Wrote(|a| + |b|)
            && SameButTimes(second.state, whole.state)
  {
    WriteContinuesAfter(s, fd, WritesTo(s, fd), a, b);
    WriteMoves(s, fd, a, WritesTo(s, fd));
    WriteMoves(s, fd, a + b, WritesTo(s, fd));
    hide Step, Inv;
  }

  /** A write does not look at times. */
  lemma WriteIgnoresTimes(a: FsState, b: FsState, fd: nat, data: seq<byte>)
    requires SameButTimes(a, b) && Usable(a, fd, ReadOnly)
    ensures Step(a, Call.Write(fd, data)).reply == Step(b, Call.Write(fd, data)).reply
    ensures SameButTimes(Step(a, Call.Write(fd, data)).state, Step(b, Call.Write(fd, data)).state)
  {
    hide WriteAt;
  }

  lemma SameTimesTwice(a: FsState, b: FsState, c: FsState)
    requires SameButTimes(a, b) && SameButTimes(b, c)
    ensures SameButTimes(a, c)
  {
  }

  function Join(chunks: seq<seq<byte>>): seq<byte> {
    if chunks == [] then [] else Join(chunks[..|chunks| - 1]) + chunks[|chunks| - 1]
  }

  function WriteAll(s: FsState, fd: nat, chunks: seq<seq<byte>>): FsState {
    if chunks == [] then s
    else Step(WriteAll(s, fd, chunks[..|chunks| - 1]), Call.Write(fd, chunks[|chunks| - 1])).state
  }

  /** Any number of writes, in append mode or not, leave the files and the descriptor
      as one write of all their data does. */
  lemma {:induction false} WritesAreOneWrite(s: FsState, fd: nat, chunks: seq<seq<byte>>)
    requires Inv(s) && Usable(s, fd, ReadOnly) && chunks != []
    ensures SameButTimes(WriteAll(s, fd, chunks), Step(s, Call.Write(fd, Join(chunks))).state)
    ensures Usable(WriteAll(s, fd, chunks), fd, ReadOnly)
  {
    hide Inv, Step, Usable, SameButTimes;
    var front, last := chunks[..|chunks| - 1], chunks[|chunks| - 1];
    if front == [] {
      assert Join(chunks) == last;
      SameItself(Step(s, Call.Write(fd, last)).state);
      WriteKeepsFile(s, fd, last);
    } else {
      WritesAreOneWrite(s, fd, front);
      WritesFollow(s, fd, Join(front), last);
      WriteIgnoresTimes(WriteAll(s, fd, front), Step(s, Call.Write(fd, Join(front))).state, fd, last);
      WriteKeepsFile(WriteAll(s, fd, front), fd, last);
      SameTimesTwice(WriteAll(s, fd, chunks), Step(Step(s, Call.Write(fd, Join(front))).state, Call.Write(fd, last)).state,
                     Step(s, Call.Write(fd, Join(chunks))).state);
    }
  }

  lemma SameItself(s: FsState)
    ensures SameButTimes(s, s)
  {
  }

  // --------------------------------------- what a later read returns ---

  /** After a write every descriptor open for reading finds the written bytes where
      they were written, zeros in a gap the write left behind the old end, and
      everything it could read elsewhere. */
  lemma WriteReadsBack(s: FsState, fd: nat, offset: nat, data: seq<byte>, other: nat)
    requires Inv(s) && Usable(s, fd, ReadOnly) && Usable(s, other, WriteOnly) && SameFile(s, fd, other)
    ensures var t := Step(s, WriteAtOffset(fd, offset, data)).state;
            && Step(t, ReadAtOffset(other, offset, |data|)).reply == Got(data)
            && SizeOf(t, fd) == (if data == [] then SizeOf(s, fd) else Max(SizeOf(s, fd), offset + |data|))
            && (forall o: nat, n: nat :: data != [] && SizeOf(s, fd) <= o && o + n <= offset ==>
                  Step(t, ReadAtOffset(other, o, n)).reply == Got(Zeros(n)))
            && (forall o: nat, n: nat :: o + n <= offset || offset + |data| <= o ==>
                  var was, now := Step(s, ReadAtOffset(other, o, n)).reply, Step(t, ReadAtOffset(other, o, n)).reply;
                  was.Got? && now.Got? && was.data <= now.data)
  {
    var e := s.inodes[s.fds[fd].inode].content.extent;
    assert SoundInode(s.inodes[s.fds[fd].inode]);
    WrittenReads(e, offset, data);
    hide WriteAt, ReadAt, Tree;
    hide Sparse;
  }

  lemma WrittenReads(e: Extent, offset: nat, data: seq<byte>)
    requires Sparse(e)
    ensures var w := WriteAt(e, offset, data);
            && ReadAt(w, offset, |data|) == data
            && |w.bytes| == (if data == [] then |e.bytes| else Max(|e.bytes|, offset + |data|))
            && (forall o: nat, n: nat :: data != [] && |e.bytes| <= o && o + n <= offset ==> ReadAt(w, o, n) == Zeros(n))
            && (forall o: nat, n: nat :: o + n <= offset || offset + |data| <= o ==> ReadAt(e, o, n) <= ReadAt(w, o, n))
  {
    var w := WriteAt(e, offset, data);
    if data != [] {
      var end := offset + |data|;
      assert end <= Readable(w);
      assert w.bytes[offset..end] == data;
      assert forall k :: 0 <= k < |e.bytes| && !(offset <= k < end) ==> w.bytes[k] == e.bytes[k];
    }
  }

  /** In append mode a write goes to the end whatever the position: everything that
      could be read is still there, and the new bytes follow the old size. */
  lemma AppendGoesToEnd(s: FsState, fd: nat, data: seq<byte>, other: nat)
    requires Inv(s) && Usable(s, fd, ReadOnly) && Usable(s, other, WriteOnly) && SameFile(s, fd, other)
    requires s.fds[fd].flags.append
    ensures var t := Step(s, Call.Write(fd, data)).state;
            && t == Step(s, AppendWrite(fd, data)).state && Tell(t, fd) == At(SizeOf(s, fd) + |data|)
            && SizeOf(t, fd) == SizeOf(s, fd) + |data|
            && Step(t, ReadAtOffset(other, SizeOf(s, fd), |data|)).reply == Got(data)
            && (forall o: nat, n: nat :: o + n <= SizeOf(s, fd) ==>
                  var was, now := Step(s, ReadAtOffset(other, o, n)).reply, Step(t, ReadAtOffset(other, o, n)).reply;
                  was.Got? && now.Got? && was.data <= now.data)
  {
    WriteMoves(s, fd, data, SizeOf(s, fd));
    WriteReadsBack(s, fd, SizeOf(s, fd), data, other);
    hide Step, Inv, Tell;
  }

  /** A write and then a read from where it began return what was written. */
  lemma WriteThenRead(s: FsState, fd: nat, data: seq<byte>)
    requires Inv(s) && Usable(s, fd, ReadOnly) && Usable(s, fd, WriteOnly)
    ensures var t := Step(s, Call.Write(fd, data)).state;
            var back := Step(t, Seek(fd, -|data|, 1));
            && back.reply == At(WritesTo(s, fd)) && Step(back.state, Read(fd, |data|)).reply == Got(data)
  {
    hide Step, Inv, Tell, WritesTo;
    var t := Step(s, Call.Write(fd, data)).state;
    var from := WritesTo(s, fd);
    WriteMoves(s, fd, data, from);
    WriteReadsBack(s, fd, from, data, fd);
    StepKeeps(s, Call.Write(fd, data));
    WriteKeepsFile(s, fd, data);
    SeekMoves(t, fd, -|data|, 1);
  }

  lemma WriteKeepsFile(s: FsState, fd: nat, data: seq<byte>)
    requires Usable(s, fd, ReadOnly)
    ensures var t := Step(s, Call.Write(fd, data)).state;
            Usable(t, fd, ReadOnly) && (Usable(s, fd, WriteOnly) ==> Usable(t, fd, WriteOnly))
  {
    hide WriteAt;
  }

  /** Cutting a file takes from every read what lies past the new size; growing it
      adds zeros to a read at most. The size is the one asked for, and no
      descriptor moves. */
  lemma FtruncateResizes(s: FsState, fd: nat, size: nat, other: nat, o: nat, n: nat)
    requires Inv(s) && Usable(s, fd, ReadOnly) && Usable(s, other, WriteOnly) && SameFile(s, fd, other)
    ensures var out := Step(s, Ftruncate(fd, size));
            && out.reply.Done? && SizeOf(out.state, fd) == size && out.state.fds == s.fds
            && var was, now := Step(s, ReadAtOffset(other, o, n)).reply, Step(out.state, ReadAtOffset(other, o, n)).reply;
            && was.Got? && now.Got?
            && (size <= SizeOf(s, fd) ==> now.data == was.data[..Min(|was.data|, Max(size, o) - o)])
            && (SizeOf(s, fd) <= size ==> was.data <= now.data && forall i :: |was.data| <= i < |now.data| ==> now.data[i] == 0)
  {
    var e := s.inodes[s.fds[fd].inode].content.extent;
    assert SoundInode(s.inodes[s.fds[fd].inode]);
    ResizedReads(e, size, o, n);
    hide Resize, ReadAt, Tree, Sparse;
  }

  lemma ResizedReads(e: Extent, size: nat, o: nat, n: nat)
    requires Sparse(e)
    ensures var was, now := ReadAt(e, o, n), ReadAt(Resize(e, size), o, n);
            && |Resize(e, size).bytes| == size
            && (size <= |e.bytes| ==> now == was[..Min(|was|, Max(size, o) - o)])
            && (|e.bytes| <= size ==> was <= now && forall i :: |was| <= i < |now| ==> now[i] == 0)
  {
    if size < |e.bytes| {
      ShrunkReads(e, size, o, n);
    } else {
      GrownReads(e, size, o, n);
    }
    hide ReadAt, Sparse;
  }

  lemma ShrunkReads(e: Extent, size: nat, o: nat, n: nat)
    requires Sparse(e) && size < |e.bytes|
    ensures var was := ReadAt(e, o, n); ReadAt(Resize(e, size), o, n) == was[..Min(|was|, Max(size, o) - o)]
  {
    var was, now := ReadAt(e, o, n), ReadAt(Resize(e, size), o, n);
    var end := Min(o + n, Min(size, e.slots * BLOCK));
    assert size <= Ceil(size) * BLOCK;
    assert Readable(Resize(e, size)) == Min(size, e.slots * BLOCK);
    if o < end {
      assert now == e.bytes[..size][o..end] == e.bytes[o..end];
      assert was[..end - o] == e.bytes[o..end];
    }
  }

  lemma GrownReads(e: Extent, size: nat, o: nat, n: nat)
    requires Sparse(e) && |e.bytes| <= size
    ensures var was, now := ReadAt(e, o, n), ReadAt(Resize(e, size), o, n);
            was <= now && forall i :: |was| <= i < |now| ==> now[i] == 0
  {
    var was, now := ReadAt(e, o, n), ReadAt(Resize(e, size), o, n);
    assert Resize(e, size).bytes[..|e.bytes|] == e.bytes;
    assert forall i :: 0 <= i < |was| ==> was[i] == e.bytes[o + i] == now[i];
    assert forall i :: |was| <= i < |now| ==> now[i] == Resize(e, size).bytes[o + i];
  }

  /** A new descriptor stands at the start of its file. */
  lemma OpenedAtStart(s: FsState, c: Call)
    requires Inv(s) && (c.Open? || c.OpenAt?) && Step(s, c).reply.Opened?
    ensures var t, fd := Step(s, c).state, Step(s, c).reply.fd;
            && fd in t.fds && t.fds[fd].flags == c.flags
            && (t.fds[fd].inode in t.inodes && t.inodes[t.fds[fd].inode].content.File? ==> Tell(t, fd) == At(0))
  {
    hide Components, Resolve, Resize, Tree, Create;
  }

  /** A closed descriptor is refused by every call, and no other has changed. */
  lemma CloseForgets(s: FsState, fd: nat)
    ensures var out := Step(s, Close(fd));
            && out.reply == (if fd in s.fds then Done else Failed(BadFileDescriptor))
            && out.state.inodes == s.inodes && out.state.fds.Keys == s.fds.Keys - {fd}
            && (forall other :: other in s.fds && other != fd ==> out.state.fds[other] == s.fds[other])
            && (forall c: Call ::
                  (c.Read? || c.ReadAtOffset? || c.Write? || c.WriteAtOffset? || c.AppendWrite? || c.Ftruncate? || c.Seek? || c.Close?) && c.fd == fd ==>
                    Step(out.state, c) == Fail(out.state, BadFileDescriptor))
  {
    var t := Step(s, Close(fd)).state;
    assert fd !in t.fds;
    forall c: Call | (c.Read? || c.ReadAtOffset? || c.Write? || c.WriteAtOffset? || c.AppendWrite? || c.Ftruncate? || c.Seek? || c.Close?) && c.fd == fd
      ensures Step(t, c) == Fail(t, BadFileDescriptor)
    {
    }
  }
}
