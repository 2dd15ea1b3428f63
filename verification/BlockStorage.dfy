/** File content as sparse 4 KiB blocks, against a flat sequence of bytes. */
module BlockStorages {

  type byte = x: int | 0 <= x < 256

  const BLOCK: nat := 4096

  /** What a file is to its users: its bytes, and how many block slots back
      them. Reads stop at the last slot, so the slots are observable. */
  datatype Extent = Extent(bytes: seq<byte>, slots: nat)

  function Zeros(n: nat): (z: seq<byte>)
    ensures |z| == n && forall i :: 0 <= i < n ==> z[i] == 0
  {
    seq(n, _ => 0)
  }

  function Min(a: nat, b: nat): nat { if a < b then a else b }
  function Max(a: nat, b: nat): nat { if a < b then b else a }
  function Sum(s: seq<nat>): nat { if s == [] then 0 else Sum(s[..|s| - 1]) + s[|s| - 1] }

  /** Blocks needed for `n` bytes. */
  function Ceil(n: nat): nat { (n + BLOCK - 1) / BLOCK }

  const EMPTY := Extent([], 0)

  /** No slot is beyond the last byte, and bytes without a slot are zero. */
  predicate Sparse(e: Extent) {
    && e.slots <= Ceil(|e.bytes|)
    && forall i :: e.slots * BLOCK <= i < |e.bytes| ==> e.bytes[i] == 0
  }

  function Readable(e: Extent): nat {
    Min(|e.bytes|, e.slots * BLOCK)
  }

  /** The bytes a read of `len` bytes at `offset` returns. */
  function ReadAt(e: Extent, offset: nat, len: nat): seq<byte> {
    var end := Min(offset + len, Readable(e));
    if offset < end then e.bytes[offset..end] else []
  }

  function WriteAt(e: Extent, offset: nat, data: seq<byte>): Extent {
    if data == [] then e
    else
      var end := offset + |data|;
      var padded := e.bytes + Zeros(Max(end, |e.bytes|) - |e.bytes|);
      Extent(padded[..offset] + data + padded[end..], Max(e.slots, Ceil(end)))
  }

  function Resize(e: Extent, size: nat): Extent {
    if size < |e.bytes| then Extent(e.bytes[..size], Min(e.slots, Ceil(size)))
    else Extent(e.bytes + Zeros(size - |e.bytes|), e.slots)
  }

  /** Consecutive writes are one write. */
  lemma WriteTwice(e: Extent, offset: nat, a: seq<byte>, b: seq<byte>)
    ensures WriteAt(WriteAt(e, offset, a), offset + |a|, b) == WriteAt(e, offset, a + b)
  {
    if a == [] {
      assert a + b == b;
    } else if b == [] {
      assert a + b == a;
    } else {
      var once, twice := WriteAt(e, offset, a + b), WriteAt(WriteAt(e, offset, a), offset + |a|, b);
      assert once.slots == twice.slots by {
        hide Zeros;
      }
      WriteTwiceBytes(e, offset, a, b);
      hide WriteAt;
      assert once.bytes == twice.bytes;
    }
  }

  lemma WriteTwiceBytes(e: Extent, offset: nat, a: seq<byte>, b: seq<byte>)
    requires a != [] && b != []
    ensures var once, twice := WriteAt(e, offset, a + b).bytes, WriteAt(WriteAt(e, offset, a), offset + |a|, b).bytes;
            |once| == |twice| && forall i :: 0 <= i < |once| ==> once[i] == twice[i]
  {
    hide WriteAt;
    var mid := WriteAt(e, offset, a);
    var once, twice := WriteAt(e, offset, a + b).bytes, WriteAt(mid, offset + |a|, b).bytes;
    WriteByte(e, offset, a, 0);
    WriteByte(e, offset, a + b, 0);
    WriteByte(mid, offset + |a|, b, 0);
    forall i | 0 <= i < |once| ensures once[i] == twice[i] {
      WriteByte(e, offset, a, i);
      WriteByte(mid, offset + |a|, b, i);
      WriteByte(e, offset, a + b, i);
    }
  }

  /** Byte `i` of a written extent. */
  function WrittenByte(e: Extent, offset: nat, data: seq<byte>, i: nat): byte {
    if offset <= i < offset + |data| then data[i - offset] else if i < |e.bytes| then e.bytes[i] else 0
  }

  lemma WriteByte(e: Extent, offset: nat, data: seq<byte>, i: nat)
    requires data != []
    ensures var w := WriteAt(e, offset, data).bytes;
            |w| == Max(|e.bytes|, offset + |data|) && (i < |w| ==> w[i] == WrittenByte(e, offset, data, i))
  {
  }

  // --------------------------------------------- any mix of operations ---

  datatype Change = Write(offset: nat, data: seq<byte>) | Truncate(size: nat)

  function Apply(e: Extent, c: Change): Extent {
    match c
    case Write(offset, data) => WriteAt(e, offset, data)
    case Truncate(size) => Resize(e, size)
  }

  /** A new file after `changes`, oldest first. */
  function Play(changes: seq<Change>): Extent {
    if changes == [] then EMPTY else Apply(Play(changes[..|changes| - 1]), changes[|changes| - 1])
  }

  /** The size a flat file has after `changes`. */
  function FlatSize(changes: seq<Change>): nat {
    if changes == [] then 0
    else
      var before := FlatSize(changes[..|changes| - 1]);
      match changes[|changes| - 1]
      case Write(offset, data) => if data == [] then before else Max(before, offset + |data|)
      case Truncate(size) => size
  }

  /** The byte a flat file has at `i`: what the latest change that covers `i`
      put there, zero when that was a cut or there was none. */
  function FlatByte(changes: seq<Change>, i: nat): byte {
    if changes == [] then 0
    else
      var before := changes[..|changes| - 1];
      match changes[|changes| - 1]
      case Write(offset, data) =>
        if offset <= i < offset + |data| then data[i - offset] else FlatByte(before, i)
      case Truncate(size) => if size <= i then 0 else FlatByte(before, i)
  }

  lemma {:induction false} FlatByteBeyond(changes: seq<Change>, i: nat)
    requires FlatSize(changes) <= i
    ensures FlatByte(changes, i) == 0
  {
    if changes != [] {
      var last := changes[|changes| - 1];
      if last.Write? || i < last.size {
        FlatByteBeyond(changes[..|changes| - 1], i);
      }
    }
  }

  /** Whatever the mix of writes and truncations, the stored bytes are the flat
      file's, and the extent stays sparse. */
  lemma {:induction false} PlayIsFlat(changes: seq<Change>)
    ensures Sparse(Play(changes))
    ensures |Play(changes).bytes| == FlatSize(changes)
    ensures forall i :: 0 <= i < FlatSize(changes) ==> Play(changes).bytes[i] == FlatByte(changes, i)
  {
    if changes != [] {
      var before, last := changes[..|changes| - 1], changes[|changes| - 1];
      PlayIsFlat(before);
      ApplyKeepsSparse(Play(before), last);
      forall i | 0 <= i < FlatSize(changes) ensures Play(changes).bytes[i] == FlatByte(changes, i) {
        hide Sparse, Ceil;
        if FlatSize(before) <= i {
          FlatByteBeyond(before, i);
        }
      }
    }
  }

  lemma ApplyKeepsSparse(e: Extent, c: Change)
    requires Sparse(e)
    ensures Sparse(Apply(e, c))
  {
    var after := Apply(e, c);
    forall i | after.slots * BLOCK <= i < |after.bytes| ensures after.bytes[i] == 0 {
    }
  }

  /** What a file without missing slots would return. */
  function FlatSlice(bytes: seq<byte>, offset: nat, len: nat): seq<byte> {
    if offset < |bytes| then bytes[offset..Min(offset + len, |bytes|)] else []
  }

  /** A read is short exactly when it reaches into the part of the file that a
      growing truncation added past the last slot. */
  lemma ReadIsComplete(e: Extent, offset: nat, len: nat)
    ensures ReadAt(e, offset, len) == FlatSlice(e.bytes, offset, len)
            <==> Min(offset + len, |e.bytes|) <= Max(offset, e.slots * BLOCK)
  {
    var r, f := ReadAt(e, offset, len), FlatSlice(e.bytes, offset, len);
    if Min(offset + len, |e.bytes|) <= Max(offset, e.slots * BLOCK) {
      assert r == f;
    } else {
      assert |r| < |f|;
    }
  }

  /** Growing an empty file by one byte: its size is 1, and a read returns nothing. */
  lemma GrownFileReadsShort()
    ensures |Play([Truncate(1)]).bytes| == 1 && ReadAt(Play([Truncate(1)]), 0, 1) == []
  {
    var changes := [Truncate(1)];
    assert changes[..0] == [];
    assert Play(changes) == Resize(EMPTY, 1);
  }

  // ------------------------------------------------------------- blocks ---

  type Block = b: seq<byte> | |b| == BLOCK witness Zeros(BLOCK)

  datatype Slot = Hole | Full(data: Block)

  function ByteAt(blocks: seq<Slot>, i: nat): byte {
    if i / BLOCK < |blocks| && blocks[i / BLOCK].Full? then blocks[i / BLOCK].data[i % BLOCK] else 0
  }

  /** Allocated bytes from `size` on are zero. */
  ghost predicate ZeroFrom(blocks: seq<Slot>, size: nat) {
    forall i :: size <= i ==> ByteAt(blocks, i) == 0
  }

  function Flatten(blocks: seq<Slot>, size: nat): (s: seq<byte>)
    ensures |s| == size && forall i :: 0 <= i < size ==> s[i] == ByteAt(blocks, i)
  {
    seq(size, i requires 0 <= i => ByteAt(blocks, i))
  }

  lemma SlotOf(i: nat, index: nat)
    ensures i / BLOCK == index <==> index * BLOCK <= i < index * BLOCK + BLOCK
    ensures i / BLOCK == index ==> i % BLOCK == i - index * BLOCK
  {
  }

  /** The invariant of the storage makes its extent sparse. */
  lemma FlattenIsSparse(blocks: seq<Slot>, size: nat)
    requires |blocks| <= Ceil(size)
    ensures Sparse(Extent(Flatten(blocks, size), |blocks|))
  {
    forall i | |blocks| * BLOCK <= i < size ensures ByteAt(blocks, i) == 0 {
      SlotOf(i, i / BLOCK);
    }
  }

  /** Byte `i` after overwriting with `piece` from `start` on. */
  function Patched(before: byte, start: nat, piece: seq<byte>, i: nat): byte {
    if start <= i < start + |piece| then piece[i - start] else before
  }

  lemma PatchedByte(blocks: seq<Slot>, index: nat, at: nat, piece: seq<byte>, patched: Block, i: nat)
    requires index < |blocks| && blocks[index].Full? && at + |piece| <= BLOCK
    requires patched == blocks[index].data[..at] + piece + blocks[index].data[at + |piece|..]
    ensures ByteAt(blocks[index := Full(patched)], i) == Patched(ByteAt(blocks, i), index * BLOCK + at, piece, i)
  {
    SlotOf(i, index);
    if i / BLOCK == index {
      var j := i % BLOCK;
      assert patched[j] == if at <= j < at + |piece| then piece[j - at] else blocks[index].data[j];
    }
  }

  /** Overwriting part of one block changes exactly those bytes. */
  lemma PatchedBytes(blocks: seq<Slot>, index: nat, at: nat, piece: seq<byte>, patched: Block)
    requires index < |blocks| && blocks[index].Full? && at + |piece| <= BLOCK
    requires patched == blocks[index].data[..at] + piece + blocks[index].data[at + |piece|..]
    ensures forall i :: 0 <= i ==>
              ByteAt(blocks[index := Full(patched)], i) == Patched(ByteAt(blocks, i), index * BLOCK + at, piece, i)
  {
    forall i | 0 <= i
      ensures ByteAt(blocks[index := Full(patched)], i) == Patched(ByteAt(blocks, i), index * BLOCK + at, piece, i)
    {
      PatchedByte(blocks, index, at, piece, patched, i);
    }
  }

  /** One more piece written to blocks that already hold `data[..n]`. */
  lemma WrittenSoFar(before: seq<Slot>, mid: seq<Slot>, after: seq<Slot>, offset: nat, data: seq<byte>, n: nat, m: nat)
    requires n <= m <= |data|
    requires forall i :: 0 <= i ==> ByteAt(mid, i) == Patched(ByteAt(before, i), offset, data[..n], i)
    requires forall i :: 0 <= i ==> ByteAt(after, i) == Patched(ByteAt(mid, i), offset + n, data[n..m], i)
    ensures forall i :: 0 <= i ==> ByteAt(after, i) == Patched(ByteAt(before, i), offset, data[..m], i)
  {
    hide ByteAt;
  }

  /** Blocks that differ by `data` at `offset` flatten to the written bytes. */
  lemma FlatWrite(before: seq<Slot>, size: nat, after: seq<Slot>, offset: nat, data: seq<byte>)
    requires data != [] && ZeroFrom(before, size)
    requires forall i :: 0 <= i ==> ByteAt(after, i) == Patched(ByteAt(before, i), offset, data, i)
    ensures Flatten(after, Max(size, offset + |data|)) == WriteAt(Extent(Flatten(before, size), |before|), offset, data).bytes
    ensures ZeroFrom(after, Max(size, offset + |data|))
  {
    hide ByteAt;
    var end := offset + |data|;
    var flat := Flatten(before, size);
    var padded := flat + Zeros(Max(end, size) - size);
    assert forall i :: 0 <= i < |padded| ==> padded[i] == ByteAt(before, i);
    var w := padded[..offset] + data + padded[end..];
    assert forall i :: 0 <= i < |w| ==> w[i] == Patched(padded[i], offset, data, i);
  }

  class BlockStorage {
    var blocks: seq<Slot>
    var size: nat

    ghost predicate Valid()
      reads this
    {
      |blocks| <= Ceil(size) && ZeroFrom(blocks, size)
    }

    ghost function View(): (e: Extent)
      reads this
    {
      Extent(Flatten(blocks, size), |blocks|)
    }

    constructor ()
      ensures Valid() && View() == EMPTY
    {
      blocks, size := [], 0;
    }

    method Read(offset: nat, buf: array<byte>) returns (n: nat)
      requires Valid()
      modifies buf
      ensures n <= buf.Length && buf[..n] == ReadAt(View(), offset, buf.Length)
      ensures buf[n..] == old(buf[n..])
    {
      n := 0;
      if size <= offset {
        return;
      }
      var current := offset;
      while n < buf.Length && current < size && current / BLOCK < |blocks|
        invariant n <= buf.Length && current == offset + n <= size
        invariant n > 0 ==> current <= |blocks| * BLOCK
        invariant forall i :: 0 <= i < n ==> buf[i] == ByteAt(blocks, offset + i)
        invariant forall i :: n <= i < buf.Length ==> buf[i] == old(buf[i])
        decreases buf.Length - n
      {
        var count := ReadPiece(current, buf, n);
        n, current := n + count, current + count;
      }
      SlotOf(current, |blocks|);
    }

    /** Copy what the block holding `current` has for `buf[n..]`; a hole reads as zeros. */
    method ReadPiece(current: nat, buf: array<byte>, n: nat) returns (count: nat)
      requires n < buf.Length && current < size && current / BLOCK < |blocks|
      modifies buf
      ensures 0 < count <= Min(buf.Length - n, size - current)
      ensures current + count <= |blocks| * BLOCK
      ensures forall i :: n <= i < n + count ==> buf[i] == ByteAt(blocks, current + (i - n))
      ensures forall i :: 0 <= i < buf.Length && !(n <= i < n + count) ==> buf[i] == old(buf[i])
    {
      var index, at := current / BLOCK, current % BLOCK;
      count := Min(BLOCK - at, Min(buf.Length - n, size - current));
      SlotOf(current, index);
      forall j | current <= j < current + count ensures j / BLOCK == index && j % BLOCK == at + (j - current) {
        SlotOf(j, index);
      }
      var slot := blocks[index];
      forall i | n <= i < n + count {
        buf[i] := if slot.Full? then slot.data[at + (i - n)] else 0;
      }
    }

    method Write(offset: nat, data: seq<byte>) returns (n: nat)
      requires Valid()
      modifies this
      ensures Valid() && n == |data| && View() == WriteAt(old(View()), offset, data)
    {
      n := 0;
      if data == [] {
        return;
      }
      var current := offset;
      while n < |data|
        invariant n <= |data| && current == offset + n && size == old(size)
        invariant |blocks| == Max(|old(blocks)|, if n == 0 then 0 else Ceil(current))
        invariant forall i :: 0 <= i ==> ByteAt(blocks, i) == Patched(old(ByteAt(blocks, i)), offset, data[..n], i)
        decreases |data| - n
      {
        ghost var mid := blocks;
        var count := WritePiece(current, data, n);
        WrittenSoFar(old(blocks), mid, blocks, offset, data, n, n + count);
        n, current := n + count, current + count;
      }
      assert data[..n] == data;
      FlatWrite(old(blocks), old(size), blocks, offset, data);
      if size < current {
        size := current;
      }
    }

    /** Copy as much of `data[n..]` as fits in the block holding `current`. */
    method WritePiece(current: nat, data: seq<byte>, n: nat) returns (count: nat)
      requires n < |data|
      modifies this`blocks
      ensures 0 < count <= |data| - n
      ensures |blocks| == Max(|old(blocks)|, Ceil(current + count))
      ensures forall i :: 0 <= i ==> ByteAt(blocks, i) == Patched(old(ByteAt(blocks, i)), current, data[n..n + count], i)
    {
      var index, at := current / BLOCK, current % BLOCK;
      SlotOf(current, index);
      Allocate(index);
      count := Min(BLOCK - at, |data| - n);
      var piece := data[n..n + count];
      var block: seq<byte> := blocks[index].data;
      var patched := block[..at] + piece + block[at + count..];
      PatchedBytes(blocks, index, at, piece, patched);
      assert Ceil(current + count) == index + 1;
      blocks := blocks[index := Full(patched)];
    }

    /** Make block `index` exist and be allocated; no byte changes. */
    method Allocate(index: nat)
      modifies this`blocks
      ensures index < |blocks| && blocks[index].Full? && |blocks| == Max(|old(blocks)|, index + 1)
      ensures forall i :: 0 <= i ==> ByteAt(blocks, i) == old(ByteAt(blocks, i))
    {
      while |blocks| <= index
        invariant |old(blocks)| <= |blocks| <= Max(|old(blocks)|, index + 1)
        invariant forall i :: 0 <= i ==> ByteAt(blocks, i) == old(ByteAt(blocks, i))
        decreases index + 1 - |blocks|
      {
        blocks := blocks + [Hole];
      }
      if blocks[index].Hole? {
        blocks := blocks[index := Full(Zeros(BLOCK))];
      }
    }

    method Truncate(newSize: nat)
      requires Valid()
      modifies this
      ensures Valid() && View() == Resize(old(View()), newSize)
    {
      if newSize < size {
        var count := Ceil(newSize);
        if count < |blocks| {
          blocks := blocks[..count];
        }
        forall i | 0 <= i ensures ByteAt(blocks, i) == if i < count * BLOCK then old(ByteAt(blocks, i)) else 0 {
          SlotOf(i, i / BLOCK);
        }
        if 0 < newSize && 0 < count {
          var last, at := count - 1, newSize % BLOCK;
          SlotOf(newSize, newSize / BLOCK);
          if 0 < at && last < |blocks| && blocks[last].Full? {
            var block: seq<byte> := blocks[last].data;
            var piece := Zeros(BLOCK - at);
            var cleared := block[..at] + piece;
            assert cleared == block[..at] + piece + block[at + |piece|..];
            PatchedBytes(blocks, last, at, piece, cleared);
            blocks := blocks[last := Full(cleared)];
          }
        }
        assert forall i :: 0 <= i ==> ByteAt(blocks, i) == if i < newSize then old(ByteAt(blocks, i)) else 0;
        size := newSize;
      } else if size < newSize {
        size := newSize;
      }
      assert View().bytes == Resize(old(View()), newSize).bytes;
    }
  }
}
