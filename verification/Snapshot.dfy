/**
 * Snapshots: the whole inode table as a list with file contents flattened to
 * plain bytes, and the filesystem rebuilt from one.
 */
module Snapshots {
  import opened LockRecords
  import opened BlockStorages
  import opened FileSystems
  import opened FileTree
  import opened FsObjects

  datatype ContentSnapshot = FileData(size: nat, data: seq<byte>) | DirEntries(entries: map<string, nat>)

  datatype InodeSnapshot = InodeSnapshot(id: nat, meta: Metadata, content: ContentSnapshot)

  datatype FsSnapshot = FsSnapshot(nextInode: nat, rootInode: nat, inodes: seq<InodeSnapshot>)

  // ------------------------------------------------------- file data ---

  /** The flattened content of a storage: a zeroed buffer of its size, read into. */
  function Materialized(e: Extent): ContentSnapshot {
    var data := ReadAt(e, 0, |e.bytes|);
    FileData(|e.bytes|, data + Zeros(|e.bytes| - |data|))
  }

  /** The storage rebuilt from flattened content. */
  function Rebuilt(size: nat, data: seq<byte>): Extent {
    var written := WriteAt(EMPTY, 0, data);
    if |written.bytes| != size then Resize(written, size) else written
  }

  method MaterializeStorage(storage: BlockStorage) returns (r: ContentSnapshot)
    requires storage.Valid()
    ensures r == Materialized(storage.View()) == FileData(storage.size, storage.View().bytes)
  {
    var size := storage.size;
    var buf := new byte[size](_ => 0);
    var n := storage.Read(0, buf);
    assert buf[..] == buf[..n] + buf[n..];
    assert buf[n..] == Zeros(size - n);
    r := FileData(size, buf[..]);
    FlattenIsSparse(storage.blocks, size);
    MaterializedIsFlat(storage.View());
  }

  method RebuildStorage(size: nat, data: seq<byte>) returns (storage: BlockStorage)
    ensures fresh(storage) && storage.Valid() && storage.View() == Rebuilt(size, data)
  {
    storage := new BlockStorage();
    if data != [] {
      var n := storage.Write(0, data);
    }
    if storage.size != size {
      storage.Truncate(size);
    }
  }

  /** Short reads of a grown file lose nothing: what is not read is zero. */
  lemma MaterializedIsFlat(e: Extent)
    requires Sparse(e)
    ensures Materialized(e) == FileData(|e.bytes|, e.bytes)
  {
    var n := Readable(e);
    assert ReadAt(e, 0, |e.bytes|) == e.bytes[..n];
    assert e.bytes[n..] == Zeros(|e.bytes| - n);
  }

  /** A storage rebuilt from its own bytes has them all, each readable. */
  lemma RebuiltIsComplete(data: seq<byte>)
    ensures Rebuilt(|data|, data) == Extent(data, Ceil(|data|))
    ensures Sparse(Extent(data, Ceil(|data|)))
    ensures forall offset, len :: ReadAt(Rebuilt(|data|, data), offset, len) == FlatSlice(data, offset, len)
  {
    var e := Rebuilt(|data|, data);
    if data != [] {
      assert WriteAt(EMPTY, 0, data).bytes == data;
    }
    assert |data| <= Ceil(|data|) * BLOCK;
    hide Rebuilt;
    hide Ceil;
    forall offset, len ensures ReadAt(e, offset, len) == FlatSlice(data, offset, len) {
      ReadIsComplete(e, offset, len);
      hide ReadAt;
      hide FlatSlice;
    }
  }

  // ------------------------------------------------- the whole table ---

  function SnapInode(id: nat, inode: Inode): InodeSnapshot {
    match inode.content
    case File(e) => InodeSnapshot(id, inode.meta, Materialized(e))
    case Dir(entries) => InodeSnapshot(id, inode.meta, DirEntries(entries))
  }

  function RestoreInode(snap: InodeSnapshot): Inode {
    match snap.content
    case FileData(size, data) => Inode(snap.meta, File(Rebuilt(size, data)))
    case DirEntries(entries) => Inode(snap.meta, Dir(entries))
  }

  /** `list` has each inode of `inodes` exactly once, in some order. */
  ghost predicate Lists(list: seq<InodeSnapshot>, inodes: Table) {
    && (forall i :: 0 <= i < |list| ==> list[i].id in inodes && list[i] == SnapInode(list[i].id, inodes[list[i].id]))
    && (forall i, j :: 0 <= i < j < |list| ==> list[i].id != list[j].id)
    && (forall id :: id in inodes ==> exists i :: 0 <= i < |list| && list[i].id == id)
  }

  function RestoreTable(list: seq<InodeSnapshot>): Table {
    if list == [] then map[]
    else RestoreTable(list[..|list| - 1])[list[|list| - 1].id := RestoreInode(list[|list| - 1])]
  }

  method ToSnapshot(fs: Fs) returns (snap: FsSnapshot)
    ensures snap.nextInode == fs.nextInode && snap.rootInode == fs.root && Lists(snap.inodes, fs.inodes)
  {
    var list: seq<InodeSnapshot> := [];
    var rest := fs.inodes.Keys;
    while rest != {}
      invariant rest <= fs.inodes.Keys
      invariant forall i :: 0 <= i < |list| ==> list[i].id in fs.inodes && list[i].id !in rest
                                                && list[i] == SnapInode(list[i].id, fs.inodes[list[i].id])
      invariant forall i, j :: 0 <= i < j < |list| ==> list[i].id != list[j].id
      invariant forall id :: id in fs.inodes && id !in rest ==> exists i :: 0 <= i < |list| && list[i].id == id
      decreases |rest|
    {
      var id :| id in rest;
      ghost var before := list;
      list := list + [SnapInode(id, fs.inodes[id])];
      rest := rest - {id};
      assert list[|before|].id == id;
      forall k | k in fs.inodes && k !in rest ensures exists i :: 0 <= i < |list| && list[i].id == k {
        if k != id {
          var i :| 0 <= i < |before| && before[i].id == k;
          assert list[i].id == k;
        }
      }
    }
    snap := FsSnapshot(fs.nextInode, fs.root, list);
  }

  method FromSnapshot(snap: FsSnapshot, clock: nat) returns (fs: Fs)
    ensures fresh(fs)
    ensures fs.State() == FsState(snap.nextInode, 3, map[], RestoreTable(snap.inodes), snap.rootInode, clock)
  {
    fs := new Fs();
    fs.nextInode, fs.nextFd, fs.fds, fs.inodes := snap.nextInode, 3, map[], map[];
    fs.root, fs.clock := snap.rootInode, clock;
    for i := 0 to |snap.inodes|
      invariant fs.State() == FsState(snap.nextInode, 3, map[], RestoreTable(snap.inodes[..i]), snap.rootInode, clock)
    {
      var inode := snap.inodes[i];
      var content;
      match inode.content {
        case FileData(size, data) =>
          var storage := if data != [] then WriteAt(EMPTY, 0, data) else EMPTY;
          if |storage.bytes| != size {
            storage := Resize(storage, size);
          }
          content := File(storage);
        case DirEntries(entries) =>
          content := Dir(entries);
      }
      fs.inodes := fs.inodes[inode.id := Inode(inode.meta, content)];
      assert snap.inodes[..i + 1][..i] == snap.inodes[..i];
    }
    assert snap.inodes[..|snap.inodes|] == snap.inodes;
  }

  // ----------------------------------------------------- round trip ---

  lemma {:induction false} RestoreTableFinds(list: seq<InodeSnapshot>)
    requires forall i, j :: 0 <= i < j < |list| ==> list[i].id != list[j].id
    ensures forall i :: 0 <= i < |list| ==> list[i].id in RestoreTable(list) && RestoreTable(list)[list[i].id] == RestoreInode(list[i])
    ensures forall id :: id in RestoreTable(list) ==> exists i :: 0 <= i < |list| && list[i].id == id
  {
    hide RestoreInode;
    if list != [] {
      var front, last := list[..|list| - 1], list[|list| - 1];
      RestoreTableFinds(front);
      forall id | id in RestoreTable(list) ensures exists i :: 0 <= i < |list| && list[i].id == id {
        if id == last.id {
          assert list[|list| - 1].id == id;
        } else {
          assert id in RestoreTable(front);
          var i :| 0 <= i < |front| && front[i].id == id;
          assert list[i].id == id;
        }
      }
    }
  }

  /** The inode with all block slots of its file in place, and nothing else changed. */
  function Filled(inode: Inode): Inode {
    match inode.content
    case File(e) => inode.(content := File(Extent(e.bytes, Ceil(|e.bytes|))))
    case Dir(_) => inode
  }

  lemma RestoredInode(id: nat, inode: Inode)
    requires SoundInode(inode)
    ensures RestoreInode(SnapInode(id, inode)) == Filled(inode) && SoundInode(Filled(inode))
  {
    if inode.content.File? {
      MaterializedIsFlat(inode.content.extent);
      RebuiltIsComplete(inode.content.extent.bytes);
    }
    hide Rebuilt;
    hide Materialized;
    hide Sparse;
  }

  /** What comes back is the same table, every file with all its slots. */
  lemma RestoreUndoesSnapshot(s: FsState, list: seq<InodeSnapshot>)
    requires Inv(s) && Lists(list, s.inodes)
    ensures RestoreTable(list) == map id | id in s.inodes :: Filled(s.inodes[id])
  {
    var restored := RestoreTable(list);
    RestoreTableFinds(list);
    forall id | id in s.inodes ensures id in restored && restored[id] == Filled(s.inodes[id]) {
      var i :| 0 <= i < |list| && list[i].id == id;
      RestoredInode(id, s.inodes[id]);
    }
    hide RestoreInode;
    hide SnapInode;
    hide Filled;
    hide Tree;
  }

  /** The filesystem that `FromSnapshot` builds from a snapshot of `s`. */
  function Restored(s: FsState, clock: nat): FsState {
    FsState(s.nextInode, 3, map[], map id | id in s.inodes :: Filled(s.inodes[id]), s.root, clock)
  }

  /** Saving a filesystem and building a new one from what was saved. */
  method SaveAndRestore(fs: Fs, clock: nat) returns (restored: Fs)
    requires fs.Valid()
    ensures fresh(restored) && restored.Valid() && restored.State() == Restored(fs.State(), clock)
  {
    hide Inv;
    hide Lists;
    hide RestoreTable;
    hide Filled;
    var snap := ToSnapshot(fs);
    ghost var saved := fs.State();
    RestoreUndoesSnapshot(saved, snap.inodes);
    FilledKeeps(saved, clock);
    restored := FromSnapshot(snap, clock);
    assert restored.State() == Restored(saved, clock);
  }

  /** The restored filesystem is sound, every path leads where it led, metadata and
      bytes are the same, and every read of a file is complete. */
  lemma RoundTrip(s: FsState, list: seq<InodeSnapshot>, clock: nat)
    requires Inv(s) && Lists(list, s.inodes)
    ensures RestoreTable(list) == Restored(s, clock).inodes && Inv(Restored(s, clock))
    ensures forall p :: Resolve(RestoreTable(list), s.root, p) == Resolve(s.inodes, s.root, p)
    ensures forall id :: id in s.inodes ==>
              && id in RestoreTable(list) && RestoreTable(list)[id].meta == s.inodes[id].meta
              && (s.inodes[id].content.Dir? ==> RestoreTable(list)[id] == s.inodes[id])
    ensures forall id :: id in s.inodes && s.inodes[id].content.File? ==> FullyReadable(RestoreTable(list)[id].content, s.inodes[id].content.extent.bytes)
  {
    RestoreUndoesSnapshot(s, list);
    var after := Restored(s, clock).inodes;
    hide RestoreTable;
    hide Lists;
    assert SameShape(s.inodes, after);
    forall p ensures Resolve(after, s.root, p) == Resolve(s.inodes, s.root, p) {
      SameShapeResolves(s.inodes, after, s.root, p);
    }
    FilledKeeps(s, clock);
    forall id | id in s.inodes && s.inodes[id].content.File?
      ensures FullyReadable(after[id].content, s.inodes[id].content.extent.bytes)
    {
      RebuiltIsComplete(s.inodes[id].content.extent.bytes);
    }
    hide Inv;
  }

  ghost predicate FullyReadable(content: Content, bytes: seq<byte>) {
    && content.File? && content.extent.bytes == bytes
    && forall offset, len :: ReadAt(content.extent, offset, len) == FlatSlice(bytes, offset, len)
  }

  lemma FilledKeeps(s: FsState, clock: nat)
    requires Inv(s)
    ensures Inv(Restored(s, clock))
  {
    var after := Restored(s, clock).inodes;
    assert SameShape(s.inodes, after);
    assert Tree(after, s.root) by {
      hide Entry;
      hide IsDir;
    }
    forall id | id in after ensures SoundInode(after[id]) {
      RestoredInode(id, s.inodes[id]);
    }
    hide Tree;
  }
}
