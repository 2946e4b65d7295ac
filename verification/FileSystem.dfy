// myfilesystem.c: the file system over its three buffers and two arrays. Each
// method does to the snapshot of the object what the function of Model does.
module FileSystem {
  import opened Structs
  import opened Bytes
  import opened Memory
  import opened Search
  import opened Arrays
  import opened Model
  import opened Layouts
  import opened Soundness
  import opened HeapFacts
  import HashTree
  import Dir = Directory

  function BlankViews(files: seq<File>): (r: seq<Entry>)
    reads files
    ensures |r| == |files|
    ensures forall i :: 0 <= i < |files| ==> r[i] == Blank(files[i].View())
  {
    seq(|files|, i requires 0 <= i < |files| reads files => Blank(files[i].View()))
  }

  twostate lemma ViewsKept(files: seq<File>)
    requires forall i :: 0 <= i < |files| ==> files[i].View() == old(files[i].View())
    ensures Views(files) == old(Views(files)) && BlankViews(files) == old(BlankViews(files))
  {
  }

  lemma ViewsInserted(files: seq<File>, p: nat, g: File)
    requires p <= |files|
    ensures Views(Inserted(files, p, g)) == Inserted(Views(files), p, g.View())
    ensures BlankViews(Inserted(files, p, g)) == Inserted(BlankViews(files), p, Blank(g.View()))
  {
  }

  lemma ViewsRemoved(files: seq<File>, p: nat)
    requires p < |files|
    ensures Views(Removed(files, p)) == Removed(Views(files), p)
    ensures BlankViews(Removed(files, p)) == Removed(BlankViews(files), p)
  {
  }

  /** filesys_t */
  class FileSys {
    const file: array<byte>
    const dir: array<byte>
    const hash: array<byte>
    const index: array<byte>
    const leafOffset: nat
    const oList: Arr
    const nList: Arr
    var used: int
    var indexCount: int

    /** init_fs, from the three mapped files on. Both arrays hold the same files if no insertion found its key taken. */
    constructor (file: array<byte>, dir: array<byte>, hash: array<byte>)
      requires file != dir && file != hash && dir != hash && dir.Length / META_LEN <= MAX_NUM_FILES
      ensures this.file == file && this.dir == dir && this.hash == hash
      ensures Shape() && Snapshot() == Load(file[..], dir[..], hash[..])
      ensures Loaded()
    {
      this.file := file;
      this.dir := dir;
      this.hash := hash;
      leafOffset := hash.Length / HASH_LEN / 2;
      var indexLen := dir.Length / META_LEN;
      index := new byte[indexLen](i => 0);
      var filler := new File([], 0, 0, 0);
      oList := new Arr(indexLen, OFFSET, filler);
      nList := new Arr(indexLen, NAME, filler);
      used := 0;
      indexCount := 0;
      new;
      hide Shape, Snapshot, Loaded, LoadFrom, Unloaded, Arr.Valid;
      StartsUnloaded();
      Scan();
    }

    /** The scan of dir_table. */
    method Scan()
      requires Shape() && Loaded() && META_LEN * index.Length <= dir.Length && oList.size == nList.size == 0
      modifies this, index, oList, nList, oList.list, nList.list
      ensures Shape() && Loaded()
      ensures Snapshot() == LoadFrom(old(Snapshot()), 0)
    {
      hide LoadSlot, Shape, Snapshot, Loaded;
      SnapshotSizes();
      var i := 0;
      while i < index.Length
        invariant 0 <= i <= index.Length && Shape() && Loaded()
        invariant oList.size <= i && nList.size <= i && oList.list.Length == nList.list.Length == index.Length
        invariant forall k :: 0 <= k < oList.size ==> fresh(oList.Files()[k])
        invariant forall k :: 0 <= k < nList.size ==> fresh(nList.Files()[k])
        invariant LoadFrom(Snapshot(), i) == LoadFrom(old(Snapshot()), 0)
      {
        SnapshotSizes();
        ghost var found := LoadRecord(i);
        assert forall k :: 0 <= k < oList.size ==> oList.Files()[k] in oList.Files();
        assert forall k :: 0 <= k < nList.size ==> nList.Files()[k] in nList.Files();
        i := i + 1;
      }
      SnapshotParts();
    }

    lemma StartsUnloaded()
      requires Apart() && oList.Valid() && nList.Valid() && oList.size == nList.size == 0 && used == indexCount == 0
      requires index.Length == dir.Length / META_LEN && forall i :: 0 <= i < index.Length ==> index[i] == 0
      ensures Shape() && META_LEN * index.Length <= dir.Length
      ensures Snapshot() == Unloaded(file[..], dir[..], hash[..]) && Loaded()
    {
    }

    /** When both arrays have grown with every file found, they hold the same files. */
    ghost predicate Loaded()
      reads this, oList, nList, oList.list, nList.list
    {
      && oList.size <= indexCount && nList.size <= indexCount
      && (oList.size == nList.size == indexCount ==> Cross())
    }

    /** The parts are separate objects. */
    ghost predicate Apart() {
      && file != dir && file != hash && file != index && dir != hash && dir != index && hash != index
      && oList != nList && oList.list != nList.list
      && oList.kind == OFFSET && nList.kind == NAME
      && leafOffset == hash.Length / HASH_LEN / 2
      && oList.list.Length == nList.list.Length == index.Length
    }

    /** The parts are separate and the two arrays are consistent. */
    ghost predicate Shape()
      reads oList, nList, oList.list, nList.list, oList.list[..], nList.list[..]
    {
      Apart() && oList.Valid() && nList.Valid()
    }

    ghost function Snapshot(): State
      requires Shape()
      reads this, file, dir, hash, index, oList, nList, oList.list, nList.list, oList.list[..], nList.list[..]
    {
      State(Views(oList.Files()), BlankViews(nList.Files()), file[..], dir[..], hash[..], index[..], used, indexCount)
    }

    /** Both arrays hold the same file objects. */
    ghost predicate Cross()
      reads oList, nList, oList.list, nList.list
    {
      && oList.size <= oList.list.Length && nList.size <= nList.list.Length
      && (forall f :: f in oList.Files() ==> f in nList.Files())
      && (forall f :: f in nList.Files() ==> f in oList.Files())
    }

    ghost predicate Valid()
      reads this, file, dir, hash, index, oList, nList, oList.list, nList.list, oList.list[..], nList.list[..]
    {
      Shape() && Cross() && Invariants.Inv(Snapshot())
    }

    /** What every method but the constructor needs: files may overlap, and names may be out of order. */
    ghost predicate Usable()
      reads this, file, dir, hash, index, oList, nList, oList.list, nList.list, oList.list[..], nList.list[..]
    {
      Shape() && Cross() && Sound(Snapshot())
    }

    lemma ValidIsUsable()
      requires Valid()
      ensures Usable()
    {
      hide Sound, Invariants.Inv;
      InvIsSound(Snapshot());
    }

    // What the snapshot says about the parts

    lemma SnapshotParts()
      requires Shape()
      ensures var s := Snapshot();
              && s.data == file[..] && s.dir == dir[..] && s.hash == hash[..] && s.slots == index[..]
              && s.used == used && s.count == indexCount
              && |s.o| == oList.size <= oList.list.Length && |s.n| == nList.size <= nList.list.Length
              && s.o == Views(oList.Files()) && s.n == BlankViews(nList.Files())
              && s.Leaf() == leafOffset && Apart()
    {
    }

    lemma SnapshotSizes()
      requires Shape()
      ensures var s := Snapshot();
              && |s.data| == file.Length && |s.dir| == dir.Length && |s.hash| == hash.Length && |s.slots| == index.Length
              && s.used == used && s.count == indexCount && s.Leaf() == leafOffset && Apart()
              && |s.o| == oList.size <= oList.list.Length && |s.n| == nList.size <= nList.list.Length
    {
    }

    lemma FileAt(i: nat)
      requires Shape() && i < oList.size
      ensures i < oList.list.Length && i < |Snapshot().o|
      ensures Snapshot().o[i] == oList.list[i].View() && oList.list[i].oIndex == i && oList.list[i] in oList.Files()
    {
      assert oList.Position(oList.list[i]) == i;
    }

    /** A file of the name array knows its places in both arrays. */
    lemma Places(f: File)
      requires Shape() && Cross() && f in nList.Files()
      ensures 0 <= f.oIndex < oList.size <= oList.list.Length && oList.list[f.oIndex] == f
      ensures 0 <= f.nIndex < nList.size <= nList.list.Length && nList.list[f.nIndex] == f
      ensures |Snapshot().o| == oList.size && Snapshot().o[f.oIndex] == f.View()
      ensures |Snapshot().n| == nList.size && Snapshot().n[f.nIndex] == Blank(f.View())
    {
      var i :| 0 <= i < oList.size && oList.list[i] == f;
      assert oList.Position(oList.list[i]) == i;
      var j :| 0 <= j < nList.size && nList.list[j] == f;
      assert nList.Position(nList.list[j]) == j;
    }

    // Single steps on the parts

    /** update_dir_offset */
    method UpdateDirOffset(f: File)
      requires META_LEN * f.index + META_LEN <= dir.Length
      modifies dir
      ensures dir[..] == Dir.SetOffset(old(dir[..]), f.View())
    {
      if f.offset >= MAX_FILE_DATA_LEN {
        MemCopy(dir, f.index * META_LEN + NAME_LEN, Le32(0));
      } else {
        MemCopy(dir, f.index * META_LEN + NAME_LEN, Le32(f.offset));
      }
    }

    /** update_dir_length */
    method UpdateDirLength(f: File)
      requires META_LEN * f.index + META_LEN <= dir.Length
      modifies dir
      ensures dir[..] == Dir.SetLength(old(dir[..]), f.View())
    {
      MemCopy(dir, f.index * META_LEN + NAME_LEN + OFFSET_LEN, Le32(f.length));
    }

    /** update_dir_name */
    method UpdateDirName(f: File)
      requires META_LEN * f.index + META_LEN <= dir.Length && |f.name| < NAME_LEN
      modifies dir
      ensures dir[..] == Dir.SetName(old(dir[..]), f.View())
    {
      MemCopy(dir, f.index * META_LEN, f.name + [0]);
    }

    /** write_dir_file */
    method WriteDirFile(f: File)
      requires META_LEN * f.index + META_LEN <= dir.Length && |f.name| < NAME_LEN
      modifies dir
      ensures dir[..] == Dir.WriteRecord(old(dir[..]), f.View())
    {
      hide Dir.SetName, Dir.SetOffset, Dir.SetLength;
      UpdateDirName(f);
      UpdateDirOffset(f);
      UpdateDirLength(f);
    }

    /** compute_hash_block_range on the buffers of the file system. */
    method RehashRange(offset: nat, length: int)
      requires Shape() && HashTree.Sized(file[..], hash[..], leafOffset)
      requires length > 0 ==> offset + length <= file.Length
      modifies hash
      ensures Shape()
      ensures Snapshot() == Model.Rehash(old(Snapshot()), offset, length)
    {
      hide HashTree.Rehash;
      HashTree.ComputeHashBlockRange(offset, length, file, hash, leafOffset);
    }

    /** memcpy of a buffer into file_data. */
    method CopyIn(at: nat, buf: seq<byte>)
      requires Shape() && at + |buf| <= file.Length
      modifies file
      ensures Shape()
      ensures Snapshot() == old(Snapshot()).(data := Overwrite(old(Snapshot()).data, at, buf))
    {
      hide Overwrite;
      MemCopy(file, at, buf);
    }

    /** write_null_byte into file_data. */
    method ZeroFill(at: nat, count: nat)
      requires Shape() && at + count <= file.Length < MAX_FILE_DATA_LEN
      modifies file
      ensures Shape()
      ensures Snapshot() == old(Snapshot()).(data := Overwrite(old(Snapshot()).data, at, Zeros(count)))
    {
      hide Overwrite;
      var _ := WriteNullByte(file, at, count);
    }

    method AddUsed(delta: int)
      requires Shape()
      modifies `used
      ensures Shape()
      ensures Snapshot() == old(Snapshot()).(used := old(Snapshot()).used + delta)
    {
      used := used + delta;
    }

    /** The name array is as before when only positions in the offset array changed. */
    twostate lemma NamesKept(names: seq<File>)
      requires old(nList.Valid()) && unchanged(nList, nList.list) && names == nList.Files()
      requires forall f :: f in names ==> nList.Position(f) == old(nList.Position(f)) && f.View() == old(f.View())
      ensures nList.Valid() && BlankViews(nList.Files()) == old(BlankViews(nList.Files()))
    {
      ViewsKept(names);
      forall j | 0 <= j < nList.size ensures nList.Position(nList.list[j]) == j {
        assert nList.list[j] == names[j];
      }
    }

    /** The offset array is as before when only positions in the name array changed. */
    twostate lemma OffsetsKept(files: seq<File>)
      requires old(oList.Valid()) && unchanged(oList, oList.list) && files == oList.Files()
      requires forall f :: f in files ==> oList.Position(f) == old(oList.Position(f)) && f.View() == old(f.View())
      ensures oList.Valid() && Views(oList.Files()) == old(Views(oList.Files()))
    {
      ViewsKept(files);
      forall i | 0 <= i < oList.size ensures oList.Position(oList.list[i]) == i {
        assert oList.list[i] == files[i];
      }
    }

    /** What arr_sorted_insert leaves of the offset array, the rest being as in s. */
    lemma OffsetInserted(s: State, files: seq<File>, g: File)
      requires Apart() && oList.Valid() && nList.Valid()
      requires var p := GetIndex(g.View(), s.o, OFFSET, true);
               p <= |files| && oList.Files() == if p < 0 then files else Inserted(files, p, g)
      requires Views(files) == s.o && BlankViews(nList.Files()) == s.n
      requires s.data == file[..] && s.dir == dir[..] && s.hash == hash[..] && s.slots == index[..]
      requires s.used == used && s.count == indexCount
      ensures Shape() && Snapshot() == s.(o := InsertEntry(s.o, g.View()))
    {
      hide GetIndex;
      var p := GetIndex(g.View(), s.o, OFFSET, true);
      if p >= 0 {
        ViewsInserted(files, p, g);
      }
    }

    /** The insertion of a file into the offset array, unless its key is taken. */
    method InsertByOffset(g: File)
      requires Shape() && oList.size < oList.list.Length && g !in oList.Files()
      modifies oList, oList.list, oList.Files()`oIndex, oList.Files()`nIndex, g`oIndex, g`nIndex
      ensures Shape()
      ensures var p := GetIndex(old(g.View()), old(Snapshot()).o, OFFSET, true);
              oList.Files() == if p < 0 then old(oList.Files()) else Inserted(old(oList.Files()), p, g)
      ensures Snapshot() == old(Snapshot()).(o := InsertEntry(old(Snapshot()).o, old(g.View())))
    {
      hide GetIndex, Arr.Valid, Snapshot, Views, BlankViews, InsertEntry;
      SnapshotParts();
      ghost var s, files, names := Snapshot(), oList.Files(), nList.Files();
      var _ := oList.SortedInsert(g);
      oList.Bounds();
      forall f | f in names ensures nList.Position(f) == old(nList.Position(f)) {
        if f in files || f == g {
          assert oList.OtherPosition(f) == old(oList.OtherPosition(f));
        }
      }
      NamesKept(names);
      ViewsKept(files);
      OffsetInserted(s, files, g);
    }

    /** What arr_sorted_insert leaves of the name array, the rest being as in s. */
    lemma NameInserted(s: State, names: seq<File>, g: File)
      requires Apart() && oList.Valid() && nList.Valid()
      requires var p := GetIndex(g.View(), Views(names), NAME, true);
               p <= |names| && nList.Files() == if p < 0 then names else Inserted(names, p, g)
      requires Views(oList.Files()) == s.o && BlankViews(names) == s.n
      requires s.data == file[..] && s.dir == dir[..] && s.hash == hash[..] && s.slots == index[..]
      requires s.used == used && s.count == indexCount
      ensures Shape() && Snapshot() == s.(n := InsertName(s.n, g.View()))
      ensures GetIndex(g.View(), Views(names), NAME, true) == GetIndex(g.View(), s.n, NAME, true)
    {
      hide GetIndex;
      SameNamesSameIndex(g.View(), g.View(), Views(names), s.n, true);
      var p := GetIndex(g.View(), s.n, NAME, true);
      if p >= 0 {
        ViewsInserted(names, p, g);
      }
    }

    /** The insertion of a file into the name array, unless its name is taken. */
    method InsertByName(g: File)
      requires Shape() && nList.size < nList.list.Length && g !in nList.Files()
      modifies nList, nList.list, nList.Files()`oIndex, nList.Files()`nIndex, g`oIndex, g`nIndex
      ensures Shape()
      ensures var p := GetIndex(old(g.View()), old(Snapshot()).n, NAME, true);
              nList.Files() == if p < 0 then old(nList.Files()) else Inserted(old(nList.Files()), p, g)
      ensures Snapshot() == old(Snapshot()).(n := InsertName(old(Snapshot()).n, old(g.View())))
    {
      hide GetIndex, Arr.Valid, Snapshot, Views, BlankViews, InsertName;
      SnapshotParts();
      ghost var s, files, names := Snapshot(), oList.Files(), nList.Files();
      var _ := nList.SortedInsert(g);
      nList.Bounds();
      forall f | f in files ensures oList.Position(f) == old(oList.Position(f)) {
        if f in names || f == g {
          assert nList.OtherPosition(f) == old(nList.OtherPosition(f));
        }
      }
      OffsetsKept(files);
      ViewsKept(names);
      NameInserted(s, names, g);
    }

    /** What arr_remove leaves of the offset array, the rest being as in s. */
    lemma OffsetRemoved(s: State, files: seq<File>, i: nat)
      requires Apart() && oList.Valid() && nList.Valid() && i < |files| && oList.Files() == Removed(files, i)
      requires Views(files) == s.o && BlankViews(nList.Files()) == s.n
      requires s.data == file[..] && s.dir == dir[..] && s.hash == hash[..] && s.slots == index[..]
      requires s.used == used && s.count == indexCount
      ensures i < |s.o| && Shape() && Snapshot() == s.(o := Removed(s.o, i))
    {
      ViewsRemoved(files, i);
    }

    /** arr_remove from the offset array. */
    method RemoveByOffset(i: nat) returns (f: File)
      requires Shape() && i < oList.size
      modifies oList, oList.list, oList.Files()`oIndex, oList.Files()`nIndex
      ensures Shape() && f == old(oList.Files()[i])
      ensures oList.Files() == Removed(old(oList.Files()), i)
      ensures Snapshot() == old(Snapshot()).(o := Removed(old(Snapshot()).o, i))
    {
      hide Arr.Valid, Snapshot, Views, BlankViews;
      SnapshotParts();
      ghost var s, files, names := Snapshot(), oList.Files(), nList.Files();
      f := oList.Remove(i);
      oList.Bounds();
      forall f | f in names ensures nList.Position(f) == old(nList.Position(f)) {
        if f in files {
          assert oList.OtherPosition(f) == old(oList.OtherPosition(f));
        }
      }
      NamesKept(names);
      ViewsKept(files);
      OffsetRemoved(s, files, i);
    }

    /** What arr_remove leaves of the name array, the rest being as in s. */
    lemma NameRemoved(s: State, names: seq<File>, j: nat)
      requires Apart() && oList.Valid() && nList.Valid() && j < |names| && nList.Files() == Removed(names, j)
      requires Views(oList.Files()) == s.o && BlankViews(names) == s.n
      requires s.data == file[..] && s.dir == dir[..] && s.hash == hash[..] && s.slots == index[..]
      requires s.used == used && s.count == indexCount
      ensures j < |s.n| && Shape() && Snapshot() == s.(n := Removed(s.n, j))
    {
      ViewsRemoved(names, j);
    }

    /** arr_remove from the name array. */
    method RemoveByName(j: nat) returns (f: File)
      requires Shape() && j < nList.size
      modifies nList, nList.list, nList.Files()`oIndex, nList.Files()`nIndex
      ensures Shape() && f == old(nList.Files()[j])
      ensures nList.Files() == Removed(old(nList.Files()), j)
      ensures Snapshot() == old(Snapshot()).(n := Removed(old(Snapshot()).n, j))
    {
      hide Arr.Valid, Snapshot, Views, BlankViews;
      SnapshotParts();
      ghost var s, files, names := Snapshot(), oList.Files(), nList.Files();
      f := nList.Remove(j);
      nList.Bounds();
      forall f | f in files ensures oList.Position(f) == old(oList.Position(f)) {
        if f in names {
          assert nList.OtherPosition(f) == old(nList.OtherPosition(f));
        }
      }
      OffsetsKept(files);
      ViewsKept(names);
      NameRemoved(s, names, j);
    }

    // Compaction

    /** repack_move */
    method RepackMove(f: File, newOffset: nat)
      requires META_LEN * f.index + META_LEN <= dir.Length && file != dir
      requires f.length > 0 ==> f.offset + f.length <= file.Length && newOffset + f.length <= file.Length
      modifies file, dir, f`offset
      ensures f.offset == newOffset
      ensures file[..] == MoveData(old(file[..]), old(f.View()), newOffset)
      ensures dir[..] == Dir.SetOffset(old(dir[..]), f.View())
    {
      hide Dir.SetOffset;
      if f.length > 0 {
        MemMove(file, newOffset, f.offset, f.length);
      }
      f.offset := newOffset;
      UpdateDirOffset(f);
    }

    /** repack_move of the file at position i of the offset array. */
    method MoveAt(i: nat, newOffset: nat)
      requires Shape() && i < oList.size && RecordsFit(Snapshot())
      requires var e := Snapshot().o[i];
               e.length > 0 ==> End(e) <= file.Length && newOffset + e.length <= file.Length
      modifies file, dir, oList.Files()`offset
      ensures Shape() && Snapshot() == Move(old(Snapshot()), i, newOffset)
    {
      hide MoveData, Dir.SetOffset;
      ghost var s := Snapshot();
      ghost var files, names := oList.Files(), nList.Files();
      FileAt(i);
      assert META_LEN * s.o[i].slot + META_LEN <= dir.Length;
      RepackMove(oList.list[i], newOffset);
      assert Views(files) == s.o[i := s.o[i].(offset := newOffset)] by {
        forall k | 0 <= k < |files| && k != i ensures files[k] != files[i] {
          assert oList.Position(files[k]) == k;
          assert oList.Position(files[i]) == i;
        }
      }
      assert BlankViews(names) == s.n;
    }

    /** The body of the loop of repack_helper: the file moves back to where the previous one ends, if it lies behind it. */
    method PackAt(i: nat, endPrevFile: nat, h: int) returns (hashOffset: int)
      requires Shape() && i < oList.size && RecordsFit(Snapshot()) && AllPlaced(Snapshot().o, file.Length)
      requires (i == 0 ==> endPrevFile == 0) && (i > 0 ==> Snapshot().o[i].offset < MAX_FILE_DATA_LEN)
      modifies file, dir, oList.Files()`offset
      ensures Shape() && RecordsFit(Snapshot()) && AllPlaced(Snapshot().o, file.Length) && |Snapshot().o| == oList.size
      ensures var r := PackOne(old(Snapshot()), i, endPrevFile, h); Snapshot() == r.0 && hashOffset == r.1
    {
      hide Move, AllPlaced, Shape, Snapshot, RecordsFit;
      SnapshotSizes();
      FileAt(i);
      hashOffset := h;
      var f := oList.list[i];
      PackOneFits(Snapshot(), i, endPrevFile, h);
      var isZeroSize := f.length == 0;
      if f.offset > endPrevFile {
        MoveAt(i, endPrevFile);
        if hashOffset < 0 && !isZeroSize {
          hashOffset := endPrevFile;
        }
      }
    }

    /** repack_helper */
    method RepackHelper() returns (hashOffset: int)
      requires Shape() && RecordsFit(Snapshot()) && AllPlaced(Snapshot().o, file.Length)
      modifies file, dir, oList.Files()`offset
      ensures Shape() && Snapshot() == Model.Repack(old(Snapshot())).0 && hashOffset == Model.Repack(old(Snapshot())).1
    {
      hide AllPlaced, RepackFrom, PackOne, Model.Repack, Shape, Snapshot, RecordsFit;
      ghost var s0 := Snapshot();
      SnapshotSizes();
      RepackStart(s0);
      if used <= 0 || oList.size <= 0 {
        return -1;
      }
      hashOffset := PackAt(0, 0, -1);
      var i := 1;
      while i < oList.size
        invariant 1 <= i <= oList.size == |s0.o| && Shape()
        invariant RecordsFit(Snapshot()) && AllPlaced(Snapshot().o, file.Length)
        invariant |Snapshot().o| == |s0.o| && RepackFrom(Snapshot(), i, hashOffset) == Model.Repack(s0)
      {
        FileAt(i);
        FileAt(i - 1);
        var startCurrFile := oList.list[i].offset;
        var endPrevFile := oList.list[i - 1].offset + oList.list[i - 1].length;
        RepackFromStep(Snapshot(), i, hashOffset);
        if startCurrFile >= MAX_FILE_DATA_LEN {
          break;
        }
        hashOffset := PackAt(i, endPrevFile, hashOffset);
        i := i + 1;
      }
      RepackFromStep(Snapshot(), i, hashOffset);
    }

    // Placement

    /** The pointer f is that of position r in o, or null at the end. */
    ghost predicate PointsAt(f: File?, o: seq<Entry>, r: nat)
      reads f
    {
      r <= |o| && if r == |o| then f == null else f != null && f.oIndex == r && f.View() == o[r]
    }

    /** find_next_nonzero_file */
    method FindNextNonzeroFile(start: nat) returns (f: File?)
      requires oList.Valid() && oList.kind == OFFSET && start <= oList.size
      ensures var r := NextNonzero(Views(oList.Files()), start);
              PointsAt(f, Views(oList.Files()), r) && (f != null ==> f == oList.list[r])
    {
      ghost var o := Views(oList.Files());
      ghost var r := NextNonzero(o, start);
      var i := start;
      while i < oList.size
        invariant start <= i <= oList.size
        invariant r == NextNonzero(o, i)
      {
        assert o[i] == oList.list[i].View() && oList.Position(oList.list[i]) == i;
        if oList.list[i].offset >= MAX_FILE_DATA_LEN {
          break;
        }
        if oList.list[i].length > 0 {
          return oList.list[i];
        }
        i := i + 1;
      }
      return null;
    }

    /** new_file_index; the assertion at its end holds when some slot is free. */
    method NewFileIndex() returns (slot: int)
      requires FreeSlot(index[..]) < index.Length
      ensures slot == FreeSlot(index[..])
    {
      ghost var slots := index[..];
      slot := -1;
      var i := 0;
      while i < index.Length
        invariant 0 <= i <= index.Length && slot == -1
        invariant forall k :: 0 <= k < i ==> slots[k] != 0
      {
        if index[i] == 0 {
          FreeSlotIs(slots, i);
          slot := i;
          break;
        }
        i := i + 1;
      }
      assert slot >= 0 by {
        assert slots[FreeSlot(slots)] == 0;
      }
    }

    /** The part of new_file_offset before the repack: the offset it returns, or -1 when it goes on. */
    method SearchGap(length: nat) returns (offset: int)
      requires oList.Valid() && oList.kind == OFFSET
      ensures offset == FreeOffset(Views(oList.Files()), file.Length, length)
    {
      hide Minus64, NextNonzero, FirstGap, FreeOffset, Views, Arr.Position;
      ghost var o := Views(oList.Files());
      FreeOffsetStart(o, file.Length, length);
      if length == 0 {
        return MAX_FILE_DATA_LEN;
      }
      ghost var p, c;
      var first: File?, curr: File?;
      first := FindNextNonzeroFile(0);
      p := NextNonzero(o, 0);
      if oList.size <= 0 || first == null || first.offset >= length {
        return 0;
      }
      var prev: File := first;
      var searchIndex := first.oIndex + 1;
      curr := FindNextNonzeroFile(searchIndex);
      c := NextNonzero(o, searchIndex);
      while curr != null
        invariant 0 <= p < |o| && prev.View() == o[p]
        invariant p < c <= |o| && c == NextNonzero(o, p + 1) && PointsAt(curr, o, c)
        invariant FirstGap(o, file.Length, length, p) == FreeOffset(o, file.Length, length)
        decreases |o| - p
      {
        FirstGapStep(o, file.Length, length, p);
        var startCurrFile := curr.offset;
        var endPrevFile := prev.offset + prev.length;
        if Minus64(startCurrFile, endPrevFile) >= length {
          return endPrevFile;
        }
        prev := curr;
        p := c;
        searchIndex := curr.oIndex + 1;
        curr := FindNextNonzeroFile(searchIndex);
        c := NextNonzero(o, searchIndex);
      }
      FirstGapStep(o, file.Length, length, p);
      var endLastFile := prev.offset + prev.length;
      if Minus64(file.Length, endLastFile) >= length {
        return endLastFile;
      }
      return -1;
    }

    /** new_file_offset; the first two conditions are the source's assertions. */
    method NewFileOffset(length: nat) returns (offset: nat, hashOffset: int)
      requires length <= file.Length && used + length <= file.Length
      requires Shape() && RecordsFit(Snapshot()) && AllPlaced(Snapshot().o, file.Length)
      modifies file, dir, oList.Files()`offset
      ensures Shape()
      ensures var p := NewOffset(old(Snapshot()), length); Snapshot() == p.s && offset == p.offset && hashOffset == p.h
    {
      hide Model.Repack, AllPlaced, FreeOffset, RecordsFit;
      SnapshotSizes();
      var free := SearchGap(length);
      if free >= 0 {
        return free, -1;
      }
      hashOffset := RepackHelper();
      SnapshotSizes();
      offset := if used >= 0 then used else 0;
    }

    // Operations

    /** The lookup by name that begins every operation. */
    method Find(filename: seq<byte>) returns (f: File?)
      requires Usable()
      ensures f == null <==> Lookup(Snapshot(), filename) < 0
      ensures f != null ==> f in nList.Files() && f.oIndex == Lookup(Snapshot(), filename)
    {
      hide Sound, GetIndex, Snapshot, PosOfSlot;
      ghost var s := Snapshot();
      var key := NameKey(Truncate(filename));
      f := nList.GetByKey(key, file.Length);
      ghost var j := GetIndex(key, Views(nList.Files()), NAME, false);
      assert s.n == BlankViews(nList.Files()) by {
        NamesOfSnapshot();
      }
      SameNamesSameIndex(key, key, Views(nList.Files()), s.n, false);
      if key.name != [] && j >= 0 {
        Places(f);
        SlotPosition(s, f.oIndex);
      }
    }

    lemma NamesOfSnapshot()
      requires Shape()
      ensures Snapshot().n == BlankViews(nList.Files())
    {
    }

    /** file_size, -1 if the file does not exist */
    method FileSize(filename: seq<byte>) returns (length: int)
      requires Usable()
      ensures length == Size(Snapshot(), filename)
    {
      hide Sound, Lookup, Snapshot;
      var f := Find(filename);
      if f == null {
        return -1;
      }
      Places(f);
      return f.length;
    }

    /** read_file; buf is what is copied out, [] unless the result is 0. */
    method ReadFile(filename: seq<byte>, offset: nat, count: nat) returns (code: int, buf: seq<byte>)
      requires Usable()
      ensures (code, buf) == Read(Snapshot(), filename, offset, count)
    {
      hide Sound, Lookup, HashTree.Verified, Snapshot, Shape, Cross;
      ghost var s := Snapshot();
      SoundFacts(s);
      SnapshotParts();
      var f := Find(filename);
      if f == null {
        return 1, [];
      }
      Places(f);
      if offset + count > f.length {
        return 2, [];
      }
      EndInStore(s, f.oIndex);
      var r := HashTree.VerifyHashRange(f.offset + offset, count, file, hash, leafOffset);
      if r != 0 {
        return 3, [];
      }
      if count == 0 {
        return 0, [];
      }
      return 0, file[f.offset + offset..f.offset + offset + count];
    }

    /** repack */
    method Repack()
      requires Usable()
      modifies file, dir, hash, oList.Files()`offset
      ensures Shape() && Cross() && Snapshot() == RepackAll(old(Snapshot()))
    {
      hide Sound, Model.Repack, Model.Rehash, Snapshot, Shape, Cross;
      ghost var s := Snapshot();
      SoundFacts(s);
      SnapshotSizes();
      RepackFits(s);
      var hashOffset := RepackHelper();
      if hashOffset >= 0 {
        RehashRange(hashOffset, used - hashOffset);
      }
    }

    // create_file

    lemma CrossInserted(files: seq<File>, names: seq<File>, p: nat, q: nat, g: File)
      requires Shape() && p <= |files| && q <= |names|
      requires oList.Files() == Inserted(files, p, g) && nList.Files() == Inserted(names, q, g)
      requires forall f :: f in files <==> f in names
      ensures Cross()
    {
      MembersInserted(files, p, g);
      MembersInserted(names, q, g);
    }

    /** The two insertions of a new file; the arrays hold the same files if both take it. */
    method InsertBoth(g: File)
      requires Shape() && Cross() && g !in oList.Files() && g !in nList.Files()
      requires oList.size < index.Length && nList.size < index.Length
      modifies oList, nList, oList.list, nList.list, g`oIndex, g`nIndex
      modifies oList.Files()`oIndex, oList.Files()`nIndex, nList.Files()`oIndex, nList.Files()`nIndex
      ensures Shape()
      ensures var (s, e) := (old(Snapshot()), old(g.View()));
              && Snapshot() == s.(o := InsertEntry(s.o, e), n := InsertName(s.n, e))
              && (GetIndex(e, s.o, OFFSET, true) >= 0 && GetIndex(e, s.n, NAME, true) >= 0 ==> Cross())
    {
      hide GetIndex, InsertEntry, InsertName, Shape, Cross, Snapshot;
      SnapshotParts();
      ghost var s, e := Snapshot(), g.View();
      ghost var files, names := oList.Files(), nList.Files();
      ghost var p, q := GetIndex(e, s.o, OFFSET, true), GetIndex(e, s.n, NAME, true);
      CrossMembers();
      InsertByOffset(g);
      assert Snapshot().n == s.n && nList.Files() == names && g.View() == e;
      InsertByName(g);
      if p >= 0 && q >= 0 {
        CrossInserted(files, names, p, q, g);
      }
    }

    /** A new file goes into both arrays, its record and the slot map. */
    method AddNewFile(g: File)
      requires Shape() && Cross() && g !in oList.Files() && g !in nList.Files()
      requires oList.size < index.Length && nList.size < index.Length
      requires g.index < index.Length && META_LEN * index.Length <= dir.Length && |g.name| < NAME_LEN
      modifies `indexCount, dir, index, oList, nList, oList.list, nList.list, g`oIndex, g`nIndex
      modifies oList.Files()`oIndex, oList.Files()`nIndex, nList.Files()`oIndex, nList.Files()`nIndex
      ensures Shape()
      ensures var (s, e) := (old(Snapshot()), old(g.View()));
              && Snapshot() == AddFile(s, e)
              && (GetIndex(e, s.o, OFFSET, true) >= 0 && GetIndex(e, s.n, NAME, true) >= 0 ==> Cross())
    {
      hide GetIndex, Dir.WriteRecord, InsertEntry, InsertName, Shape, Cross, Snapshot;
      SnapshotSizes();
      InsertBoth(g);
      RecordNewFile(g);
    }

    lemma CrossMembers()
      requires Shape() && Cross()
      ensures forall f :: f in oList.Files() <==> f in nList.Files()
    {
    }

    method RecordNewFile(g: File)
      requires Shape() && g.index < index.Length && META_LEN * index.Length <= dir.Length && |g.name| < NAME_LEN
      modifies `indexCount, dir, index
      ensures Shape()
      ensures var s := old(Snapshot());
              Snapshot() == s.(dir := Dir.WriteRecord(s.dir, g.View()), slots := s.slots[g.index := 1], count := s.count + 1)
    {
      hide Dir.WriteRecord;
      WriteDirFile(g);
      index[g.index] := 1;
      indexCount := indexCount + 1;
    }

    /** The middle of create_file: a slot, a place, and the new file in both arrays. */
    method PlaceNewFile(filename: seq<byte>, length: nat) returns (offset: nat, hashOffset: int)
      requires Usable() && Creates(Snapshot(), filename, length)
      modifies `indexCount, file, dir, index, oList, nList, oList.list, nList.list, oList.Files(), nList.Files()
      ensures Shape() && (NewKeysFree(old(Snapshot()), filename, length) ==> Cross())
      ensures var s := old(Snapshot());
              var p := NewOffset(s, length);
              && Snapshot() == AddFile(p.s, Entry(Truncate(filename), p.offset, length, FreeSlot(s.slots)))
              && offset == p.offset && hashOffset == p.h
    {
      hide Sound, Lookup, AllPlaced, NewOffset, AddFile, FreeSlot, GetIndex, Shape, Snapshot, Cross, RecordsFit,
        NewKeysFree, NewInStore;
      ghost var s := Snapshot();
      SoundFacts(s);
      SnapshotParts();
      CreateFits(s, filename, length);
      NewKeysAre(s, filename, length);
      var slot := NewFileIndex();
      offset, hashOffset := NewFileOffset(length);
      SnapshotSizes();
      var g := new File(filename, offset, length, slot);
      AddNewFile(g);
    }

    /** create_file. The null bytes of the new file may go past the end of file_data, where the source has no
        defined behaviour: then fault is true, and nothing was written to file_data. */
    method CreateFile(filename: seq<byte>, length: nat) returns (code: int, fault: bool)
      requires Usable()
      modifies this, file, dir, hash, index, oList, nList, oList.list, nList.list, oList.Files(), nList.Files()
      ensures fault <==> !NewInStore(old(Snapshot()), filename, length)
      ensures Shape() && (NewKeysFree(old(Snapshot()), filename, length) ==> Cross())
      ensures var (s, r) := (old(Snapshot()), Create(old(Snapshot()), filename, length));
              if fault then Snapshot().data == s.data else Snapshot() == r.0 && code == r.1
    {
      hide Sound, Lookup, AllPlaced, NewOffset, AddFile, Fill, FreeSlot, GetIndex, Shape, Snapshot,
        Cross, RecordsFit, Create, NewKeysFree;
      ghost var s := Snapshot();
      SoundFacts(s);
      SnapshotSizes();
      CreateSteps(s, filename, length);
      var existing := Find(filename);
      if existing != null {
        return 1, false;
      }
      if used + length > file.Length || indexCount >= index.Length {
        return 2, false;
      }
      CreateFits(s, filename, length);
      var offset, hashOffset := PlaceNewFile(filename, length);
      AddFileParts(NewOffset(s, length).s, Entry(Truncate(filename), offset, length, FreeSlot(s.slots)));
      fault := false;
      if length > 0 {
        fault := FillNewFile(offset, length, hashOffset);
      }
      return 0, fault;
    }

    /** The end of create_file for a file that is not empty. */
    method FillNewFile(offset: nat, length: nat, hashOffset: int) returns (fault: bool)
      requires Shape() && HashTree.Sized(file[..], hash[..], leafOffset)
      requires file.Length < MAX_FILE_DATA_LEN && (hashOffset >= 0 ==> offset == used)
      modifies `used, file, hash
      ensures Shape() && (fault <==> offset + length > file.Length)
      ensures Snapshot() == if fault then old(Snapshot()) else Fill(old(Snapshot()), offset, length, hashOffset)
    {
      hide Model.Rehash, Overwrite, Shape, Snapshot;
      SnapshotParts();
      if offset + length > file.Length {
        return true;
      }
      ZeroFill(offset, length);
      AddUsed(length);
      SnapshotSizes();
      if hashOffset >= 0 {
        RehashRange(hashOffset, used - hashOffset);
      } else {
        RehashRange(offset, length);
      }
      return false;
    }

    // resize_file_helper

    /** The new offset of a file that is out of the offset array, written to its record. */
    method Place(f: File, to: nat)
      requires Shape() && f !in oList.Files() && META_LEN * f.index + META_LEN <= dir.Length
      modifies f`offset, dir
      ensures Shape() && f.View() == old(f.View()).(offset := to)
      ensures Snapshot() == old(Snapshot()).(dir := Dir.SetOffset(old(Snapshot()).dir, f.View()))
    {
      hide Dir.SetOffset;
      ghost var files, names := oList.Files(), nList.Files();
      f.offset := to;
      assert Views(files) == old(Views(files)) && BlankViews(names) == old(BlankViews(names));
      UpdateDirOffset(f);
    }

    /** Both arrays hold the same files, except that f is out of the offset array. */
    ghost predicate CrossBut(f: File)
      reads oList, nList, oList.list, nList.list
    {
      && oList.size <= oList.list.Length && nList.size <= nList.list.Length
      && f !in oList.Files() && f in nList.Files()
      && (forall g :: g in oList.Files() ==> g in nList.Files())
      && (forall g :: g in nList.Files() && g != f ==> g in oList.Files())
    }

    lemma CrossRemoved(files: seq<File>, names: seq<File>, i: nat)
      requires i < |files| && forall j, k :: 0 <= j < k < |files| ==> files[j] != files[k]
      requires oList.size <= oList.list.Length && nList.size <= nList.list.Length
      requires oList.Files() == Removed(files, i) && nList.Files() == names
      requires forall g :: g in files <==> g in names
      ensures CrossBut(files[i])
    {
      MembersRemoved(files, i);
      assert files[i] in files;
    }

    lemma CrossReinserted(files: seq<File>, names: seq<File>, p: nat, f: File)
      requires p <= |files| && f in names
      requires oList.size <= oList.list.Length && nList.size <= nList.list.Length
      requires oList.Files() == Inserted(files, p, f) && nList.Files() == names
      requires forall g :: g in files ==> g in names
      requires forall g :: g in names && g != f ==> g in files
      ensures Cross()
    {
      MembersInserted(files, p, f);
    }

    lemma FilesDistinct()
      requires Shape()
      ensures forall j, k :: 0 <= j < k < |oList.Files()| ==> oList.Files()[j] != oList.Files()[k]
    {
      forall j, k | 0 <= j < k < oList.size ensures oList.list[j] != oList.list[k] {
        assert oList.Position(oList.list[j]) == j && oList.Position(oList.list[k]) == k;
      }
    }

    /** Back into the offset array at a new offset, unless its key is taken there. */
    method PutBack(f: File, to: nat)
      requires Shape() && CrossBut(f) && oList.size < oList.list.Length
      requires META_LEN * f.index + META_LEN <= dir.Length
      modifies f, dir, oList, oList.list, oList.Files()`oIndex, oList.Files()`nIndex
      ensures Shape() && f.View() == old(f.View()).(offset := to)
      ensures Snapshot() == Reinsert(old(Snapshot()), f.View())
      ensures if GetIndex(f.View(), old(Snapshot()).o, OFFSET, true) >= 0 then Cross() else CrossBut(f)
    {
      hide Dir.SetOffset, InsertEntry, Shape, Snapshot, GetIndex, Cross;
      SnapshotParts();
      ghost var files, names := oList.Files(), nList.Files();
      ghost var p := GetIndex(f.View().(offset := to), Snapshot().o, OFFSET, true);
      Place(f, to);
      SnapshotSizes();
      InsertByOffset(f);
      SnapshotSizes();
      if p >= 0 {
        CrossReinserted(files, names, p, f);
      }
    }

    /** arr_remove of a file from the offset array, and repack_helper without it. */
    method RepackWithout(f: File) returns (hashOffset: int)
      requires Usable() && f in nList.Files()
      modifies file, dir, oList, oList.list, oList.Files()
      ensures Shape() && CrossBut(f) && f.View() == old(f.View())
      ensures f !in oList.Files() && 0 <= old(f.oIndex) < |old(oList.Files())|
      ensures oList.Files() == Removed(old(oList.Files()), old(f.oIndex))
      ensures var s := old(Snapshot());
              var r := Model.Repack(s.(o := Removed(s.o, old(f.oIndex))));
              Snapshot() == r.0 && hashOffset == r.1
    {
      hide Sound, Shape, Snapshot, Cross, CrossBut, AllPlaced, RecordsFit, Model.Repack;
      ghost var s := Snapshot();
      SnapshotParts();
      RelocateFits(s, f.oIndex) by {
        Places(f);
      }
      TakeOut(f);
      hashOffset := RepackHelper();
    }

    /** arr_remove of a file from the offset array. */
    method TakeOut(f: File)
      requires Shape() && Cross() && f in nList.Files()
      modifies oList, oList.list, oList.Files()`oIndex, oList.Files()`nIndex
      ensures Shape() && CrossBut(f)
      ensures f !in oList.Files() && 0 <= old(f.oIndex) < |old(oList.Files())|
      ensures oList.Files() == Removed(old(oList.Files()), old(f.oIndex))
      ensures Snapshot() == old(Snapshot()).(o := Removed(old(Snapshot()).o, old(f.oIndex)))
    {
      hide Shape, Snapshot, Cross, CrossBut;
      SnapshotSizes();
      ghost var files, names, i := oList.Files(), nList.Files(), f.oIndex;
      Places(f);
      CrossMembers();
      FilesDistinct();
      var _ := RemoveByOffset(f.oIndex);
      SnapshotSizes();
      MembersRemoved(files, i);
      CrossRemoved(files, names, i);
    }

    /** The branch of resize_file_helper for a non-empty file that has to move. */
    method RelocateNonEmpty(f: File, length: nat, copy: nat) returns (hashOffset: int)
      requires Usable() && f in nList.Files() && copy <= f.length && f.offset < MAX_FILE_DATA_LEN
      requires 0 <= f.oIndex < |Snapshot().o|
      modifies file, dir, oList, oList.list, oList.Files(), f
      ensures Shape() && if Reinserts(old(Snapshot()), old(f.oIndex)) then Cross() else CrossBut(f)
      ensures var r := Relocate(old(Snapshot()), old(f.oIndex), length, copy);
              Snapshot() == r.s && f.View() == r.e && hashOffset == r.h
    {
      hide Sound, Shape, Snapshot, Cross, CrossBut, AllPlaced, RecordsFit, Model.Repack, GetIndex, Reinsert, Overwrite,
        Window, Relocate, Reinserts;
      ghost var s, i, e := Snapshot(), f.oIndex, f.View();
      SnapshotParts();
      SoundFacts(s);
      Places(f);
      RelocateFits(s, i);
      RelocateSteps(s, i, length, copy);
      ReinsertsIs(s, i);
      EndInStore(s, i);
      var to: nat := used - f.length;
      ghost var e' := e.(offset := to);
      ghost var s2 := Model.Repack(s.(o := Removed(s.o, i))).0;
      var temp := CopyOut(f.offset, copy);
      ghost var s3 := s2.(data := Overwrite(s2.data, to, temp));
      ghost var r := Relocate(s, i, length, copy);
      assert r.s == Reinsert(s3, e') && r.e == e';
      hashOffset := RepackWithout(f);
      assert Snapshot() == s2 && f.View() == e && hashOffset == r.h;
      SnapshotSizes();
      FinishRelocation(f, to, temp);
    }

    /** The saved bytes back into file_data, and the file back into the offset array. */
    method FinishRelocation(f: File, to: nat, temp: seq<byte>)
      requires Shape() && CrossBut(f) && oList.size < oList.list.Length && to + |temp| <= file.Length
      requires META_LEN * f.index + META_LEN <= dir.Length
      modifies file, f, dir, oList, oList.list, oList.Files()`oIndex, oList.Files()`nIndex
      ensures Shape() && f.View() == old(f.View()).(offset := to)
      ensures var s := old(Snapshot());
              Snapshot() == Reinsert(s.(data := Overwrite(s.data, to, temp)), f.View())
      ensures if GetIndex(f.View(), old(Snapshot()).o, OFFSET, true) >= 0 then Cross() else CrossBut(f)
    {
      hide Shape, Snapshot, GetIndex, Reinsert, Overwrite, Cross, CrossBut;
      SnapshotParts();
      CopyIn(to, temp);
      PutBack(f, to);
    }

    /** memcpy out of file_data. */
    method CopyOut(at: nat, count: nat) returns (buf: seq<byte>)
      requires count > 0 ==> at + count <= file.Length
      ensures buf == Window(file[..], at, count)
    {
      if count == 0 {
        return [];
      }
      return file[at..at + count];
    }

    /** The branch of resize_file_helper for an empty file at 2^32. */
    method RelocateEmpty(f: File, length: nat, copy: nat) returns (hashOffset: int)
      requires Usable() && f in nList.Files() && copy <= f.length && f.offset >= MAX_FILE_DATA_LEN
      requires 0 <= f.oIndex < |Snapshot().o|
      modifies file, dir, oList, oList.list, oList.Files(), f
      ensures Shape() && Cross() && Reinserts(old(Snapshot()), old(f.oIndex))
      ensures var r := Relocate(old(Snapshot()), old(f.oIndex), length, copy);
              Snapshot() == r.s && f.View() == r.e && hashOffset == r.h
    {
      hide Sound, Shape, Snapshot, Cross, CrossBut, AllPlaced, RecordsFit, Model.Repack, GetIndex, Reinsert, NextNonzero,
        Relocate, Reinserts;
      ghost var s, i, e := Snapshot(), f.oIndex, f.View();
      SnapshotSizes();
      SoundFacts(s);
      Places(f);
      EmptyAtTop(s, i);
      EmptyReinserts(s, i);
      RelocateFits(s, i);
      RelocateEmptySteps(s, i, length, copy);
      ghost var r := Relocate(s, i, length, copy);
      var to: nat;
      to, hashOffset := TakeOutEmpty(f, length);
      assert r.s == Reinsert(Snapshot(), r.e) && r.e == e.(offset := to) && r.h == hashOffset;
      EmptyGoesLast(Snapshot().o, r.e);
      SnapshotSizes();
      PutBack(f, to);
    }

    method TakeOutEmpty(f: File, length: nat) returns (to: nat, hashOffset: int)
      requires Usable() && f in nList.Files()
      modifies file, dir, oList, oList.list, oList.Files()
      ensures Shape() && CrossBut(f) && f.View() == old(f.View())
      ensures f !in oList.Files() && 0 <= old(f.oIndex) < |old(oList.Files())|
      ensures oList.Files() == Removed(old(oList.Files()), old(f.oIndex))
      ensures var s := old(Snapshot());
              var s1 := s.(o := Removed(s.o, old(f.oIndex)));
              var c := NextNonzero(s1.o, 0);
              if c < |s1.o| && s1.o[c].offset < length then
                Snapshot() == Model.Repack(s1).0 && hashOffset == Model.Repack(s1).1 && to == s1.used
              else
                Snapshot() == s1 && hashOffset == -1 && to == 0
    {
      hide Sound, Shape, Snapshot, Cross, CrossBut, AllPlaced, RecordsFit, Model.Repack, NextNonzero;
      ghost var s := Snapshot();
      RelocateFits(s, f.oIndex) by {
        Places(f);
      }
      TakeOut(f);
      SnapshotSizes();
      to, hashOffset := PlaceEmpty(length);
    }

    /** Where an empty file that grows goes: to 0 before the first non-empty file, or behind all files after a repack. */
    method PlaceEmpty(length: nat) returns (to: nat, hashOffset: int)
      requires Shape() && RecordsFit(Snapshot()) && AllPlaced(Snapshot().o, file.Length) && used >= 0
      modifies file, dir, oList.Files()`offset
      ensures Shape()
      ensures var s := old(Snapshot());
              var c := NextNonzero(s.o, 0);
              if c < |s.o| && s.o[c].offset < length then
                Snapshot() == Model.Repack(s).0 && hashOffset == Model.Repack(s).1 && to == s.used
              else
                Snapshot() == s && hashOffset == -1 && to == 0
    {
      hide Shape, Snapshot, AllPlaced, RecordsFit, Model.Repack, NextNonzero;
      SnapshotParts();
      ArrayIsValid();
      RepackFits(Snapshot());
      var next := FindNextNonzeroFile(0);
      if next != null && next.offset < length {
        hashOffset := RepackHelper();
        SnapshotSizes();
        return used, hashOffset;
      }
      return 0, -1;
    }

    lemma ArrayIsValid()
      requires Shape()
      ensures oList.Valid() && oList.kind == OFFSET
    {
    }

    /** update_file_length, of a file that the offset array may have dropped. */
    method UpdateFileLength(f: File, length: nat)
      requires Shape() && PosOfSlot(Snapshot().o, f.index) == if f in oList.Files() then f.oIndex else oList.size
      modifies f`length
      ensures Shape() && f.View() == old(f.View()).(length := length)
      ensures var (s, p) := (old(Snapshot()), PosOfSlot(old(Snapshot()).o, f.index));
              Snapshot() == s.(o := if p < |s.o| then s.o[p := f.View()] else s.o)
    {
      hide PosOfSlot;
      ghost var s, p := Snapshot(), PosOfSlot(Snapshot().o, f.index);
      ghost var files, names := oList.Files(), nList.Files();
      f.length := length;
      assert Views(files) == if p < |s.o| then s.o[p := f.View()] else s.o by {
        forall k | 0 <= k < |files| && k != p ensures files[k] != f {
          assert oList.Position(files[k]) == k;
          assert files[k] in files;
        }
        if f in files {
          var k :| 0 <= k < |files| && files[k] == f;
          assert oList.Position(oList.list[k]) == k;
        }
      }
      assert BlankViews(names) == s.n;
    }

    method RecordLength(f: File)
      requires Shape() && META_LEN * f.index + META_LEN <= dir.Length
      modifies dir
      ensures Shape() && Snapshot() == old(Snapshot()).(dir := Dir.SetLength(old(Snapshot()).dir, f.View()))
    {
      hide Dir.SetLength;
      UpdateDirLength(f);
    }

    /** The new length of a file, in its record and in the accounts. */
    method ChangeLength(f: File, length: nat)
      requires Shape() && META_LEN * f.index + META_LEN <= dir.Length && length != f.length
      requires PosOfSlot(Snapshot().o, f.index) == if f in oList.Files() then f.oIndex else oList.size
      modifies `used, f`length, dir
      ensures Shape() && f.View() == old(f.View()).(length := length)
      ensures Snapshot() == SetLength(old(Snapshot()), old(f.View()), length)
    {
      hide Dir.SetLength, PosOfSlot, Shape, Snapshot, Cross;
      var oldLength := f.length;
      UpdateFileLength(f, length);
      RecordLength(f);
      AddUsed(length - oldLength);
    }

    /** The relocation in resize_file_helper, if there is one. */
    method MoveIfNeeded(f: File, length: nat, copy: nat) returns (hashOffset: int)
      requires Usable() && f in nList.Files() && copy <= f.length
      requires 0 <= f.oIndex < |Snapshot().o|
      modifies file, dir, oList, oList.list, oList.Files(), f
      ensures Shape() && if GrowthKeyFree(old(Snapshot()), old(f.oIndex), length) then Cross() else CrossBut(f)
      ensures var r := Moved(old(Snapshot()), old(f.oIndex), length, copy);
              Snapshot() == r.s && f.View() == r.e && hashOffset == r.h
    {
      hide Sound, Shape, Snapshot, Cross, CrossBut, Relocate, NextNonzero, Minus64, Reinserts;
      hashOffset := -1;
      SnapshotParts();
      Places(f);
      ArrayIsValid();
      if length > f.length {
        if f.offset >= MAX_FILE_DATA_LEN {
          hashOffset := RelocateEmpty(f, length, copy);
        } else {
          var next := FindNextNonzeroFile(f.oIndex + 1);
          var limit := if next != null then next.offset else file.Length;
          if Minus64(limit, f.offset) < length {
            hashOffset := RelocateNonEmpty(f, length, copy);
          }
        }
      }
    }

    /** resize_file_helper; the offset array may have dropped the file. */
    method ResizeHelper(f: File, length: nat, copy: nat) returns (hashOffset: int)
      requires Usable() && f in nList.Files() && copy <= f.length
      requires 0 <= f.oIndex < |Snapshot().o|
      modifies `used, file, dir, oList, oList.list, oList.Files(), f
      ensures Shape() && if GrowthKeyFree(old(Snapshot()), old(f.oIndex), length) then Cross() else CrossBut(f)
      ensures var r := Model.ResizeHelper(old(Snapshot()), old(f.oIndex), length, copy);
              Snapshot() == r.s && f.View() == r.e && hashOffset == r.h
    {
      hide Sound, Shape, Snapshot, Cross, Relocate, SetLength, PosOfSlot, RecordsFit, NeedsMove, Reinserts;
      var oldLength := f.length;
      ghost var s, i := Snapshot(), f.oIndex;
      Places(f);
      ghost var r := Moved(s, i, length, copy);
      MovedSlots(s, i, length, copy);
      hashOffset := MoveIfNeeded(f, length, copy);
      SameLength(r.s, r.e);
      if length != oldLength {
        SnapshotSizes();
        if GrowthKeyFree(s, i, length) {
          CrossMembers();
          Places(f);
          SlotPosition(r.s, f.oIndex);
        }
        ChangeLength(f, length);
      }
    }

    // resize_file

    /** The null bytes of a file that grew, and the rehash of what changed. */
    method ExtendFile(f: File, was: nat, hashOffset: int) returns (fault: bool)
      requires Shape() && HashTree.Sized(file[..], hash[..], leafOffset) && file.Length < MAX_FILE_DATA_LEN
      requires was <= f.length
      modifies file, hash
      ensures Shape() && (fault <==> f.offset + f.length > file.Length)
      ensures Snapshot() == if fault then old(Snapshot()) else Extend(old(Snapshot()), f.View(), was, hashOffset)
    {
      hide Model.Rehash, Overwrite, Shape, Snapshot;
      SnapshotParts();
      if f.offset + f.length > file.Length {
        return true;
      }
      ZeroFill(f.offset + was, f.length - was);
      SnapshotParts();
      if hashOffset >= 0 {
        RehashRange(hashOffset, f.offset + f.length - hashOffset);
      } else {
        RehashRange(f.offset + was, f.length - was);
      }
      return false;
    }

    /** resize_file. A file that grows where it lies may go past the end of file_data: then fault is true, and
        nothing was written to file_data. */
    method ResizeFile(filename: seq<byte>, length: nat) returns (code: int, fault: bool)
      requires Usable()
      modifies `used, file, dir, hash, oList, oList.list, oList.Files(), nList.Files()
      ensures fault <==> !GrownInStore(old(Snapshot()), filename, length)
      ensures Shape() && (GrownKeyFree(old(Snapshot()), filename, length) ==> Cross())
      ensures var (s, r) := (old(Snapshot()), Resize(old(Snapshot()), filename, length));
              if fault then Snapshot().data == s.data else Snapshot() == r.0 && code == r.1
    {
      hide Sound, Lookup, Shape, Snapshot, Cross, Model.ResizeHelper, Resize, Extend, AllPlaced, RecordsFit,
        GrowthInStore, GrowthKeyFree;
      ghost var s := Snapshot();
      SoundFacts(s);
      SnapshotSizes();
      ResizeSteps(s, filename, length);
      var f := Find(filename);
      if f == null {
        return 1, false;
      }
      Places(f);
      if used + length - f.length > file.Length {
        return 2, false;
      }
      if length == f.length {
        return 0, false;
      }
      var oldLength := f.length;
      ghost var i := f.oIndex;
      ResizedParts(s, i, length, oldLength);
      if length > oldLength {
        GrownEnd(s, i, length, oldLength);
      } else {
        ShrinksInPlace(s, i, length);
      }
      var hashOffset := ResizeHelper(f, length, oldLength);
      fault := false;
      if length > oldLength {
        fault := ExtendFile(f, oldLength, hashOffset);
      }
      return 0, fault;
    }

    // write_file

    /** The memcpy of write_file, and the rehash of what changed. */
    method CopyAndRehash(at: nat, buf: seq<byte>, hashOffset: int) returns (fault: bool)
      requires Shape() && HashTree.Sized(file[..], hash[..], leafOffset) && used <= file.Length
      modifies file, hash
      ensures Shape() && (fault <==> at + |buf| > file.Length)
      ensures Snapshot() == if fault then old(Snapshot()) else CopyBuffer(old(Snapshot()), at, buf, hashOffset)
    {
      hide Model.Rehash, Overwrite, Shape, Snapshot;
      SnapshotParts();
      if at + |buf| > file.Length {
        return true;
      }
      CopyIn(at, buf);
      if hashOffset >= 0 {
        RehashRange(hashOffset, used - hashOffset);
      } else {
        RehashRange(at, |buf|);
      }
      return false;
    }

    /** write_file; count is the length of buf. A file that grows where it lies may go past the end of file_data:
        then fault is true, and nothing was written to file_data. */
    method WriteFile(filename: seq<byte>, offset: nat, buf: seq<byte>) returns (code: int, fault: bool)
      requires Usable()
      modifies `used, file, dir, hash, oList, oList.list, oList.Files(), nList.Files()
      ensures var s := old(Snapshot());
              fault <==> Begins(s, filename, offset) && !GrownInStore(s, filename, offset + |buf|)
      ensures Shape()
      ensures var s := old(Snapshot());
              (Begins(s, filename, offset) ==> GrownKeyFree(s, filename, offset + |buf|)) ==> Cross()
      ensures var (s, r) := (old(Snapshot()), Write(old(Snapshot()), filename, offset, buf));
              if fault then Snapshot().data == s.data else Snapshot() == r.0 && code == r.1
    {
      hide Sound, Lookup, Shape, Snapshot, Cross, MakeRoom, Write, CopyBuffer, AllPlaced, RecordsFit,
        GrowthInStore, GrowthKeyFree;
      ghost var s := Snapshot();
      SoundFacts(s);
      SnapshotSizes();
      WriteSteps(s, filename, offset, buf);
      var f := Find(filename);
      if f == null {
        return 1, false;
      }
      Places(f);
      if offset > f.length {
        return 2, false;
      }
      if used + offset + |buf| - f.length > file.Length {
        return 3, false;
      }
      if |buf| == 0 {
        return 0, false;
      }
      RoomFits(s, f.oIndex, offset, |buf|);
      ghost var r := MakeRoom(s, f.oIndex, offset, |buf|);
      var hashOffset := Grow(f, offset, |buf|);
      assert Snapshot() == r.s && f.View() == r.e;
      SnapshotSizes();
      fault := CopyAndRehash(f.offset + offset, buf, hashOffset);
      return 0, fault;
    }

    /** The resize in write_file. */
    method Grow(f: File, offset: nat, count: nat) returns (hashOffset: int)
      requires Usable() && f in nList.Files() && offset <= f.length && 0 <= f.oIndex < |Snapshot().o|
      modifies `used, file, dir, oList, oList.list, oList.Files(), f
      ensures Shape() && 0 <= old(f.oIndex) < |old(Snapshot()).o|
      ensures var (s, i, length) := (old(Snapshot()), old(f.oIndex), offset + count);
              s.o[i].length < length ==> (GrowthKeyFree(s, i, length) ==> Cross())
      ensures old(Snapshot()).o[old(f.oIndex)].length >= offset + count ==> Cross()
      ensures var r := MakeRoom(old(Snapshot()), old(f.oIndex), offset, count);
              Snapshot() == r.s && f.View() == r.e && hashOffset == r.h
    {
      hide Sound, Shape, Snapshot, Cross, Model.ResizeHelper, GrowthKeyFree;
      Places(f);
      hashOffset := -1;
      if offset + count > f.length {
        hashOffset := ResizeHelper(f, offset + count, offset);
      }
    }

    // delete_file

    lemma CrossDropped(files: seq<File>, names: seq<File>, i: nat, j: nat)
      requires i < |files| && j < |names| && files[i] == names[j]
      requires forall k, m :: 0 <= k < m < |files| ==> files[k] != files[m]
      requires forall k, m :: 0 <= k < m < |names| ==> names[k] != names[m]
      requires forall g :: g in files <==> g in names
      requires oList.size <= oList.list.Length && nList.size <= nList.list.Length
      requires oList.Files() == Removed(files, i) && nList.Files() == Removed(names, j)
      ensures Cross()
    {
      MembersRemoved(files, i);
      MembersRemoved(names, j);
    }

    lemma NamesDistinct()
      requires Shape()
      ensures forall j, k :: 0 <= j < k < |nList.Files()| ==> nList.Files()[j] != nList.Files()[k]
    {
      forall j, k | 0 <= j < k < nList.size ensures nList.list[j] != nList.list[k] {
        assert nList.Position(nList.list[j]) == j && nList.Position(nList.list[k]) == k;
      }
    }

    /** The two removals of a file. */
    method RemoveBoth(f: File)
      requires Shape() && Cross() && f in nList.Files()
      modifies oList, nList, oList.list, nList.list
      modifies oList.Files()`oIndex, oList.Files()`nIndex, nList.Files()`oIndex, nList.Files()`nIndex
      ensures Shape() && Cross() && f.View() == old(f.View())
      ensures 0 <= old(f.oIndex) < |old(Snapshot()).o| && 0 <= old(f.nIndex) < |old(Snapshot()).n|
      ensures var s := old(Snapshot());
              Snapshot() == s.(o := Removed(s.o, old(f.oIndex)), n := Removed(s.n, old(f.nIndex)))
    {
      hide Shape, Snapshot, Cross, CrossBut;
      SnapshotParts();
      ghost var files, names, i, j := oList.Files(), nList.Files(), f.oIndex, f.nIndex;
      Places(f);
      CrossMembers();
      FilesDistinct();
      NamesDistinct();
      var _ := RemoveByOffset(f.oIndex);
      NameIndexKept(names, j);
      var _ := RemoveByName(f.nIndex);
      SnapshotSizes();
      CrossDropped(files, names, i, j);
    }

    lemma NameIndexKept(names: seq<File>, j: nat)
      requires Shape() && nList.Files() == names && j < |names|
      ensures names[j].nIndex == j && nList.size == |names|
    {
      assert nList.Position(nList.list[j]) == j;
    }

    /** The slot, the record and the accounts of a deleted file. */
    method ForgetFile(f: File)
      requires Shape() && Cross() && f.index < index.Length <= MAX_NUM_FILES && META_LEN * f.index + META_LEN <= dir.Length
      modifies `used, `indexCount, index, dir
      ensures Shape() && Cross()
      ensures var s := old(Snapshot());
              Snapshot() == s.(dir := Dir.ClearRecord(s.dir, f.index), slots := s.slots[f.index := 0],
                               used := s.used - f.length, count := s.count - 1)
    {
      hide Overwrite;
      used := used - f.length;
      index[f.index] := 0;
      indexCount := indexCount - 1;
      var _ := WriteNullByte(dir, f.index * META_LEN, 1);
    }

    /** delete_file */
    method DeleteFile(filename: seq<byte>) returns (code: int)
      requires Usable()
      modifies this, dir, index, oList, nList, oList.list, nList.list, oList.Files(), nList.Files()
      ensures Shape() && Cross()
      ensures var r := Delete(old(Snapshot()), filename); Snapshot() == r.0 && code == r.1
    {
      hide Sound, Lookup, Shape, Snapshot, Cross, Delete, PosOfSlot, Dir.ClearRecord;
      ghost var s := Snapshot();
      SnapshotSizes();
      DeleteSteps(s, filename);
      var f := Find(filename);
      if f == null {
        return 1;
      }
      Places(f);
      PositionOfName(s, f.oIndex, f.nIndex);
      ghost var i, j, e := f.oIndex, f.nIndex, f.View();
      RemoveBoth(f);
      ghost var s1 := s.(o := Removed(s.o, i), n := Removed(s.n, j));
      assert Snapshot() == s1 && f.View() == e;
      ForgetFile(f);
      return 0;
    }

    // rename_file

    /** update_file_name on a file in both arrays. */
    method UpdateFileName(f: File, name: seq<byte>)
      requires Shape() && Cross() && f in nList.Files()
      modifies f`name
      ensures Shape() && f.View() == old(f.View()).(name := Truncate(name))
      ensures 0 <= f.oIndex < |old(Snapshot()).o| && 0 <= f.nIndex < |old(Snapshot()).n|
      ensures var s := old(Snapshot());
              Snapshot() == s.(o := s.o[f.oIndex := f.View()], n := s.n[f.nIndex := Blank(f.View())])
    {
      Places(f);
      ghost var s := Snapshot();
      ghost var files, names := oList.Files(), nList.Files();
      f.name := Truncate(name);
      assert Views(files) == s.o[f.oIndex := f.View()] by {
        forall k | 0 <= k < |files| && k != f.oIndex ensures files[k] != f {
          assert oList.Position(files[k]) == k;
        }
      }
      assert BlankViews(names) == s.n[f.nIndex := Blank(f.View())] by {
        forall k | 0 <= k < |names| && k != f.nIndex ensures names[k] != f {
          assert nList.Position(names[k]) == k;
        }
      }
    }

    method RecordName(f: File)
      requires Shape() && META_LEN * f.index + META_LEN <= dir.Length && |f.name| < NAME_LEN
      modifies dir
      ensures Shape() && Snapshot() == old(Snapshot()).(dir := Dir.SetName(old(Snapshot()).dir, f.View()))
    {
      hide Dir.SetName;
      UpdateDirName(f);
    }

    /** The new name of a file, in place, and in its record. */
    method ChangeName(f: File, name: seq<byte>)
      requires Shape() && Cross() && f in nList.Files() && META_LEN * f.index + META_LEN <= dir.Length
      modifies f`name, dir
      ensures Shape() && f.View() == old(f.View()).(name := Truncate(name))
      ensures 0 <= f.oIndex < |old(Snapshot()).o| && 0 <= f.nIndex < |old(Snapshot()).n|
      ensures var s := old(Snapshot());
              Snapshot() == s.(o := s.o[f.oIndex := f.View()], n := s.n[f.nIndex := Blank(f.View())],
                               dir := Dir.SetName(s.dir, f.View()))
    {
      hide Dir.SetName, Shape, Snapshot, Cross;
      UpdateFileName(f, name);
      RecordName(f);
    }

    /** rename_file; the position in the name array is not revised. */
    method RenameFile(oldName: seq<byte>, newName: seq<byte>) returns (code: int)
      requires Usable()
      modifies dir, nList.Files()
      ensures Shape() && Cross()
      ensures var r := Rename(old(Snapshot()), oldName, newName); Snapshot() == r.0 && code == r.1
    {
      hide Sound, Lookup, Shape, Snapshot, Cross, Rename, PosOfSlot, Dir.SetName;
      ghost var s := Snapshot();
      SnapshotSizes();
      RenameSteps(s, oldName, newName);
      var f := Find(oldName);
      if f != null && oldName == newName {
        return 0;
      }
      var other := Find(newName);
      if f == null || other != null {
        return 1;
      }
      Places(f);
      PositionOfName(s, f.oIndex, f.nIndex);
      ChangeName(f, newName);
      return 0;
    }

    // init_fs

    /** The body of the scan of dir_table. */
    method LoadRecord(slot: nat) returns (ghost found: File?)
      requires Shape() && Loaded() && slot < index.Length && META_LEN * index.Length <= dir.Length
      requires oList.size <= slot && nList.size <= slot
      modifies this, index, oList, nList, oList.list, nList.list, oList.Files(), nList.Files()
      ensures Shape() && Loaded() && oList.size <= slot + 1 && nList.size <= slot + 1
      ensures found != null ==> fresh(found)
      ensures forall f :: f in oList.Files() || f in nList.Files() ==>
                f == found || f in old(oList.Files()) || f in old(nList.Files())
      ensures Snapshot() == LoadSlot(old(Snapshot()), slot)
    {
      hide Shape, Snapshot, LoadSlot, LoadedEntry, Dir.NameAt, Loaded, InsertEntry, InsertName;
      ghost var s := Snapshot();
      SnapshotParts();
      LoadSlotSteps(s, slot);
      if dir[slot * META_LEN] != 0 {
        var g := ReadFileEntry(slot);
        assert Snapshot() == s && g.View() == LoadedEntry(s.dir, slot);
        LoadFile(g);
        found := g;
      } else {
        found := null;
      }
    }

    /** The fields of a record; an empty file is given the offset 2^32. */
    method ReadFileEntry(slot: nat) returns (g: File)
      requires META_LEN * slot + META_LEN <= dir.Length
      ensures fresh(g) && g.index == slot && g.View() == LoadedEntry(dir[..], slot)
    {
      hide Dir.NameAt;
      TruncatedName(dir[..], slot);
      var name := ReadName(slot);
      var length := ReadWord(slot * META_LEN + NAME_LEN + OFFSET_LEN);
      var offset := MAX_FILE_DATA_LEN;
      if length != 0 {
        offset := ReadWord(slot * META_LEN + NAME_LEN);
      }
      g := new File(name, offset, length, slot);
    }

    /** The insertions of a file found by the scan. */
    method InsertFound(g: File)
      requires Shape() && g !in oList.Files() && g !in nList.Files()
      requires oList.size < oList.list.Length && nList.size < nList.list.Length
      modifies oList, nList, oList.list, nList.list, g`oIndex, g`nIndex
      modifies oList.Files()`oIndex, oList.Files()`nIndex, nList.Files()`oIndex, nList.Files()`nIndex
      ensures Shape() && g.View() == old(g.View())
      ensures var (s, e) := (old(Snapshot()), old(g.View()));
              Snapshot() == s.(o := InsertEntry(s.o, e), n := InsertName(s.n, e))
      ensures oList.Files() == old(oList.Files())
           || exists p: nat :: p <= |old(oList.Files())| && oList.Files() == Inserted(old(oList.Files()), p, g)
      ensures nList.Files() == old(nList.Files())
           || exists q: nat :: q <= |old(nList.Files())| && nList.Files() == Inserted(old(nList.Files()), q, g)
    {
      hide Shape, Snapshot, InsertEntry, InsertName, GetIndex;
      SnapshotSizes();
      ghost var s, e, names := Snapshot(), g.View(), nList.Files();
      InsertByOffset(g);
      assert nList.Files() == names && Snapshot().n == s.n && g.View() == e;
      InsertByName(g);
      SnapshotSizes();
    }

    /** The insertions of a file found by the scan, and its slot and accounts. */
    method LoadFile(g: File)
      requires Shape() && Loaded() && g !in oList.Files() && g !in nList.Files() && g.index < index.Length
      requires oList.size < oList.list.Length && nList.size < nList.list.Length
      modifies this, index, oList, nList, oList.list, nList.list, g`oIndex, g`nIndex
      modifies oList.Files()`oIndex, oList.Files()`nIndex, nList.Files()`oIndex, nList.Files()`nIndex
      ensures Shape() && Loaded() && oList.size <= old(oList.size) + 1 && nList.size <= old(nList.size) + 1
      ensures forall f :: f in oList.Files() || f in nList.Files() ==>
                f == g || f in old(oList.Files()) || f in old(nList.Files())
      ensures var (s, e) := (old(Snapshot()), old(g.View()));
              Snapshot() == s.(o := InsertEntry(s.o, e), n := InsertName(s.n, e), used := s.used + e.length,
                               slots := s.slots[e.slot := 1], count := s.count + 1)
    {
      hide Shape, Snapshot, InsertEntry, InsertName, GetIndex, Cross;
      ghost var files, names, count := oList.Files(), nList.Files(), indexCount;
      if |files| == |names| == count {
        CrossMembers();
      }
      InsertFound(g);
      SnapshotSizes();
      FoundMembers(files, names, count, g);
      CountFile(g);
      SnapshotSizes();
    }

    lemma FoundMembers(files: seq<File>, names: seq<File>, count: nat, g: File)
      requires oList.size <= oList.list.Length && nList.size <= nList.list.Length
      requires |files| <= count && |names| <= count
      requires |files| == |names| == count ==> forall f :: f in files <==> f in names
      requires oList.Files() == files || exists p: nat :: p <= |files| && oList.Files() == Inserted(files, p, g)
      requires nList.Files() == names || exists q: nat :: q <= |names| && nList.Files() == Inserted(names, q, g)
      ensures oList.size <= |files| + 1 && nList.size <= |names| + 1
      ensures oList.size == nList.size == count + 1 ==> Cross()
      ensures forall f :: f in oList.Files() || f in nList.Files() ==> f == g || f in files || f in names
    {
      if oList.Files() != files {
        var p: nat :| p <= |files| && oList.Files() == Inserted(files, p, g);
        MembersInserted(files, p, g);
      }
      if nList.Files() != names {
        var q: nat :| q <= |names| && nList.Files() == Inserted(names, q, g);
        MembersInserted(names, q, g);
      }
    }

    method CountFile(g: File)
      requires Shape() && g.index < index.Length
      modifies `used, `indexCount, index
      ensures Shape()
      ensures var s := old(Snapshot());
              Snapshot() == s.(used := s.used + g.length, slots := s.slots[g.index := 1], count := s.count + 1)
    {
      used := used + g.length;
      index[g.index] := 1;
      indexCount := indexCount + 1;
    }

    /** The name field of a record, up to its null byte. */
    method ReadName(slot: nat) returns (name: seq<byte>)
      requires META_LEN * slot + META_LEN <= dir.Length
      ensures name == Dir.NameAt(dir[..], slot)
    {
      hide Dir.CString;
      ghost var w := Window(dir[..], META_LEN * slot, NAME_LEN - 1);
      var i := 0;
      while i < NAME_LEN - 1 && dir[META_LEN * slot + i] != 0
        invariant 0 <= i <= NAME_LEN - 1
        invariant forall k :: 0 <= k < i ==> w[k] != 0
      {
        i := i + 1;
      }
      name := dir[META_LEN * slot..META_LEN * slot + i];
      assert name == w[..i];
      Dir.CStringOfName(w, name);
    }

    /** memcpy of a 32-bit field. */
    method ReadWord(at: nat) returns (w: nat)
      requires at + 4 <= dir.Length
      ensures w == FromLe32(Window(dir[..], at, 4))
    {
      hide FromLe32;
      assert dir[at..at + 4] == Window(dir[..], at, 4);
      w := FromLe32(dir[at..at + 4]);
    }
  }
}
