// arr.c: an array of file pointers, sorted by offset or by name, in which
// every file knows its own position.
module Arrays {
  import opened Structs
  import opened Search

  /** file_t. The name is the C string held in the 64-byte buffer. */
  class File {
    var name: seq<byte>
    var offset: nat
    var length: nat
    const index: nat
    var oIndex: int
    var nIndex: int

    /** file_init */
    constructor (name: seq<byte>, offset: nat, length: nat, index: nat)
      ensures View() == Entry(Truncate(name), offset, length, index)
      ensures oIndex == nIndex == -1
    {
      this.name := Truncate(name);
      this.offset := offset;
      this.length := length;
      this.index := index;
      oIndex := -1;
      nIndex := -1;
    }

    function View(): Entry
      reads this
    {
      Entry(name, offset, length, index)
    }
  }

  function Views(files: seq<File>): (r: seq<Entry>)
    reads files
    ensures |r| == |files|
    ensures forall i :: 0 <= i < |files| ==> r[i] == files[i].View()
  {
    seq(|files|, i requires 0 <= i < |files| reads files => files[i].View())
  }

  class Arr {
    const kind: Kind
    const list: array<File>
    var size: nat

    /** arr_init; the filler stands for the uninitialised slots of the allocation. */
    constructor (capacity: nat, kind: Kind, filler: File)
      requires capacity <= MAX_NUM_FILES
      ensures Valid() && size == 0 && Files() == [] && fresh(list)
      ensures this.kind == kind && list.Length == capacity
    {
      this.kind := kind;
      list := new File[capacity](i => filler);
      size := 0;
    }

    function Position(f: File): int
      reads f
    {
      if kind == OFFSET then f.oIndex else f.nIndex
    }

    /** The field that the other array keeps in the file. */
    function OtherPosition(f: File): int
      reads f
    {
      if kind == OFFSET then f.nIndex else f.oIndex
    }

    ghost predicate Valid()
      reads this, list, list[..]
    {
      size <= list.Length && forall i :: 0 <= i < size ==> Position(list[i]) == i
    }

    lemma Bounds()
      requires Valid()
      ensures size <= list.Length
    {
    }

    ghost function Files(): (r: seq<File>)
      reads this, list
      requires size <= list.Length
    {
      list[..size]
    }

    /** The assignment to the position field that belongs to this array. */
    method SetPosition(f: File, p: int)
      modifies f`oIndex, f`nIndex
      ensures Position(f) == p && OtherPosition(f) == old(OtherPosition(f))
    {
      if kind == OFFSET {
        f.oIndex := p;
      } else {
        f.nIndex := p;
      }
    }

    /** arr_rshift over the positions from start to the end of the array. */
    method RShift(start: nat)
      requires Valid() && start <= size < list.Length
      modifies list, list[..size]`oIndex, list[..size]`nIndex
      ensures forall k :: 0 <= k < start ==> list[k] == old(list[k])
      ensures forall k :: start <= k < size ==> list[k + 1] == old(list[k])
      ensures forall k :: 0 <= k < size ==> Position(old(list[k])) == if k < start then k else k + 1
      ensures forall f :: f in old(Files()) ==> OtherPosition(f) == old(OtherPosition(f))
    {
      hide Position, OtherPosition;
      ghost var files := Files();
      assert forall j, k :: 0 <= j < k < size ==> files[j] != files[k];
      var i: int := size - 1;
      while i >= start
        invariant start - 1 <= i < size
        invariant forall k :: 0 <= k <= i ==> list[k] == files[k]
        invariant forall k :: i < k < size ==> list[k + 1] == files[k]
        invariant forall k :: 0 <= k < size ==> Position(files[k]) == if k <= i then k else k + 1
        invariant forall f :: f in old(Files()) ==> OtherPosition(f) == old(OtherPosition(f))
      {
        assert list[i] == files[i] && files[i] in old(Files());
        SetPosition(list[i], Position(list[i]) + 1);
        list[i + 1] := list[i];
        i := i - 1;
      }
    }

    /** arr_insert */
    method Insert(index: nat, file: File)
      requires Valid() && index <= size < list.Length && file !in Files()
      modifies `size, list, list[..size]`oIndex, list[..size]`nIndex, file`oIndex, file`nIndex
      ensures Valid() && Files() == Inserted(old(Files()), index, file)
      ensures forall f :: f in old(Files()) || f == file ==> OtherPosition(f) == old(OtherPosition(f))
    {
      hide Position, OtherPosition;
      ghost var files := Files();
      if index < size {
        RShift(index);
      }
      assert forall k :: 0 <= k < |files| ==> files[k] in old(Files());
      list[index] := file;
      size := size + 1;
      SetPosition(file, index);
      forall i | 0 <= i < size
        ensures list[i] == Inserted(files, index, file)[i] && Position(list[i]) == i
      {
        if i != index {
          var k := if i < index then i else i - 1;
          assert list[i] == files[k] && files[k] != file;
        }
      }
    }

    /** arr_lshift over the positions from start to the end of the array. */
    method LShift(start: nat)
      requires Valid() && 0 < start <= size
      modifies list, list[..size]`oIndex, list[..size]`nIndex
      ensures forall k :: 0 <= k < start - 1 ==> list[k] == old(list[k])
      ensures forall k :: start <= k < size ==> list[k - 1] == old(list[k])
      ensures forall k :: 0 <= k < size ==> Position(old(list[k])) == if k < start then k else k - 1
      ensures forall f :: f in old(Files()) ==> OtherPosition(f) == old(OtherPosition(f))
    {
      hide Position, OtherPosition;
      ghost var files := Files();
      assert forall j, k :: 0 <= j < k < size ==> files[j] != files[k];
      var i := start;
      while i < size
        invariant start <= i <= size
        invariant forall k :: 0 <= k < start - 1 || i <= k < size ==> list[k] == files[k]
        invariant forall k :: start <= k < i ==> list[k - 1] == files[k]
        invariant forall k :: 0 <= k < size ==> Position(files[k]) == if start <= k < i then k - 1 else k
        invariant forall f :: f in old(Files()) ==> OtherPosition(f) == old(OtherPosition(f))
      {
        assert list[i] == files[i] && files[i] in old(Files());
        SetPosition(list[i], Position(list[i]) - 1);
        list[i - 1] := list[i];
        i := i + 1;
      }
    }

    /** arr_remove */
    method Remove(index: nat) returns (f: File)
      requires Valid() && index < size
      modifies `size, list, list[..size]`oIndex, list[..size]`nIndex
      ensures f == old(Files()[index]) && Position(f) == -1
      ensures Valid() && Files() == Removed(old(Files()), index)
      ensures forall g :: g in old(Files()) ==> OtherPosition(g) == old(OtherPosition(g))
    {
      hide Position, OtherPosition;
      ghost var files := Files();
      assert forall j, k :: 0 <= j < k < size ==> files[j] != files[k];
      assert forall k :: 0 <= k < |files| ==> files[k] in old(Files());
      f := list[index];
      if index < size - 1 {
        LShift(index + 1);
      }
      size := size - 1;
      SetPosition(f, -1);
      forall i | 0 <= i < size
        ensures list[i] == Removed(files, index)[i] && Position(list[i]) == i
      {
        var k := if i < index then i else i + 1;
        assert list[i] == files[k] && files[k] != f;
      }
    }

    /** arr_get_index */
    method FindIndex(key: Entry, insert: bool) returns (r: int)
      requires Valid()
      ensures r == GetIndex(key, Views(Files()), kind, insert)
      ensures Monotone(Signs(key, Views(Files()), kind)) && !(insert && kind == OFFSET && key.length == 0)
          ==> r == LinearSearch(Signs(key, Views(Files()), kind), insert)
    {
      hide CmpKey, FirstNotBelow, LinearSearch, Monotone, BinarySearch;
      ghost var es := Views(Files());
      ghost var signs := Signs(key, es, kind);
      if Monotone(signs) && !(insert && kind == OFFSET && key.length == 0) {
        GetIndexIsLinear(key, es, kind, insert);
      }
      if size == 0 {
        return if insert then 0 else -1;
      }
      if insert && kind == OFFSET && key.length == 0 {
        return size;
      }
      var l, h := 0, size - 1;
      while true
        invariant 0 <= l <= h < size
        invariant BinarySearch(signs, l, h, insert) == BinarySearch(signs, 0, size - 1, insert)
        decreases h - l
      {
        var m := (l + h) / 2;
        BinarySearchStep(signs, l, h, insert);
        assert es[m] == list[m].View();
        var cmp := CmpKey(key, list[m].View(), kind);
        if cmp < 0 {
          if l >= m {
            return if insert then m else -1;
          }
          h := m - 1;
        } else if cmp > 0 {
          if h <= m {
            return if insert then m + 1 else -1;
          }
          l := m + 1;
        } else {
          return if insert then -1 else m;
        }
      }
    }

    /** arr_sorted_insert */
    method SortedInsert(file: File) returns (r: int)
      requires Valid() && size < list.Length && file !in Files()
      modifies `size, list, list[..size]`oIndex, list[..size]`nIndex, file`oIndex, file`nIndex
      ensures r == old(GetIndex(file.View(), Views(Files()), kind, true))
      ensures Valid()
      ensures Files() == if r < 0 then old(Files()) else Inserted(old(Files()), r, file)
      ensures r < 0 ==> Position(file) == old(Position(file))
      ensures forall f :: f in old(Files()) || f == file ==> OtherPosition(f) == old(OtherPosition(f))
    {
      r := FindIndex(file.View(), true);
      if r < 0 {
        return;
      }
      Insert(r, file);
    }

    /** The validity test that arr_get_by_key and arr_remove_by_key make of a key. */
    predicate UsableKey(key: Entry, fileDataLen: nat) {
      if kind == OFFSET then key.offset < fileDataLen else key.name != []
    }

    /** arr_get_by_key */
    method GetByKey(key: Entry, fileDataLen: nat) returns (f: File?)
      requires Valid()
      ensures var r := GetIndex(key, Views(Files()), kind, false);
              f == if UsableKey(key, fileDataLen) && r >= 0 then Files()[r] else null
    {
      if !UsableKey(key, fileDataLen) {
        return null;
      }
      var index := FindIndex(key, false);
      if index < 0 {
        return null;
      }
      return list[index];
    }

    /** arr_remove_by_key */
    method RemoveByKey(key: Entry, fileDataLen: nat) returns (f: File?)
      requires Valid()
      modifies `size, list, list[..size]`oIndex, list[..size]`nIndex
      ensures Valid()
      ensures var r := old(GetIndex(key, Views(Files()), kind, false));
              if UsableKey(key, fileDataLen) && r >= 0 then
                f == old(Files())[r] && Files() == Removed(old(Files()), r)
              else f == null && Files() == old(Files())
    {
      f := GetByKey(key, fileDataLen);
      if f == null {
        return null;
      }
      var _ := Remove(if kind == OFFSET then f.oIndex else f.nIndex);
    }
  }
}
