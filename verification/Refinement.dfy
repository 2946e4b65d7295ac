// Every operation that keeps the layout behaves as the map of Stores does.
module Refinement {
  import opened Structs
  import opened Bytes
  import opened Search
  import opened Model
  import opened Layouts
  import opened Placements
  import opened Invariants
  import opened Growth
  import opened Membership
  import opened Stores
  import HashTree
  import Dir = Directory

  ghost predicate HasName(n: seq<Entry>, x: seq<byte>) {
    exists j :: 0 <= j < |n| && n[j].name == x
  }

  ghost predicate Contents(o: seq<Entry>, data: seq<byte>, files: Files) {
    forall i :: 0 <= i < |o| ==> o[i].name in files && files[o[i].name] == Content(data, o[i])
  }

  /** The state holds the files of the abstract store: their names, their bytes and the accounts. */
  ghost predicate Carries(s: State, st: Store) {
    && st.cap == |s.data| && st.maxFiles == |s.slots|
    && (forall x :: x in st.files <==> HasName(s.n, x))
    && Contents(s.o, s.data, st.files)
    && TotalSize(st.files) == s.used
    && |st.files| == s.count
  }

  /** The state stands for the abstract store: it holds its files, in order. */
  ghost predicate Represents(s: State, st: Store) {
    Inv(s) && Carries(s, st)
  }

  /** One operation on the state. */
  ghost function Step(s: State, op: Op): (State, Outcome) {
    match op
    case Create(name, length) => var (s', code) := Model.Create(s, name, length); (s', Outcome(code, []))
    case Resize(name, length) => var (s', code) := Model.Resize(s, name, length); (s', Outcome(code, []))
    case Write(name, offset, buf) => var (s', code) := Model.Write(s, name, offset, buf); (s', Outcome(code, []))
    case Read(name, offset, count) => var (code, bytes) := Model.Read(s, name, offset, count); (s, Outcome(code, bytes))
    case Delete(name) => var (s', code) := Model.Delete(s, name); (s', Outcome(code, []))
    case Rename(name, newName) => var (s', code) := Model.Rename(s, name, newName); (s', Outcome(code, []))
    case Size(name) => (s, Outcome(Model.Size(s, name), []))
    case Repack => (RepackAll(s), Outcome(0, []))
  }

  predicate IsCString(s: seq<byte>) {
    s != [] && forall k :: 0 <= k < |s| ==> s[k] != 0
  }

  /** New names are non-empty C strings. */
  predicate Named(op: Op) {
    (op.Create? ==> IsCString(op.name)) && (op.Rename? ==> IsCString(op.newName))
  }

  /** No empty file lies inside the place that new_file_offset finds. After a repack none does. */
  ghost predicate CreatesSafely(s: State, length: nat) {
    var x := FreeOffset(s.o, |s.data|, length);
    length > 0 && x >= 0 ==> NoEmptyInside(s.o, x, length)
  }

  /** The file grows, and the store has the capacity for it. */
  predicate Extends(s: State, i: nat, length: nat)
    requires i < |s.o|
  {
    s.o[i].length < length && s.used + length - s.o[i].length <= |s.data|
  }

  /** The new name lies strictly between the names of the neighbours in the name array. */
  predicate RenamesSafely(s: State, i: nat, name: seq<byte>)
    requires i < |s.o|
  {
    BetweenNeighbours(s.n, PosOfSlot(s.n, s.o[i].slot), name)
  }

  /** The operation keeps both arrays in order: it places a file clear of every
      other file, and a new name between its neighbours. */
  ghost predicate OrderSafe(s: State, op: Op) {
    match op
    case Create(name, length) =>
      Lookup(s, name) < 0 && s.used + length <= |s.data| && s.count < |s.slots| ==> CreatesSafely(s, length)
    case Resize(name, length) =>
      var i := Lookup(s, name);
      i >= 0 && Extends(s, i, length) ==> GrowsSafely(s, i, length)
    case Write(name, offset, buf) =>
      var i, length := Lookup(s, name), offset + |buf|;
      i >= 0 && offset <= s.o[i].length && Extends(s, i, length) ==> GrowsSafely(s, i, length)
    case Rename(name, newName) =>
      var i := Lookup(s, name);
      i >= 0 && name != newName && Lookup(s, newName) < 0 ==> RenamesSafely(s, i, Truncate(newName))
    case _ => true
  }

  ghost predicate Safe(s: State, op: Op) {
    Named(op) && OrderSafe(s, op)
  }

  // Lookup

  lemma LookupFinds(s: State, st: Store, filename: seq<byte>)
    requires Represents(s, st)
    ensures var (i, name) := (Lookup(s, filename), Truncate(filename));
            && (i >= 0 <==> name in st.files)
            && (i >= 0 ==> s.o[i].name == name && st.files[name] == Content(s.data, s.o[i]))
  {
    hide Lookup, Layout, Listed, Indexed, Blanks, Content;
    LookupIs(s, filename);
    var i, name := Lookup(s, filename), Truncate(filename);
    if i >= 0 {
      assert s.o[i].name in st.files;
    } else {
      forall j | 0 <= j < |s.n| ensures s.n[j].name != name {
        var k := InOffsetArray(s, j);
      }
    }
  }

  // Changing one file

  lemma ContentsToExcept(o: seq<Entry>, data: seq<byte>, files: Files, slot: nat)
    requires Contents(o, data, files)
    ensures ContentsExcept(o, data, files, slot)
  {
    hide Content;
  }

  lemma ContentsOfUpdate(s: State, p: nat, files: Files, bytes: seq<byte>)
    requires Inv(s) && p < |s.o|
    requires ContentsExcept(s.o, s.data, files, s.o[p].slot) && Content(s.data, s.o[p]) == bytes
    ensures Contents(s.o, s.data, files[s.o[p].name := bytes])
  {
    hide Content, Dir.Mirror, Indexed, Layout;
    forall k | 0 <= k < |s.o|
      ensures k != p ==> s.o[k].slot != s.o[p].slot && s.o[k].name != s.o[p].name
    {
      if k != p && s.o[k].name == s.o[p].name {
        NamesDistinct(s, k, p);
      }
    }
  }

  /** File i has a new extent and new bytes; all other bytes survived. */
  lemma UpdateRepresents(s: State, st: Store, i: nat, r: Model.Resized, data: seq<byte>, hash: seq<byte>, bytes: seq<byte>)
    requires Represents(s, st) && i < |s.o| && Extent(s, i, r)
    requires |data| == |s.data| && |hash| == |s.hash|
    requires ContentsExcept(r.s.o, data, st.files, s.o[i].slot) && Content(data, r.e) == bytes
    requires r.s.used == s.used + r.e.length - s.o[i].length
    ensures Represents(r.s.(data := data, hash := hash), st.(files := st.files[s.o[i].name := bytes]))
  {
    hide Content, Layout, Listed, Indexed, Stable, Dir.NameAt, TotalSize, SumTo;
    var s' := r.s.(data := data, hash := hash);
    var name := s.o[i].name;
    ExtentKeepsInv(s, i, r);
    assert Inv(s') by {
      assert s'.Leaf() == s.Leaf();
    }
    var p := PosOfSlot(r.s.o, r.e.slot);
    ContentsOfUpdate(s', p, st.files, bytes);
    assert name in st.files && |st.files[name]| == s.o[i].length;
    TotalUpdated(st.files, name, bytes);
    assert HasName(s.n, name);
  }

  /** Bytes written inside the extent of the file at r.e spoil no other file. */
  lemma WriteInside(s: State, i: nat, r: Model.Resized, files: Files, at: nat, buf: seq<byte>)
    requires i < |s.o| && Extent(s, i, r)
    requires ContentsExcept(r.s.o, r.s.data, files, s.o[i].slot)
    requires r.e.offset <= at && at + |buf| <= End(r.e)
    ensures ContentsExcept(r.s.o, Overwrite(r.s.data, at, buf), files, s.o[i].slot)
  {
    hide Content, Listed;
    var p := PosOfSlot(r.s.o, r.e.slot);
    forall k | 0 <= k < |r.s.o| && r.s.o[k].slot != s.o[i].slot
      ensures End(r.s.o[k]) <= at || at + |buf| <= r.s.o[k].offset
    {
      if k < p {
        assert Before(r.s.o[k], r.s.o[p]);
      } else {
        assert Before(r.s.o[p], r.s.o[k]);
      }
    }
    ContentsAfterWrite(r.s.o, r.s.data, Overwrite(r.s.data, at, buf), files, s.o[i].slot, at, at + |buf|);
  }

  lemma ExtendedWithZeros(was: seq<byte>, wasAt: nat, data: seq<byte>, at: nat, old_length: nat, length: nat)
    requires old_length <= length && at + length <= |data|
    requires Window(data, at, old_length) == Window(was, wasAt, old_length)
    ensures Window(Overwrite(data, at + old_length, Zeros(length - old_length)), at, length)
         == Stores.Resized(Window(was, wasAt, old_length), length)
  {
    var data' := Overwrite(data, at + old_length, Zeros(length - old_length));
    var (w, v) := (Window(data', at, length), Window(was, wasAt, old_length));
    forall k | 0 <= k < length ensures w[k] == Stores.Resized(v, length)[k] {
      if k < old_length {
        assert Window(data, at, old_length)[k] == v[k];
      }
    }
  }

  lemma OverwrittenWindow(was: seq<byte>, wasAt: nat, wasLength: nat, data: seq<byte>, at: nat, offset: nat, buf: seq<byte>)
    requires offset <= wasLength
    requires var length := if offset + |buf| > wasLength then offset + |buf| else wasLength;
             var copy := if offset + |buf| > wasLength then offset else wasLength;
             at + length <= |data| && Window(data, at, copy) == Window(was, wasAt, copy)
    ensures var length := if offset + |buf| > wasLength then offset + |buf| else wasLength;
            Window(Overwrite(data, at + offset, buf), at, length) == Written(Window(was, wasAt, wasLength), offset, buf)
  {
    var length := if offset + |buf| > wasLength then offset + |buf| else wasLength;
    var copy := if offset + |buf| > wasLength then offset else wasLength;
    var data' := Overwrite(data, at + offset, buf);
    var (w, v) := (Window(data', at, length), Window(was, wasAt, wasLength));
    forall k | 0 <= k < length ensures w[k] == Written(v, offset, buf)[k] {
      if k < offset || offset + |buf| <= k {
        assert Window(data, at, copy)[k] == Window(was, wasAt, copy)[k] == v[k];
      }
    }
  }

  lemma ExtentSizes(s: State, i: nat, r: Model.Resized)
    requires i < |s.o| && Extent(s, i, r)
    ensures |r.s.data| == |s.data| && r.s.hash == s.hash
  {
  }

  // resize_file

  lemma GrowRefines(s: State, st: Store, i: nat, length: nat, hash: seq<byte>)
    requires Represents(s, st) && i < |s.o| && s.o[i].length < length && GrowsSafely(s, i, length)
    requires s.used + length - s.o[i].length <= |s.data| && |hash| == |s.hash|
    requires s.o[i].name in st.files && st.files[s.o[i].name] == Content(s.data, s.o[i])
    ensures var (was, name) := (s.o[i].length, s.o[i].name);
            var r := ResizeHelper(s, i, length, was);
            var data := Overwrite(r.s.data, r.e.offset + was, Zeros(length - was));
            Represents(r.s.(data := data, hash := hash),
                       st.(files := st.files[name := Stores.Resized(st.files[name], length)]))
  {
    hide ResizeHelper, Content, Inv, Stable, Contents, HasName, Extent, TotalSize, Window, Overwrite, GrowsSafely;
    var was, name, files := s.o[i].length, s.o[i].name, st.files;
    ContentsToExcept(s.o, s.data, files, s.o[i].slot);
    HelperGrows(s, i, length, was, files);
    var r := ResizeHelper(s, i, length, was);
    var at, zeros := r.e.offset + was, Zeros(length - was);
    WriteInside(s, i, r, files, at, zeros);
    ExtendedWithZeros(s.data, s.o[i].offset, r.s.data, r.e.offset, was, length);
    ContentIsWindow(Overwrite(r.s.data, at, zeros), r.e);
    ContentIsWindow(s.data, s.o[i]);
    ExtentSizes(s, i, r);
    UpdateRepresents(s, st, i, r, Overwrite(r.s.data, at, zeros), hash, Stores.Resized(files[name], length));
  }

  lemma ShrinkRefines(s: State, st: Store, i: nat, length: nat, copy: nat)
    requires Represents(s, st) && i < |s.o| && length < s.o[i].length
    requires s.o[i].name in st.files && st.files[s.o[i].name] == Content(s.data, s.o[i])
    ensures var name := s.o[i].name;
            Represents(ResizeHelper(s, i, length, copy).s,
                       st.(files := st.files[name := Stores.Resized(st.files[name], length)]))
  {
    hide ResizeHelper, Content, Inv, Stable, Contents, HasName, Extent, TotalSize, Window;
    var name, files := s.o[i].name, st.files;
    ContentsToExcept(s.o, s.data, files, s.o[i].slot);
    HelperShrinks(s, i, length, copy);
    var r := ResizeHelper(s, i, length, copy);
    ContentsOfShrunk(s.o, s.data, files, i, r.e);
    PrefixOfContent(s.data, s.o[i], length);
    ExtentSizes(s, i, r);
    UpdateRepresents(s, st, i, r, s.data, s.hash, Stores.Resized(files[name], length));
  }

  lemma ResizeRefines(s: State, st: Store, op: Op)
    requires op.Resize? && Represents(s, st) && OrderSafe(s, op)
    ensures Represents(Step(s, op).0, Apply(st, op).0) && Step(s, op).1 == Apply(st, op).1
  {
    hide Lookup, ResizeHelper, Content, Inv, Stable, Contents, TotalSize, HashTree.Rehash, Overwrite, Truncate, HasName,
      GrowsSafely;
    var length := op.length;
    LookupFinds(s, st, op.name);
    var i := Lookup(s, op.name);
    if i >= 0 && s.used + length - s.o[i].length <= |s.data| {
      var was, name, files := s.o[i].length, s.o[i].name, st.files;
      var bytes := Stores.Resized(files[name], length);
      if length > was {
        var s' := Step(s, op).0;
        HelperKeepsHash(s, i, length, was);
        GrowRefines(s, st, i, length, s'.hash);
      } else if length < was {
        ShrinkRefines(s, st, i, length, was);
      } else {
        assert bytes == files[name];
        assert files[name := bytes] == files;
      }
    }
  }

  lemma HelperKeepsHash(s: State, i: nat, length: nat, copy: nat)
    requires Inv(s) && i < |s.o|
    ensures var r := ResizeHelper(s, i, length, copy);
            r.s.hash == s.hash && |r.s.data| == |s.data| && r.e.length == length
  {
    hide MoveData, InsertEntry, Dir.SetOffset, Dir.SetLength, Model.Repack, Dir.Mirror, Indexed, Layout, Listed, Linked,
      Compacted, Content, NeedsMove, NextNonzero, SumTo, Stable;
    RepackIsExact(s.(o := Removed(s.o, i))) by {
      RemoveKeepsLayout(s.o, |s.data|, i);
    }
  }

  lemma ContentIsWindow(data: seq<byte>, e: Entry)
    ensures Content(data, e) == Window(data, e.offset, e.length)
  {
  }

  lemma PrefixOfContent(data: seq<byte>, e: Entry, length: nat)
    requires length <= e.length
    ensures Content(data, e.(length := length)) == Stores.Resized(Content(data, e), length)
  {
  }

  lemma ContentsOfShrunk(o: seq<Entry>, data: seq<byte>, files: Files, i: nat, e: Entry)
    requires i < |o| && e.slot == o[i].slot && ContentsExcept(o, data, files, e.slot)
    ensures ContentsExcept(o[i := e], data, files, e.slot)
  {
    hide Content;
  }

  // write_file

  lemma CopyRefines(s: State, st: Store, i: nat, offset: nat, buf: seq<byte>, hash: seq<byte>)
    requires Represents(s, st) && i < |s.o| && offset <= s.o[i].length && |buf| > 0
    requires offset + |buf| > s.o[i].length ==> GrowsSafely(s, i, offset + |buf|)
    requires s.used + offset + |buf| - s.o[i].length <= |s.data| && |hash| == |s.hash|
    requires s.o[i].name in st.files && st.files[s.o[i].name] == Content(s.data, s.o[i])
    ensures var r, name := MakeRoom(s, i, offset, |buf|), s.o[i].name;
            var data := Overwrite(r.s.data, r.e.offset + offset, buf);
            Represents(r.s.(data := data, hash := hash),
                       st.(files := st.files[name := Written(st.files[name], offset, buf)]))
  {
    hide ResizeHelper, Content, Inv, Stable, Contents, HasName, Extent, TotalSize, Window, Overwrite, GrowsSafely;
    var was, name, files := s.o[i].length, s.o[i].name, st.files;
    ContentsToExcept(s.o, s.data, files, s.o[i].slot);
    ContentIsWindow(s.data, s.o[i]);
    var r := MakeRoom(s, i, offset, |buf|);
    if offset + |buf| > was {
      HelperGrows(s, i, offset + |buf|, offset, files);
    } else {
      SelfExtent(s, i);
      FileInStore(s, i);
    }
    var data := Overwrite(r.s.data, r.e.offset + offset, buf);
    WriteInside(s, i, r, files, r.e.offset + offset, buf);
    OverwrittenWindow(s.data, s.o[i].offset, was, r.s.data, r.e.offset, offset, buf);
    ContentIsWindow(data, r.e);
    ExtentSizes(s, i, r);
    UpdateRepresents(s, st, i, r, data, hash, Written(files[name], offset, buf));
  }

  lemma WriteRefines(s: State, st: Store, op: Op)
    requires op.Write? && Represents(s, st) && OrderSafe(s, op)
    ensures Represents(Step(s, op).0, Apply(st, op).0) && Step(s, op).1 == Apply(st, op).1
  {
    hide Lookup, ResizeHelper, Content, Inv, Stable, Contents, TotalSize, HashTree.Rehash, Overwrite, Truncate, HasName,
      GrowsSafely;
    var offset, buf := op.offset, op.buf;
    LookupFinds(s, st, op.name);
    var i := Lookup(s, op.name);
    if i >= 0 && offset <= s.o[i].length && s.used + offset + |buf| - s.o[i].length <= |s.data| {
      var name, files := s.o[i].name, st.files;
      var bytes := Written(files[name], offset, buf);
      if |buf| == 0 {
        assert bytes == files[name];
        assert files[name := bytes] == files;
      } else {
        var s' := Step(s, op).0;
        HelperKeepsHash(s, i, offset + |buf|, offset);
        CopyRefines(s, st, i, offset, buf, s'.hash);
      }
    }
  }

  // repack

  lemma RepackRefines(s: State, st: Store)
    requires Represents(s, st)
    ensures Represents(Model.Repack(s).0, st)
  {
    hide Content, Layout, Listed, Indexed, Linked, Stable, Compacted, TotalSize, HasName, Model.Repack, SumTo;
    RepackKeepsInv(s);
    RepackIsExact(s);
    var s' := Model.Repack(s).0;
    forall i | 0 <= i < |s'.o|
      ensures s'.o[i].name in st.files && st.files[s'.o[i].name] == Content(s'.data, s'.o[i])
    {
      assert s'.o[i] == s.o[i].(offset := s'.o[i].offset);
    }
    assert s'.count == |s'.o|;
  }

  lemma HashIsFree(s: State, st: Store, hash: seq<byte>)
    requires Represents(s, st) && |hash| == |s.hash|
    ensures Represents(s.(hash := hash), st)
  {
    hide Content, Layout, Listed, Indexed, Linked, Stable, TotalSize, HasName;
    assert s.(hash := hash).Leaf() == s.Leaf();
  }

  // create_file

  lemma HasNameInserted(n: seq<Entry>, p: nat, e: Entry, x: seq<byte>)
    requires p <= |n|
    ensures HasName(Inserted(n, p, e), x) <==> x == e.name || HasName(n, x)
  {
    var n' := Inserted(n, p, e);
    assert n'[p] == e;
    if HasName(n, x) {
      var j :| 0 <= j < |n| && n[j].name == x;
      assert n'[if j < p then j else j + 1] == n[j];
    }
  }

  lemma ContentsAdded(o: seq<Entry>, data: seq<byte>, data': seq<byte>, files: Files, p: nat, e: Entry)
    requires Contents(o, data, files) && p <= |o| && e.name !in files
    requires SameOutside(data, data', e.offset, End(e))
    requires e.length > 0 ==> Fits(o, |data|, e.offset, e.length)
    requires Content(data', e) == Zeros(e.length)
    ensures Contents(Inserted(o, p, e), data', files[e.name := Zeros(e.length)])
  {
    hide Content;
    var o', files' := Inserted(o, p, e), files[e.name := Zeros(e.length)];
    forall k | 0 <= k < |o| ensures Content(data', o[k]) == Content(data, o[k]) {
      if o[k].length == 0 {
        EmptyContent(data, data', o[k], o[k]);
      } else if e.length == 0 {
        assert data' == data;
      } else {
        ContentSame(data, data', e.offset, End(e), o[k]);
      }
    }
    forall i | 0 <= i < |o'| ensures o'[i].name in files' && files'[o'[i].name] == Content(data', o'[i]) {
      if i != p {
        var k := if i < p then i else i - 1;
        assert o'[i] == o[k] && o[k].name in files;
      }
    }
  }

  lemma AddRefines(s: State, st: Store, e: Entry, data: seq<byte>, hash: seq<byte>)
    requires Represents(s, st) && |hash| == |s.hash|
    requires e.slot < |s.slots| && s.slots[e.slot] == 0 && IsName(e.name) && e.name != [] && e.name !in st.files
    requires forall k :: 0 <= k < |s.o| ==> s.o[k].slot != e.slot
    requires if e.length == 0 then e.offset == MAX_FILE_DATA_LEN && data == s.data
             else Fits(s.o, |s.data|, e.offset, e.length) && NoEmptyInside(s.o, e.offset, e.length)
                  && data == Overwrite(s.data, e.offset, Zeros(e.length))
    ensures Represents(AddFile(s, e).(data := data, used := s.used + e.length, hash := hash),
                       st.(files := st.files[e.name := Zeros(e.length)]))
  {
    hide Content, Contents, Inv, TotalSize, HasName, GetIndex, IsName, Overwrite, AddFile, NoEmptyInside, Fits;
    var was := AddFile(s, e).(used := s.used + e.length);
    forall k | 0 <= k < |s.o| ensures s.o[k].name != e.name {
      KnownName(s, st, k);
    }
    AddFileKeepsInv(s, e);
    AddFileKeepsData(s, e);
    AddedContents(s, st, e, data);
    TotalUpdated(st.files, e.name, Zeros(e.length));
    OtherBytesKeepInv(was, data, hash);
  }

  lemma KnownName(s: State, st: Store, k: nat)
    requires Represents(s, st) && k < |s.o|
    ensures s.o[k].name in st.files
  {
  }

  lemma OtherBytesKeepInv(s: State, data: seq<byte>, hash: seq<byte>)
    requires Inv(s) && |data| == |s.data| && |hash| == |s.hash|
    ensures Inv(s.(data := data, hash := hash))
  {
    hide Layout, Listed, Linked, Indexed, SumTo;
    assert s.(data := data, hash := hash).Leaf() == s.Leaf();
  }

  /** A new file adds its name to both arrays and its null bytes to the store, and changes no other file. */
  lemma AddedContents(s: State, st: Store, e: Entry, data: seq<byte>)
    requires Represents(s, st) && e.name !in st.files
    requires GetIndex(e, s.o, OFFSET, true) >= 0 && GetIndex(e, s.n, NAME, true) >= 0
    requires if e.length == 0 then data == s.data
             else Fits(s.o, |s.data|, e.offset, e.length) && data == Overwrite(s.data, e.offset, Zeros(e.length))
    ensures var s' := AddFile(s, e);
            && Contents(s'.o, data, st.files[e.name := Zeros(e.length)])
            && forall x :: HasName(s'.n, x) <==> x == e.name || HasName(s.n, x)
  {
    hide Content, Inv, TotalSize, HasName, GetIndex, Overwrite, Contents;
    var p, q := GetIndex(e, s.o, OFFSET, true), GetIndex(e, s.n, NAME, true);
    NewBytes(s.data, e);
    ContentsAdded(s.o, s.data, data, st.files, p, e);
    forall x ensures HasName(AddFile(s, e).n, x) <==> x == e.name || HasName(s.n, x) {
      HasNameInserted(s.n, q, Blank(e), x);
    }
  }

  lemma AddFileKeepsData(s: State, e: Entry)
    ensures var s' := AddFile(s, e);
            s'.data == s.data && s'.hash == s.hash && s'.used == s.used && |s'.slots| == |s.slots| && s'.count == s.count + 1
  {
  }

  lemma NewBytes(data: seq<byte>, e: Entry)
    ensures SameOutside(data, Overwrite(data, e.offset, Zeros(e.length)), e.offset, End(e))
    ensures End(e) <= |data| || e.length == 0 ==> Content(Overwrite(data, e.offset, Zeros(e.length)), e) == Zeros(e.length)
    ensures e.length == 0 ==> Overwrite(data, e.offset, Zeros(e.length)) == data
  {
  }

  lemma CreateRefines(s: State, st: Store, op: Op)
    requires op.Create? && Represents(s, st) && Safe(s, op)
    ensures Represents(Step(s, op).0, Apply(st, op).0) && Step(s, op).1 == Apply(st, op).1
  {
    hide Lookup, Content, Layout, Listed, Indexed, Linked, Stable, TotalSize, HashTree.Rehash, HasName, NewOffset, AddFile,
      Contents, FreeSlot, Model.Repack, Overwrite, Fits, SumTo, NoEmptyInside, CreatesSafely;
    var length := op.length;
    LookupFinds(s, st, op.name);
    if Lookup(s, op.name) < 0 && s.used + length <= |s.data| && s.count < |s.slots| {
      var p := NewOffset(s, length);
      var e := Entry(Truncate(op.name), p.offset, length, FreeSlot(s.slots));
      PlacementRefines(s, st, length);
      FreeSlotExists(p.s);
      TruncateIsName(op.name);
      var s' := Step(s, op).0;
      AddFileKeepsData(p.s, e);
      var data := if length == 0 then p.s.data else Overwrite(p.s.data, p.offset, Zeros(length));
      AddRefines(p.s, st, e, data, s'.hash);
    }
  }

  lemma TruncateIsName(s: seq<byte>)
    requires IsCString(s)
    ensures IsName(Truncate(s)) && Truncate(s) != []
  {
  }

  lemma PlacementRefines(s: State, st: Store, length: nat)
    requires Represents(s, st) && s.used + length <= |s.data| && CreatesSafely(s, length)
    ensures var p := NewOffset(s, length);
            && Represents(p.s, st) && p.s.slots == s.slots && p.s.used == s.used && p.s.n == s.n && p.s.count == s.count
            && p.s.hash == s.hash
            && if length == 0 then p.offset == MAX_FILE_DATA_LEN && p.h == -1
               else Fits(p.s.o, |p.s.data|, p.offset, length) && NoEmptyInside(p.s.o, p.offset, length)
  {
    hide Content, Layout, Listed, Indexed, Linked, Stable, Compacted, TotalSize, HasName, Model.Repack, SumTo, Contents, Fits,
      NoEmptyInside;
    RepackRefines(s, st);
    RepackIsExact(s);
    if length > 0 {
      NewOffsetFits(s, length);
      NewOffsetIsClear(s, length);
    }
  }

  lemma NewOffsetIsClear(s: State, length: nat)
    requires Inv(s) && length > 0 && s.used + length <= |s.data| && CreatesSafely(s, length)
    ensures var p := NewOffset(s, length); NoEmptyInside(p.s.o, p.offset, length)
  {
    hide Content, Listed, Indexed, Linked, Compacted, Model.Repack, SumTo, Fits, NoEmptyInside, FreeOffset;
    if FreeOffset(s.o, |s.data|, length) < 0 {
      RepackIsExact(s);
      FreeOffsetIsFirst(s.o, |s.data|, length);
      if s.used == 0 {
        NothingInTheWay(s.o, |s.data|, length);
      }
      assert s.used > 0;
      CompactedNoEmptyInside(s.o, Model.Repack(s).0.o, |s.data|, length);
    }
  }

  // delete_file

  lemma DeleteRefines(s: State, st: Store, op: Op)
    requires op.Delete? && Represents(s, st)
    ensures Represents(Step(s, op).0, Apply(st, op).0) && Step(s, op).1 == Apply(st, op).1
  {
    hide Lookup, Content, Layout, Listed, Indexed, Linked, Stable, TotalSize, HasName, Truncate, SumTo, PosOfSlot;
    LookupFinds(s, st, op.name);
    var i := Lookup(s, op.name);
    if i >= 0 {
      var name, s' := s.o[i].name, Step(s, op).0;
      DeleteKeepsInv(s, op.name);
      TotalWithout(st.files, name);
      SizeWithout(st.files, name);
      forall x ensures HasName(s'.n, x) <==> x != name && HasName(s.n, x) {
        NamesWithout(s, s', i, x);
      }
      forall k | 0 <= k < |s'.o|
        ensures s'.o[k].name in st.files - {name} && st.files[s'.o[k].name] == Content(s'.data, s'.o[k])
      {
        var m := if k < i then k else k + 1;
        assert s'.o[k] == s.o[m];
        if s.o[m].name == name {
          NamesDistinct(s, m, i);
        }
      }
    }
  }

  lemma NamesWithout(s: State, s': State, i: nat, x: seq<byte>)
    requires Inv(s) && i < |s.o| && Elems(s'.n) == Elems(s.n) - {Blank(s.o[i])}
    ensures HasName(s'.n, x) <==> x != s.o[i].name && HasName(s.n, x)
  {
    hide Layout, Listed, Blanks, NameCmp;
    var name := s.o[i].name;
    if HasName(s'.n, x) {
      var j :| 0 <= j < |s'.n| && s'.n[j].name == x;
      assert s'.n[j] in Elems(s'.n);
      var k :| 0 <= k < |s.n| && s.n[k] == s'.n[j];
      if x == name {
        SameNameSameElement(s, i, k);
      }
    }
    if x != name && HasName(s.n, x) {
      var j :| 0 <= j < |s.n| && s.n[j].name == x;
      assert s.n[j] in Elems(s'.n);
    }
  }

  lemma SameNameSameElement(s: State, i: nat, k: nat)
    requires Inv(s) && i < |s.o| && k < |s.n| && s.n[k].name == s.o[i].name
    ensures s.n[k] == Blank(s.o[i])
  {
    hide Layout, Listed, Indexed, Blanks;
    var m := InOffsetArray(s, k);
    NamesDistinct(s, m, i);
  }

  // rename_file

  lemma RenameRefines(s: State, st: Store, op: Op)
    requires op.Rename? && Represents(s, st) && Safe(s, op)
    ensures Represents(Step(s, op).0, Apply(st, op).0) && Step(s, op).1 == Apply(st, op).1
  {
    hide Lookup, Content, Layout, Listed, Indexed, Linked, TotalSize, HasName, Truncate, SumTo, PosOfSlot,
      BetweenNeighbours, Dir.SetName;
    LookupFinds(s, st, op.name);
    LookupFinds(s, st, op.newName);
    var i, name := Lookup(s, op.name), Truncate(op.newName);
    if i >= 0 && op.name != op.newName && Lookup(s, op.newName) < 0 {
      TruncateIsName(op.newName);
      RenameKeepsInv(s, i, name);
      var s' := Step(s, op).0;
      RenamedSize(st.files, s.o[i].name, name);
      forall x ensures HasName(s'.n, x) <==> x == name || (x != s.o[i].name && HasName(s.n, x)) {
        NamesRenamed(s, i, name, x);
      }
      ContentsRenamed(s, i, name, st.files);
    }
  }

  lemma NamesRenamed(s: State, i: nat, name: seq<byte>, x: seq<byte>)
    requires Inv(s) && i < |s.o|
    ensures var j := PosOfSlot(s.n, s.o[i].slot);
            && j < |s.n|
            && (HasName(s.n[j := Blank(s.o[i].(name := name))], x) <==> x == name || (x != s.o[i].name && HasName(s.n, x)))
  {
    hide Layout, Listed, Indexed, Linked, PosOfSlot;
    NamePosition(s, i);
    var j := PosOfSlot(s.n, s.o[i].slot);
    var n' := s.n[j := Blank(s.o[i].(name := name))];
    assert n'[j].name == name;
    if HasName(n', x) && x != name {
      var k :| 0 <= k < |n'| && n'[k].name == x;
      if x == s.o[i].name {
        SameNameSamePosition(s, j, k);
      }
    }
    if x != s.o[i].name && HasName(s.n, x) {
      var k :| 0 <= k < |s.n| && s.n[k].name == x;
      assert n'[k].name == x;
    }
  }

  lemma SameNameSamePosition(s: State, j: nat, k: nat)
    requires Inv(s) && j < |s.n| && k < |s.n| && s.n[j].name == s.n[k].name
    ensures j == k
  {
    NameCmpReflects(s.n[j].name, s.n[k].name);
  }

  lemma ContentsRenamed(s: State, i: nat, name: seq<byte>, files: Files)
    requires Inv(s) && i < |s.o| && Contents(s.o, s.data, files) && name !in files
    ensures Contents(s.o[i := s.o[i].(name := name)], s.data, (files - {s.o[i].name})[name := files[s.o[i].name]])
  {
    hide Content, Layout, Listed, Indexed, Linked;
    SameContent(s.data, s.o[i], name);
    forall k | 0 <= k < |s.o| && k != i ensures s.o[k].name != s.o[i].name {
      if s.o[k].name == s.o[i].name {
        NamesDistinct(s, k, i);
      }
    }
  }

  lemma SameContent(data: seq<byte>, e: Entry, name: seq<byte>)
    ensures Content(data, e.(name := name)) == Content(data, e)
  {
  }

  // read_file

  lemma SliceOfContent(data: seq<byte>, e: Entry, offset: nat, count: nat)
    requires offset + count <= e.length
    ensures Window(data, e.offset + offset, count) == Content(data, e)[offset..offset + count]
  {
  }

  /** A read that returns 0 delivers the exact slice; the only other result a read of existing bytes can have is 3. */
  lemma ReadRefines(s: State, st: Store, op: Op)
    requires op.Read? && Represents(s, st)
    ensures Represents(Step(s, op).0, Apply(st, op).0)
    ensures Step(s, op).1 == Apply(st, op).1 || (Step(s, op).1 == Outcome(3, []) && Apply(st, op).1.code == 0)
  {
    hide Lookup, Content, Inv, Stable, TotalSize, HasName, Truncate, HashTree.Verified;
    LookupFinds(s, st, op.name);
    var i := Lookup(s, op.name);
    if i >= 0 && op.offset + op.count <= s.o[i].length {
      SliceOfContent(s.data, s.o[i], op.offset, op.count);
    }
  }

  /** On a valid tree read_file never returns 3. */
  lemma ReadIsExact(s: State, st: Store, op: Op)
    requires op.Read? && Represents(s, st) && HashTree.ValidTree(s.data, s.hash, s.Leaf())
    ensures Step(s, op).1 == Apply(st, op).1
  {
    hide Lookup, Content, TotalSize, HasName, Truncate, HashTree.ValidTree, HashTree.Verified, Layout, Listed, Indexed, Blanks;
    ReadRefines(s, st, op);
    var i := Lookup(s, op.name);
    if i >= 0 && op.offset + op.count <= s.o[i].length {
      if op.count == 0 {
        NothingToVerify(s, s.o[i].offset + op.offset);
      } else {
        FileInStore(s, i);
        HashTree.ValidTreeVerifies(s.data, s.hash, s.Leaf(), s.o[i].offset + op.offset, op.count);
      }
    }
  }

  lemma NothingToVerify(s: State, offset: nat)
    ensures HashTree.Verified(s.data, s.hash, s.Leaf(), offset, 0)
  {
  }

  // All operations, and runs

  /** One operation: the new state stands for the new map and the results agree,
      except that a read may report 3 where the map would deliver bytes. */
  lemma StepRefines(s: State, st: Store, op: Op)
    requires Represents(s, st) && Safe(s, op)
    ensures Represents(Step(s, op).0, Apply(st, op).0)
    ensures Step(s, op).1 == Apply(st, op).1
         || (op.Read? && Step(s, op).1 == Outcome(3, []) && Apply(st, op).1.code == 0)
  {
    hide Represents, Model.Create, Model.Resize, Model.Write, Model.Delete, Model.Read, Model.Rename, RepackAll,
      Model.Size, OrderSafe;
    match op
    case Create(_, _) => CreateRefines(s, st, op);
    case Resize(_, _) => ResizeRefines(s, st, op);
    case Write(_, _, _) => WriteRefines(s, st, op);
    case Read(_, _, _) => ReadRefines(s, st, op);
    case Delete(_) => DeleteRefines(s, st, op);
    case Rename(_, _) => RenameRefines(s, st, op);
    case Size(_) => SizeRefines(s, st, op);
    case Repack => RepackAllRefines(s, st);
  }

  lemma SizeRefines(s: State, st: Store, op: Op)
    requires op.Size? && Represents(s, st)
    ensures Step(s, op) == (s, Apply(st, op).1) && Apply(st, op).0 == st
  {
    hide Lookup, Inv, Stable, TotalSize, HasName, Truncate;
    LookupFinds(s, st, op.name);
  }

  lemma RepackAllRefines(s: State, st: Store)
    requires Represents(s, st)
    ensures Represents(RepackAll(s), st)
  {
    hide Represents, Model.Repack, HashTree.Rehash;
    RepackRefines(s, st);
    var (s', h) := Model.Repack(s);
    if h >= 0 {
      HashIsFree(s', st, Model.Rehash(s', h, s'.used - h).hash);
    }
  }

  ghost function Run(s: State, ops: seq<Op>): (State, seq<Outcome>)
    decreases |ops|
  {
    if |ops| == 0 then (s, [])
    else
      var (s', out) := Step(s, ops[0]);
      var (s'', outs) := Run(s', ops[1..]);
      (s'', [out] + outs)
  }

  ghost function ApplyAll(st: Store, ops: seq<Op>): (Store, seq<Outcome>)
    decreases |ops|
  {
    if |ops| == 0 then (st, [])
    else
      var (st', out) := Apply(st, ops[0]);
      var (st'', outs) := ApplyAll(st', ops[1..]);
      (st'', [out] + outs)
  }

  ghost predicate SafeRun(s: State, ops: seq<Op>)
    decreases |ops|
  {
    |ops| == 0 || (Safe(s, ops[0]) && SafeRun(Step(s, ops[0]).0, ops[1..]))
  }

  /** The results of a run agree, except that a read may report 3. */
  ghost predicate Agree(ops: seq<Op>, outs: seq<Outcome>, outs': seq<Outcome>) {
    && |ops| == |outs| == |outs'|
    && forall i :: 0 <= i < |ops| ==> outs[i] == outs'[i] || (ops[i].Read? && outs[i] == Outcome(3, []))
  }

  /** Every safe run behaves as the map from names to bytes, and ends in a state that keeps the layout,
      the accounts, both arrays, the slot map and the mirror in dir_table. */
  lemma {:induction false} RunRefines(s: State, st: Store, ops: seq<Op>)
    requires Represents(s, st) && SafeRun(s, ops)
    ensures Represents(Run(s, ops).0, ApplyAll(st, ops).0)
    ensures Agree(ops, Run(s, ops).1, ApplyAll(st, ops).1)
    decreases |ops|
  {
    hide Represents, Safe, Step, Apply;
    if |ops| > 0 {
      StepRefines(s, st, ops[0]);
      RunRefines(Step(s, ops[0]).0, Apply(st, ops[0]).0, ops[1..]);
    }
  }
}
