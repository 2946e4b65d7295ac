// Any one operation does what the map does, even one that loses the order of an array:
// what is lost with the order shows only in later operations.
module AnyStep {
  import opened Structs
  import opened Bytes
  import opened Search
  import opened Model
  import opened Layouts
  import opened Placements
  import opened Invariants
  import opened Growth
  import opened Membership
  import opened Stores
  import opened Refinement
  import opened Soundness
  import opened SoundSteps
  import HashTree
  import Dir = Directory

  // create_file over an empty file

  lemma CreateCarries(s: State, st: Store, op: Op)
    requires op.Create? && Represents(s, st) && Named(op) && !OrderSafe(s, op)
    ensures Carries(Step(s, op).0, Apply(st, op).0) && Step(s, op).1 == Apply(st, op).1
  {
    hide Lookup, Content, Layout, Listed, Linked, TotalSize, HashTree.Rehash, HasName, FreeSlot, Overwrite, Fits,
      SumTo, NoEmptyInside, GetIndex, FreeOffset, Dir.WriteRecord, IsName, Contents, Dir.NameAt, Keyed, InsertName, Truncate;
    var length, s' := op.length, Step(s, op).0;
    LookupFinds(s, st, op.name);
    var x := FreeOffset(s.o, |s.data|, length);
    FreeOffsetIsFirst(s.o, |s.data|, length);
    FreeSlotExists(s);
    TruncateIsName(op.name);
    var e := Entry(Truncate(op.name), x, length, FreeSlot(s.slots));
    PlacedIndex(s.o, |s.data|, e);
    forall j | 0 <= j < |s.n| ensures s.n[j].name != e.name {
      var k := InOffsetArray(s, j);
      KnownName(s, st, k);
    }
    KeyedAdded(s.n, s.slots, e);
    var p, q := GetIndex(e, s.o, OFFSET, true), GetIndex(e, s.n, NAME, true);
    NewBytes(s.data, e);
    ContentsAdded(s.o, s.data, s'.data, st.files, p, e);
    forall y ensures HasName(s'.n, y) <==> y == e.name || HasName(s.n, y) {
      HasNameInserted(s.n, q, Blank(e), y);
    }
    TotalUpdated(st.files, e.name, Zeros(length));
  }

  // rename_file past a neighbour

  lemma RenameCarries(s: State, st: Store, op: Op)
    requires op.Rename? && Represents(s, st)
    ensures Carries(Step(s, op).0, Apply(st, op).0) && Step(s, op).1 == Apply(st, op).1
  {
    hide Lookup, Content, Inv, TotalSize, HasName, Truncate, PosOfSlot, Dir.SetName, Contents;
    LookupFinds(s, st, op.name);
    LookupFinds(s, st, op.newName);
    var i, name := Lookup(s, op.name), Truncate(op.newName);
    if i >= 0 && op.name != op.newName && Lookup(s, op.newName) < 0 {
      var s' := Step(s, op).0;
      RenamedSize(st.files, s.o[i].name, name);
      NamesRenamed(s, i, name, name);
      forall x ensures HasName(s'.n, x) <==> x == name || (x != s.o[i].name && HasName(s.n, x)) {
        NamesRenamed(s, i, name, x);
      }
      ContentsRenamed(s, i, name, st.files);
    }
  }

  // Growth

  /** The files around file i after it grew: none of their bytes changed, and none lie in its new place. */
  ghost predicate GrewAmong(s: State, i: nat, length: nat, copy: nat, r: Model.Resized, files: Files)
    requires i < |s.o|
  {
    && r.s == s.(o := r.s.o, data := r.s.data, dir := r.s.dir, used := r.s.used) && |r.s.data| == |s.data|
    && |r.s.o| == |s.o| && r.s.used == s.used + length - s.o[i].length
    && r.e == s.o[i].(offset := r.e.offset, length := length) && End(r.e) <= |s.data|
    && (exists p: nat :: IsAt(r.s.o, p, r.e))
    && ContentsExcept(r.s.o, r.s.data, files, r.e.slot)
    && Apart(r.s.o, r.e)
    && Window(r.s.data, r.e.offset, copy) == Window(s.data, s.o[i].offset, copy)
  }

  /** Entry e lies at position p, and no other has its slot or its name. */
  ghost predicate IsAt(o: seq<Entry>, p: nat, e: Entry) {
    p < |o| && o[p] == e && forall k :: 0 <= k < |o| && k != p ==> o[k].slot != e.slot && o[k].name != e.name
  }

  /** No other non-empty file shares bytes with e. */
  ghost predicate Apart(o: seq<Entry>, e: Entry) {
    forall k :: 0 <= k < |o| && o[k].slot != e.slot && o[k].length > 0 ==> End(o[k]) <= e.offset || End(e) <= o[k].offset
  }

  lemma OthersDiffer(s: State, i: nat, k: nat)
    requires Inv(s) && i < |s.o| && k < |s.o| && k != i
    ensures s.o[k].slot != s.o[i].slot && s.o[k].name != s.o[i].name
  {
    hide Layout, Linked, Indexed, Dir.Mirror;
    if s.o[k].name == s.o[i].name {
      NamesDistinct(s, k, i);
    }
  }

  lemma GrowsInPlace(s: State, i: nat, length: nat, copy: nat, files: Files)
    requires Inv(s) && i < |s.o| && copy <= s.o[i].length < length && !NeedsMove(s, i, length)
    requires ContentsExcept(s.o, s.data, files, s.o[i].slot)
    ensures GrewAmong(s, i, length, copy, ResizeHelper(s, i, length, copy), files)
  {
    hide NeedsMove, PosOfSlot, Dir.SetLength, Window, Listed, Linked, Indexed, SumTo, Content, Layout;
    FitsInPlace(s, i, length);
    PosInListed(s.o, s.dir, |s.slots|, i);
    var r := ResizeHelper(s, i, length, copy);
    forall k | 0 <= k < |s.o| && k != i
      ensures s.o[k].slot != s.o[i].slot && s.o[k].name != s.o[i].name
      ensures s.o[k].length > 0 ==> End(s.o[k]) <= s.o[i].offset || s.o[i].offset + length <= s.o[k].offset
    {
      OthersDiffer(s, i, k);
      if s.o[k].length > 0 {
        BesideNext(s, i, length, k);
      }
    }
    assert IsAt(r.s.o, i, r.e);
    ContentsOfShrunk(s.o, s.data, files, i, r.e);
  }

  lemma BesideNext(s: State, i: nat, length: nat, k: nat)
    requires Inv(s) && i < |s.o| && k < |s.o| && k != i && s.o[k].length > 0
    requires length > s.o[i].length && !NeedsMove(s, i, length)
    ensures End(s.o[k]) <= s.o[i].offset || s.o[i].offset + length <= s.o[k].offset
  {
    hide Minus64, NextNonzero, Listed, Linked, Indexed;
    var o, cap := s.o, |s.data|;
    var c := NextNonzero(o, i + 1);
    NextNonzeroIs(o, cap, i + 1);
    assert Placed(o[i], cap) && Placed(o[k], cap);
    if k < i {
      assert Before(o[k], o[i]);
    } else {
      assert Before(o[i], o[c]) && Placed(o[c], cap);
      Minus64Exact(o[c].offset, o[i].offset);
      if c < k {
        assert Before(o[c], o[k]);
      }
    }
  }

  /** An empty file that grows wherever it is sent to. */
  lemma EmptyGrows(s: State, i: nat, length: nat, files: Files)
    requires Inv(s) && i < |s.o| && 0 == s.o[i].length < length && NeedsMove(s, i, length)
    requires s.used + length <= |s.data|
    requires ContentsExcept(s.o, s.data, files, s.o[i].slot)
    ensures GrewAmong(s, i, length, 0, ResizeHelper(s, i, length, 0), files)
  {
    hide Model.Repack, Listed, Linked, Indexed, NeedsMove, PosOfSlot, Dir.SetLength, Dir.SetOffset, Layout, SumTo, Compacted,
      Content, InsertEntry, PacksForEmpty, Relocate;
    var s1 := s.(o := Removed(s.o, i));
    var packs := PacksForEmpty(s, i, length);
    var (s2, h) := if packs then Model.Repack(s1) else (s1, -1);
    var e := s.o[i].(offset := if packs then s.used else 0);
    RelocateEmptyIs(s, i, length);
    RemoveKeepsLayout(s.o, |s.data|, i);
    RepackIsExact(s1);
    RelocatedListed(s, i, s2, |s2.o|, e);
    var e' := e.(length := length);
    var r := ResizeHelper(s, i, length, 0);
    assert r.s.o == Inserted(s2.o, |s2.o|, e)[|s2.o| := e'] && r.e == e';
    ContentsOfRemoved(s.o, s.data, files, e.slot, i);
    ContentsAfterRepack(s1, files, e.slot);
    ContentsOfInserted(s2.o, s2.data, files, |s2.o|, e);
    ContentsOfShrunk(Inserted(s2.o, |s2.o|, e), s2.data, files, |s2.o|, e');
    forall k | 0 <= k < |s2.o|
      ensures s2.o[k].slot != e.slot && s2.o[k].name != e.name
      ensures s2.o[k].length > 0 ==> End(s2.o[k]) <= e'.offset || End(e') <= s2.o[k].offset
    {
      OtherThanEmpty(s, i, length, s2, k);
    }
    assert IsAt(r.s.o, |s2.o|, r.e);
  }

  /** The other files in front of an empty one that grows. */
  lemma OtherThanEmpty(s: State, i: nat, length: nat, s2: State, k: nat)
    requires Inv(s) && i < |s.o| && s.o[i].length == 0 && length > 0
    requires var s1 := s.(o := Removed(s.o, i)); s2 == if PacksForEmpty(s, i, length) then Model.Repack(s1).0 else s1
    requires k < |s2.o|
    ensures s2.o[k].slot != s.o[i].slot && s2.o[k].name != s.o[i].name
    ensures s2.o[k].length > 0 ==>
              if PacksForEmpty(s, i, length) then End(s2.o[k]) <= s.used else length <= s2.o[k].offset
  {
    hide Inv, Model.Repack, Content, PacksForEmpty, Compacted, SumTo;
    var s1 := s.(o := Removed(s.o, i));
    OthersMoved(s, i);
    OthersDiffer(s, i, if k < i then k else k + 1);
    if s2.o[k].length > 0 {
      BesideEmpty(s, i, length, s2, k);
    }
  }

  lemma OthersMoved(s: State, i: nat)
    requires Inv(s) && i < |s.o|
    ensures var (s1, s2) := (s.(o := Removed(s.o, i)), Model.Repack(s.(o := Removed(s.o, i))).0);
            |s2.o| == |s1.o| && forall k :: 0 <= k < |s2.o| ==> s2.o[k] == s1.o[k].(offset := s2.o[k].offset)
  {
    hide Model.Repack, Listed, Linked, Indexed, Content, SumTo;
    RemoveKeepsLayout(s.o, |s.data|, i);
    RepackIsExact(s.(o := Removed(s.o, i)));
  }

  lemma BesideEmpty(s: State, i: nat, length: nat, s2: State, k: nat)
    requires Inv(s) && i < |s.o| && s.o[i].length == 0 && length > 0
    requires var s1 := s.(o := Removed(s.o, i)); s2 == if PacksForEmpty(s, i, length) then Model.Repack(s1).0 else s1
    requires k < |s2.o| && s2.o[k].length > 0
    ensures if PacksForEmpty(s, i, length) then End(s2.o[k]) <= s.used else length <= s2.o[k].offset
  {
    hide Model.Repack, Listed, Linked, Indexed, SumTo, Compacted, Content, NextNonzero;
    var s1 := s.(o := Removed(s.o, i));
    RemoveKeepsLayout(s.o, |s.data|, i);
    RepackIsExact(s1);
    if PacksForEmpty(s, i, length) {
      CompactedBelow(s1.o, s2.o, |s.data|, k);
    } else {
      var c := NextNonzero(s1.o, 0);
      NextNonzeroIs(s1.o, |s.data|, 0);
      EmptyTakenOut(s, i);
      if c < k {
        assert Before(s1.o[c], s1.o[k]);
      }
    }
  }

  lemma UnsafeGrowth(s: State, i: nat, length: nat, copy: nat, files: Files)
    requires Inv(s) && i < |s.o| && copy <= s.o[i].length < length && !GrowsSafely(s, i, length)
    requires s.used + length - s.o[i].length <= |s.data|
    requires ContentsExcept(s.o, s.data, files, s.o[i].slot)
    ensures GrewAmong(s, i, length, copy, ResizeHelper(s, i, length, copy), files)
  {
    hide ResizeHelper, Inv, NeedsMove, ClearForEmpty, GrewAmong;
    if NeedsMove(s, i, length) {
      EmptyGrows(s, i, length, files);
    } else {
      GrowsInPlace(s, i, length, copy, files);
    }
  }

  /** The file has its new bytes and all others keep theirs. */
  lemma GrewCarries(s: State, st: Store, i: nat, length: nat, copy: nat, r: Model.Resized, at: nat, buf: seq<byte>,
                    hash: seq<byte>, bytes: seq<byte>)
    requires Represents(s, st) && i < |s.o| && GrewAmong(s, i, length, copy, r, st.files)
    requires r.e.offset <= at && at + |buf| <= End(r.e)
    requires Content(Overwrite(r.s.data, at, buf), r.e) == bytes && s.o[i].name in st.files
    requires |st.files[s.o[i].name]| == s.o[i].length
    ensures Carries(r.s.(data := Overwrite(r.s.data, at, buf), hash := hash), st.(files := st.files[s.o[i].name := bytes]))
  {
    hide Content, Inv, TotalSize, Window, Overwrite;
    var p: nat :| IsAt(r.s.o, p, r.e);
    var data, files, name := Overwrite(r.s.data, at, buf), st.files, s.o[i].name;
    OverwriteBeside(r.s.data, at, buf);
    ContentsAfterWrite(r.s.o, r.s.data, data, files, r.e.slot, at, at + |buf|);
    assert Contents(r.s.o, data, files[name := bytes]);
    TotalUpdated(files, name, bytes);
    assert HasName(s.n, name);
  }

  lemma ResizeCarries(s: State, st: Store, op: Op)
    requires op.Resize? && Represents(s, st) && !OrderSafe(s, op)
    ensures Carries(Step(s, op).0, Apply(st, op).0) && Step(s, op).1 == Apply(st, op).1
  {
    hide Lookup, ResizeHelper, Content, Inv, Contents, TotalSize, HashTree.Rehash, Overwrite, Truncate, HasName,
      GrowsSafely, Window, IsAt, Apart, ContentsExcept;
    var length := op.length;
    LookupFinds(s, st, op.name);
    var i := Lookup(s, op.name);
    var was, files := s.o[i].length, st.files;
    ContentsToExcept(s.o, s.data, files, s.o[i].slot);
    UnsafeGrowth(s, i, length, was, files);
    var r := ResizeHelper(s, i, length, was);
    var at, zeros := r.e.offset + was, Zeros(length - was);
    ExtendedWithZeros(s.data, s.o[i].offset, r.s.data, r.e.offset, was, length);
    ContentIsWindow(Overwrite(r.s.data, at, zeros), r.e);
    ContentIsWindow(s.data, s.o[i]);
    GrewCarries(s, st, i, length, was, r, at, zeros, Step(s, op).0.hash, Stores.Resized(files[s.o[i].name], length));
  }

  lemma WriteCarries(s: State, st: Store, op: Op)
    requires op.Write? && Represents(s, st) && !OrderSafe(s, op)
    ensures Carries(Step(s, op).0, Apply(st, op).0) && Step(s, op).1 == Apply(st, op).1
  {
    hide Lookup, ResizeHelper, Content, Inv, Contents, TotalSize, HashTree.Rehash, Overwrite, Truncate, HasName,
      GrowsSafely, Window, IsAt, Apart, ContentsExcept;
    var offset, buf, length := op.offset, op.buf, op.offset + |op.buf|;
    LookupFinds(s, st, op.name);
    var i := Lookup(s, op.name);
    var files := st.files;
    ContentsToExcept(s.o, s.data, files, s.o[i].slot);
    UnsafeGrowth(s, i, length, offset, files);
    var r := ResizeHelper(s, i, length, offset);
    ContentIsWindow(s.data, s.o[i]);
    OverwrittenWindow(s.data, s.o[i].offset, s.o[i].length, r.s.data, r.e.offset, offset, buf);
    ContentIsWindow(Overwrite(r.s.data, r.e.offset + offset, buf), r.e);
    GrewCarries(s, st, i, length, offset, r, r.e.offset + offset, buf, Step(s, op).0.hash,
                Written(files[s.o[i].name], offset, buf));
  }

  /** The state is sound and holds the files of the map, each with its bytes, and no others. */
  ghost predicate Holds(s: State, st: Store) {
    Sound(s) && Carries(s, st) && forall x :: x in st.files <==> HasName(s.o, x)
  }

  lemma SoundHolds(s: State, st: Store)
    requires Sound(s) && Carries(s, st)
    ensures Holds(s, st)
  {
    hide AllPlaced, Marked, SumTo, Content;
    forall x ensures HasName(s.n, x) <==> HasName(s.o, x) {
      SameNames(s, x);
    }
  }

  lemma SameNames(s: State, x: seq<byte>)
    requires Linked(s.o, s.n)
    ensures HasName(s.n, x) <==> HasName(s.o, x)
  {
    if HasName(s.n, x) {
      var j: nat :| j < |s.n| && s.n[j].name == x;
      var i := InOffsetArray(s, j);
    }
    if HasName(s.o, x) {
      var i: nat :| i < |s.o| && s.o[i].name == x;
      var j := InNameArray(s, i);
    }
  }

  lemma AnyCarries(s: State, st: Store, op: Op)
    requires Represents(s, st) && Named(op)
    ensures Carries(Step(s, op).0, Apply(st, op).0)
    ensures Step(s, op).1 == Apply(st, op).1
         || (op.Read? && Step(s, op).1 == Outcome(3, []) && Apply(st, op).1.code == 0)
  {
    hide Inv, Carries, Step, Apply, Lookup, CreatesSafely, GrowsSafely, RenamesSafely;
    if OrderSafe(s, op) {
      StepRefines(s, st, op);
    } else {
      match op
      case Create(_, _) => CreateCarries(s, st, op);
      case Resize(_, _) => ResizeCarries(s, st, op);
      case Write(_, _, _) => WriteCarries(s, st, op);
      case Rename(_, _) => RenameCarries(s, st, op);
      case _ =>
    }
  }

  /** From a state with the invariant every operation, safe or not, returns what the map returns, except that a
      read may report 3, and leaves exactly the files of the new map. */
  lemma StepCarries(s: State, st: Store, op: Op)
    requires Represents(s, st) && Named(op)
    ensures Holds(Step(s, op).0, Apply(st, op).0)
    ensures Step(s, op).1 == Apply(st, op).1
         || (op.Read? && Step(s, op).1 == Outcome(3, []) && Apply(st, op).1.code == 0)
  {
    hide Inv, Carries, Sound, Lands, Step, Apply, Holds;
    AnyCarries(s, st, op);
    InvIsSound(s);
    InvLands(s, op);
    StepSoundIff(s, op);
    SoundHolds(Step(s, op).0, Apply(st, op).0);
  }

  /** So a run is as the map says up to and including the first operation that is not safe. */
  lemma RunToFirstLoss(s: State, st: Store, ops: seq<Op>, op: Op)
    requires Represents(s, st) && SafeRun(s, ops) && Named(op)
    ensures var (s', st') := (Run(s, ops).0, ApplyAll(st, ops).0);
            && Represents(s', st') && Agree(ops, Run(s, ops).1, ApplyAll(st, ops).1)
            && Holds(Step(s', op).0, Apply(st', op).0)
            && Agree([op], [Step(s', op).1], [Apply(st', op).1])
  {
    hide Represents, Holds, SafeRun, Run, ApplyAll, Step, Apply;
    RunRefines(s, st, ops);
    StepCarries(Run(s, ops).0, ApplyAll(st, ops).0, op);
  }
}
