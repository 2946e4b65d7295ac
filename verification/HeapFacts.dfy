// Facts about states that the methods of FileSystem use.
module HeapFacts {
  import opened Structs
  import opened Bytes
  import opened Search
  import opened Model
  import opened Layouts
  import opened Placements
  import opened Soundness
  import Membership
  import Invariants
  import HashTree
  import Dir = Directory

  /** Every file has its record inside dir_table. */
  ghost predicate RecordsFit(s: State) {
    forall i :: 0 <= i < |s.o| ==> META_LEN * s.o[i].slot + META_LEN <= |s.dir|
  }

  // Compaction

  lemma RepackStart(s: State)
    ensures Repack(s) == if s.used <= 0 || |s.o| == 0 then (s, -1)
                         else var (s', h') := PackOne(s, 0, 0, -1); RepackFrom(s', 1, h')
    ensures s.used > 0 && |s.o| > 0 ==> |PackOne(s, 0, 0, -1).0.o| == |s.o|
  {
    hide RepackFrom;
  }

  /** The file that repack_helper looks at next is moved to the left, inside the store. */
  lemma PackOneFits(s: State, i: nat, end: nat, h: int)
    requires i < |s.o| && AllPlaced(s.o, |s.data|) && RecordsFit(s)
    requires i == 0 ==> end == 0
    requires i > 0 ==> s.o[i].offset < MAX_FILE_DATA_LEN
    ensures var s' := PackOne(s, i, end, h).0;
            |s'.o| == |s.o| && |s'.data| == |s.data| && AllPlaced(s'.o, |s.data|) && RecordsFit(s')
    ensures var e := s.o[i];
            e.offset > end && e.length > 0 ==> End(e) <= |s.data| && end + e.length <= |s.data|
  {
    hide MoveData, Dir.SetOffset;
    assert Placed(s.o[i], |s.data|);
  }

  lemma RepackFromStep(s: State, i: nat, h: int)
    requires 0 < i <= |s.o|
    ensures RepackFrom(s, i, h)
         == if i == |s.o| || s.o[i].offset >= MAX_FILE_DATA_LEN then (s, h)
            else var (s', h') := PackOne(s, i, End(s.o[i - 1]), h); RepackFrom(s', i + 1, h')
  {
  }

  // Placement

  lemma {:induction false} FreeSlotIs(slots: seq<byte>, i: nat)
    requires i < |slots| && slots[i] == 0 && forall k :: 0 <= k < i ==> slots[k] != 0
    ensures FreeSlot(slots) == i
  {
    if i > 0 {
      FreeSlotIs(slots[1..], i - 1);
    }
  }

  lemma FreeOffsetStart(o: seq<Entry>, cap: int, length: nat)
    ensures var f := NextNonzero(o, 0);
            FreeOffset(o, cap, length) == if length == 0 then MAX_FILE_DATA_LEN
                                          else if f == |o| || o[f].offset >= length then 0
                                          else FirstGap(o, cap, length, f)
  {
    hide FirstGap, NextNonzero;
  }

  lemma FirstGapStep(o: seq<Entry>, cap: int, length: nat, p: nat)
    requires p < |o|
    ensures var c := NextNonzero(o, p + 1);
            FirstGap(o, cap, length, p) == (
              if c == |o| then (if Minus64(cap, End(o[p])) >= length then End(o[p]) else -1)
              else if Minus64(o[c].offset, End(o[p])) >= length then End(o[p])
              else FirstGap(o, cap, length, c))
  {
    hide NextNonzero, Minus64;
  }

  // What an operation needs of the invariant before it begins

  lemma SoundFacts(s: State)
    requires Sound(s)
    ensures HashTree.Sized(s.data, s.hash, s.Leaf()) && |s.data| < MAX_FILE_DATA_LEN
    ensures AllPlaced(s.o, |s.data|) && RecordsFit(s)
    ensures 0 <= s.used <= |s.data| && s.used == Sum(s.o)
  {
    hide AllPlaced, Invariants.Linked, Invariants.Marked, SumTo;
  }

  lemma SlotPosition(s: State, i: nat)
    requires Sound(s) && i < |s.o|
    ensures PosOfSlot(s.o, s.o[i].slot) == i
  {
    Invariants.PosOfSlotIs(s.o, i);
  }

  lemma RepackFits(s: State)
    requires AllPlaced(s.o, |s.data|)
    ensures var s' := Repack(s).0;
            s'.used == s.used && |s'.data| == |s.data| && s'.hash == s.hash && |s'.o| == |s.o|
  {
    hide AllPlaced, Repack;
    RepackInside(s);
  }

  lemma EndInStore(s: State, i: nat)
    requires AllPlaced(s.o, |s.data|) && i < |s.o|
    ensures s.o[i].length > 0 ==> End(s.o[i]) <= |s.data|
  {
    assert Placed(s.o[i], |s.data|);
  }

  lemma MembersInserted<T>(files: seq<T>, p: nat, g: T)
    requires p <= |files|
    ensures forall f :: f in Inserted(files, p, g) <==> f == g || f in files
  {
    var r := Inserted(files, p, g);
    assert r[p] == g;
    forall i | 0 <= i < |files| ensures files[i] in r {
      assert r[if i < p then i else i + 1] == files[i];
    }
  }

  lemma MembersRemoved<T>(files: seq<T>, p: nat)
    requires p < |files| && forall i, j :: 0 <= i < j < |files| ==> files[i] != files[j]
    ensures forall f :: f in Removed(files, p) <==> f in files && f != files[p]
  {
    var r := Removed(files, p);
    forall i | 0 <= i < |files| && i != p ensures files[i] in r {
      assert r[if i < p then i else i - 1] == files[i];
    }
    forall i | 0 <= i < |r| ensures r[i] in files && r[i] != files[p] {
      assert r[i] == files[if i < p then i else i + 1];
    }
  }

  // create_file

  lemma FreeSlotFits(s: State)
    requires Sound(s) && s.count < |s.slots|
    ensures FreeSlot(s.slots) < |s.slots| && META_LEN * |s.slots| <= |s.dir|
    ensures |s.o| < |s.slots| && |s.n| < |s.slots|
  {
    hide AllPlaced, Invariants.Ones, SumTo;
    Membership.OnesBelow(s.slots);
  }

  /** What create_file finds after its checks: a free slot, and a place, in the store or not. */
  lemma CreateFits(s: State, filename: seq<byte>, length: nat)
    requires Sound(s) && Creates(s, filename, length)
    ensures FreeSlot(s.slots) < |s.slots| && META_LEN * |s.slots| <= |s.dir|
    ensures |s.o| < |s.slots| && |s.n| < |s.slots|
    ensures var p := NewOffset(s, length);
            && p.s.used == s.used && |p.s.data| == |s.data| && p.s.hash == s.hash && p.s.n == s.n && |p.s.o| == |s.o|
            && p.s.slots == s.slots && |p.s.dir| == |s.dir| && p.s.count == s.count
            && (length > 0 ==> (p.offset + length <= |s.data| <==> NewInStore(s, filename, length)))
            && (length > 0 && p.offset + length > |s.data| ==> p.s == s)
            && (p.h >= 0 ==> p.offset == s.used)
  {
    hide Lookup, AllPlaced, Repack, FreeOffset, GetIndex, FreeSlot, SumTo, Invariants.Marked, Invariants.Linked;
    FreeSlotFits(s);
    RepackInside(s);
  }

  lemma NewKeysAre(s: State, filename: seq<byte>, length: nat)
    requires Creates(s, filename, length)
    ensures var p := NewOffset(s, length);
            var e := Entry(Truncate(filename), p.offset, length, FreeSlot(s.slots));
            NewKeysFree(s, filename, length) <==> GetIndex(e, p.s.o, OFFSET, true) >= 0 && GetIndex(e, s.n, NAME, true) >= 0
  {
    hide NewOffset, GetIndex, FreeSlot;
  }

  lemma CreateSteps(s: State, filename: seq<byte>, length: nat)
    ensures var w := Create(s, filename, length);
            if Lookup(s, filename) >= 0 || s.used + length > |s.data| || s.count >= |s.slots| then w.0 == s
            else
              var p := NewOffset(s, length);
              var s1 := AddFile(p.s, Entry(Truncate(filename), p.offset, length, FreeSlot(s.slots)));
              w.0 == if length > 0 then Fill(s1, p.offset, length, p.h) else s1
    ensures Create(s, filename, length).1
         == if Lookup(s, filename) >= 0 then 1
            else if s.used + length > |s.data| || s.count >= |s.slots| then 2 else 0
  {
    hide Lookup, NewOffset, AddFile, Fill, FreeSlot;
  }

  lemma AddFileParts(s: State, e: Entry)
    ensures var s' := AddFile(s, e); s'.data == s.data && s'.hash == s.hash && s'.used == s.used && s'.Leaf() == s.Leaf()
  {
  }

  // resize_file_helper

  /** The store without file i, and a repack of it. */
  lemma RelocateFits(s: State, i: nat)
    requires Sound(s) && i < |s.o|
    ensures var s1 := s.(o := Removed(s.o, i));
            var s2 := Repack(s1).0;
            && AllPlaced(s1.o, |s.data|) && RecordsFit(s1)
            && MovedInside(s1, s2)
            && 0 <= s.used - s.o[i].length && s.used <= |s.data|
            && META_LEN * s.o[i].slot + META_LEN <= |s.dir|
  {
    hide Repack, SumTo, Invariants.Marked, Invariants.Linked, MovedInside;
    SumOfRemoved(s.o, i, |s.o|);
    RepackInside(s.(o := Removed(s.o, i)));
  }

  lemma RelocateSteps(s: State, i: nat, length: nat, copy: nat)
    requires i < |s.o| && s.o[i].offset < MAX_FILE_DATA_LEN
    requires Repack(s.(o := Removed(s.o, i))).0.used == s.used >= s.o[i].length
    ensures var e := s.o[i];
            var (s2, h) := Repack(s.(o := Removed(s.o, i)));
            var e' := e.(offset := s.used - e.length);
            var s3 := s2.(data := Overwrite(s2.data, e'.offset, Window(s.data, e.offset, copy)));
            var r := Relocate(s, i, length, copy);
            r.s == Reinsert(s3, e') && r.e == e' && r.h == h
  {
    hide Repack, Reinsert, Overwrite, Window;
  }

  lemma EmptyGoesLast(o: seq<Entry>, e: Entry)
    requires e.length == 0
    ensures GetIndex(e, o, OFFSET, true) == |o|
  {
  }

  lemma ReinsertsIs(s: State, i: nat)
    requires i < |s.o| && s.used >= s.o[i].length
    ensures var e := s.o[i].(offset := s.used - s.o[i].length);
            Reinserts(s, i) <==> GetIndex(e, Repack(s.(o := Removed(s.o, i))).0.o, OFFSET, true) >= 0
  {
    hide Repack, GetIndex;
  }

  lemma EmptyReinserts(s: State, i: nat)
    requires i < |s.o| && s.o[i].length == 0
    ensures Reinserts(s, i)
  {
    hide Repack, GetIndex;
    EmptyGoesLast(Repack(s.(o := Removed(s.o, i))).0.o, s.o[i].(offset := if s.used >= 0 then s.used else 0));
  }

  /** Wherever file i goes back, slots stay distinct. */
  lemma DistinctAfterReinsert(o: seq<Entry>, i: nat, o2: seq<Entry>, p: nat, e: Entry)
    requires Invariants.DistinctSlots(o) && i < |o| && e.slot == o[i].slot && p <= |o2|
    requires |o2| == |o| - 1 && forall k :: 0 <= k < |o2| ==> o2[k].slot == Removed(o, i)[k].slot
    ensures Invariants.DistinctSlots(Inserted(o2, p, e))
  {
    forall k | 0 <= k < |o2| ensures o2[k].slot != e.slot {
      assert Removed(o, i)[k] == o[if k < i then k else k + 1];
    }
    forall j, k | 0 <= j < k < |o2| ensures o2[j].slot != o2[k].slot {
      assert Removed(o, i)[j] == o[if j < i then j else j + 1] && Removed(o, i)[k] == o[if k < i then k else k + 1];
    }
  }

  lemma EmptyAtTop(s: State, i: nat)
    requires AllPlaced(s.o, |s.data|) && i < |s.o|
    ensures s.o[i].offset >= MAX_FILE_DATA_LEN ==> s.o[i].length == 0
  {
    assert Placed(s.o[i], |s.data|);
  }

  lemma SameLength(s: State, e: Entry)
    ensures SetLength(s, e, e.length) == s
  {
    hide PosOfSlot;
  }

  lemma RelocateEmptySteps(s: State, i: nat, length: nat, copy: nat)
    requires i < |s.o| && s.o[i].offset >= MAX_FILE_DATA_LEN
    requires s.used >= 0 && Repack(s.(o := Removed(s.o, i))).0.used == s.used
    ensures var s1 := s.(o := Removed(s.o, i));
            var c := NextNonzero(s1.o, 0);
            var moved := c < |s1.o| && s1.o[c].offset < length;
            var e' := s.o[i].(offset := if moved then s.used else 0);
            var r := Relocate(s, i, length, copy);
            && r.s == Reinsert(if moved then Repack(s1).0 else s1, e') && r.e == e'
            && r.h == if moved then Repack(s1).1 else -1
  {
    hide Repack, Reinsert, NextNonzero;
  }

  /** What the offset array still holds when file i is taken out and put back as e, the others having moved. */
  lemma ReinsertedFiles(o: seq<Entry>, i: nat, o2: seq<Entry>, p: nat, e: Entry, cap: nat, k: nat)
    requires i < |o| && |o2| == |o| - 1 && p <= |o2|
    requires forall x :: 0 <= x < |o2| ==> o2[x] == Removed(o, i)[x].(offset := o2[x].offset)
    requires AllPlaced(o2, cap) && Placed(e, cap) && e == o[i].(offset := e.offset)
    requires Invariants.DistinctSlots(o) && forall x :: 0 <= x < |o| ==> o[x].slot < k
    ensures var o' := Inserted(o2, p, e);
            && AllPlaced(o', cap) && Invariants.DistinctSlots(o') && (forall x :: 0 <= x < |o'| ==> o'[x].slot < k)
            && Invariants.Blanks(o') == Invariants.Blanks(o) && Sum(o') == Sum(o)
            && PosOfSlot(o', e.slot) == p
  {
    hide SumTo, PosOfSlot, Placed, Invariants.Blanks;
    SumOfRemoved(o, i, |o|);
    Invariants.BlanksOfRemoved(o, i);
    MovedSum(Removed(o, i), o2, |o2|);
    Invariants.SameBlanks(Removed(o, i), o2);
    SumOfInserted(o2, p, e);
    Invariants.BlanksOfInserted(o2, p, e);
    DistinctAfterReinsert(o, i, o2, p, e);
    Invariants.PosOfSlotIs(Inserted(o2, p, e), p);
  }

  /** File i taken out and put back elsewhere in the store, the others moved inside it. */
  lemma ReinsertKeepsSound(s: State, i: nat, s2: State, p: nat, e: Entry)
    requires Sound(s) && i < |s.o| && MovedInside(s.(o := Removed(s.o, i)), s2)
    requires e == s.o[i].(offset := e.offset) && Placed(e, |s.data|) && p <= |s2.o|
    requires InsertEntry(s2.o, e) == Inserted(s2.o, p, e)
    ensures Sound(Reinsert(s2, e)) && PosOfSlot(Reinsert(s2, e).o, e.slot) == p < |s.o|
  {
    hide Invariants.Marked, SumTo, InsertEntry, PosOfSlot, Placed, Invariants.Blanks, Dir.SetOffset, AllPlaced,
      Invariants.DistinctSlots, Inserted;
    ReinsertedFiles(s.o, i, s2.o, p, e, |s.data|, |s.slots|);
    assert Reinsert(s2, e).Leaf() == s.Leaf();
  }

  lemma RelocateKeepsSound(s: State, i: nat, length: nat, copy: nat)
    requires Sound(s) && i < |s.o| && Reinserts(s, i)
    ensures var r := Relocate(s, i, length, copy);
            && Sound(r.s) && r.e == s.o[i].(offset := r.e.offset) && r.s.used == s.used
            && |r.s.data| == |s.data| && |r.s.dir| == |s.dir|
            && PosOfSlot(r.s.o, r.e.slot) < |r.s.o| && r.s.o[PosOfSlot(r.s.o, r.e.slot)] == r.e
  {
    hide Sound, Repack, GetIndex, Inserted, Relocate, PosOfSlot, Reinsert, NextNonzero, Overwrite, Window;
    var e, s1 := s.o[i], s.(o := Removed(s.o, i));
    RelocateFits(s, i);
    SoundFacts(s);
    var s2 := Repack(s1).0;
    if e.offset < MAX_FILE_DATA_LEN {
      RelocateSteps(s, i, length, copy);
      var e' := e.(offset := s.used - e.length);
      var s3 := s2.(data := Overwrite(s2.data, e'.offset, Window(s.data, e.offset, copy)));
      ReinsertKeepsSound(s, i, s3, GetIndex(e', s2.o, OFFSET, true), e');
      ReinsertedAt(s3, GetIndex(e', s2.o, OFFSET, true), e');
    } else {
      EmptyAtTop(s, i);
      RelocateEmptySteps(s, i, length, copy);
      var r := Relocate(s, i, length, copy);
      var c := NextNonzero(s1.o, 0);
      var s3 := if c < |s1.o| && s1.o[c].offset < length then s2 else s1;
      EmptyGoesLast(s3.o, r.e);
      ReinsertKeepsSound(s, i, s3, |s3.o|, r.e);
      ReinsertedAt(s3, |s3.o|, r.e);
    }
  }

  lemma ReinsertedAt(s: State, p: nat, e: Entry)
    requires p == GetIndex(e, s.o, OFFSET, true) <= |s.o|
    ensures var s' := Reinsert(s, e);
            && |s'.o| == |s.o| + 1 && s'.o[p] == e && s'.used == s.used
            && |s'.data| == |s.data| && |s'.dir| == |s.dir|
  {
  }

  /** File i is gone from the offset array when its key is taken there. */
  lemma DroppedFile(s: State, i: nat, length: nat, copy: nat)
    requires Sound(s) && i < |s.o| && !Reinserts(s, i)
    ensures var r := Relocate(s, i, length, copy);
            && r.e == s.o[i].(offset := s.used - s.o[i].length) && r.s.used == s.used
            && |r.s.data| == |s.data| && |r.s.dir| == |s.dir|
            && |r.s.o| == |s.o| - 1 && PosOfSlot(r.s.o, r.e.slot) == |r.s.o|
  {
    hide Sound, Repack, GetIndex, Relocate, PosOfSlot, NextNonzero, Overwrite, Window, Dir.SetOffset;
    var e, s1 := s.o[i], s.(o := Removed(s.o, i));
    RelocateFits(s, i);
    SoundFacts(s);
    var s2 := Repack(s1).0;
    if e.length == 0 {
      EmptyReinserts(s, i);
    }
    EndInStore(s, i);
    RelocateSteps(s, i, length, copy);
    OthersKeepSlots(s, i, s2);
    NoSuchSlot(s2.o, e.slot);
  }

  lemma OthersKeepSlots(s: State, i: nat, s2: State)
    requires Sound(s) && i < |s.o| && MovedInside(s.(o := Removed(s.o, i)), s2)
    ensures forall k :: 0 <= k < |s2.o| ==> s2.o[k].slot != s.o[i].slot
  {
    hide AllPlaced, Invariants.Linked, Invariants.Marked, SumTo;
    forall k | 0 <= k < |s2.o| ensures s2.o[k].slot != s.o[i].slot {
      assert Removed(s.o, i)[k] == s.o[if k < i then k else k + 1];
    }
  }

  lemma {:induction false} NoSuchSlot(o: seq<Entry>, slot: nat)
    requires forall k :: 0 <= k < |o| ==> o[k].slot != slot
    ensures PosOfSlot(o, slot) == |o|
  {
    if |o| > 0 {
      assert o[0].slot != slot;
      NoSuchSlot(o[1..], slot);
    }
  }

  /** The step of resize_file_helper before it changes the length. */
  function Moved(s: State, i: nat, length: nat, copy: nat): Resized
    requires i < |s.o|
  {
    if NeedsMove(s, i, length) then Relocate(s, i, length, copy) else Resized(s, s.o[i], -1)
  }

  lemma MovedSlots(s: State, i: nat, length: nat, copy: nat)
    requires Sound(s) && i < |s.o|
    ensures var r := Moved(s, i, length, copy);
            && r.e == s.o[i].(offset := r.e.offset) && r.s.used == s.used
            && |r.s.data| == |s.data| && |r.s.dir| == |s.dir| && META_LEN * r.e.slot + META_LEN <= |s.dir|
            && if GrowthKeyFree(s, i, length) then
                 Sound(r.s) && PosOfSlot(r.s.o, r.e.slot) < |r.s.o| && r.s.o[PosOfSlot(r.s.o, r.e.slot)] == r.e
               else
                 |r.s.o| == |s.o| - 1 && PosOfSlot(r.s.o, r.e.slot) == |r.s.o|
  {
    hide Relocate, NeedsMove, Sound, Repack, Reinserts, MovedInside, PosOfSlot;
    RelocateFits(s, i);
    SlotPosition(s, i);
    if NeedsMove(s, i, length) {
      if Reinserts(s, i) {
        RelocateKeepsSound(s, i, length, copy);
      } else {
        DroppedFile(s, i, length, copy);
      }
    }
  }

  /** The place of a file that moves ends in the store, at the sum of all lengths or before. */
  lemma MovedPlace(s: State, i: nat, length: nat, copy: nat)
    requires Sound(s) && i < |s.o| && NeedsMove(s, i, length)
    ensures Relocate(s, i, length, copy).e.offset + s.o[i].length <= s.used
  {
    hide Repack, Reinsert, Sound, NextNonzero, NeedsMove, MovedInside, Overwrite, Window;
    RelocateFits(s, i);
    MovedSizes(s.(o := Removed(s.o, i)), Repack(s.(o := Removed(s.o, i))).0);
    SoundFacts(s);
    EmptyAtTop(s, i);
    RepackFits(s.(o := Removed(s.o, i)));
    if s.o[i].offset < MAX_FILE_DATA_LEN {
      RelocateSteps(s, i, length, copy);
    } else {
      RelocateEmptySteps(s, i, length, copy);
    }
  }

  /** A file that grows ends in the store exactly when it moves or has room there. */
  lemma GrownEnd(s: State, i: nat, length: nat, copy: nat)
    requires Sound(s) && i < |s.o| && s.o[i].length < length && s.used + length - s.o[i].length <= |s.data|
    ensures End(ResizeHelper(s, i, length, copy).e) <= |s.data| <==> GrowthInStore(s, i, length)
    ensures !GrowthInStore(s, i, length) ==> ResizeHelper(s, i, length, copy).s.data == s.data
  {
    hide Sound, NeedsMove, Relocate, PosOfSlot, Dir.SetLength;
    if NeedsMove(s, i, length) {
      MovedPlace(s, i, length, copy);
    }
  }

  // resize_file and write_file

  lemma ShrinksInPlace(s: State, i: nat, length: nat)
    requires i < |s.o| && length <= s.o[i].length
    ensures GrowthKeyFree(s, i, length)
  {
  }

  lemma ResizedParts(s: State, i: nat, length: nat, copy: nat)
    requires Sound(s) && i < |s.o|
    ensures var r := ResizeHelper(s, i, length, copy);
            && |r.s.data| == |s.data| && r.s.hash == s.hash && r.s.used == s.used + length - s.o[i].length
            && r.e.length == length
  {
    hide AllPlaced, Repack, GetIndex, SumTo, Invariants.Marked, Invariants.Linked,
      InsertEntry, NextNonzero, Dir.SetOffset, Dir.SetLength, Overwrite, Window, RecordsFit, NeedsMove, PosOfSlot;
    RelocateFits(s, i);
  }

  lemma ResizeSteps(s: State, filename: seq<byte>, length: nat)
    ensures var (i, w) := (Lookup(s, filename), Resize(s, filename, length));
            if i < 0 || s.used + length - s.o[i].length > |s.data| || length == s.o[i].length then w.0 == s
            else
              var was := s.o[i].length;
              var r := ResizeHelper(s, i, length, was);
              w.0 == if length > was then Extend(r.s, r.e, was, r.h) else r.s
    ensures var (i, code) := (Lookup(s, filename), Resize(s, filename, length).1);
            code == if i < 0 then 1 else if s.used + length - s.o[i].length > |s.data| then 2 else 0
  {
    hide Lookup, ResizeHelper, Extend;
  }

  lemma WriteSteps(s: State, filename: seq<byte>, offset: nat, buf: seq<byte>)
    ensures var (i, w) := (Lookup(s, filename), Write(s, filename, offset, buf));
            if i < 0 || offset > s.o[i].length || s.used + offset + |buf| - s.o[i].length > |s.data| || |buf| == 0 then w.0 == s
            else
              var r := MakeRoom(s, i, offset, |buf|);
              w.0 == CopyBuffer(r.s, r.e.offset + offset, buf, r.h)
    ensures var (i, code) := (Lookup(s, filename), Write(s, filename, offset, buf).1);
            code == if i < 0 then 1
                    else if offset > s.o[i].length then 2
                    else if s.used + offset + |buf| - s.o[i].length > |s.data| then 3
                    else 0
  {
    hide Lookup, MakeRoom, CopyBuffer;
  }

  /** Where a write ends, after the resize that it may need. */
  lemma RoomFits(s: State, i: nat, offset: nat, count: nat)
    requires Sound(s) && i < |s.o| && offset <= s.o[i].length && count > 0
    requires s.used + offset + count - s.o[i].length <= |s.data|
    ensures var (r, length) := (MakeRoom(s, i, offset, count), offset + count);
            && |r.s.data| == |s.data| && r.s.hash == s.hash && r.s.used <= |s.data|
            && (r.e.offset + length <= |s.data| <==> (s.o[i].length < length ==> GrowthInStore(s, i, length)))
            && (r.e.offset + length > |s.data| ==> r.s.data == s.data)
  {
    hide AllPlaced, ResizeHelper, Invariants.Linked, Invariants.Marked, SumTo, NeedsMove;
    if offset + count > s.o[i].length {
      ResizedParts(s, i, offset + count, offset);
      GrownEnd(s, i, offset + count, offset);
    } else {
      EndInStore(s, i);
    }
  }

  // delete_file and rename_file

  lemma PositionOfName(s: State, i: nat, j: nat)
    requires Sound(s) && i < |s.o| && j < |s.n| && s.n[j] == Blank(s.o[i])
    ensures PosOfSlot(s.n, s.o[i].slot) == j
    ensures s.o[i].slot < |s.slots| <= MAX_NUM_FILES && META_LEN * s.o[i].slot + META_LEN <= |s.dir|
  {
    hide AllPlaced, Invariants.Marked, PosOfSlot, SumTo;
    Invariants.PosOfSlotIs(s.n, j);
  }

  lemma DeleteSteps(s: State, filename: seq<byte>)
    ensures var (i, w) := (Lookup(s, filename), Delete(s, filename));
            if i < 0 then w.0 == s
            else
              var e := s.o[i];
              var j := PosOfSlot(s.n, e.slot);
              e.slot < |s.slots| && j < |s.n| ==>
                w.0 == s.(o := Removed(s.o, i), n := Removed(s.n, j), dir := Dir.ClearRecord(s.dir, e.slot),
                          slots := s.slots[e.slot := 0], used := s.used - e.length, count := s.count - 1)
    ensures Delete(s, filename).1 == if Lookup(s, filename) < 0 then 1 else 0
  {
    hide Lookup, PosOfSlot, Dir.ClearRecord;
  }

  lemma RenameSteps(s: State, oldName: seq<byte>, newName: seq<byte>)
    ensures var (i, w) := (Lookup(s, oldName), Rename(s, oldName, newName));
            if i >= 0 && oldName == newName then w.0 == s
            else if i < 0 || Lookup(s, newName) >= 0 then w.0 == s
            else
              var e := s.o[i].(name := Truncate(newName));
              var j := PosOfSlot(s.n, e.slot);
              j < |s.n| ==>
                w.0 == s.(o := s.o[i := e], n := s.n[j := Blank(e)], dir := Dir.SetName(s.dir, e))
    ensures var i := Lookup(s, oldName);
            Rename(s, oldName, newName).1 == if i >= 0 && oldName == newName then 0
                                             else if i < 0 || Lookup(s, newName) >= 0 then 1 else 0
  {
    hide Lookup, PosOfSlot, Dir.SetName;
  }

  // init_fs

  lemma NameAtIsEmpty(dir: seq<byte>, slot: nat)
    requires META_LEN * slot + META_LEN <= |dir|
    ensures Dir.NameAt(dir, slot) == [] <==> dir[META_LEN * slot] == 0
  {
    var w := Window(dir, META_LEN * slot, NAME_LEN - 1);
    assert w[0] == dir[META_LEN * slot];
  }

  lemma TruncatedName(dir: seq<byte>, slot: nat)
    ensures Truncate(Dir.NameAt(dir, slot)) == Dir.NameAt(dir, slot)
  {
    hide Window;
  }

  lemma LoadSlotSteps(s: State, slot: nat)
    requires slot < |s.slots| && META_LEN * slot + META_LEN <= |s.dir|
    ensures LoadSlot(s, slot)
         == if s.dir[META_LEN * slot] == 0 then s
            else
              var e := LoadedEntry(s.dir, slot);
              s.(o := InsertEntry(s.o, e), n := InsertName(s.n, e), used := s.used + e.length,
                 slots := s.slots[e.slot := 1], count := s.count + 1)
  {
    hide Dir.NameAt, Dir.OffsetAt, Dir.LengthAt, InsertEntry, InsertName;
    NameAtIsEmpty(s.dir, slot);
  }
}
