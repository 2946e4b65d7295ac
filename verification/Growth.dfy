// What resize_file_helper does to a file and to those around it.
module Growth {
  import opened Structs
  import opened Bytes
  import opened Search
  import opened Model
  import opened Layouts
  import opened Placements
  import opened Invariants
  import Dir = Directory

  /** The bytes of every file except the one in the given slot are those of the map. */
  ghost predicate ContentsExcept(o: seq<Entry>, data: seq<byte>, files: map<seq<byte>, seq<byte>>, slot: nat) {
    forall i :: 0 <= i < |o| && o[i].slot != slot ==> o[i].name in files && files[o[i].name] == Content(data, o[i])
  }

  lemma ListedRemoved(o: seq<Entry>, dir: seq<byte>, k: nat, i: nat)
    requires Listed(o, dir, k) && i < |o|
    ensures Listed(Removed(o, i), dir, k)
    ensures forall j :: 0 <= j < |o| - 1 ==> Removed(o, i)[j].slot != o[i].slot
  {
    hide Dir.Mirror;
  }

  /** Putting an entry back with a new offset, which is then written to its record. */
  lemma ListedInserted(o: seq<Entry>, dir: seq<byte>, k: nat, p: nat, e: Entry)
    requires Listed(o, dir, k) && p <= |o| && e.slot < k
    requires forall j :: 0 <= j < |o| ==> o[j].slot != e.slot
    requires Dir.NameAt(dir, e.slot) == e.name && Dir.LengthAt(dir, e.slot) == e.length
    ensures Listed(Inserted(o, p, e), Dir.SetOffset(dir, e), k)
  {
    hide Dir.NameAt, Dir.OffsetAt, Dir.LengthAt, Dir.SetOffset;
    var o', dir' := Inserted(o, p, e), Dir.SetOffset(dir, e);
    forall i | 0 <= i < |o'| ensures o'[i].slot < k && Dir.Mirror(dir', o'[i]) {
      Dir.AfterSetOffset(dir, e, o'[i].slot);
    }
  }

  lemma ListedLength(o: seq<Entry>, dir: seq<byte>, k: nat, p: nat, length: nat)
    requires Listed(o, dir, k) && p < |o| && length < MAX_FILE_DATA_LEN
    ensures var e := o[p].(length := length); Listed(o[p := e], Dir.SetLength(dir, e), k)
  {
    hide Dir.NameAt, Dir.OffsetAt, Dir.LengthAt, Dir.SetLength;
    var e := o[p].(length := length);
    var o', dir' := o[p := e], Dir.SetLength(dir, e);
    forall i | 0 <= i < |o| ensures Dir.Mirror(dir', o'[i]) {
      Dir.AfterSetLength(dir, e, o[i].slot);
    }
  }

  lemma SetLengthKeepsNameAt(dir: seq<byte>, e: Entry)
    requires META_LEN * e.slot + META_LEN <= |dir| && e.length < MAX_FILE_DATA_LEN
    ensures forall x: nat :: Dir.NameAt(Dir.SetLength(dir, e), x) == Dir.NameAt(dir, x)
  {
    hide Dir.NameAt, Dir.SetLength;
    forall x: nat ensures Dir.NameAt(Dir.SetLength(dir, e), x) == Dir.NameAt(dir, x) {
      Dir.AfterSetLength(dir, e, x);
    }
  }

  /** The part of the invariant that a change of one file's extent touches: r is the file at position p
      of the new array, everything else is as in s. */
  ghost predicate Extent(s: State, i: nat, r: Resized)
    requires i < |s.o|
  {
    && r.s == s.(o := r.s.o, data := r.s.data, dir := r.s.dir, used := r.s.used)
    && |r.s.data| == |s.data| && |r.s.dir| == |s.dir|
    && Layout(r.s.o, |s.data|)
    && Listed(r.s.o, r.s.dir, |s.slots|)
    && |r.s.o| == |s.o| && Blanks(r.s.o) == Blanks(s.o)
    && r.s.used == Sum(r.s.o)
    && (forall x: nat :: Dir.NameAt(r.s.dir, x) == Dir.NameAt(s.dir, x))
    && Blank(r.e) == Blank(s.o[i])
    && PosOfSlot(r.s.o, r.e.slot) < |r.s.o| && r.s.o[PosOfSlot(r.s.o, r.e.slot)] == r.e
  }

  lemma ExtentKeepsInv(s: State, i: nat, r: Resized)
    requires Inv(s) && i < |s.o| && Extent(s, i, r)
    ensures Inv(r.s)
  {
    hide Dir.NameAt, Dir.Mirror, Layout, Listed;
    assert r.s.Leaf() == s.Leaf();
  }

  lemma LengthRestoresStable(o: seq<Entry>, dir: seq<byte>, k: nat, p: nat, length: nat)
    requires Listed(o, dir, k) && p < |o|
    ensures length > 0 && StableBut(o, o[p].slot) ==> Stable(o[p := o[p].(length := length)])
  {
    hide Dir.Mirror;
  }

  /** The new length, at a place where it fits. */
  lemma SetLengthExtent(s: State, r: Resized, i: nat, length: nat)
    requires i < |s.o| && Extent(s, i, r) && length != r.e.length && |s.data| < MAX_FILE_DATA_LEN
    requires r.e.offset + length <= |s.data|
    requires var p := PosOfSlot(r.s.o, r.e.slot); forall j :: p < j < |r.s.o| ==> r.e.offset + length <= r.s.o[j].offset
    ensures var r' := Resized(SetLength(r.s, r.e, length), r.e.(length := length), r.h);
            && Extent(s, i, r')
            && (StableBut(r.s.o, r.e.slot) && length > 0 ==> Stable(r'.s.o))
            && r'.s.used == r.s.used + length - r.e.length
            && r'.s.data == r.s.data
            && r'.s.o == r.s.o[PosOfSlot(r.s.o, r.e.slot) := r'.e]
  {
    hide Dir.NameAt, Dir.Mirror, Dir.SetLength, Layout, Listed, Stable, Blanks, PosOfSlot, SumTo;
    PosInListed(r.s.o, r.s.dir, |s.slots|, PosOfSlot(r.s.o, r.e.slot));
    var p := PosOfSlot(r.s.o, r.e.slot);
    var e' := r.e.(length := length);
    LengthKeepsLayout(r.s.o, |s.data|, p, length);
    LengthRestoresStable(r.s.o, r.s.dir, |s.slots|, p, length);
    ListedLength(r.s.o, r.s.dir, |s.slots|, p, length);
    SetLengthKeepsNameAt(r.s.dir, e');
    SameBlanks(r.s.o, r.s.o[p := e']);
    PosInListed(r.s.o[p := e'], Dir.SetLength(r.s.dir, e'), |s.slots|, p);
  }

  lemma SelfExtent(s: State, i: nat)
    requires Inv(s) && i < |s.o|
    ensures Extent(s, i, Resized(s, s.o[i], -1))
  {
    hide Dir.NameAt, Dir.Mirror;
    PosOfSlotIs(s.o, i);
  }

  // Relocation

  lemma ContentsAfterRepack(s: State, files: map<seq<byte>, seq<byte>>, slot: nat)
    requires Layout(s.o, |s.data|) && ContentsExcept(s.o, s.data, files, slot)
    ensures ContentsExcept(Repack(s).0.o, Repack(s).0.data, files, slot)
  {
    hide Repack, Content, Layout, Stable, Compacted;
    RepackIsExact(s);
    var s' := Repack(s).0;
    forall i | 0 <= i < |s'.o| && s'.o[i].slot != slot
      ensures s'.o[i].name in files && files[s'.o[i].name] == Content(s'.data, s'.o[i])
    {
      assert s'.o[i] == s.o[i].(offset := s'.o[i].offset);
    }
  }

  lemma ContentsAfterWrite(o: seq<Entry>, data: seq<byte>, data': seq<byte>, files: map<seq<byte>, seq<byte>>,
                           slot: nat, lo: int, hi: int)
    requires ContentsExcept(o, data, files, slot) && SameOutside(data, data', lo, hi)
    requires forall i :: 0 <= i < |o| && o[i].slot != slot && o[i].length > 0 ==> End(o[i]) <= lo || hi <= o[i].offset
    ensures ContentsExcept(o, data', files, slot)
  {
    hide Content;
    forall i | 0 <= i < |o| && o[i].slot != slot ensures Content(data', o[i]) == Content(data, o[i]) {
      if o[i].length > 0 {
        ContentSame(data, data', lo, hi, o[i]);
      } else {
        EmptyContent(data, data', o[i], o[i]);
      }
    }
  }

  lemma ContentsOfRemoved(o: seq<Entry>, data: seq<byte>, files: map<seq<byte>, seq<byte>>, slot: nat, i: nat)
    requires ContentsExcept(o, data, files, slot) && i < |o|
    ensures ContentsExcept(Removed(o, i), data, files, slot)
  {
    hide Content;
  }

  lemma ContentsOfInserted(o: seq<Entry>, data: seq<byte>, files: map<seq<byte>, seq<byte>>, p: nat, e: Entry)
    requires ContentsExcept(o, data, files, e.slot) && p <= |o|
    ensures ContentsExcept(Inserted(o, p, e), data, files, e.slot)
  {
    hide Content;
  }

  /** A store without file i of s, packed: the place after the last file has room for file i. */
  lemma RoomAtEnd(s2: State, o: seq<Entry>, e: Entry)
    requires Layout(o, |s2.data|) && Compacted(o, s2.o)
    requires e.length > 0 && e.offset == Sum(o) && End(e) <= |s2.data|
    ensures Room(s2.o, e)
    ensures forall k :: 0 <= k < |s2.o| && s2.o[k].length > 0 ==> End(s2.o[k]) <= e.offset
    ensures forall k :: 0 <= k < |s2.o| && Before(e, s2.o[k]) ==> s2.o[k].offset == MAX_FILE_DATA_LEN
  {
    hide SumTo;
    forall k | 0 <= k < |s2.o|
      ensures Before(s2.o[k], e) || s2.o[k].offset == MAX_FILE_DATA_LEN
      ensures s2.o[k].length > 0 ==> End(s2.o[k]) <= e.offset
    {
      CompactedBelow(o, s2.o, |s2.data|, k);
    }
  }

  /** repack_helper does its work before empty file i grows to the given length. */
  predicate PacksForEmpty(s: State, i: nat, length: nat)
    requires i < |s.o|
  {
    var o := Removed(s.o, i);
    var c := NextNonzero(o, 0);
    s.used > 0 && (s.o[i].offset < MAX_FILE_DATA_LEN || (c < |o| && o[c].offset < length))
  }

  /** What the relocation of file i answers: the place to which the first other file that moves goes,
      or -1 when none moves. */
  ghost predicate RelocationAnswer(s: State, i: nat, length: nat, h: int)
    requires i < |s.o|
  {
    if s.o[i].length > 0 || PacksForEmpty(s, i, length) then MovedFrom(Removed(s.o, i), |s.o| - 1, h) else h == -1
  }

  /** The result of relocating file i: its first `copy` bytes after all other files. */
  ghost predicate Relocated(s: State, i: nat, length: nat, copy: nat, r: Resized)
    requires i < |s.o|
  {
    && Extent(s, i, r) && (Stable(s.o) ==> StableBut(r.s.o, r.e.slot))
    && r.s.used == s.used
    && r.e == s.o[i].(offset := r.e.offset) && End(r.e) == s.used
    && (forall k :: PosOfSlot(r.s.o, r.e.slot) < k < |r.s.o| ==> r.s.o[k].offset == MAX_FILE_DATA_LEN)
    && Window(r.s.data, r.e.offset, copy) == Window(s.data, s.o[i].offset, copy)
    && -1 <= r.h <= r.e.offset && RelocationAnswer(s, i, length, r.h)
    && SameOutside(s.data, r.s.data, if r.h < 0 then r.e.offset else r.h, r.e.offset + copy)
  }

  /** resize_file_helper's relocation of a non-empty file keeps every other file's bytes and the layout. */
  lemma RelocateNonEmpty(s: State, i: nat, length: nat, copy: nat, files: map<seq<byte>, seq<byte>>)
    requires Inv(s) && i < |s.o| && s.o[i].length > 0 && copy <= s.o[i].length
    requires ContentsExcept(s.o, s.data, files, s.o[i].slot)
    ensures var r := Relocate(s, i, length, copy);
            Relocated(s, i, length, copy, r) && ContentsExcept(r.s.o, r.s.data, files, s.o[i].slot)
  {
    hide Repack, Dir.NameAt, Dir.LengthAt, Dir.Mirror, Dir.SetOffset, Content, Compacted, SumTo, Stable, GetIndex,
      Window, Listed, Indexed, Blanks, PosOfSlot, StableBut, Room, MovedFrom;
    var e, o, cap := s.o[i], s.o, |s.data|;
    var s1 := s.(o := Removed(o, i));
    RemoveKeepsLayout(o, cap, i);
    ContentsOfRemoved(o, s.data, files, e.slot, i);
    var (s2, h) := Repack(s1);
    RepackIsExact(s1);
    ContentsAfterRepack(s1, files, e.slot);
    var to := Sum(s1.o);
    assert to == s.used - e.length;
    SumToFits(o, cap, |o|);
    assert Placed(e, cap);
    var e' := e.(offset := to);
    var temp := Window(s.data, e.offset, copy);
    var data3 := Overwrite(s2.data, to, temp);
    RoomAtEnd(s2, s1.o, e');
    ContentsAfterWrite(s2.o, s2.data, data3, files, e.slot, to, to + copy);
    InsertNonEmpty(s2.o, cap, e');
    var p := GetIndex(e', s2.o, OFFSET, true);
    InsertionPoint(s2.o, cap, e');
    ContentsOfInserted(s2.o, data3, files, p, e');
    RelocatedListed(s, i, s2, p, e');
    WindowOfOverwrite(s2.data, to, temp);
    SumOfInserted(s2.o, p, e');
    CompactedKeepsLayout(s1.o, s2.o, cap);
    StableIsStableBut(InsertEntry(s2.o, e'), e'.slot);
  }

  lemma StableIsStableBut(o: seq<Entry>, slot: nat)
    ensures Stable(o) ==> StableBut(o, slot)
  {
  }

  lemma RelocatedListed(s: State, i: nat, s2: State, p: nat, e': Entry)
    requires Inv(s) && i < |s.o|
    requires var s1 := s.(o := Removed(s.o, i)); s2 == s1 || s2 == Repack(s1).0
    requires Layout(Removed(s.o, i), |s.data|) && p <= |s2.o|
    requires e' == s.o[i].(offset := e'.offset)
    ensures var o', dir' := Inserted(s2.o, p, e'), Dir.SetOffset(s2.dir, e');
            && Listed(o', dir', |s.slots|) && |dir'| == |s.dir|
            && (forall x: nat :: Dir.NameAt(dir', x) == Dir.NameAt(s.dir, x))
            && |o'| == |s.o| && Blanks(o') == Blanks(s.o)
            && PosOfSlot(o', e'.slot) == p
  {
    hide Repack, Dir.NameAt, Dir.LengthAt, Dir.OffsetAt, Dir.SetOffset, Content, Compacted, SumTo, PosOfSlot;
    var s1 := s.(o := Removed(s.o, i));
    ListedRemoved(s.o, s.dir, |s.slots|, i);
    BlanksOfRemoved(s.o, i);
    RepackIsExact(s1);
    RepackKeepsListed(s1);
    SameBlanks(s1.o, s2.o);
    ListedInserted(s2.o, s2.dir, |s.slots|, p, e');
    SetOffsetKeepsNames(s2.dir, e');
    BlanksOfInserted(s2.o, p, e');
    PosInListed(Inserted(s2.o, p, e'), Dir.SetOffset(s2.dir, e'), |s.slots|, p);
  }

  // Empty files that grow

  lemma EmptyTakenOut(s: State, i: nat)
    requires Inv(s) && i < |s.o| && s.o[i].length == 0
    ensures var s1 := s.(o := Removed(s.o, i));
            && Repack(s1).0.used == s.used >= 0
            && (s.used == 0 ==> Repack(s1) == (s1, -1))
            && (NextNonzero(s1.o, 0) < |s1.o| ==> s.used > 0)
  {
    hide Content, Compacted, Indexed, Linked, Listed, SumTo;
    var s1 := s.(o := Removed(s.o, i));
    RemoveKeepsLayout(s.o, |s.data|, i);
    RepackIsExact(s1);
    var c := NextNonzero(s1.o, 0);
    if c < |s1.o| {
      SumToNext(s1.o, c);
      SumToGrows(s1.o, c + 1, |s1.o|);
    }
  }

  lemma AppendEmpty(o: seq<Entry>, e: Entry)
    requires e.length == 0
    ensures InsertEntry(o, e) == Inserted(o, |o|, e)
  {
  }

  /** Where an empty file goes that grows and has to move. */
  lemma RelocateEmptyIs(s: State, i: nat, length: nat)
    requires Inv(s) && i < |s.o| && s.o[i].length == 0
    ensures var s1 := s.(o := Removed(s.o, i));
            var (s2, h) := if PacksForEmpty(s, i, length) then Repack(s1) else (s1, -1);
            var e := s.o[i].(offset := if PacksForEmpty(s, i, length) then s.used else 0);
            && Relocate(s, i, length, 0) == Resized(Reinsert(s2, e), e, h)
            && InsertEntry(s2.o, e) == Inserted(s2.o, |s2.o|, e)
  {
    hide Inv, Repack, NextNonzero, Reinsert, InsertEntry, Overwrite, Window;
    var s1 := s.(o := Removed(s.o, i));
    EmptyTakenOut(s, i);
    WriteNothing(Repack(s1).0.data, s.used, Window(s.data, s.o[i].offset, 0));
    WriteNothing(s.data, 0, Window(s.data, s.o[i].offset, 0));
    AppendEmpty(Repack(s1).0.o, s.o[i].(offset := s.used));
    AppendEmpty(s1.o, s.o[i].(offset := 0));
  }

  lemma WriteNothing(data: seq<byte>, at: int, t: seq<byte>)
    requires |t| == 0
    ensures Overwrite(data, at, t) == data
  {
  }

  /** The growing file is put last in the offset array, so it must not lie before any other file:
      when the others were packed, none may be left at 2^32; when they were not, it lies at 0. */
  ghost predicate ClearForEmpty(s: State, i: nat, length: nat)
    requires i < |s.o|
  {
    var o := Removed(s.o, i);
    if PacksForEmpty(s, i, length) then forall k :: 0 < k < |o| ==> o[k].offset < MAX_FILE_DATA_LEN
    else forall k :: 0 <= k < |o| ==> End(o[k]) == 0
  }

  /** Every other file ends where the growing file begins, or before. */
  lemma LastIsClear(s: State, i: nat, length: nat, s2: State)
    requires Inv(s) && i < |s.o| && s.o[i].length == 0 && ClearForEmpty(s, i, length)
    requires var s1 := s.(o := Removed(s.o, i)); s2 == if PacksForEmpty(s, i, length) then Repack(s1).0 else s1
    ensures forall k :: 0 <= k < |s2.o| ==> End(s2.o[k]) <= s.used
    ensures PacksForEmpty(s, i, length) <==> s.used > 0
  {
    hide Repack, Content, Indexed, Linked, Listed, SumTo, Compacted;
    var s1 := s.(o := Removed(s.o, i));
    RemoveKeepsLayout(s.o, |s.data|, i);
    RepackIsExact(s1);
    if PacksForEmpty(s, i, length) {
      forall k | 0 <= k < |s2.o| ensures End(s2.o[k]) <= s.used {
        CompactedBelow(s1.o, s2.o, |s.data|, k);
        CompactedTail(s1.o, s2.o, |s.data|, k);
      }
    } else {
      SumOfEmpties(s1.o, 0, |s1.o|);
      SumOfNothing(s1.o);
    }
  }

  lemma SumOfNothing(o: seq<Entry>)
    ensures SumTo(o, 0) == 0
  {
  }

  lemma AppendKeepsLayout(o: seq<Entry>, cap: nat, e: Entry)
    requires Layout(o, cap) && End(e) <= cap && forall k :: 0 <= k < |o| ==> Before(o[k], e)
    ensures Layout(Inserted(o, |o|, e), cap)
    ensures Stable(o) ==> StableBut(Inserted(o, |o|, e), e.slot)
  {
  }

  lemma RelocateEmpty(s: State, i: nat, length: nat, files: map<seq<byte>, seq<byte>>)
    requires Inv(s) && i < |s.o| && s.o[i].length == 0 && ClearForEmpty(s, i, length)
    requires ContentsExcept(s.o, s.data, files, s.o[i].slot)
    ensures var r := Relocate(s, i, length, 0);
            Relocated(s, i, length, 0, r) && ContentsExcept(r.s.o, r.s.data, files, s.o[i].slot)
  {
    hide Repack, Dir.NameAt, Dir.LengthAt, Dir.Mirror, Dir.SetOffset, Content, Compacted, SumTo, Stable, InsertEntry,
      Listed, Indexed, Blanks, PosOfSlot, StableBut, PacksForEmpty, ClearForEmpty, Relocate, Layout, MovedFrom;
    var o, cap := s.o, |s.data|;
    var s1 := s.(o := Removed(o, i));
    RelocateEmptyIs(s, i, length);
    RemoveKeepsLayout(o, cap, i);
    ContentsOfRemoved(o, s.data, files, o[i].slot, i);
    RepackIsExact(s1);
    ContentsAfterRepack(s1, files, o[i].slot);
    SumToFits(o, cap, |o|);
    var (s2, h) := if PacksForEmpty(s, i, length) then Repack(s1) else (s1, -1);
    var e := o[i].(offset := if PacksForEmpty(s, i, length) then s.used else 0);
    LastIsClear(s, i, length, s2);
    AppendKeepsLayout(s2.o, cap, e);
    ContentsOfInserted(s2.o, s2.data, files, |s2.o|, e);
    RelocatedListed(s, i, s2, |s2.o|, e);
    SumOfInserted(s2.o, |s2.o|, e);
    SameSum(s1, s2);
  }

  lemma SameSum(s1: State, s2: State)
    requires Layout(s1.o, |s1.data|) && (s2 == s1 || s2 == Repack(s1).0)
    ensures Sum(s2.o) == Sum(s1.o)
  {
    hide Repack, Content, SumTo, Compacted;
    RepackIsExact(s1);
    if s1.used > 0 {
      CompactedKeepsLayout(s1.o, Repack(s1).0.o, |s1.data|);
    }
  }

  // resize_file_helper

  /** Growing file i to the given length keeps the layout: in place, no later file, empty ones
      included, begins before its new end; otherwise it goes behind every other file. */
  ghost predicate GrowsSafely(s: State, i: nat, length: nat)
    requires i < |s.o|
  {
    if NeedsMove(s, i, length) then s.o[i].length > 0 || ClearForEmpty(s, i, length)
    else forall j :: i < j < |s.o| ==> s.o[i].offset + length <= s.o[j].offset
  }

  lemma FitsInPlace(s: State, i: nat, length: nat)
    requires Inv(s) && i < |s.o| && length > s.o[i].length && !NeedsMove(s, i, length)
    ensures s.o[i].offset + length <= |s.data|
  {
    hide Minus64, NextNonzero, Listed, Linked, Indexed;
    var o, cap := s.o, |s.data|;
    var c := NextNonzero(o, i + 1);
    NextNonzeroIs(o, cap, i + 1);
    assert Placed(o[i], cap);
    if c < |o| {
      assert Placed(o[c], cap) && Before(o[i], o[c]);
    }
    Minus64Exact(if c < |o| then o[c].offset else cap, o[i].offset);
  }

  /** File i has room for the length where it lies: in the store, and before every later non-empty file. */
  ghost predicate Stays(s: State, i: nat, length: nat)
    requires i < |s.o|
  {
    && s.o[i].offset < 0x1_0000_0000 && s.o[i].offset + length <= |s.data|
    && forall j: nat :: i < j < |s.o| && s.o[j].length > 0 ==> s.o[i].offset + length <= s.o[j].offset
  }

  /** A file that grows is moved exactly when it has no room where it lies; one that fits exactly stays. */
  lemma MovesIff(s: State, i: nat, length: nat)
    requires Inv(s) && i < |s.o| && length > s.o[i].length
    ensures NeedsMove(s, i, length) <==> !Stays(s, i, length)
  {
    hide Minus64, NextNonzero, Listed, Linked, Indexed;
    var o, cap := s.o, |s.data|;
    var c := NextNonzero(o, i + 1);
    NextNonzeroIs(o, cap, i + 1);
    assert Placed(o[i], cap);
    if o[i].offset < MAX_FILE_DATA_LEN {
      if c < |o| {
        assert Placed(o[c], cap) && Before(o[i], o[c]);
        forall j | c < j < |o| ensures End(o[c]) <= o[j].offset {
          assert Before(o[c], o[j]);
        }
      }
      Minus64Exact(if c < |o| then o[c].offset else cap, o[i].offset);
    }
  }

  /** With empty files only at 0 and 2^32, every growth of a non-empty file is safe. */
  lemma StableGrowsSafely(s: State, i: nat, length: nat)
    requires Inv(s) && Stable(s.o) && i < |s.o| && s.o[i].length > 0 && length > s.o[i].length
    ensures GrowsSafely(s, i, length)
  {
    if !NeedsMove(s, i, length) {
      RoomInPlace(s, i, length);
    }
  }

  /** Between the start of file i and the next entry there is place for the new length. */
  lemma RoomInPlace(s: State, i: nat, length: nat)
    requires Inv(s) && Stable(s.o) && i < |s.o| && s.o[i].length > 0 && length > s.o[i].length
    requires !NeedsMove(s, i, length)
    ensures forall j :: i < j < |s.o| ==> s.o[i].offset + length <= s.o[j].offset
  {
    hide Minus64, NextNonzero, Listed, Linked, Indexed;
    var o, cap := s.o, |s.data|;
    var c := NextNonzero(o, i + 1);
    NextNonzeroIs(o, cap, i + 1);
    assert Placed(o[i], cap);
    Minus64Exact(if c < |o| then o[c].offset else cap, o[i].offset);
    forall j | i < j < |o| ensures o[i].offset + length <= o[j].offset {
      if j > c {
        assert Before(o[c], o[j]);
      }
    }
    if c < |o| {
      assert Placed(o[c], cap);
    }
  }

  /** The result of growing file i to the given length, of which `copy` bytes are to survive. */
  ghost predicate Grown(s: State, i: nat, length: nat, copy: nat, r: Resized)
    requires i < |s.o|
  {
    && Extent(s, i, r) && (Stable(s.o) ==> Stable(r.s.o))
    && r.e == s.o[i].(offset := r.e.offset, length := length) && End(r.e) <= |s.data|
    && r.s.used == s.used + length - s.o[i].length
    && Window(r.s.data, r.e.offset, copy) == Window(s.data, s.o[i].offset, copy)
    && if NeedsMove(s, i, length) then
         && End(r.e) == r.s.used && -1 <= r.h <= r.e.offset && RelocationAnswer(s, i, length, r.h)
         && SameOutside(s.data, r.s.data, if r.h < 0 then r.e.offset else r.h, r.e.offset + copy)
       else
         r.s.data == s.data && r.e.offset == s.o[i].offset && r.h == -1
  }

  lemma HelperGrows(s: State, i: nat, length: nat, copy: nat, files: map<seq<byte>, seq<byte>>)
    requires Inv(s) && i < |s.o| && copy <= s.o[i].length < length && GrowsSafely(s, i, length)
    requires s.used + length - s.o[i].length <= |s.data|
    requires ContentsExcept(s.o, s.data, files, s.o[i].slot)
    ensures var r := ResizeHelper(s, i, length, copy);
            Grown(s, i, length, copy, r) && ContentsExcept(r.s.o, r.s.data, files, s.o[i].slot)
    ensures NeedsMove(s, i, length) <==> !Stays(s, i, length)
  {
    hide Stays, NeedsMove, Relocate, SetLength, Layout, Stable, StableBut, Listed, Linked, Indexed, Blanks, PosOfSlot, Window,
      Content, Dir.NameAt, SumTo, ClearForEmpty, RelocationAnswer;
    var r := if NeedsMove(s, i, length) then Relocate(s, i, length, copy) else Resized(s, s.o[i], -1);
    MovesIff(s, i, length);
    if NeedsMove(s, i, length) {
      if s.o[i].length > 0 {
        RelocateNonEmpty(s, i, length, copy, files);
      } else {
        RelocateEmpty(s, i, length, files);
      }
    } else {
      SelfExtent(s, i);
      PosInListed(s.o, s.dir, |s.slots|, i);
      FitsInPlace(s, i, length);
      StableIsStableBut(s.o, s.o[i].slot);
    }
    SetLengthExtent(s, r, i, length);
  }

  /** Shrinking keeps everything in place. */
  lemma HelperShrinks(s: State, i: nat, length: nat, copy: nat)
    requires Inv(s) && i < |s.o| && length < s.o[i].length
    ensures var r := ResizeHelper(s, i, length, copy);
            && Extent(s, i, r) && r.s.data == s.data && r.h == -1
            && r.e == s.o[i].(length := length) && r.s.used == s.used + length - s.o[i].length
            && r.s.o == s.o[i := r.e]
            && (Stable(s.o) && length > 0 ==> Stable(r.s.o))
  {
    hide Listed, Linked, Indexed, Blanks, PosOfSlot, Dir.NameAt, SumTo, Stable, StableBut, SetLength;
    StableIsStableBut(s.o, s.o[i].slot);
    SelfExtent(s, i);
    PosInListed(s.o, s.dir, |s.slots|, i);
    assert Placed(s.o[i], |s.data|);
    forall j | i < j < |s.o| ensures s.o[i].offset + length <= s.o[j].offset {
      assert Before(s.o[i], s.o[j]);
    }
    SetLengthExtent(s, Resized(s, s.o[i], -1), i, length);
  }
}
