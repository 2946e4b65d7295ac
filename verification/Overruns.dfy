// Short runs from a new store to a state in which the source writes past the end of file_data, or keeps a
// file in one array only.
module Overruns {
  import opened Structs
  import opened Bytes
  import opened Search
  import opened Model
  import opened Layouts
  import opened Placements
  import opened Invariants
  import opened Stores
  import opened Refinement
  import opened Soundness
  import opened SoundSteps
  import opened Counterexamples
  import HeapFacts
  import HashTree
  import Dir = Directory

  const D: seq<byte> := [68]
  const E: seq<byte> := [69]
  const F: seq<byte> := [70]

  // Past the end

  /** Behind an empty file that was sent to 0 but put last, a new file of 240 bytes is placed at [20, 260) in a
      store of 256 bytes, and a file in front of it grows to 260 where it lies. */
  lemma PastTheEnd() returns (s1: State, s2: State, s3: State, s4: State, s5: State)
    ensures LeadsAlong([Fresh(0, 3), s1, s2, s3, s4, s5], OverwritingRun()[..5])
    ensures Sound(s5) && |s5.data| == 256 && s5.o == [Entry(B, 10, 10, 1), Entry(C, 0, 5, 2)]
    ensures !InStore(s5, Op.Create(D, 240)) && !InStore(s5, Op.Resize(B, 250)) && !InStore(s5, Op.Write(B, 10, Zeros(240)))
    ensures Step(s5, Op.Create(D, 240)).0.o == s5.o + [Entry(D, 20, 240, 0)]
  {
    hide Inv, Step, OrderSafe, Fresh, Content, Sound, InStore;
    s1, s2, s3, s4, s5 := InFrontButBehind();
    CreatedPast(s4, s5);
    GrownPast(s4, s5);
  }

  lemma CreatedPast(s4: State, s5: State)
    requires Inv(s4) && s4.o == [Entry(B, 10, 10, 1), EmptyEntry(C, 2)] && s5.n == s4.n
    requires s5.o == [Entry(B, 10, 10, 1), Entry(C, 0, 5, 2)] && |s5.data| == 256 && s5.used == 15
    requires s5.slots == [0, 1, 1] && s5.count == 2
    ensures !InStore(s5, Op.Create(D, 240)) && Step(s5, Op.Create(D, 240)).0.o == s5.o + [Entry(D, 20, 240, 0)]
  {
    hide Inv, Lookup, FreeSlot, FreeOffset, GetIndex, Dir.WriteRecord, HashTree.Rehash, InsertName;
    NotInNames(s4, s5, D);
    HeapFacts.FreeSlotIs(s5.slots, 0);
    var b, c, e := Entry(B, 10, 10, 1), Entry(C, 0, 5, 2), Entry(D, 20, 240, 0);
    WrappedPlace(b, c, 256, 240);
    BehindBoth(e, b, c);
    assert Inserted([b, c], 2, e) == [b, c, e];
  }

  /** The gap in front of a file that lies before its predecessor wraps around. */
  lemma WrappedPlace(b: Entry, c: Entry, cap: nat, length: nat)
    requires b.offset < length <= 0x8000_0000 && b.length > 0 && c.length > 0 && c.offset < End(b) <= 0x8000_0000
    ensures FreeOffset([b, c], cap, length) == End(b)
  {
    assert NextNonzero([b, c], 1) == 1 && NextNonzero([b, c], 0) == 0;
  }

  lemma BehindBoth(e: Entry, b: Entry, c: Entry)
    requires e.length > 0 && e.offset > b.offset && e.offset > c.offset
    ensures GetIndex(e, [b, c], OFFSET, true) == 2
  {
    var signs := Signs(e, [b, c], OFFSET);
    BinarySearchStep(signs, 0, 1, true);
    BinarySearchStep(signs, 1, 1, true);
  }

  lemma GrownPast(s4: State, s5: State)
    requires Inv(s4) && s4.o == [Entry(B, 10, 10, 1), EmptyEntry(C, 2)] && s5.n == s4.n
    requires s5.o == [Entry(B, 10, 10, 1), Entry(C, 0, 5, 2)] && |s5.data| == 256 && s5.used == 15
    ensures !InStore(s5, Op.Resize(B, 250)) && !InStore(s5, Op.Write(B, 10, Zeros(240)))
  {
    hide Inv, Lookup;
    LookupByNames(s4, s5, 0, 0);
    assert NextNonzero(s5.o, 1) == 1;
  }

  // A new file in the name array only

  function SameOffsetRun(): seq<Op> {
    [Op.Create(A, 0), Op.Create(B, 0), Op.Create(C, 0), Op.Write(A, 0, [7]), Op.Write(B, 0, [9]), Op.Create(D, 1)]
  }

  /** A new file is placed at the offset of two files behind an empty one: the offset array does not take it. */
  lemma NewFileDropped() returns (s1: State, s2: State, s3: State, s4: State, s5: State, s6: State)
    ensures LeadsAlong([Fresh(0, 4), s1, s2, s3, s4, s5, s6], SameOffsetRun())
    ensures Sound(s5) && InStore(s5, Op.Create(D, 1)) && !KeysFree(s5, Op.Create(D, 1))
    ensures s6.o == s5.o == [EmptyEntry(C, 2), Entry(A, 0, 1, 0), Entry(B, 0, 1, 1)]
    ensures HasName(s6.n, D) && s6.count == 4
  {
    hide Inv, Step, Fresh, Sound, Lands, KeysFree;
    s1, s2, s3 := ThreeEmptyFiles(4);
    s4, s5 := TwoGrowths(s3);
    s6 := Step(s5, Op.Create(D, 1)).0;
    CreatedNowhere(s3, s5);
  }

  lemma TwoGrowths(s3: State) returns (s4: State, s5: State)
    requires Inv(s3) && s3.o == [EmptyEntry(A, 0), EmptyEntry(B, 1), EmptyEntry(C, 2)] && |s3.data| == 256 && s3.used == 0
    ensures Leads(s3, Op.Write(A, 0, [7]), s4) && Leads(s4, Op.Write(B, 0, [9]), s5) && Sound(s5)
    ensures s5.o == [EmptyEntry(C, 2), Entry(A, 0, 1, 0), Entry(B, 0, 1, 1)] && |s5.data| == 256 && s5.used == 2
    ensures s5.n == s3.n && s5.slots == s3.slots && s5.count == s3.count
  {
    hide Inv, Step, Sound, Lands, Lookup;
    s4 := Step(s3, Op.Write(A, 0, [7])).0;
    FirstGrowth(s3);
    SoundAfter(s3, Op.Write(A, 0, [7]));
    s5 := Step(s4, Op.Write(B, 0, [9])).0;
    SecondGrowth(s3, s4);
    StepSoundIff(s4, Op.Write(B, 0, [9]));
  }

  lemma CreatedNowhere(s3: State, s5: State)
    requires Inv(s3) && s3.o == [EmptyEntry(A, 0), EmptyEntry(B, 1), EmptyEntry(C, 2)] && s5.n == s3.n
    requires s5.o == [EmptyEntry(C, 2), Entry(A, 0, 1, 0), Entry(B, 0, 1, 1)] && |s5.data| == 256 && s5.used == 2
    requires |s5.slots| == 4 && FirstSlots(s5, 3)
    ensures InStore(s5, Op.Create(D, 1)) && !KeysFree(s5, Op.Create(D, 1))
    ensures var (s6, out) := Step(s5, Op.Create(D, 1));
            out == Outcome(0, []) && s6.o == s5.o && HasName(s6.n, D) && s6.count == 4
  {
    hide Inv, Lookup, FreeSlot, GetIndex, Dir.WriteRecord, HashTree.Rehash, Overwrite;
    NotInNames(s3, s5, D);
    HeapFacts.FreeSlotIs(s5.slots, 3);
    var e := Entry(D, 0, 1, 3);
    KeyTaken(e, s5.o);
    NewName(s3, e);
    var q := GetIndex(e, s5.n, NAME, true);
    assert Inserted(s5.n, q, Blank(e))[q].name == D;
  }

  lemma KeyTaken(e: Entry, o: seq<Entry>)
    requires |o| == 3 && e.length > 0 && o[1].offset == e.offset && o[1].length > 0
    ensures GetIndex(e, o, OFFSET, true) == -1
  {
    BinarySearchStep(Signs(e, o, OFFSET), 0, 2, true);
  }

  // A growing file in the name array only

  function DroppingRun(): seq<Op> {
    [Op.Create(A, 1), Op.Create(B, 1), Op.Create(C, 0), Op.Create(D, 0), Op.Create(E, 0), Op.Create(F, 0),
     Op.Write(D, 0, [7]), Op.Write(E, 0, [8]), Op.Write(F, 0, [9]), Op.Resize(A, 2)]
  }

  /** The files whose empty ones grow behind the empty file C. */
  function Filled(k: nat): seq<Entry> {
    [Entry(A, 0, 1, 0), Entry(B, 1, 1, 1), EmptyEntry(C, 2)] +
    (if k == 0 then [EmptyEntry(D, 3), EmptyEntry(E, 4), EmptyEntry(F, 5)]
     else if k == 1 then [EmptyEntry(E, 4), EmptyEntry(F, 5), Entry(D, 2, 1, 3)]
     else if k == 2 then [EmptyEntry(F, 5), Entry(D, 2, 1, 3), Entry(E, 3, 1, 4)]
     else [Entry(D, 2, 1, 3), Entry(E, 3, 1, 4), Entry(F, 4, 1, 5)])
  }

  /** A file that grows is sent to the offset of another behind an empty one: the offset array does not take it
      back, and its byte lies over that of the other. */
  lemma GrownFileDropped() returns (s: seq<State>)
    ensures |s| == 11 && s[0] == Fresh(0, 6) && LeadsAlong(s, DroppingRun())
    ensures Sound(s[9]) && InStore(s[9], Op.Resize(A, 2)) && !KeysFree(s[9], Op.Resize(A, 2))
    ensures s[9].o == Filled(3) && s[10].o == Filled(3)[1..][0 := Entry(B, 0, 1, 1)] && s[10].n == s[9].n
    ensures Content(s[9].data, Filled(3)[5]) == [9] && Content(s[10].data, Filled(3)[5]) == [0]
  {
    hide Inv, Step, Fresh, Sound, Lands, KeysFree, InStore, Filled, FirstSlots, Content;
    var s1, s2, s3, s4, s5, s6 := SixFiles();
    var s7, s8, s9 := ThreeGrowths(s6);
    var s10 := Dropped(s6, s9);
    var xs := [Fresh(0, 6), s1, s2, s3, s4, s5, s6];
    Joined(xs, [s6, s7, s8, s9], DroppingRun()[..6], DroppingRun()[6..9]);
    Joined(xs + [s7, s8, s9], [s9, s10], DroppingRun()[..9], DroppingRun()[9..]);
    s := xs + [s7, s8, s9] + [s10];
  }

  lemma Joined(xs: seq<State>, ys: seq<State>, p: seq<Op>, q: seq<Op>)
    requires LeadsAlong(xs, p) && LeadsAlong(ys, q) && ys[0] == xs[|xs| - 1]
    ensures LeadsAlong(xs + ys[1..], p + q)
  {
    hide Leads;
    var zs := xs + ys[1..];
    forall i | 0 <= i < |p + q| ensures Leads(zs[i], (p + q)[i], zs[i + 1]) {
      if i < |p| {
        assert Leads(xs[i], p[i], xs[i + 1]);
      } else {
        assert Leads(ys[i - |p|], q[i - |p|], ys[i - |p| + 1]);
      }
    }
  }

  lemma SixFiles() returns (s1: State, s2: State, s3: State, s4: State, s5: State, s6: State)
    ensures LeadsAlong([Fresh(0, 6), s1, s2, s3, s4, s5, s6], DroppingRun()[..6])
    ensures Inv(s6) && s6.o == Filled(0) && |s6.data| == 256 && s6.used == 2 && s6.data[0] == 0
  {
    hide Inv, Fresh, Leads, FirstSlots;
    s1, s2 := TwoBytes();
    s3 := AppendedEmpty(s2, C, 2);
    assert s3.o == [Entry(A, 0, 1, 0), Entry(B, 1, 1, 1), EmptyEntry(C, 2)];
    s4 := AppendedEmpty(s3, D, 3);
    assert s4.o == [Entry(A, 0, 1, 0), Entry(B, 1, 1, 1), EmptyEntry(C, 2), EmptyEntry(D, 3)];
    s5 := AppendedEmpty(s4, E, 4);
    assert s5.o == [Entry(A, 0, 1, 0), Entry(B, 1, 1, 1), EmptyEntry(C, 2), EmptyEntry(D, 3), EmptyEntry(E, 4)];
    s6 := AppendedEmpty(s5, F, 5);
    assert s6.o == Filled(0);
  }

  lemma TwoBytes() returns (s1: State, s2: State)
    ensures Leads(Fresh(0, 6), Op.Create(A, 1), s1) && Leads(s1, Op.Create(B, 1), s2) && Inv(s2) && FirstSlots(s2, 2)
    ensures s2.o == [Entry(A, 0, 1, 0), Entry(B, 1, 1, 1)] && |s2.data| == 256 && s2.used == 2 && s2.data[0] == 0
    ensures |s2.slots| == 6
  {
    hide Inv, Leads, Fresh, FreeSlot, FreeOffset;
    FreshIs(0, 6);
    var s0 := Fresh(0, 6);
    FirstPlace(256, 1);
    HeapFacts.FreeSlotIs(s0.slots, 0);
    s1 := Appended(s0, A, 1, 0);
    var a := Entry(A, 0, 1, 0);
    assert s1.o == [a];
    SecondPlace(a, 256, 1);
    HeapFacts.FreeSlotIs(s1.slots, 1);
    s2 := Appended(s1, B, 1, 1);
    assert s2.o == [a, Entry(B, 1, 1, 1)];
  }

  /** repack_helper moves nothing when two files are packed in front of an empty one at 2^32. */
  lemma NothingMoves(s: State)
    requires s.used > 0 && |s.o| > 2
    requires s.o[0].offset == 0 && s.o[1].offset == s.o[0].length < MAX_FILE_DATA_LEN == s.o[2].offset
    ensures Model.Repack(s) == (s, -1)
  {
    assert RepackFrom(s, 2, -1) == (s, -1);
    assert RepackFrom(s, 1, -1) == RepackFrom(s, 2, -1);
  }

  /** The write to an empty file at 2^32 that is sent behind all others, of which none moves. */
  lemma WriteBehind(s: State, name: seq<byte>, i: nat, buf: seq<byte>)
    requires Lookup(s, name) == i < |s.o| && s.o[i].length == 0 && s.o[i].offset == MAX_FILE_DATA_LEN
    requires 0 < |buf| && 0 < s.used && s.used + |buf| <= |s.data|
    requires var o1 := Removed(s.o, i);
             && |o1| > 2 && o1[0].offset == 0 && 0 < o1[0].length == o1[1].offset < MAX_FILE_DATA_LEN
             && o1[2].offset == MAX_FILE_DATA_LEN
    requires forall k :: 0 <= k < |s.o| && k != i ==> s.o[k].slot != s.o[i].slot
    ensures Lands(s, Op.Write(name, 0, buf))
    ensures var (s', r) := Step(s, Op.Write(name, 0, buf));
            && r == Outcome(0, []) && s'.n == s.n && s'.used == s.used + |buf| && s'.slots == s.slots && s'.count == s.count
            && s'.o == Removed(s.o, i) + [s.o[i].(offset := s.used, length := |buf|)]
            && s'.data == Overwrite(s.data, s.used, buf)
  {
    hide Lookup, Dir.SetLength, Dir.SetOffset, HashTree.Rehash, PosOfSlot, Model.Repack, NextNonzero;
    var o1, e := Removed(s.o, i), s.o[i].(offset := s.used);
    NothingMoves(s.(o := o1));
    assert NextNonzero(o1, 0) == 0 by {
      FirstIsNonzero(o1);
    }
    assert Inserted(o1, |o1|, e) == o1 + [e];
    FirstWithSlot(o1 + [e], e.slot, |o1|);
    HeapFacts.EmptyReinserts(s, i);
    assert (o1 + [e])[|o1| := e.(length := |buf|)] == o1 + [e.(length := |buf|)];
  }

  lemma FirstIsNonzero(o: seq<Entry>)
    requires |o| > 0 && o[0].offset < MAX_FILE_DATA_LEN && o[0].length > 0
    ensures NextNonzero(o, 0) == 0
  {
  }

  /** The write to the k-th of the three files. */
  function FillingWrite(k: nat): Op {
    if k == 0 then Op.Write(D, 0, [7]) else if k == 1 then Op.Write(E, 0, [8]) else Op.Write(F, 0, [9])
  }

  lemma NextFilled(s6: State, s: State, k: nat) returns (s': State)
    requires Inv(s6) && s6.o == Filled(0) && k < 3
    requires s.n == s6.n && s.o == Filled(k) && Sound(s) && |s.data| == 256 && s.used == 2 + k && s.data[0] == 0
    ensures Leads(s, FillingWrite(k), s') && Sound(s') && s'.n == s.n && s'.o == Filled(k + 1)
    ensures |s'.data| == 256 && s'.used == 3 + k && s'.data[0] == 0 && s'.data[2 + k] == 7 + k
  {
    hide Inv, Lookup, Step, Sound, Lands;
    var name, buf := FillingWrite(k).name, FillingWrite(k).buf;
    LookupByNames(s6, s, 3 + k, 3);
    assert Filled(k + 1) == Removed(s.o, 3) + [s.o[3].(offset := 2 + k, length := 1)];
    WriteBehind(s, name, 3, buf);
    StepSoundIff(s, FillingWrite(k));
    s' := Step(s, FillingWrite(k)).0;
  }

  lemma ThreeGrowths(s6: State) returns (s7: State, s8: State, s9: State)
    requires Inv(s6) && s6.o == Filled(0) && |s6.data| == 256 && s6.used == 2 && s6.data[0] == 0
    ensures LeadsAlong([s6, s7, s8, s9], DroppingRun()[6..9])
    ensures Sound(s9) && s9.n == s6.n && s9.o == Filled(3)
    ensures |s9.data| == 256 && s9.used == 5 && s9.data[0] == 0 && s9.data[4] == 9
  {
    hide Inv, Sound, Leads, Filled;
    InvIsSound(s6);
    s7 := NextFilled(s6, s6, 0);
    s8 := NextFilled(s6, s7, 1);
    s9 := NextFilled(s6, s8, 2);
  }

  lemma Dropped(s6: State, s9: State) returns (s10: State)
    requires Inv(s6) && s6.o == Filled(0) && s9.n == s6.n && s9.o == Filled(3) && Sound(s9)
    requires |s9.data| == 256 && s9.used == 5 && s9.data[0] == 0 && s9.data[4] == 9
    ensures Leads(s9, Op.Resize(A, 2), s10)
    ensures InStore(s9, Op.Resize(A, 2)) && !KeysFree(s9, Op.Resize(A, 2))
    ensures s10.o == Filled(3)[1..][0 := Entry(B, 0, 1, 1)] && s10.n == s9.n
    ensures Content(s9.data, Filled(3)[5]) == [9] && Content(s10.data, Filled(3)[5]) == [0]
  {
    hide Inv, Lookup, Sound, Model.Repack, PosOfSlot, GetIndex, HashTree.Rehash, Dir.SetOffset, Dir.SetLength, NeedsMove;
    LookupByNames(s6, s9, 0, 0);
    HasToMove(s9, 2);
    var s1 := s9.(o := Removed(s9.o, 0));
    FirstMovesDown(s1);
    var s2 := Model.Repack(s1).0;
    var e := Entry(A, 4, 1, 0);
    OffsetTaken(e, s2.o);
    HeapFacts.NoSuchSlot(s2.o, 0);
    s10 := Step(s9, Op.Resize(A, 2)).0;
  }

  lemma HasToMove(s: State, length: nat)
    requires |s.o| > 1 && s.o[0].length < length && s.o[0].offset == 0 && 0 < s.o[1].offset < length && s.o[1].length > 0
    requires length < MAX_FILE_DATA_LEN
    ensures NeedsMove(s, 0, length)
  {
    assert NextNonzero(s.o, 1) == 1;
  }

  lemma FirstMovesDown(s: State)
    requires s.used == 5 && s.o == Filled(3)[1..] && |s.data| == 256
    ensures var (s', h) := Model.Repack(s);
            && h == 0 && s'.o == s.o[0 := Entry(B, 0, 1, 1)] && s'.data == MoveData(s.data, s.o[0], 0)
            && s'.used == s.used && s'.n == s.n && s'.slots == s.slots && s'.count == s.count && s'.hash == s.hash
  {
    hide Dir.SetOffset, MoveData;
  }

  lemma OffsetTaken(e: Entry, o: seq<Entry>)
    requires e == Entry(A, 4, 1, 0) && o == Filled(3)[1..][0 := Entry(B, 0, 1, 1)]
    ensures GetIndex(e, o, OFFSET, true) == -1
  {
    var signs := Signs(e, o, OFFSET);
    BinarySearchStep(signs, 0, 4, true);
    BinarySearchStep(signs, 3, 4, true);
    BinarySearchStep(signs, 4, 4, true);
  }
}
