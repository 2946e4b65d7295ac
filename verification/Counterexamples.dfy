// Short runs in which the source loses an order, a layout or the hash tree.
module Counterexamples {
  import opened Structs
  import opened Bytes
  import opened Search
  import opened Model
  import opened Layouts
  import opened Placements
  import opened Invariants
  import opened Growth
  import opened Membership
  import opened Stores
  import opened Refinement
  import opened TreeRuns
  import opened LayoutSteps
  import opened Soundness
  import opened SoundSteps
  import opened Loading
  import Abstraction
  import HashTree
  import HeapFacts
  import FletcherSum
  import Dir = Directory

  const A: seq<byte> := [65]
  const B: seq<byte> := [66]
  const C: seq<byte> := [67]

  /** The operation returns 0 and leads from s to s'. */
  ghost predicate Leads(s: State, op: Op, s': State) {
    Step(s, op) == (s', Outcome(0, []))
  }

  /** The operations return 0 and lead through the states, from the first to the last. */
  ghost predicate LeadsAlong(states: seq<State>, ops: seq<Op>) {
    |states| == |ops| + 1 && forall i :: 0 <= i < |ops| ==> Leads(states[i], ops[i], states[i + 1])
  }

  /** A store without files, with a valid hash tree. */
  function Fresh(leaf: nat, slots: nat): State {
    var data, hash := Zeros(BLOCK_LEN * (leaf + 1)), Zeros(HASH_LEN * (2 * leaf + 1));
    Unloaded(data, Zeros(META_LEN * slots), HashTree.RangeUpdate(data, hash, leaf, 0, leaf))
  }

  lemma FreshIs(leaf: nat, slots: nat)
    requires slots <= MAX_NUM_FILES && BLOCK_LEN * (leaf + 1) <= 0x8000_0000
    ensures var s := Fresh(leaf, slots);
            && Inv(s) && TreeOk(s) && s.Leaf() == leaf && s == Load(s.data, s.dir, s.hash)
            && s.o == [] && s.data == Zeros(BLOCK_LEN * (leaf + 1)) && s.slots == Zeros(slots) && s.used == 0 && s.count == 0
  {
    hide HashTree.RangeUpdate, HashTree.ValidTree, Dir.NameAt, Ones;
    var s := Fresh(leaf, slots);
    HashTree.AllBlocksUpdate(Zeros(BLOCK_LEN * (leaf + 1)), Zeros(HASH_LEN * (2 * leaf + 1)), leaf);
    assert s.Leaf() == leaf;
    assert |s.dir| / META_LEN == slots;
    forall k: nat ensures Dir.NameAt(s.dir, k) == [] {
      NoNames(s.dir, k);
    }
    LoadNothing(s, 0);
    LoadEmpty(s.data, s.dir, s.hash);
  }

  lemma NoNames(dir: seq<byte>, k: nat)
    requires forall i :: 0 <= i < |dir| ==> dir[i] == 0
    ensures Dir.NameAt(dir, k) == []
  {
    assert Window(dir, META_LEN * k, NAME_LEN - 1)[0] == 0;
  }

  /** A new file that goes behind all others. */
  lemma Appended(s: State, name: seq<byte>, length: nat, x: nat) returns (s': State)
    requires Inv(s) && IsCString(name) && |name| < NAME_LEN
    requires forall k :: 0 <= k < |s.o| ==> s.o[k].name != name && End(s.o[k]) <= x
    requires s.used + length <= |s.data| && s.count < |s.slots|
    requires x == FreeOffset(s.o, |s.data|, length)
    ensures Leads(s, Op.Create(name, length), s') && Inv(s')
    ensures s'.o == s.o + [Entry(name, x, length, FreeSlot(s.slots))]
    ensures s'.used == s.used + length && s'.count == s.count + 1 && s'.Leaf() == s.Leaf()
    ensures FreeSlot(s.slots) < |s.slots| && s'.slots == s.slots[FreeSlot(s.slots) := 1]
    ensures s'.data == Overwrite(s.data, x, Zeros(length))
  {
    hide Lookup, Layout, Listed, Linked, Indexed, FreeOffset, FreeSlot, NoEmptyInside, GetIndex, HashTree.Rehash,
      Dir.WriteRecord, InsertName, Overwrite, Fits;
    var op := Op.Create(name, length);
    s' := Step(s, op).0;
    LookupIs(s, name);
    var e := Entry(name, x, length, FreeSlot(s.slots));
    assert CreatesSafely(s, length) by {
      ClearBehind(s.o, x, length);
    }
    StepKeepsInvIff(s, op);
    FreeSlotExists(s);
    if length > 0 {
      FreeOffsetIsFirst(s.o, |s.data|, length);
      RoomIffNoEmptyInside(s.o, |s.data|, e);
      InsertNonEmpty(s.o, |s.data|, e);
      InsertionPoint(s.o, |s.data|, e);
      LastPosition(s.o, GetIndex(e, s.o, OFFSET, true), e);
    } else {
      EmptyGoesTo(s.o, |s.data|);
      InsertEmpty(s.o, |s.data|, e);
      WriteNothing(s.data, x, Zeros(0));
    }
    assert InsertEntry(s.o, e) == s.o + [e];
  }

  lemma EmptyGoesTo(o: seq<Entry>, cap: int)
    ensures FreeOffset(o, cap, 0) == MAX_FILE_DATA_LEN
  {
  }

  lemma ClearBehind(o: seq<Entry>, x: nat, length: nat)
    requires forall k :: 0 <= k < |o| ==> End(o[k]) <= x
    ensures NoEmptyInside(o, x, length)
  {
  }

  lemma LastPosition(o: seq<Entry>, p: nat, e: Entry)
    requires p <= |o| && e.length > 0 && (p < |o| ==> End(o[p]) <= e.offset && Before(e, o[p]))
    ensures p == |o|
  {
  }

  /** Lookups by name in a state whose name array is that of a state with the invariant. */
  lemma LookupByNames(s: State, s': State, i: nat, p: nat)
    requires Inv(s) && i < |s.o| && s'.n == s.n
    requires p < |s'.o| && s'.o[p].slot == s.o[i].slot && forall k :: 0 <= k < p ==> s'.o[k].slot != s.o[i].slot
    requires s.o[i].name != []
    ensures Lookup(s', s.o[i].name) == p
  {
    hide Layout, Listed, GetIndex, NameSorted, Linked, Ones, Dir.NameAt;
    var name := s.o[i].name;
    var m := InNameArray(s, i);
    LookupByName(NameKey(name), s.n);
    var j := GetIndex(NameKey(name), s.n, NAME, false);
    SameNameSamePosition(s, j, m);
    FirstWithSlot(s'.o, s.o[i].slot, p);
  }

  lemma {:induction false} FirstWithSlot(o: seq<Entry>, slot: nat, p: nat)
    requires p < |o| && o[p].slot == slot && forall k :: 0 <= k < p ==> o[k].slot != slot
    ensures PosOfSlot(o, slot) == p
  {
    if p > 0 {
      assert o[0].slot != slot;
      FirstWithSlot(o[1..], slot, p - 1);
    }
  }

  lemma SoundAfter(s: State, op: Op)
    requires Inv(s)
    ensures Sound(Step(s, op).0)
  {
    hide Inv, Sound, Lands, Step;
    InvIsSound(s);
    InvLands(s, op);
    StepSoundIff(s, op);
  }

  // Shrinking to zero and growing again

  /** A file shrunk to 0 keeps its offset; another file grows over it; when it grows again, both files share bytes. */
  lemma ShrunkFileOverlaps() returns (s1: State, s2: State, s3: State, s4: State, s5: State)
    ensures Inv(s3) && !OrderSafe(s3, Op.Resize(A, 20)) && Sound(s4) && Lands(s4, Op.Write(B, 0, [7]))
    ensures s5.o == [Entry(A, 0, 20, 0), Entry(B, 10, 1, 1)] && Content(s5.data, s5.o[0])[10] == 7
    ensures LeadsAlong([Fresh(0, 2), s1, s2, s3, s4, s5],
                       [Op.Create(A, 10), Op.Create(B, 10), Op.Resize(B, 0), Op.Resize(A, 20), Op.Write(B, 0, [7])])
  {
    hide Inv, Step, OrderSafe, Fresh, FreeSlot, Content, Overwrite, Sound, Lands;
    s1, s2 := TwoFiles(2);
    s3 := Shrunk(s2);
    s4 := GrownOver(s3);
    SoundAfter(s3, Op.Resize(A, 20));
    s5 := GrownAgain(s3, s4);
  }

  lemma TwoFiles(slots: nat) returns (s1: State, s2: State)
    requires 2 <= slots <= 3
    ensures Leads(Fresh(0, slots), Op.Create(A, 10), s1) && Leads(s1, Op.Create(B, 10), s2) && Inv(s2)
    ensures s2.o == [Entry(A, 0, 10, 0), Entry(B, 10, 10, 1)] && |s2.data| == 256 && s2.used == 20
    ensures s2.slots == [1, 1] + Zeros(slots - 2) && s2.count == 2
  {
    hide Inv, Step, Fresh, FreeSlot, FreeOffset, Overwrite;
    FreshIs(0, slots);
    var s0 := Fresh(0, slots);
    FirstPlace(256, 10);
    HeapFacts.FreeSlotIs(s0.slots, 0);
    s1 := Appended(s0, A, 10, 0);
    var a := Entry(A, 0, 10, 0);
    assert s1.o == [a];
    SecondPlace(a, 256, 10);
    HeapFacts.FreeSlotIs(s1.slots, 1);
    s2 := Appended(s1, B, 10, 10);
    assert s2.o == [a, Entry(B, 10, 10, 1)];
    assert s2.slots == [1, 1] + Zeros(slots - 2);
  }

  lemma FirstPlace(cap: nat, length: nat)
    requires length > 0
    ensures FreeOffset([], cap, length) == 0
  {
  }

  lemma SecondPlace(e: Entry, cap: nat, length: nat)
    requires e.offset == 0 && e.length > 0 && length > 0 && e.length + length <= cap < MAX_FILE_DATA_LEN
    ensures FreeOffset([e], cap, length) == e.length
  {
  }

  // The steps of the example

  lemma Shrunk(s2: State) returns (s3: State)
    requires Inv(s2) && s2.o == [Entry(A, 0, 10, 0), Entry(B, 10, 10, 1)] && |s2.data| == 256 && s2.used == 20
    ensures Leads(s2, Op.Resize(B, 0), s3) && Inv(s3) && s3.n == s2.n && s3.data == s2.data && s3.used == 10
    ensures s3.slots == s2.slots && s3.count == s2.count
    ensures s3.o == [Entry(A, 0, 10, 0), Entry(B, 10, 0, 1)]
  {
    hide Inv, Lookup, Dir.SetLength;
    LookupByNames(s2, s2, 1, 1);
    FirstWithSlot(s2.o, 1, 1);
    StepKeepsInvIff(s2, Op.Resize(B, 0));
    s3 := Step(s2, Op.Resize(B, 0)).0;
    assert s2.o[1 := Entry(B, 10, 0, 1)] == [Entry(A, 0, 10, 0), Entry(B, 10, 0, 1)];
  }

  lemma GrownOver(s3: State) returns (s4: State)
    requires Inv(s3) && s3.o == [Entry(A, 0, 10, 0), Entry(B, 10, 0, 1)] && |s3.data| == 256 && s3.used == 10
    ensures Leads(s3, Op.Resize(A, 20), s4) && !OrderSafe(s3, Op.Resize(A, 20))
    ensures s4.n == s3.n && s4.used == 20 && |s4.data| == 256
    ensures s4.o == [Entry(A, 0, 20, 0), Entry(B, 10, 0, 1)]
  {
    hide Inv, Lookup, Dir.SetLength, HashTree.Rehash;
    LookupByNames(s3, s3, 0, 0);
    FirstWithSlot(s3.o, 0, 0);
    s4 := Step(s3, Op.Resize(A, 20)).0;
    assert s3.o[0 := Entry(A, 0, 20, 0)] == [Entry(A, 0, 20, 0), Entry(B, 10, 0, 1)];
  }

  lemma GrownAgain(s3: State, s4: State) returns (s5: State)
    requires Inv(s3) && s3.o == [Entry(A, 0, 10, 0), Entry(B, 10, 0, 1)] && s4.n == s3.n
    requires s4.o == [Entry(A, 0, 20, 0), Entry(B, 10, 0, 1)] && |s4.data| == 256 && s4.used == 20
    ensures Leads(s4, Op.Write(B, 0, [7]), s5) && Lands(s4, Op.Write(B, 0, [7]))
    ensures s5.o == [Entry(A, 0, 20, 0), Entry(B, 10, 1, 1)] && Content(s5.data, s5.o[0])[10] == 7
  {
    hide Inv, Lookup, Dir.SetLength, HashTree.Rehash;
    LookupByNames(s3, s4, 1, 1);
    FirstWithSlot(s4.o, 1, 1);
    s5 := Step(s4, Op.Write(B, 0, [7])).0;
    assert s4.o[1 := Entry(B, 10, 1, 1)] == [Entry(A, 0, 20, 0), Entry(B, 10, 1, 1)];
  }

  // Growing an empty file

  /** An empty file that grows is put behind the other empty ones, and the next one grows at the same offset. */
  lemma EmptyFilesOverlap() returns (s1: State, s2: State, s3: State, s4: State, s5: State)
    ensures Inv(s3) && !OrderSafe(s3, Op.Write(A, 0, [7])) && Sound(s4) && Lands(s4, Op.Write(B, 0, [9]))
    ensures s5.o == [EmptyEntry(C, 2), Entry(A, 0, 1, 0), Entry(B, 0, 1, 1)] && Content(s5.data, s5.o[1]) == [9]
    ensures LeadsAlong([Fresh(0, 3), s1, s2, s3, s4, s5],
                       [Op.Create(A, 0), Op.Create(B, 0), Op.Create(C, 0), Op.Write(A, 0, [7]), Op.Write(B, 0, [9])])
  {
    hide Inv, Step, OrderSafe, Fresh, Content, Sound, Lands;
    s1, s2, s3 := ThreeEmptyFiles(3);
    s4 := Step(s3, Op.Write(A, 0, [7])).0;
    FirstGrowth(s3);
    SoundAfter(s3, Op.Write(A, 0, [7]));
    s5 := Step(s4, Op.Write(B, 0, [9])).0;
    SecondGrowth(s3, s4);
  }

  lemma ThreeEmptyFiles(slots: nat) returns (s1: State, s2: State, s3: State)
    requires 3 <= slots <= MAX_NUM_FILES
    ensures Leads(Fresh(0, slots), Op.Create(A, 0), s1) && Leads(s1, Op.Create(B, 0), s2) && Leads(s2, Op.Create(C, 0), s3)
    ensures Inv(s3) && |s3.data| == 256 && s3.used == 0 && |s3.slots| == slots && FirstSlots(s3, 3)
    ensures s3.o == [EmptyEntry(A, 0), EmptyEntry(B, 1), EmptyEntry(C, 2)]
  {
    hide Inv, Fresh, Leads, FirstSlots;
    s1 := FirstEmptyFile(slots);
    s2 := AppendedEmpty(s1, B, 1);
    assert s2.o == [EmptyEntry(A, 0), EmptyEntry(B, 1)];
    s3 := AppendedEmpty(s2, C, 2);
    assert s3.o == [EmptyEntry(A, 0), EmptyEntry(B, 1), EmptyEntry(C, 2)];
  }

  lemma FirstEmptyFile(slots: nat) returns (s1: State)
    requires 0 < slots <= MAX_NUM_FILES
    ensures Leads(Fresh(0, slots), Op.Create(A, 0), s1)
    ensures Inv(s1) && |s1.data| == 256 && s1.used == 0 && |s1.slots| == slots && FirstSlots(s1, 1)
    ensures s1.o == [EmptyEntry(A, 0)]
  {
    hide Inv, Fresh, Leads;
    FreshIs(0, slots);
    s1 := AppendedEmpty(Fresh(0, slots), A, 0);
  }

  /** The first k slots are used and no others. */
  ghost predicate FirstSlots(s: State, k: nat) {
    s.count == k <= |s.slots| && forall i :: 0 <= i < |s.slots| ==> s.slots[i] == if i < k then 1 else 0
  }

  /** A new empty file, in the next slot. */
  lemma AppendedEmpty(s: State, name: seq<byte>, k: nat) returns (s': State)
    requires Inv(s) && IsCString(name) && |name| < NAME_LEN && forall i :: 0 <= i < |s.o| ==> s.o[i].name != name
    requires FirstSlots(s, k) && k < |s.slots|
    ensures Leads(s, Op.Create(name, 0), s') && Inv(s') && FirstSlots(s', k + 1)
    ensures s'.o == s.o + [EmptyEntry(name, k)] && s'.data == s.data && s'.used == s.used && |s'.slots| == |s.slots|
  {
    hide Inv, Leads, FreeSlot, FreeOffset, Overwrite;
    EmptyGoesTo(s.o, |s.data|);
    EndsBelowTop(s);
    HeapFacts.FreeSlotIs(s.slots, k);
    s' := Appended(s, name, 0, MAX_FILE_DATA_LEN);
    WriteNothing(s.data, MAX_FILE_DATA_LEN, Zeros(0));
  }

  lemma EndsBelowTop(s: State)
    requires Inv(s)
    ensures s.used <= |s.data| && forall k :: 0 <= k < |s.o| ==> End(s.o[k]) <= MAX_FILE_DATA_LEN
  {
    hide Listed, Linked, Indexed, SumTo;
    SumToFits(s.o, |s.data|, |s.o|);
  }

  function EmptyEntry(name: seq<byte>, slot: nat): Entry { Entry(name, MAX_FILE_DATA_LEN, 0, slot) }

  /** The write to an empty file at 2^32 that is sent to 0, in front of the first non-empty file, if there is one. */
  lemma WriteToEmpty(s: State, name: seq<byte>, i: nat, buf: seq<byte>)
    requires Lookup(s, name) == i < |s.o| && s.o[i].length == 0 && s.o[i].offset == MAX_FILE_DATA_LEN
    requires 0 < |buf| <= |s.data| && s.used + |buf| <= |s.data|
    requires var o1 := Removed(s.o, i);
             var c := NextNonzero(o1, 0);
             c < |o1| ==> o1[c].offset >= |buf|
    requires forall k :: 0 <= k < |s.o| && k != i ==> s.o[k].slot != s.o[i].slot
    ensures Lands(s, Op.Write(name, 0, buf))
    ensures var (s', r) := Step(s, Op.Write(name, 0, buf));
            && r == Outcome(0, []) && s'.n == s.n && s'.used == s.used + |buf| && s'.slots == s.slots && s'.count == s.count
            && s'.o == Removed(s.o, i) + [s.o[i].(offset := 0, length := |buf|)]
            && s'.data == Overwrite(s.data, 0, buf)
  {
    hide Lookup, Dir.SetLength, Dir.SetOffset, HashTree.Rehash, NextNonzero, PosOfSlot, Model.Repack;
    var o1, e := Removed(s.o, i), s.o[i].(offset := 0);
    assert Inserted(o1, |o1|, e) == o1 + [e];
    FirstWithSlot(o1 + [e], e.slot, |o1|);
    WriteNothing(s.data, 0, Window(s.data, s.o[i].offset, 0));
    assert (o1 + [e])[|o1| := e.(length := |buf|)] == o1 + [e.(length := |buf|)];
  }

  lemma FirstGrowth(s3: State)
    requires Inv(s3) && s3.o == [EmptyEntry(A, 0), EmptyEntry(B, 1), EmptyEntry(C, 2)] && |s3.data| == 256 && s3.used == 0
    ensures var (s4, r4) := Step(s3, Op.Write(A, 0, [7]));
            && r4 == Outcome(0, []) && !OrderSafe(s3, Op.Write(A, 0, [7]))
            && s4.n == s3.n && |s4.data| == 256 && s4.used == 1 && s4.slots == s3.slots && s4.count == s3.count
            && s4.o == [EmptyEntry(B, 1), EmptyEntry(C, 2), Entry(A, 0, 1, 0)]
  {
    hide Inv, Lookup, Step, OrderSafe;
    LookupByNames(s3, s3, 0, 0);
    assert Removed(s3.o, 0) == [EmptyEntry(B, 1), EmptyEntry(C, 2)];
    WriteToEmpty(s3, A, 0, [7]);
    NotClear(s3);
  }

  lemma NotClear(s3: State)
    requires Lookup(s3, A) == 0 && s3.o == [EmptyEntry(A, 0), EmptyEntry(B, 1), EmptyEntry(C, 2)]
    requires |s3.data| == 256 && s3.used == 0
    ensures !OrderSafe(s3, Op.Write(A, 0, [7]))
  {
    hide Lookup, NextNonzero, Model.Repack;
    assert Removed(s3.o, 0) == [EmptyEntry(B, 1), EmptyEntry(C, 2)];
    assert End(Removed(s3.o, 0)[0]) != 0;
  }

  lemma SecondGrowth(s3: State, s4: State)
    requires Inv(s3) && s3.o == [EmptyEntry(A, 0), EmptyEntry(B, 1), EmptyEntry(C, 2)] && s4.n == s3.n
    requires s4.o == [EmptyEntry(B, 1), EmptyEntry(C, 2), Entry(A, 0, 1, 0)] && |s4.data| == 256 && s4.used == 1
    ensures var (s5, r5) := Step(s4, Op.Write(B, 0, [9]));
            && r5 == Outcome(0, []) && Lands(s4, Op.Write(B, 0, [9]))
            && s5.n == s4.n && |s5.data| == 256 && s5.used == 2 && s5.slots == s4.slots && s5.count == s4.count
            && s5.o == [EmptyEntry(C, 2), Entry(A, 0, 1, 0), Entry(B, 0, 1, 1)]
            && Content(s5.data, s5.o[1]) == [9]
  {
    hide Inv, Lookup, Step;
    LookupByNames(s3, s4, 1, 0);
    assert Removed(s4.o, 0) == [EmptyEntry(C, 2), Entry(A, 0, 1, 0)];
    WriteToEmpty(s4, B, 0, [9]);
  }

  /** An empty file that grows is sent to 0, in front of a file, but put behind it in the array: the next
      new file of that size is placed over it. */
  lemma EmptyFileOverwritten() returns (s1: State, s2: State, s3: State, s4: State, s5: State, s6: State)
    ensures Inv(s4) && !OrderSafe(s4, WriteFive()) && Sound(s5) && Lands(s5, Op.Create(A, 10))
    ensures s5.o == [Entry(B, 10, 10, 1), Entry(C, 0, 5, 2)]
    ensures s6.o == [Entry(A, 0, 10, 0), Entry(B, 10, 10, 1), Entry(C, 0, 5, 2)]
    ensures Content(s5.data, s5.o[1]) == FIVE && Content(s6.data, s6.o[2]) == Zeros(5)
    ensures LeadsAlong([Fresh(0, 3), s1, s2, s3, s4, s5, s6], OverwritingRun())
  {
    hide Inv, Step, OrderSafe, Fresh, Content, Sound, Lands;
    s1, s2, s3, s4, s5 := InFrontButBehind();
    s6 := CreatedOver(s4, s5);
  }

  /** The first five operations. */
  lemma InFrontButBehind() returns (s1: State, s2: State, s3: State, s4: State, s5: State)
    ensures Inv(s4) && !OrderSafe(s4, WriteFive()) && Sound(s5) && s5.n == s4.n
    ensures s4.o == [Entry(B, 10, 10, 1), EmptyEntry(C, 2)]
    ensures s5.o == [Entry(B, 10, 10, 1), Entry(C, 0, 5, 2)] && Content(s5.data, s5.o[1]) == FIVE
    ensures |s5.data| == 256 && s5.used == 15 && s5.slots == [0, 1, 1] && s5.count == 2
    ensures LeadsAlong([Fresh(0, 3), s1, s2, s3, s4, s5], OverwritingRun()[..5])
  {
    hide Inv, Step, OrderSafe, Fresh, FreeSlot, Content, Overwrite, Sound;
    s1, s2 := TwoFiles(3);
    EmptyGoesTo(s2.o, 256);
    HeapFacts.FreeSlotIs(s2.slots, 2);
    s3 := Appended(s2, C, 0, MAX_FILE_DATA_LEN);
    assert s3.o == [Entry(A, 0, 10, 0), Entry(B, 10, 10, 1), EmptyEntry(C, 2)];
    assert s3.slots == [1, 1, 1];
    s4 := FirstDeleted(s3);
    assert s4.o == [Entry(B, 10, 10, 1), EmptyEntry(C, 2)];
    assert s4.slots == [0, 1, 1];
    s5 := SentToFront(s4);
    SoundAfter(s4, WriteFive());
  }

  const FIVE: seq<byte> := [1, 2, 3, 4, 5]

  function WriteFive(): Op { Op.Write(C, 0, FIVE) }

  function OverwritingRun(): seq<Op> {
    [Op.Create(A, 10), Op.Create(B, 10), Op.Create(C, 0), Op.Delete(A), WriteFive(), Op.Create(A, 10)]
  }

  lemma FirstDeleted(s: State) returns (s': State)
    requires Inv(s) && |s.o| > 0 && s.o[0].name == A && s.o[0].slot == 0 && |s.slots| > 0
    ensures Leads(s, Op.Delete(A), s') && Inv(s') && s'.o == s.o[1..] && s'.used == s.used - s.o[0].length
    ensures s'.slots == s.slots[0 := 0] && s'.count == s.count - 1 && s'.data == s.data
  {
    hide Inv, Lookup, Dir.ClearRecord, PosOfSlot;
    var op := Op.Delete(A);
    LookupByNames(s, s, 0, 0);
    StepKeepsInvIff(s, op);
    s' := Step(s, op).0;
    assert Removed(s.o, 0) == s.o[1..];
  }

  lemma SentToFront(s4: State) returns (s5: State)
    requires Inv(s4) && s4.o == [Entry(B, 10, 10, 1), EmptyEntry(C, 2)] && |s4.data| == 256 && s4.used == 10
    ensures Leads(s4, WriteFive(), s5) && !OrderSafe(s4, WriteFive())
    ensures s5.o == [Entry(B, 10, 10, 1), Entry(C, 0, 5, 2)] && s5.n == s4.n && s5.used == 15 && |s5.data| == 256
    ensures s5.slots == s4.slots && s5.count == s4.count && Content(s5.data, s5.o[1]) == FIVE
  {
    hide Inv, Lookup, Step, Model.Repack;
    LookupByNames(s4, s4, 1, 1);
    var b := Entry(B, 10, 10, 1);
    assert Removed(s4.o, 1) == [b];
    WriteToEmpty(s4, C, 1, FIVE);
    s5 := Step(s4, WriteFive()).0;
    assert s5.o == [b] + [Entry(C, 0, 5, 2)];
    assert End(Removed(s4.o, 1)[0]) != 0;
  }

  lemma CreatedOver(s4: State, s5: State) returns (s6: State)
    requires Inv(s4) && s4.o == [Entry(B, 10, 10, 1), EmptyEntry(C, 2)] && s5.n == s4.n
    requires s5.o == [Entry(B, 10, 10, 1), Entry(C, 0, 5, 2)] && s5.used == 15 && |s5.data| == 256
    requires s5.slots == [0, 1, 1] && s5.count == 2
    ensures Leads(s5, Op.Create(A, 10), s6) && Lands(s5, Op.Create(A, 10))
    ensures s6.o == [Entry(A, 0, 10, 0), Entry(B, 10, 10, 1), Entry(C, 0, 5, 2)]
    ensures Content(s6.data, s6.o[2]) == Zeros(5)
  {
    hide Inv, NameCmp, GetIndex, FreeSlot, FreeOffset, HashTree.Rehash, Dir.WriteRecord, Lookup, InsertName;
    var b, c, e := Entry(B, 10, 10, 1), Entry(C, 0, 5, 2), Entry(A, 0, 10, 0);
    NotInNames(s4, s5, A);
    HeapFacts.FreeSlotIs(s5.slots, 0);
    FrontPlace(b, c, 256, 10);
    InFront(e, b, c);
    assert Inserted([b, c], 0, e) == [e, b, c];
    assert InsertEntry([b, c], e) == [e, b, c];
    assert Lands(s5, Op.Create(A, 10)) by {
      NewName(s4, e);
    }
    s6 := Step(s5, Op.Create(A, 10)).0;
  }

  lemma NotInNames(s: State, s': State, name: seq<byte>)
    requires Inv(s) && s'.n == s.n && |name| < NAME_LEN && forall k :: 0 <= k < |s.o| ==> s.o[k].name != name
    ensures Lookup(s', name) == -1
  {
    hide Layout, Listed, GetIndex, NameSorted, Linked, Ones, Dir.NameAt;
    LookupByName(NameKey(name), s.n);
    var j := GetIndex(NameKey(name), s.n, NAME, false);
    if j >= 0 {
      var i := InOffsetArray(s, j);
    }
  }

  lemma NewName(s: State, e: Entry)
    requires Inv(s) && forall k :: 0 <= k < |s.o| ==> s.o[k].name != e.name
    ensures GetIndex(e, s.n, NAME, true) >= 0
  {
    hide Layout, Listed, GetIndex, NameSorted, Linked, Ones, Dir.NameAt;
    forall j | 0 <= j < |s.n| ensures s.n[j].name != e.name {
      var i := InOffsetArray(s, j);
    }
    Search.InsertByName(e, s.n);
  }

  lemma FrontPlace(b: Entry, c: Entry, cap: nat, length: nat)
    requires 0 < length <= b.offset < MAX_FILE_DATA_LEN && b.length > 0
    ensures FreeOffset([b, c], cap, length) == 0
  {
    assert NextNonzero([b, c], 0) == 0;
  }

  lemma InFront(e: Entry, b: Entry, c: Entry)
    requires e.length > 0 && e.offset < b.offset
    ensures GetIndex(e, [b, c], OFFSET, true) == 0
  {
    BinarySearchStep(Signs(e, [b, c], OFFSET), 0, 1, true);
  }

  // Creating over the offset that a shrunk file keeps

  /** A new file is placed over the kept offset of a file that was shrunk to 0; when that file grows again,
      both share bytes. */
  lemma NewFileOverlaps() returns (s1: State, s2: State, s3: State, s4: State, s5: State, s6: State)
    ensures Inv(s4) && !OrderSafe(s4, Op.Create(C, 20)) && Sound(s5) && Lands(s5, Op.Write(B, 0, [7]))
    ensures s6.o == [Entry(C, 0, 20, 0), Entry(B, 10, 1, 1)] && Content(s6.data, s6.o[0])[10] == 7
    ensures LeadsAlong([Fresh(0, 2), s1, s2, s3, s4, s5, s6], CreatingRun())
  {
    hide Inv, Step, OrderSafe, Fresh, FreeSlot, Content, Overwrite, Sound, Lands;
    s1, s2 := TwoFiles(2);
    s3 := Shrunk(s2);
    s4 := FirstDeleted(s3);
    assert s4.o == [Entry(B, 10, 0, 1)];
    assert s4.slots == [0, 1];
    s5 := CreatedOverKept(s4);
    SoundAfter(s4, Op.Create(C, 20));
    s6 := GrownUnder(s5);
  }

  function CreatingRun(): seq<Op> {
    [Op.Create(A, 10), Op.Create(B, 10), Op.Resize(B, 0), Op.Delete(A), Op.Create(C, 20), Op.Write(B, 0, [7])]
  }

  lemma CreatedOverKept(s4: State) returns (s5: State)
    requires Inv(s4) && s4.o == [Entry(B, 10, 0, 1)] && s4.slots == [0, 1] && s4.count == 1 && s4.used == 0
    requires |s4.data| == 256
    ensures Leads(s4, Op.Create(C, 20), s5) && !OrderSafe(s4, Op.Create(C, 20))
    ensures s5.o == [Entry(C, 0, 20, 0), Entry(B, 10, 0, 1)] && s5.used == 20 && |s5.data| == 256
    ensures s5.n == [Entry(B, 0, 0, 1), Entry(C, 0, 0, 0)]
  {
    hide Inv, NameCmp, FreeSlot, HashTree.Rehash, Dir.WriteRecord, Lookup;
    var b, e := Entry(B, 10, 0, 1), Entry(C, 0, 20, 0);
    NotInNames(s4, s4, C);
    HeapFacts.FreeSlotIs(s4.slots, 0);
    OneName(s4);
    OneByteNames();
    assert FreeOffset([b], 256, 20) == 0;
    assert GetIndex(e, [b], OFFSET, true) == 0;
    assert Inserted([b], 0, e) == [e, b];
    assert GetIndex(e, s4.n, NAME, true) == 1;
    assert Inserted(s4.n, 1, Blank(e)) == [Entry(B, 0, 0, 1), Entry(C, 0, 0, 0)];
    s5 := Step(s4, Op.Create(C, 20)).0;
  }

  lemma OneName(s: State)
    requires Inv(s) && s.o == [Entry(B, 10, 0, 1)]
    ensures s.n == [Entry(B, 0, 0, 1)]
  {
    hide Layout, Listed, NameCmp, Ones;
    var b := InNameArray(s, 0);
    assert |s.n| == 1;
  }

  lemma GrownUnder(s5: State) returns (s6: State)
    requires s5.o == [Entry(C, 0, 20, 0), Entry(B, 10, 0, 1)] && s5.used == 20 && |s5.data| == 256
    requires s5.n == [Entry(B, 0, 0, 1), Entry(C, 0, 0, 0)]
    ensures Leads(s5, Op.Write(B, 0, [7]), s6) && Lands(s5, Op.Write(B, 0, [7]))
    ensures s6.o == [Entry(C, 0, 20, 0), Entry(B, 10, 1, 1)] && Content(s6.data, s6.o[0])[10] == 7
  {
    hide Lookup, Dir.SetLength, HashTree.Rehash;
    FirstFound(s5);
    FirstWithSlot(s5.o, 1, 1);
    s6 := Step(s5, Op.Write(B, 0, [7])).0;
    assert s5.o[1 := Entry(B, 10, 1, 1)] == [Entry(C, 0, 20, 0), Entry(B, 10, 1, 1)];
  }

  lemma FirstFound(s: State)
    requires s.n == [Entry(B, 0, 0, 1), Entry(C, 0, 0, 0)] && |s.o| == 2 && s.o[0].slot == 0 && s.o[1].slot == 1
    ensures Lookup(s, B) == 1
  {
    hide NameCmp;
    NameCmpReflects(B, B);
    BinarySearchStep(Signs(NameKey(B), s.n, NAME), 0, 1, false);
    FirstWithSlot(s.o, 1, 1);
  }

  // Renaming

  /** A name that passes its neighbour hides another file: B exists, and is not found. */
  lemma RenameLosesFile() returns (s1: State, s2: State, s3: State)
    ensures Inv(s2) && !OrderSafe(s2, Op.Rename(A, C)) && Sound(s3)
    ensures s3.o == [Entry(C, 0, 10, 0), Entry(B, 10, 10, 1)] && Step(s3, Op.Size(B)).1 == Outcome(-1, [])
    ensures LeadsAlong([Fresh(0, 2), s1, s2, s3], [Op.Create(A, 10), Op.Create(B, 10), Op.Rename(A, C)])
  {
    hide Inv, Step, OrderSafe, Fresh, Sound;
    s1, s2 := TwoFiles(2);
    s3 := Passed(s2);
    SoundAfter(s2, Op.Rename(A, C));
  }

  lemma Passed(s2: State) returns (s3: State)
    requires Inv(s2) && s2.o == [Entry(A, 0, 10, 0), Entry(B, 10, 10, 1)]
    ensures Leads(s2, Op.Rename(A, C), s3) && !OrderSafe(s2, Op.Rename(A, C))
    ensures s3.o == [Entry(C, 0, 10, 0), Entry(B, 10, 10, 1)] && Step(s3, Op.Size(B)).1 == Outcome(-1, [])
  {
    hide Inv, Lookup, Dir.SetName, NameCmp, GetIndex, PosOfSlot;
    TwoNames(s2);
    LookupByNames(s2, s2, 0, 0);
    LookupIs(s2, C);
    FirstWithSlot(s2.n, 0, 0);
    OneByteNames();
    s3 := Step(s2, Op.Rename(A, C)).0;
    assert s3.n == [Entry(C, 0, 0, 0), Entry(B, 0, 0, 1)];
    HiddenName(s3);
  }

  lemma OneByteNames()
    ensures NameCmp(A, B) < 0 && NameCmp(B, C) < 0 && NameCmp(B, A) > 0 && NameCmp(C, B) > 0
  {
  }

  lemma TwoNames(s: State)
    requires Inv(s) && s.o == [Entry(A, 0, 10, 0), Entry(B, 10, 10, 1)]
    ensures s.n == [Entry(A, 0, 0, 0), Entry(B, 0, 0, 1)]
  {
    hide Layout, Listed, NameCmp, Ones;
    OneByteNames();
    var a := InNameArray(s, 0);
    var b := InNameArray(s, 1);
    assert |s.n| == 2;
    assert a < b;
  }

  lemma HiddenName(s: State)
    requires s.n == [Entry(C, 0, 0, 0), Entry(B, 0, 0, 1)]
    ensures Lookup(s, B) == -1
  {
    hide NameCmp;
    OneByteNames();
    BinarySearchStep(Signs(NameKey(B), s.n, NAME), 0, 1, false);
  }

  // Relocation without any other move

  function RelocatingRun(): seq<Op> {
    [Op.Create(A, 10), Op.Create(C, 10), Op.Create(B, 1004), Op.Write(B, 236, [5]), Op.Delete(C), Op.Resize(B, 1010)]
  }

  /** A file is copied over the first block, whose checksum is not recomputed: reading A then reports 3. */
  lemma BareRelocationSpoilsTree() returns (s1: State, s2: State, s3: State, s4: State, s5: State, s6: State)
    ensures Inv(s5) && TreeOk(s5)
    ensures OrderSafe(s5, Op.Resize(B, 1010))
    ensures !TreeSafe(s5, Op.Resize(B, 1010))
    ensures !TreeOk(s6) && Sound(s6)
    ensures Step(s6, Op.Read(A, 0, 1)).1 == Outcome(3, [])
    ensures LeadsAlong([Fresh(3, 3), s1, s2, s3, s4, s5, s6], RelocatingRun())
  {
    hide Inv, Step, OrderSafe, Fresh, TreeOk, TreeSafe, Sound;
    s1, s2, s3 := ThreeFiles();
    s4, s5 := TwoFilesWithGap(s3);
    assert BeforeCopy(s5);
    s6 := CopiedBare(s5);
    SoundAfter(s5, Op.Resize(B, 1010));
  }

  lemma TreeKept(s: State, op: Op)
    requires Inv(s) && TreeOk(s) && Safe(s, op) && TreeSafe(s, op)
    ensures TreeOk(Step(s, op).0)
  {
    hide Inv, Step, TreeOk, TreeSafe, Safe;
    Abstraction.RepresentsAbstract(s);
    StepTreeIff(s, Abstraction.Abstract(s), op);
  }

  lemma CreateIsTreeSafe(s: State, name: seq<byte>, length: nat)
    requires Inv(s) && TreeOk(s) && IsCString(name) && Inv(Step(s, Op.Create(name, length)).0)
    ensures TreeOk(Step(s, Op.Create(name, length)).0)
  {
    hide Inv, Step, TreeOk, OrderSafe;
    StepKeepsInvIff(s, Op.Create(name, length));
    TreeKept(s, Op.Create(name, length));
  }

  lemma TwoSmallFiles() returns (s1: State, s2: State)
    ensures Inv(s2) && TreeOk(s2)
    ensures s2.o == [Entry(A, 0, 10, 0), Entry(C, 10, 10, 1)]
    ensures s2.data == Zeros(1024) && s2.used == 20 && s2.Leaf() == 3 && s2.slots == [1, 1, 0] && s2.count == 2
    ensures Leads(Fresh(3, 3), Op.Create(A, 10), s1) && Leads(s1, Op.Create(C, 10), s2)
  {
    hide Inv, Step, Fresh, FreeSlot, FreeOffset, Overwrite, TreeOk, Zeros;
    FreshIs(3, 3);
    var s0 := Fresh(3, 3);
    assert s0.data == Zeros(1024);
    FirstPlace(1024, 10);
    HeapFacts.FreeSlotIs(s0.slots, 0);
    s1 := Appended(s0, A, 10, 0);
    CreateIsTreeSafe(s0, A, 10);
    ZerosOverZeros(1024, 0, 10);
    var a := Entry(A, 0, 10, 0);
    assert s1.o == [a];
    SecondPlace(a, 1024, 10);
    HeapFacts.FreeSlotIs(s1.slots, 1);
    s2 := Appended(s1, C, 10, 10);
    CreateIsTreeSafe(s1, C, 10);
    ZerosOverZeros(1024, 10, 10);
    assert s2.o == [a, Entry(C, 10, 10, 1)];
    assert s2.slots == [1, 1, 0];
  }

  lemma ThreeFiles() returns (s1: State, s2: State, s3: State)
    ensures Inv(s3) && TreeOk(s3)
    ensures s3.o == [Entry(A, 0, 10, 0), Entry(C, 10, 10, 1), Entry(B, 20, 1004, 2)]
    ensures s3.data == Zeros(1024) && s3.used == 1024 && s3.Leaf() == 3
    ensures Leads(Fresh(3, 3), Op.Create(A, 10), s1) && Leads(s1, Op.Create(C, 10), s2)
    ensures Leads(s2, Op.Create(B, 1004), s3)
  {
    hide Inv, Step, Fresh, FreeSlot, FreeOffset, Overwrite, TreeOk, Zeros;
    s1, s2 := TwoSmallFiles();
    var a, c := Entry(A, 0, 10, 0), Entry(C, 10, 10, 1);
    ThirdPlace(a, c, 1024, 1004);
    HeapFacts.FreeSlotIs(s2.slots, 2);
    ZerosOverZeros(1024, 20, 1004);
    s3 := Appended(s2, B, 1004, 20);
    CreateIsTreeSafe(s2, B, 1004);
    assert s3.o == [a, c, Entry(B, 20, 1004, 2)];
  }

  lemma ZerosOverZeros(n: nat, at: nat, count: nat)
    ensures |Zeros(n)| == n && Overwrite(Zeros(n), at, Zeros(count)) == Zeros(n)
  {
  }

  lemma ThirdPlace(a: Entry, b: Entry, cap: nat, length: nat)
    requires a.offset == 0 && a.length > 0 && b.offset == a.length && b.length > 0 && length > 0
    requires End(b) + length <= cap < MAX_FILE_DATA_LEN
    ensures FreeOffset([a, b], cap, length) == End(b)
  {
    var o := [a, b];
    assert NextNonzero(o, 2) == 2 && NextNonzero(o, 1) == 1 && NextNonzero(o, 0) == 0;
    assert FirstGap(o, cap, length, 1) == End(b);
  }

  lemma TwoFilesWithGap(s3: State) returns (s4: State, s5: State)
    requires Inv(s3) && TreeOk(s3) && s3.data == Zeros(1024) && s3.used == 1024 && s3.Leaf() == 3
    requires s3.o == [Entry(A, 0, 10, 0), Entry(C, 10, 10, 1), Entry(B, 20, 1004, 2)]
    ensures Leads(s3, Op.Write(B, 236, [5]), s4) && Leads(s4, Op.Delete(C), s5)
    ensures Inv(s5) && TreeOk(s5) && s5.Leaf() == 3
    ensures s5.o == [Entry(A, 0, 10, 0), Entry(B, 20, 1004, 2)] && s5.used == 1014
    ensures s5.data == Zeros(1024)[256 := 5]
  {
    hide Inv, Lookup, TreeOk, HashTree.Rehash, Dir.ClearRecord, PosOfSlot;
    LookupByNames(s3, s3, 2, 2);
    var write := Op.Write(B, 236, [5]);
    StepKeepsInvIff(s3, write);
    TreeKept(s3, write);
    s4 := Step(s3, write).0;
    assert s4.o == s3.o && s4.data == Zeros(1024)[256 := 5] && s4.Leaf() == 3;
    LookupByNames(s4, s4, 1, 1);
    var delete := Op.Delete(C);
    StepKeepsInvIff(s4, delete);
    TreeKept(s4, delete);
    s5 := Step(s4, delete).0;
    assert s5.o == [Entry(A, 0, 10, 0), Entry(B, 20, 1004, 2)];
    assert s5.Leaf() == 3;
  }

  /** The store before the relocation: file B lies in [20, 1024) and holds a byte at 256. */
  ghost predicate BeforeCopy(s: State) {
    && Inv(s) && TreeOk(s) && s.data == Zeros(1024)[256 := 5] && s.used == 1014 && s.Leaf() == 3
    && s.o == [Entry(A, 0, 10, 0), Entry(B, 20, 1004, 2)]
  }

  lemma CopiedBare(s5: State) returns (s6: State)
    requires BeforeCopy(s5)
    ensures Leads(s5, Op.Resize(B, 1010), s6)
    ensures OrderSafe(s5, Op.Resize(B, 1010)) && !TreeSafe(s5, Op.Resize(B, 1010))
    ensures !TreeOk(s6) && Step(s6, Op.Read(A, 0, 1)).1 == Outcome(3, [])
  {
    hide Inv, Step, TreeOk, OrderSafe, TreeSafe, Lookup, NeedsMove, BareMove, Copied, Overwrite, FletcherSum.Digest,
      HashTree.Block, HashTree.RangeUpdate, HashTree.Consistent;
    var op := Op.Resize(B, 1010);
    MovesBare(s5);
    BlockNoticesCopy(s5);
    NotTreeSafe(s5);
    s6 := Step(s5, op).0;
    StepsTo(s5, op);
    AfterCopy(s5, s6);
    FirstBlockStale(s5.data, s5.hash, s6.data, s6.hash) by {
      TreeParts(s5);
    }
    ReadsStale(s6);
  }

  lemma StepsTo(s: State, op: Op)
    requires Inv(s) && TreeOk(s) && Named(op) && OrderSafe(s, op) && !TreeSafe(s, op)
    ensures Inv(Step(s, op).0) && !TreeOk(Step(s, op).0)
  {
    hide Inv, Step, TreeOk, OrderSafe, TreeSafe;
    Abstraction.RepresentsAbstract(s);
    StepTreeIff(s, Abstraction.Abstract(s), op);
    StepKeepsInvIff(s, op);
  }

  lemma TreeParts(s: State)
    requires Inv(s) && TreeOk(s)
    ensures HashTree.Sized(s.data, s.hash, s.Leaf()) && HashTree.ValidTree(s.data, s.hash, s.Leaf())
  {
  }

  lemma MovesBare(s: State)
    requires BeforeCopy(s)
    ensures Lookup(s, B) == 1 && NeedsMove(s, 1, 1010) && BareMove(s, 1, 1010, 1004) && OrderSafe(s, Op.Resize(B, 1010))
  {
    hide Inv, Lookup, TreeOk;
    LookupByNames(s, s, 1, 1);
    assert Removed(s.o, 1) == [Entry(A, 0, 10, 0)];
  }

  function Copied(data: seq<byte>): seq<byte> {
    Overwrite(data, 10, Window(data, 20, 1004))
  }

  /** One word of the first block changes, from 0 to 0x50000. */
  lemma BlockNoticesCopy(s: State)
    requires s.data == Zeros(1024)[256 := 5]
    ensures FletcherSum.Digest(HashTree.Block(Copied(s.data), 0)) != FletcherSum.Digest(HashTree.Block(s.data, 0))
  {
    hide FletcherSum.Digest, FletcherSum.Words, Copied;
    var u, t := HashTree.Block(s.data, 0), HashTree.Block(Copied(s.data), 0);
    CopiedBlock(s.data);
    forall k | 0 <= k < 64 && k != 61 ensures FletcherSum.Words(t)[k] == FletcherSum.Words(u)[k] {
      assert Window(t, 4 * k, 4) == Window(u, 4 * k, 4);
    }
    assert Window(u, 244, 4) == [0, 0, 0, 0] && Window(t, 244, 4) == [0, 0, 5, 0];
    assert FletcherSum.Words(u)[61] == 0 && FletcherSum.Words(t)[61] == 0x50000;
    FletcherSum.DigestOfWordChange(u, t, 61);
  }

  lemma CopiedBlock(data: seq<byte>)
    requires data == Zeros(1024)[256 := 5]
    ensures HashTree.Block(data, 0) == Zeros(256) && HashTree.Block(Copied(data), 0) == Zeros(256)[246 := 5]
  {
  }

  lemma NotTreeSafe(s: State)
    requires Lookup(s, B) == 1 < |s.o| && BareMove(s, 1, 1010, 1004) && s.used == 1014 && |s.data| == 1024
    requires s.o[1] == Entry(B, 20, 1004, 2)
    requires FletcherSum.Digest(HashTree.Block(Copied(s.data), 0)) != FletcherSum.Digest(HashTree.Block(s.data, 0))
    ensures !TreeSafe(s, Op.Resize(B, 1010))
  {
    hide BareMove, FletcherSum.Digest, HashTree.Block, Overwrite, Lookup, Window;
    assert !CopyUnseen(s, 1, 1004) by {
      assert BLOCK_LEN * (0 + 1) <= 10 + 1004;
    }
  }

  lemma AfterCopy(s: State, s': State)
    requires BeforeCopy(s) && s' == Step(s, Op.Resize(B, 1010)).0
    requires Lookup(s, B) == 1 && NeedsMove(s, 1, 1010) && BareMove(s, 1, 1010, 1004)
    ensures Step(s, Op.Resize(B, 1010)).1 == Outcome(0, [])
    ensures s'.data == Overwrite(Copied(s.data), 1014, Zeros(6))
    ensures s'.hash == HashTree.RangeUpdate(s'.data, s.hash, 3, 3, 3) && s'.Leaf() == 3
    ensures s'.o == [Entry(A, 0, 10, 0), Entry(B, 10, 1010, 2)]
  {
    hide Inv, TreeOk, Lookup, ResizeHelper, BareMove, NeedsMove, Overwrite, Window, HashTree.RangeUpdate;
    BareMoveIff(s, 1, 1010, 1004);
    BareMoveData(s, 1, 1010, 1004);
    HelperKeepsHash(s, 1, 1010, 1004);
    BehindA(s);
  }

  lemma BehindA(s: State)
    requires s.o == [Entry(A, 0, 10, 0), Entry(B, 20, 1004, 2)] && s.used == 1014 && NeedsMove(s, 1, 1010)
    ensures ResizeHelper(s, 1, 1010, 1004).s.o == [Entry(A, 0, 10, 0), Entry(B, 10, 1010, 2)]
  {
    hide NeedsMove, Overwrite, Window, Dir.SetLength, Dir.SetOffset;
    var a, b := Entry(A, 0, 10, 0), Entry(B, 10, 1004, 2);
    var s1 := s.(o := Removed(s.o, 1));
    assert s1.o == [a];
    assert Model.Repack(s1) == (s1, -1);
    assert InsertEntry([a], b) == [a, b];
    FirstWithSlot([a, b], 2, 1);
    assert [a, b][1 := b.(length := 1010)] == [a, b.(length := 1010)];
  }

  lemma FirstBlockStale(data: seq<byte>, hash: seq<byte>, data': seq<byte>, hash': seq<byte>)
    requires HashTree.Sized(data, hash, 3) && HashTree.ValidTree(data, hash, 3)
    requires data' == Overwrite(Copied(data), 1014, Zeros(6)) && hash' == HashTree.RangeUpdate(data', hash, 3, 3, 3)
    requires FletcherSum.Digest(HashTree.Block(Copied(data), 0)) != FletcherSum.Digest(HashTree.Block(data, 0))
    ensures !HashTree.Consistent(data', hash', 3, 3)
  {
    hide HashTree.RangeUpdate, HashTree.Node, FletcherSum.Digest, Copied;
    assert HashTree.Block(data', 0) == HashTree.Block(Copied(data), 0);
    assert HashTree.Consistent(data, hash, 3, 3);
    HashTree.LeafNotCovered(3, 3, 3, 0);
    HashTree.RangeUpdateAt(data', hash, 3, 3, 3, 3);
  }

  lemma ReadsStale(s: State)
    requires Inv(s) && s.Leaf() == 3 && !HashTree.Consistent(s.data, s.hash, 3, 3)
    requires s.o == [Entry(A, 0, 10, 0), Entry(B, 10, 1010, 2)]
    ensures Step(s, Op.Read(A, 0, 1)).1 == Outcome(3, [])
  {
    hide Inv, Lookup, HashTree.Consistent;
    LookupByNames(s, s, 0, 0);
    assert HashTree.AboveBlock(3, 3, 0);
  }
}
