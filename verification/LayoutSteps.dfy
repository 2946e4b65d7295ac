// Exactly which operations keep the invariant.
module LayoutSteps {
  import opened Structs
  import opened Bytes
  import opened Search
  import opened Model
  import opened Layouts
  import opened Placements
  import opened Invariants
  import opened Growth
  import opened Membership
  import opened Stores
  import opened Refinement
  import opened Abstraction
  import opened TreeRuns
  import opened Soundness
  import opened SoundSteps
  import HashTree
  import Dir = Directory

  // Operations that do not keep the order lose it

  lemma OverlapBreaksLayout(o: seq<Entry>, cap: nat, i: nat, j: nat)
    requires i < j < |o| && !Before(o[i], o[j])
    ensures !Layout(o, cap)
  {
  }

  lemma UnsafeCreation(s: State, op: Op)
    requires op.Create? && Inv(s) && !OrderSafe(s, op)
    ensures !Layout(Step(s, op).0.o, |s.data|)
  {
    hide Lookup, Listed, Linked, Indexed, GetIndex, Fits, NoEmptyInside, Room, FreeSlot, InsertEntry, InsertName, FreeOffset,
      HashTree.Rehash, Dir.WriteRecord;
    var length := op.length;
    var x := FreeOffset(s.o, |s.data|, length);
    FreeOffsetIsFirst(s.o, |s.data|, length);
    var e := Entry(Truncate(op.name), x, length, FreeSlot(s.slots));
    RoomIffNoEmptyInside(s.o, |s.data|, e);
    PlacedIndex(s.o, |s.data|, e);
    InsertKeepsLayoutIff(s.o, |s.data|, e);
    assert Step(s, op).0.o == InsertEntry(s.o, e);
  }

  lemma UnsafeInPlace(s: State, i: nat, length: nat, copy: nat)
    requires Inv(s) && i < |s.o| && length > s.o[i].length && !NeedsMove(s, i, length) && !GrowsSafely(s, i, length)
    ensures !Layout(ResizeHelper(s, i, length, copy).s.o, |s.data|)
  {
    hide Listed, Linked, Indexed, NeedsMove, PosOfSlot, Dir.SetLength, Layout;
    PosInListed(s.o, s.dir, |s.slots|, i);
    var j :| i < j < |s.o| && s.o[i].offset + length > s.o[j].offset;
    OverlapBreaksLayout(ResizeHelper(s, i, length, copy).s.o, |s.data|, i, j);
  }

  lemma UnsafeEmpty(s: State, i: nat, length: nat)
    requires Inv(s) && i < |s.o| && length > s.o[i].length == 0 && NeedsMove(s, i, length) && !ClearForEmpty(s, i, length)
    ensures !Layout(ResizeHelper(s, i, length, 0).s.o, |s.data|)
  {
    hide Model.Repack, Listed, Linked, Indexed, NeedsMove, PosOfSlot, Dir.SetLength, Dir.SetOffset, Layout, SumTo, Compacted,
      Content, InsertEntry, PacksForEmpty, Relocate;
    var s1 := s.(o := Removed(s.o, i));
    var packs := PacksForEmpty(s, i, length);
    var (s2, h) := if packs then Model.Repack(s1) else (s1, -1);
    var e := s.o[i].(offset := if packs then s.used else 0);
    RelocateEmptyIs(s, i, length);
    RemoveKeepsLayout(s.o, |s.data|, i);
    RepackIsExact(s1);
    RelocatedListed(s, i, s2, |s2.o|, e);
    SumToFits(s.o, |s.data|, |s.o|);
    var o' := ResizeHelper(s, i, length, 0).s.o;
    assert o' == Inserted(s2.o, |s2.o|, e)[|s2.o| := e.(length := length)];
    var k := InTheWay(s, i, length);
    if packs {
      PacksWhenUsed(s, i, length);
      CompactedTail(s1.o, s2.o, |s.data|, k);
    }
    OverlapBreaksLayout(o', |s.data|, k, |s2.o|);
  }

  lemma PacksWhenUsed(s: State, i: nat, length: nat)
    requires i < |s.o| && PacksForEmpty(s, i, length)
    ensures s.used > 0
  {
  }

  /** Another file that the growing one is wrongly put behind. */
  lemma InTheWay(s: State, i: nat, length: nat) returns (k: nat)
    requires i < |s.o| && !ClearForEmpty(s, i, length)
    ensures var o := Removed(s.o, i);
            && k < |o|
            && if PacksForEmpty(s, i, length) then k > 0 && o[k].offset >= MAX_FILE_DATA_LEN else End(o[k]) > 0
  {
    hide PacksForEmpty;
    var o := Removed(s.o, i);
    if PacksForEmpty(s, i, length) {
      k :| 0 < k < |o| && o[k].offset >= MAX_FILE_DATA_LEN;
    } else {
      k :| 0 <= k < |o| && End(o[k]) > 0;
    }
  }

  lemma UnsafeGrowth(s: State, i: nat, length: nat, copy: nat)
    requires Inv(s) && i < |s.o| && copy <= s.o[i].length < length && !GrowsSafely(s, i, length)
    ensures !Layout(ResizeHelper(s, i, length, copy).s.o, |s.data|)
  {
    hide ResizeHelper, Inv, NeedsMove, ClearForEmpty, Layout;
    if NeedsMove(s, i, length) {
      UnsafeEmpty(s, i, length);
    } else {
      UnsafeInPlace(s, i, length, copy);
    }
  }

  lemma UnsafeResize(s: State, op: Op)
    requires op.Resize? && Inv(s) && !OrderSafe(s, op)
    ensures !Layout(Step(s, op).0.o, |s.data|)
  {
    hide Lookup, Inv, ResizeHelper, Layout, GrowsSafely, HashTree.Rehash, Overwrite;
    var i, length := Lookup(s, op.name), op.length;
    UnsafeGrowth(s, i, length, s.o[i].length);
    HelperKeepsHash(s, i, length, s.o[i].length);
  }

  lemma UnsafeWrite(s: State, op: Op)
    requires op.Write? && Inv(s) && !OrderSafe(s, op)
    ensures !Layout(Step(s, op).0.o, |s.data|)
  {
    hide Lookup, Inv, ResizeHelper, Layout, GrowsSafely, HashTree.Rehash, Overwrite;
    var i, length := Lookup(s, op.name), op.offset + |op.buf|;
    UnsafeGrowth(s, i, length, op.offset);
  }

  lemma UnsafeRename(s: State, op: Op)
    requires op.Rename? && Inv(s) && !OrderSafe(s, op)
    ensures !NameSorted(Step(s, op).0.n)
  {
    hide Lookup, Layout, Listed, Linked, NameSorted, BetweenNeighbours, PosOfSlot, Dir.SetName;
    var i := Lookup(s, op.name);
    NamePosition(s, i);
    var j := PosOfSlot(s.n, s.o[i].slot);
    SortedAfterRenameIff(s.n, j, Blank(s.o[i].(name := Truncate(op.newName))));
  }

  /** The offset array keeps its layout, or the name array its order, exactly when the operation is safe. */
  lemma StepKeepsInvIff(s: State, op: Op)
    requires Inv(s) && Named(op)
    ensures Inv(Step(s, op).0) <==> OrderSafe(s, op)
    ensures op.Rename? ==> (NameSorted(Step(s, op).0.n) <==> OrderSafe(s, op))
    ensures !op.Rename? ==> (Layout(Step(s, op).0.o, |s.data|) <==> OrderSafe(s, op))
  {
    hide Inv, Step, OrderSafe, Apply, Layout, NameSorted;
    RepresentsAbstract(s);
    if OrderSafe(s, op) {
      StepRefines(s, Abstract(s), op);
      RepresentedParts(Step(s, op).0, Apply(Abstract(s), op).0);
      ApplyKeepsCap(Abstract(s), op);
    } else if op.Rename? {
      UnsafeRename(s, op);
      UnsortedBreaksInv(Step(s, op).0);
    } else {
      UnsafeStep(s, op);
      SizeKept(s, op);
      LostLayoutBreaksInv(Step(s, op).0);
    }
  }

  lemma UnsafeStep(s: State, op: Op)
    requires !op.Rename? && Inv(s) && !OrderSafe(s, op)
    ensures !Layout(Step(s, op).0.o, |s.data|)
  {
    hide Inv, Step, Layout, Lookup, GrowsSafely, CreatesSafely;
    match op
    case Create(_, _) => UnsafeCreation(s, op);
    case Resize(_, _) => UnsafeResize(s, op);
    case Write(_, _, _) => UnsafeWrite(s, op);
    case _ =>
  }

  lemma RepresentedParts(s: State, st: Store)
    requires Represents(s, st)
    ensures Inv(s) && NameSorted(s.n) && Layout(s.o, |s.data|) && st.cap == |s.data|
  {
  }

  lemma ApplyKeepsCap(st: Store, op: Op)
    ensures Apply(st, op).0.cap == st.cap
  {
  }

  lemma UnsortedBreaksInv(s: State)
    requires !NameSorted(s.n)
    ensures !Inv(s)
  {
  }

  lemma LostLayoutBreaksInv(s: State)
    requires !Layout(s.o, |s.data|)
    ensures !Inv(s)
  {
  }

  lemma SizeKept(s: State, op: Op)
    requires Inv(s) && !OrderSafe(s, op)
    ensures |Step(s, op).0.data| == |s.data|
  {
    hide Lookup, Inv, ResizeHelper, GrowsSafely, CreatesSafely, NewOffset, AddFile, FreeSlot, Overwrite, HashTree.Rehash,
      Dir.SetName;
    match op
    case Create(name, length) =>
      var p := NewOffset(s, length);
      PlacementMoves(s, length);
      AddFileKeepsData(p.s, Entry(Truncate(name), p.offset, length, FreeSlot(s.slots)));
    case Resize(name, length) =>
      HelperKeepsHash(s, Lookup(s, name), length, s.o[Lookup(s, name)].length);
    case Write(name, offset, buf) =>
      HelperKeepsHash(s, Lookup(s, name), offset + |buf|, offset);
    case _ =>
  }

  // Empty names

  /** The operation gives a file the empty name. */
  predicate Nameless(op: Op) {
    (op.Create? && op.name == []) || (op.Rename? && op.newName == [])
  }

  /** No check refuses an empty name, and no lookup finds it again. */
  lemma NamelessKeepsInvIff(s: State, op: Op)
    requires Inv(s) && Nameless(op)
    ensures var (s', out) := Step(s, op);
            && (Inv(s') <==> out.code != 0)
            && (out.code == 0 ==> HasName(s'.o, []) && HasName(s'.n, []) && Lookup(s', []) == -1)
  {
    hide Inv;
    if op.Create? {
      NamelessCreation(s, op);
    } else {
      NamelessRename(s, op);
    }
  }

  lemma EmptyNameBreaksInv(s: State, j: nat)
    requires j < |s.n| && s.n[j].name == []
    ensures !Inv(s) && HasName(s.n, [])
  {
    hide Layout, Listed, Linked, Dir.NameAt, Marked, SumTo;
  }

  lemma NamelessCreation(s: State, op: Op)
    requires Inv(s) && op.Create? && op.name == []
    ensures var (s', out) := Step(s, op);
            if out.code == 0 then !Inv(s') && HasName(s'.o, []) && HasName(s'.n, []) else s' == s
  {
    hide Inv, NewOffset, FreeSlot, GetIndex, Overwrite, HashTree.Rehash, Dir.WriteRecord;
    var s' := Step(s, op).0;
    if Creates(s, [], op.length) {
      InvLands(s, op);
      PlacementKeepsSound(s, op.length) by {
        InvIsSound(s);
      }
      var p := NewOffset(s, op.length);
      var e := Entry([], p.offset, op.length, FreeSlot(s.slots));
      var x, y := GetIndex(e, p.s.o, OFFSET, true), GetIndex(e, s.n, NAME, true);
      assert s'.o == Inserted(p.s.o, x, e) && s'.n == Inserted(s.n, y, Blank(e));
      assert s'.o[x].name == [];
      EmptyNameBreaksInv(s', y);
    }
  }

  lemma NamelessRename(s: State, op: Op)
    requires Inv(s) && op.Rename? && op.newName == []
    ensures var (s', out) := Step(s, op);
            if out.code == 0 then !Inv(s') && HasName(s'.o, []) && HasName(s'.n, []) else s' == s
  {
    hide Inv, GetIndex, PosOfSlot, Dir.SetName;
    var (s', out) := Step(s, op);
    if out.code == 0 {
      var i := Lookup(s, op.name);
      NamePosition(s, i);
      assert s'.o[i].name == [];
      EmptyNameBreaksInv(s', PosOfSlot(s.n, s.o[i].slot));
    }
  }
}
