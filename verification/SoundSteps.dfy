// Operations that place files inside the store keep it sound, and from the invariant all of them do.
module SoundSteps {
  import opened Structs
  import opened Bytes
  import opened Search
  import opened Model
  import opened Layouts
  import opened Placements
  import opened Invariants
  import opened Membership
  import opened Soundness
  import opened HeapFacts
  import opened Stores
  import opened Refinement
  import HashTree
  import Dir = Directory

  /** What the operation places lies in the store. */
  ghost predicate InStore(s: State, op: Op) {
    match op
    case Create(name, length) => NewInStore(s, name, length)
    case Resize(name, length) => GrownInStore(s, name, length)
    case Write(name, offset, buf) => Begins(s, name, offset) ==> GrownInStore(s, name, offset + |buf|)
    case _ => true
  }

  /** The arrays take what the operation inserts. */
  ghost predicate KeysFree(s: State, op: Op) {
    match op
    case Create(name, length) => NewKeysFree(s, name, length)
    case Resize(name, length) => GrownKeyFree(s, name, length)
    case Write(name, offset, buf) => Begins(s, name, offset) ==> GrownKeyFree(s, name, offset + |buf|)
    case _ => true
  }

  ghost predicate Lands(s: State, op: Op) {
    InStore(s, op) && KeysFree(s, op)
  }

  // From the invariant every operation lands

  lemma PackedEndsFit(o: seq<Entry>, o': seq<Entry>, cap: nat, to: nat, length: nat)
    requires Layout(o, cap) && Compacted(o, o') && to == Sum(o) && to + length <= cap
    ensures Fits(o', cap, to, length)
  {
    hide SumTo;
    forall k | 0 <= k < |o| && o[k].length > 0 ensures End(o'[k]) <= to {
      CompactedEnds(o, o', cap, k);
    }
  }

  lemma CreationAlwaysLands(s: State, filename: seq<byte>, length: nat)
    requires Inv(s) && Lookup(s, filename) < 0 && s.used + length <= |s.data|
    ensures NewInStore(s, filename, length) && NewKeysFree(s, filename, length)
  {
    hide Layout, Listed, Model.Repack, FreeOffset, GetIndex, FreeSlot, NameSorted, Fits, Content, Compacted,
      SumTo, Lookup, Marked, Dir.NameAt;
    var p := NewOffset(s, length);
    var e := Entry(Truncate(filename), p.offset, length, FreeSlot(s.slots));
    RepackIsExact(s);
    if length > 0 {
      NewOffsetFits(s, length);
    }
    PlacedIndex(p.s.o, |s.data|, e);
    LookupIs(s, filename);
    forall j | 0 <= j < |s.n| ensures s.n[j].name != e.name {
      var i := InOffsetArray(s, j);
    }
    Search.InsertByName(e, s.n);
  }

  lemma AlwaysReinserts(s: State, i: nat)
    requires Inv(s) && i < |s.o|
    ensures Reinserts(s, i)
  {
    hide Layout, Listed, Linked, Indexed, Model.Repack, GetIndex, Fits, Content, Compacted, SumTo;
    var s1 := s.(o := Removed(s.o, i));
    RemoveKeepsLayout(s.o, |s.data|, i);
    RepackIsExact(s1);
    SumToFits(s.o, |s.data|, |s.o|);
    var s2 := Model.Repack(s1).0;
    if s.o[i].length > 0 {
      PackedEndsFit(s1.o, s2.o, |s.data|, Sum(s1.o), s.o[i].length);
    }
    PlacedIndex(s2.o, |s.data|, s.o[i].(offset := Sum(s1.o)));
  }

  lemma GrowthAlwaysLands(s: State, i: nat, length: nat)
    requires Inv(s) && i < |s.o| && s.o[i].length < length
    requires s.used + length - s.o[i].length <= |s.data|
    ensures GrowthInStore(s, i, length) && GrowthKeyFree(s, i, length)
  {
    hide Inv, NeedsMove, Reinserts;
    AlwaysReinserts(s, i);
    if !NeedsMove(s, i, length) {
      Growth.FitsInPlace(s, i, length);
    }
  }

  /** From a state with the invariant, everything that any operation places lies in the store. */
  lemma InvLands(s: State, op: Op)
    requires Inv(s)
    ensures Lands(s, op)
  {
    hide Inv, Lookup, NewInStore, NewKeysFree, GrowthInStore, GrowthKeyFree;
    match op
    case Create(name, length) =>
      if Creates(s, name, length) {
        CreationAlwaysLands(s, name, length);
      } else {
        NothingCreated(s, name, length);
      }
    case Resize(name, length) =>
      if Grows(s, name, length) {
        GrowthAlwaysLands(s, Lookup(s, name), length);
      }
    case Write(name, offset, buf) =>
      if Grows(s, name, offset + |buf|) {
        GrowthAlwaysLands(s, Lookup(s, name), offset + |buf|);
      }
    case _ =>
  }

  lemma NothingCreated(s: State, filename: seq<byte>, length: nat)
    requires !Creates(s, filename, length)
    ensures NewInStore(s, filename, length) && NewKeysFree(s, filename, length)
  {
  }

  // Single changes

  lemma SlotIsUsed(s: State, i: nat)
    requires Sound(s) && i < |s.o|
    ensures s.o[i].slot < |s.slots| && s.slots[s.o[i].slot] == 1
  {
    hide AllPlaced, Ones, Blanks;
    var j := InNameArray(s, i);
    assert HasSlot(s.n, s.o[i].slot);
  }

  lemma AddKeepsSound(s: State, e: Entry)
    requires Sound(s) && Placed(e, |s.data|) && s.used + e.length <= |s.data|
    requires e.slot < |s.slots| && s.slots[e.slot] == 0
    requires GetIndex(e, s.o, OFFSET, true) >= 0 && GetIndex(e, s.n, NAME, true) >= 0
    ensures Sound(AddFile(s, e).(used := s.used + e.length))
  {
    hide GetIndex, Blanks, Marked, SumTo, Placed, Dir.WriteRecord;
    var p, q := GetIndex(e, s.o, OFFSET, true), GetIndex(e, s.n, NAME, true);
    forall k | 0 <= k < |s.o| ensures s.o[k].slot != e.slot {
      SlotIsUsed(s, k);
    }
    MarkedAdded(s.n, s.slots, q, Blank(e));
    SlotsDistinctInserted(s.n, q, Blank(e));
    SumOfInserted(s.o, p, e);
    BlanksOfInserted(s.o, p, e);
    ElemsOfInserted(s.n, q, Blank(e));
    assert AddFile(s, e).Leaf() == s.Leaf();
  }

  lemma HashKeepsSound(s: State, s': State)
    requires Sound(s) && s' == s.(data := s'.data, hash := s'.hash)
    requires |s'.data| == |s.data| && |s'.hash| == |s.hash|
    ensures Sound(s')
  {
    assert s'.Leaf() == s.Leaf();
  }

  lemma CreateKeepsSound(s: State, op: Op)
    requires op.Create? && Sound(s) && Lands(s, op)
    ensures Sound(Step(s, op).0)
  {
    hide Sound, Lookup, NewOffset, AddFile, FreeSlot, Overwrite, HashTree.Rehash, GetIndex, NewInStore;
    var length, s' := op.length, Step(s, op).0;
    if Creates(s, op.name, length) {
      CreateFits(s, op.name, length);
      var p := NewOffset(s, length);
      var e := Entry(Truncate(op.name), p.offset, length, FreeSlot(s.slots));
      FreeSlotFits(s);
      PlacementKeepsSound(s, length);
      AddKeepsSound(p.s, e);
      AddFileKeepsData(p.s, e);
      HashKeepsSound(AddFile(p.s, e).(used := s.used + length), s');
    }
  }

  lemma PlacementKeepsSound(s: State, length: nat)
    requires Sound(s)
    ensures var p := NewOffset(s, length);
            && Sound(p.s) && p.s.slots == s.slots && p.s.used == s.used && |p.s.data| == |s.data| && p.s.n == s.n
            && (length == 0 ==> p.offset == MAX_FILE_DATA_LEN)
  {
    hide Sound, Model.Repack, MovedInside;
    RepackKeepsSound(s);
    RepackParts(s);
  }

  lemma RepackParts(s: State)
    requires Sound(s)
    ensures var s' := Model.Repack(s).0;
            s'.slots == s.slots && s'.used == s.used && |s'.data| == |s.data| && s'.n == s.n && s'.hash == s.hash
  {
    hide Model.Repack, Linked, Marked, SumTo;
    RepackInside(s);
  }

  lemma RemovedFiles(o: seq<Entry>, i: nat, cap: nat, k: nat)
    requires i < |o| && DistinctSlots(o)
    ensures DistinctSlots(Removed(o, i)) && (AllPlaced(o, cap) ==> AllPlaced(Removed(o, i), cap))
    ensures (forall x :: 0 <= x < |o| ==> o[x].slot < k) ==> forall x :: 0 <= x < |o| - 1 ==> Removed(o, i)[x].slot < k
  {
  }

  lemma DeleteKeepsSound(s: State, op: Op)
    requires op.Delete? && Sound(s)
    ensures Sound(Step(s, op).0)
  {
    hide Lookup, Blanks, Marked, SumTo, PosOfSlot, Dir.ClearRecord, AllPlaced, DistinctSlots, Removed;
    var i := Lookup(s, op.name);
    if i >= 0 {
      var e := s.o[i];
      var j := InNameArray(s, i);
      PositionOfName(s, i, j);
      SlotIsUsed(s, i);
      RemovedFiles(s.o, i, |s.data|, |s.slots|);
      RemovedFiles(s.n, j, |s.data|, |s.slots|);
      SumOfRemoved(s.o, i, |s.o|);
      BlanksOfRemoved(s.o, i);
      ElemsOfRemoved(s.n, j);
      MarkedRemoved(s.n, s.slots, j);
      assert Step(s, op).0.Leaf() == s.Leaf();
    }
  }

  lemma RenameKeepsSound(s: State, op: Op)
    requires op.Rename? && Sound(s)
    ensures Sound(Step(s, op).0)
  {
    hide Lookup, Blanks, Marked, SumTo, PosOfSlot, Dir.SetName, Truncate;
    var i := Lookup(s, op.name);
    if i >= 0 && op.name != op.newName && Lookup(s, op.newName) < 0 {
      var e := s.o[i].(name := Truncate(op.newName));
      var j := InNameArray(s, i);
      PositionOfName(s, i, j);
      SumOfUpdated(s.o, i, e, |s.o|);
      BlanksOfRenamed(s.o, i, e);
      ElemsOfRenamed(s.n, j, Blank(e));
      MarkedRenamed(s.n, s.slots, j, Blank(e));
      assert Step(s, op).0.Leaf() == s.Leaf();
    }
  }

  // Growth and shrinking

  lemma LengthKeepsSound(s: State, e: Entry, length: nat)
    requires Sound(s) && PosOfSlot(s.o, e.slot) < |s.o| && s.o[PosOfSlot(s.o, e.slot)] == e
    requires e.offset + length <= |s.data| && s.used + length - e.length <= |s.data|
    ensures Sound(SetLength(s, e, length))
  {
    hide Marked, SumTo, PosOfSlot, Dir.SetLength;
    var p, e' := PosOfSlot(s.o, e.slot), e.(length := length);
    SumOfUpdated(s.o, p, e', |s.o|);
    SameBlanks(s.o, s.o[p := e']);
    assert SetLength(s, e, length).Leaf() == s.Leaf();
  }

  lemma HelperKeepsSound(s: State, i: nat, length: nat, copy: nat)
    requires Sound(s) && i < |s.o| && s.used + length - s.o[i].length <= |s.data|
    requires length > s.o[i].length ==> GrowthInStore(s, i, length) && GrowthKeyFree(s, i, length)
    ensures Sound(ResizeHelper(s, i, length, copy).s)
  {
    hide Sound, Relocate, Model.SetLength, PosOfSlot, Reinserts, Minus64, NextNonzero;
    SoundFacts(s);
    SlotPosition(s, i);
    MovedSlots(s, i, length, copy);
    EndInStore(s, i);
    var r := Moved(s, i, length, copy);
    if length == s.o[i].length {
      SameLength(r.s, r.e);
    } else {
      if length > s.o[i].length {
        GrownEnd(s, i, length, copy);
      }
      LengthKeepsSound(r.s, r.e, length);
    }
  }

  lemma ResizeKeepsSound(s: State, op: Op)
    requires op.Resize? && Sound(s) && Lands(s, op)
    ensures Sound(Step(s, op).0)
  {
    hide Sound, Lookup, ResizeHelper, GrowthInStore, GrowthKeyFree, Overwrite, HashTree.Rehash;
    var i, length := Lookup(s, op.name), op.length;
    if i >= 0 && s.used + length - s.o[i].length <= |s.data| && length != s.o[i].length {
      HelperKeepsSound(s, i, length, s.o[i].length);
      ResizedParts(s, i, length, s.o[i].length);
      HashKeepsSound(ResizeHelper(s, i, length, s.o[i].length).s, Step(s, op).0);
    }
  }

  lemma WriteKeepsSound(s: State, op: Op)
    requires op.Write? && Sound(s) && Lands(s, op)
    ensures Sound(Step(s, op).0)
  {
    hide Sound, Lookup, ResizeHelper, GrowthInStore, GrowthKeyFree, Overwrite, HashTree.Rehash;
    var i, offset, length := Lookup(s, op.name), op.offset, op.offset + |op.buf|;
    if i >= 0 && offset <= s.o[i].length && s.used + length - s.o[i].length <= |s.data| && |op.buf| > 0 {
      if length > s.o[i].length {
        HelperKeepsSound(s, i, length, offset);
        ResizedParts(s, i, length, offset);
      }
      HashKeepsSound(MakeRoom(s, i, offset, |op.buf|).s, Step(s, op).0);
    }
  }

  lemma LandingKeepsSound(s: State, op: Op)
    requires Sound(s) && Lands(s, op)
    ensures Sound(Step(s, op).0)
  {
    hide Sound, Lands, Model.Create, Model.Resize, Model.Write, Model.Delete, Model.Rename, Model.Read, Model.Size,
      Model.Repack, HashTree.Rehash;
    match op
    case Create(_, _) => CreateKeepsSound(s, op);
    case Resize(_, _) => ResizeKeepsSound(s, op);
    case Write(_, _, _) => WriteKeepsSound(s, op);
    case Delete(_) => DeleteKeepsSound(s, op);
    case Rename(_, _) => RenameKeepsSound(s, op);
    case Repack =>
      RepackKeepsSound(s);
      RepackParts(s);
      HashKeepsSound(Model.Repack(s).0, RepackAll(s));
    case _ =>
  }

  // An operation that does not land loses it

  /** The parts of a sound state that an operation which does not land breaks. */
  lemma SoundParts(s: State)
    requires Sound(s)
    ensures AllPlaced(s.o, |s.data|) && |s.o| == |s.n| == s.count
  {
  }

  lemma CreateLosesSound(s: State, op: Op)
    requires op.Create? && Sound(s) && Sound(Step(s, op).0)
    ensures Lands(s, op)
  {
    hide Sound, Lookup, NewOffset, FreeSlot, Overwrite, HashTree.Rehash, GetIndex, NewInStore, AllPlaced, Dir.WriteRecord;
    var length, s' := op.length, Step(s, op).0;
    if Creates(s, op.name, length) {
      CreateFits(s, op.name, length);
      var p := NewOffset(s, length);
      var e := Entry(Truncate(op.name), p.offset, length, FreeSlot(s.slots));
      SoundParts(s);
      SoundParts(s');
      var k := GetIndex(e, p.s.o, OFFSET, true);
      assert s'.o == InsertEntry(p.s.o, e) && s'.n == InsertName(s.n, e) && s'.count == s.count + 1;
      assert s'.o[k] == e;
      InsertedInStore(s'.o, |s.data|, k);
    }
    NothingStored(s, op.name, length);
  }

  lemma NothingStored(s: State, filename: seq<byte>, length: nat)
    ensures !Creates(s, filename, length) || length == 0 ==> NewInStore(s, filename, length)
  {
  }

  lemma InsertedInStore(o: seq<Entry>, cap: nat, k: nat)
    requires AllPlaced(o, cap) && k < |o|
    ensures o[k].length > 0 ==> End(o[k]) <= cap
  {
    assert Placed(o[k], cap);
  }

  lemma GrowthLosesSound(s: State, i: nat, length: nat, copy: nat)
    requires Sound(s) && i < |s.o| && s.o[i].length < length && s.used + length - s.o[i].length <= |s.data|
    requires var s' := ResizeHelper(s, i, length, copy).s; |s'.o| == |s.o| && AllPlaced(s'.o, |s.data|)
    ensures GrowthInStore(s, i, length) && GrowthKeyFree(s, i, length)
  {
    hide Sound, Moved, PosOfSlot, Dir.SetLength, AllPlaced, GrowthInStore, GrowthKeyFree;
    MovedSlots(s, i, length, copy);
    GrownEnd(s, i, length, copy);
    var r := ResizeHelper(s, i, length, copy);
    HelperParts(s, i, length, copy);
    if GrowthKeyFree(s, i, length) {
      var m := Moved(s, i, length, copy);
      var p := PosOfSlot(m.s.o, m.e.slot);
      assert r.s.o[p] == r.e;
      InsertedInStore(r.s.o, |s.data|, p);
    }
  }

  lemma HelperParts(s: State, i: nat, length: nat, copy: nat)
    requires i < |s.o|
    ensures var (m, r) := (Moved(s, i, length, copy), ResizeHelper(s, i, length, copy));
            r.s == Model.SetLength(m.s, m.e, length) && r.e == m.e.(length := length)
  {
    hide Model.SetLength, Relocate, NeedsMove;
  }

  lemma ResizeLosesSound(s: State, op: Op)
    requires op.Resize? && Sound(s) && Sound(Step(s, op).0)
    ensures Lands(s, op)
  {
    hide Sound, Lookup, ResizeHelper, GrowthInStore, GrowthKeyFree, AllPlaced, Overwrite, HashTree.Rehash;
    var i, length, s' := Lookup(s, op.name), op.length, Step(s, op).0;
    if Grows(s, op.name, length) {
      var r := ResizeHelper(s, i, length, s.o[i].length);
      ResizedParts(s, i, length, s.o[i].length);
      SoundParts(s);
      SoundParts(s');
      HelperKeepsNames(s, i, length, s.o[i].length);
      assert s'.o == r.s.o && s'.n == s.n;
      GrowthLosesSound(s, i, length, s.o[i].length);
    }
  }

  lemma HelperKeepsNames(s: State, i: nat, length: nat, copy: nat)
    requires Sound(s) && i < |s.o|
    ensures ResizeHelper(s, i, length, copy).s.n == s.n
  {
    hide Sound, Model.Repack, NeedsMove, NextNonzero, PosOfSlot, MovedInside, InsertEntry, Overwrite, Window,
      Dir.SetOffset, Dir.SetLength;
    RelocateFits(s, i);
    MovedNames(s.(o := Removed(s.o, i)), Model.Repack(s.(o := Removed(s.o, i))).0);
  }

  lemma MovedNames(s: State, s': State)
    requires MovedInside(s, s')
    ensures s'.n == s.n && s'.used == s.used
  {
  }

  lemma WriteLosesSound(s: State, op: Op)
    requires op.Write? && Sound(s) && Sound(Step(s, op).0)
    ensures Lands(s, op)
  {
    hide Sound, Lookup, ResizeHelper, GrowthInStore, GrowthKeyFree, AllPlaced, Overwrite, HashTree.Rehash;
    var i, offset, length, s' := Lookup(s, op.name), op.offset, op.offset + |op.buf|, Step(s, op).0;
    if Begins(s, op.name, offset) && Grows(s, op.name, length) {
      var r := ResizeHelper(s, i, length, offset);
      ResizedParts(s, i, length, offset);
      SoundParts(s);
      SoundParts(s');
      HelperKeepsNames(s, i, length, offset);
      assert s'.o == r.s.o && s'.n == s.n;
      GrowthLosesSound(s, i, length, offset);
    }
  }

  /** In whatever order the arrays are, an operation keeps the state sound exactly when what it places lies in the
      store and the arrays take what it inserts. */
  lemma StepSoundIff(s: State, op: Op)
    requires Sound(s)
    ensures Sound(Step(s, op).0) <==> Lands(s, op)
  {
    hide Sound, Lands, Step;
    if Lands(s, op) {
      LandingKeepsSound(s, op);
    } else if Sound(Step(s, op).0) {
      match op
      case Create(_, _) => CreateLosesSound(s, op);
      case Resize(_, _) => ResizeLosesSound(s, op);
      case Write(_, _, _) => WriteLosesSound(s, op);
      case _ => AlwaysLands(s, op);
    }
  }

  lemma AlwaysLands(s: State, op: Op)
    requires !op.Create? && !op.Resize? && !op.Write?
    ensures Lands(s, op)
  {
  }

  ghost predicate LandingRun(s: State, ops: seq<Op>)
    decreases |ops|
  {
    |ops| == 0 || (Lands(s, ops[0]) && LandingRun(Step(s, ops[0]).0, ops[1..]))
  }

  /** The state after each operation of the run is sound. */
  ghost predicate SoundRun(s: State, ops: seq<Op>)
    decreases |ops|
  {
    |ops| == 0 || (Sound(Step(s, ops[0]).0) && SoundRun(Step(s, ops[0]).0, ops[1..]))
  }

  lemma {:induction false} RunSoundIff(s: State, ops: seq<Op>)
    requires Sound(s)
    ensures SoundRun(s, ops) <==> LandingRun(s, ops)
    ensures SoundRun(s, ops) ==> Sound(Run(s, ops).0)
    decreases |ops|
  {
    hide Sound, Lands, Step;
    if |ops| > 0 {
      StepSoundIff(s, ops[0]);
      if Lands(s, ops[0]) {
        RunSoundIff(Step(s, ops[0]).0, ops[1..]);
      }
    }
  }
}
