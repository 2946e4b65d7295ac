// Where a file that grows lies afterwards, decided by the places of the files alone, and which bytes an operation writes.
module Relocation {
  import opened Structs
  import opened Bytes
  import opened Search
  import opened Model
  import opened Layouts
  import opened Placements
  import opened Invariants
  import opened Growth
  import opened Stores
  import opened Refinement
  import opened Soundness
  import opened SoundSteps
  import opened HeapFacts
  import opened Rehashing
  import HashTree
  import Dir = Directory

  /** The operation lets file i grow to the given length within the capacity; its first `kept` bytes are kept. */
  ghost predicate LetsGrow(s: State, op: Op, i: nat, length: nat, kept: nat) {
    && (op.Resize? || op.Write?) && Lookup(s, op.name) == i < |s.o|
    && (op.Resize? ==> length == op.length && kept == s.o[i].length)
    && (op.Write? ==> length == op.offset + |op.buf| && kept == op.offset <= s.o[i].length)
    && s.o[i].length < length && s.used + length - s.o[i].length <= |s.data|
  }

  /** File i has the length where it lay, no other entry has changed, and no byte outside its new ones was written. */
  ghost predicate GrewInPlace(s: State, s': State, i: nat, length: nat, kept: nat)
    requires i < |s.o|
  {
    && s'.o == s.o[i := s.o[i].(length := length)]
    && SameOutside(s.data, s'.data, s.o[i].offset + kept, s.o[i].offset + length)
  }

  /** File i has the length behind all other files, which repack_helper has packed. */
  ghost predicate SentBehind(s: State, s': State, i: nat, length: nat)
    requires i < |s.o| && s.used >= s.o[i].length
  {
    var o := Model.Repack(s.(o := Removed(s.o, i))).0.o;
    var e := s.o[i].(offset := s.used - s.o[i].length, length := length);
    exists p: nat :: PutBehind(o, s'.o, p, e)
  }

  ghost predicate PutBehind(o: seq<Entry>, o': seq<Entry>, p: nat, e: Entry) {
    p <= |o| && o' == Inserted(o, p, e) && forall k: nat :: k < |o| && o[k].length > 0 ==> k < p && End(o[k]) <= e.offset
  }

  /** File i, empty at 2^32 before, has the length at 0; the others have not moved. */
  ghost predicate SentToFront(s: State, s': State, i: nat, length: nat)
    requires i < |s.o|
  {
    s'.o == Removed(s.o, i) + [s.o[i].(offset := 0, length := length)] && SameOutside(s.data, s'.data, 0, length)
  }

  /** Every other file that is not empty begins at the length or after. */
  ghost predicate FrontIsFree(s: State, i: nat, length: nat)
    requires i < |s.o|
  {
    forall k: nat :: k < |s.o| && k != i && s.o[k].length > 0 ==> s.o[k].offset >= length
  }

  // resize_file_helper

  lemma HelperStays(s: State, i: nat, length: nat, kept: nat)
    requires Inv(s) && i < |s.o| && s.o[i].length < length && Stays(s, i, length)
    ensures var r := ResizeHelper(s, i, length, kept);
            && r.s.o == s.o[i := s.o[i].(length := length)] && r.s.data == s.data && r.e == s.o[i].(length := length)
  {
    hide NeedsMove, Stays, PosOfSlot, Dir.SetLength, Relocate, Linked, Indexed;
    MovesIff(s, i, length);
    PosInListed(s.o, s.dir, |s.slots|, i);
  }

  lemma HelperMoves(s: State, i: nat, length: nat, kept: nat)
    requires Inv(s) && i < |s.o| && kept <= s.o[i].length < length && s.o[i].offset < MAX_FILE_DATA_LEN
    requires !Stays(s, i, length)
    ensures s.used >= s.o[i].length && SentBehind(s, ResizeHelper(s, i, length, kept).s, i, length)
  {
    hide Inv, Sound, NeedsMove, Stays, Relocate, PosOfSlot, Model.Repack, GetIndex, PutBehind, Overwrite, Window, Reinsert;
    var e, s1 := s.o[i], s.(o := Removed(s.o, i));
    InvIsSound(s);
    SoundFacts(s);
    MovesIff(s, i, length);
    AlwaysReinserts(s, i);
    RelocateFits(s, i);
    RelocateSteps(s, i, length, kept);
    var s2, e' := Model.Repack(s1).0, e.(offset := s.used - e.length);
    var s3 := s2.(data := Overwrite(s2.data, e'.offset, Window(s.data, e.offset, kept)));
    var p := GetIndex(e', s2.o, OFFSET, true);
    ReinsertKeepsSound(s, i, s3, p, e');
    ReinsertedAt(s3, p, e');
    Regrows(s3, p, e', length);
    HelperParts(s, i, length, kept);
    BehindOthers(s, i, s2, p, e');
    Lengthened(s2.o, p, e', length);
  }

  /** The length of a file that was put back at position p. */
  lemma Regrows(s: State, p: nat, e: Entry, length: nat)
    requires p == GetIndex(e, s.o, OFFSET, true) <= |s.o| && PosOfSlot(Reinsert(s, e).o, e.slot) == p && length != e.length
    ensures SetLength(Reinsert(s, e), e, length).o == Inserted(s.o, p, e.(length := length))
  {
    hide GetIndex, PosOfSlot, Dir.SetLength, Dir.SetOffset;
    assert Inserted(s.o, p, e)[p := e.(length := length)] == Inserted(s.o, p, e.(length := length));
  }

  lemma Lengthened(o: seq<Entry>, p: nat, e: Entry, length: nat)
    requires p <= |o| && PutBehind(o, Inserted(o, p, e), p, e)
    ensures PutBehind(o, Inserted(o, p, e.(length := length)), p, e.(length := length))
  {
  }

  lemma BehindOthers(s: State, i: nat, s2: State, p: nat, e: Entry)
    requires Inv(s) && i < |s.o| && s2 == Model.Repack(s.(o := Removed(s.o, i))).0
    requires s.used >= s.o[i].length && e == s.o[i].(offset := s.used - s.o[i].length)
    requires p == GetIndex(e, s2.o, OFFSET, true) <= |s2.o|
    ensures PutBehind(s2.o, Inserted(s2.o, p, e), p, e)
  {
    hide Listed, Linked, Indexed, Model.Repack, GetIndex, Content, Compacted, SumTo, Room;
    var s1 := s.(o := Removed(s.o, i));
    RemoveKeepsLayout(s.o, |s.data|, i);
    RepackIsExact(s1);
    SumToFits(s.o, |s.data|, |s.o|);
    if e.length == 0 {
      EmptyGoesLast(s2.o, e);
    } else {
      RoomAtEnd(s2, s1.o, e);
      InsertionPoint(s2.o, |s.data|, e);
    }
    forall k: nat | k < |s2.o| && s2.o[k].length > 0 ensures k < p && End(s2.o[k]) <= e.offset {
      LengthCounts(s1.o, k);
      CompactedBelow(s1.o, s2.o, |s.data|, k);
    }
  }

  lemma LengthCounts(o: seq<Entry>, k: nat)
    requires k < |o|
    ensures o[k].length <= Sum(o)
  {
    SumToGrows(o, k + 1, |o|);
  }

  // Empty files at 2^32

  lemma HelperFillsEmpty(s: State, i: nat, length: nat)
    requires Inv(s) && i < |s.o| && s.o[i].length == 0 < length && s.o[i].offset >= MAX_FILE_DATA_LEN
    ensures s.used >= 0
    ensures var r := ResizeHelper(s, i, length, 0);
            if FrontIsFree(s, i, length) then
              && r.s.o == Removed(s.o, i) + [s.o[i].(offset := 0, length := length)]
              && r.s.data == s.data && r.e.offset == 0
            else SentBehind(s, r.s, i, length)
  {
    hide Inv, NeedsMove, Relocate, PosOfSlot, Model.Repack, GetIndex, PutBehind, Reinsert, FrontIsFree, NextNonzero, Sound,
      SetLength;
    var s1 := s.(o := Removed(s.o, i));
    InvIsSound(s);
    SoundFacts(s);
    MovesIff(s, i, length);
    RelocateFits(s, i);
    RepackFits(s1);
    RelocateEmptySteps(s, i, length, 0);
    FrontIff(s, i, length);
    HelperParts(s, i, length, 0);
    MovedItself(s1);
    if FrontIsFree(s, i, length) {
      Refilled(s, i, s1, s.o[i].(offset := 0), length);
    } else {
      var s2, e := Model.Repack(s1).0, s.o[i].(offset := s.used);
      Refilled(s, i, s2, e, length);
      EmptyGoesLast(s2.o, e);
      BehindOthers(s, i, s2, |s2.o|, e);
      Lengthened(s2.o, |s2.o|, e, length);
      Behind(s, ResizeHelper(s, i, length, 0).s, i, length, |s2.o|);
    }
  }

  /** An empty file that is put back last, and has its length then. */
  lemma Refilled(s: State, i: nat, s2: State, e: Entry, length: nat)
    requires Sound(s) && i < |s.o| && MovedInside(s.(o := Removed(s.o, i)), s2) && |s2.o| == |s.o| - 1
    requires e == s.o[i].(offset := e.offset) && e.length == 0 < length && e.offset <= |s.data|
    ensures var t := SetLength(Reinsert(s2, e), e, length);
            && t.o == Inserted(s2.o, |s2.o|, e.(length := length)) == s2.o + [e.(length := length)] && t.data == s2.data
  {
    hide Sound, GetIndex, PosOfSlot, Dir.SetLength, Dir.SetOffset, MovedInside;
    EmptyGoesLast(s2.o, e);
    AppendEmpty(s2.o, e);
    ReinsertKeepsSound(s, i, s2, |s2.o|, e);
    Regrows(s2, |s2.o|, e, length);
  }

  lemma Behind(s: State, s': State, i: nat, length: nat, p: nat)
    requires i < |s.o| && s.used >= s.o[i].length
    requires var e := s.o[i].(offset := s.used - s.o[i].length, length := length);
             PutBehind(Model.Repack(s.(o := Removed(s.o, i))).0.o, s'.o, p, e)
    ensures SentBehind(s, s', i, length)
  {
  }

  lemma MovedItself(s: State)
    requires AllPlaced(s.o, |s.data|)
    ensures MovedInside(s, s)
  {
  }

  /** The first other non-empty file decides whether the front is free. */
  lemma FrontIff(s: State, i: nat, length: nat)
    requires Inv(s) && i < |s.o|
    ensures var o := Removed(s.o, i);
            var c := NextNonzero(o, 0);
            FrontIsFree(s, i, length) <==> !(c < |o| && o[c].offset < length)
  {
    hide Listed, Linked, Indexed;
    var o := Removed(s.o, i);
    RemoveKeepsLayout(s.o, |s.data|, i);
    var c := NextNonzero(o, 0);
    NextNonzeroIs(o, |s.data|, 0);
    if c < |o| {
      assert o[c] == s.o[if c < i then c else c + 1];
    }
    forall k: nat | k < |s.o| && k != i && s.o[k].length > 0
      ensures c < |o| && o[c].offset <= s.o[k].offset
    {
      var j := if k < i then k else k - 1;
      assert o[j] == s.o[k];
      if c < j {
        assert Before(o[c], o[j]);
      }
    }
  }

  // The operations

  /** From any state with the invariant: a file below 2^32 that grows stays where it is when it has room there, up to
      the last byte, and nothing else is written; an empty one at 2^32 goes to 0 when no other file begins before
      the length; otherwise the file goes behind all others. */
  lemma GrowthPlace(s: State, op: Op, i: nat, length: nat, kept: nat)
    requires Inv(s) && LetsGrow(s, op, i, length, kept)
    ensures var (s', out) := Step(s, op);
            && out == Outcome(0, []) && s'.n == s.n && s.used >= s.o[i].length
            && if Stays(s, i, length) then GrewInPlace(s, s', i, length, kept)
               else if s.o[i].offset >= 0x1_0000_0000 && FrontIsFree(s, i, length) then SentToFront(s, s', i, length)
               else SentBehind(s, s', i, length)
  {
    hide Inv, Sound, Lookup, ResizeHelper, Stays, FrontIsFree, SentBehind, Overwrite, HashTree.Rehash;
    InvIsSound(s);
    SoundFacts(s);
    LengthCounts(s.o, i);
    EmptyAtTop(s, i);
    HelperKeepsNames(s, i, length, kept);
    ResizedParts(s, i, length, kept);
    var r := ResizeHelper(s, i, length, kept);
    var bytes := if op.Resize? then Zeros(length - kept) else op.buf;
    Written(s, op, i, length, kept);
    OverwriteBeside(r.s.data, r.e.offset + kept, bytes);
    if Stays(s, i, length) {
      HelperStays(s, i, length, kept);
    } else if s.o[i].offset < MAX_FILE_DATA_LEN {
      HelperMoves(s, i, length, kept);
      SameArray(s, r.s, Step(s, op).0, i, length);
    } else {
      HelperFillsEmpty(s, i, length);
      if !FrontIsFree(s, i, length) {
        SameArray(s, r.s, Step(s, op).0, i, length);
      }
    }
  }

  /** After the resize only bytes of the file itself are written. */
  lemma Written(s: State, op: Op, i: nat, length: nat, kept: nat)
    requires Sound(s) && LetsGrow(s, op, i, length, kept)
    ensures var (r, s') := (ResizeHelper(s, i, length, kept), Step(s, op).0);
            && s'.o == r.s.o && s'.n == r.s.n && Step(s, op).1 == Outcome(0, [])
            && s'.data == Overwrite(r.s.data, r.e.offset + kept, if op.Resize? then Zeros(length - kept) else op.buf)
  {
    hide Sound, Lookup, ResizeHelper, Overwrite, HashTree.Rehash;
    ResizedParts(s, i, length, kept);
  }

  lemma SameArray(s: State, t: State, s': State, i: nat, length: nat)
    requires i < |s.o| && s.used >= s.o[i].length && s'.o == t.o && SentBehind(s, t, i, length)
    ensures SentBehind(s, s', i, length)
  {
  }

  // The bytes of file_data that an operation writes

  lemma SameOutsideBoth(x: seq<byte>, y: seq<byte>, z: seq<byte>, from: int, mid: int, at: int, hi: int)
    requires SameOutside(x, y, from, mid) && SameOutside(y, z, at, hi) && from <= at && mid <= hi
    ensures SameOutside(x, z, from, hi)
  {
  }

  /** repack_helper without file i writes between its answer and the sum of the other lengths. */
  lemma RepackWrites(s: State, i: nat)
    requires Inv(s) && i < |s.o|
    ensures var (s2, h) := Model.Repack(s.(o := Removed(s.o, i)));
            var to := s.used - s.o[i].length;
            -1 <= h <= to && SameOutside(s.data, s2.data, if h < 0 then to else h, to)
  {
    hide Listed, Linked, Indexed, Model.Repack, Content, Compacted, SumTo, MovedFrom;
    RemoveKeepsLayout(s.o, |s.data|, i);
    RepackIsExact(s.(o := Removed(s.o, i)));
  }

  lemma HelperWrites(s: State, i: nat, length: nat, kept: nat)
    requires Inv(s) && i < |s.o| && kept <= s.o[i].length < length && s.used + length - s.o[i].length <= |s.data|
    ensures var (g, r) := (GrownRange(s, i, length, kept), ResizeHelper(s, i, length, kept));
            && g.from <= r.e.offset + kept && g.hi == r.e.offset + length
            && SameOutside(s.data, r.s.data, g.from, r.e.offset + kept)
  {
    hide Inv, Sound, Model.Repack, NextNonzero, NeedsMove, SetLength, Relocate, Overwrite, Window, InsertEntry, Dir.SetOffset;
    var s1 := s.(o := Removed(s.o, i));
    InvIsSound(s);
    SoundFacts(s);
    EmptyAtTop(s, i);
    LengthCounts(s.o, i);
    HelperParts(s, i, length, kept);
    RepackFits(s1) by {
      RelocateFits(s, i);
    }
    RepackWrites(s, i);
    LengthKeepsData(Moved(s, i, length, kept).s, Moved(s, i, length, kept).e, length);
    if NeedsMove(s, i, length) {
      if s.o[i].offset < MAX_FILE_DATA_LEN {
        RelocateSteps(s, i, length, kept);
        OverwriteBeside(Model.Repack(s1).0.data, s.used - s.o[i].length, Window(s.data, s.o[i].offset, kept));
      } else {
        RelocateEmptySteps(s, i, length, kept);
      }
    }
  }

  lemma LengthKeepsData(s: State, e: Entry, length: nat)
    ensures SetLength(s, e, length).data == s.data
  {
  }

  lemma CreateWrites(s: State, op: Op)
    requires Inv(s) && op.Create?
    ensures var r := TouchedRange(s, op); SameOutside(s.data, Step(s, op).0.data, r.from, r.hi)
  {
    hide Inv, Sound, Lookup, Model.Repack, FreeOffset, FreeSlot, HashTree.Rehash, Overwrite, AddFile;
    InvIsSound(s);
    SoundFacts(s);
    if Creates(s, op.name, op.length) && op.length > 0 {
      var p := NewOffset(s, op.length);
      AddFileParts(p.s, Entry(Truncate(op.name), p.offset, op.length, FreeSlot(s.slots)));
      AllRepackWrites(s);
      OverwriteBeside(p.s.data, p.offset, Zeros(op.length));
      NoWraparound(s);
    } else if Creates(s, op.name, op.length) {
      FreePlaceOfEmpty(s);
      AddFileParts(s, Entry(Truncate(op.name), MAX_FILE_DATA_LEN, 0, FreeSlot(s.slots)));
    }
  }

  lemma NoWraparound(s: State)
    requires Inv(s)
    ensures s.used >= 0
  {
  }

  lemma FreePlaceOfEmpty(s: State)
    ensures FreeOffset(s.o, |s.data|, 0) == MAX_FILE_DATA_LEN
  {
  }

  lemma AllRepackWrites(s: State)
    requires Inv(s)
    ensures var (s', h) := Model.Repack(s);
            && -1 <= h <= s.used && s'.used == s.used
            && SameOutside(s.data, s'.data, if h < 0 then s.used else h, s.used)
            && (h < 0 ==> s'.data == s.data)
  {
    hide Listed, Linked, Indexed, Model.Repack, Content, Compacted, SumTo, MovedFrom;
    RepackIsExact(s);
    if Model.Repack(s).1 < 0 {
      assert Model.Repack(s).0.data == s.data;
    }
  }

  lemma GrowthWrites(s: State, op: Op, i: nat, length: nat, kept: nat)
    requires Inv(s) && LetsGrow(s, op, i, length, kept)
    ensures var r := TouchedRange(s, op); SameOutside(s.data, Step(s, op).0.data, r.from, r.hi)
  {
    hide Inv, Sound, Lookup, ResizeHelper, Overwrite, HashTree.Rehash, GrownRange;
    InvIsSound(s);
    var r := ResizeHelper(s, i, length, kept);
    var bytes := if op.Resize? then Zeros(length - kept) else op.buf;
    Written(s, op, i, length, kept);
    HelperWrites(s, i, length, kept);
    OverwriteBeside(r.s.data, r.e.offset + kept, bytes);
    SameOutsideBoth(s.data, r.s.data, Step(s, op).0.data, GrownRange(s, i, length, kept).from, r.e.offset + kept,
                    r.e.offset + kept, r.e.offset + length);
  }

  lemma ShrinkWrites(s: State, op: Op)
    requires Inv(s) && (op.Resize? || op.Write?)
    requires var i := Lookup(s, op.name);
             i >= 0 ==> if op.Resize? then op.length <= s.o[i].length || s.used + op.length - s.o[i].length > |s.data|
                        else op.offset > s.o[i].length || op.offset + |op.buf| <= s.o[i].length
                             || s.used + op.offset + |op.buf| - s.o[i].length > |s.data|
    ensures var r := TouchedRange(s, op); SameOutside(s.data, Step(s, op).0.data, r.from, r.hi)
  {
    hide Inv, Lookup, Overwrite, HashTree.Rehash, NeedsMove, Relocate, GrownRange, SetLength;
    var i := Lookup(s, op.name);
    if i >= 0 {
      if op.Resize? && op.length < s.o[i].length {
        LengthKeepsData(s, s.o[i], op.length);
        assert !NeedsMove(s, i, op.length) by {
          ShrinksWhereItLies(s, i, op.length);
        }
      } else if op.Write? {
        OverwriteBeside(s.data, s.o[i].offset + op.offset, op.buf);
      }
    }
  }

  lemma ShrinksWhereItLies(s: State, i: nat, length: nat)
    requires i < |s.o| && length <= s.o[i].length
    ensures !NeedsMove(s, i, length)
  {
  }

  /** From any state with the invariant an operation, safe or not, writes no byte of file_data but those of its
      range; refused, shrinking, deleting and renaming operations write none. */
  lemma StepWritesOnly(s: State, op: Op)
    requires Inv(s)
    ensures var r := TouchedRange(s, op); SameOutside(s.data, Step(s, op).0.data, r.from, r.hi)
  {
    hide Inv, Lookup, Model.Create, Model.Resize, Model.Write, Model.Repack, HashTree.Rehash, GrownRange, CreatedRange;
    match op
    case Create(_, _) => CreateWrites(s, op);
    case Resize(name, length) =>
      var i := Lookup(s, name);
      if Grows(s, name, length) {
        GrowthWrites(s, op, i, length, s.o[i].length);
      } else {
        ShrinkWrites(s, op);
      }
    case Write(name, offset, buf) =>
      var i, length := Lookup(s, name), offset + |buf|;
      if i >= 0 && offset <= s.o[i].length < length && s.used + length - s.o[i].length <= |s.data| {
        GrowthWrites(s, op, i, length, offset);
      } else {
        ShrinkWrites(s, op);
      }
    case Repack => AllRepackWrites(s);
    case _ =>
  }
}
