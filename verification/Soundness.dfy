// What the code needs in order to stay inside its buffers, whatever order its two arrays are in.
module Soundness {
  import opened Structs
  import opened Search
  import opened Model
  import opened Layouts
  import opened Invariants
  import Dir = Directory

  /** Every file lies in the store, or empty at 2^32. */
  ghost predicate AllPlaced(o: seq<Entry>, cap: nat) {
    cap < MAX_FILE_DATA_LEN && forall i :: 0 <= i < |o| ==> Placed(o[i], cap)
  }

  /** The invariant without any order: files may overlap, names may be in any order. */
  ghost predicate Sound(s: State) {
    && WellSized(s)
    && AllPlaced(s.o, |s.data|) && DistinctSlots(s.o) && (forall i :: 0 <= i < |s.o| ==> s.o[i].slot < |s.slots|)
    && DistinctSlots(s.n) && Linked(s.o, s.n) && Marked(s.n, s.slots)
    && s.used == Sum(s.o) <= |s.data|
    && s.count == |s.o|
  }

  lemma InvIsSound(s: State)
    requires Inv(s)
    ensures Sound(s)
  {
    hide Linked, SumTo, NameSorted, Dir.Mirror, Dir.NameAt;
    SumToFits(s.o, |s.data|, |s.o|);
  }

  // Compaction

  /** Files moved, inside the store. */
  ghost predicate MovedInside(s: State, s': State) {
    && s' == s.(o := s'.o, data := s'.data, dir := s'.dir)
    && |s'.data| == |s.data| && |s'.dir| == |s.dir| && |s'.o| == |s.o|
    && (forall k :: 0 <= k < |s.o| ==> s'.o[k] == s.o[k].(offset := s'.o[k].offset))
    && AllPlaced(s'.o, |s.data|)
  }

  lemma PackOneInside(s0: State, s: State, i: nat, end: nat, h: int)
    requires MovedInside(s0, s) && i < |s.o| && (s.o[i].offset < MAX_FILE_DATA_LEN || end == 0)
    ensures MovedInside(s0, PackOne(s, i, end, h).0)
  {
    hide MoveData, Dir.SetOffset;
    assert Placed(s.o[i], |s.data|);
  }

  lemma {:induction false} RepackFromInside(s0: State, s: State, i: nat, h: int)
    requires MovedInside(s0, s) && 0 < i <= |s.o|
    ensures MovedInside(s0, RepackFrom(s, i, h).0)
    decreases |s.o| - i
  {
    hide MovedInside, Move;
    MovedSizes(s0, s);
    if i < |s.o| && s.o[i].offset < MAX_FILE_DATA_LEN {
      var end := End(s.o[i - 1]);
      var (s', h') := PackOne(s, i, end, h);
      PackOneInside(s0, s, i, end, h);
      MovedSizes(s0, s');
      RepackFromInside(s0, s', i + 1, h');
    }
  }

  lemma MovedSizes(s: State, s': State)
    requires MovedInside(s, s')
    ensures |s'.o| == |s.o| && |s'.data| == |s.data|
  {
  }

  /** repack_helper moves files inside the store, in whatever order it finds them. */
  lemma RepackInside(s: State)
    requires AllPlaced(s.o, |s.data|)
    ensures MovedInside(s, Repack(s).0)
  {
    hide RepackFrom, MoveData;
    if s.used > 0 && |s.o| > 0 {
      var (s', h') := PackOne(s, 0, 0, -1);
      PackOneInside(s, s, 0, 0, -1);
      RepackFromInside(s, s', 1, h');
    }
  }

  lemma {:induction false} MovedSum(o: seq<Entry>, o': seq<Entry>, i: nat)
    requires |o| == |o'| && i <= |o| && forall k :: 0 <= k < |o| ==> o'[k].length == o[k].length
    ensures SumTo(o', i) == SumTo(o, i)
  {
    if i > 0 {
      MovedSum(o, o', i - 1);
    }
  }

  lemma MovedKeepsSound(s: State, s': State)
    requires Sound(s) && MovedInside(s, s')
    ensures Sound(s')
  {
    hide Marked, Blanks, SumTo;
    MovedSum(s.o, s'.o, |s.o|);
    SameBlanks(s.o, s'.o);
    assert s'.Leaf() == s.Leaf();
  }

  lemma RepackKeepsSound(s: State)
    requires Sound(s)
    ensures Sound(Repack(s).0)
  {
    hide Marked, Linked, Repack, SumTo, MovedInside;
    RepackInside(s);
    MovedKeepsSound(s, Repack(s).0);
  }

  // What an operation places

  /** create_file gets past its checks. */
  ghost predicate Creates(s: State, filename: seq<byte>, length: nat) {
    Lookup(s, filename) < 0 && s.used + length <= |s.data| && s.count < |s.slots|
  }

  /** The place that new_file_offset finds ends in the store; the place behind a repack always does. */
  ghost predicate NewInStore(s: State, filename: seq<byte>, length: nat) {
    Creates(s, filename, length) && length > 0 ==> FreeOffset(s.o, |s.data|, length) + length <= |s.data|
  }

  /** Neither insertion of a new file finds its key taken. */
  ghost predicate NewKeysFree(s: State, filename: seq<byte>, length: nat) {
    Creates(s, filename, length) ==>
      var p := NewOffset(s, length);
      var e := Entry(Truncate(filename), p.offset, length, FreeSlot(s.slots));
      GetIndex(e, p.s.o, OFFSET, true) >= 0 && GetIndex(e, s.n, NAME, true) >= 0
  }

  /** File i can have the length: where it lies, unless it has to move. */
  ghost predicate GrowthInStore(s: State, i: nat, length: nat)
    requires i < |s.o|
  {
    NeedsMove(s, i, length) || s.o[i].offset + length <= |s.data|
  }

  /** The offset array takes file i back behind the others. */
  ghost predicate Reinserts(s: State, i: nat)
    requires i < |s.o|
  {
    var (e, to) := (s.o[i], s.used - s.o[i].length);
    to >= 0 ==> GetIndex(e.(offset := to), Repack(s.(o := Removed(s.o, i))).0.o, OFFSET, true) >= 0
  }

  ghost predicate GrowthKeyFree(s: State, i: nat, length: nat)
    requires i < |s.o|
  {
    NeedsMove(s, i, length) ==> Reinserts(s, i)
  }

  /** The file exists, and grows within the capacity. */
  ghost predicate Grows(s: State, filename: seq<byte>, length: nat) {
    var i := Lookup(s, filename);
    i >= 0 && s.o[i].length < length && s.used + length - s.o[i].length <= |s.data|
  }

  ghost predicate GrownInStore(s: State, filename: seq<byte>, length: nat) {
    Grows(s, filename, length) ==> GrowthInStore(s, Lookup(s, filename), length)
  }

  ghost predicate GrownKeyFree(s: State, filename: seq<byte>, length: nat) {
    Grows(s, filename, length) ==> GrowthKeyFree(s, Lookup(s, filename), length)
  }

  /** The write begins inside the file or at its end. */
  ghost predicate Begins(s: State, filename: seq<byte>, offset: nat) {
    var i := Lookup(s, filename);
    i >= 0 && offset <= s.o[i].length
  }
}
