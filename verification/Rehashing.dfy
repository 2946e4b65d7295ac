// Which nodes of the hash tree an operation recomputes, which it leaves alone, and which a read looks at. The
// tree may be damaged before, and the arrays may be in any order.
module Rehashing {
  import opened Structs
  import opened Bytes
  import opened Search
  import opened Model
  import opened Layouts
  import opened Invariants
  import opened Stores
  import opened Refinement
  import opened TreeRuns
  import opened Soundness
  import opened SoundSteps
  import opened HeapFacts
  import HashTree
  import FletcherSum
  import Dir = Directory

  /** Block b holds some of the bytes [lo, hi). */
  predicate Holds(b: nat, lo: nat, hi: int) {
    lo < hi && lo / 256 <= b <= (hi - 1) / 256
  }

  /** Node m is the leaf of a block with some of the bytes [lo, hi), or an ancestor of one. */
  ghost predicate AboveBytes(leaf: nat, m: nat, lo: nat, hi: int) {
    exists b: nat :: Holds(b, lo, hi) && HashTree.AboveBlock(leaf, m, b)
  }

  /** The nodes above the bytes [lo, hi) match, and every other node holds the 16 bytes that it held before. */
  ghost predicate OnlyRehashed(s: State, s': State, lo: nat, hi: int) {
    && |s'.hash| == |s.hash| == 16 * (2 * s.Leaf() + 1) && (lo < hi ==> hi <= |s.data| == 256 * (s.Leaf() + 1))
    && forall m: nat :: m < 2 * s.Leaf() + 1 ==>
         if AboveBytes(s.Leaf(), m, lo, hi) then HashTree.Consistent(s'.data, s'.hash, s.Leaf(), m)
         else s'.hash[16 * m..16 * m + 16] == s.hash[16 * m..16 * m + 16]
  }

  lemma RehashesOnly(s: State, s': State, lo: nat, hi: int)
    requires HashTree.Sized(s.data, s.hash, s.Leaf()) && |s'.data| == |s.data| && (lo < hi ==> hi <= |s.data|)
    requires s'.hash == HashTree.Rehash(s'.data, s.hash, s.Leaf(), lo, hi - lo)
    ensures OnlyRehashed(s, s', lo, hi)
  {
    hide HashTree.RangeUpdate, HashTree.Consistent, HashTree.AboveBlock, HashTree.NodeHash;
    var leaf, first, last := s.Leaf(), lo / 256, (hi - 1) / 256;
    forall m: nat | m < 2 * leaf + 1
      ensures if AboveBytes(leaf, m, lo, hi) then HashTree.Consistent(s'.data, s'.hash, leaf, m)
              else s'.hash[16 * m..16 * m + 16] == s.hash[16 * m..16 * m + 16]
    {
      HashTree.NodeBytes(s.data, s.hash, leaf, m);
      HashTree.NodeBytes(s'.data, s'.hash, leaf, m);
      if lo < hi {
        assert AboveBytes(leaf, m, lo, hi) <==> HashTree.Covered(leaf, first, last, m);
        HashTree.RangeUpdateAt(s'.data, s.hash, leaf, first, last, m);
      }
    }
  }

  // The bytes that each operation writes and makes sure are hashed

  /** Written are bytes of [from, hi), hashed those of [lo, hi). */
  datatype Range = Range(from: nat, lo: nat, hi: int)

  const NOTHING: Range := Range(0, 0, 0)

  /** A new file: its null bytes, or everything from the first byte that a repack moved. */
  function CreatedRange(s: State, length: nat): Range {
    var free := FreeOffset(s.o, |s.data|, length);
    if length == 0 then NOTHING
    else if free >= 0 then Range(free, free, free + length)
    else
      var h := Model.Repack(s).1;
      var lo := if h >= 0 then h else if s.used >= 0 then s.used else 0;
      Range(lo, lo, s.used + length)
  }

  /** A file that grows, of which the first bytes are kept: the bytes after those, or everything from the first
      byte that a repack moved. The kept bytes are written, too, when the file moves, but not hashed when no other does. */
  function GrownRange(s: State, i: nat, length: nat, kept: nat): Range
    requires i < |s.o|
  {
    var s1 := s.(o := Removed(s.o, i));
    var c := NextNonzero(s1.o, 0);
    var packs := NeedsMove(s, i, length) && (s.o[i].offset < 0x1_0000_0000 || (c < |s1.o| && s1.o[c].offset < length));
    var h := if packs then Model.Repack(s1).1 else -1;
    var place := if !NeedsMove(s, i, length) then s.o[i].offset
                 else if packs && s.used >= s.o[i].length then s.used - s.o[i].length else 0;
    Range(if h >= 0 then h else if NeedsMove(s, i, length) then place else place + kept,
          if h >= 0 then h else place + kept, place + length)
  }

  /** What an operation writes and makes sure is hashed; nothing when it is refused, deletes, renames, shrinks or only looks. */
  function TouchedRange(s: State, op: Op): Range {
    match op
    case Create(name, length) =>
      if Lookup(s, name) < 0 && s.used + length <= |s.data| && s.count < |s.slots| then CreatedRange(s, length) else NOTHING
    case Resize(name, length) =>
      var i := Lookup(s, name);
      if i >= 0 && s.o[i].length < length && s.used + length - s.o[i].length <= |s.data| then
        GrownRange(s, i, length, s.o[i].length)
      else NOTHING
    case Write(name, offset, buf) =>
      var i, length := Lookup(s, name), offset + |buf|;
      if i < 0 || offset > s.o[i].length || s.used + length - s.o[i].length > |s.data| || |buf| == 0 then NOTHING
      else if length > s.o[i].length then GrownRange(s, i, length, offset)
      else Range(s.o[i].offset + offset, s.o[i].offset + offset, s.o[i].offset + length)
    case Repack =>
      var h := Model.Repack(s).1;
      if h >= 0 then Range(h, h, s.used) else NOTHING
    case _ => NOTHING
  }

  lemma HashKept(s: State, s': State)
    requires HashTree.Sized(s.data, s.hash, s.Leaf()) && |s'.data| == |s.data| && s'.hash == s.hash
    ensures OnlyRehashed(s, s', 0, 0)
  {
    RehashesOnly(s, s', 0, 0);
  }

  lemma RangeIs(s: State, s': State, r: Range)
    requires HashTree.Sized(s.data, s.hash, s.Leaf()) && |s'.data| == |s.data| && (r.lo < r.hi ==> r.hi <= |s.data|)
    requires s'.hash == HashTree.Rehash(s'.data, s.hash, s.Leaf(), r.lo, r.hi - r.lo)
    ensures OnlyRehashed(s, s', r.lo, r.hi)
  {
    RehashesOnly(s, s', r.lo, r.hi);
  }

  lemma CreateRehashes(s: State, op: Op)
    requires op.Create? && Sound(s) && InStore(s, op)
    ensures var r := TouchedRange(s, op); OnlyRehashed(s, Step(s, op).0, r.lo, r.hi)
  {
    hide Lookup, Sound, Model.Repack, FreeOffset, FreeSlot, HashTree.Rehash, Overwrite, OnlyRehashed, AddFile;
    var s', r := Step(s, op).0, TouchedRange(s, op);
    SoundFacts(s);
    if Creates(s, op.name, op.length) {
      CreateFits(s, op.name, op.length);
      var p := NewOffset(s, op.length);
      AddFileParts(p.s, Entry(Truncate(op.name), p.offset, op.length, FreeSlot(s.slots)));
      if op.length > 0 {
        RangeIs(s, s', r);
      } else {
        HashKept(s, s');
      }
    } else {
      HashKept(s, s');
    }
  }

  /** The place and the answer of a growth are those of its range. */
  lemma GrowthRange(s: State, i: nat, length: nat, kept: nat)
    requires Sound(s) && i < |s.o| && s.o[i].length < length && s.used + length - s.o[i].length <= |s.data|
    requires kept <= s.o[i].length && GrowthInStore(s, i, length)
    ensures var (g, r) := (GrownRange(s, i, length, kept), ResizeHelper(s, i, length, kept));
            && g.lo == (if r.h >= 0 then r.h else r.e.offset + kept) && g.hi == End(r.e) <= |s.data|
            && |r.s.data| == |s.data| && r.s.hash == s.hash && r.s.used == s.used + length - s.o[i].length
            && r.e.length == length && (r.h >= 0 ==> End(r.e) == r.s.used)
  {
    hide Sound, Model.Repack, NextNonzero, NeedsMove, Reinsert, SetLength, Relocate, Overwrite, Window, MovedInside;
    SoundFacts(s);
    EmptyAtTop(s, i);
    ResizedParts(s, i, length, kept);
    GrownEnd(s, i, length, kept);
    HelperParts(s, i, length, kept);
    RelocateFits(s, i);
    RepackFits(s.(o := Removed(s.o, i)));
    if NeedsMove(s, i, length) {
      if s.o[i].offset < MAX_FILE_DATA_LEN {
        RelocateSteps(s, i, length, kept);
      } else {
        RelocateEmptySteps(s, i, length, kept);
      }
    }
  }

  lemma ResizeRehashes(s: State, op: Op)
    requires op.Resize? && Sound(s) && InStore(s, op)
    ensures var r := TouchedRange(s, op); OnlyRehashed(s, Step(s, op).0, r.lo, r.hi)
  {
    hide Lookup, Sound, ResizeHelper, GrownRange, HashTree.Rehash, Overwrite, OnlyRehashed, GrowthInStore;
    var i, length, s' := Lookup(s, op.name), op.length, Step(s, op).0;
    SoundFacts(s);
    if i >= 0 {
      ResizedParts(s, i, length, s.o[i].length);
    }
    if Grows(s, op.name, length) {
      GrowthRange(s, i, length, s.o[i].length);
      RangeIs(s, s', TouchedRange(s, op));
    } else {
      HashKept(s, s');
    }
  }

  lemma WriteRehashes(s: State, op: Op)
    requires op.Write? && Sound(s) && InStore(s, op)
    ensures var r := TouchedRange(s, op); OnlyRehashed(s, Step(s, op).0, r.lo, r.hi)
  {
    hide Lookup, Sound, ResizeHelper, GrownRange, HashTree.Rehash, Overwrite, OnlyRehashed, GrowthInStore;
    var i, offset, length, s' := Lookup(s, op.name), op.offset, op.offset + |op.buf|, Step(s, op).0;
    SoundFacts(s);
    if i < 0 || offset > s.o[i].length || s.used + length - s.o[i].length > |s.data| || |op.buf| == 0 {
      HashKept(s, s');
    } else {
      if length > s.o[i].length {
        GrowthRange(s, i, length, offset);
      } else {
        EndInStore(s, i);
      }
      RangeIs(s, s', TouchedRange(s, op));
    }
  }

  /** From any sound state, whether its tree is valid or not, an operation that stays in the store recomputes the
      nodes above its bytes and no others. */
  lemma StepRehashesOnly(s: State, op: Op)
    requires Sound(s) && InStore(s, op)
    ensures var r := TouchedRange(s, op); OnlyRehashed(s, Step(s, op).0, r.lo, r.hi)
  {
    hide Sound, InStore, OnlyRehashed, Model.Create, Model.Resize, Model.Write, Model.Repack, Lookup, HashTree.Rehash;
    SoundFacts(s);
    match op
    case Create(_, _) => CreateRehashes(s, op);
    case Resize(_, _) => ResizeRehashes(s, op);
    case Write(_, _, _) => WriteRehashes(s, op);
    case Repack =>
      RepackFits(s);
      if Model.Repack(s).1 >= 0 {
        RangeIs(s, Step(s, op).0, TouchedRange(s, op));
      } else {
        HashKept(s, Step(s, op).0);
      }
    case _ => HashKept(s, Step(s, op).0);
  }

  /** So damage stays visible: a block that does not match, keeps its bytes and holds none of the hashed ones
      does not match afterwards. */
  lemma DamageStays(s: State, op: Op, b: nat)
    requires Sound(s) && InStore(s, op) && b <= s.Leaf()
    requires !HashTree.Consistent(s.data, s.hash, s.Leaf(), s.Leaf() + b)
    requires var r := TouchedRange(s, op); !Holds(b, r.lo, r.hi)
    requires HashTree.Block(Step(s, op).0.data, b) == HashTree.Block(s.data, b)
    ensures !HashTree.Consistent(Step(s, op).0.data, Step(s, op).0.hash, s.Leaf(), s.Leaf() + b)
  {
    hide Sound, InStore, Step, TouchedRange, FletcherSum.Digest, HashTree.Block;
    var s', r, leaf := Step(s, op).0, TouchedRange(s, op), s.Leaf();
    StepRehashesOnly(s, op);
    SoundFacts(s);
    var m := leaf + b;
    assert 16 * m + 16 <= |s.hash|;
    assert HashTree.Node(s.hash, m) == s.hash[16 * m..16 * m + 16];
    assert HashTree.Node(s'.hash, m) == s'.hash[16 * m..16 * m + 16];
    if AboveBytes(leaf, m, r.lo, r.hi) {
      var c: nat :| Holds(c, r.lo, r.hi) && HashTree.AboveBlock(leaf, m, c);
      HashTree.LeavesUnrelated(leaf, b, c);
    }
  }

  // What a read looks at

  /** read_file reports 3 exactly when it copies something and some node above a block that it copies from does
      not match. */
  lemma ReadFailsIff(s: State, op: Op)
    requires Sound(s) && op.Read?
    ensures var (i, n) := (Lookup(s, op.name), op.offset + op.count);
            (Step(s, op).1.code == 3
             <==> i >= 0 && n <= s.o[i].length && op.count > 0
                  && exists b: nat, m: nat ::
                       (s.o[i].offset + op.offset) / 256 <= b <= (s.o[i].offset + n - 1) / 256
                       && HashTree.AboveBlock(s.Leaf(), m, b) && !HashTree.Consistent(s.data, s.hash, s.Leaf(), m))
  {
    hide Sound, Lookup, HashTree.AboveBlock, HashTree.Consistent;
  }

  /** Otherwise the result is 1 without such a file, 2 beyond its end, and else 0 with the bytes. */
  lemma ReadDelivers(s: State, op: Op)
    requires Sound(s) && op.Read? && Step(s, op).1.code != 3
    ensures var (i, n) := (Lookup(s, op.name), op.offset + op.count);
            Step(s, op).1 == if i < 0 then Outcome(1, []) else if n > s.o[i].length then Outcome(2, [])
                             else if op.count == 0 then Outcome(0, [])
                             else Outcome(0, s.data[s.o[i].offset + op.offset..s.o[i].offset + n])
  {
    hide Sound, Lookup, HashTree.Verified;
    SoundFacts(s);
    if Lookup(s, op.name) >= 0 {
      EndInStore(s, Lookup(s, op.name));
    }
  }

  /** After one word of a store with a valid tree has changed, reading from its block reports 3 exactly when the
      change is not between 0 and 2^32 - 1. */
  lemma ReadDetectsWordChange(s: State, s': State, op: Op, w: nat)
    requires Sound(s) && TreeOk(s) && op.Read? && s' == s.(data := s'.data) && 4 * w < |s.data|
    requires SameOutside(s.data, s'.data, 4 * w, 4 * w + 4)
    requires FromLe32(Window(s.data, 4 * w, 4)) != FromLe32(Window(s'.data, 4 * w, 4))
    requires var i := Lookup(s, op.name);
             && i >= 0 && op.offset + op.count <= s.o[i].length && op.count > 0
             && Holds(w / 64, s.o[i].offset + op.offset, s.o[i].offset + op.offset + op.count)
    ensures var (v, v') := (FromLe32(Window(s.data, 4 * w, 4)), FromLe32(Window(s'.data, 4 * w, 4)));
            Step(s', op).1.code == 3 <==> !((v == 0 && v' == 0xFFFF_FFFF) || (v == 0xFFFF_FFFF && v' == 0))
  {
    hide Sound, Lookup, FromLe32, FletcherSum.Words, HashTree.Verified, HashTree.ValidTree, HashTree.Block;
    SoundFacts(s);
    var i, b, k := Lookup(s, op.name), w / 64, w % 64;
    EndInStore(s, i);
    WordOfBlock(s.data, w);
    WordOfBlock(s'.data, w);
    HashTree.WordChangeDetected(s.data, s'.data, s.hash, s.Leaf(), b, k, s.o[i].offset + op.offset, op.count);
    assert Lookup(s', op.name) == i by {
      SameArraysSameLookup(s, s', op.name);
    }
  }

  lemma SameArraysSameLookup(s: State, s': State, name: seq<byte>)
    requires s'.o == s.o && s'.n == s.n
    ensures Lookup(s', name) == Lookup(s, name)
  {
  }

  lemma WordOfBlock(data: seq<byte>, w: nat)
    ensures |FletcherSum.Words(HashTree.Block(data, w / 64))| == 64
    ensures FletcherSum.Words(HashTree.Block(data, w / 64))[w % 64] == FromLe32(Window(data, 4 * w, 4))
  {
    assert Window(HashTree.Block(data, w / 64), 4 * (w % 64), 4) == Window(data, 4 * w, 4);
  }
}
