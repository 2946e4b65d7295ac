// When the hash tree stays valid for file_data across operations.
module TreeRuns {
  import opened Structs
  import opened Bytes
  import opened Search
  import opened Model
  import opened Layouts
  import opened Placements
  import opened Invariants
  import opened Growth
  import opened Stores
  import opened Refinement
  import FletcherSum
  import HashTree
  import Dir = Directory

  ghost predicate TreeOk(s: State) {
    HashTree.ValidTree(s.data, s.hash, s.Leaf())
  }

  /** File i grows beyond its place while all other files lie packed at the start of the store:
      its first bytes are copied behind them, and repack_helper reports that nothing moved. */
  ghost predicate BareMove(s: State, i: nat, length: nat, copy: nat)
    requires i < |s.o|
  {
    copy > 0 && NeedsMove(s, i, length) && AlreadyPacked(Removed(s.o, i), |s.o| - 1)
  }

  /** Blocks before the one of the first byte that a bare move rehashes keep their checksums,
      although the first `copy` bytes of file i are copied into some of them. */
  ghost predicate CopyUnseen(s: State, i: nat, copy: nat)
    requires i < |s.o|
  {
    var to := s.used - s.o[i].length;
    var data := Overwrite(s.data, to, Window(s.data, s.o[i].offset, copy));
    forall b: nat :: BLOCK_LEN * (b + 1) <= to + copy
      ==> FletcherSum.Digest(HashTree.Block(data, b)) == FletcherSum.Digest(HashTree.Block(s.data, b))
  }

  ghost predicate MovesSafely(s: State, i: nat, length: nat, copy: nat)
    requires i < |s.o|
  {
    BareMove(s, i, length, copy) ==> CopyUnseen(s, i, copy)
  }

  /** The operation is no bare move, or one whose copy no checksum notices. */
  ghost predicate TreeSafe(s: State, op: Op) {
    match op
    case Resize(name, length) =>
      var i := Lookup(s, name);
      i >= 0 && Extends(s, i, length) ==> MovesSafely(s, i, length, s.o[i].length)
    case Write(name, offset, buf) =>
      var i, length := Lookup(s, name), offset + |buf|;
      i >= 0 && offset <= s.o[i].length && Extends(s, i, length) ==> MovesSafely(s, i, length, offset)
    case _ => true
  }

  lemma BareMoveIff(s: State, i: nat, length: nat, copy: nat)
    requires Inv(s) && i < |s.o| && 0 < copy <= s.o[i].length && NeedsMove(s, i, length)
    ensures ResizeHelper(s, i, length, copy).h < 0 <==> BareMove(s, i, length, copy)
  {
    hide Layout, Listed, Linked, Indexed, Content, SumTo, Model.Repack, Dir.SetOffset, Model.SetLength, InsertEntry, Window,
      Overwrite, NeedsMove, Stable;
    var s1 := s.(o := Removed(s.o, i));
    RemoveKeepsLayout(s.o, |s.data|, i);
    RepackIsExact(s1);
    var (s2, h) := Model.Repack(s1);
    SumToGrows(s.o, i + 1, |s.o|);
    SumToNext(s.o, i);
    NonEmptyInStore(s.o, |s.data|, i);
    assert s1.used > 0;
    forall k | 0 <= k < |s1.o| && s1.o[k].length > 0
      ensures s2.o[k].offset == SumTo(s1.o, k)
    {
      NonEmptyInStore(s1.o, |s.data|, k);
    }
  }

  lemma SameOutsideChain(s: seq<byte>, t: seq<byte>, u: seq<byte>, lo: int, mid: int, hi: int)
    requires SameOutside(s, t, lo, mid) && SameOutside(t, u, mid, hi) && lo <= mid <= hi
    ensures SameOutside(s, u, lo, hi)
  {
  }

  lemma OverwriteOutside(s: seq<byte>, at: int, t: seq<byte>)
    ensures SameOutside(s, Overwrite(s, at, t), at, at + |t|)
  {
  }

  lemma RehashKeepsTree(s: State, s': State, offset: nat, length: nat)
    requires Inv(s) && TreeOk(s)
    requires offset + length <= |s.data| && SameOutside(s.data, s'.data, offset, offset + length)
    requires s'.hash == HashTree.Rehash(s'.data, s.hash, s.Leaf(), offset, length)
    ensures TreeOk(s')
  {
    hide HashTree.ValidTree, HashTree.Rehash, Layout, Listed, Linked, Indexed;
    HashTree.RehashRestores(s.data, s'.data, s.hash, s.Leaf(), offset, length);
    assert s'.Leaf() == s.Leaf();
  }

  // Growth

  /** The state after resize_file_helper, bytes written from `copy` to the end of the file, and the rehash by its callers. */
  ghost predicate Regrown(s: State, s': State, i: nat, length: nat, copy: nat, buf: seq<byte>)
    requires i < |s.o|
  {
    var r := ResizeHelper(s, i, length, copy);
    && Grown(s, i, length, copy, r) && copy + |buf| == length && |buf| > 0
    && s'.data == Overwrite(r.s.data, r.e.offset + copy, buf)
    && s'.hash == HashTree.Rehash(s'.data, s.hash, s.Leaf(), if r.h >= 0 then r.h else r.e.offset + copy,
                                  if r.h >= 0 then End(r.e) - r.h else |buf|)
  }

  lemma GrowKeepsTree(s: State, s': State, i: nat, length: nat, copy: nat, buf: seq<byte>)
    requires Inv(s) && TreeOk(s) && i < |s.o| && copy <= s.o[i].length < length && Regrown(s, s', i, length, copy, buf)
    requires !BareMove(s, i, length, copy)
    ensures TreeOk(s')
  {
    hide ResizeHelper, HashTree.Rehash, TreeOk, Inv, Extent, BareMove, Stable, Overwrite, Window, NeedsMove;
    var r := ResizeHelper(s, i, length, copy);
    var at := r.e.offset + copy;
    OverwriteOutside(r.s.data, at, buf);
    if r.h >= 0 {
      SameOutsideChain(s.data, r.s.data, s'.data, r.h, at, End(r.e));
      RehashKeepsTree(s, s', r.h, End(r.e) - r.h);
    } else {
      if copy > 0 && NeedsMove(s, i, length) {
        BareMoveIff(s, i, length, copy);
      }
      assert r.s.data == s.data by {
        SameOutsideNothing(s.data, r.s.data, r.e.offset);
      }
      RehashKeepsTree(s, s', at, |buf|);
    }
  }

  lemma SameOutsideNothing(s: seq<byte>, t: seq<byte>, at: int)
    ensures SameOutside(s, t, at, at) ==> s == t
  {
  }

  /** A bare move leaves the tree valid exactly when the checksums do not notice the copied bytes. */
  lemma BareMoveTreeIff(s: State, s': State, i: nat, length: nat, copy: nat, buf: seq<byte>)
    requires Inv(s) && TreeOk(s) && i < |s.o| && copy <= s.o[i].length < length && Regrown(s, s', i, length, copy, buf)
    requires BareMove(s, i, length, copy)
    ensures TreeOk(s') <==> CopyUnseen(s, i, copy)
  {
    hide ResizeHelper, HashTree.ValidTree, HashTree.RangeUpdate, Inv, Extent, Stable, Overwrite, Window, NeedsMove,
      FletcherSum.Digest, HashTree.Block, AlreadyPacked;
    var r := ResizeHelper(s, i, length, copy);
    BareMoveIff(s, i, length, copy);
    BareMoveData(s, i, length, copy);
    var at, count := r.e.offset + copy, |buf|;
    var data := Overwrite(s.data, r.e.offset, Window(s.data, s.o[i].offset, copy));
    var (first, last) := (at / BLOCK_LEN, (at + count - 1) / BLOCK_LEN);
    SizesOf(s);
    OverwriteOutside(data, at, buf);
    HashTree.RangeUpdateRestoresIff(s.data, s'.data, s.hash, s.Leaf(), first, last);
    assert s'.Leaf() == s.Leaf();
    forall b: nat | b <= s.Leaf() && !(first <= b <= last) ensures HashTree.Block(s'.data, b) == HashTree.Block(data, b) {
      BlockOutside(data, s'.data, at, at + count, b);
    }
    forall b: nat | last < b ensures HashTree.Block(data, b) == HashTree.Block(s.data, b) {
      OverwriteOutside(s.data, r.e.offset, Window(s.data, s.o[i].offset, copy));
      BlockOutside(s.data, data, r.e.offset, at, b);
    }
  }

  lemma SizesOf(s: State)
    requires Inv(s)
    ensures HashTree.Sized(s.data, s.hash, s.Leaf())
  {
  }

  lemma BlockOutside(s: seq<byte>, t: seq<byte>, lo: int, hi: int, b: nat)
    requires SameOutside(s, t, lo, hi) && (BLOCK_LEN * (b + 1) <= lo || hi <= BLOCK_LEN * b)
    ensures HashTree.Block(t, b) == HashTree.Block(s, b)
  {
    WindowSame(s, t, lo, hi, BLOCK_LEN * b, BLOCK_LEN);
  }

  /** A relocation that moves no other file changes file_data by the copied bytes alone. */
  lemma BareMoveData(s: State, i: nat, length: nat, copy: nat)
    requires Inv(s) && i < |s.o| && copy <= s.o[i].length < length && BareMove(s, i, length, copy)
    ensures var (r, to) := (ResizeHelper(s, i, length, copy), s.used - s.o[i].length);
            && r.e.offset == to && r.s.data == Overwrite(s.data, to, Window(s.data, s.o[i].offset, copy))
  {
    hide Layout, Listed, Linked, Indexed, Content, Model.Repack, Dir.SetOffset, InsertEntry, Window,
      Overwrite, NeedsMove, Stable, PosOfSlot, SumTo, Dir.SetLength, BareMove, Compacted;
    BareMoveIff(s, i, length, copy) by {
      BareMoveParts(s, i, length, copy);
    }
    BareMoveParts(s, i, length, copy);
    var s1 := s.(o := Removed(s.o, i));
    RemoveKeepsLayout(s.o, |s.data|, i);
    RepackIsExact(s1);
    SameOutsideNothing(s1.data, Model.Repack(s1).0.data, Sum(s1.o));
    NonEmptyInStore(s.o, |s.data|, i);
    SumToFits(s1.o, |s.data|, |s1.o|);
  }

  lemma BareMoveParts(s: State, i: nat, length: nat, copy: nat)
    requires i < |s.o| && BareMove(s, i, length, copy)
    ensures copy > 0 && NeedsMove(s, i, length)
  {
  }

  /** The tree after a growth is valid exactly when it was no bare move or one that goes unnoticed. */
  lemma GrowTreeIff(s: State, s': State, i: nat, length: nat, copy: nat, buf: seq<byte>)
    requires Inv(s) && TreeOk(s) && i < |s.o| && copy <= s.o[i].length < length && Regrown(s, s', i, length, copy, buf)
    ensures TreeOk(s') <==> MovesSafely(s, i, length, copy)
  {
    hide TreeOk, Inv, BareMove, CopyUnseen, Regrown;
    if BareMove(s, i, length, copy) {
      BareMoveTreeIff(s, s', i, length, copy, buf);
    } else {
      GrowKeepsTree(s, s', i, length, copy, buf);
    }
  }

  lemma SameTree(s: State, s': State)
    requires TreeOk(s) && s'.data == s.data && s'.hash == s.hash
    ensures TreeOk(s')
  {
  }

  lemma ResizeTreeIff(s: State, st: Store, op: Op)
    requires op.Resize? && Represents(s, st) && Safe(s, op) && TreeOk(s)
    ensures TreeOk(Step(s, op).0) <==> TreeSafe(s, op)
  {
    hide Lookup, ResizeHelper, Content, Inv, Stable, Contents, TotalSize, HashTree.Rehash, Overwrite, Truncate, HasName,
      Extent, MovesSafely, TreeOk, GrowsSafely, NeedsMove, RelocationAnswer;
    var length := op.length;
    LookupFinds(s, st, op.name);
    var i := Lookup(s, op.name);
    if i >= 0 && s.used + length - s.o[i].length <= |s.data| && length != s.o[i].length {
      var was := s.o[i].length;
      HelperKeepsHash(s, i, length, was);
      var r := ResizeHelper(s, i, length, was);
      if length > was {
        ContentsToExcept(s.o, s.data, st.files, s.o[i].slot);
        HelperGrows(s, i, length, was, st.files);
        ExtentSizes(s, i, r);
        GrowTreeIff(s, Step(s, op).0, i, length, was, Zeros(length - was));
      } else {
        HelperShrinks(s, i, length, was);
        SameTree(s, r.s);
      }
    } else {
      SameTree(s, Step(s, op).0);
    }
  }

  lemma WriteTreeIff(s: State, st: Store, op: Op)
    requires op.Write? && Represents(s, st) && Safe(s, op) && TreeOk(s)
    ensures TreeOk(Step(s, op).0) <==> TreeSafe(s, op)
  {
    hide Lookup, ResizeHelper, Content, Inv, Stable, Contents, TotalSize, HashTree.Rehash, Overwrite, Truncate, HasName,
      Extent, MovesSafely, TreeOk, GrowsSafely, NeedsMove, RelocationAnswer;
    var offset, buf := op.offset, op.buf;
    LookupFinds(s, st, op.name);
    var i := Lookup(s, op.name);
    var s' := Step(s, op).0;
    if i >= 0 && offset <= s.o[i].length && s.used + offset + |buf| - s.o[i].length <= |s.data| && |buf| > 0 {
      var length := offset + |buf|;
      HelperKeepsHash(s, i, length, offset);
      if length > s.o[i].length {
        var r := ResizeHelper(s, i, length, offset);
        ContentsToExcept(s.o, s.data, st.files, s.o[i].slot);
        HelperGrows(s, i, length, offset, st.files);
        ExtentSizes(s, i, r);
        GrowthEndsAtUsed(s, i, length, offset, r);
        GrowTreeIff(s, s', i, length, offset, buf);
      } else {
        FileInStore(s, i);
        OverwriteOutside(s.data, s.o[i].offset + offset, buf);
        RehashKeepsTree(s, s', s.o[i].offset + offset, |buf|);
      }
    } else {
      SameTree(s, s');
    }
  }

  lemma GrowthEndsAtUsed(s: State, i: nat, length: nat, copy: nat, r: Model.Resized)
    requires i < |s.o| && Grown(s, i, length, copy, r)
    ensures r.h >= 0 ==> End(r.e) == r.s.used
  {
  }

  // The other operations

  lemma RepackKeepsTree(s: State)
    requires Inv(s) && TreeOk(s)
    ensures TreeOk(RepackAll(s))
  {
    hide Model.Repack, HashTree.Rehash, Listed, Linked, Indexed, TreeOk, Content, Compacted, SumTo;
    RepackIsExact(s);
    var (s', h) := Model.Repack(s);
    var s'' := RepackAll(s);
    SumToFits(s.o, |s.data|, |s.o|);
    if h >= 0 {
      assert s'.Leaf() == s.Leaf();
      RehashKeepsTree(s, s'', h, s.used - h);
    } else {
      assert s'.data == s.data;
      SameTree(s, s'');
    }
  }

  lemma CreateKeepsTree(s: State, op: Op)
    requires op.Create? && Inv(s) && TreeOk(s)
    ensures TreeOk(Step(s, op).0)
  {
    hide Lookup, Content, Layout, Listed, Indexed, Linked, Stable, HashTree.Rehash, NewOffset, AddFile,
      FreeSlot, Model.Repack, Overwrite, Fits, SumTo, TreeOk, Compacted;
    var length, s' := op.length, Step(s, op).0;
    if Lookup(s, op.name) < 0 && s.used + length <= |s.data| && s.count < |s.slots| {
      var p := NewOffset(s, length);
      var e := Entry(Truncate(op.name), p.offset, length, FreeSlot(s.slots));
      PlacementMoves(s, length);
      AddFileKeepsData(p.s, e);
      if length == 0 {
        SameTree(s, s');
      } else {
        assert AddFile(p.s, e).Leaf() == s.Leaf();
        OverwriteOutside(p.s.data, p.offset, Zeros(length));
        if p.h >= 0 {
          SameOutsideChain(s.data, p.s.data, s'.data, p.h, p.offset, p.offset + length);
          RehashKeepsTree(s, s', p.h, p.offset + length - p.h);
        } else {
          RehashKeepsTree(s, s', p.offset, length);
        }
      }
    } else {
      SameTree(s, s');
    }
  }

  lemma PlacementMoves(s: State, length: nat)
    requires Inv(s) && s.used + length <= |s.data|
    ensures var p := NewOffset(s, length);
            && p.s.hash == s.hash && p.s.used == s.used
            && (length == 0 ==> p.s == s)
            && (length > 0 ==> p.offset + length <= |s.data| == |p.s.data|)
            && (p.h < 0 ==> p.s.data == s.data)
            && (p.h >= 0 ==> p.offset == s.used && p.h <= s.used && SameOutside(s.data, p.s.data, p.h, s.used))
  {
    hide Listed, Linked, Indexed, Content, Compacted, SumTo, Model.Repack;
    RepackIsExact(s);
    if length > 0 {
      NewOffsetFits(s, length);
    }
  }

  /** From a valid tree, an operation leads to a valid one exactly when it is tree-safe. */
  lemma StepTreeIff(s: State, st: Store, op: Op)
    requires Represents(s, st) && Safe(s, op) && TreeOk(s)
    ensures TreeOk(Step(s, op).0) <==> TreeSafe(s, op)
  {
    hide Represents, Model.Create, Model.Resize, Model.Write, Model.Read, RepackAll, Model.Size, Safe, TreeOk,
      MovesSafely, Lookup, Dir.ClearRecord, Dir.SetName;
    RepresentedInv(s, st);
    match op
    case Create(_, _) => CreateKeepsTree(s, op);
    case Resize(_, _) => ResizeTreeIff(s, st, op);
    case Write(_, _, _) => WriteTreeIff(s, st, op);
    case Repack => RepackKeepsTree(s);
    case _ => SameTree(s, Step(s, op).0);
  }

  lemma RepresentedInv(s: State, st: Store)
    requires Represents(s, st)
    ensures Inv(s)
  {
  }

  // Runs

  ghost predicate TreeSafeRun(s: State, ops: seq<Op>)
    decreases |ops|
  {
    |ops| == 0 || (TreeSafe(s, ops[0]) && TreeSafeRun(Step(s, ops[0]).0, ops[1..]))
  }

  /** The tree is valid in every state of the run. */
  ghost predicate TreeOkThroughout(s: State, ops: seq<Op>)
    decreases |ops|
  {
    TreeOk(s) && (|ops| == 0 || TreeOkThroughout(Step(s, ops[0]).0, ops[1..]))
  }

  /** In a safe run from a valid tree, the tree is valid in every state exactly when every operation is tree-safe. */
  lemma {:induction false} RunTreeIff(s: State, st: Store, ops: seq<Op>)
    requires Represents(s, st) && SafeRun(s, ops) && TreeOk(s)
    ensures TreeOkThroughout(s, ops) <==> TreeSafeRun(s, ops)
    decreases |ops|
  {
    hide Represents, Safe, Step, Apply, TreeOk, TreeSafe;
    if |ops| > 0 {
      StepRefines(s, st, ops[0]);
      StepTreeIff(s, st, ops[0]);
      if TreeSafe(s, ops[0]) {
        RunTreeIff(Step(s, ops[0]).0, Apply(st, ops[0]).0, ops[1..]);
      }
    }
  }

  lemma StepIsExact(s: State, st: Store, op: Op)
    requires Represents(s, st) && Safe(s, op) && TreeOk(s)
    ensures Step(s, op).1 == Apply(st, op).1
  {
    hide Represents, Model.Create, Model.Resize, Model.Write, Model.Delete, Model.Read, Model.Rename, RepackAll,
      Model.Size, Safe;
    StepRefines(s, st, op);
    if op.Read? {
      ReadIsExact(s, st, op);
    }
  }

  /** While the tree is valid, a safe run returns exactly what the map from names to bytes returns: no read reports 3. */
  lemma {:induction false} RunIsExact(s: State, st: Store, ops: seq<Op>)
    requires Represents(s, st) && SafeRun(s, ops) && TreeOkThroughout(s, ops)
    ensures Represents(Run(s, ops).0, ApplyAll(st, ops).0)
    ensures Run(s, ops).1 == ApplyAll(st, ops).1
    decreases |ops|
  {
    hide Represents, Safe, Step, Apply, TreeOk;
    if |ops| > 0 {
      StepRefines(s, st, ops[0]);
      StepIsExact(s, st, ops[0]);
      RunIsExact(Step(s, ops[0]).0, Apply(st, ops[0]).0, ops[1..]);
    }
  }
}
