// Runs in which no file changes its length between zero and non-zero: every operation is safe.
module ZeroStableRuns {
  import opened Bytes
  import opened Search
  import opened Model
  import opened Layouts
  import opened Placements
  import opened Invariants
  import opened Growth
  import opened Membership
  import opened Stores
  import opened Refinement
  import opened TreeRuns
  import opened AnyStep
  import opened Loading
  import HashTree

  /** A condition on the map alone: no rename, and no file's length changes between zero and non-zero. */
  ghost predicate ZeroStable(st: Store, op: Op) {
    && Named(op) && !op.Rename?
    && var files, files' := st.files, Apply(st, op).0.files;
       forall x :: x in files && x in files' ==> (|files[x]| == 0 <==> |files'[x]| == 0)
  }

  ghost predicate ZeroStableRun(st: Store, ops: seq<Op>)
    decreases |ops|
  {
    |ops| == 0 || (ZeroStable(st, ops[0]) && ZeroStableRun(Apply(st, ops[0]).0, ops[1..]))
  }

  lemma CreateIsSafe(s: State, st: Store, op: Op)
    requires op.Create? && Represents(s, st) && Stable(s.o) && Named(op)
    ensures OrderSafe(s, op) && Stable(Step(s, op).0.o)
  {
    hide Lookup, Layout, Listed, Linked, Indexed, Stable, FreeOffset, NewOffset, AddFile, FreeSlot, Fits, NoEmptyInside,
      HashTree.Rehash, Contents, TotalSize, HasName, Compacted, SumTo;
    var length := op.length;
    if Lookup(s, op.name) < 0 && s.used + length <= |s.data| && s.count < |s.slots| {
      FreePlaceIsClear(s, length);
      LookupFinds(s, st, op.name);
      PlacementRefines(s, st, length);
      PlacementKeepsStable(s, length);
      var p := NewOffset(s, length);
      var e := Entry(Truncate(op.name), p.offset, length, FreeSlot(s.slots));
      FreeSlotExists(p.s);
      TruncateIsName(op.name);
      forall k | 0 <= k < |p.s.o| ensures p.s.o[k].name != e.name {
        KnownName(p.s, st, k);
      }
      AddFileKeepsInv(p.s, e);
    }
  }

  lemma FreePlaceIsClear(s: State, length: nat)
    requires Inv(s) && Stable(s.o) && s.used + length <= |s.data|
    ensures CreatesSafely(s, length)
  {
    hide Listed, Linked, Indexed, FreeOffset, NoEmptyInside, Stable;
    var x := FreeOffset(s.o, |s.data|, length);
    if length > 0 && x >= 0 {
      FreeOffsetIsFirst(s.o, |s.data|, length);
      StableNoEmptyInside(s.o, x, length);
    }
  }

  lemma PlacementKeepsStable(s: State, length: nat)
    requires Inv(s) && Stable(s.o)
    ensures Stable(NewOffset(s, length).s.o)
  {
    hide Stable, Layout, Listed, Linked, Indexed, FreeOffset, Model.Repack, Compacted, Content, SumTo;
    RepackIsExact(s);
  }

  /** A change of length that keeps zero or non-zero is safe. */
  lemma HelperIsSafe(s: State, st: Store, i: nat, length: nat, copy: nat)
    requires Represents(s, st) && Stable(s.o) && i < |s.o| && copy <= s.o[i].length
    requires s.used + length - s.o[i].length <= |s.data|
    requires length != s.o[i].length && length > 0 && s.o[i].length > 0
    ensures length > s.o[i].length ==> GrowsSafely(s, i, length)
    ensures Stable(ResizeHelper(s, i, length, copy).s.o)
  {
    hide ResizeHelper, Content, Inv, Stable, Contents, HasName, Extent, TotalSize, Window, GrowsSafely, NeedsMove;
    if length > s.o[i].length {
      StableGrowsSafely(s, i, length);
      ContentsToExcept(s.o, s.data, st.files, s.o[i].slot);
      HelperGrows(s, i, length, copy, st.files);
    } else {
      HelperShrinks(s, i, length, copy);
    }
  }

  lemma ResizeIsSafe(s: State, st: Store, op: Op)
    requires op.Resize? && Represents(s, st) && Stable(s.o) && ZeroStable(st, op)
    ensures OrderSafe(s, op) && Stable(Step(s, op).0.o)
  {
    hide Lookup, ResizeHelper, Content, Inv, Stable, Contents, HasName, TotalSize, GrowsSafely, HashTree.Rehash, Truncate;
    LookupFinds(s, st, op.name);
    var i, length := Lookup(s, op.name), op.length;
    if i >= 0 && s.used + length - s.o[i].length <= |s.data| && length != s.o[i].length {
      var name, files := s.o[i].name, st.files;
      assert name in files[name := Stores.Resized(files[name], length)];
      HelperIsSafe(s, st, i, length, s.o[i].length);
    }
  }

  lemma WriteIsSafe(s: State, st: Store, op: Op)
    requires op.Write? && Represents(s, st) && Stable(s.o) && ZeroStable(st, op)
    ensures OrderSafe(s, op) && Stable(Step(s, op).0.o)
  {
    hide Lookup, ResizeHelper, Content, Inv, Stable, Contents, HasName, TotalSize, GrowsSafely, HashTree.Rehash, Truncate;
    LookupFinds(s, st, op.name);
    var i, length := Lookup(s, op.name), op.offset + |op.buf|;
    if i >= 0 && op.offset <= s.o[i].length && Extends(s, i, length) {
      var name, files := s.o[i].name, st.files;
      assert name in files[name := Written(files[name], op.offset, op.buf)];
      HelperIsSafe(s, st, i, length, op.offset);
    }
  }

  /** With empty files only at 0 and 2^32, every zero-stable operation is safe and leaves it so. */
  lemma ZeroStableIsSafe(s: State, st: Store, op: Op)
    requires Represents(s, st) && Stable(s.o) && ZeroStable(st, op)
    ensures Safe(s, op) && Stable(Step(s, op).0.o)
  {
    hide Represents, Stable, Model.Create, Model.Resize, Model.Write, Model.Read, Model.Repack, Model.Size, Lookup,
      CreatesSafely, GrowsSafely, Apply;
    match op
    case Create(_, _) => CreateIsSafe(s, st, op);
    case Resize(_, _) => ResizeIsSafe(s, st, op);
    case Write(_, _, _) => WriteIsSafe(s, st, op);
    case Delete(name) =>
      RepresentedInv(s, st);
      if Lookup(s, name) >= 0 {
        DeleteKeepsInv(s, name);
      }
    case Repack => RepackKeepsStable(s, st);
    case _ =>
  }

  lemma RepackKeepsStable(s: State, st: Store)
    requires Represents(s, st) && Stable(s.o)
    ensures Stable(RepackAll(s).o)
  {
    hide Stable, Layout, Listed, Linked, Indexed, Model.Repack, Compacted, Content, SumTo, HashTree.Rehash, Contents,
      TotalSize, HasName;
    RepackIsExact(s);
  }

  /** A zero-stable run is safe: the map alone decides that the file system behaves as the map. */
  lemma {:induction false} ZeroStableRunIsSafe(s: State, st: Store, ops: seq<Op>)
    requires Represents(s, st) && Stable(s.o) && ZeroStableRun(st, ops)
    ensures SafeRun(s, ops) && Stable(Run(s, ops).0.o)
    ensures Represents(Run(s, ops).0, ApplyAll(st, ops).0) && Agree(ops, Run(s, ops).1, ApplyAll(st, ops).1)
    decreases |ops|
  {
    hide Represents, ZeroStable, Safe, Step, Apply, Stable;
    if |ops| > 0 {
      ZeroStableIsSafe(s, st, ops[0]);
      StepRefines(s, st, ops[0]);
      ZeroStableRunIsSafe(Step(s, ops[0]).0, Apply(st, ops[0]).0, ops[1..]);
    }
  }

  /** Leaving after any safe run and starting again from the three buffers gives the same map, in an
      array in which zero-stable operations are safe. */
  lemma RestartAfterRun(s: State, st: Store, ops: seq<Op>)
    requires Represents(s, st) && SafeRun(s, ops)
    ensures var s' := Run(s, ops).0;
            var t := Load(s'.data, s'.dir, s'.hash);
            && Represents(t, ApplyAll(st, ops).0) && Stable(t.o)
            && (TreeOk(s') ==> TreeOk(t))
  {
    hide Represents, Run, ApplyAll, SafeRun, Load, Stable, HashTree.ValidTree;
    RunRefines(s, st, ops);
    LoadRoundTrip(Run(s, ops).0, ApplyAll(st, ops).0);
  }
}
