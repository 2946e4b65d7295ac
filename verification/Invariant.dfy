// The invariant that ties the offset array, the name array, the slot map, the
// directory and the accounts together, and what keeps it.
module Invariants {
  import opened Structs
  import opened Search
  import opened Model
  import opened Layouts
  import HashTree
  import Dir = Directory

  ghost predicate DistinctSlots(es: seq<Entry>) {
    forall i, j :: 0 <= i < j < |es| ==> es[i].slot != es[j].slot
  }

  /** Every entry has a slot of its own among the first k, and dir_table mirrors it there. */
  ghost predicate Listed(o: seq<Entry>, dir: seq<byte>, k: nat) {
    && META_LEN * k <= |dir|
    && DistinctSlots(o)
    && (forall i :: 0 <= i < |o| ==> o[i].slot < k && Dir.Mirror(dir, o[i]))
  }

  ghost function Blanks(o: seq<Entry>): set<Entry> {
    set i | 0 <= i < |o| :: Blank(o[i])
  }

  /** Both arrays hold the same files. */
  ghost predicate Linked(o: seq<Entry>, n: seq<Entry>) {
    |o| == |n| && Blanks(o) == set j | 0 <= j < |n| :: n[j]
  }

  function Ones(slots: seq<byte>): nat {
    if |slots| == 0 then 0 else Ones(slots[..|slots| - 1]) + if slots[|slots| - 1] == 0 then 0 else 1
  }

  ghost predicate HasSlot(n: seq<Entry>, k: nat) {
    exists j :: 0 <= j < |n| && n[j].slot == k
  }

  /** The slot map marks exactly the slots of the files. */
  ghost predicate Marked(n: seq<Entry>, slots: seq<byte>) {
    && (forall k :: 0 <= k < |slots| ==> slots[k] == if HasSlot(n, k) then 1 else 0)
    && Ones(slots) == |n|
  }

  /** The name array is strictly sorted, and the slot map marks the slots of its files. */
  ghost predicate Keyed(n: seq<Entry>, slots: seq<byte>) {
    && NameSorted(n) && DistinctSlots(n)
    && (forall j :: 0 <= j < |n| ==> n[j].slot < |slots| && IsName(n[j].name) && n[j].name != [])
    && Marked(n, slots)
  }

  /** Besides, the records of all unused slots start with a null byte. */
  ghost predicate Indexed(n: seq<Entry>, dir: seq<byte>, slots: seq<byte>) {
    Keyed(n, slots) && forall k :: 0 <= k < |slots| && slots[k] == 0 ==> Dir.NameAt(dir, k) == []
  }

  /** The sizes that init_fs is given. */
  ghost predicate WellSized(s: State) {
    && |s.data| <= 0x8000_0000 && HashTree.Sized(s.data, s.hash, s.Leaf())
    && |s.slots| == |s.dir| / META_LEN <= MAX_NUM_FILES
  }

  /** In numbers: blocks of 256 bytes, nodes of 16, records of 72, at most 2^31 bytes and 65536 records. */
  lemma SizesInBytes(s: State)
    ensures WellSized(s) <==>
            && |s.data| == 256 * (s.Leaf() + 1) <= 0x8000_0000 && |s.hash| == 16 * (2 * s.Leaf() + 1)
            && |s.slots| == |s.dir| / 72 <= 65536
  {
  }

  ghost predicate Inv(s: State) {
    && WellSized(s)
    && Layout(s.o, |s.data|)
    && Listed(s.o, s.dir, |s.slots|)
    && Linked(s.o, s.n)
    && Indexed(s.n, s.dir, s.slots)
    && s.used == Sum(s.o)
    && s.count == |s.o|
  }

  // Consequences

  lemma InNameArray(s: State, i: nat) returns (j: nat)
    requires Linked(s.o, s.n) && i < |s.o|
    ensures j < |s.n| && s.n[j] == Blank(s.o[i])
  {
    assert Blank(s.o[i]) in Blanks(s.o);
    j :| 0 <= j < |s.n| && s.n[j] == Blank(s.o[i]);
  }

  lemma InOffsetArray(s: State, j: nat) returns (i: nat)
    requires Linked(s.o, s.n) && j < |s.n|
    ensures i < |s.o| && s.n[j] == Blank(s.o[i])
  {
    assert s.n[j] in Blanks(s.o);
    i :| 0 <= i < |s.o| && s.n[j] == Blank(s.o[i]);
  }

  lemma {:induction false} PosOfSlotIs(o: seq<Entry>, i: nat)
    requires DistinctSlots(o) && i < |o|
    ensures PosOfSlot(o, o[i].slot) == i
  {
    if i > 0 {
      assert o[0].slot != o[i].slot;
      assert o[1..][i - 1] == o[i];
      PosOfSlotIs(o[1..], i - 1);
    }
  }

  /** The lookup finds the file of that name, if there is one. */
  lemma LookupIs(s: State, filename: seq<byte>)
    requires Inv(s)
    ensures var i := Lookup(s, filename);
            if i >= 0 then s.o[i].name == Truncate(filename)
            else forall k :: 0 <= k < |s.o| ==> s.o[k].name != Truncate(filename)
  {
    hide GetIndex;
    var name := Truncate(filename);
    LookupByName(NameKey(name), s.n);
    var j := GetIndex(NameKey(name), s.n, NAME, false);
    if name != [] && j >= 0 {
      var i := InOffsetArray(s, j);
      PosOfSlotIs(s.o, i);
    } else {
      forall k | 0 <= k < |s.o| ensures s.o[k].name != name {
        var jk := InNameArray(s, k);
      }
    }
  }

  lemma NamesDistinct(s: State, i: nat, k: nat)
    requires Inv(s) && i < |s.o| && k < |s.o| && s.o[i].name == s.o[k].name
    ensures i == k
  {
    var p := InNameArray(s, i);
    var q := InNameArray(s, k);
    NameCmpReflects(s.n[p].name, s.n[q].name);
    assert p == q;
  }

  lemma FileInStore(s: State, i: nat)
    requires Inv(s) && i < |s.o| && s.o[i].length > 0
    ensures s.o[i].offset < MAX_FILE_DATA_LEN && End(s.o[i]) <= |s.data|
  {
    hide Linked, Listed, Indexed, Layout;
    NonEmptyInStore(s.o, |s.data|, i);
  }

  lemma PosInListed(o: seq<Entry>, dir: seq<byte>, k: nat, i: nat)
    requires Listed(o, dir, k) && i < |o|
    ensures PosOfSlot(o, o[i].slot) == i
    ensures o[i].slot < k && META_LEN * k <= |dir|
  {
    hide Dir.Mirror;
    PosOfSlotIs(o, i);
  }

  // dir_table under moves

  /** The names and lengths that dir_table holds, used slots and unused ones. */
  ghost predicate SameNames(dir: seq<byte>, dir': seq<byte>) {
    && |dir'| == |dir|
    && (forall x: nat :: Dir.NameAt(dir', x) == Dir.NameAt(dir, x))
    && (forall x: nat :: Dir.LengthAt(dir', x) == Dir.LengthAt(dir, x))
  }

  lemma SetOffsetKeepsNames(dir: seq<byte>, e: Entry)
    requires META_LEN * e.slot + META_LEN <= |dir|
    ensures SameNames(dir, Dir.SetOffset(dir, e))
  {
    hide Dir.NameAt, Dir.OffsetAt, Dir.LengthAt, Dir.SetOffset;
    forall x: nat
      ensures Dir.NameAt(Dir.SetOffset(dir, e), x) == Dir.NameAt(dir, x)
      ensures Dir.LengthAt(Dir.SetOffset(dir, e), x) == Dir.LengthAt(dir, x)
    {
      Dir.AfterSetOffset(dir, e, x);
    }
  }

  lemma MoveKeepsListed(s: State, i: nat, to: nat)
    requires Listed(s.o, s.dir, |s.slots|) && i < |s.o| && to < MAX_FILE_DATA_LEN
    ensures var s' := Move(s, i, to);
            Listed(s'.o, s'.dir, |s.slots|) && SameNames(s.dir, s'.dir)
  {
    hide Dir.NameAt, Dir.OffsetAt, Dir.LengthAt, Dir.SetOffset, MoveData;
    var e := s.o[i].(offset := to);
    var s' := Move(s, i, to);
    SetOffsetKeepsNames(s.dir, e);
    forall k | 0 <= k < |s.o| ensures Dir.Mirror(s'.dir, s'.o[k]) {
      Dir.AfterSetOffset(s.dir, e, s.o[k].slot);
    }
  }

  lemma {:induction false} RepackFromKeepsListed(s: State, i: nat, h: int)
    requires Listed(s.o, s.dir, |s.slots|) && 0 < i <= |s.o|
    requires forall k :: 0 <= k < |s.o| ==> End(s.o[k]) <= MAX_FILE_DATA_LEN
    ensures var s' := RepackFrom(s, i, h).0;
            Listed(s'.o, s'.dir, |s.slots|) && SameNames(s.dir, s'.dir)
    decreases |s.o| - i
  {
    hide Dir.NameAt, Dir.LengthAt, Dir.Mirror, Dir.SetOffset, MoveData, Listed;
    if i < |s.o| && s.o[i].offset < MAX_FILE_DATA_LEN {
      var end := End(s.o[i - 1]);
      if s.o[i].offset > end {
        MoveKeepsListed(s, i, end);
        RepackFromKeepsListed(Move(s, i, end), i + 1, if h < 0 && s.o[i].length != 0 then end else h);
      } else {
        RepackFromKeepsListed(s, i + 1, h);
      }
    }
  }

  lemma RepackKeepsListed(s: State)
    requires Listed(s.o, s.dir, |s.slots|) && Layout(s.o, |s.data|)
    ensures var s' := Repack(s).0;
            Listed(s'.o, s'.dir, |s.slots|) && SameNames(s.dir, s'.dir)
  {
    hide Dir.NameAt, Dir.LengthAt, Dir.Mirror, Dir.SetOffset, MoveData, Listed, RepackFrom;
    forall k | 0 <= k < |s.o| ensures End(s.o[k]) <= MAX_FILE_DATA_LEN {
      assert Placed(s.o[k], |s.data|);
    }
    if s.used > 0 && |s.o| > 0 {
      if s.o[0].offset > 0 {
        MoveKeepsListed(s, 0, 0);
        RepackFromKeepsListed(Move(s, 0, 0), 1, if s.o[0].length == 0 then -1 else 0);
      } else {
        RepackFromKeepsListed(s, 1, -1);
      }
    }
  }

  lemma SameBlanks(o: seq<Entry>, o': seq<Entry>)
    requires |o| == |o'| && forall i :: 0 <= i < |o| ==> Blank(o'[i]) == Blank(o[i])
    ensures Blanks(o') == Blanks(o)
  {
  }

  lemma BlanksOfInserted(o: seq<Entry>, p: nat, e: Entry)
    requires p <= |o|
    ensures Blanks(Inserted(o, p, e)) == Blanks(o) + {Blank(e)}
  {
    var o' := Inserted(o, p, e);
    assert o'[p] == e;
    forall i | 0 <= i < |o| ensures Blank(o[i]) in Blanks(o') {
      assert o'[if i < p then i else i + 1] == o[i];
    }
  }

  lemma BlanksOfRemoved(o: seq<Entry>, p: nat)
    requires p < |o| && DistinctSlots(o)
    ensures Blanks(Removed(o, p)) == Blanks(o) - {Blank(o[p])}
    ensures Blank(o[p]) in Blanks(o)
  {
    var o' := Removed(o, p);
    forall i | 0 <= i < |o| && i != p ensures Blank(o[i]) in Blanks(o') && Blank(o[i]) != Blank(o[p]) {
      assert o'[if i < p then i else i - 1] == o[i];
    }
    forall k | 0 <= k < |o'| ensures Blank(o'[k]) in Blanks(o) && Blank(o'[k]) != Blank(o[p]) {
      assert o'[k] == o[if k < p then k else k + 1];
    }
  }

  // Steps

  lemma IndexedFollowsNames(n: seq<Entry>, dir: seq<byte>, dir': seq<byte>, slots: seq<byte>)
    requires Indexed(n, dir, slots) && SameNames(dir, dir')
    ensures Indexed(n, dir', slots)
  {
    hide NameSorted, DistinctSlots, IsName, HasSlot;
  }

  /** A repack keeps the invariant. */
  lemma RepackKeepsInv(s: State)
    requires Inv(s)
    ensures Inv(Repack(s).0)
  {
    hide Repack, Dir.NameAt, Dir.LengthAt, Dir.Mirror, Content, Layout, Stable, Listed, Indexed, Blanks, Compacted;
    hide SumTo;
    var s' := Repack(s).0;
    RepackIsExact(s);
    RepackKeepsListed(s);
    IndexedFollowsNames(s.n, s.dir, s'.dir, s.slots);
    SameBlanks(s.o, s'.o);
    if s.used > 0 {
      CompactedKeepsLayout(s.o, s'.o, |s.data|);
    }
  }
}
