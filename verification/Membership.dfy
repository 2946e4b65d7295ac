// Adding a file to both arrays, the directory and the slot map, and removing one.
module Membership {
  import opened Structs
  import opened Search
  import opened Model
  import opened Layouts
  import opened Placements
  import opened Invariants
  import Dir = Directory

  ghost function Elems(n: seq<Entry>): set<Entry> {
    set j | 0 <= j < |n| :: n[j]
  }

  lemma ElemsOfInserted(n: seq<Entry>, p: nat, e: Entry)
    requires p <= |n|
    ensures Elems(Inserted(n, p, e)) == Elems(n) + {e}
  {
    var n' := Inserted(n, p, e);
    assert n'[p] == e;
    forall i | 0 <= i < |n| ensures n[i] in Elems(n') {
      assert n'[if i < p then i else i + 1] == n[i];
    }
  }

  lemma ElemsOfRemoved(n: seq<Entry>, p: nat)
    requires p < |n| && DistinctSlots(n)
    ensures Elems(Removed(n, p)) == Elems(n) - {n[p]}
  {
    var n' := Removed(n, p);
    forall i | 0 <= i < |n| && i != p ensures n[i] in Elems(n') && n[i] != n[p] {
      assert n'[if i < p then i else i - 1] == n[i];
    }
    forall k | 0 <= k < |n'| ensures n'[k] in Elems(n) && n'[k] != n[p] {
      assert n'[k] == n[if k < p then k else k + 1];
    }
  }

  // The slot map

  lemma {:induction false} OnesBelow(slots: seq<byte>)
    ensures Ones(slots) <= |slots|
    ensures Ones(slots) < |slots| ==> exists k :: 0 <= k < |slots| && slots[k] == 0
  {
    if |slots| > 0 {
      OnesBelow(slots[..|slots| - 1]);
      if Ones(slots) < |slots| {
        if slots[|slots| - 1] != 0 {
          var k :| 0 <= k < |slots| - 1 && slots[..|slots| - 1][k] == 0;
          assert slots[k] == 0;
        }
      }
    }
  }

  lemma {:induction false} OnesUpdated(slots: seq<byte>, k: nat, b: byte)
    requires k < |slots|
    ensures Ones(slots[k := b]) == Ones(slots) + (if b == 0 then 0 else 1) - if slots[k] == 0 then 0 else 1
  {
    var m := |slots| - 1;
    assert slots[k := b][..m] == if k == m then slots[..m] else slots[..m][k := b];
    if k < m {
      OnesUpdated(slots[..m], k, b);
    }
  }

  lemma HasSlotInserted(n: seq<Entry>, p: nat, e: Entry, k: nat)
    requires p <= |n|
    ensures HasSlot(Inserted(n, p, e), k) <==> k == e.slot || HasSlot(n, k)
  {
    var n' := Inserted(n, p, e);
    assert n'[p] == e;
    if HasSlot(n, k) {
      var j :| 0 <= j < |n| && n[j].slot == k;
      assert n'[if j < p then j else j + 1] == n[j];
    }
  }

  lemma HasSlotRemoved(n: seq<Entry>, p: nat, k: nat)
    requires p < |n| && DistinctSlots(n)
    ensures HasSlot(Removed(n, p), k) <==> k != n[p].slot && HasSlot(n, k)
  {
    var n' := Removed(n, p);
    if k != n[p].slot && HasSlot(n, k) {
      var j :| 0 <= j < |n| && n[j].slot == k;
      assert n'[if j < p then j else j - 1] == n[j];
    }
  }

  lemma HasSlotRenamed(n: seq<Entry>, j: nat, e: Entry, k: nat)
    requires j < |n| && e.slot == n[j].slot
    ensures HasSlot(n[j := e], k) <==> HasSlot(n, k)
  {
    var n' := n[j := e];
    if HasSlot(n, k) {
      var x :| 0 <= x < |n| && n[x].slot == k;
      assert n'[x].slot == k;
    }
  }

  lemma MarkedAdded(n: seq<Entry>, slots: seq<byte>, p: nat, e: Entry)
    requires Marked(n, slots) && p <= |n| && e.slot < |slots| && slots[e.slot] == 0
    ensures !HasSlot(n, e.slot) && Marked(Inserted(n, p, e), slots[e.slot := 1])
  {
    hide Ones;
    assert !HasSlot(n, e.slot);
    OnesUpdated(slots, e.slot, 1);
    forall k | 0 <= k < |slots| ensures HasSlot(Inserted(n, p, e), k) <==> k == e.slot || HasSlot(n, k) {
      HasSlotInserted(n, p, e, k);
    }
  }

  lemma MarkedRemoved(n: seq<Entry>, slots: seq<byte>, j: nat)
    requires Marked(n, slots) && DistinctSlots(n) && j < |n| && n[j].slot < |slots|
    ensures Marked(Removed(n, j), slots[n[j].slot := 0])
  {
    hide Ones;
    var slot := n[j].slot;
    assert HasSlot(n, slot);
    OnesUpdated(slots, slot, 0);
    forall k | 0 <= k < |slots| ensures HasSlot(Removed(n, j), k) <==> k != slot && HasSlot(n, k) {
      HasSlotRemoved(n, j, k);
    }
  }

  lemma MarkedRenamed(n: seq<Entry>, slots: seq<byte>, j: nat, e: Entry)
    requires Marked(n, slots) && j < |n| && e.slot == n[j].slot
    ensures Marked(n[j := e], slots)
  {
    hide Ones;
    forall k | 0 <= k < |slots| ensures HasSlot(n[j := e], k) <==> HasSlot(n, k) {
      HasSlotRenamed(n, j, e, k);
    }
  }

  /** While files are fewer than slots, new_file_index finds the lowest free slot and its assertion holds. */
  lemma FreeSlotExists(s: State)
    requires Inv(s) && s.count < |s.slots|
    ensures var k := FreeSlot(s.slots);
            && k < |s.slots| && s.slots[k] == 0
            && (forall i :: 0 <= i < |s.o| ==> s.o[i].slot != k)
            && (forall m :: 0 <= m < k ==> HasSlot(s.o, m))
  {
    hide Dir.NameAt, Dir.Mirror, Layout, NameSorted, Blanks, Ones;
    var k := FreeSlot(s.slots);
    OnesBelow(s.slots);
    assert k < |s.slots|;
    forall i | 0 <= i < |s.o| ensures s.o[i].slot != k {
      UsedSlot(s, i);
    }
    forall m | 0 <= m < k ensures HasSlot(s.o, m) {
      assert HasSlot(s.n, m);
      var j :| 0 <= j < |s.n| && s.n[j].slot == m;
      var i := InOffsetArray(s, j);
    }
  }

  /** Files own slots exactly where the map is set. */
  lemma UsedSlot(s: State, i: nat)
    requires Inv(s) && i < |s.o|
    ensures s.o[i].slot < |s.slots| && s.slots[s.o[i].slot] == 1
  {
    hide Dir.NameAt, Dir.Mirror, Layout, NameSorted, Blanks, Ones;
    var j := InNameArray(s, i);
    assert HasSlot(s.n, s.o[i].slot);
  }

  // Adding

  lemma ListedAdded(o: seq<Entry>, dir: seq<byte>, k: nat, p: nat, e: Entry)
    requires Listed(o, dir, k) && p <= |o| && e.slot < k && IsName(e.name) && e.length < MAX_FILE_DATA_LEN
    requires forall j :: 0 <= j < |o| ==> o[j].slot != e.slot
    ensures Listed(Inserted(o, p, e), Dir.WriteRecord(dir, e), k)
  {
    hide Dir.NameAt, Dir.OffsetAt, Dir.LengthAt, Dir.WriteRecord, IsName;
    var o', dir' := Inserted(o, p, e), Dir.WriteRecord(dir, e);
    forall i | 0 <= i < |o'| ensures o'[i].slot < k && Dir.Mirror(dir', o'[i]) {
      Dir.AfterWriteRecord(dir, e, o'[i].slot);
    }
  }

  lemma KeyedAdded(n: seq<Entry>, slots: seq<byte>, e: Entry)
    requires Keyed(n, slots)
    requires e.slot < |slots| && slots[e.slot] == 0 && IsName(e.name) && e.name != []
    requires forall j :: 0 <= j < |n| ==> n[j].name != e.name
    ensures var p := GetIndex(e, n, NAME, true);
            p >= 0 && InsertName(n, e) == Inserted(n, p, Blank(e))
    ensures Keyed(InsertName(n, e), slots[e.slot := 1])
  {
    hide IsName, NameSorted, GetIndex, Marked;
    SameNamesSameIndex(e, Blank(e), n, n, true);
    InsertByName(Blank(e), n);
    var p := GetIndex(e, n, NAME, true);
    var n' := Inserted(n, p, Blank(e));
    MarkedAdded(n, slots, p, Blank(e));
    SlotsDistinctInserted(n, p, Blank(e));
  }

  lemma IndexedAdded(n: seq<Entry>, dir: seq<byte>, slots: seq<byte>, e: Entry)
    requires Indexed(n, dir, slots) && META_LEN * |slots| <= |dir|
    requires e.slot < |slots| && slots[e.slot] == 0 && IsName(e.name) && e.name != [] && e.length < MAX_FILE_DATA_LEN
    requires forall j :: 0 <= j < |n| ==> n[j].name != e.name
    ensures var p := GetIndex(e, n, NAME, true);
            && p >= 0 && InsertName(n, e) == Inserted(n, p, Blank(e))
            && Indexed(InsertName(n, e), Dir.WriteRecord(dir, e), slots[e.slot := 1])
  {
    hide Dir.NameAt, Dir.OffsetAt, Dir.LengthAt, Dir.WriteRecord, IsName, GetIndex, Keyed, InsertName;
    KeyedAdded(n, slots, e);
    forall k | 0 <= k < |slots| && k != e.slot ensures Dir.NameAt(Dir.WriteRecord(dir, e), k) == Dir.NameAt(dir, k) {
      Dir.AfterWriteRecord(dir, e, k);
    }
  }

  lemma SlotsDistinctInserted(n: seq<Entry>, p: nat, e: Entry)
    requires p <= |n| && DistinctSlots(n) && !HasSlot(n, e.slot)
    ensures DistinctSlots(Inserted(n, p, e))
  {
  }

  /** A new file, in a place with room and a free slot, keeps the invariant once it is accounted for. */
  lemma AddFileKeepsInv(s: State, e: Entry)
    requires Inv(s)
    requires e.slot < |s.slots| && s.slots[e.slot] == 0 && IsName(e.name) && e.name != []
    requires forall k :: 0 <= k < |s.o| ==> s.o[k].name != e.name && s.o[k].slot != e.slot
    requires if e.length == 0 then e.offset == MAX_FILE_DATA_LEN
             else Fits(s.o, |s.data|, e.offset, e.length) && NoEmptyInside(s.o, e.offset, e.length)
    ensures var s' := AddFile(s, e).(used := s.used + e.length);
            && Inv(s') && (Stable(s.o) ==> Stable(s'.o))
            && (var p := GetIndex(e, s.o, OFFSET, true); p >= 0 && s'.o == Inserted(s.o, p, e))
            && (var q := GetIndex(e, s.n, NAME, true); q >= 0 && s'.n == Inserted(s.n, q, Blank(e)))
  {
    hide Dir.NameAt, Dir.Mirror, Dir.WriteRecord, Layout, Stable, Listed, Indexed, Blanks, GetIndex, SumTo, Fits,
      NoEmptyInside, Room, IsName;
    var cap := |s.data|;
    if e.length == 0 {
      InsertEmpty(s.o, cap, e);
    } else {
      RoomIffNoEmptyInside(s.o, cap, e);
      InsertNonEmpty(s.o, cap, e);
    }
    var p := GetIndex(e, s.o, OFFSET, true);
    SumOfInserted(s.o, p, e);
    ListedAdded(s.o, s.dir, |s.slots|, p, e);
    forall j | 0 <= j < |s.n| ensures s.n[j].name != e.name {
      var i := InOffsetArray(s, j);
    }
    IndexedAdded(s.n, s.dir, s.slots, e);
    var q := GetIndex(e, s.n, NAME, true);
    BlanksOfInserted(s.o, p, e);
    ElemsOfInserted(s.n, q, Blank(e));
  }

  // Removing

  lemma NamePosition(s: State, i: nat)
    requires Inv(s) && i < |s.o|
    ensures var j := PosOfSlot(s.n, s.o[i].slot); j < |s.n| && s.n[j] == Blank(s.o[i])
  {
    hide Dir.NameAt, Dir.Mirror, Layout, NameSorted, Blanks, Ones, PosOfSlot;
    var j := InNameArray(s, i);
    PosOfSlotIs(s.n, j);
  }

  lemma ListedDropped(o: seq<Entry>, dir: seq<byte>, k: nat, i: nat)
    requires Listed(o, dir, k) && i < |o|
    ensures Listed(Removed(o, i), Dir.ClearRecord(dir, o[i].slot), k)
  {
    hide Dir.NameAt, Dir.OffsetAt, Dir.LengthAt, Dir.ClearRecord;
    var o', dir' := Removed(o, i), Dir.ClearRecord(dir, o[i].slot);
    forall x | 0 <= x < |o'| ensures Dir.Mirror(dir', o'[x]) {
      Dir.AfterClear(dir, o[i].slot, o'[x].slot);
    }
  }

  lemma IndexedDropped(n: seq<Entry>, dir: seq<byte>, slots: seq<byte>, j: nat)
    requires Indexed(n, dir, slots) && META_LEN * |slots| <= |dir| && j < |n|
    ensures Indexed(Removed(n, j), Dir.ClearRecord(dir, n[j].slot), slots[n[j].slot := 0])
  {
    hide Dir.NameAt, Dir.OffsetAt, Dir.LengthAt, Dir.ClearRecord, IsName, NameSorted, Ones;
    MarkedRemoved(n, slots, j);
    var slot := n[j].slot;
    var n', dir' := Removed(n, j), Dir.ClearRecord(dir, slot);
    RemoveByName(n, j);
    forall k | 0 <= k < |slots| ensures Dir.NameAt(dir', k) == if k == slot then [] else Dir.NameAt(dir, k) {
      Dir.AfterClear(dir, slot, k);
    }
  }

  lemma DeleteKeepsInv(s: State, filename: seq<byte>)
    requires Inv(s) && Lookup(s, filename) >= 0
    ensures var (s', code) := Delete(s, filename);
            && code == 0 && Inv(s') && (Stable(s.o) ==> Stable(s'.o))
            && s'.o == Removed(s.o, Lookup(s, filename))
            && Elems(s'.n) == Elems(s.n) - {Blank(s.o[Lookup(s, filename)])}
  {
    hide Dir.NameAt, Dir.Mirror, Dir.ClearRecord, Layout, Stable, Listed, Indexed, Blanks, SumTo, PosOfSlot, Lookup;
    var i := Lookup(s, filename);
    var e := s.o[i];
    NamePosition(s, i);
    var j := PosOfSlot(s.n, e.slot);
    UsedSlot(s, i);
    RemoveKeepsLayout(s.o, |s.data|, i);
    ListedDropped(s.o, s.dir, |s.slots|, i);
    IndexedDropped(s.n, s.dir, s.slots, j);
    DistinctOf(s);
    BlanksOfRemoved(s.o, i);
    ElemsOfRemoved(s.n, j);
  }

  lemma DistinctOf(s: State)
    requires Inv(s)
    ensures DistinctSlots(s.o) && DistinctSlots(s.n)
  {
  }

  // Renaming

  lemma ListedRenamed(o: seq<Entry>, dir: seq<byte>, k: nat, i: nat, name: seq<byte>)
    requires Listed(o, dir, k) && i < |o| && IsName(name)
    ensures var e := o[i].(name := name); Listed(o[i := e], Dir.SetName(dir, e), k)
  {
    hide Dir.NameAt, Dir.OffsetAt, Dir.LengthAt, Dir.SetName, IsName;
    var e := o[i].(name := name);
    var o', dir' := o[i := e], Dir.SetName(dir, e);
    forall x | 0 <= x < |o'| ensures Dir.Mirror(dir', o'[x]) {
      Dir.AfterSetName(dir, e, o[x].slot);
    }
  }

  lemma BlanksOfRenamed(o: seq<Entry>, i: nat, e: Entry)
    requires DistinctSlots(o) && i < |o| && e.slot == o[i].slot
    ensures Blanks(o[i := e]) == Blanks(o) - {Blank(o[i])} + {Blank(e)}
  {
    var o' := o[i := e];
    assert o'[i] == e;
    forall k | 0 <= k < |o| && k != i ensures Blank(o[k]) in Blanks(o') && Blank(o[k]) != Blank(o[i]) {
      assert o'[k] == o[k];
    }
  }

  lemma ElemsOfRenamed(n: seq<Entry>, j: nat, e: Entry)
    requires DistinctSlots(n) && j < |n| && e.slot == n[j].slot
    ensures Elems(n[j := e]) == Elems(n) - {n[j]} + {e}
  {
    var n' := n[j := e];
    assert n'[j] == e;
    forall k | 0 <= k < |n| && k != j ensures n[k] in Elems(n') && n[k] != n[j] {
      assert n'[k] == n[k];
    }
  }

  lemma IndexedRenamed(n: seq<Entry>, dir: seq<byte>, slots: seq<byte>, j: nat, e: Entry)
    requires Indexed(n, dir, slots) && META_LEN * |slots| <= |dir| && j < |n|
    requires e.slot == n[j].slot && IsName(e.name) && e.name != [] && BetweenNeighbours(n, j, e.name)
    ensures Indexed(n[j := Blank(e)], Dir.SetName(dir, e), slots)
  {
    hide Dir.NameAt, Dir.OffsetAt, Dir.LengthAt, Dir.SetName, IsName, NameSorted, BetweenNeighbours, Ones;
    MarkedRenamed(n, slots, j, Blank(e));
    var n', dir' := n[j := Blank(e)], Dir.SetName(dir, e);
    SortedAfterRenameIff(n, j, Blank(e));
    forall k | 0 <= k < |slots| && slots[k] == 0 ensures Dir.NameAt(dir', k) == Dir.NameAt(dir, k) {
      assert HasSlot(n, n[j].slot);
      Dir.AfterSetName(dir, e, k);
    }
  }

  lemma RenamedLayout(o: seq<Entry>, cap: nat, i: nat, name: seq<byte>)
    requires Layout(o, cap) && i < |o|
    ensures var o' := o[i := o[i].(name := name)];
            Layout(o', cap) && (Stable(o) ==> Stable(o')) && Sum(o') == Sum(o)
  {
    var o' := o[i := o[i].(name := name)];
    SumOfUpdated(o, i, o'[i], |o|);
    forall k | 0 <= k < |o| ensures Placed(o'[k], cap) {
      assert Placed(o[k], cap);
    }
    forall k, m | 0 <= k < m < |o| ensures Before(o'[k], o'[m]) {
      assert Before(o[k], o[m]);
    }
  }

  /** A new name between its neighbours keeps the invariant. */
  lemma RenameKeepsInv(s: State, i: nat, name: seq<byte>)
    requires Inv(s) && i < |s.o| && IsName(name) && name != []
    requires BetweenNeighbours(s.n, PosOfSlot(s.n, s.o[i].slot), name)
    ensures var e := s.o[i].(name := name);
            var j := PosOfSlot(s.n, e.slot);
            && j < |s.n|
            && var s' := s.(o := s.o[i := e], n := s.n[j := Blank(e)], dir := Dir.SetName(s.dir, e));
               Inv(s') && (Stable(s.o) ==> Stable(s'.o))
  {
    hide Dir.NameAt, Dir.Mirror, Dir.SetName, Layout, Stable, Listed, Indexed, Blanks, SumTo, PosOfSlot, IsName,
      BetweenNeighbours;
    NamePosition(s, i);
    var j := PosOfSlot(s.n, s.o[i].slot);
    var e := s.o[i].(name := name);
    ListedRenamed(s.o, s.dir, |s.slots|, i, name);
    IndexedRenamed(s.n, s.dir, s.slots, j, e) by {
      DirHoldsSlots(s);
    }
    RenamedLayout(s.o, |s.data|, i, name);
    DistinctOf(s);
    BlanksOfRenamed(s.o, i, e);
    ElemsOfRenamed(s.n, j, Blank(e));
    assert s.(o := s.o[i := e], n := s.n[j := Blank(e)], dir := Dir.SetName(s.dir, e)).Leaf() == s.Leaf();
  }

  lemma DirHoldsSlots(s: State)
    requires Inv(s)
    ensures META_LEN * |s.slots| <= |s.dir|
  {
  }
}
