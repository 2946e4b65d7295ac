// init_fs from any state with the invariant: the scan of dir_table recovers the files.
module Loading {
  import opened Structs
  import opened Bytes
  import opened Search
  import opened Model
  import opened Layouts
  import opened Placements
  import opened Invariants
  import opened Membership
  import opened Stores
  import opened Refinement
  import opened Abstraction
  import HashTree
  import Dir = Directory

  // The scan

  /** Empty files are loaded at 2^32. */
  function Norm(e: Entry): Entry {
    if e.length == 0 then e.(offset := MAX_FILE_DATA_LEN) else e
  }

  ghost predicate Recovers(s: State, e: Entry) {
    exists j :: 0 <= j < |s.o| && e == Norm(s.o[j])
  }

  /** State t holds the files of s in the slots below i. */
  ghost predicate LoadedTo(s: State, t: State, i: nat) {
    && t.data == s.data && t.dir == s.dir && t.hash == s.hash
    && |t.slots| == |s.slots| && (forall k :: 0 <= k < |s.slots| ==> t.slots[k] == if k < i then s.slots[k] else 0)
    && Layout(t.o, |s.data|) && Stable(t.o) && DistinctSlots(t.o)
    && Linked(t.o, t.n) && Keyed(t.n, t.slots)
    && t.used == Sum(t.o) && t.count == |t.o|
    && (forall k :: 0 <= k < |t.o| ==> t.o[k].slot < i && Recovers(s, t.o[k]))
  }

  lemma SlotHolder(s: State, i: nat) returns (j: nat)
    requires Inv(s) && i < |s.slots| && s.slots[i] != 0
    ensures j < |s.o| && s.o[j].slot == i
  {
    hide Layout, Listed, NameSorted, Ones;
    assert HasSlot(s.n, i);
    var m :| 0 <= m < |s.n| && s.n[m].slot == i;
    j := InOffsetArray(s, m);
  }

  /** The scan reads back the file of a used slot, with an empty file at 2^32. */
  lemma LoadedEntryIs(s: State, j: nat)
    requires Inv(s) && j < |s.o|
    ensures LoadedEntry(s.dir, s.o[j].slot) == Norm(s.o[j])
    ensures s.o[j].name != [] && IsName(s.o[j].name) && s.o[j].slot < |s.slots|
  {
    hide Dir.NameAt, Dir.OffsetAt, Dir.LengthAt, NameSorted, Ones, IsName;
    assert Dir.Mirror(s.dir, s.o[j]);
    assert Placed(s.o[j], |s.data|);
    var m := InNameArray(s, j);
  }

  lemma RoomForNorm(s: State, o: seq<Entry>, j: nat)
    requires Inv(s) && j < |s.o| && s.o[j].length > 0
    requires forall k :: 0 <= k < |o| ==> o[k].slot != s.o[j].slot && Recovers(s, o[k])
    ensures Room(o, s.o[j]) && End(s.o[j]) <= |s.data|
  {
    hide Listed, Linked, Indexed;
    var e := s.o[j];
    assert Placed(e, |s.data|);
    forall k | 0 <= k < |o| ensures Before(o[k], e) || Before(e, o[k]) {
      var m :| 0 <= m < |s.o| && o[k] == Norm(s.o[m]);
      if m < j {
        assert Before(s.o[m], s.o[j]);
      } else {
        assert Before(s.o[j], s.o[m]);
      }
    }
  }

  lemma NormNamesDiffer(s: State, t: State, j: nat)
    requires Inv(s) && j < |s.o| && Linked(t.o, t.n)
    requires forall k :: 0 <= k < |t.o| ==> t.o[k].slot != s.o[j].slot && Recovers(s, t.o[k])
    ensures forall k :: 0 <= k < |t.n| ==> t.n[k].name != s.o[j].name
  {
    hide Layout, Listed, Indexed, Stable;
    forall k | 0 <= k < |t.n| ensures t.n[k].name != s.o[j].name {
      var q := InOffsetArray(t, k);
      var m :| 0 <= m < |s.o| && t.o[q] == Norm(s.o[m]);
      if s.o[m].name == s.o[j].name {
        NamesDistinct(s, m, j);
      }
    }
  }

  lemma LoadStep(s: State, t: State, i: nat)
    requires Inv(s) && LoadedTo(s, t, i) && i < |s.slots|
    ensures LoadedTo(s, LoadSlot(t, i), i + 1)
  {
    hide Dir.NameAt, Layout, Stable, Listed, NameSorted, Keyed, GetIndex, SumTo, Blanks, IsName, InsertEntry, InsertName,
      LoadedEntry, Recovers, DistinctSlots, Room;
    var t' := LoadSlot(t, i);
    if s.slots[i] == 0 {
      assert Dir.NameAt(s.dir, i) == [];
      assert t' == t;
    } else {
      var j := SlotHolder(s, i);
      LoadedEntryIs(s, j);
      UsedSlot(s, j);
      var e := Norm(s.o[j]);
      assert Dir.NameAt(s.dir, i) == e.name by {
        LoadedName(s, j);
      }
      NormNamesDiffer(s, t, j);
      KeyedAdded(t.n, t.slots, e);
      var p := LoadInsert(s, t, j);
      var q := GetIndex(e, t.n, NAME, true);
      SumOfInserted(t.o, p, e);
      BlanksOfInserted(t.o, p, e);
      ElemsOfInserted(t.n, q, Blank(e));
      forall k | 0 <= k < |t'.o| ensures t'.o[k].slot < i + 1 && Recovers(s, t'.o[k]) {
        if k == p {
          RecoversNorm(s, j);
        }
      }
    }
  }

  lemma RecoversNorm(s: State, j: nat)
    requires j < |s.o|
    ensures Recovers(s, Norm(s.o[j]))
  {
  }

  lemma LoadedName(s: State, j: nat)
    requires Inv(s) && j < |s.o|
    ensures Dir.NameAt(s.dir, s.o[j].slot) == s.o[j].name
  {
    assert Dir.Mirror(s.dir, s.o[j]);
  }

  /** The recovered file goes into the offset array, where it has room. */
  lemma LoadInsert(s: State, t: State, j: nat) returns (p: nat)
    requires Inv(s) && j < |s.o| && Layout(t.o, |s.data|) && Stable(t.o) && DistinctSlots(t.o)
    requires forall k :: 0 <= k < |t.o| ==> t.o[k].slot != s.o[j].slot && Recovers(s, t.o[k])
    ensures var e := Norm(s.o[j]);
            && p <= |t.o| && InsertEntry(t.o, e) == Inserted(t.o, p, e)
            && Layout(InsertEntry(t.o, e), |s.data|) && Stable(InsertEntry(t.o, e)) && DistinctSlots(InsertEntry(t.o, e))
  {
    hide Layout, Stable, Listed, Linked, Indexed, GetIndex, Recovers;
    var e := Norm(s.o[j]);
    if e.length == 0 {
      InsertEmpty(t.o, |s.data|, e);
      p := |t.o|;
    } else {
      RoomForNorm(s, t.o, j);
      InsertNonEmpty(t.o, |s.data|, e);
      p := GetIndex(e, t.o, OFFSET, true);
    }
  }

  lemma {:induction false} LoadFromRecovers(s: State, t: State, i: nat)
    requires Inv(s) && LoadedTo(s, t, i) && i <= |s.slots|
    ensures LoadedTo(s, LoadFrom(t, i), |s.slots|)
    decreases |s.slots| - i
  {
    hide LoadSlot, LoadedTo, Inv;
    LoadedSize(s, t, i);
    if i < |s.slots| {
      LoadStep(s, t, i);
      LoadFromRecovers(s, LoadSlot(t, i), i + 1);
    }
  }

  lemma LoadedSize(s: State, t: State, i: nat)
    requires LoadedTo(s, t, i)
    ensures |t.slots| == |s.slots|
  {
  }

  lemma NothingLoaded(s: State)
    requires Inv(s)
    ensures LoadedTo(s, Unloaded(s.data, s.dir, s.hash), 0)
  {
    hide Listed, Indexed, Ones;
    NoOnes(Zeros(|s.dir| / META_LEN));
    assert Linked([], []);
  }

  lemma {:induction false} NoOnes(slots: seq<byte>)
    requires forall k :: 0 <= k < |slots| ==> slots[k] == 0
    ensures Ones(slots) == 0
  {
    if |slots| > 0 {
      NoOnes(slots[..|slots| - 1]);
    }
  }

  /** Storing and loading: scanning the directory of any state that keeps the invariant recovers exactly
      its files, with empty ones at 2^32, in sorted arrays, and stands for the same map. */
  lemma LoadRoundTrip(s: State, st: Store)
    requires Represents(s, st)
    ensures var t := Load(s.data, s.dir, s.hash);
            && Represents(t, st) && Stable(t.o) && t.slots == s.slots && t.data == s.data && t.dir == s.dir && t.hash == s.hash
            && (forall k :: 0 <= k < |t.o| ==> Recovers(s, t.o[k]))
            && (forall j :: 0 <= j < |s.o| ==> Norm(s.o[j]) in t.o)
  {
    hide LoadFrom, Layout, Listed, Keyed, Linked, TotalSize, Stable, Recovers, HasName, Contents;
    var t := Load(s.data, s.dir, s.hash);
    NothingLoaded(s);
    LoadFromRecovers(s, Unloaded(s.data, s.dir, s.hash), 0);
    assert t.slots == s.slots;
    LoadedInv(s, t);
    forall j | 0 <= j < |s.o| ensures Norm(s.o[j]) in t.o {
      var k := RecoveredAt(s, t, j);
    }
    LoadedContents(s, t, st.files);
    forall x ensures HasName(t.n, x) <==> HasName(s.n, x) {
      LoadedNames(s, t, x);
    }
    AccountsOf(t, st.files);
  }

  lemma RecoveredAt(s: State, t: State, j: nat) returns (k: nat)
    requires Inv(s) && LoadedTo(s, t, |s.slots|) && j < |s.o|
    ensures k < |t.o| && t.o[k] == Norm(s.o[j])
  {
    hide Layout, NameSorted, Ones, Stable, Dir.Mirror, SumTo;
    UsedSlot(s, j);
    var slot := s.o[j].slot;
    assert t.slots[slot] == 1 && HasSlot(t.n, slot);
    var m :| 0 <= m < |t.n| && t.n[m].slot == slot;
    k := InOffsetArray(t, m);
    var j' :| 0 <= j' < |s.o| && t.o[k] == Norm(s.o[j']);
    assert s.o[j'].slot == slot;
    assert j' == j;
  }

  lemma LoadedInv(s: State, t: State)
    requires Inv(s) && LoadedTo(s, t, |s.slots|) && t.slots == s.slots
    ensures Inv(t)
  {
    hide Layout, Keyed, Linked, Dir.NameAt, Dir.OffsetAt, Dir.LengthAt, SumTo;
    forall k | 0 <= k < |t.o| ensures Dir.Mirror(t.dir, t.o[k]) {
      var j :| 0 <= j < |s.o| && t.o[k] == Norm(s.o[j]);
      assert Dir.Mirror(s.dir, s.o[j]);
    }
    assert t.Leaf() == s.Leaf();
  }

  lemma LoadedContents(s: State, t: State, files: Files)
    requires LoadedTo(s, t, |s.slots|) && Contents(s.o, s.data, files)
    ensures Contents(t.o, t.data, files)
  {
    hide Layout, Keyed, Linked, Content, Stable, DistinctSlots;
    forall k | 0 <= k < |t.o| ensures t.o[k].name in files && files[t.o[k].name] == Content(t.data, t.o[k]) {
      var j :| 0 <= j < |s.o| && t.o[k] == Norm(s.o[j]);
      if s.o[j].length == 0 {
        EmptyContent(s.data, t.data, s.o[j], t.o[k]);
      }
    }
  }

  lemma LoadedNames(s: State, t: State, x: seq<byte>)
    requires Inv(s) && LoadedTo(s, t, |s.slots|)
    ensures HasName(t.n, x) <==> HasName(s.n, x)
  {
    hide Layout, Keyed, Listed, Indexed, Stable, DistinctSlots, SumTo;
    if HasName(t.n, x) {
      var m :| 0 <= m < |t.n| && t.n[m].name == x;
      var k := InOffsetArray(t, m);
      var j :| 0 <= j < |s.o| && t.o[k] == Norm(s.o[j]);
      var q := InNameArray(s, j);
      assert s.n[q].name == x;
    }
    if HasName(s.n, x) {
      var m :| 0 <= m < |s.n| && s.n[m].name == x;
      var j := InOffsetArray(s, m);
      var k := RecoveredAt(s, t, j);
      var q := InNameArray(t, k);
      assert t.n[q].name == x;
    }
  }

  // A directory without files

  lemma {:induction false} LoadNothing(s: State, i: nat)
    requires forall k :: i <= k < |s.slots| ==> Dir.NameAt(s.dir, k) == []
    ensures LoadFrom(s, i) == s
    decreases |s.slots| - i
  {
    hide Dir.NameAt;
    if i < |s.slots| {
      LoadNothing(s, i + 1);
    }
  }

  /** With an empty directory, init_fs starts from the empty map. */
  lemma LoadEmpty(data: seq<byte>, dir: seq<byte>, hash: seq<byte>)
    requires |data| <= 0x8000_0000 && HashTree.Sized(data, hash, |hash| / HASH_LEN / 2)
    requires |dir| / META_LEN <= MAX_NUM_FILES && forall k: nat :: k < |dir| / META_LEN ==> Dir.NameAt(dir, k) == []
    ensures Represents(Load(data, dir, hash), Store(map[], |data|, |dir| / META_LEN))
  {
    hide Dir.NameAt, Ones, TotalSize;
    var s := Unloaded(data, dir, hash);
    LoadNothing(s, 0);
    NoOnes(s.slots);
    TotalOfNothing();
    assert Linked([], []);
  }
}
