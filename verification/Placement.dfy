// Where new_file_offset puts a file, and what inserting, growing and removing
// entries does to the layout.
module Placements {
  import opened Structs
  import opened Search
  import opened Model
  import opened Layouts

  lemma {:induction false} NextNonzeroIs(o: seq<Entry>, cap: nat, i: nat)
    requires Layout(o, cap) && i <= |o|
    ensures var r := NextNonzero(o, i);
            && (forall k :: i <= k < r ==> o[k].length == 0)
            && (r < |o| ==> o[r].offset < MAX_FILE_DATA_LEN)
    decreases |o| - i
  {
    if i < |o| {
      if o[i].offset >= MAX_FILE_DATA_LEN {
        forall k | i <= k < |o| ensures o[k].length == 0 {
          TailIsEmpty(o, cap, i, k);
        }
      } else if o[i].length == 0 {
        NextNonzeroIs(o, cap, i + 1);
      }
    }
  }

  /** A file of the given length at x would lie inside the store and between its non-empty files. */
  ghost predicate Fits(o: seq<Entry>, cap: nat, x: nat, length: nat) {
    x + length <= cap && forall i :: 0 <= i < |o| && o[i].length > 0 ==> End(o[i]) <= x || x + length <= o[i].offset
  }

  lemma NotFitting(o: seq<Entry>, cap: nat, x: nat, length: nat, i: nat)
    requires i < |o| && o[i].length > 0 && x < End(o[i]) && o[i].offset < x + length
    ensures !Fits(o, cap, x, length)
  {
  }

  lemma Minus64Exact(x: nat, y: nat)
    requires y <= x < 0x1_0000_0000_0000_0000
    ensures Minus64(x, y) == x - y
  {
  }

  /** The end of the file at p is free up to the next non-empty file at c (or the end of the store). */
  lemma GapFits(o: seq<Entry>, cap: nat, length: nat, p: nat, c: nat)
    requires Layout(o, cap) && p < c <= |o| && o[p].length > 0
    requires forall k :: p < k < c ==> o[k].length == 0
    requires End(o[p]) + length <= if c < |o| then o[c].offset else cap
    requires c < |o| ==> o[c].offset <= cap
    ensures Fits(o, cap, End(o[p]), length)
  {
    forall i | 0 <= i < |o| && o[i].length > 0 ensures End(o[i]) <= End(o[p]) || End(o[p]) + length <= o[i].offset {
      if i < p {
        assert Before(o[i], o[p]);
      } else if i > c {
        assert Before(o[c], o[i]);
      }
    }
  }

  /** From a file before whose end nothing fits, the scan returns the first place that fits, or -1 if there is none. */
  lemma {:induction false} FirstGapIsFirst(o: seq<Entry>, cap: nat, length: nat, p: nat)
    requires Layout(o, cap) && p < |o| && o[p].length > 0 && length > 0
    requires forall x: nat :: x < End(o[p]) ==> !Fits(o, cap, x, length)
    ensures var r := FirstGap(o, cap, length, p);
            && (r >= 0 ==> Fits(o, cap, r, length))
            && (forall x: nat :: r < 0 || x < r ==> !Fits(o, cap, x, length))
    decreases |o| - p
  {
    hide Fits, Minus64;
    var c := NextNonzero(o, p + 1);
    NextNonzeroIs(o, cap, p + 1);
    assert Placed(o[p], cap);
    if c == |o| {
      Minus64Exact(cap, End(o[p]));
      if cap - End(o[p]) >= length {
        GapFits(o, cap, length, p, c);
      } else {
        forall x: nat | End(o[p]) <= x ensures !Fits(o, cap, x, length) {
          BeyondStore(o, cap, x, length);
        }
      }
    } else {
      assert Before(o[p], o[c]) && Placed(o[c], cap);
      Minus64Exact(o[c].offset, End(o[p]));
      if o[c].offset - End(o[p]) >= length {
        GapFits(o, cap, length, p, c);
      } else {
        forall x: nat | x < End(o[c]) ensures !Fits(o, cap, x, length) {
          if End(o[p]) <= x {
            NotFitting(o, cap, x, length, c);
          }
        }
        FirstGapIsFirst(o, cap, length, c);
      }
    }
  }

  lemma BeyondStore(o: seq<Entry>, cap: nat, x: nat, length: nat)
    requires x + length > cap
    ensures !Fits(o, cap, x, length)
  {
  }

  /** new_file_offset finds the smallest offset at which the length fits between the non-empty files;
      it considers a repack only when there is no such offset. */
  lemma FreeOffsetIsFirst(o: seq<Entry>, cap: nat, length: nat)
    requires Layout(o, cap) && 0 < length <= cap
    ensures var r := FreeOffset(o, cap, length);
            && (r >= 0 ==> Fits(o, cap, r, length))
            && (forall x: nat :: r < 0 || x < r ==> !Fits(o, cap, x, length))
  {
    var f := NextNonzero(o, 0);
    NextNonzeroIs(o, cap, 0);
    if f == |o| || o[f].offset >= length {
      forall i | 0 <= i < |o| && o[i].length > 0 ensures length <= o[i].offset {
        if f < i {
          assert Before(o[f], o[i]);
        }
      }
      assert Fits(o, cap, 0, length);
    } else {
      forall x: nat | x < End(o[f]) ensures !Fits(o, cap, x, length) {
        NotFitting(o, cap, x, length, f);
      }
      FirstGapIsFirst(o, cap, length, f);
    }
  }

  /** A length that passes the capacity check always gets a place: either the first that fits, or, after
      a repack that moved some file, the byte after the last file. Fragmentation alone fails no creation. */
  lemma NewOffsetFits(s: State, length: nat)
    requires Layout(s.o, |s.data|) && s.used == Sum(s.o)
    requires length > 0 && s.used + length <= |s.data|
    ensures var p := NewOffset(s, length);
            && Fits(p.s.o, |s.data|, p.offset, length)
            && (if exists x: nat :: Fits(s.o, |s.data|, x, length) then
                  p.s == s && p.h == -1 && forall x: nat :: Fits(s.o, |s.data|, x, length) ==> p.offset <= x
                else
                  p.s == Repack(s).0 && p.h == Repack(s).1 && p.h >= 0 && p.offset == s.used)
  {
    hide Repack, FreeOffset, Content;
    var o, cap := s.o, |s.data|;
    FreeOffsetIsFirst(o, cap, length);
    if FreeOffset(o, cap, length) < 0 {
      var (s', h) := Repack(s);
      RepackIsExact(s);
      if s.used == 0 {
        NothingInTheWay(o, cap, length);
      }
      assert s.used > 0;
      forall i | 0 <= i < |o| && o[i].length > 0 ensures End(s'.o[i]) <= Sum(o) {
        CompactedEnds(o, s'.o, cap, i);
      }
      assert !Fits(o, cap, Sum(o), length);
    }
  }

  lemma NothingInTheWay(o: seq<Entry>, cap: nat, length: nat)
    requires Layout(o, cap) && Sum(o) == 0 && length <= cap
    ensures Fits(o, cap, 0, length)
  {
    forall i | 0 <= i < |o| ensures o[i].length == 0 {
      SumToGrows(o, i + 1, |o|);
    }
  }

  // Inserting an entry

  /** Every entry ends before e or begins after it. */
  ghost predicate Room(o: seq<Entry>, e: Entry) {
    forall i :: 0 <= i < |o| ==> Before(o[i], e) || Before(e, o[i])
  }

  /** In a laid out array the signs of any key below 2^32 are monotone, empty files included. */
  lemma OffsetSignsMonotone(key: Entry, o: seq<Entry>, cap: nat)
    requires Layout(o, cap)
    ensures Monotone(Signs(key, o, OFFSET))
  {
    forall i, j | 0 <= i < j < |o| && CmpKey(key, o[i], OFFSET) <= 0 ensures CmpKey(key, o[j], OFFSET) < 0 {
      assert Before(o[i], o[j]);
    }
  }

  /** The search and a linear scan put a non-empty file at the same place of a laid out array. */
  lemma OffsetSearchIsLinear(key: Entry, o: seq<Entry>, cap: nat, insert: bool)
    requires Layout(o, cap) && (insert ==> key.length > 0)
    ensures GetIndex(key, o, OFFSET, insert) == LinearSearch(Signs(key, o, OFFSET), insert)
  {
    OffsetSignsMonotone(key, o, cap);
    GetIndexIsLinear(key, o, OFFSET, insert);
  }

  /** Among entries at its own offset, which are empty, a non-empty file goes behind those below 2^32 and in front
      of those at 2^32. */
  lemma AmongEmpties(o: seq<Entry>, cap: nat, e: Entry, i: nat)
    requires Layout(o, cap) && e.length > 0 && i < |o| && o[i].offset == e.offset
    requires GetIndex(e, o, OFFSET, true) >= 0
    ensures o[i].length == 0
    ensures i < GetIndex(e, o, OFFSET, true) <==> e.offset < 0x1_0000_0000
  {
    hide BinarySearch;
    OffsetSignsMonotone(e, o, cap);
    OffsetSearchIsLinear(e, o, cap, true);
    assert Placed(o[i], cap);
    var signs := Signs(e, o, OFFSET);
    var p := FirstNotBelow(signs);
    if p < i {
      assert signs[p] <= 0 && signs[i] < 0;
    }
  }

  /** A non-empty file with room is inserted after exactly the entries that end before it. */
  lemma InsertionPoint(o: seq<Entry>, cap: nat, e: Entry)
    requires Layout(o, cap) && e.length > 0 && End(e) <= cap && Room(o, e)
    ensures var p := GetIndex(e, o, OFFSET, true);
            && 0 <= p
            && (forall i :: 0 <= i < p ==> Before(o[i], e))
            && (forall i :: p <= i < |o| ==> Before(e, o[i]))
  {
    hide BinarySearch;
    OffsetSearchIsLinear(e, o, cap, true);
    var signs := Signs(e, o, OFFSET);
    var p := FirstNotBelow(signs);
    forall i | 0 <= i < |o|
      ensures signs[i] != 0
      ensures signs[i] > 0 ==> Before(o[i], e)
      ensures signs[i] < 0 ==> Before(e, o[i])
    {
      assert Before(o[i], e) || Before(e, o[i]);
    }
    OffsetSignsMonotone(e, o, cap);
    assert forall i :: p < i < |o| ==> signs[i] < 0;
  }

  /** Unless it finds its key taken, inserting a non-empty file keeps the layout exactly when there is room for it. */
  lemma InsertKeepsLayoutIff(o: seq<Entry>, cap: nat, e: Entry)
    requires Layout(o, cap) && e.length > 0 && End(e) <= cap
    requires GetIndex(e, o, OFFSET, true) >= 0
    ensures Layout(InsertEntry(o, e), cap) <==> Room(o, e)
  {
    hide GetIndex;
    var p := GetIndex(e, o, OFFSET, true);
    var o' := Inserted(o, p, e);
    if Room(o, e) {
      InsertionPoint(o, cap, e);
    }
    if Layout(o', cap) {
      forall i | 0 <= i < |o| ensures Before(o[i], e) || Before(e, o[i]) {
        assert o'[p] == e && o'[if i < p then i else i + 1] == o[i];
      }
    }
  }

  /** A place that fits between the non-empty files starts where no non-empty file does. */
  lemma PlacedIndex(o: seq<Entry>, cap: nat, e: Entry)
    requires Layout(o, cap) && (e.length > 0 ==> Fits(o, cap, e.offset, e.length))
    ensures GetIndex(e, o, OFFSET, true) >= 0
    ensures e.length > 0 ==> End(e) <= cap
  {
    if e.length > 0 {
      OffsetSearchIsLinear(e, o, cap, true);
      var signs := Signs(e, o, OFFSET);
      var q := FirstNotBelow(signs);
      if q < |o| {
        assert signs[q] == CmpKey(e, o[q], OFFSET) != 0;
      }
    }
  }

  /** A new empty file goes to the end of the array. */
  lemma InsertEmpty(o: seq<Entry>, cap: nat, e: Entry)
    requires Layout(o, cap) && e.length == 0 && e.offset == MAX_FILE_DATA_LEN
    ensures GetIndex(e, o, OFFSET, true) == |o|
    ensures InsertEntry(o, e) == Inserted(o, |o|, e) && Layout(InsertEntry(o, e), cap)
    ensures Stable(o) ==> Stable(InsertEntry(o, e))
  {
    assert GetIndex(e, o, OFFSET, true) == |o|;
    forall i | 0 <= i < |o| ensures Before(o[i], e) {
      assert Placed(o[i], cap);
    }
  }

  /** No empty file lies strictly inside the bytes from x on. */
  ghost predicate NoEmptyInside(o: seq<Entry>, x: nat, length: nat) {
    forall i :: 0 <= i < |o| && o[i].length == 0 ==> o[i].offset <= x || x + length <= o[i].offset
  }

  /** A place between the non-empty files has room exactly when no empty file lies inside it. */
  lemma RoomIffNoEmptyInside(o: seq<Entry>, cap: nat, e: Entry)
    requires Layout(o, cap) && e.length > 0 && Fits(o, cap, e.offset, e.length)
    ensures Room(o, e) <==> NoEmptyInside(o, e.offset, e.length)
    ensures End(e) <= cap
  {
  }

  /** With empty files only at 0 and 2^32, none lies inside any place in the store. */
  lemma StableNoEmptyInside(o: seq<Entry>, x: nat, length: nat)
    requires Stable(o) && x + length <= MAX_FILE_DATA_LEN
    ensures NoEmptyInside(o, x, length)
  {
  }

  /** Behind the files of a compacted store there is nothing up to 2^32. */
  lemma CompactedNoEmptyInside(o: seq<Entry>, o': seq<Entry>, cap: nat, length: nat)
    requires Layout(o, cap) && Compacted(o, o') && Sum(o) + length <= cap
    ensures NoEmptyInside(o', Sum(o), length)
  {
    hide SumTo;
    forall i | 0 <= i < |o'| && o'[i].length == 0
      ensures o'[i].offset <= Sum(o) || Sum(o) + length <= o'[i].offset
    {
      CompactedBelow(o, o', cap, i);
    }
  }

  lemma InsertNonEmpty(o: seq<Entry>, cap: nat, e: Entry)
    requires Layout(o, cap) && e.length > 0 && End(e) <= cap && Room(o, e)
    ensures var p := GetIndex(e, o, OFFSET, true);
            p >= 0 && InsertEntry(o, e) == Inserted(o, p, e)
    ensures Layout(InsertEntry(o, e), cap) && (Stable(o) ==> Stable(InsertEntry(o, e)))
  {
    hide GetIndex;
    InsertionPoint(o, cap, e);
    InsertKeepsLayoutIff(o, cap, e);
    var p := GetIndex(e, o, OFFSET, true);
    var o' := Inserted(o, p, e);
    forall i | 0 <= i < |o'| && o'[i].length == 0 && Stable(o)
      ensures o'[i].offset == MAX_FILE_DATA_LEN || (i == 0 && o'[i].offset == 0)
    {
      if i > p {
        assert o'[i] == o[i - 1] && Before(e, o[i - 1]);
      }
    }
  }

  lemma RemoveKeepsLayout(o: seq<Entry>, cap: nat, i: nat)
    requires Layout(o, cap) && i < |o|
    ensures Layout(Removed(o, i), cap)
    ensures Stable(o) ==> Stable(Removed(o, i))
    ensures Sum(Removed(o, i)) == Sum(o) - o[i].length
  {
    SumOfRemoved(o, i, |o|);
  }

  lemma {:induction false} SumOfRemoved(o: seq<Entry>, i: nat, k: nat)
    requires i < |o| && k <= |o|
    ensures k <= i ==> k <= |Removed(o, i)| && SumTo(Removed(o, i), k) == SumTo(o, k)
    ensures k > i ==> SumTo(Removed(o, i), k - 1) == SumTo(o, k) - o[i].length
  {
    if k > 0 {
      SumOfRemoved(o, i, k - 1);
    }
  }

  lemma SumOfInserted(o: seq<Entry>, p: nat, e: Entry)
    requires p <= |o|
    ensures Sum(Inserted(o, p, e)) == Sum(o) + e.length
  {
    var o' := Inserted(o, p, e);
    RemoveUndoesInsert(o, p, e);
    SumOfRemoved(o', p, |o'|);
  }

  lemma {:induction false} SumOfUpdated(o: seq<Entry>, p: nat, e: Entry, k: nat)
    requires p < |o| && k <= |o|
    ensures SumTo(o[p := e], k) == SumTo(o, k) + if k > p then e.length - o[p].length else 0
  {
    if k > 0 {
      SumOfUpdated(o, p, e, k - 1);
    }
  }

  /** A new length in place keeps the layout when the bytes up to the next entry or the end of the store allow it. */
  lemma LengthKeepsLayout(o: seq<Entry>, cap: nat, p: nat, length: nat)
    requires Layout(o, cap) && p < |o| && o[p].offset < MAX_FILE_DATA_LEN
    requires o[p].offset + length <= cap && forall j :: p < j < |o| ==> o[p].offset + length <= o[j].offset
    ensures Layout(o[p := o[p].(length := length)], cap)
    ensures Sum(o[p := o[p].(length := length)]) == Sum(o) + length - o[p].length
  {
    SumOfUpdated(o, p, o[p].(length := length), |o|);
    var o' := o[p := o[p].(length := length)];
    forall i, j | 0 <= i < j < |o'| ensures Before(o'[i], o'[j]) {
      assert Before(o[i], o[j]);
    }
  }
}
