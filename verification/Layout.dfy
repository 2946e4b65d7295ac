// Where files lie in file_data, and what compaction and placement do to it.
module Layouts {
  import opened Structs
  import opened Bytes
  import opened Search
  import opened Model
  import Dir = Directory

  /** In the store, or empty at 2^32. */
  predicate Placed(e: Entry, cap: nat) {
    (e.length == 0 && e.offset == MAX_FILE_DATA_LEN) || End(e) <= cap
  }

  predicate Before(a: Entry, b: Entry) {
    End(a) <= b.offset
  }

  /** Each file ends before the next begins, inside the store; a tail of empty files lies at 2^32. */
  ghost predicate Layout(o: seq<Entry>, cap: nat) {
    && cap < MAX_FILE_DATA_LEN
    && (forall i :: 0 <= i < |o| ==> Placed(o[i], cap))
    && (forall i, j :: 0 <= i < j < |o| ==> Before(o[i], o[j]))
  }

  /** Empty files lie at 2^32, except that the first one of the array may lie at 0. */
  ghost predicate Stable(o: seq<Entry>) {
    forall i :: 0 <= i < |o| && o[i].length == 0 ==> o[i].offset == MAX_FILE_DATA_LEN || (i == 0 && o[i].offset == 0)
  }

  /** The same for all files but the one in the given slot. */
  ghost predicate StableBut(o: seq<Entry>, slot: nat) {
    forall i :: 0 <= i < |o| && o[i].length == 0 && o[i].slot != slot
      ==> o[i].offset == MAX_FILE_DATA_LEN || (i == 0 && o[i].offset == 0)
  }

  /** The lengths of the first i files together. */
  function SumTo(o: seq<Entry>, i: nat): (r: nat)
    requires i <= |o|
  {
    if i == 0 then 0 else SumTo(o, i - 1) + o[i - 1].length
  }

  function Sum(o: seq<Entry>): nat { SumTo(o, |o|) }

  lemma {:induction false} SumToFits(o: seq<Entry>, cap: nat, i: nat)
    requires Layout(o, cap) && i <= |o|
    ensures SumTo(o, i) <= cap
    ensures i < |o| ==> SumTo(o, i) <= o[i].offset
  {
    if i > 0 {
      SumToFits(o, cap, i - 1);
      assert Placed(o[i - 1], cap);
      if i < |o| {
        assert Before(o[i - 1], o[i]);
      }
    }
  }

  lemma {:induction false} SumToGrows(o: seq<Entry>, i: nat, j: nat)
    requires i <= j <= |o|
    ensures SumTo(o, i) <= SumTo(o, j)
    decreases j
  {
    if i < j {
      SumToGrows(o, i, j - 1);
    }
  }

  // Compaction

  /** Entry j of o once the first i entries are packed. */
  function PackedEntry(o: seq<Entry>, i: nat, j: nat): Entry
    requires i <= |o| && j < |o|
  {
    if j < i then o[j].(offset := SumTo(o, j)) else o[j]
  }

  /** State s has the first i files of s0 packed to the left, and nothing else changed;
      h is the lowest byte written, or -1 when no byte was. */
  ghost predicate PackedTo(s0: State, s: State, i: nat, h: int)
  {
    && i <= |s0.o|
    && s == s0.(o := s.o, data := s.data, dir := s.dir)
    && |s.o| == |s0.o|
    && (forall j :: 0 <= j < |s.o| ==> s.o[j] == PackedEntry(s0.o, i, j))
    && (forall j :: 0 < j < i ==> s0.o[j].offset < MAX_FILE_DATA_LEN)
    && (forall j :: 0 <= j < i ==> Content(s.data, s.o[j]) == Content(s0.data, s0.o[j]))
    && -1 <= h <= SumTo(s0.o, i)
    && SameOutside(s0.data, s.data, if h < 0 then SumTo(s0.o, i) else h, SumTo(s0.o, i))
    && MovedFrom(s0.o, i, h)
  }

  /** Every non-empty one of the first i files already lies where packing puts it. */
  ghost predicate AlreadyPacked(o: seq<Entry>, i: nat)
    requires i <= |o|
  {
    forall j :: 0 <= j < i && o[j].length > 0 ==> o[j].offset == SumTo(o, j)
  }

  lemma AlreadyPackedNext(o: seq<Entry>, i: nat)
    requires i < |o|
    ensures AlreadyPacked(o, i + 1) <==> AlreadyPacked(o, i) && (o[i].length > 0 ==> o[i].offset == SumTo(o, i))
  {
  }

  /** File k is the first non-empty one that packing moves. */
  ghost predicate FirstMoved(o: seq<Entry>, k: nat)
    requires k < |o|
  {
    AlreadyPacked(o, k) && o[k].length > 0 && o[k].offset != SumTo(o, k)
  }

  /** The answer of repack_helper for the first i files: where the first non-empty one that moves goes to,
      which is the lowest byte written, or -1 when none of them moves. */
  ghost predicate MovedFrom(o: seq<Entry>, i: nat, h: int)
    requires i <= |o|
  {
    if AlreadyPacked(o, i) then h == -1 else exists k: nat :: k < i && FirstMoved(o, k) && h == SumTo(o, k)
  }

  /** There is only one such answer. */
  lemma MovedFromUnique(o: seq<Entry>, i: nat, h: int, h': int)
    requires i <= |o| && MovedFrom(o, i, h) && MovedFrom(o, i, h')
    ensures h == h'
  {
    hide SumTo;
    if !AlreadyPacked(o, i) {
      var k: nat :| k < i && FirstMoved(o, k) && h == SumTo(o, k);
      var k': nat :| k' < i && FirstMoved(o, k') && h' == SumTo(o, k');
      assert k == k';
    }
  }

  lemma MovedFromNext(o: seq<Entry>, i: nat, h: int)
    requires i < |o| && MovedFrom(o, i, h)
    ensures var moves := o[i].length > 0 && o[i].offset != SumTo(o, i);
            MovedFrom(o, i + 1, if h < 0 && moves then SumTo(o, i) else h)
  {
    hide SumTo, AlreadyPacked;
    AlreadyPackedNext(o, i);
    if AlreadyPacked(o, i) && o[i].length > 0 && o[i].offset != SumTo(o, i) {
      assert FirstMoved(o, i);
    }
  }

  /** Empty files behind the first i do not change the answer. */
  lemma {:induction false} MovedFromTail(o: seq<Entry>, i: nat, j: nat, h: int)
    requires i <= j <= |o| && MovedFrom(o, i, h) && forall k :: i <= k < j ==> o[k].length == 0
    ensures MovedFrom(o, j, h)
    decreases j
  {
    hide SumTo, MovedFrom;
    if i < j {
      MovedFromTail(o, i, j - 1, h);
      MovedFromNext(o, j - 1, h);
    }
  }

  /** What one iteration of repack_helper leaves, given where the previous file ends. */
  function PackOne(s: State, i: nat, end: nat, h: int): (State, int)
    requires i < |s.o|
  {
    if s.o[i].offset > end then (Move(s, i, end), if h < 0 && s.o[i].length != 0 then end else h) else (s, h)
  }

  lemma MovedContent(data: seq<byte>, e: Entry, to: nat)
    requires to <= e.offset && (e.length > 0 ==> End(e) <= |data|)
    ensures Content(MoveData(data, e, to), e.(offset := to)) == Content(data, e)
    ensures SameOutside(data, MoveData(data, e, to), to, to + e.length)
  {
  }

  lemma {:induction false} PackStep(s0: State, s: State, i: nat, h: int)
    requires Layout(s0.o, |s0.data|) && PackedTo(s0, s, i, h)
    requires i < |s0.o| && (i == 0 || s0.o[i].offset < MAX_FILE_DATA_LEN)
    ensures var (s', h') := PackOne(s, i, SumTo(s0.o, i), h); PackedTo(s0, s', i + 1, h')
  {
    hide Dir.SetOffset, Content, MoveData, SumTo, MovedFrom;
    MovedFromNext(s0.o, i, h);
    var e, at := s0.o[i], SumTo(s0.o, i);
    var (s', h') := PackOne(s, i, at, h);
    SumToFits(s0.o, |s0.data|, i);
    SumToNext(s0.o, i);
    assert Placed(e, |s0.data|) && s.o[i] == e;
    MovedContent(s.data, e, at);
    ContentSame(s0.data, s.data, if h < 0 then at else h, at, e);
    forall j | 0 <= j < i ensures Content(s'.data, s'.o[j]) == Content(s0.data, s0.o[j]) {
      SumToNext(s0.o, j);
      SumToGrows(s0.o, j + 1, i);
      ContentSame(s.data, s'.data, at, at + e.length, s.o[j]);
    }
  }

  lemma SumToNext(o: seq<Entry>, i: nat)
    requires i < |o|
    ensures SumTo(o, i + 1) == SumTo(o, i) + o[i].length
  {
  }

  lemma ContentSame(s: seq<byte>, t: seq<byte>, lo: int, hi: int, e: Entry)
    requires SameOutside(s, t, lo, hi)
    requires End(e) <= lo || hi <= e.offset
    ensures Content(t, e) == Content(s, e)
  {
    WindowSame(s, t, lo, hi, e.offset, e.length);
  }

  lemma {:induction false} RepackFromPacks(s0: State, s: State, i: nat, h: int) returns (p: nat)
    requires Layout(s0.o, |s0.data|) && PackedTo(s0, s, i, h) && 0 < i
    ensures i <= p <= |s0.o| && (p == |s0.o| || s0.o[p].offset >= MAX_FILE_DATA_LEN)
    ensures PackedTo(s0, RepackFrom(s, i, h).0, p, RepackFrom(s, i, h).1)
    decreases |s0.o| - i
  {
    hide Layout, Move, SumTo, Content, MovedFrom;
    if i == |s0.o| || s0.o[i].offset >= MAX_FILE_DATA_LEN {
      p := i;
    } else {
      SumToNext(s0.o, i - 1);
      var (s', h') := PackOne(s, i, SumTo(s0.o, i), h);
      PackStep(s0, s, i, h);
      p := RepackFromPacks(s0, s', i + 1, h');
    }
  }

  /** repack_helper packs the files up to the tail of empty files at 2^32, unless it returns at once. */
  lemma RepackPacks(s: State) returns (p: nat)
    requires Layout(s.o, |s.data|)
    ensures s.used <= 0 || |s.o| == 0 ==> Repack(s) == (s, -1)
    ensures s.used > 0 && |s.o| > 0 ==>
              && 0 < p <= |s.o| && (p == |s.o| || s.o[p].offset >= MAX_FILE_DATA_LEN)
              && PackedTo(s, Repack(s).0, p, Repack(s).1)
  {
    hide Layout, Move, Content, MoveData;
    p := 0;
    if s.used > 0 && |s.o| > 0 {
      assert PackedTo(s, s, 0, -1);
      var (s', h') := PackOne(s, 0, 0, -1);
      PackStep(s, s, 0, -1);
      p := RepackFromPacks(s, s', 1, h');
    }
  }

  lemma {:induction false} SumWithoutTail(o: seq<Entry>, cap: nat, p: nat, i: nat)
    requires Layout(o, cap) && p <= i <= |o|
    requires p == |o| || o[p].offset >= MAX_FILE_DATA_LEN
    ensures SumTo(o, i) == SumTo(o, p)
  {
    if p < i {
      SumWithoutTail(o, cap, p, i - 1);
      TailIsEmpty(o, cap, p, i - 1);
    }
  }

  lemma TailIsEmpty(o: seq<Entry>, cap: nat, p: nat, i: nat)
    requires Layout(o, cap) && p <= i < |o|
    requires o[p].offset >= MAX_FILE_DATA_LEN
    ensures o[i].length == 0 && o[i].offset == MAX_FILE_DATA_LEN
  {
    assert Placed(o[p], cap) && Placed(o[i], cap);
    if p < i {
      assert Before(o[p], o[i]);
    }
  }

  lemma NonEmptyInStore(o: seq<Entry>, cap: nat, i: nat)
    requires Layout(o, cap) && i < |o| && o[i].length > 0
    ensures o[i].offset < MAX_FILE_DATA_LEN && End(o[i]) <= cap
  {
    assert Placed(o[i], cap);
  }

  /** What a repack of the files o leaves as o': same files in the same order, packed to the left without gaps. */
  ghost predicate Compacted(o: seq<Entry>, o': seq<Entry>) {
    && |o'| == |o|
    && (forall i :: 0 <= i < |o| ==> o'[i] == o[i].(offset := o'[i].offset))
    && (forall i :: 0 <= i < |o| && (i == 0 || o[i].offset < MAX_FILE_DATA_LEN) ==> o'[i].offset == SumTo(o, i))
    && (forall i :: 0 < i < |o| && o[i].offset >= MAX_FILE_DATA_LEN ==> o'[i].offset == o[i].offset)
  }

  lemma PackedIsCompacted(s: State, s': State, p: nat, h: int)
    requires Layout(s.o, |s.data|) && PackedTo(s, s', p, h)
    requires 0 < p <= |s.o| && (p == |s.o| || s.o[p].offset >= MAX_FILE_DATA_LEN)
    ensures Compacted(s.o, s'.o)
  {
    hide SumTo, Content;
    forall i | 0 <= i < |s.o|
      ensures s'.o[i] == s.o[i].(offset := s'.o[i].offset)
      ensures i == 0 || s.o[i].offset < MAX_FILE_DATA_LEN ==> s'.o[i].offset == SumTo(s.o, i)
      ensures 0 < i && s.o[i].offset >= MAX_FILE_DATA_LEN ==> s'.o[i].offset == s.o[i].offset
    {
      assert s'.o[i] == PackedEntry(s.o, p, i);
      if p <= i {
        TailIsEmpty(s.o, |s.data|, p, i);
      }
    }
  }

  lemma {:induction false} CompactedSum(o: seq<Entry>, o': seq<Entry>, i: nat)
    requires Compacted(o, o') && i <= |o|
    ensures SumTo(o', i) == SumTo(o, i)
  {
    if i > 0 {
      CompactedSum(o, o', i - 1);
    }
  }

  lemma CompactedEnd(o: seq<Entry>, o': seq<Entry>, cap: nat, i: nat)
    requires Layout(o, cap) && Compacted(o, o') && i < |o|
    ensures o'[i].offset < MAX_FILE_DATA_LEN ==> o'[i].offset == SumTo(o, i) && End(o'[i]) == SumTo(o, i + 1)
    ensures o'[i].offset >= MAX_FILE_DATA_LEN ==> o'[i].offset == MAX_FILE_DATA_LEN && o'[i].length == 0
    ensures o[i].length > 0 ==> o'[i].offset < MAX_FILE_DATA_LEN
  {
    SumToFits(o, cap, i);
    assert Placed(o[i], cap);
  }

  lemma CompactedTail(o: seq<Entry>, o': seq<Entry>, cap: nat, i: nat)
    requires Layout(o, cap) && Compacted(o, o') && i < |o|
    ensures o'[i].offset >= MAX_FILE_DATA_LEN <==> i > 0 && o[i].offset >= MAX_FILE_DATA_LEN
    ensures i == 0 ==> o'[i].offset == 0
  {
    SumToFits(o, cap, i);
  }

  /** Compaction keeps the layout, and the first file that may be empty at 0. */
  lemma CompactedKeepsLayout(o: seq<Entry>, o': seq<Entry>, cap: nat)
    requires Layout(o, cap) && Compacted(o, o')
    ensures Layout(o', cap)
    ensures Stable(o) ==> Stable(o')
    ensures Sum(o') == Sum(o)
  {
    hide SumTo;
    CompactedSum(o, o', |o|);
    forall i | 0 <= i < |o| ensures Placed(o'[i], cap) && (i == 0 ==> o'[i].offset == 0) {
      CompactedEnd(o, o', cap, i);
      CompactedTail(o, o', cap, i);
      SumToFits(o, cap, i + 1);
    }
    forall i, j | 0 <= i < j < |o| ensures Before(o'[i], o'[j]) {
      CompactedBefore(o, o', cap, i, j);
    }
  }

  lemma CompactedBefore(o: seq<Entry>, o': seq<Entry>, cap: nat, i: nat, j: nat)
    requires Layout(o, cap) && Compacted(o, o') && i < j < |o|
    ensures Before(o'[i], o'[j])
  {
    hide SumTo;
    CompactedEnd(o, o', cap, i);
    CompactedEnd(o, o', cap, j);
    CompactedTail(o, o', cap, i);
    CompactedTail(o, o', cap, j);
    SumToFits(o, cap, i + 1);
    SumToGrows(o, i + 1, j);
    assert Before(o[i], o[j]);
  }

  /** Every file of a compacted store ends within the sum of the lengths, or is empty at 2^32. */
  lemma CompactedBelow(o: seq<Entry>, o': seq<Entry>, cap: nat, i: nat)
    requires Layout(o, cap) && Compacted(o, o') && i < |o|
    ensures End(o'[i]) <= Sum(o) || (o'[i].length == 0 && o'[i].offset == MAX_FILE_DATA_LEN)
  {
    hide SumTo, Compacted;
    CompactedEnd(o, o', cap, i);
    SumToGrows(o, i + 1, |o|);
  }

  /** Every non-empty file of a compacted store ends within the sum of the lengths; the last one ends exactly there. */
  lemma CompactedEnds(o: seq<Entry>, o': seq<Entry>, cap: nat, i: nat)
    requires Layout(o, cap) && Compacted(o, o') && i < |o| && o[i].length > 0
    ensures End(o'[i]) <= Sum(o)
    ensures (forall j :: i < j < |o| ==> o[j].length == 0) ==> End(o'[i]) == Sum(o)
  {
    hide SumTo, Layout;
    CompactedEnd(o, o', cap, i);
    SumToGrows(o, i + 1, |o|);
    if forall j :: i < j < |o| ==> o[j].length == 0 {
      SumOfEmpties(o, i + 1, |o|);
    }
  }

  lemma {:induction false} SumOfEmpties(o: seq<Entry>, i: nat, j: nat)
    requires i <= j <= |o| && forall k :: i <= k < j ==> o[k].length == 0
    ensures SumTo(o, j) == SumTo(o, i)
    decreases j
  {
    if i < j {
      SumOfEmpties(o, i, j - 1);
    }
  }

  /** The meaning of repack_helper in any laid out store. Only the offset array, file_data and dir_table
      change; files keep their order and their bytes; the result is where the first file that
      moves goes to, or -1 when no non-empty file moves; no byte outside [result, sum of lengths) is modified. */
  ghost predicate RepackMeaning(s: State, s': State, h: int) {
    && s' == s.(o := s'.o, data := s'.data, dir := s'.dir)
    && (s.used > 0 ==> Compacted(s.o, s'.o))
    && (s.used <= 0 ==> s' == s)
    && Layout(s'.o, |s.data|)
    && (Stable(s.o) ==> Stable(s'.o))
    && |s'.o| == |s.o|
    && (forall i :: 0 <= i < |s.o| ==> s'.o[i] == s.o[i].(offset := s'.o[i].offset))
    && (forall i :: 0 <= i < |s.o| ==> Content(s'.data, s'.o[i]) == Content(s.data, s.o[i]))
    && -1 <= h <= Sum(s.o)
    && SameOutside(s.data, s'.data, if h < 0 then Sum(s.o) else h, Sum(s.o))
    && (if s.used > 0 then MovedFrom(s.o, |s.o|, h) else h == -1)
    && (h < 0 <==> forall i :: 0 <= i < |s.o| && s.o[i].length > 0 ==> s'.o[i].offset == s.o[i].offset)
  }

  lemma RepackIsExact(s: State)
    requires Layout(s.o, |s.data|)
    ensures RepackMeaning(s, Repack(s).0, Repack(s).1)
  {
    hide SumTo, Content, Repack;
    var (s', h) := Repack(s);
    var p := RepackPacks(s);
    if s.used <= 0 || |s.o| == 0 {
      SumToGrows(s.o, 0, |s.o|);
    } else {
      PackedIsCompacted(s, s', p, h);
      RepackAnswers(s, s', p, h);
      CompactedKeepsLayout(s.o, s'.o, |s.data|);
      SumWithoutTail(s.o, |s.data|, p, |s.o|);
      forall i | 0 <= i < |s.o|
        ensures Content(s'.data, s'.o[i]) == Content(s.data, s.o[i])
        ensures s.o[i].length > 0 ==> i < p && s'.o[i].offset == SumTo(s.o, i)
      {
        if p <= i {
          TailIsEmpty(s.o, |s.data|, p, i);
          EmptyContent(s.data, s'.data, s.o[i], s'.o[i]);
        }
      }
    }
  }

  lemma RepackAnswers(s: State, s': State, p: nat, h: int)
    requires Layout(s.o, |s.data|) && PackedTo(s, s', p, h)
    requires p == |s.o| || s.o[p].offset >= MAX_FILE_DATA_LEN
    ensures MovedFrom(s.o, |s.o|, h)
  {
    hide SumTo, Content, MovedFrom;
    forall k | p <= k < |s.o| ensures s.o[k].length == 0 {
      TailIsEmpty(s.o, |s.data|, p, k);
    }
    MovedFromTail(s.o, p, |s.o|, h);
  }

  lemma EmptyContent(s: seq<byte>, t: seq<byte>, e: Entry, e': Entry)
    requires e.length == 0 && e'.length == 0
    ensures Content(s, e) == Content(t, e')
  {
  }
}
