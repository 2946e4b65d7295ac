// The map from names to bytes that a state stands for.
module Abstraction {
  import opened Structs
  import opened Search
  import opened Model
  import opened Layouts
  import opened Invariants
  import opened Stores
  import opened Refinement

  ghost function NamesTo(o: seq<Entry>, i: nat): set<seq<byte>>
    requires i <= |o|
  {
    set k | 0 <= k < i :: o[k].name
  }

  /** The files of a map that holds exactly the entries of o have the sizes that o lists. */
  lemma {:induction false} TotalIsSumTo(o: seq<Entry>, i: nat, files: Files)
    requires i <= |o| && files.Keys == NamesTo(o, i)
    requires forall j, k :: 0 <= j < k < |o| ==> o[j].name != o[k].name
    requires forall k :: 0 <= k < i ==> |files[o[k].name]| == o[k].length
    ensures TotalSize(files) == SumTo(o, i) && |files| == i
  {
    hide TotalSize, NamesTo;
    NamesToNext(o, i);
    if i == 0 {
      assert files == map[];
      TotalOfNothing();
    } else {
      var x := o[i - 1].name;
      TotalIsSumTo(o, i - 1, files - {x});
      TotalWithout(files, x);
      SizeWithout(files, x);
    }
  }

  lemma NamesToNext(o: seq<Entry>, i: nat)
    requires i <= |o| && forall j, k :: 0 <= j < k < |o| ==> o[j].name != o[k].name
    ensures i == 0 ==> NamesTo(o, i) == {}
    ensures i > 0 ==> NamesTo(o, i - 1) == NamesTo(o, i) - {o[i - 1].name} && o[i - 1].name in NamesTo(o, i)
    ensures forall k :: 0 <= k < i ==> o[k].name in NamesTo(o, i)
  {
  }

  lemma TotalOfNothing()
    ensures TotalSize(map[]) == 0
  {
  }

  /** The accounts of a state are those of the map it holds. */
  lemma AccountsOf(s: State, files: Files)
    requires Inv(s) && Contents(s.o, s.data, files)
    requires forall x :: x in files <==> HasName(s.n, x)
    ensures TotalSize(files) == s.used && |files| == s.count
  {
    hide TotalSize, SumTo, Content, Layout, Listed, Indexed;
    forall j, k | 0 <= j < k < |s.o| ensures s.o[j].name != s.o[k].name {
      if s.o[j].name == s.o[k].name {
        NamesDistinct(s, j, k);
      }
    }
    forall x ensures x in files.Keys <==> x in NamesTo(s.o, |s.o|) {
      if x in files {
        var j :| 0 <= j < |s.n| && s.n[j].name == x;
        var i := InOffsetArray(s, j);
        assert s.o[i].name == x;
      }
    }
    TotalIsSumTo(s.o, |s.o|, files);
  }

  ghost function FilesTo(o: seq<Entry>, data: seq<byte>, i: nat): Files
    requires i <= |o|
  {
    if i == 0 then map[] else FilesTo(o, data, i - 1)[o[i - 1].name := Content(data, o[i - 1])]
  }

  /** The map from names to bytes that a state holds. */
  ghost function Abstract(s: State): Store {
    Store(FilesTo(s.o, s.data, |s.o|), |s.data|, |s.slots|)
  }

  lemma {:induction false} FilesToHolds(o: seq<Entry>, data: seq<byte>, i: nat)
    requires i <= |o| && forall j, k :: 0 <= j < k < |o| ==> o[j].name != o[k].name
    ensures FilesTo(o, data, i).Keys == NamesTo(o, i)
    ensures forall k :: 0 <= k < i ==> FilesTo(o, data, i)[o[k].name] == Content(data, o[k])
  {
    hide Content;
    if i > 0 {
      FilesToHolds(o, data, i - 1);
    }
  }

  /** Every state that keeps the invariant stands for the map read off its offset array. */
  lemma RepresentsAbstract(s: State)
    requires Inv(s)
    ensures Represents(s, Abstract(s))
  {
    hide Content, Layout, Listed, Indexed, FilesTo, TotalSize;
    var files := FilesTo(s.o, s.data, |s.o|);
    forall j, k | 0 <= j < k < |s.o| ensures s.o[j].name != s.o[k].name {
      if s.o[j].name == s.o[k].name {
        NamesDistinct(s, j, k);
      }
    }
    FilesToHolds(s.o, s.data, |s.o|);
    forall i | 0 <= i < |s.o| ensures s.o[i].name in files && files[s.o[i].name] == Content(s.data, s.o[i]) {
      assert s.o[i].name in NamesTo(s.o, |s.o|);
    }
    forall x ensures x in files <==> HasName(s.n, x) {
      if HasName(s.n, x) {
        var j :| 0 <= j < |s.n| && s.n[j].name == x;
        var i := InOffsetArray(s, j);
        assert s.o[i].name == x;
      }
      if x in files {
        var i :| 0 <= i < |s.o| && s.o[i].name == x;
        var j := InNameArray(s, i);
        assert s.n[j].name == x;
      }
    }
    AccountsOf(s, files);
  }
}
