// Keys and binary search of arr.c, on values.
module Search {
  import opened Structs

  datatype Kind = OFFSET | NAME

  /** The fields of a file_t, apart from its positions in the two arrays. */
  datatype Entry = Entry(name: seq<byte>, offset: nat, length: nat, slot: nat)

  // Names: C strings of at most 63 characters, without the terminating null

  ghost predicate IsName(s: seq<byte>) {
    |s| < NAME_LEN && forall k :: 0 <= k < |s| ==> s[k] != 0
  }

  /** What update_file_name stores for a C string argument. */
  function Truncate(s: seq<byte>): (r: seq<byte>)
    ensures r <= s && |r| == if |s| < 63 then |s| else 63
  {
    if |s| < NAME_LEN then s else s[..NAME_LEN - 1]
  }

  /** strncmp over the first 63 characters of two names. */
  function NameCmp(a: seq<byte>, b: seq<byte>): int {
    if |a| == 0 || |b| == 0 then (if |a| > 0 then 1 else if |b| > 0 then -1 else 0)
    else if a[0] != b[0] then (if a[0] < b[0] then -1 else 1)
    else NameCmp(a[1..], b[1..])
  }

  lemma {:induction false} NameCmpReflects(a: seq<byte>, b: seq<byte>)
    ensures NameCmp(a, b) == 0 <==> a == b
    ensures NameCmp(b, a) == -NameCmp(a, b)
  {
    if |a| > 0 && |b| > 0 && a[0] == b[0] {
      NameCmpReflects(a[1..], b[1..]);
      assert a == [a[0]] + a[1..] && b == [b[0]] + b[1..];
    }
  }

  /** a comes before b in the order of a dictionary: it is a proper prefix, or smaller at the first difference. */
  ghost predicate Precedes(a: seq<byte>, b: seq<byte>) {
    exists k: nat :: AgreeTo(a, b, k) && Smaller(a, b, k)
  }

  /** a ends at position k and b does not, or a has the smaller byte there. */
  ghost predicate Smaller(a: seq<byte>, b: seq<byte>, k: nat) {
    (k == |a| < |b|) || (k < |a| && k < |b| && a[k] < b[k])
  }

  /** The names agree before position k. */
  ghost predicate AgreeTo(a: seq<byte>, b: seq<byte>, k: nat) {
    k <= |a| && k <= |b| && forall i :: 0 <= i < k ==> a[i] == b[i]
  }

  lemma {:induction false} NameCmpIsLexicographic(a: seq<byte>, b: seq<byte>)
    ensures NameCmp(a, b) < 0 <==> Precedes(a, b)
  {
    assert AgreeTo(a, b, 0);
    if |a| > 0 && |b| > 0 && a[0] == b[0] {
      NameCmpIsLexicographic(a[1..], b[1..]);
      forall k: nat ensures AgreeTo(a[1..], b[1..], k) <==> AgreeTo(a, b, k + 1) {
        AgreeFromTail(a, b, k);
      }
      if Precedes(a, b) {
        var k: nat :| AgreeTo(a, b, k) && Smaller(a, b, k);
        assert AgreeTo(a[1..], b[1..], k - 1) && Smaller(a[1..], b[1..], k - 1);
      }
      if Precedes(a[1..], b[1..]) {
        var k: nat :| AgreeTo(a[1..], b[1..], k) && Smaller(a[1..], b[1..], k);
        assert AgreeTo(a, b, k + 1) && Smaller(a, b, k + 1);
      }
    }
  }

  lemma AgreeFromTail(a: seq<byte>, b: seq<byte>, k: nat)
    requires |a| > 0 && |b| > 0 && a[0] == b[0]
    ensures AgreeTo(a[1..], b[1..], k) <==> AgreeTo(a, b, k + 1)
  {
    if AgreeTo(a[1..], b[1..], k) {
      forall i | 0 <= i < k + 1 ensures a[i] == b[i] {
        if i > 0 {
          assert a[1..][i - 1] == b[1..][i - 1];
        }
      }
    }
  }

  lemma {:induction false} NameCmpTransitive(a: seq<byte>, b: seq<byte>, c: seq<byte>)
    requires NameCmp(a, b) <= 0 && NameCmp(b, c) < 0
    ensures NameCmp(a, c) < 0
  {
    if |a| > 0 && |b| > 0 && |c| > 0 && a[0] == b[0] && b[0] == c[0] {
      NameCmpTransitive(a[1..], b[1..], c[1..]);
    }
  }

  /** cmp_key */
  function CmpKey(a: Entry, b: Entry, kind: Kind): int {
    if kind == OFFSET then
      if a.offset < b.offset then -1
      else if a.offset > b.offset then 1
      else if b.length > 0 then 0
      else if b.offset >= MAX_FILE_DATA_LEN then -1
      else 1
    else
      NameCmp(a.name, b.name)
  }

  // The search, over the signs of a key against the elements of the array

  /** The loop of arr_get_index between l and h. */
  function BinarySearch(signs: seq<int>, l: nat, h: nat, insert: bool): (r: int)
    requires l <= h < |signs|
    ensures -1 <= r <= |signs|
    ensures r >= 0 && !insert ==> r < |signs| && signs[r] == 0
    decreases h - l
  {
    var m := (l + h) / 2;
    if signs[m] < 0 then
      if l >= m then (if insert then m else -1) else BinarySearch(signs, l, m - 1, insert)
    else if signs[m] > 0 then
      if h <= m then (if insert then m + 1 else -1) else BinarySearch(signs, m + 1, h, insert)
    else if insert then -1 else m
  }

  lemma BinarySearchStep(signs: seq<int>, l: nat, h: nat, insert: bool)
    requires l <= h < |signs|
    ensures var m := (l + h) / 2; (
            BinarySearch(signs, l, h, insert)
         == if signs[m] < 0 then (if l < m then BinarySearch(signs, l, m - 1, insert) else if insert then m else -1)
            else if signs[m] > 0 then (if m < h then BinarySearch(signs, m + 1, h, insert) else if insert then m + 1 else -1)
            else if insert then -1 else m)
  {
  }

  /** A linear scan: the first element that is not below the key. */
  function FirstNotBelow(signs: seq<int>): (r: nat)
    ensures r <= |signs|
    ensures forall k :: 0 <= k < r ==> signs[k] > 0
    ensures r < |signs| ==> signs[r] <= 0
  {
    if |signs| == 0 || signs[0] <= 0 then 0 else 1 + FirstNotBelow(signs[1..])
  }

  /** Elements below the key, then at most one match, then elements above it. */
  ghost predicate Monotone(signs: seq<int>) {
    forall i, j :: 0 <= i < j < |signs| && signs[i] <= 0 ==> signs[j] < 0
  }

  /** What a linear scan would answer. */
  function LinearSearch(signs: seq<int>, insert: bool): int {
    var p := FirstNotBelow(signs);
    if p < |signs| && signs[p] == 0 then (if insert then -1 else p) else (if insert then p else -1)
  }

  lemma {:induction false} BinaryFindsLinear(signs: seq<int>, l: nat, h: nat, insert: bool)
    requires l <= h < |signs| && Monotone(signs)
    requires l <= FirstNotBelow(signs) <= h + 1
    requires h + 1 < |signs| ==> signs[h + 1] < 0
    ensures BinarySearch(signs, l, h, insert) == LinearSearch(signs, insert)
    decreases h - l
  {
    hide FirstNotBelow, BinarySearch;
    BinarySearchStep(signs, l, h, insert);
    var m := (l + h) / 2;
    var p := FirstNotBelow(signs);
    if signs[m] <= 0 {
      assert p <= m;
    }
    if signs[m] < 0 && l < m {
      BinaryFindsLinear(signs, l, m - 1, insert);
    } else if signs[m] > 0 && m < h {
      BinaryFindsLinear(signs, m + 1, h, insert);
    }
  }

  // Key signs of whole arrays

  function Signs(key: Entry, es: seq<Entry>, kind: Kind): (r: seq<int>)
    ensures |r| == |es|
    ensures forall i :: 0 <= i < |es| ==> r[i] == CmpKey(key, es[i], kind)
  {
    seq(|es|, i requires 0 <= i < |es| => CmpKey(key, es[i], kind))
  }

  /** arr_get_index */
  function GetIndex(key: Entry, es: seq<Entry>, kind: Kind, insert: bool): (r: int)
    ensures -1 <= r <= |es|
    ensures r >= 0 && !insert ==> r < |es| && CmpKey(key, es[r], kind) == 0
  {
    if |es| == 0 then (if insert then 0 else -1)
    else if insert && kind == OFFSET && key.length == 0 then |es|
    else BinarySearch(Signs(key, es, kind), 0, |es| - 1, insert)
  }

  /** On elements whose signs are monotone, the binary search answers as a linear scan does. */
  lemma GetIndexIsLinear(key: Entry, es: seq<Entry>, kind: Kind, insert: bool)
    requires Monotone(Signs(key, es, kind))
    requires !(insert && kind == OFFSET && key.length == 0)
    ensures GetIndex(key, es, kind, insert) == LinearSearch(Signs(key, es, kind), insert)
  {
    if |es| > 0 {
      BinaryFindsLinear(Signs(key, es, kind), 0, |es| - 1, insert);
    }
  }

  // The name array

  ghost predicate NameSorted(es: seq<Entry>) {
    forall i, j :: 0 <= i < j < |es| ==> NameCmp(es[i].name, es[j].name) < 0
  }

  lemma NameSignsMonotone(key: Entry, es: seq<Entry>)
    requires NameSorted(es)
    ensures Monotone(Signs(key, es, NAME))
  {
    forall i, j | 0 <= i < j < |es| && NameCmp(key.name, es[i].name) <= 0
      ensures NameCmp(key.name, es[j].name) < 0
    {
      NameCmpTransitive(key.name, es[i].name, es[j].name);
    }
  }

  /** Looking a name up in a sorted name array finds the file of that name, if there is one. */
  lemma LookupByName(key: Entry, es: seq<Entry>)
    requires NameSorted(es)
    ensures var r := GetIndex(key, es, NAME, false);
            if r >= 0 then es[r].name == key.name
            else forall i :: 0 <= i < |es| ==> es[i].name != key.name
  {
    NameSignsMonotone(key, es);
    GetIndexIsLinear(key, es, NAME, false);
    forall i | 0 <= i < |es| ensures NameCmp(key.name, es[i].name) == 0 <==> key.name == es[i].name {
      NameCmpReflects(key.name, es[i].name);
    }
  }

  /** Only names decide where a search by name ends. */
  lemma SameNamesSameIndex(key: Entry, key': Entry, es: seq<Entry>, es': seq<Entry>, insert: bool)
    requires key.name == key'.name && |es| == |es'| && forall i :: 0 <= i < |es| ==> es[i].name == es'[i].name
    ensures GetIndex(key, es, NAME, insert) == GetIndex(key', es', NAME, insert)
  {
    hide BinarySearch, NameCmp;
    assert Signs(key, es, NAME) == Signs(key', es', NAME);
  }

  /** es with e put in at position p. */
  function Inserted<T>(es: seq<T>, p: nat, e: T): (r: seq<T>)
    requires p <= |es|
    ensures |r| == |es| + 1
    ensures forall i :: 0 <= i < |r| ==> r[i] == if i < p then es[i] else if i == p then e else es[i - 1]
  {
    es[..p] + [e] + es[p..]
  }

  /** es with position p taken out. */
  function Removed<T>(es: seq<T>, p: nat): (r: seq<T>)
    requires p < |es|
    ensures |r| == |es| - 1
    ensures forall i :: 0 <= i < |r| ==> r[i] == if i < p then es[i] else es[i + 1]
  {
    es[..p] + es[p + 1..]
  }

  lemma RemoveUndoesInsert<T>(es: seq<T>, p: nat, e: T)
    requires p <= |es|
    ensures Removed(Inserted(es, p, e), p) == es
  {
  }

  /** Where the linear scan stops, a new name has smaller names before and larger names after it. */
  lemma NamesAround(e: Entry, es: seq<Entry>, p: nat)
    requires NameSorted(es) && forall i :: 0 <= i < |es| ==> es[i].name != e.name
    requires p == FirstNotBelow(Signs(e, es, NAME))
    ensures forall i :: 0 <= i < p ==> NameCmp(es[i].name, e.name) < 0
    ensures forall i :: p <= i < |es| ==> NameCmp(e.name, es[i].name) < 0
  {
    var signs := Signs(e, es, NAME);
    NameSignsMonotone(e, es);
    forall i | 0 <= i < |es|
      ensures i < p ==> NameCmp(es[i].name, e.name) < 0
      ensures p <= i ==> NameCmp(e.name, es[i].name) < 0
    {
      NameCmpReflects(e.name, es[i].name);
      assert signs[i] == NameCmp(e.name, es[i].name);
      if p < i {
        assert signs[p] <= 0;
      }
    }
  }

  /** Inserting a new name where the search says keeps the array sorted. */
  lemma InsertByName(e: Entry, es: seq<Entry>)
    requires NameSorted(es) && forall i :: 0 <= i < |es| ==> es[i].name != e.name
    ensures var p := GetIndex(e, es, NAME, true);
            p >= 0 && NameSorted(Inserted(es, p, e))
  {
    hide NameCmp, BinarySearch;
    var signs := Signs(e, es, NAME);
    var p := FirstNotBelow(signs);
    NameSignsMonotone(e, es);
    GetIndexIsLinear(e, es, NAME, true);
    NamesAround(e, es, p);
    if p < |es| {
      NameCmpReflects(e.name, es[p].name);
    }
  }

  lemma RemoveByName(es: seq<Entry>, p: nat)
    requires NameSorted(es) && p < |es|
    ensures NameSorted(Removed(es, p))
  {
    hide NameCmp;
  }

  /** The name lies strictly between those before and after position j. */
  predicate BetweenNeighbours(es: seq<Entry>, j: nat, name: seq<byte>) {
    && (0 < j <= |es| ==> NameCmp(es[j - 1].name, name) < 0)
    && (j + 1 < |es| ==> NameCmp(name, es[j + 1].name) < 0)
  }

  /** Overwriting a name in place keeps the array sorted exactly when the new name fits between its neighbours. */
  lemma SortedAfterRenameIff(es: seq<Entry>, j: nat, e: Entry)
    requires NameSorted(es) && j < |es|
    ensures NameSorted(es[j := e]) <==> BetweenNeighbours(es, j, e.name)
  {
    hide NameCmp;
    var es' := es[j := e];
    if NameSorted(es') {
      assert j > 0 ==> NameCmp(es'[j - 1].name, es'[j].name) < 0;
      assert j + 1 < |es| ==> NameCmp(es'[j].name, es'[j + 1].name) < 0;
    } else if BetweenNeighbours(es, j, e.name) {
      forall i, k | 0 <= i < k < |es| ensures NameCmp(es'[i].name, es'[k].name) < 0 {
        if k == j && i < j - 1 {
          NameCmpTransitive(es[i].name, es[j - 1].name, e.name);
        } else if i == j && j + 1 < k {
          NameCmpTransitive(e.name, es[j + 1].name, es[k].name);
        }
      }
    }
  }
}
