// The file system as its users see it: a map from names to byte sequences
// with a bound on the total size and on the number of files.
module Stores {
  import opened Structs
  import opened Bytes
  import opened Search

  type Files = map<seq<byte>, seq<byte>>

  datatype Store = Store(files: Files, cap: nat, maxFiles: nat)

  datatype Op =
    | Create(name: seq<byte>, length: nat)
    | Resize(name: seq<byte>, length: nat)
    | Write(name: seq<byte>, offset: nat, buf: seq<byte>)
    | Read(name: seq<byte>, offset: nat, count: nat)
    | Delete(name: seq<byte>)
    | Rename(name: seq<byte>, newName: seq<byte>)
    | Size(name: seq<byte>)
    | Repack

  /** A return value, and the bytes that a successful read delivers. */
  datatype Outcome = Outcome(code: int, bytes: seq<byte>)

  ghost function TotalSize(files: Files): nat {
    if |files| == 0 then 0
    else
      var x :| x in files;
      |files[x]| + TotalSize(files - {x})
  }

  lemma {:induction false} TotalWithout(files: Files, x: seq<byte>)
    requires x in files
    ensures TotalSize(files) == |files[x]| + TotalSize(files - {x})
    decreases |files|
  {
    hide TotalSize;
    var y := PickedFile(files);
    SizeWithout(files, y);
    if y != x {
      TotalWithout(files - {y}, x);
      SizeWithout(files, x);
      TotalWithout(files - {x}, y);
      assert files - {y} - {x} == files - {x} - {y};
    }
  }

  lemma PickedFile(files: Files) returns (y: seq<byte>)
    requires files != map[]
    ensures y in files && TotalSize(files) == |files[y]| + TotalSize(files - {y})
  {
    assert |files| > 0;
    y :| y in files && TotalSize(files) == |files[y]| + TotalSize(files - {y});
  }

  lemma TotalUpdated(files: Files, x: seq<byte>, bytes: seq<byte>)
    ensures TotalSize(files[x := bytes]) == TotalSize(files - {x}) + |bytes|
    ensures TotalSize(files[x := bytes]) == TotalSize(files) + |bytes| - if x in files then |files[x]| else 0
  {
    hide TotalSize;
    var files' := files[x := bytes];
    TotalWithout(files', x);
    assert files' - {x} == files - {x};
    if x in files {
      TotalWithout(files, x);
    } else {
      assert files - {x} == files;
    }
  }

  /** Truncation, or extension with null bytes. */
  function Resized(bytes: seq<byte>, length: nat): (r: seq<byte>)
    ensures |r| == length
  {
    if length <= |bytes| then bytes[..length] else bytes + Zeros(length - |bytes|)
  }

  /** buf written over bytes at an offset inside them, extending them where it reaches further. */
  function Written(bytes: seq<byte>, offset: nat, buf: seq<byte>): (r: seq<byte>)
    requires offset <= |bytes|
    ensures |r| == if offset + |buf| > |bytes| then offset + |buf| else |bytes|
  {
    bytes[..offset] + buf + if offset + |buf| < |bytes| then bytes[offset + |buf|..] else []
  }

  ghost function Apply(st: Store, op: Op): (Store, Outcome) {
    match op
    case Create(filename, length) =>
      var name := Truncate(filename);
      if name in st.files then (st, Outcome(1, []))
      else if TotalSize(st.files) + length > st.cap || |st.files| >= st.maxFiles then (st, Outcome(2, []))
      else (st.(files := st.files[name := Zeros(length)]), Outcome(0, []))
    case Resize(filename, length) =>
      var name := Truncate(filename);
      if name !in st.files then (st, Outcome(1, []))
      else if TotalSize(st.files) + length - |st.files[name]| > st.cap then (st, Outcome(2, []))
      else (st.(files := st.files[name := Resized(st.files[name], length)]), Outcome(0, []))
    case Write(filename, offset, buf) =>
      var name := Truncate(filename);
      if name !in st.files then (st, Outcome(1, []))
      else if offset > |st.files[name]| then (st, Outcome(2, []))
      else if TotalSize(st.files) + offset + |buf| - |st.files[name]| > st.cap then (st, Outcome(3, []))
      else (st.(files := st.files[name := Written(st.files[name], offset, buf)]), Outcome(0, []))
    case Read(filename, offset, count) =>
      var name := Truncate(filename);
      if name !in st.files then (st, Outcome(1, []))
      else if offset + count > |st.files[name]| then (st, Outcome(2, []))
      else (st, Outcome(0, st.files[name][offset..offset + count]))
    case Delete(filename) =>
      var name := Truncate(filename);
      if name !in st.files then (st, Outcome(1, [])) else (st.(files := st.files - {name}), Outcome(0, []))
    case Rename(oldName, newName) =>
      var (name, name') := (Truncate(oldName), Truncate(newName));
      if name in st.files && oldName == newName then (st, Outcome(0, []))
      else if name !in st.files || name' in st.files then (st, Outcome(1, []))
      else (st.(files := (st.files - {name})[name' := st.files[name]]), Outcome(0, []))
    case Size(filename) =>
      var name := Truncate(filename);
      (st, Outcome(if name in st.files then |st.files[name]| else -1, []))
    case Repack => (st, Outcome(0, []))
  }

  /** No operation takes the sum of the sizes over the capacity, or the number of files over the maximum. */
  lemma ApplyKeepsBounds(st: Store, op: Op)
    requires TotalSize(st.files) <= st.cap && |st.files| <= st.maxFiles
    ensures var st' := Apply(st, op).0;
            st'.cap == st.cap && st'.maxFiles == st.maxFiles && TotalSize(st'.files) <= st.cap && |st'.files| <= st.maxFiles
  {
    hide TotalSize, Truncate, Resized, Written;
    var st' := Apply(st, op).0;
    match op
    case Create(filename, length) =>
      TotalUpdated(st.files, Truncate(filename), Zeros(length));
    case Resize(filename, length) =>
      var name := Truncate(filename);
      if name in st.files {
        TotalUpdated(st.files, name, Resized(st.files[name], length));
      }
    case Write(filename, offset, buf) =>
      var name := Truncate(filename);
      if name in st.files && offset <= |st.files[name]| {
        TotalUpdated(st.files, name, Written(st.files[name], offset, buf));
      }
    case Delete(filename) =>
      var name := Truncate(filename);
      if name in st.files {
        TotalWithout(st.files, name);
        SizeWithout(st.files, name);
      }
    case Rename(oldName, newName) =>
      var (name, name') := (Truncate(oldName), Truncate(newName));
      if name in st.files && name' !in st.files {
        RenamedSize(st.files, name, name');
      }
    case _ =>
  }

  lemma RenamedSize(files: Files, x: seq<byte>, y: seq<byte>)
    requires x in files && y !in files
    ensures var files' := (files - {x})[y := files[x]];
            TotalSize(files') == TotalSize(files) && |files'| == |files|
  {
    hide TotalSize;
    TotalWithout(files, x);
    SizeWithout(files, x);
    TotalUpdated(files - {x}, y, files[x]);
    SizeWithout((files - {x})[y := files[x]], y);
    assert (files - {x})[y := files[x]] - {y} == files - {x};
  }

  lemma SizeWithout(files: Files, x: seq<byte>)
    requires x in files
    ensures |files - {x}| == |files| - 1
  {
    assert (files - {x}).Keys == files.Keys - {x};
  }
}
