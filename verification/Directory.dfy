// dir_table: one 72-byte record per slot, with the name, the offset and the
// length of a file. Records of unused slots start with a null byte.
module Directory {
  import opened Structs
  import opened Bytes
  import opened Search

  /** The C string at the start of a buffer. */
  function CString(s: seq<byte>): (r: seq<byte>)
    ensures |r| <= |s| && forall k :: 0 <= k < |r| ==> r[k] != 0
  {
    if |s| == 0 || s[0] == 0 then [] else [s[0]] + CString(s[1..])
  }

  // The fields of a record, as init_fs reads them
  function NameAt(dir: seq<byte>, slot: nat): (r: seq<byte>)
    ensures |r| < NAME_LEN && IsName(r)
  {
    CString(Window(dir, META_LEN * slot, NAME_LEN - 1))
  }

  function OffsetAt(dir: seq<byte>, slot: nat): (r: nat)
    ensures r < MAX_FILE_DATA_LEN
  {
    FromLe32(Window(dir, META_LEN * slot + NAME_LEN, 4))
  }

  function LengthAt(dir: seq<byte>, slot: nat): (r: nat)
    ensures r < MAX_FILE_DATA_LEN
  {
    FromLe32(Window(dir, META_LEN * slot + NAME_LEN + OFFSET_LEN, 4))
  }

  /** The offset field written for a file: 0 for a file at MAX_FILE_DATA_LEN. */
  function StoredOffset(e: Entry): nat {
    if e.offset >= MAX_FILE_DATA_LEN then 0 else e.offset
  }

  // update_dir_name, update_dir_offset, update_dir_length, write_dir_file and the deletion of a record

  function SetName(dir: seq<byte>, e: Entry): (r: seq<byte>)
    ensures |r| == |dir|
  {
    Overwrite(dir, META_LEN * e.slot, e.name + [0])
  }

  function SetOffset(dir: seq<byte>, e: Entry): (r: seq<byte>)
    ensures |r| == |dir|
  {
    Overwrite(dir, META_LEN * e.slot + NAME_LEN, Le32(StoredOffset(e)))
  }

  function SetLength(dir: seq<byte>, e: Entry): (r: seq<byte>)
    ensures |r| == |dir|
  {
    Overwrite(dir, META_LEN * e.slot + NAME_LEN + OFFSET_LEN, Le32(e.length))
  }

  function WriteRecord(dir: seq<byte>, e: Entry): (r: seq<byte>)
    ensures |r| == |dir|
  {
    SetLength(SetOffset(SetName(dir, e), e), e)
  }

  function ClearRecord(dir: seq<byte>, slot: nat): (r: seq<byte>)
    ensures |r| == |dir|
  {
    Overwrite(dir, META_LEN * slot, Zeros(1))
  }

  /** The record of a file's slot holds its name, its length and, unless it lies at 2^32, its offset. */
  predicate Mirror(dir: seq<byte>, e: Entry) {
    && NameAt(dir, e.slot) == e.name && LengthAt(dir, e.slot) == e.length
    && (e.offset < MAX_FILE_DATA_LEN ==> OffsetAt(dir, e.slot) == e.offset)
  }

  /** A write inside [at, at + n) of record slot leaves alone every field that it does not reach. */
  lemma FieldBeside(dir: seq<byte>, slot: nat, at: nat, t: seq<byte>, other: nat, from: nat, n: nat)
    requires at + |t| <= META_LEN && from + n <= META_LEN
    requires slot != other || from + n <= at || at + |t| <= from
    ensures Window(Overwrite(dir, META_LEN * slot + at, t), META_LEN * other + from, n) == Window(dir, META_LEN * other + from, n)
  {
    hide Window, Overwrite;
    if slot != other {
      assert slot < other ==> META_LEN * slot + META_LEN <= META_LEN * other;
      assert other < slot ==> META_LEN * other + META_LEN <= META_LEN * slot;
    }
    WindowBeside(dir, META_LEN * slot + at, t, META_LEN * other + from, n);
  }

  lemma AfterSetOffset(dir: seq<byte>, e: Entry, i: nat)
    requires META_LEN * e.slot + META_LEN <= |dir|
    ensures var d := SetOffset(dir, e);
            && NameAt(d, i) == NameAt(dir, i) && LengthAt(d, i) == LengthAt(dir, i)
            && OffsetAt(d, i) == if i != e.slot then OffsetAt(dir, i) else if e.offset >= 0x1_0000_0000 then 0 else e.offset
  {
    hide Window, Overwrite, CString, FromLe32, Le32;
    var t := Le32(StoredOffset(e));
    FieldBeside(dir, e.slot, NAME_LEN, t, i, 0, NAME_LEN - 1);
    FieldBeside(dir, e.slot, NAME_LEN, t, i, NAME_LEN + OFFSET_LEN, 4);
    if i == e.slot {
      WindowOfOverwrite(dir, META_LEN * i + NAME_LEN, t);
      SmallWordRoundTrip(StoredOffset(e));
    } else {
      FieldBeside(dir, e.slot, NAME_LEN, t, i, NAME_LEN, 4);
    }
  }

  lemma SmallWordRoundTrip(x: nat)
    requires x < MAX_FILE_DATA_LEN
    ensures FromLe32(Le32(x)) == x
  {
    hide Le32, FromLe32;
    Le32RoundTrip(x);
  }

  lemma AfterSetLength(dir: seq<byte>, e: Entry, i: nat)
    requires META_LEN * e.slot + META_LEN <= |dir| && e.length < MAX_FILE_DATA_LEN
    ensures var d := SetLength(dir, e);
            && NameAt(d, i) == NameAt(dir, i) && OffsetAt(d, i) == OffsetAt(dir, i)
            && LengthAt(d, i) == if i == e.slot then e.length else LengthAt(dir, i)
  {
    hide Window, Overwrite, CString, FromLe32, Le32;
    var t := Le32(e.length);
    FieldBeside(dir, e.slot, NAME_LEN + OFFSET_LEN, t, i, 0, NAME_LEN - 1);
    FieldBeside(dir, e.slot, NAME_LEN + OFFSET_LEN, t, i, NAME_LEN, 4);
    if i == e.slot {
      WindowOfOverwrite(dir, META_LEN * i + NAME_LEN + OFFSET_LEN, t);
      SmallWordRoundTrip(e.length);
    } else {
      FieldBeside(dir, e.slot, NAME_LEN + OFFSET_LEN, t, i, NAME_LEN + OFFSET_LEN, 4);
    }
  }

  lemma {:induction false} CStringOfName(s: seq<byte>, name: seq<byte>)
    requires |name| <= |s| && s[..|name|] == name
    requires forall k :: 0 <= k < |name| ==> name[k] != 0
    requires |name| < |s| ==> s[|name|] == 0
    ensures CString(s) == name
  {
    if |name| > 0 {
      CStringOfName(s[1..], name[1..]);
    }
  }

  /** A name is read back although a longer name may have left bytes behind its null byte. */
  lemma AfterSetName(dir: seq<byte>, e: Entry, i: nat)
    requires META_LEN * e.slot + META_LEN <= |dir| && IsName(e.name)
    ensures var d := SetName(dir, e);
            && NameAt(d, i) == (if i == e.slot then e.name else NameAt(dir, i))
            && OffsetAt(d, i) == OffsetAt(dir, i) && LengthAt(d, i) == LengthAt(dir, i)
  {
    hide CString, FromLe32, Overwrite, Window;
    var t := e.name + [0];
    FieldBeside(dir, e.slot, 0, t, i, NAME_LEN, 4);
    FieldBeside(dir, e.slot, 0, t, i, NAME_LEN + OFFSET_LEN, 4);
    if i == e.slot {
      var w := Window(SetName(dir, e), META_LEN * i, NAME_LEN - 1);
      assert forall k :: 0 <= k < |t| && k < NAME_LEN - 1 ==> w[k] == t[k];
      CStringOfName(w, e.name);
    } else {
      FieldBeside(dir, e.slot, 0, t, i, 0, NAME_LEN - 1);
    }
  }

  lemma AfterClear(dir: seq<byte>, slot: nat, i: nat)
    requires META_LEN * slot + META_LEN <= |dir|
    ensures var d := ClearRecord(dir, slot);
            && NameAt(d, i) == (if i == slot then [] else NameAt(dir, i))
            && OffsetAt(d, i) == OffsetAt(dir, i) && LengthAt(d, i) == LengthAt(dir, i)
  {
    hide CString, FromLe32, Overwrite, Window;
    FieldBeside(dir, slot, 0, Zeros(1), i, NAME_LEN, 4);
    FieldBeside(dir, slot, 0, Zeros(1), i, NAME_LEN + OFFSET_LEN, 4);
    if i == slot {
      var w := Window(ClearRecord(dir, slot), META_LEN * i, NAME_LEN - 1);
      assert w[0] == 0;
      CStringOfName(w, []);
    } else {
      FieldBeside(dir, slot, 0, Zeros(1), i, 0, NAME_LEN - 1);
    }
  }

  lemma AfterWriteRecord(dir: seq<byte>, e: Entry, i: nat)
    requires META_LEN * e.slot + META_LEN <= |dir| && IsName(e.name) && e.length < MAX_FILE_DATA_LEN
    ensures var d := WriteRecord(dir, e);
            if i == e.slot then Mirror(d, e)
            else
              NameAt(d, i) == NameAt(dir, i) && OffsetAt(d, i) == OffsetAt(dir, i) && LengthAt(d, i) == LengthAt(dir, i)
  {
    hide NameAt, OffsetAt, LengthAt, SetName, SetOffset, SetLength;
    AfterSetName(dir, e, i);
    AfterSetOffset(SetName(dir, e), e, i);
    AfterSetLength(SetOffset(SetName(dir, e), e), e, i);
  }

  /** The bytes that a record is written to: the name and a null byte from byte 0 on, the offset at byte 64 and
      the length at byte 68, lowest byte first, in a record of 72 bytes. No other byte changes. */
  lemma RecordBytes(dir: seq<byte>, e: Entry)
    requires 72 * e.slot + 72 <= |dir| && IsName(e.name) && e.length < 0x1_0000_0000
    ensures var d, at, stored := WriteRecord(dir, e), 72 * e.slot, if e.offset >= 0x1_0000_0000 then 0 else e.offset;
            && d[at..at + |e.name| + 1] == e.name + [0]
            && d[at + |e.name| + 1..at + 64] == dir[at + |e.name| + 1..at + 64]
            && Value(d[at + 64], d[at + 65], d[at + 66], d[at + 67]) == stored
            && Value(d[at + 68], d[at + 69], d[at + 70], d[at + 71]) == e.length
            && d[..at] == dir[..at] && d[at + 72..] == dir[at + 72..]
  {
    hide Le32, Value;
    Le32Bytes(StoredOffset(e));
    Le32Bytes(e.length);
  }
}
