// The file system of myfilesystem.c as a value, and what each function does to it.
module Model {
  import opened Structs
  import opened Bytes
  import opened Search
  import HashTree
  import Dir = Directory

  /**
   * o and n are the arrays sorted by offset and by name. The name array holds the same files;
   * offsets and lengths are left blank in n, where no function reads them through it.
   */
  datatype State = State(o: seq<Entry>, n: seq<Entry>, data: seq<byte>, dir: seq<byte>, hash: seq<byte>,
                         slots: seq<byte>, used: int, count: int)
  {
    function Leaf(): nat { |hash| / HASH_LEN / 2 }
  }

  function End(e: Entry): nat { e.offset + e.length }

  function Content(data: seq<byte>, e: Entry): (r: seq<byte>)
    ensures |r| == e.length
  {
    Window(data, e.offset, e.length)
  }

  function Blank(e: Entry): Entry { e.(offset := 0, length := 0) }

  /** Subtraction of unsigned 64-bit operands. */
  function Minus64(x: int, y: int): nat { (x - y) % 0x1_0000_0000_0000_0000 }

  // helper.c

  /** find_next_nonzero_file: a position in o, or |o| for NULL. */
  function NextNonzero(o: seq<Entry>, i: nat): (r: nat)
    requires i <= |o|
    ensures i <= r <= |o|
    ensures r < |o| ==> o[r].length > 0
    decreases |o| - i
  {
    if i == |o| || o[i].offset >= MAX_FILE_DATA_LEN then |o|
    else if o[i].length > 0 then i
    else NextNonzero(o, i + 1)
  }

  // Searching

  function NameKey(name: seq<byte>): Entry { Entry(name, 0, 0, 0) }

  function PosOfSlot(o: seq<Entry>, slot: nat): (r: nat)
    ensures r <= |o|
    ensures r < |o| ==> o[r].slot == slot
  {
    if |o| == 0 || o[0].slot == slot then 0 else 1 + PosOfSlot(o[1..], slot)
  }

  /** The lookup by name that starts every operation: a position in o, or -1. */
  function Lookup(s: State, filename: seq<byte>): (r: int)
    ensures -1 <= r < |s.o|
  {
    var name := Truncate(filename);
    if name == [] then -1 else
    var j := GetIndex(NameKey(name), s.n, NAME, false);
    if j < 0 then -1 else
    var p := PosOfSlot(s.o, s.n[j].slot);
    if p < |s.o| then p else -1
  }

  /** arr_sorted_insert into the offset array; an entry that finds its key taken is dropped. */
  function InsertEntry(o: seq<Entry>, e: Entry): seq<Entry> {
    var p := GetIndex(e, o, OFFSET, true);
    if p < 0 then o else Inserted(o, p, e)
  }

  function InsertName(n: seq<Entry>, e: Entry): seq<Entry> {
    var p := GetIndex(e, n, NAME, true);
    if p < 0 then n else Inserted(n, p, Blank(e))
  }

  // Compaction

  /** repack_move */
  function MoveData(data: seq<byte>, e: Entry, to: nat): (r: seq<byte>)
    ensures |r| == |data|
  {
    if e.length > 0 then Overwrite(data, to, Content(data, e)) else data
  }

  function Move(s: State, i: nat, to: nat): (r: State)
    requires i < |s.o|
    ensures |r.o| == |s.o|
  {
    var e := s.o[i].(offset := to);
    s.(o := s.o[i := e], data := MoveData(s.data, s.o[i], to), dir := Dir.SetOffset(s.dir, e))
  }

  /** The loop of repack_helper from position i on, with hash_offset h. */
  function RepackFrom(s: State, i: nat, h: int): (r: (State, int))
    requires 0 < i <= |s.o|
    decreases |s.o| - i
  {
    if i == |s.o| || s.o[i].offset >= MAX_FILE_DATA_LEN then (s, h)
    else
      var end := End(s.o[i - 1]);
      if s.o[i].offset > end then
        RepackFrom(Move(s, i, end), i + 1, if h < 0 && s.o[i].length != 0 then end else h)
      else RepackFrom(s, i + 1, h)
  }

  /** repack_helper */
  function Repack(s: State): (State, int) {
    if s.used <= 0 || |s.o| == 0 then (s, -1)
    else if s.o[0].offset > 0 then RepackFrom(Move(s, 0, 0), 1, if s.o[0].length == 0 then -1 else 0)
    else RepackFrom(s, 1, -1)
  }

  // Placement

  /** The scan of new_file_offset from the non-empty file at position p: an offset, or -1. */
  function FirstGap(o: seq<Entry>, cap: int, length: nat, p: nat): (r: int)
    requires p < |o|
    ensures r >= -1
    decreases |o| - p
  {
    var c := NextNonzero(o, p + 1);
    if c == |o| then (if Minus64(cap, End(o[p])) >= length then End(o[p]) else -1)
    else if Minus64(o[c].offset, End(o[p])) >= length then End(o[p])
    else FirstGap(o, cap, length, c)
  }

  /** The choice of new_file_offset before it considers a repack: an offset, or -1. */
  function FreeOffset(o: seq<Entry>, cap: int, length: nat): (r: int)
    ensures r >= -1
  {
    if length == 0 then MAX_FILE_DATA_LEN
    else
      var f := NextNonzero(o, 0);
      if f == |o| || o[f].offset >= length then 0 else FirstGap(o, cap, length, f)
  }

  datatype Placement = Placement(s: State, offset: nat, h: int)

  /** new_file_offset */
  function NewOffset(s: State, length: nat): Placement {
    var free := FreeOffset(s.o, |s.data|, length);
    if free >= 0 then Placement(s, free, -1)
    else var (s', h) := Repack(s); Placement(s', if s'.used >= 0 then s'.used else 0, h)
  }

  function FreeSlot(slots: seq<byte>): (r: nat)
    ensures r <= |slots| && (r < |slots| ==> slots[r] == 0)
    ensures forall k :: 0 <= k < r ==> slots[k] != 0
  {
    if |slots| == 0 || slots[0] == 0 then 0 else 1 + FreeSlot(slots[1..])
  }

  function Rehash(s: State, offset: nat, length: int): State {
    s.(hash := HashTree.Rehash(s.data, s.hash, s.Leaf(), offset, length))
  }

  // Operations

  /** A new file in both arrays, the directory and the slot map. */
  function AddFile(s: State, e: Entry): State {
    s.(o := InsertEntry(s.o, e), n := InsertName(s.n, e), dir := Dir.WriteRecord(s.dir, e),
       slots := if e.slot < |s.slots| then s.slots[e.slot := 1] else s.slots, count := s.count + 1)
  }

  /** The null bytes of a new file that is not empty, and the rehash of what changed. */
  function Fill(s: State, offset: nat, length: nat, h: int): State {
    var s1 := s.(data := Overwrite(s.data, offset, Zeros(length)), used := s.used + length);
    if h >= 0 then Rehash(s1, h, s1.used - h) else Rehash(s1, offset, length)
  }

  /** create_file */
  function Create(s: State, filename: seq<byte>, length: nat): (State, int) {
    if Lookup(s, filename) >= 0 then (s, 1)
    else if s.used + length > |s.data| || s.count >= |s.slots| then (s, 2)
    else
      var p := NewOffset(s, length);
      var s1 := AddFile(p.s, Entry(Truncate(filename), p.offset, length, FreeSlot(s.slots)));
      (if length > 0 then Fill(s1, p.offset, length, p.h) else s1, 0)
  }

  /** Removal from the offset array, repack, and the file put back at the given offset with its data. */
  function Reinsert(s: State, e: Entry): State {
    s.(o := InsertEntry(s.o, e), dir := Dir.SetOffset(s.dir, e))
  }

  datatype Resized = Resized(s: State, e: Entry, h: int)

  /** The relocation step of resize_file_helper: the state, the file's entry and hash_offset. */
  function Relocate(s: State, i: nat, length: nat, copy: nat): Resized
    requires i < |s.o|
  {
    var e := s.o[i];
    var s1 := s.(o := Removed(s.o, i));
    if e.offset >= MAX_FILE_DATA_LEN then
      var c := NextNonzero(s1.o, 0);
      var (s2, h) := if c < |s1.o| && s1.o[c].offset < length then Repack(s1) else (s1, -1);
      var to := if c < |s1.o| && s1.o[c].offset < length && s2.used >= 0 then s2.used else 0;
      Resized(Reinsert(s2, e.(offset := to)), e.(offset := to), h)
    else
      var (s2, h) := Repack(s1);
      var to := if s2.used >= e.length then s2.used - e.length else 0;
      var s3 := s2.(data := Overwrite(s2.data, to, Window(s.data, e.offset, copy)));
      Resized(Reinsert(s3, e.(offset := to)), e.(offset := to), h)
  }

  /** The test that sends resize_file_helper into a relocation. */
  predicate NeedsMove(s: State, i: nat, length: nat)
    requires i < |s.o|
  {
    var e := s.o[i];
    length > e.length &&
    (e.offset >= MAX_FILE_DATA_LEN ||
     var c := NextNonzero(s.o, i + 1);
     Minus64(if c < |s.o| then s.o[c].offset else |s.data|, e.offset) < length)
  }

  /** The new length of the file in slot e.slot, in the offset array, the directory and the accounts. */
  function SetLength(s: State, e: Entry, length: nat): State {
    var p := PosOfSlot(s.o, e.slot);
    if length == e.length then s
    else
      var e' := e.(length := length);
      s.(o := if p < |s.o| then s.o[p := e'] else s.o, dir := Dir.SetLength(s.dir, e'), used := s.used + length - e.length)
  }

  /** resize_file_helper */
  function ResizeHelper(s: State, i: nat, length: nat, copy: nat): Resized
    requires i < |s.o|
  {
    var r := if NeedsMove(s, i, length) then Relocate(s, i, length, copy) else Resized(s, s.o[i], -1);
    Resized(SetLength(r.s, r.e, length), r.e.(length := length), r.h)
  }

  /** resize_file */
  function Resize(s: State, filename: seq<byte>, length: nat): (State, int) {
    var i := Lookup(s, filename);
    if i < 0 then (s, 1)
    else if s.used + length - s.o[i].length > |s.data| then (s, 2)
    else if length == s.o[i].length then (s, 0)
    else
      var was := s.o[i].length;
      var r := ResizeHelper(s, i, length, was);
      (if length > was then Extend(r.s, r.e, was, r.h) else r.s, 0)
  }

  /** The null bytes of a file that grew from the length `was`, and the rehash of what changed. */
  function Extend(s: State, e: Entry, was: nat, h: int): State
    requires was <= e.length
  {
    var s1 := s.(data := Overwrite(s.data, e.offset + was, Zeros(e.length - was)));
    if h >= 0 then Rehash(s1, h, End(e) - h) else Rehash(s1, e.offset + was, e.length - was)
  }

  /** write_file */
  function Write(s: State, filename: seq<byte>, offset: nat, buf: seq<byte>): (State, int) {
    var i := Lookup(s, filename);
    if i < 0 then (s, 1)
    else if offset > s.o[i].length then (s, 2)
    else if s.used + offset + |buf| - s.o[i].length > |s.data| then (s, 3)
    else if |buf| == 0 then (s, 0)
    else
      var r := MakeRoom(s, i, offset, |buf|);
      (CopyBuffer(r.s, r.e.offset + offset, buf, r.h), 0)
  }

  /** The resize in write_file, if the write reaches beyond the end of the file. */
  function MakeRoom(s: State, i: nat, offset: nat, count: nat): Resized
    requires i < |s.o|
  {
    if offset + count > s.o[i].length then ResizeHelper(s, i, offset + count, offset) else Resized(s, s.o[i], -1)
  }

  /** The bytes of a write, and the rehash of what changed. */
  function CopyBuffer(s: State, at: nat, buf: seq<byte>, h: int): State {
    var s1 := s.(data := Overwrite(s.data, at, buf));
    if h >= 0 then Rehash(s1, h, s1.used - h) else Rehash(s1, at, |buf|)
  }

  /** read_file; the bytes are [] unless the result is 0. */
  ghost function Read(s: State, filename: seq<byte>, offset: nat, count: nat): (int, seq<byte>) {
    var i := Lookup(s, filename);
    if i < 0 then (1, [])
    else if offset + count > s.o[i].length then (2, [])
    else if !HashTree.Verified(s.data, s.hash, s.Leaf(), s.o[i].offset + offset, count) then (3, [])
    else (0, Window(s.data, s.o[i].offset + offset, count))
  }

  /** delete_file */
  function Delete(s: State, filename: seq<byte>): (State, int) {
    var i := Lookup(s, filename);
    if i < 0 then (s, 1)
    else
      var e := s.o[i];
      var j := PosOfSlot(s.n, e.slot);
      (s.(o := Removed(s.o, i), n := if j < |s.n| then Removed(s.n, j) else s.n,
          dir := Dir.ClearRecord(s.dir, e.slot), slots := if e.slot < |s.slots| then s.slots[e.slot := 0] else s.slots,
          used := s.used - e.length, count := s.count - 1), 0)
  }

  /** repack */
  function RepackAll(s: State): State {
    var (s', h) := Repack(s);
    if h >= 0 then Rehash(s', h, s'.used - h) else s'
  }

  /** file_size, -1 for a file that does not exist */
  function Size(s: State, filename: seq<byte>): int {
    var i := Lookup(s, filename);
    if i < 0 then -1 else s.o[i].length
  }

  /** rename_file: the name changes in place, in the file and in its record. */
  function Rename(s: State, oldName: seq<byte>, newName: seq<byte>): (State, int) {
    var i := Lookup(s, oldName);
    if i >= 0 && oldName == newName then (s, 0)
    else if i < 0 || Lookup(s, newName) >= 0 then (s, 1)
    else
      var e := s.o[i].(name := Truncate(newName));
      var j := PosOfSlot(s.n, e.slot);
      (s.(o := s.o[i := e], n := if j < |s.n| then s.n[j := Blank(e)] else s.n, dir := Dir.SetName(s.dir, e)), 0)
  }

  // init_fs

  /** The file that the scan finds in a slot; empty files are taken to lie at 2^32. */
  function LoadedEntry(dir: seq<byte>, slot: nat): Entry {
    var length := Dir.LengthAt(dir, slot);
    Entry(Dir.NameAt(dir, slot), if length == 0 then MAX_FILE_DATA_LEN else Dir.OffsetAt(dir, slot), length, slot)
  }

  function LoadSlot(s: State, slot: nat): (r: State)
    ensures |r.slots| == |s.slots|
  {
    if Dir.NameAt(s.dir, slot) == [] then s
    else
      var e := LoadedEntry(s.dir, slot);
      s.(o := InsertEntry(s.o, e), n := InsertName(s.n, e), used := s.used + e.length,
         slots := if slot < |s.slots| then s.slots[slot := 1] else s.slots, count := s.count + 1)
  }

  function LoadFrom(s: State, slot: nat): State
    decreases |s.slots| - slot
  {
    if slot >= |s.slots| then s else LoadFrom(LoadSlot(s, slot), slot + 1)
  }

  function Unloaded(data: seq<byte>, dir: seq<byte>, hash: seq<byte>): State {
    State([], [], data, dir, hash, Zeros(|dir| / META_LEN), 0, 0)
  }

  /** The scan of dir_table in init_fs. */
  function Load(data: seq<byte>, dir: seq<byte>, hash: seq<byte>): State {
    LoadFrom(Unloaded(data, dir, hash), 0)
  }
}
