// The file system object as the map of Stores.
module Sessions {
  import opened Structs
  import opened Model
  import opened Invariants
  import opened Stores
  import opened Refinement
  import opened AnyStep
  import opened TreeRuns
  import opened Soundness
  import opened SoundSteps
  import opened Loading
  import opened FileSystem
  import Layouts

  /** One call on an object whose arrays may be in any order. It does what Step does, unless the bytes that the
      operation places go past the end of file_data: there fault is true, and file_data is as before. The object
      can be used again exactly when the arrays took what was inserted. */
  method Call(fs: FileSys, op: Op) returns (out: Outcome, fault: bool)
    requires fs.Usable()
    modifies fs, fs.file, fs.dir, fs.hash, fs.index, fs.oList, fs.nList, fs.oList.list, fs.nList.list
    modifies fs.oList.Files(), fs.nList.Files()
    ensures fault <==> !InStore(old(fs.Snapshot()), op)
    ensures fs.Shape()
    ensures var s := old(fs.Snapshot());
            if fault then fs.Snapshot().data == s.data
            else fs.Snapshot() == Step(s, op).0 && out == Step(s, op).1
    ensures !fault ==> (fs.Usable() <==> KeysFree(old(fs.Snapshot()), op))
  {
    hide Sound, FileSys.Shape, FileSys.Snapshot, FileSys.Cross, Model.Create, Model.Resize, Model.Write, Model.Read,
      Model.Delete, Model.Rename, Model.Size, RepackAll, NewInStore, NewKeysFree, GrownInStore, GrownKeyFree, Begins;
    StepSoundIff(fs.Snapshot(), op);
    var code: int;
    var bytes: seq<byte> := [];
    fault := false;
    match op {
      case Create(name, length) => code, fault := fs.CreateFile(name, length);
      case Resize(name, length) => code, fault := fs.ResizeFile(name, length);
      case Write(name, offset, buf) => code, fault := fs.WriteFile(name, offset, buf);
      case Read(name, offset, count) => code, bytes := fs.ReadFile(name, offset, count);
      case Delete(name) => code := fs.DeleteFile(name);
      case Rename(name, newName) => code := fs.RenameFile(name, newName);
      case Size(name) => code := fs.FileSize(name);
      case Repack =>
        fs.Repack();
        code := 0;
    }
    out := Outcome(code, bytes);
  }

  /** One call on a valid object. It never goes past the end of file_data, returns what the map returns, except
      that a read may report 3, and leaves the files of the new map; if it is safe, the object stays valid, and on
      a valid tree every result is that of the map. */
  method Perform(fs: FileSys, op: Op, ghost st: Store) returns (out: Outcome, fault: bool)
    requires fs.Valid() && Represents(fs.Snapshot(), st) && Named(op)
    modifies fs, fs.file, fs.dir, fs.hash, fs.index, fs.oList, fs.nList, fs.oList.list, fs.nList.list
    modifies fs.oList.Files(), fs.nList.Files()
    ensures !fault && fs.Usable() && Holds(fs.Snapshot(), Apply(st, op).0)
    ensures out == Apply(st, op).1 || (op.Read? && out == Outcome(3, []) && Apply(st, op).1.code == 0)
    ensures Safe(old(fs.Snapshot()), op) ==> fs.Valid() && Represents(fs.Snapshot(), Apply(st, op).0)
    ensures Safe(old(fs.Snapshot()), op) && TreeOk(old(fs.Snapshot())) ==> out == Apply(st, op).1
  {
    hide Represents, Holds, Safe, TreeOk, Inv, Sound, InStore, KeysFree, Named, Step, Apply, FileSys.Shape,
      FileSys.Snapshot, FileSys.Cross;
    ghost var s := fs.Snapshot();
    fs.ValidIsUsable();
    InvLands(s, op);
    StepCarries(s, st, op);
    out, fault := Call(fs, op);
    if Safe(s, op) {
      StepRefines(s, st, op);
      RepresentedInv(fs.Snapshot(), Apply(st, op).0);
      if TreeOk(s) {
        StepIsExact(s, st, op);
      }
    }
  }

  /** init_fs on the buffers that a session left: the new object holds the same map. */
  method Reopen(file: array<byte>, dir: array<byte>, hash: array<byte>, ghost s: State, ghost st: Store)
    returns (fs: FileSys)
    requires file != dir && file != hash && dir != hash
    requires Represents(s, st) && s.data == file[..] && s.dir == dir[..] && s.hash == hash[..]
    ensures fresh(fs) && fs.Valid() && Represents(fs.Snapshot(), st)
  {
    hide Represents, Load, FileSys.Shape, FileSys.Snapshot, FileSys.Cross, Layouts.Stable;
    LoadRoundTrip(s, st);
    RepresentedInv(s, st);
    fs := new FileSys(file, dir, hash);
    RepresentedInv(fs.Snapshot(), st);
    LoadedCross(fs);
  }

  lemma LoadedCross(fs: FileSys)
    requires fs.Shape() && fs.Loaded() && Inv(fs.Snapshot())
    ensures fs.Cross()
  {
    fs.SnapshotSizes();
  }
}
