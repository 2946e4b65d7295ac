# A verified model of the file system engine

This project models the in-memory engine of a file system that keeps its files in one flat byte
store (`file_data`), their names, offsets and lengths in a table of 72-byte records (`dir_table`), and
a tree of checksums over 256-byte blocks (`hash_data`). It proves what that engine computes, runs in which it
behaves as a map from names to byte sequences, exactly which operations keep its data structures in order, and
that from a state in order any single operation still does what the map does: damage shows only in later operations.

`dafny verify dfyconfig.toml` checks everything.

## How it is built

Two layers describe the same code.

* **Objects.** `FletcherSum`, `HashTree`, `Arrays` and `FileSystem` hold the code in its own form:
  loops over accumulators and arrays, a `File` and an `Arr` class with back-indices that are updated in
  place, and a `FileSys` class over four byte arrays and two `Arr` objects. `FileSys.Snapshot()` is the
  value of the whole object, and every method's contract says what it does to that value, as a function of
  `Model`.
* **Values.** `Model` holds those functions. `Layouts`, `Placements`, `Invariants`, `Growth` and
  `Membership` prove what they keep; `Stores` is the map from names to bytes that users see; `Refinement`
  and `AnyStep` relate the two. `Rehashing` and `Relocation` say which nodes are recomputed and where files go.

`Sessions` puts the layers together: a call on the object does what the map does.

The methods of `FileSys` do not ask for the invariant. They ask for `Usable()`: the object graph is intact and the
accounts, slots and both arrays agree on the files, each of which lies in the store, in whatever order the two arrays are,
with files that may overlap (`Soundness.Sound`). Where the source would write past the end of `file_data`, a method returns
`fault`, with `file_data` as it was, and its contract says exactly when. So the methods, and `Sessions.Call`, also cover the last steps of the
counterexample runs, which start in states without the invariant.

## The main results

* **Exactly which operations keep the store in order** (`LayoutSteps.StepKeepsInvIff`). From any state with the
  invariant, an operation keeps the invariant if and only if it is `OrderSafe`, a condition on the state before the call.
  For all operations but a rename this is the same as keeping the layout of the offset array, and for a rename
  the order of the name array. The condition shuts out four families; `Counterexamples` has concrete runs from a new store for each:
  * a new name that does not lie strictly between its neighbours in the name array, since `rename_file`
    overwrites the name in place (`RenameLosesFile`: a file that exists is no longer found);
  * an empty file that grows while other files are empty at 2^32, or while it is sent to offset 0 in front of other
    files, since it is re-inserted with length 0 and so goes last (`EmptyFilesOverlap` and, for the second half,
    `EmptyFileOverwritten`: the next new file is put over its bytes);
  * a file that grows in place over a file that was shrunk to 0 and kept its offset, since the search for
    the next file skips empty ones (`ShrunkFileOverlaps`);
  * a new file that is put over such an offset (`NewFileOverlaps`).
* **Any operation** (`AnyStep.StepCarries`). From any state with the invariant, every operation, safe or not, returns
  what the map returns, except that a read may report a failed verification, and leaves exactly the files of the new map. So a
  run is as the map says up to and including its first unsafe operation (`AnyStep.RunToFirstLoss`).
* **Exactly which operations stay in the buffers** (`SoundSteps.StepSoundIff`). From any sound state, ordered or not, an
  operation leaves a sound one if and only if it `Lands`, a condition on the state before the call: a file that grows where it lies, or a new
  file in a gap, ends in the store (`InStore`), and the arrays take what is inserted (`KeysFree`). From the invariant every operation lands
  (`SoundSteps.InvLands`), so no single operation can leave the buffers; in a later one both halves can fail. `Overruns` has runs from a new store: a
  creation and a growth past the end of `file_data` (`PastTheEnd`), a new file that only the name array takes
  (`NewFileDropped`), and a file that grows and is dropped from the offset array, over the byte of another (`GrownFileDropped`).
* **Refinement** (`Refinement.RunRefines`). Every run of safe operations behaves as the map from names to bytes: results
  agree, except that a read may report a failed verification, and the final state stands for the final map. Runs in which
  no length changes between zero and non-zero and nothing is renamed are always safe
  (`ZeroStableRuns.ZeroStableRunIsSafe`), a condition on the map alone.
* **Hash tree** (`TreeRuns.RunTreeIff`, `TreeRuns.RunIsExact`). In a safe run the tree is valid in every state if and
  only if every operation is `TreeSafe`; then no read reports a failed verification. The one family shut out is the
  growth that copies a file behind others of which none moves, when the copy changes the checksum of a block before the
  bytes that are rehashed (`BareRelocationSpoilsTree`).
* **Damage** (`Rehashing.StepRehashesOnly`, `Rehashing.ReadFailsIff`). From any sound state, with a valid tree or a damaged one, an operation
  recomputes the nodes above the bytes it wrote, or from the first byte a repack moved, and no others; a read reports 3 exactly when
  a node above a block that it copies from does not match. So damage stays visible until its block is rewritten
  (`DamageStays`), and a changed word is reported exactly when the change is not between 0 and 2^32 - 1 (`ReadDetectsWordChange`).
* **Growth** (`Relocation.GrowthPlace`). Where a file that grows lies afterwards is decided by the places of the files alone; a
  file that fits exactly where it lies is not moved. No operation writes any other byte (`Relocation.StepWritesOnly`).
* **Restart** (`Loading.LoadRoundTrip`, `ZeroStableRuns.RestartAfterRun`). The scan of `dir_table` in `init_fs` after any
  safe run recovers exactly the live files, whatever order their slots have and whatever bytes longer names left behind.
* **Compaction** (`Layouts.RepackIsExact`), **placement** (`Placements.NewOffsetFits`), the **checksum**
  (`FletcherSum.ClosedForm`, `FletcherSum.AbsorbConcat`, `FletcherSum.DigestOfWordChange`) and the **tree**
  (`HashTree.RangeUpdateRestoresIff`, `HashTree.RehashIsRecomputation`, `HashTree.VerifiedWholeIffValid`).

## Conventions

A buffer read or written by 32-bit words is little-endian. Names are C strings of at most 63 bytes. An offset of 2^32 marks
an empty file that was never placed. "Invariant" is `Invariants.Inv`: buffer sizes as `init_fs` needs them (a store of at
most 2^31 bytes, one leaf for each block), the layout of the offset array, a strictly sorted name array over the same files,
distinct slots exactly where the slot map is set, a `dir_table` that mirrors all files and has null names elsewhere, and
exact accounts. The comment on `verify_hash_range` announces -1 for a failed verification; the code returns 1, and
so does the model. The comment on `repack_helper` announces -1 if no repack occurred; the code also returns -1 when it moved
empty files only, and the model follows it.

## Model

| member | source | states |
|---|---|---|
| `Memory.MemMove` | myfilesystem.c:448 | an overlapping move leaves the old window at the new place and every other byte as it was |
| `Memory.WriteNullByte` | helper.c:154-166 | null bytes over the range, nothing else, and the number written |
| `FletcherSum.Accumulate` | myfilesystem.c:706-732 | the four accumulators end as the specification of the word sequence, trailing bytes included; each is the remainder of its weighted sum modulo 2^32 - 1; each sum is formed as a 64-bit value before it is reduced, and that it fits is an obligation of the loop and of the tail |
| `FletcherSum.Fletcher` | myfilesystem.c:703-739 | exactly 16 bytes of the output change, to the checksum of the input |
| `FletcherSum.ClosedForm` | myfilesystem.c:713-722 | each accumulator lies below 2^32 - 1 and differs from a weighted sum of the words by a multiple of 2^32 - 1 |
| `FletcherSum.WeightsAreBinomial` | myfilesystem.c:717-722 | the weights are 1, k, k(k+1)/2 and k(k+1)(k+2)/6, where k counts words from the end |
| `FletcherSum.DigestPadsWithNull` | myfilesystem.c:724-732 | trailing bytes hash as if padded with null bytes to a whole word |
| `FletcherSum.AbsorbConcat` | myfilesystem.c:703-739 | the sums of a concatenation are the linear combination of the sums of its parts |
| `FletcherSum.DigestOfConcat` | myfilesystem.c:703-739 | the stored checksum of s + t is computed from the stored checksums of s and of t alone, decoded, when s is a whole number of words |
| `FletcherSum.DigestOfWordChange` | myfilesystem.c:703-739 | changing one word keeps the checksum exactly when the change is between 0 and 2^32 - 1 |
| `FletcherSum.DigestBytes` | myfilesystem.c:734-738 | the four accumulators stand in bytes 0, 4, 8 and 12 of the checksum, lowest byte first |
| `FletcherSum.WordBytes` | myfilesystem.c:706-730 | a word has its lowest byte first, and missing bytes of the last one are null |
| `FletcherSum.KnownChecksums` | runtest.c:831-854 | the two inputs of the program's own test, of 16 and of 13 bytes, have the checksums it expects |
| `FletcherSum.WrappedChecksum` | structs.h:13-14 | a sum that reaches 2^32 - 1 becomes 0: the words 2^32 - 1 and 1 have the sums 1, 1, 1, 1 |
| `HashTree.ParentInvertsChildren` | helper.h:11-13 | the index macros are inverse to each other, and the root has parent -1 |
| `HashTree.NodeBytes` | myfilesystem.c:741-761 | node n lies in 16 bytes at 16 n; it is for the 32 bytes at 16 (2 n + 1), its two children, the left one first, or for the 256 bytes of its block |
| `HashTree.HashNode` | myfilesystem.c:748-761 | writes the checksum of the stored children, or of the block |
| `HashTree.ComputeHashTree` | myfilesystem.c:763-791 | for any number of leaves it ends, every node it visits matches its stored children or block, and the others are as before; it visits every node once and after its children exactly when the number of leaves is a power of two; the tree is valid exactly when the nodes it does not visit held their Merkle hashes before |
| `HashTree.VisitsAllIff` | myfilesystem.c:763-791 | the levels of the traversal cover every node exactly when the number of leaves is a power of two |
| `HashTree.TraversalRestoresIff` | myfilesystem.c:763-791 | whatever the order of the visits, their result is a valid tree exactly when the unvisited nodes held their Merkle hashes before |
| `HashTree.RestoresAllIff` | myfilesystem.c:763-791 | the traversal restores every tree exactly for a power of two; for any other number of leaves some hash buffer stays invalid |
| `HashTree.ComputeHashBlockHelper` | myfilesystem.c:799-816 | the hash buffer becomes the path update of the block |
| `HashTree.ComputeHashBlockRange` | myfilesystem.c:824-840 | the hash buffer becomes the update of every block the range touches, or stays as it is for length 0 |
| `HashTree.VerifyHashRange` | myfilesystem.c:861-895 | returns 0 exactly when every leaf of the range and all its ancestors match, else 1 |
| `HashTree.PathUpdateAt` | myfilesystem.c:807-815 | the path loop makes every node on the path match its stored children and leaves every other node alone |
| `HashTree.BlockUpdateAt` | myfilesystem.c:799-816 | after a block update its leaf and all ancestors match, and no node that matched is spoiled |
| `HashTree.RangeUpdateAt` | myfilesystem.c:836-839 | after a range update everything above a block of the range matches, and every other node is as before |
| `HashTree.AllBlocksUpdate` | myfilesystem.c:824-840 | from arbitrary contents, updating block by block leaves a valid tree |
| `HashTree.RangeUpdateRestoresIff` | myfilesystem.c:818-840 | after a change of the data, a range update restores a valid tree exactly when no block outside the range changed its checksum |
| `HashTree.RehashRestores` | myfilesystem.c:818-840 | if only bytes of the range changed, the update restores a valid tree |
| `HashTree.RehashIsRecomputation` | myfilesystem.c:763-840 | the updated tree is byte for byte the one that any full recomputation leaves |
| `HashTree.ValidTreeIffMerkle` | myfilesystem.c:748-791 | every node matches its stored children exactly when every node is the recursive Merkle hash of the data |
| `HashTree.ValidTreeUnique` | myfilesystem.c:763-791 | the data have only one valid tree |
| `HashTree.VerifiedWholeIffValid` | myfilesystem.c:861-895 | verifying the whole store succeeds exactly on the Merkle tree of the data |
| `HashTree.ValidTreeVerifies` | myfilesystem.c:861-895 | on a valid tree every verification succeeds |
| `HashTree.WordChangeDetected` | myfilesystem.c:861-895 | after a change of one word, a verification that covers it succeeds exactly when the change is between 0 and 2^32 - 1 |
| `Search.NameCmpReflects` | arr.c:69-70 | the name comparison is 0 exactly on equal names, and antisymmetric |
| `Search.NameCmpTransitive` | arr.c:69-70 | the name comparison is transitive |
| `Search.NameCmpIsLexicographic` | arr.c:69-70 | a name comes before another exactly when it is a proper prefix of it or has the smaller byte at the first difference |
| `Search.Truncate` | helper.c:76-79 | a name is kept up to its first 63 bytes |
| `Search.BinaryFindsLinear` | arr.c:222-269 | on monotone comparison signs the bisection answers as a linear scan |
| `Search.LookupByName` | arr.c:205-270 | on a sorted name array a lookup finds the file of that name, or there is none |
| `Search.InsertByName` | arr.c:205-270 | inserting a new name where the search says keeps the array sorted |
| `Search.RemoveUndoesInsert` | arr.c:169-189 | removing what was inserted restores the sequence |
| `Search.SortedAfterRenameIff` | myfilesystem.c:580 | overwriting a name in place keeps the array sorted exactly when it lies strictly between its neighbours |
| `Arrays.File.constructor` | helper.c:49-58 | the fields of a new file; its name is cut to 63 bytes and it has no position yet |
| `Arrays.Arr.constructor` | arr.c:85-99 | an empty array of the given kind and capacity |
| `Arrays.Arr.RShift` | arr.c:143-157 | the tail moves up by one place, its position fields with it; the other array's fields stay |
| `Arrays.Arr.Insert` | arr.c:169-189 | the file is put in at the index, and every file's position field is its position |
| `Arrays.Arr.LShift` | arr.c:302-316 | the tail moves down by one place, its position fields with it; the other array's fields stay |
| `Arrays.Arr.Remove` | arr.c:328-349 | the file at the index is taken out and loses its position, and every other position field is right |
| `Arrays.Arr.FindIndex` | arr.c:205-270 | ends, and on monotone signs answers as a linear scan in both modes |
| `Arrays.Arr.SortedInsert` | arr.c:280-292 | inserts where the search says, or changes nothing when the key is taken |
| `Arrays.Arr.GetByKey` | arr.c:409-426 | the file with that key, or null for an unusable key or no such file |
| `Arrays.Arr.RemoveByKey` | arr.c:360-384 | takes out exactly the file with that key, or nothing |
| `Directory.AfterSetName` | helper.h:20-22 | the name is read back whatever a longer name left behind it, and no other field changes |
| `Directory.AfterSetOffset` | helper.c:87-98 | the offset is read back, 0 for 2^32, and no other field changes |
| `Directory.AfterSetLength` | helper.h:23-25 | the length is read back and no other field changes |
| `Directory.AfterWriteRecord` | helper.c:105-109 | the record mirrors the file and all other records are as before |
| `Directory.RecordBytes` | helper.c:76-109 | name and null byte at byte 0, offset at byte 64 (0 for 2^32), length at byte 68 of a record of 72 bytes, lowest byte first; no other byte of `dir_table` changes |
| `Directory.AfterClear` | myfilesystem.c:548-549 | the slot has no name any more and no other field changes |
| `Layouts.PackStep` | myfilesystem.c:487-504 | one iteration of the compaction keeps every file's bytes although moves overlap, and its answer is exact: the place the first moving non-empty file goes to, or -1 |
| `Layouts.RepackIsExact` | myfilesystem.c:455-507 | in any laid out store: same files, same order, same bytes, no gaps; the answer is -1 exactly when no non-empty file moves, else exactly the place the first of them goes to, which is the lowest byte written, and every modified byte lies between it and the sum of the lengths |
| `Layouts.MovedFromUnique` | myfilesystem.c:461-507 | the condition on the answer of the compaction admits one value only |
| `Layouts.CompactedEnds` | myfilesystem.c:486-504 | afterwards every non-empty file ends within the sum of the lengths and the last one exactly there |
| `Layouts.CompactedKeepsLayout` | myfilesystem.c:461-507 | the layout, and that empty files lie at 0 or 2^32 only, survive |
| `Invariants.RepackKeepsInv` | myfilesystem.c:446-507 | the whole invariant survives, `dir_table` included |
| `Placements.FreeOffsetIsFirst` | myfilesystem.c:184-227 | the scan finds the smallest offset at which the length fits between the non-empty files, or there is none |
| `Placements.NewOffsetFits` | myfilesystem.c:174-238 | a length within capacity always gets a place; a repack only happens when none fits, and then there is room behind all files |
| `Placements.OffsetSearchIsLinear` | arr.c:42-66 | in a laid out offset array, empty files included, the search answers as a linear scan |
| `Placements.InsertionPoint` | arr.c:205-270 | a non-empty file with room goes after exactly the files that end before it |
| `Placements.AmongEmpties` | arr.c:49-66 | among empty files at its own offset, a non-empty one goes behind those below 2^32 and in front of those at 2^32 |
| `Placements.InsertKeepsLayoutIff` | arr.c:280-292 | inserting a non-empty file keeps the layout exactly when every other file ends before it or begins after it |
| `Placements.RoomIffNoEmptyInside` | helper.c:136-139 | a place found between non-empty files has room exactly when no empty file lies inside it |
| `Invariants.LookupIs` | myfilesystem.c:395-397 | the lookup by name finds the file of that name, or there is none |
| `Invariants.SizesInBytes` | structs.h:13-25 | blocks of 256 bytes, nodes of 16, records of 72, at most 65536 of them |
| `Membership.FreeSlotExists` | myfilesystem.c:147-163 | after the check of `create_file` the lowest free slot exists, so the assertion holds; no file owns it and every lower slot is owned |
| `Membership.AddFileKeepsInv` | myfilesystem.c:264-272 | a new file in a clear place and a free slot keeps the invariant over both arrays, the slot map, `dir_table` and the accounts |
| `Membership.DeleteKeepsInv` | myfilesystem.c:540-549 | a deletion keeps the invariant and takes the file out of both arrays |
| `Membership.RenameKeepsInv` | myfilesystem.c:580-581 | a new name between its neighbours keeps the invariant |
| `Growth.HelperGrows` | myfilesystem.c:307-388 | a safe growth keeps the invariant and every other file's bytes, carries over the first bytes of the file, and reports the place to which the first other file moves, or -1 exactly when none does; it moves the file exactly when there is no room where it lies |
| `Growth.HelperShrinks` | myfilesystem.c:379-387 | shrinking moves nothing and keeps the layout |
| `Growth.RelocateNonEmpty` | myfilesystem.c:357-375 | taking the file out, packing the rest and putting it back behind keeps the layout and all bytes |
| `Growth.RelocateEmpty` | myfilesystem.c:316-338 | the same for an empty file, when nothing is left for it to be wrongly put behind |
| `Growth.MovesIff` | myfilesystem.c:340-354 | a file that grows is moved exactly when it is at 2^32, or it would end behind the store or behind the start of a later non-empty file; one that fits exactly stays |
| `Relocation.GrowthPlace` | myfilesystem.c:307-388 | from the invariant, safe or not: with room the file stays, no other entry changes and only its new bytes are written; an empty one at 2^32 goes to 0 when no other file begins before its length; else the file goes behind all others, which are packed |
| `Soundness.RepackInside` | myfilesystem.c:461-507 | the compaction of files in any order, overlapping or not, moves them inside the store |
| `Soundness.RepackKeepsSound` | myfilesystem.c:461-507 | so it keeps every state sound |
| `SoundSteps.InvLands` | myfilesystem.c:240-682 | from the invariant, whatever an operation places lies in the store and is accepted by both arrays |
| `SoundSteps.StepSoundIff` | myfilesystem.c:240-682 | in whatever order the arrays are, an operation keeps slots, accounts, places and both arrays consistent exactly when what it places ends in the store and both arrays take it |
| `SoundSteps.RunSoundIff` | myfilesystem.c:240-682 | every state of a run is sound exactly when every operation lands |
| `FileSystem.FileSys.constructor` | myfilesystem.c:31-116 | the object is the scan of `dir_table`; both arrays hold the same files if no insertion was refused |
| `FileSystem.FileSys.RepackMove` | myfilesystem.c:446-453 | the bytes, the offset and the record of one file |
| `FileSystem.FileSys.RepackHelper` | myfilesystem.c:461-507 | the in-place loop does to the object what the compaction does to its value |
| `FileSystem.FileSys.FindNextNonzeroFile` | helper.c:121-143 | the next non-empty file in front of the files at 2^32, or null |
| `FileSystem.FileSys.NewFileIndex` | myfilesystem.c:147-163 | the lowest free slot; the assertion at the end holds |
| `FileSystem.FileSys.NewFileOffset` | myfilesystem.c:174-238 | the offset, the repack and the reported position of the value-level placement |
| `FileSystem.FileSys.ResizeHelper` | myfilesystem.c:307-388 | the new state, the file's new fields and the result are those of the value-level resize, for arrays in any order; the file leaves the offset array exactly when its key is taken there |
| `FileSystem.FileSys.CreateFile` | myfilesystem.c:240-295 | new state and result code, error paths included, for arrays in any order; exactly when the bytes would go past the end of `file_data` it stops with `fault` before it writes them |
| `FileSystem.FileSys.ResizeFile` | myfilesystem.c:390-438 | new state and result code, error paths included, for arrays in any order; exactly when the bytes would go past the end of `file_data` it stops with `fault` before it writes them |
| `FileSystem.FileSys.WriteFile` | myfilesystem.c:629-682 | new state and result code, error paths included, for arrays in any order; exactly when the bytes would go past the end of `file_data` it stops with `fault` before it writes them |
| `FileSystem.FileSys.ReadFile` | myfilesystem.c:589-627 | result code and the bytes copied out |
| `FileSystem.FileSys.DeleteFile` | myfilesystem.c:527-557 | new state and result code |
| `FileSystem.FileSys.RenameFile` | myfilesystem.c:559-587 | new state and result code; the position in the name array stays |
| `FileSystem.FileSys.FileSize` | myfilesystem.c:684-701 | the length, or -1 |
| `FileSystem.FileSys.Repack` | myfilesystem.c:509-525 | the compaction and the rehash of what it modified |
| `FileSystem.FileSys.Scan` | myfilesystem.c:77-113 | the object after the scan of all records |
| `FileSystem.FileSys.WriteDirFile` | helper.c:105-109 | the record of the file's slot, nothing else |
| `Stores.ApplyKeepsBounds` | myfilesystem.c:252-257 | no operation of the map exceeds the capacity or the number of files |
| `Refinement.CreateRefines` | myfilesystem.c:240-295 | a safe creation binds null bytes, or returns 1 or 2 as the map does |
| `Refinement.ResizeRefines` | myfilesystem.c:390-438 | a safe resize truncates or extends with null bytes, and no other file's bytes change |
| `Refinement.WriteRefines` | myfilesystem.c:629-682 | a safe write leaves old bytes, the buffer and the rest, also when the relocation copied only the bytes before it |
| `Refinement.DeleteRefines` | myfilesystem.c:527-557 | a deletion removes exactly the name |
| `Refinement.RenameRefines` | myfilesystem.c:559-587 | a rename between the neighbours rebinds the bytes to the new name |
| `Refinement.RepackRefines` | myfilesystem.c:461-507 | a repack changes nothing of the map |
| `Refinement.ReadRefines` | myfilesystem.c:589-627 | a read that returns 0 delivers the exact slice; the only other result where the map delivers bytes is 3 |
| `Refinement.ReadIsExact` | myfilesystem.c:611-623 | on a valid tree a read never returns 3 |
| `Rehashing.ReadFailsIff` | myfilesystem.c:589-627 | in any sound state, whatever its tree, a read returns 3 exactly when it copies something and some node above a block it copies from does not match |
| `Rehashing.ReadDelivers` | myfilesystem.c:589-627 | any other read returns 1, 2, or 0 with the exact bytes |
| `Rehashing.ReadDetectsWordChange` | myfilesystem.c:589-627 | after one word changed under a valid tree, a read from its block returns 3 exactly when the change is not between 0 and 2^32 - 1 |
| `Refinement.StepRefines` | myfilesystem.c:240-701 | one safe operation of any kind refines the map |
| `AnyStep.StepCarries` | myfilesystem.c:240-701 | from the invariant, one operation of any kind, safe or not, returns what the map returns up to a read's 3, and leaves a sound state with exactly the files of the new map, each with its bytes |
| `AnyStep.RunToFirstLoss` | myfilesystem.c:240-701 | a run is as the map says up to and including its first unsafe operation |
| `Rehashing.StepRehashesOnly` | myfilesystem.c:240-682 | in any sound state, whatever its tree, the nodes above the new bytes, or above everything from the first byte a repack moved, match afterwards, and every other node keeps its 16 bytes; refused, shrinking, deleting and renaming operations keep all |
| `Rehashing.DamageStays` | myfilesystem.c:240-682 | a block that fails its checksum, keeps its bytes and is not among those still fails |
| `Relocation.StepWritesOnly` | myfilesystem.c:240-682 | from the invariant, safe or not, an operation writes no byte of `file_data` but the new ones, those from the first byte a repack moved, and the kept ones of a file that moves |
| `Refinement.RunRefines` | myfilesystem.c:240-701 | every safe run behaves as the map and keeps the invariant |
| `Abstraction.AccountsOf` | myfilesystem.c:252-278 | `used` is the sum of all file sizes and `index_count` the number of files |
| `Abstraction.RepresentsAbstract` | structs.h:36-73 | every state with the invariant stands for a map |
| `LayoutSteps.StepKeepsInvIff` | myfilesystem.c:240-587 | an operation keeps the invariant exactly when it is safe; an unsafe one loses the layout, or for a rename the name order |
| `LayoutSteps.NamelessKeepsInvIff` | myfilesystem.c:240-587 | an operation that gives a file the empty name keeps the invariant exactly when it is refused for another reason; else the file is in both arrays and no lookup finds it |
| `TreeRuns.BareMoveIff` | myfilesystem.c:357-367 | a relocation reports -1 exactly when all other files already lay packed |
| `TreeRuns.BareMoveTreeIff` | myfilesystem.c:425-428 | after such a relocation the tree is valid exactly when no checksum before the rehashed bytes notices the copy |
| `TreeRuns.StepTreeIff` | myfilesystem.c:280-674 | from a valid tree, a safe operation leads to a valid one exactly when it is tree-safe |
| `TreeRuns.RunTreeIff` | myfilesystem.c:280-674 | in a safe run the tree is valid in every state exactly when every operation is tree-safe |
| `TreeRuns.RunIsExact` | myfilesystem.c:240-701 | while the tree is valid a safe run returns exactly what the map returns |
| `Loading.LoadRoundTrip` | myfilesystem.c:77-113 | the scan of any state with the invariant recovers exactly its files, empty ones at 2^32, in sorted arrays |
| `Loading.LoadEmpty` | myfilesystem.c:77-113 | an empty directory loads as the empty map |
| `ZeroStableRuns.ZeroStableIsSafe` | myfilesystem.c:240-557 | with empty files only at 0 and 2^32, an operation without a change between zero and non-zero is safe and keeps it so |
| `ZeroStableRuns.ZeroStableRunIsSafe` | myfilesystem.c:240-701 | runs of such operations are safe and behave as the map, decided by the map alone |
| `ZeroStableRuns.RestartAfterRun` | myfilesystem.c:77-116 | starting again from the buffers that any safe run left gives the same map |
| `Sessions.Perform` | myfilesystem.c:240-701 | a call on a valid object never goes past the end of `file_data` and does what the map does, safe or not, up to a read's 3; a safe one keeps the object valid, and on a valid tree its result is exact |
| `Sessions.Call` | myfilesystem.c:240-701 | a call on a usable object, in any order, does what the value-level step does, or stops with `fault` exactly when its bytes would go past the end of `file_data`; without a fault the object stays usable exactly when the arrays took what was inserted |
| `Sessions.Reopen` | myfilesystem.c:31-116 | `init_fs` on the buffers of a session gives a valid object with the same map |
| `Counterexamples.RenameLosesFile` | myfilesystem.c:580 | two files and one rename after which a file that exists is not found |
| `Counterexamples.EmptyFilesOverlap` | myfilesystem.c:316-338 | three empty files, two writes, both at offset 0: the second overwrites the first |
| `Counterexamples.ShrunkFileOverlaps` | myfilesystem.c:379-385 | a file shrunk to 0, another grown over it, and a write to the first changes the second |
| `Counterexamples.EmptyFileOverwritten` | myfilesystem.c:316-338 | an empty file written in front of another but put behind it, and a new file that zeroes its bytes |
| `Counterexamples.NewFileOverlaps` | myfilesystem.c:184-227 | a new file put over the offset that a file shrunk to 0 kept, and a write to the latter that changes the former |
| `Overruns.PastTheEnd` | myfilesystem.c:184-227 | five operations after which creating a file, growing one and writing to one all go past the end of `file_data` |
| `Overruns.NewFileDropped` | arr.c:280-292 | six operations, the last of which returns 0 and puts the new file into the name array only |
| `Overruns.GrownFileDropped` | myfilesystem.c:357-375 | ten operations, the last of which returns 0, drops the file from the offset array and overwrites a byte of another |
| `Counterexamples.BareRelocationSpoilsTree` | myfilesystem.c:421-428 | a resize after which the tree is invalid and reading an unrelated file returns 3 |

## Left out

- The calls to open, map, synchronise and close the three files, and memory allocation and release (`free_arr`, `free_file`): foreign calls. The model starts from byte arrays of the sizes that `init_fs` needs.
- The mutex: every operation holds it from start to end, so an operation is one step.
- myfuse.c, the callbacks and error numbers of the mounted file system.
- `compute_hash_block` as a call of its own: it is `HashTree.ComputeHashBlockHelper` under the lock.
- Wrap-around of huge `size_t` arguments: lengths, offsets and counts are natural numbers and their sums do not wrap. Subtractions that the code does on unsigned operands are modelled modulo 2^64.
- Widths of the fields: a length fits its 32 bits, and a reported position its 32 bits in `write_file`, because both stay within the capacity of at most 2^31.
- Names with an embedded null byte: C strings have none. Empty new names are covered by `LayoutSteps.NamelessKeepsInvIff` and, as to soundness, by `SoundSteps.StepSoundIff`; the refinement results are about operations that give no empty name (`Refinement.Named`).
- Arrays.Arr.constructor: the unused slots of the list hold a filler object, where the source leaves memory uninitialised; no function reads them.
- FileSystem.FileSys.ReadFile: the caller's buffer is a result; the temporary key on the stack is a value.
- FileSystem.FileSys.CreateFile: what a C program does after it has written past the end of `file_data`; the method stops there with `fault`, and so do `ResizeFile` and `WriteFile`.
- Sessions.Call: calls on an object one of whose arrays has dropped a file (`KeysFree` fails). The source then finds the file in one array only, with position -1 in the other, and deleting it meets the assertion of `arr_remove`.
- The methods of `FileSys` are cut into more pieces than the source has functions, along the places where a contract could be stated.
- Refinement.StepRefines: safe operations only. `AnyStep.StepCarries` covers the first unsafe one. About operations after it only the exact condition of soundness (`SoundSteps.StepSoundIff`) and agreement of object and value (`Sessions.Call`) are proved, not agreement with the map, which the counterexample runs refute.
