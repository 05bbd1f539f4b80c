# xv6 in Dafny

A model of the parts of xv6 (the x86 teaching kernel) whose correctness is a
matter of more than one function, with proofs of what they promise. Code that
updates structures in place is modelled as classes whose methods are proved
against specifications. Concurrent code is modelled as state machines, one step
per section under a lock, and its properties are about every state of every run.

| files | part of xv6 | main results |
|---|---|---|
| `log_*` | the write-ahead log (`log.c`) | crash atomicity of commit and recovery, under any interleaving of operations and any number of crashes, and exactly the log sizes that have it; operations are committed in whole groups; the space reservation; exactly when `log_write` panics, and when a commit runs out of buffers |
| `fs_*` | block allocation, file blocks, reading, writing, truncating (`fs.c`, `file.c`) | the free map and the references of inodes are inverse to each other after every call; a write is a splice of the file's bytes, touches no other file and logs what it changes; it panics exactly when fewer blocks are free than it has to allocate; each transaction of `filewrite` is one the log has reserved for |
| `vm_*` | page allocator and page tables (`kalloc.c`, `vm.c`) | every page is free, held or in use for exactly one purpose; `allocuvm`, `deallocuvm`, `freevm`, `setupkvm` and `copyuvm` change exactly what they should and fail exactly when the free list lacks the pages they take; what a failed one leaves is stated exactly |
| `heap_*` | `malloc` and `free` (`umalloc.c`) | blocks in use are disjoint, free blocks are maximal, no unit is lost; exactly when a request is sized right |
| `pipe_*` | pipes (`pipe.c`) | first in first out through wrapping counters; exactly which runs lose a wakeup, and which put a killed process to sleep |
| `proc_*` | the process table (`proc.c`) | RUNNING means on exactly one CPU; parents are alive; no exit and no kill is missed by `wait` |
| `bio_*` | the buffer cache (`bio.c`) | one buffer per block, the holder of its lock has the latest contents, dirty buffers are never recycled |
| `sh_*` | the shell's parser (`sh.c`) | the parser in place equals a grammar; printing and parsing a command tree gives it back; cutting the line leaves every word intact |
| `dir_*` | directories and link counts (`sysfile.c`, `fs.c`) | link counts equal names, and the directories form a tree below the root; exactly when creating and linking keep that |
| `grep.dfy` | the matcher (`grep.c`) | true exactly when the pattern describes a stretch of the text |

`dafny verify dfyconfig.toml` checks all of it.

## Where the code does not keep a promise

Each of these has a member showing a failing input or run, and one giving the
exact condition.

- `log.c:218` tests the length of the list without the lock, and `log.c:228`
  appends with it. Up to three operations pass the test together, so the list can
  reach `log.size + 1`, and the commit copies its last blocks behind the log area
  before the commit point. Runs of operations that log fewer than MAXOPBLOCKS
  different blocks before each `log_write` all recover to whole groups if and only
  if `log.size` is larger than LOGSIZE or below 2 (`LogCapacity.OutgrownLoses`,
  `LogCapacity.RecoverableIff`); in any run, the first commit that does not fit
  breaks recovery unless the block it overwrites already has those contents
  (`LogCapacity.UnfitCommitIff`). `mkfs.c:25` makes `log.size` exactly LOGSIZE
  (`LogCapacity.MkfsDiskLoses`).
- `log.c:218` panics when the list reaches `log.size - 1`, while `begin_op`
  reserves up to LOGSIZE. Operations that log fewer than MAXOPBLOCKS different
  blocks before each `log_write` never panic in `log_write` or `end_op` if and
  only if the on-disk log is larger than LOGSIZE blocks
  (`LogCapacity.SmallLogPanics`, `LogCapacity.NeverPanicsIff`). `mkfs.c:25` makes
  it exactly LOGSIZE.
- `log.c:218` tests before `log.c:224` looks for the block. With a log area
  larger than LOGSIZE, and operations that append at most MAXOPBLOCKS blocks, a
  `log_write` panics if and only if LOGSIZE blocks are logged, even for a block
  that is among them (`LogCapacity.AbsorbingPanics`, `LogGroups.PanicIff`).
- `log.c:183` needs a buffer for a log block while all the logged blocks are
  dirty. A commit panics in `bget` if and only if the logged blocks and the
  clean buffers in use are all the buffers there are; over all runs, no commit
  does if and only if the cache has more buffers than the longest list, which is
  LOGSIZE or `log.size + 1`, whichever is less (`LogBuffers.FullCache`,
  `LogBuffers.CommitsGoOnIff`). `param.h` makes NBUF equal to LOGSIZE, so no size
  of the log area avoids both this and the panic of `log_write`
  (`LogBuffers.NoSizeIsSafe`); the size that `mkfs.c:25` gives it avoids neither
  (`LogBuffers.ShippedSizesStick`).
- `pipe.c:86-89`: a killed writer that finds the pipe full returns without the
  final wakeup. Readers that went to sleep before it stored its bytes stay asleep
  on a full pipe. A run loses a wakeup if and only if this happens in it
  (`PipeRuns.WakeupCanBeLost`, `PipeRuns.NoLostWakeupIff`).
- `pipe.c:86` and `pipe.c:106` test `killed` before `sleep`, and `kill` wakes only
  a process already marked SLEEPING. A killed process goes to sleep in a run if
  and only if it is killed between that test and its taking ptable.lock
  (`PipeKills.KilledReaderSleeps`, `PipeKills.KillMissedIff`). `wait` does both
  under ptable.lock and has no such gap (`ProcRuns.KilledLeavesWait`).
- `umalloc.c:69`: the rounding wraps for the last seven request sizes, so the
  block has room if and only if `nbytes + 7` fits 32 bits (`HeapFacts.NoRoom`,
  `HeapFacts.RoomIff`).
- `umalloc.c:54` passes a byte count to an `int`. sbrk is asked for the block if
  and only if it is below 2^31 bytes (`HeapFacts.AsksForNothing`,
  `HeapFacts.RequestIff`).
- `sysfile.c`: `create` and `link` do not look at the parent's own link count.
  Counts and tree survive them if and only if the parent still has a link
  (`DirLinks.FileInUnlinked`, `DirLinks.DirInUnlinked`, `DirLinks.CreateIff`;
  `DirLinks.LinkInUnlinked`, `DirLinks.LinkIff`; `DirRuns.CreateInRemoved` is a
  run that gets there).
- `vm.c:221-249`: a failed `allocuvm` undoes every mapping, but page tables made
  on the way stay with the directory. The free pages are the same as before if
  and only if memory ran out before the second page for the first directory
  entry without a table (`VmRuns.TableStays`, `VmGrow.MadeIff`,
  `VmGrow.Allocuvm`).
- `sh.c:393-402`: `>>` builds the same command as `>`. Any line with a `>>` is
  parsed as with `>` in its place (`ShAppend.AppendExample`,
  `ShAppend.AppendIsWrite`), and a redirection is for output if and only if its
  token is one of the two (`ShAppend.OutIff`).

## Conventions

- Integers are unbounded; 32-bit wrap-around is written out where the code can
  reach it (offsets in `fs.c`, pipe counters, `malloc`).
- A kernel panic is a result of the operation. Where the contract says it does
  not happen, that is proved.
- Ghost fields and maps (`owner`, `part`, `fl`, `calls`) name who owns what and what was logged. They
  are tied to the real fields by the invariants, and lemmas restate the
  invariants without them.
- What a method needs of its caller is what the code needs: the lock is held, the
  inode exists, the page freed is not free already.

## Model

| member | source | states |
|---|---|---|
| LogDisk.HeadWith | xv6-public/log.c:101-113 | the header block holds the count and the block list, and every word past the list is what it was |
| LogDisk.RecoveredListed | xv6-public/log.c:69-82 | after recovery the i-th block of the on-disk list has the contents of the i-th log block |
| LogDisk.RecoveredOther | xv6-public/log.c:69-82 | recovery leaves every block outside the log and the list alone |
| LogDisk.RecoveredEmpty | xv6-public/log.c:115-122 | recovery ends with an empty, well-formed header, and on an empty log it changes no block outside the log |
| LogDisk.CommitFinished | xv6-public/log.c:192-202 | a finished commit has every logged block in place, an empty header, and nothing left for recovery to change |
| LogDisk.CommitCrashAtomic | xv6-public/log.c:192-202 | crash after any number of the disk writes of a commit: recovery gives the old contents if the header write had not happened and the whole transaction if it had, nothing else |
| LogDisk.RecoveryCrash | xv6-public/log.c:115-122 | crash after any number of recovery's own writes: the disk still has a valid header and recovers to the same contents |
| LogDisk.AfterCrashes | xv6-public/log.c:115-122 | any finite sequence of recoveries cut short at any points leaves a valid header |
| LogDisk.RecoveryIdempotent | xv6-public/log.c:115-122 | after any sequence of interrupted recoveries a completed one gives what an uninterrupted one would have |
| LogDisk.CommitThenCrashesAtomic | xv6-public/log.c:192-202 | both together: a commit cut anywhere, then any number of interrupted recoveries, then a completed one: all of the transaction or none of it |
| LogCode.Absorbed | xv6-public/log.c:213-233 | log absorption: the list keeps its order and entries, gains the block once if it was missing, and never holds a block twice |
| LogCode.Log.constructor | xv6-public/log.c:54-66 | initlog: on any disk with a sound header, recovery has been done write by write, and there is no logged block, no operation outstanding and no commit |
| LogCode.Log.WriteLog | xv6-public/log.c:177-190 | copies each logged block from cache to its own log block, touching neither the header nor any block outside the log |
| LogCode.Log.WriteHead | xv6-public/log.c:101-113 | one disk write: the header with the in-memory list |
| LogCode.Log.ClearHead | xv6-public/log.c:199-200 | count set to 0, then one header write |
| LogCode.Log.ReadHead | xv6-public/log.c:85-96 | the in-memory list becomes the on-disk one |
| LogCode.Log.InstallTrans | xv6-public/log.c:69-82 | the writes from the log to the home blocks in list order, and no write to the log area |
| LogCode.Log.LogThenHead | xv6-public/log.c:196-197 | all log blocks are on disk before the header names them |
| LogCode.Log.InstallThenClear | xv6-public/log.c:198-200 | every home block is written before the header is erased |
| LogCode.Log.CommitSteps | xv6-public/log.c:192-202 | the loops of commit issue exactly a legal commit plan, one write at a time |
| LogCode.Log.Commit | xv6-public/log.c:192-202 | the disk writes issued are exactly the transaction's write sequence, in order, and the log is empty after |
| LogCode.Log.RecoverFromLog | xv6-public/log.c:115-122 | the in-place recovery issues the specified writes in order and ends in the recovered disk |
| LogCode.CommitCrashSafe | xv6-public/log.c:192-202 | every prefix of that write sequence recovers to all or nothing |
| LogCode.Log.FindSlot | xv6-public/log.c:224-227 | the search of log_write: the first position holding the block, or the end |
| LogCode.Log.LogWrite | xv6-public/log.c:213-233 | panics exactly when the list is full for LOGSIZE or for the on-disk area or no operation is outstanding; otherwise absorbs the block and pins the new contents |
| LogCode.Log.TryBeginOp | xv6-public/log.c:125-141 | one pass of begin_op sleeps exactly while committing or when a further MAXOPBLOCKS reservation would not fit |
| LogCode.Log.LeaveOp | xv6-public/log.c:150-163 | the last one out, and only that one, becomes the committer |
| LogCode.Log.EndOp | xv6-public/log.c:145-174 | panics exactly when already committing; the last operation commits with every logged block in place, any other changes nothing on disk; every write prefix on the way is crash safe |
| LogProtocol.BasicAlways | xv6-public/log.c:115-233 | in every state of every run, commits that do not fit in the log area included: outstanding counts the active operations, nobody is active during a commit or a recovery, and list and on-disk header name different home blocks, at most LOGSIZE |
| LogProtocol.AppendKeeps | xv6-public/log.c:223-232 | a locked log_write keeps cache, list and disk consistent with the operations logged so far, however long the list is |
| LogProtocol.NextIs | xv6-public/log.c:177-202 | for a commit that fits, what the buffers hold at each write is what the transaction says comes next |
| LogProtocol.CommitWriteKeeps | xv6-public/log.c:192-202 | one disk write of the committer keeps the crash invariant |
| LogProtocol.TrackSees | xv6-public/log.c:192-202 | all through such a commit a read through the cache sees every write logged |
| LogProtocol.FinishCommitKeeps | xv6-public/log.c:168-172 | when the commit ends the group is durable and the log is open again |
| LogProtocol.RecoveryKeeps | xv6-public/log.c:115-122 | every single recovery write keeps the crash invariant |
| LogProtocol.CrashKeeps | xv6-public/log.c:115-122 | losing memory at any moment keeps the crash invariant |
| LogProtocol.CrashStep | xv6-public/log.c:125-233 | every step of every process, of the committer and of recovery, and every crash, keeps the crash invariant, but for the start of a commit that has fewer slots in the log area than blocks |
| LogProtocol.CrashInvAlways | xv6-public/log.c:125-233 | so it holds in every state of every run up to the first such commit |
| LogProtocol.InvRecoverable | xv6-public/log.c:115-122 | what the invariant means: recovering now would give exactly the committed groups, applied in order |
| LogProtocol.PastAreaIff | xv6-public/log.c:182-189 | such a commit copies a block to the one behind the log area; a crash then recovers the committed groups if and only if that changes nothing |
| LogGroups.RecoveryGivesWholeGroups | xv6-public/log.c:125-233 | in every state of every interleaving with any number of crashes, recovery gives the first disk with the committed groups applied in order, each of them whole, as long as every commit had a slot in the log area for each of its blocks; LogCapacity.RecoverableIff and LogCapacity.UnfitCommitIff say exactly when that is and what happens otherwise |
| LogGroups.ReadsSeeEverything | xv6-public/log.c:213-233 | in such runs, from boot to crash, commits included, a read through the cache sees every write logged so far |
| LogGroups.FateInvAlways | xv6-public/log.c:125-202 | in every run the accounts of who is pending, committed or lost agree with the groups |
| LogGroups.EveryOperationInOneGroup | xv6-public/log.c:125-202 | each admitted operation has all its writes, in order, in exactly one committed group, or all in the open one, or (after a crash) none anywhere |
| LogGroups.CommittedStays | xv6-public/log.c:125-202 | what is committed stays committed through every later step and crash |
| LogGroups.IdleMeansCommitted | xv6-public/log.c:145-174 | when no operation is active each one ever admitted is committed or was lost in a crash |
| LogGroups.BudgetMeansRoom | xv6-public/log.c:125-141 | an operation that has appended fewer than MAXOPBLOCKS new blocks finds fewer than LOGSIZE logged, and a free slot for the next if the log area is larger than LOGSIZE |
| LogGroups.ReserveAlways | xv6-public/log.c:125-141 | for operations that append at most MAXOPBLOCKS new blocks (writing listed ones again at will), and any size of the log area, the reservation invariant holds in every state of every run, and log.lh.block is never stored to past its end |
| LogGroups.ReservationHolds | xv6-public/log.c:125-141 | so logged blocks plus unspent reservations never exceed LOGSIZE, no block is listed twice, outstanding counts the active operations, nobody is active while committing, and an operation with budget left finds a slot if the log area is larger than LOGSIZE |
| LogGroups.NobodyLeftAsleep | xv6-public/log.c:125-174 | under the same discipline, for any size of the log area, a process sleeps in begin_op only while there is a reason to, with an active operation or a commit still to wake it |
| LogGroups.PanicIff | xv6-public/log.c:213-233 | in such runs, with a log area larger than LOGSIZE, a step panics if and only if it is a log_write that finds LOGSIZE blocks logged, whether or not its own block is among them |
| LogGroups.FrugalIsDisciplined | xv6-public/log.c:213-233 | an operation that has passed fewer than MAXOPBLOCKS different blocks to log_write before each call, whatever others do, keeps that discipline |
| LogGroups.FrugalNeverPanics | xv6-public/log.c:213-233 | and with an on-disk area larger than LOGSIZE no run of such operations panics in log_write or end_op |
| LogCapacity.MostAlways | xv6-public/log.c:213-233 | the list never has more than log.size + 1 blocks, nor more than LOGSIZE, and none at all if log.size is below 2 |
| LogCapacity.Fill | xv6-public/log.c:213-233 | and operations within budget reach that bound: for every number up to it there is a run in which they log that many blocks |
| LogCapacity.OutgrownLoses | xv6-public/log.c:177-233 | from any first state with log.size from 2 to LOGSIZE there is a run of operations within budget, a crash in their commit and a complete recovery, after which nothing is committed and a block outside the log has changed |
| LogCapacity.UnfitCommitIff | xv6-public/log.c:177-202 | in every run, once the first commit with more blocks than slots has written past the log area, recovery gives the committed groups if and only if the block written happens to have the contents it replaces |
| LogCapacity.RecoverableIff | xv6-public/log.c:125-233 | every run of operations within budget stays recoverable to whole groups, and reads see every write in it, if and only if log.size is larger than LOGSIZE or below 2; mkfs.c:25 makes it equal to LOGSIZE |
| LogCapacity.ZeroedBoots | xv6-public/mkfs.c:110-111 | a zeroed disk with any log area on it is a first state |
| LogCapacity.MkfsDiskLoses | xv6-public/mkfs.c:97-111 | so the layout of mkfs.c has a run that does not stay recoverable |
| LogCapacity.SmallLogPanics | xv6-public/log.c:218-219 | from any first state with an on-disk area of at most LOGSIZE blocks there is a run of such operations that panics in log_write |
| LogCapacity.NeverPanicsIff | xv6-public/log.c:218-219 | no run of such operations panics in log_write or end_op if and only if the on-disk area is larger than LOGSIZE; mkfs.c:25 makes it equal to LOGSIZE |
| LogCapacity.AbsorbingPanics | xv6-public/log.c:218-227 | with any larger area too there is a run in which no operation logs more than MAXOPBLOCKS different blocks and a log_write of a block already listed panics |
| BioCache.GotNoneIff | xv6-public/bio.c:61-93 | bget panics if and only if no buffer has the block and every buffer is dirty or referenced |
| LogBuffers.LogOne | xv6-public/log.c:182-189 | one round of write_log on the buffer cache panics exactly when every buffer is dirty or in use, waits for itself exactly when a block is copied to its own log block, and otherwise leaves all references as they were, the block behind the log area clean if it was copied to |
| LogBuffers.HeadOne | xv6-public/log.c:101-113 | write_head finds its buffer when one is to spare |
| LogBuffers.InstallOne | xv6-public/log.c:73-80 | one round of install_trans finds its buffers and leaves the installed block clean |
| LogBuffers.WriteRoom | xv6-public/bio.c:80-92 | a logged block written early gives its buffer up or is held by somebody else, so a commit that has found a buffer keeps finding them |
| LogBuffers.LogAll | xv6-public/log.c:177-190 | all of write_log: panics in its first round or not at all, exactly when every buffer is dirty or in use; waits for itself exactly in the round of the first block copied to its own log block |
| LogBuffers.InstallAll | xv6-public/log.c:69-82 | all of install_trans after it: finds every buffer and leaves no block of the transaction dirty |
| LogBuffers.CommitBuffers | xv6-public/log.c:192-202 | commit, whether or not it fits in the log area, panics in bget exactly when it has something to commit and every buffer is dirty or in use; waits for itself exactly when it does not and a block is copied to its own log block; otherwise every block of the transaction ends up clean |
| LogBuffers.StuckIff | xv6-public/bio.c:80-92 | which is exactly when the blocks logged and the clean buffers that others refer to add up to all buffers |
| BioFull.AllLogged | xv6-public/bio.c:61-141 | breads, log_writes and brelses of as many blocks as there are buffers leave every buffer dirty and unreferenced |
| LogBuffers.FullCache | xv6-public/log.c:192-202 | a run of the log and a run of the buffer cache, for every number of buffers up to the longest list, such that the commit finds every buffer dirty |
| LogBuffers.CommitsGoOnIff | xv6-public/log.c:192-202 | no commit of any run of operations within budget is stuck in bget if and only if the cache has more buffers than the longest list: LOGSIZE or log.size + 1, whichever is less, or none if log.size is below 2 |
| LogBuffers.NoPanicIff | xv6-public/log.c:192-233 | neither log_write and end_op nor a commit's bget panics, in any such run, if and only if both the log area and the cache are larger than LOGSIZE |
| LogBuffers.NoSizeIsSafe | xv6-public/param.h:10-12 | NBUF equals LOGSIZE, so for every log area one of the two happens |
| LogBuffers.ShippedSizesStick | xv6-public/mkfs.c:25 | with the log area of mkfs.c, also LOGSIZE blocks, a commit can be stuck |
| FsBytes.Overlay | xv6-public/fs.c:501 | memmove into a block: the given bytes at the offset, every other byte kept |
| FsBytes.WithBit | xv6-public/fs.c:66-68 | setting a free-map bit by mask changes that bit and no other of the block |
| FsBytes.WithoutBit | xv6-public/fs.c:89-92 | clearing one changes that bit and no other |
| FsBytes.WithWord | xv6-public/fs.c:391-393 | storing an indirect entry changes that entry and no other |
| FsVolume.SoundMeansExactlyOne | xv6-public/fs.c:408-435 | what a sound volume is: a block is marked in use exactly when it is metadata or referred to by a slot, no block is referred to twice, and no slot refers to metadata |
| FsVolume.FreeCount | xv6-public/fs.c:56-95 | free blocks and blocks that a slot refers to are all the data blocks there are |
| FsVolume.AllocateAccounts | xv6-public/fs.c:56-78 | marking a free block keeps every slot and accounts for the block as taken and not yet stored |
| FsVolume.UnmarkAccounts | xv6-public/fs.c:82-95 | unmarking an owned block keeps every slot and accounts for the block as freed and not yet forgotten |
| FsVolume.StoreAddr | xv6-public/fs.c:378-388 | storing the fresh block in an empty direct or indirect slot restores soundness and changes no other slot |
| FsVolume.StoreEntry | xv6-public/fs.c:389-394 | the same for an entry of the indirect block |
| FsCode.Fs.constructor | xv6-public/mkfs.c:238-251 | marking the metadata blocks of a zeroed disk one bit at a time gives a sound volume with no file block |
| FsCode.Fs.ScanMap | xv6-public/fs.c:65-74 | balloc's inner loop stops at the first clear bit of the map block, every earlier one being set |
| FsCode.Fs.Balloc | xv6-public/fs.c:56-78 | the lowest free block, marked and zeroed, exactly its map block and itself logged; panics only when every block is in use |
| FsCode.Fs.Bfree | xv6-public/fs.c:82-95 | panics exactly when the block is free already; otherwise clears that bit alone and logs the map block alone |
| FsCode.MapDirect | xv6-public/fs.c:378-382 | a fresh block stored in an empty direct slot: the volume is sound, that file block is mapped to it, and all other file blocks, sizes and data are kept |
| FsCode.MapIndirect | xv6-public/fs.c:387-388 | a fresh indirect block: no file block appears, disappears or changes |
| FsCode.IndirectInPlace | xv6-public/fs.c:389-394 | allocating the file block does not disturb the indirect block read before it |
| FsCode.MapEntry | xv6-public/fs.c:389-394 | a fresh block stored in an empty entry of the indirect block: as for a direct slot |
| FsCode.Fs.BmapDirect | xv6-public/fs.c:378-382 | the direct half of bmap, with the blocks it logs |
| FsCode.Fs.BmapIndirect | xv6-public/fs.c:387-388 | an indirect block is there afterwards and no mapping has changed |
| FsCode.Fs.NewEntry | xv6-public/fs.c:391-394 | the entry is filled with a fresh block; exactly its map block, itself and the indirect block are logged |
| FsCode.Fs.BmapEntry | xv6-public/fs.c:389-396 | the entry's block, allocated if it was missing |
| FsCode.Fs.BmapFar | xv6-public/fs.c:385-397 | the indirect half of bmap |
| FsCode.Fs.Bmap | xv6-public/fs.c:372-400 | a mapped block is returned with nothing changed; a missing one is allocated, soundness kept, and only it, its map block and the indirect block logged; panics if and only if the number is beyond MAXFILE or fewer blocks are free than the missing ones, data block and indirect block; and so many fewer are free afterwards |
| FsCode.Fs.WriteSome | xv6-public/fs.c:499-503 | one round of writei: the bytes land in that file block, every other byte of every file is kept; panics if and only if fewer blocks are free than are missing |
| FsFiles.BoundsTest | xv6-public/fs.c:493-496 | the 32-bit overflow tests of writei amount to: offset within the file and end within MAXFILE blocks |
| FsFiles.Iupdate | xv6-public/fs.c:220-236 | the on-disk inode becomes the in-memory one; its inode block alone is logged |
| FsFiles.CopyRound | xv6-public/fs.c:498-504 | one round adds exactly its bytes to those written so far and is charged for at most one new block |
| FsFiles.CopyNext | xv6-public/fs.c:498-504 | block number, offset and length of the next round, with the running charge |
| FsFiles.NeedNext | xv6-public/fs.c:498-504 | the blocks missing for a range are those missing for each block in turn, the indirect block counted once |
| FsFiles.CopyLoop | xv6-public/fs.c:498-504 | all the bytes are written, within the charge for the blocks spanned, if and only if as many blocks are free at the start as the range is missing |
| FsFiles.SplicedContent | xv6-public/fs.c:498-509 | the file after the loop is the old file with the bytes spliced in at the offset |
| FsFiles.WriteDone | xv6-public/fs.c:498-509 | and every other file is the same, and the volume is good again |
| FsFiles.CopyIn | xv6-public/fs.c:498-504 | the loop of writei on a good volume |
| FsFiles.Resize | xv6-public/fs.c:506-509 | the new size, written through to the inode's block, which alone is logged |
| FsFiles.WriteWithin | xv6-public/fs.c:498-510 | the body after the tests, size update included; each log_write is made with fewer blocks logged before it than the bound |
| FsFiles.Writei | xv6-public/fs.c:482-511 | refused exactly when the tests say so, with nothing changed; panics if and only if not refused and fewer blocks are free before the call than the range is missing, data blocks and indirect block; otherwise the file is the old one with the source spliced in, all other files are untouched, the volume is sound, every block that changed was passed to log_write, and the different blocks logged stay within a bound computed from offset and length, below it before each log_write |
| FsCalls.ContentAt | xv6-public/fs.c:453-476 | a file's byte is the byte of the block bmap gives for it |
| FsCalls.BlockSlice | xv6-public/fs.c:470-472 | what is read of one block is the matching slice of the file |
| FsCalls.ReadBlock | xv6-public/fs.c:470-473 | reading changes nothing, since every block below the size is mapped |
| FsCalls.ReadSome | xv6-public/fs.c:469-474 | one round of readi |
| FsCalls.CopyOut | xv6-public/fs.c:469-474 | the rounds joined give one slice of the file |
| FsCalls.Readi | xv6-public/fs.c:453-476 | refused exactly for an offset beyond the size or an overflowing end; otherwise exactly the file's bytes from the offset, cut at the size, and nothing changed |
| FsCalls.FreeDirect | xv6-public/fs.c:415-418 | a direct block goes back to the free map and out of its slot, all other slots kept |
| FsCalls.TruncDirect | xv6-public/fs.c:414-419 | no direct slot left, the owner accounts of all other files kept |
| FsCalls.FreeEntry | xv6-public/fs.c:424-427 | one round over the indirect block |
| FsCalls.FreeListed | xv6-public/fs.c:425-426 | an entry's block is freed exactly once |
| FsCalls.TruncIndirect | xv6-public/fs.c:421-431 | every entry's block freed, then the indirect block, then its slot cleared |
| FsCalls.FreePointer | xv6-public/fs.c:429-430 | the indirect block itself goes back, and soundness is restored |
| FsCalls.TruncBlocks | xv6-public/fs.c:414-431 | afterwards no slot of the inode refers to a block |
| FsCalls.Itrunc | xv6-public/fs.c:408-435 | never panics on a good volume; exactly the blocks of this inode return to the free map, its size is 0, every other file keeps inode and contents, and every block that changed was passed to log_write |
| FsCalls.SplicedTwice | xv6-public/file.c:135-152 | writing two chunks one after the other is writing them joined |
| FsCalls.ChunkFits | xv6-public/file.c:127-138 | a chunk of the size filewrite chooses never costs more than MAXOPBLOCKS distinct blocks, at any offset |
| FsCalls.WriteChunk | xv6-public/file.c:140-145 | one transaction of filewrite: its log_writes are appended to the history, they include every block changed since begin_op, they are for at most MAXOPBLOCKS different blocks, and fewer before each |
| FsCalls.NextChunk | xv6-public/file.c:135-152 | one round: chunk size, one transaction, offset moved by what was written |
| FsCalls.NextRound | xv6-public/file.c:135-152 | the round with the transactions counted |
| FsCalls.WriteChunks | xv6-public/file.c:135-152 | the loop, stopping at the first refused chunk |
| FsCalls.Filewrite | xv6-public/file.c:118-156 | one transaction for each chunk, the refused one included, each with at most MAXOPBLOCKS different blocks and fewer before each log_write; the file at every outcome is the old one with the bytes written so far spliced in; success means all of them |
| FsLog.ModestIsFrugal | xv6-public/log.c:204-219 | an operation making the log_writes of such a transaction one after the other is within the budget the log relies on |
| FsLog.ModestGoesOn | xv6-public/log.c:218-219 | so among such operations none of its log_writes panics when the log area is larger than LOGSIZE |
| VmCode.Vm.constructor | xv6-public/kalloc.c:31-37 | before kinit1 the allocator has no page |
| VmCode.Vm.Freerange | xv6-public/kalloc.c:46-53 | hands over page after page of the range, stopping at the one kfree panics on |
| VmCode.RangeIff | xv6-public/kalloc.c:46-53 | it panics exactly when some page wholly in the range is not allocatable; otherwise the free list gains exactly the pages wholly in the range |
| VmCode.Vm.Kalloc | xv6-public/kalloc.c:82-95 | 0 exactly when the list is empty; otherwise its first page, now held; no page is lost |
| VmCode.Vm.Kfree | xv6-public/kalloc.c:59-77 | panics exactly outside allocatable memory; otherwise the page is the new head, junk-filled |
| VmPages.PopOk | xv6-public/kalloc.c:82-95 | taking the head keeps the list linked, the pages apart and every address space as it was |
| VmPages.PushOk | xv6-public/kalloc.c:59-77 | so does giving a held page back |
| VmCode.Vm.Walkpgdir | xv6-public/vm.c:35-55 | a present table is returned with nothing changed; a missing one is created only on request, zeroed, from one free page, and changes no translation and no other entry; fails exactly without request or memory |
| VmCode.Vm.SetUser | xv6-public/vm.c:73 | the frame passes from the caller to the address space and exactly that page is mapped |
| VmCode.Vm.SetKernel | xv6-public/vm.c:73 | exactly that page is mapped, no ownership changes |
| VmCode.Vm.SetEntry | xv6-public/vm.c:73 | either of the two, by the side of KERNBASE the address is on |
| VmCode.Vm.MapPage | xv6-public/vm.c:69-73 | one round of mappages: the remap panic exactly when the page is mapped; out of memory, only for want of a table, leaves everything as it was; otherwise exactly that page is mapped |
| VmSpaces.FreeUser | xv6-public/vm.c:269-276 | a mapped page goes back to the free list and its entry is cleared, all else kept |
| VmSpaces.DropEntry | xv6-public/vm.c:274-275 | kfree's panic, or the page on the free list and its entry cleared |
| VmSpaces.LookForTable | xv6-public/vm.c:266 | walkpgdir without allocation changes nothing |
| VmSpaces.DeallocEntry | xv6-public/vm.c:269-276 | an entry is dropped if it is there |
| VmSpaces.DeallocRound | xv6-public/vm.c:265-277 | one round, including the jump over a missing table |
| VmSpaces.DroppedTwice | xv6-public/vm.c:264-277 | dropping adjoining ranges is dropping their union |
| VmSpaces.Deallocuvm | xv6-public/vm.c:255-279 | never panics; unmaps exactly the pages from newsz rounded up to oldsz rounded up, returns exactly their frames to the free list, leaves every other translation and page alone; returns the smaller size |
| VmCost.BoughtTables | xv6-public/vm.c:41-53 | the free list has lost exactly the tables that the range went through and the directory lacked, and the frames |
| VmCost.RunsShort | xv6-public/vm.c:45-46 | running out in the middle of a range means the free list had fewer pages than the whole range takes |
| VmCost.SameFreeIff | xv6-public/vm.c:41-53 | the free pages are the same set exactly when the directory has gained no table |
| VmGrow.AllocPage | xv6-public/vm.c:233-247 | one round: a fresh zeroed frame mapped writable for the user, or out of memory, exactly when the free list lacks the frame or the table, with at most the page in hand to give back |
| VmGrow.GiveUp | xv6-public/vm.c:235-246 | the way out takes back every frame added so far and no table |
| VmGrow.Undone | xv6-public/vm.c:235-246 | growing then dropping the range leaves every translation as it was |
| VmGrow.MadeIff | xv6-public/vm.c:233-247 | when memory runs out, no table has been made if and only if it ran out before the second page for the first entry without one |
| VmGrow.BackOut | xv6-public/vm.c:235-246 | the way out, with what it means for translations and free pages |
| VmGrow.GrowRound | xv6-public/vm.c:233-247 | a round: one page further, or the way out |
| VmGrow.GrowAll | xv6-public/vm.c:232-248 | the loop succeeds exactly when the free list has the frames and tables the range takes |
| VmGrow.Allocuvm | xv6-public/vm.c:221-249 | if and only if the free list has as many pages as the range takes (frames, and tables for entries without one), exactly the new range is mapped to fresh zeroed frames; otherwise 0, every address space translates as before, and the free pages are the same if and only if no table was made; the size tests give the two early returns |
| VmFree.FreeTable | xv6-public/vm.c:291-296 | one round of freevm gives back the table behind an entry if there is one, once |
| VmFree.FreedAll | xv6-public/vm.c:283-298 | directory and tables gone, nothing refers to them |
| VmFree.Freevm | xv6-public/vm.c:283-298 | never panics; returns exactly the pages of this address space (memory, tables, directory) to the free list, each once, and every other address space is untouched |
| VmKernel.Mappages | xv6-public/vm.c:60-80 | for the kernel ranges: the whole range mapped to consecutive frames, with exactly the tables it lacked; remap only if something in it was mapped; out of memory only with the free list empty and a table of the range still missing |
| VmKernel.MapRange | xv6-public/vm.c:66-79 | the loop, page by page |
| VmKernel.RowsAreKernel | xv6-public/vm.c:105-115 | the four kmap rows together are the kernel map, page by page |
| VmKernel.RowFresh | xv6-public/vm.c:105-115 | no page is covered by two rows |
| VmKernel.BackToStart | xv6-public/vm.c:129-134 | a half-built space, freed, leaves no trace |
| VmKernel.KernelTablesSize | xv6-public/vm.c:105-115 | the kernel map goes through 64 directory entries |
| VmKernel.RowShort | xv6-public/vm.c:129-134 | a row fails only with fewer pages than the whole map takes |
| VmKernel.MapRow | xv6-public/vm.c:129-134 | one row, or everything given back |
| VmKernel.Setupkvm | xv6-public/vm.c:118-136 | 0 if and only if fewer than 65 pages are free, and then the same free pages and tables as before; otherwise a directory with exactly the kernel map, its tables and no user memory; never panics |
| VmCopy.CopyPage | xv6-public/vm.c:330-338 | a fresh frame with the parent page's bytes and flags, or nothing in hand, exactly when the free list lacks the frame or the table |
| VmCopy.CopyRound | xv6-public/vm.c:324-338 | one more page of the child |
| VmCopy.CopyPaid | xv6-public/vm.c:323-339 | what the pages copied so far took from the free list |
| VmCopy.CopyShort | xv6-public/vm.c:332-338 | no memory for a page means fewer free pages at the start than copying up to it takes |
| VmCopy.Discard | xv6-public/vm.c:342-344 | the bad path gives everything back |
| VmCopy.HoleIff | xv6-public/vm.c:326-329 | the parent's translation is unchanged during the copy, so a page missing in a round was missing at the start |
| VmCopy.Copyuvm | xv6-public/vm.c:315-345 | with h the parent's first page below sz that is not mapped, or all of them: 0 if and only if fewer pages are free than the kernel map and copies of the first h pages take, and then every page is back where it was; otherwise a panic if and only if there is such a hole; otherwise the child has the kernel map and the parent's flags and bytes on frames of its own, and the parent and all others are untouched |
| VmCopy.CopyIsPrivate | xv6-public/vm.c:315-345 | no frame of the child backs any other page of any address space |
| VmRuns.BootPages | xv6-public/kalloc.c:31-53 | memory of n pages after boot has n - 1 free ones |
| VmRuns.TableStays | xv6-public/vm.c:221-249 | a run from boot in which a failed allocuvm leaves a page table behind |
| HeapCode.Place | xv6-public/umalloc.c:30-32 | there is exactly one place in the address-ordered circular list where a block belongs |
| HeapCode.GrantedGood | xv6-public/umalloc.c:54-59 | memory above everything, made one block in use, keeps the heap well formed |
| HeapCode.Joining | xv6-public/umalloc.c:33-42 | the two joins give the headers of the list with the block inserted and merged on both sides |
| HeapCode.ReturnedGood | xv6-public/umalloc.c:33-42 | and the result is well formed: ordered, disjoint, no two adjacent free blocks |
| HeapCalls.Arena.constructor | xv6-public/umalloc.c:21-22 | before the first call there is no list and no block |
| HeapCalls.Arena.Scan | xv6-public/umalloc.c:30-32 | the loop of free walks straight from freep to that one place, in less than one lap |
| HeapCalls.Arena.JoinUp | xv6-public/umalloc.c:33-37 | header writes of the upper join |
| HeapCalls.Arena.JoinDown | xv6-public/umalloc.c:38-42 | header writes of the lower join |
| HeapCalls.Arena.Join | xv6-public/umalloc.c:33-42 | both joins together |
| HeapCalls.Arena.Free | xv6-public/umalloc.c:24-44 | exactly this block stops being in use, all its units are in one free block, no unit is lost or gained, and the heap is well formed |
| HeapCalls.Arena.TakeAll | xv6-public/umalloc.c:76-77 | an exact fit leaves the list |
| HeapCalls.Arena.TakePart | xv6-public/umalloc.c:78-82 | the tail of a larger block is handed out, the rest stays in place |
| HeapCalls.Arena.Take | xv6-public/umalloc.c:75-84 | either way exactly one block of the requested size becomes in use, disjoint from all others |
| HeapCalls.Arena.Lap | xv6-public/umalloc.c:74-86 | the search ends within a lap, with a fit exactly when there is one |
| HeapCalls.Arena.Init | xv6-public/umalloc.c:70-73 | the first call makes the list of base alone |
| HeapCalls.Arena.AcceptGrant | xv6-public/umalloc.c:57-58 | the granted memory becomes one block in use |
| HeapCalls.Arena.Morecore | xv6-public/umalloc.c:46-61 | 0 exactly when sbrk refuses, with nothing changed; otherwise at least 4096 units joined to the free list, enough for the request; and what it asked sbrk for |
| HeapCalls.Arena.Malloc | xv6-public/umalloc.c:63-90 | for every size: asks sbrk at most once and exactly when no free block fits; 0 exactly when that is refused; otherwise one new block of the computed size, disjoint from every block in use, and no unit lost; and what it asked sbrk for |
| HeapFacts.LiveApart | xv6-public/umalloc.c:63-90 | blocks in use never overlap |
| HeapFacts.StartsOfRuns | xv6-public/umalloc.c:24-44 | free blocks are exactly the maximal runs of free units |
| HeapFacts.OneListPerState | xv6-public/umalloc.c:24-44 | so the free list depends only on which units are free, not on the order of calls: freeing everything joins it all |
| HeapFacts.RoomIff | xv6-public/umalloc.c:69 | the block has room for nbytes if and only if nbytes + 7 does not wrap 32 bits, and then wastes less than a unit |
| HeapFacts.NoRoom | xv6-public/umalloc.c:69 | a request for 0xFFFFFFFF bytes is sized as one unit, a header with no payload |
| HeapFacts.RequestIff | xv6-public/umalloc.c:52-57 | the memory sbrk is asked for is all of the block that morecore makes of it if and only if that is below 2^31 bytes |
| HeapFacts.AsksForNothing | xv6-public/umalloc.c:52-57 | malloc(0xFFFFFFF8) asks sbrk for 0 bytes and makes a block of 2^29 units of it |
| PipeProtocol.LocksKept | xv6-public/pipe.c:59-121 | each step keeps lock ownership consistent with where every process is, in sleep included |
| PipeProtocol.CountersMean | xv6-public/pipe.c:85-116 | the wrapping 32-bit counters are equal exactly when all bytes are delivered and 512 apart exactly when 512 are waiting |
| PipeProtocol.FifoPut | xv6-public/pipe.c:93 | storing at nwrite modulo the size overwrites no undelivered byte |
| PipeProtocol.FifoGet | xv6-public/pipe.c:116 | the byte taken at nread modulo the size is the oldest undelivered one |
| PipeProtocol.FifoKept | xv6-public/pipe.c:78-121 | every step keeps the ring equal to the undelivered bytes |
| PipeWakeups.DecidedKept | xv6-public/pipe.c:85-112 | whoever has decided to sleep still has reason to until it has released the pipe lock |
| PipeWakeups.FilesKept | xv6-public/pipe.c:59-75 | calls in progress keep their end open |
| PipeWakeups.ReadersKept | xv6-public/pipe.c:78-98 | a reader asleep without reason has somebody about to wake it, unless a killed writer returns from a full pipe |
| PipeWakeups.WritersKept | xv6-public/pipe.c:100-121 | a writer asleep without reason always has somebody about to wake it |
| PipeWakeups.InvKept | xv6-public/pipe.c:59-121 | both, for every step but that return |
| PipeWakeups.ClosersKept | xv6-public/pipe.c:59-75 | one close per end, and none after the pipe is freed |
| PipeRuns.BasicsAlways | xv6-public/pipe.c:59-121 | locks, ring, ends and closers are consistent in every state of every run |
| PipeRuns.FirstInFirstOut | xv6-public/pipe.c:78-121 | in every run the bytes delivered are a prefix of the bytes stored, at most 512 behind |
| PipeRuns.HeldUntilMarked | xv6-public/proc.c:417-452 | from the decision to sleep until ptable.lock is held the pipe lock is held and the reason stands; from then until marked asleep ptable.lock is held |
| PipeRuns.FreedAlone | xv6-public/pipe.c:70-73 | when the pipe is freed no process is inside any call on it |
| PipeRuns.SilentLoses | xv6-public/pipe.c:86-89 | a killed writer returning from a full pipe with a reader asleep leaves that reader asleep on a full pipe |
| PipeRuns.NoLostWakeupIff | xv6-public/pipe.c:59-121 | a run has no lost wakeup in any of its states if and only if no killed writer returns from a full pipe with a reader asleep and the read end open |
| PipeRuns.NotBothAsleep | xv6-public/pipe.c:78-121 | without such a return, never a reader and a writer both asleep with the pipe lock free |
| PipeRuns.WakeupCanBeLost | xv6-public/pipe.c:86-89 | a concrete run of one reader and one writer of 513 bytes that loses a wakeup |
| PipeKills.MissedStep | xv6-public/pipe.c:86-112 | a process is killed and asleep, or bound to sleep, only through a kill between its test of killed and its taking ptable.lock |
| PipeKills.MissedGoesOn | xv6-public/proc.c:417-452 | its own steps then take it to sleep, and no step of another stops it on the way |
| PipeKills.MissedSleepsOn | xv6-public/proc.c:479-497 | asleep it stays, until a wakeup on its channel or another kill |
| PipeKills.KillMissedIff | xv6-public/pipe.c:86-112 | this happens to a process in a run if and only if such a kill does |
| PipeKills.KilledReaderSleeps | xv6-public/pipe.c:105-111 | from every first state a run in which a reader of the empty pipe ends up asleep and killed |
| ProcTable.UnusedAt | xv6-public/proc.c:81-86 | the first unused slot |
| ProcTable.ZombieAt | xv6-public/proc.c:282-301 | the first zombie child |
| ProcTable.WokenGood | xv6-public/proc.c:457-465 | waking keeps the family and wait invariants |
| ProcTable.WaitSleepGood | xv6-public/proc.c:309-310 | going to sleep in wait keeps them when no child is a zombie |
| ProcTable.ReapGood | xv6-public/proc.c:287-299 | reaping keeps them |
| ProcTable.ExitFamily | xv6-public/proc.c:250-265 | after exit every process still has a live parent |
| ProcTable.ExitWaits | xv6-public/proc.c:250-265 | after exit nobody sleeps in wait with a zombie child |
| ProcTable.AllocGood | xv6-public/proc.c:79-92 | allocproc keeps them |
| ProcTable.ForkGood | xv6-public/proc.c:180-222 | so do the unlocked and locked parts of fork, success and failure |
| ProcCode.Ptable.Wakeup1 | xv6-public/proc.c:457-465 | the loop over the array in place makes exactly the sleepers on the channel runnable |
| ProcCode.Ptable.FindUnused | xv6-public/proc.c:81-86 | the loop of allocproc finds that slot |
| ProcCode.Ptable.ScanKids | xv6-public/proc.c:282-301 | the loop of wait finds that child and knows whether there are children |
| ProcCode.Ptable.Adopt | xv6-public/proc.c:256-262 | one round of exit's loop |
| ProcCode.Ptable.ExitSection | xv6-public/proc.c:250-265 | the code in place: the parent woken, the children handed to init, init woken if one of them is a zombie, the caller a zombie |
| ProcRuns.CpusKept | xv6-public/proc.c:322-382 | every step keeps the lock, the CPUs and the running processes consistent |
| ProcRuns.StillOnACpu | xv6-public/proc.c:322-382 | no running process loses its CPU in a step of another |
| ProcRuns.InvKept | xv6-public/proc.c:180-497 | every step of every CPU keeps the whole invariant |
| ProcRuns.InvAlways | xv6-public/proc.c:180-497 | it holds in every state of every behaviour |
| ProcRuns.RunningMeansOneCpu | xv6-public/proc.c:322-392 | with ptable.lock free a process is RUNNING exactly when it is the process of a CPU, and of one CPU only |
| ProcRuns.ParentsLive | xv6-public/proc.c:180-268 | every created process but init has a parent that is alive |
| ProcRuns.NoMissedExit | xv6-public/proc.c:227-312 | nobody is asleep in wait while having a zombie child |
| ProcRuns.KilledLeavesWait | xv6-public/proc.c:303-310 | nobody is ever asleep in wait while killed |
| ProcRuns.SchedIsCalledRight | xv6-public/proc.c:365-382 | whenever sched is entered ptable.lock is held by that CPU and the process is not RUNNING, so of its panics the one about the lock and the one about RUNNING do not occur |
| ShParse.SkipWhite | xv6-public/sh.c:281-282 | stops at the first non-blank, or at the end |
| ShParse.SkippedIsWhite | xv6-public/sh.c:281-282 | and skips nothing but blanks |
| ShParse.WordEnd | xv6-public/sh.c:304-308 | the longest run of word characters |
| ShParse.Lex | xv6-public/sh.c:274-317 | token bounds are in order and in the text, only the end yields the end token, a word token is a maximal word, and the next position is not blank |
| ShParse.Command | xv6-public/sh.c:336-351 | a parse never points outside the text |
| ShCode.SkipSpace | xv6-public/sh.c:281-282 | the loop does that |
| ShCode.Gettoken | xv6-public/sh.c:274-317 | the in-place lexer is the specified one on every text |
| ShCode.PeekAt | xv6-public/sh.c:319-329 | tests the next character without consuming it |
| ShCode.Parseredirs | xv6-public/sh.c:383-406 | the loop equals the recursive grammar, errors included |
| ShCode.Parseargs | xv6-public/sh.c:438-451 | so does the argument loop, "syntax" and "too many args" included |
| ShCode.Parseexec | xv6-public/sh.c:424-455 | so does a simple command |
| ShCode.Parseblock | xv6-public/sh.c:408-422 | so does a parenthesized one |
| ShCode.Parsepipe | xv6-public/sh.c:370-381 | so does a pipeline |
| ShCode.Parseline | xv6-public/sh.c:353-368 | so does a line with & and ; |
| ShCode.Parsecmd | xv6-public/sh.c:336-351 | so does a whole command, "leftovers" included; every text is parsed or refused, and parsing ends |
| ShNul.LineWords | xv6-public/sh.c:353-368 | every span in a parsed command is a maximal word of the text |
| ShNul.Nulterminate | xv6-public/sh.c:457-502 | cuts the buffer exactly at the ends of the spans of the command |
| ShNul.TokenUncut | xv6-public/sh.c:457-502 | no cut falls inside another word |
| ShNul.ParsecmdInPlace | xv6-public/sh.c:336-351 | after parsing the buffer in place every argument and file name, read as a C string, is its word of the original line; a refused line is not cut |
| ShPrint.LexAt | xv6-public/sh.c:274-317 | each printed item is read back as its token |
| ShPrint.PrintedReads | xv6-public/sh.c:274-317 | so the whole printed text reads back as the items |
| ShRoundTrip.RedirsParse | xv6-public/sh.c:383-406 | a printed chain of redirections parses to it |
| ShRoundTrip.ExecParse | xv6-public/sh.c:424-455 | a printed simple command parses to it |
| ShRoundTrip.BlockParse | xv6-public/sh.c:408-422 | a parenthesized one parses to it |
| ShRoundTrip.SimpleParse | xv6-public/sh.c:424-455 | either, redirections included |
| ShRoundTrip.PipeParse | xv6-public/sh.c:370-381 | a printed pipeline parses to it, leaving what follows |
| ShRoundTrip.BackParse | xv6-public/sh.c:358-362 | a printed run of & parses to it |
| ShRoundTrip.ListParse | xv6-public/sh.c:353-368 | a printed list parses to it, to the right |
| ShRoundTrip.LineParse | xv6-public/sh.c:353-368 | every printed tree parses to it |
| ShRoundTrip.RoundTrip | xv6-public/sh.c:336-455 | parsing the printed form of any legal command tree succeeds and gives the tree back: precedence, grouping and associativity are right |
| ShRoundTrip.ParsedLegal | xv6-public/sh.c:336-455 | the trees the parser produces are legal ones |
| ShRoundTrip.ReparseSame | xv6-public/sh.c:336-455 | any text that parses has the same tree as the printed form of its tree |
| ShAppend.LexSame | xv6-public/sh.c:297-303 | making a `>>` of a line `>` and a blank changes that token and no other |
| ShAppend.RedirsSame | xv6-public/sh.c:389-404 | so redirections are parsed the same |
| ShAppend.LineSame | xv6-public/sh.c:353-455 | so is everything else |
| ShAppend.AppendIsWrite | xv6-public/sh.c:336-455 | any line with a `>>` is parsed, or refused, exactly as with `>` and a blank in its place |
| ShAppend.OutIff | xv6-public/sh.c:393-403 | a redirection is for output if and only if its token is `>` or `>>` |
| ShAppend.AppendExample | xv6-public/sh.c:393-403 | `a >> f` and `a >  f` are the same command |
| BioCache.FindAt | xv6-public/bio.c:69-76 | the first buffer in ring order that caches the block |
| BioCache.VictimBelow | xv6-public/bio.c:81-91 | the least recently used buffer that is neither referenced nor dirty |
| BioCache.FrontPermutes | xv6-public/bio.c:130-138 | moving a buffer to the front permutes the ring |
| BioCache.FrontKeepsOrder | xv6-public/bio.c:130-138 | and keeps the order of all the others, so the ring is in order of last release |
| BioCode.Unlink | xv6-public/bio.c:132-133 | the two pointer writes take a node out of the doubly linked ring |
| BioCode.PushFront | xv6-public/bio.c:134-137 | the four pointer writes put it in at the front |
| BioCode.Bcache.constructor | xv6-public/bio.c:38-56 | the ring has every buffer once, last one first, all unused |
| BioCode.Bcache.Push | xv6-public/bio.c:50-54 | one buffer added to the ring in place |
| BioCode.Bcache.MoveToFront | xv6-public/bio.c:132-137 | the ring in place becomes the specified one |
| BioCode.Bcache.Find | xv6-public/bio.c:69-76 | the forward walk finds that buffer |
| BioCode.Bcache.FindVictim | xv6-public/bio.c:81-91 | the backward walk finds that victim |
| BioCode.Bcache.Bget | xv6-public/bio.c:61-93 | a cached block gets one more reference; otherwise the victim is reassigned, invalid, with one reference; panics exactly when neither exists, with nothing changed |
| BioCode.Bcache.Brelse | xv6-public/bio.c:120-141 | one reference fewer, and to the front of the ring at zero |
| BioRuns.InvKept | xv6-public/bio.c:61-141 | every step of every caller keeps the invariant |
| BioRuns.InvAlways | xv6-public/bio.c:61-141 | it holds in every state of every behaviour in which bget finds a buffer |
| BioRuns.LockedIsLatest | xv6-public/bio.c:61-106 | whoever holds the sleep lock has the only buffer of that block, alone, with the latest contents once valid |
| BioRuns.NeverReassigned | xv6-public/bio.c:61-141 | between bget and brelse a caller's buffer keeps its block |
| BioRuns.DirtyStays | xv6-public/bio.c:78-91 | a dirty buffer keeps its block and stays valid until it is written |
| BioRuns.UncachedIsOnDisk | xv6-public/memide.c:38-60 | a block that no buffer caches has its latest contents on disk |
| BioRuns.CountsExact | xv6-public/bio.c:61-141 | each reference count is the number of callers between bget and brelse, and the ring always has every buffer once |
| Grep.ConsIff | xv6-public/grep.c:85-96 | an expression matches when its first element describes a piece and the rest matches after it |
| Grep.HereStar | xv6-public/grep.c:89-90 | a starred character: some number of repetitions, then the rest |
| Grep.HereEnd | xv6-public/grep.c:91-92 | a final $ matches exactly at the end of the text |
| Grep.HereOne | xv6-public/grep.c:93-95 | any other character matches itself, and . any one |
| Grep.Matchstar | xv6-public/grep.c:99-106 | true exactly when some number of repetitions lets the rest match, none included |
| Grep.Matchhere | xv6-public/grep.c:85-96 | true exactly when the expression describes some stretch from here |
| Grep.Match | xv6-public/grep.c:72-82 | true exactly when the expression, anchored or not, describes some stretch of the text |
| DirTree.NameAt | xv6-public/fs.c:533-545 | the first used entry with the name |
| DirTree.EmptyAt | xv6-public/fs.c:565-570 | the first empty entry |
| DirTree.Added | xv6-public/fs.c:552-578 | the entry goes to the first empty place or the end, all others kept |
| DirTree.OneMoreRefs | xv6-public/fs.c:552-578 | a new entry adds one name of its target and of nothing else |
| DirTree.EntryNames | xv6-public/fs.c:552-578 | dirlink's change is such a new entry |
| DirTree.ReachesRoot | xv6-public/sysfile.c:269-275 | in a tree ".." leads from every linked directory to the root, through linked directories |
| DirTree.TreeStays | xv6-public/sysfile.c:184-239 | with the same or fewer linked directories and the same ".." it stays a tree |
| DirTree.TreeGrows | xv6-public/sysfile.c:269-275 | so it does with one more directory below a linked one |
| DirLinks.LinkGood | xv6-public/sysfile.c:118-165 | link keeps link counts equal to the names of each inode, and the directories a tree below the root |
| DirLinks.FileGood | xv6-public/sysfile.c:241-283 | so does creating a file or device |
| DirLinks.DirGood | xv6-public/sysfile.c:241-283 | so does making a directory, with the count for its ".." on the parent |
| DirLinks.NoKids | xv6-public/sysfile.c:167-181 | no directory has its ".." in an empty one |
| DirLinks.EmptyNamedOnce | xv6-public/sysfile.c:167-181 | an empty directory is named by its parent's entry alone |
| DirLinks.EmptyHasOneLink | xv6-public/sysfile.c:227-228 | so its link count is 1 |
| DirLinks.ParentKeepsLink | xv6-public/sysfile.c:221-224 | its parent is where its ".." says and keeps a link |
| DirLinks.UnlinkGood | xv6-public/sysfile.c:184-239 | unlink keeps counts and tree, and no count it decrements is 0 |
| DirLinks.ReclaimGood | xv6-public/fs.c:332-352 | freeing an inode without links keeps counts and tree |
| DirLinks.CreateIff | xv6-public/sysfile.c:241-283 | creating in a directory keeps the invariant if and only if that directory has a link |
| DirLinks.LinkIff | xv6-public/sysfile.c:118-165 | so with link |
| DirLinks.FileInUnlinked | xv6-public/sysfile.c:241-283 | a file created in a directory already unlinked has link count 1 and no name in any linked directory |
| DirLinks.DirInUnlinked | xv6-public/sysfile.c:241-283 | a directory made there is linked below a directory that nothing enters and that is not the root |
| DirLinks.LinkInUnlinked | xv6-public/sysfile.c:118-165 | a link made there leaves the inode with one count more than names |
| DirCode.Dirs.constructor | xv6-public/mkfs.c:117-128 | the root with its two entries and nothing else is a good start |
| DirCode.RootGood | xv6-public/mkfs.c:117-128 | the same, on values |
| DirCode.GoodIsTidy | xv6-public/sysfile.c:211-224 | in a good state whatever a directory names has a link count, so "unlink: nlink < 1" cannot occur, and the parent of an empty directory has one to give up |
| DirCode.UnlinkedHasNone | xv6-public/sysfile.c:204-208 | an unlinked directory has no names of its own, so unlink in it is refused |
| DirCode.RemovedGood | xv6-public/sysfile.c:184-239 | what unlink did, with or without freeing the inode, is good |
| DirCode.Dirs.Dirlookup | xv6-public/fs.c:525-548 | the loop finds that entry |
| DirCode.Dirs.Dirlink | xv6-public/fs.c:552-578 | refused exactly for a name that is there; otherwise exactly the specified change |
| DirCode.Dirs.Isdirempty | xv6-public/sysfile.c:167-181 | true exactly when nothing but the first two entries is used |
| DirCode.Dirs.Ialloc | xv6-public/fs.c:194-214 | the lowest free inode from 1, or none left |
| DirCode.Dirs.LinkSteps | xv6-public/sysfile.c:133-164 | the count goes up first and back down on every failure: refused means nothing changed |
| DirCode.Dirs.SysLink | xv6-public/sysfile.c:118-165 | succeeds exactly for a file or device, a parent and a new name; all stays in order if and only if it is refused or the parent still has a link |
| DirCode.Dirs.UnlinkSteps | xv6-public/sysfile.c:201-238 | the steps of unlink never panic and amount to the specified change |
| DirCode.Dirs.RemoveEntry | xv6-public/sysfile.c:218-228 | entry cleared, counts of target and (for a directory) parent down by one, all else kept |
| DirCode.Dirs.SysUnlink | xv6-public/sysfile.c:184-239 | in any directory, linked or not: succeeds exactly for a name that is neither . nor .. and no filled directory; the inode is freed exactly when its last name went and nobody holds it; keeps the invariant |
| DirCode.Dirs.CreateSteps | xv6-public/sysfile.c:241-283 | an existing name is reopened only as a file, otherwise refused, changing nothing; panics only with no inode left |
| DirCode.Dirs.MakeEntry | xv6-public/sysfile.c:263-278 | the new inode, its entries and the parent's entry in the code's order give the specified change |
| DirCode.Dirs.Create | xv6-public/sysfile.c:241-283 | in any directory; all stays in order if and only if nothing is made or the parent still has a link |
| DirRuns.RemovedDirectory | xv6-public/sysfile.c:184-283 | a run from a new file system: a directory made and unlinked while in use is there without a link, and all is in order |
| DirRuns.CreateInRemoved | xv6-public/sysfile.c:241-283 | continued: creating anything in it leaves counts and tree out of order |

## Left out

- LogProtocol.CrashInvAlways: is about runs in which every commit fits in the log area; LogCapacity.RecoverableIff gives the log sizes for which there are no others, LogCapacity.UnfitCommitIff what the others do. A run ends where log.lh.block is stored to past its end, which LogGroups.ReserveAlways excludes for operations that append at most MAXOPBLOCKS blocks.
- HeapCalls.Arena.Malloc: counts as part of the heap the units its blocks claim; HeapFacts.RequestIff says when sbrk was asked for all of them.
- VmGrow.Allocuvm: is for a range with nothing mapped in it, which growproc and exec ensure; otherwise mappages panics, or a failure before that unmaps what was there.
- VmKernel.Mappages: is for ranges above KERNBASE; the calls below it map one page at a time and are VmCode.Vm.MapPage.
- VmSpaces.Deallocuvm: is for sizes up to KERNBASE, as all callers pass.
- FsCode.Fs.constructor: stops before mkfs stores files; the layout of the superblock is a parameter.
- FsFiles.Writei: relies on every block below a file's size being mapped, which all of fs.c keeps; the rounding of the root directory's size at mkfs.c:158-163 is taken to stay within mapped blocks.
- DirCode.GoodIsTidy: the panics of unlink about readi and writei are not modelled, since directories are sequences of entries here.
- ProcRuns.SchedIsCalledRight: interrupt nesting (ncli) and the interrupt flag, about which sched has two more panics, are not modelled.
- FsCalls.Filewrite: a transaction in which the disk runs full panics and is not in the history.
- LogBuffers.CommitsGoOnIff: is about the bgets of commit with nobody else using the cache; LogBuffers.StuckIff has the others' references; the bgets of the operations themselves, which can also find every buffer taken, are not counted.
- BioRuns.InvAlways: callers log or write what they modified before brelse, as the comments of bio.c ask; device number 0 marks buffers that cache nothing yet; behaviours end where bget panics, which BioCache.GotNoneIff characterizes.
- PipeRuns.NoLostWakeupIff: a wakeup holds ptable.lock for one step, and an end is closed only when no call on it is in progress, which the reference counts of file.c ensure.
- ProcRuns.InvAlways: kill names a slot; the pid search, which can match unused slots for pid 0, is not modelled.
- DirTree.Added: directory size limit, the 14-byte truncation of names and the short width of nlink are not modelled.
- Device inodes in readi and writei, and the byte encoding of inodes on disk.
- Path resolution (namex) and the inode cache's reference counts (iget, iput's locking); unlink takes as a parameter whether anybody holds the inode.
- exec, inituvm, loaduvm, clearpteu, copyout and the trap and system call entry code.
- Spin locks and sleep locks themselves; steps take the atomicity of sections under a lock as given.
- Fairness and progress: the run properties are safety properties, plus who is left to wake a sleeper.
- fileread, pipes behind file descriptors, the file table, console, keyboard, timer and interrupt controllers: each is a dispatch or a device access with no property across functions.
- The shell's runcmd, and the other user programs.
