# A model of squashfs-tools

This project models the core of squashfs-tools 4.3 (mksquashfs and unsquashfs) and of the
kernel side that reads its images, and proves properties of that model. The C code works by
changing global tables, linked lists and buffers in loops and in several threads. The model
follows it: loops are methods with invariants, objects whose fields change are classes, and the
threads of mksquashfs are one state machine whose steps may interleave in every order. Each
method is proved against a function that says what it computes, and the promises of the file
format are proved about those functions.

The main results, by module:

- `WriteCache`, `Fragments`, `Pipeline`: main, the deflators, the fragment deflators, the writer
  and the threads that fetch fragments. After every run, every block address main may look up
  yields the right compressed bytes although addresses are given up and used again while stale
  buffers are still hashed or queued; a fragment that has left the caches can always be recovered;
  files lie in one piece and nothing overlaps; the count of outstanding fragments is exact, and at
  the end everything is on disk where the tables say.
- `FileData`, `FileInode`, `Extract`, `DupSearch`, `Checksum`: for every content and policy, what
  unsquashfs writes for a file's inode is the original file, also for duplicates, sparse blocks
  and holes. The two-phase search for duplicate tail ends is as good as one full scan.
- `ReaderMain`: the reader and main never go out of step, whatever files and processes do and in
  whatever order buffers arrive.
- `Metadata`, `MetaCursor`, `Tables`, `Directory`, `DirIndex`, `MetaIndex`: references handed out
  before their block exists resolve after a round trip; directories decode to their entries; a
  lookup through the directory index equals a linear scan; the cached block list positions are
  right in every state of the cache.
- `Xattrs`, `XattrStore`, `XattrTable`: from lists to the bytes of the xattr tables and back, an id
  leads to the list it was given for, with the exact condition under which two lists are merged.
- `Append`, `IdTable`, `OldImage`, `XattrTable`, `Restore`: an append that is given up at any moment,
  inside a call too. The data threads have not touched the old image, and the inode, directory,
  fragment, id and xattr tables that restorefs writes read as the old ones, with the exact conditions
  for the directory table and for the root inode.
- `Moves`, `SortDirectory`, `PathTrie`, `ActionExpr`: moves keep a tree, the in-place list sort
  is a stable sort, targets and excludes follow the prefix rule, and printed expressions parse to
  themselves.

`Bytes`, `Division`, `LeavingOrder`, `Names` and `Compressor` hold what the others share.
`dafny verify dfyconfig.toml` checks the whole project.

Four promises turned out false of the code and are stated with their exact condition. The
comparison of xattr lists looks only at the new value's length, so a list can get the id of one
with longer values (`XattrStore.MergeLosesValue`, `XattrStore.SameListExact`,
`XattrStore.IdMeansList`). An abort loses the last directory block when the root directory ends on
a multiple of 8192 (`Append.DirectoriesComeBack`, `Append.FullBlockIsLost`). An abort does not put
back the root inode once main has put the new one into the super block, and the restored inode table
leads elsewhere or nowhere from there (`Restore.RootExact`, `Restore.LateAbortLosesRoot`). In the 2.4 kernel code a failed metadata read can leave an empty slot
behind (`MetaIndex.MetaCache.GetMetaIndex`, `MetaIndex.EmptySlotLeft`).

Conventions: bytes are integers from 0 to 255 and C integers are unbounded unless a field is
stored, where its width is checked. The compressor is any pair of functions that is lossless when
compression does not give up; the percentage a compression must save is arbitrary. A hash table is
modelled by its chains, and the buffer caches of the pipeline by one chain, newest first, because
a lookup only meets buffers of the wanted index. Usage counts of fragment buffers are modelled as
the set of their users. Contents of the output are bytes that may be absent where nothing has been
written. Reads from files, from processes and past the end, failures of `lseek`, the component
match of targets (`fnmatch` or a regular expression), the verdicts of tests in action expressions
and the interference of other readers of the block list cache are parameters.

## Model

| member | source | states |
|---|---|---|
| Compressor.MangleRoundTrip | squashfs-tools/mksquashfs.c:462-483 | Whether mangle2 keeps a block as it is or compressed, and whatever saving it demands, decompressing into enough room gives the block back. |
| Compressor.MetaWordExact | squashfs-tools/squashfs_fs.h:133-138 | In a 16-bit metadata word bit 15 and the size survive if and only if the size is 1 to 32767; what 0 and 32768 read as is stated too. |
| Compressor.DataWordDecodes | squashfs-tools/squashfs_fs.h:140-145 | Bit 24 and the size survive in a data word, and the word 0 means a block that is left out and nothing else. |
| Metadata.InodePacking | squashfs-tools/squashfs_fs.h:151-156 | An inode number splits back into the block position and the offset it was made from. |
| Metadata.Writer.Append | squashfs-tools/mksquashfs.c:494-540 | Storing metadata moves full 8 KiB blocks out and hands out a reference to the place the data will have. |
| Metadata.Writer.Finish | squashfs-tools/mksquashfs.c:633-706 | Closing the table writes what is left in blocks of at most 8 KiB. |
| Metadata.CloseStream | squashfs-tools/mksquashfs.c:633-706 | The finished table holds exactly the bytes stored, in order, with every block but the last full. |
| Metadata.RefNames | squashfs-tools/mksquashfs.c:419-420 | A reference issued before its block exists names the right stream position in every longer table. |
| Metadata.ReadBlockBack | squashfs-tools/unsquashfs.c:664-735 | read_block returns the bytes of a stored block and the position of the next, with or without an expected size. |
| Metadata.LookupEntry | squashfs-tools/unsquashfs.c:616-628 | Walks one hash chain to the uncompressed position recorded for a compressed one. |
| Metadata.ReadTable | squashfs-tools/unsquashfs.c:775-821 | Reading block after block rebuilds the stream and the table of block positions, or fails where a block cannot be read or an inner block is not full. |
| Metadata.FetchNamed | squashfs-tools/unsquashfs.c:1185-1232 | A reference that names a stream position fetches the bytes there. |
| Metadata.ReferencesResolve | squashfs-tools/mksquashfs.c:494-540 | For any items stored in any order: after the table is closed, written and read again, every reference handed out on the way resolves to exactly the bytes stored under it. |
| Tables.GenericWriteTable | squashfs-tools/mksquashfs.c:1752-1807 | Writes a table as compressed blocks followed by the list of their positions, and reports where the blocks end. |
| Tables.ReadIndexedTable | squashfs-tools/read_fs.c:699-747 | Reads a table through its position list, with the size of the last block expected, and fails when the list does not fit. |
| Tables.TableRoundTrip | squashfs-tools/mksquashfs.c:1752-1807 | Every table of every length, exact multiples of 8192 included, reads back as written wherever it lies in the image. |
| Directory.DirBuffer.AddDir | squashfs-tools/mksquashfs.c:1252-1336 | Adding an entry to the growing buffer does what placing it in the list of runs does: a new run or not, an index entry or not. |
| Directory.BuildRunsOk | squashfs-tools/mksquashfs.c:1252-1336 | In every directory each run holds 1 to 256 entries of one inode block with number differences that fit 16 signed bits. |
| Directory.BuildEntries | squashfs-tools/mksquashfs.c:1252-1336 | Cutting a directory into runs loses, adds and reorders nothing. |
| Directory.IndexSpacing | squashfs-tools/mksquashfs.c:1252-1336 | Every index entry marks the start of a run with its first name, more than 7928 and at most 8204 bytes after the one before. |
| Directory.ReadDirectory | squashfs-tools/read_fs.c:657-690 | The two nested loops over headers and entries decode the runs or report a damaged directory. |
| Directory.DirectoryRoundTrip | squashfs-tools/unsquash-4.c:300-343 | Decoding an encoded directory gives the same names (cut at 256 bytes), inode references, inode numbers and types in the same order. |
| Directory.ShortInodeHoldsSize | squashfs-tools/mksquashfs.c:4051-4073 | The test for the short directory inode guarantees that the size plus 3 fits its 16-bit field. |
| MetaCursor.ReadMetadata | kernel-2.4/fs/squashfs/inode.c:264-371 | Copies bytes across metadata block boundaries and moves the cursor, or fails. |
| MetaCursor.ReadMetaBack | kernel-2.4/fs/squashfs/inode.c:264-371 | From the cursor of a stream position, reading gives the bytes of the stream there and the cursor of the position behind them. |
| DirIndex.WriteDir | squashfs-tools/mksquashfs.c:1339-1451 | Stores the directory and gives every index entry the position of the metadata block that will hold its header. |
| DirIndex.WrittenIsStored | squashfs-tools/mksquashfs.c:1339-1451 | After the table is finished, each index entry written with a directory leads to the block and offset of a run header and carries the first name of that run. |
| DirIndex.FirstByteStops | kernel-2.4/fs/squashfs/inode.c:1866-1970 | In a sorted directory the test on the first character, signed or unsigned, ends the search only where the name cannot follow. |
| DirIndex.GetDirIndexUsingName | kernel/fs/squashfs/namei.c:75-133 | Reading the bytes of the index entry by entry ends at the directory start or at an entry whose name does not lie behind the wanted one, also when a read of the index fails. |
| DirIndex.LookupInRun | kernel-2.4/fs/squashfs/inode.c:1866-1970 | Searching one run agrees with a linear scan from its first entry, or leaves the cursor at the next run. |
| DirIndex.SquashfsLookup | kernel/fs/squashfs/namei.c:135-237 | Looking up a name through the index gives exactly what a linear scan of the whole sorted directory gives. |
| DirIndex.MarksFit | squashfs-tools/mksquashfs.c:1252-1336 | The positions add_dir records for the index ascend and lie inside the directory, as write_dir needs them. |
| DirIndex.DirRefLeads | squashfs-tools/mksquashfs.c:1339-1451 | The reference write_dir returns is the place a lookup starts from in the kernel, and the hash table of unsquashfs resolves it to where the directory stands. |
| DirIndex.WriteImage | squashfs-tools/mksquashfs.c:1339-1451 | For every directory, written with its inode and index among any other data and the tables closed: if the directory table stays within 32 bits, the image and the handle in the inode are ready for lookups. |
| DirIndex.LookupWritten | kernel/fs/squashfs/namei.c:135-237 | In every such image a lookup of any name gives what a linear scan of the sorted entries gives, whichever reads of the index fail. |
| MetaIndex.CalculateSkip | kernel-2.4/fs/squashfs/inode.c:1319-1322 | The skip factor lies between 1 and 7 for every block count. |
| MetaIndex.MetaCache.LocateMetaIndex | kernel-2.4/fs/squashfs/inode.c:1187-1218 | Locks the unlocked slot of this inode that reaches furthest without passing the wanted index, if there is one, and touches nothing else. |
| MetaIndex.MetaCache.EmptyMetaIndex | kernel-2.4/fs/squashfs/inode.c:1221-1271 | Takes an unlocked slot in round-robin order for this inode, or reports that all are locked. |
| MetaIndex.ReadWords | kernel-2.4/fs/squashfs/inode.c:1280-1314 | Reading n size words leads from one block list position to the next and sums the block sizes on the way. |
| MetaIndex.MetaCache.GrowSlot | kernel-2.4/fs/squashfs/inode.c:1325-1406 | Extending a slot keeps every cached position right while other slots change, and moves the offset on. |
| MetaIndex.MetaCache.GetMetaIndex | kernel-2.4/fs/squashfs/inode.c:1325-1406 | Ends, because the offset strictly increases, at a block list position at or before the wanted one with the right data position; after a failed read exactly the slot this reader owned has been released, and the cache is right if and only if slots are given back or that slot already had a checkpoint; slots locked by others are left alone. |
| MetaIndex.MetaCache.ReadBlocklist | kernel-2.4/fs/squashfs/inode.c:1409-1447 | In every state of the slots, whatever other readers do in between, the result is the start plus the sum of the first index block sizes, with word index; without read failures there is a result. |
| MetaIndex.FailureKeepsSlot | kernel-2.4/fs/squashfs/inode.c:1325-1406 | What a failed read leaves behind is a proper slot if and only if the slot is cleared or already had entries; this version does not clear it. |
| MetaIndex.EmptySlotLeft | kernel-2.4/fs/squashfs/inode.c:1325-1406 | A concrete file and a first read that fails: the 2.4 code leaves an empty unlocked slot that the next lookup takes, with the subscript -1. |
| MetaIndex.MetaCache.Interfere | kernel-2.4/fs/squashfs/inode.c:1187-1271 | Between two sleeps a reader has left every slot that others had locked as it was. |
| MetaIndex.FairStepsRespect | kernel-2.4/fs/squashfs/inode.c:1187-1271 | Any number of such steps by other readers keeps the cache right and the slot a reader has locked as it left it: what each leaves alone is what the others rely on. |
| MetaIndex.SubscriptInSlot | kernel-2.4/fs/squashfs/inode.c:1187-1218 | An empty slot is exactly what makes the computed subscript miss the slot. |
| Checksum.GetChecksum | squashfs-tools/mksquashfs.c:1857-1867 | The loop computes the 16-bit rotate-and-add checksum of the bytes. |
| Checksum.ChecksumSparse | squashfs-tools/process_fragments.c:60-77 | Skipping zero bytes gives the same checksum, and the flag tells whether all bytes are zero. |
| Checksum.SumAppend | squashfs-tools/mksquashfs.c:1870-1903 | The checksum of a file can be taken block by block. |
| XattrStore.CheckIdDupl | squashfs-tools/xattr.c:363-411 | Returns the newest earlier list the comparison takes for the same, and the checksum it was filed under. |
| XattrStore.SameListExact | squashfs-tools/xattr.c:363-411 | Two lists the comparison takes for the same are equal if and only if their values have the same lengths. |
| XattrStore.MergeLosesValue | squashfs-tools/xattr.c:390 | A concrete list of xattrs that gets the id of a different, longer one because only the new length is compared. |
| XattrStore.InlineLimit | squashfs-tools/xattr.c:544-675 | The size above which values go out of line is the first that fits the list into its target, or the smallest there is. |
| XattrStore.Store.CheckValueDupl | squashfs-tools/xattr.c:414-453 | Linking a value to an equal earlier one keeps every recorded place of a value right. |
| XattrStore.Store.WriteValues | squashfs-tools/xattr.c:544-675 | Afterwards every value marked out of line has a place that holds it. |
| XattrStore.Store.WriteList | squashfs-tools/xattr.c:544-675 | The reference handed out names a place where exactly this list is encoded, inline values and references alike. |
| XattrStore.Store.Generate | squashfs-tools/xattr.c:544-675 | Every id issued so far still stands for the list it was issued for, and the call issues an old id only for a list the comparison matches. |
| XattrStore.IdMeansList | squashfs-tools/xattr.c:544-675 | For any sequence of calls, the id returned for a list stands for that list if and only if the list it was merged with has the same value lengths. |
| XattrStore.IdsDecode | squashfs-tools/read_xattrs.c:311-390 | Every id of a store decodes, from the xattr stream once it is closed and collected, to the list it stands for. |
| XattrStore.GenerateAll | squashfs-tools/xattr.c:544-675 | A run of calls issues the ids the bookkeeping prescribes and keeps the store intact. |
| Xattrs.GetXattr | squashfs-tools/read_xattrs.c:311-390 | The loop over a list decodes names, values and references, or fails. |
| Xattrs.IdBack | squashfs-tools/read_xattrs.c:311-390 | Decoding an id whose list is encoded in the table gives the list back across inline, out of line and shared values. |
| ActionExpr.Lex | squashfs-tools/action.c:103-191 | Every token but the end consumes input and stays inside it. |
| ActionExpr.Parser.GetToken | squashfs-tools/action.c:103-191 | The character loop with quotes and escapes reads one token and moves past it. |
| ActionExpr.Parser.PeekToken | squashfs-tools/action.c:194-202 | Looking ahead gives the next token and moves nothing. |
| ActionExpr.Parser.ParseTestName | squashfs-tools/action.c:269-377 | Reads a test with its arguments, or fails on an unknown test, a wrong count or a bad argument. |
| ActionExpr.Parser.GetAtom | squashfs-tools/action.c:380-398 | Reads a test, a negation or a bracketed expression; always ends. |
| ActionExpr.Parser.ParseExpression | squashfs-tools/action.c:401-440 | Reads a chain of operands and operators up to the end or the closing bracket; always ends. |
| ActionExpr.PrintParse | squashfs-tools/action.c:3140-3165 | For every expression of plain names and arguments, parsing its printed form gives the same tree. |
| ActionExpr.ChainParse | squashfs-tools/action.c:401-440 | A chain without brackets parses to the tree that associates to the left, with equal precedence for both operators. |
| ActionExpr.ChainEval | squashfs-tools/action.c:731-752 | Such a chain evaluates like the running value of its operands from left to right. |
| PathTrie.GetComponent | squashfs-tools/unsquashfs.c:1258-1275 | Takes one component between runs of slashes. |
| PathTrie.ComponentsAreNames | squashfs-tools/unsquashfs.c:1258-1275 | Components hold no slash, and only a target without a name has an empty one. |
| PathTrie.AddPathText | squashfs-tools/unsquashfs.c:1296-1385 | Adding a target by its text equals adding its list of components. |
| PathTrie.AddPathCovers | squashfs-tools/unsquashfs.c:1296-1385 | Adding a target, with shorter ones swallowing longer ones, makes the trie cover exactly what it covered before and what the target covers. |
| PathTrie.AddAllCovers | squashfs-tools/unsquashfs.c:1296-1385 | For every list of targets in any order the trie covers a path exactly when some target matches a prefix of it. |
| PathTrie.Matches | squashfs-tools/unsquashfs.c:1419-1479 | One level of matching: everything below a leaf, nothing, or the sub-tries that still apply. |
| PathTrie.SelectedIffCovered | squashfs-tools/unsquashfs.c:1419-1479 | Carrying match sets from level to level selects exactly the paths the tries cover. |
| PathTrie.ExtractRule | squashfs-tools/unsquashfs.c:1585-1621 | A non-directory is extracted exactly when there are no targets or some target matches a prefix of its path. |
| PathTrie.DirScan | squashfs-tools/unsquashfs.c:1534-1628 | The recursive scan creates the files the level-by-level rule selects, in directory order. |
| PathTrie.ExtractsExactly | squashfs-tools/unsquashfs.c:1534-1628 | From any tree and any targets, the scan creates exactly the files whose path some target matches at a prefix. |
| PathTrie.Excluded | squashfs-tools/mksquashfs.c:4726-4779 | One level of exclusion, anchored and sticky. |
| PathTrie.ExcludeRule | squashfs-tools/mksquashfs.c:4726-4779 | A source path is left out exactly when an anchored exclude matches a prefix of it or the first component of a sticky one matches one of its names. |
| SortDirectory.DirInfo.MergeRuns | squashfs-tools/mksquashfs.c:3971-4048 | Merging two runs by relinking nodes puts onto the output what merging them as lists gives; the rest of the list stays linked. |
| SortDirectory.DirInfo.MergePass | squashfs-tools/mksquashfs.c:3971-4048 | One pass over the list relinks it into runs of twice the stride and ends it with NULL. |
| SortDirectory.PassDoubles | squashfs-tools/mksquashfs.c:3971-4048 | Ordered runs of a stride become ordered runs of twice the stride. |
| SortDirectory.PassStable | squashfs-tools/mksquashfs.c:3971-4048 | A pass keeps entries of equal name in their order. |
| SortDirectory.SortIsStableSort | squashfs-tools/mksquashfs.c:3971-4048 | The result holds the same entries, equal names in their old order, and is in strcmp order whenever the count is not below the length. |
| SortDirectory.DirInfo.Sort | squashfs-tools/mksquashfs.c:3971-4048 | The linked list is sorted in place, terminates in NULL, and is a stable permutation of the same nodes. |
| Moves.SubdirectoryIsAncestry | squashfs-tools/action.c:1748-1758 | The string test says yes exactly when the destination is the source directory or lies below it. |
| Moves.IsTree | squashfs-tools/action.c:1748-1758 | In a valid tree every directory lies below the root and none below itself. |
| Moves.PathsApart | squashfs-tools/action.c:1748-1758 | Different directories have different recorded paths. |
| Moves.Mover.MoveDir | squashfs-tools/action.c:1854-1867 | Recomputes the paths of a directory and of all directories below it, ends, and changes no other. |
| Moves.Mover.LookupComp | squashfs-tools/action.c:1616-1625 | Finds an entry of that name in the directory, or there is none. |
| Moves.RelinkedShape | squashfs-tools/action.c:1870-1950 | Moving or renaming to a free name keeps each entry in one list, sibling names distinct and both counters exact. |
| Moves.Mover.MoveFile | squashfs-tools/action.c:1870-1950 | A move is refused exactly when the entry is a directory and the destination lies below it; otherwise the entry is relinked and every path is right again. |
| Moves.Mover.DoMoveActions | squashfs-tools/action.c:1953-1974 | Any list of recorded moves keeps a valid tree, is carried out move by move on the tree the earlier ones have left, loses no entry and leaves entries no move names alone. |
| Moves.MovesDetermine | squashfs-tools/action.c:1953-1974 | The moves and the tree they start from determine the tree they end with. |
| WriteCache.First | squashfs-tools/caches-queues-lists.c:331-359 | The lookup finds a hashed buffer with the wanted index if there is one. |
| WriteCache.AllocKeeps | squashfs-tools/caches-queues-lists.c:376-387 | A new buffer disturbs nothing. |
| WriteCache.RecycleKeeps | squashfs-tools/caches-queues-lists.c:362-373 | Taking the oldest free buffer leaves every live block readable: it is stale, or its block is on disk and no stale buffer of the address is left. |
| WriteCache.FillKeeps | squashfs-tools/mksquashfs.c:2513-2546 | A deflator filling its buffer disturbs nothing. |
| WriteCache.PlaceKeeps | squashfs-tools/mksquashfs.c:2738-2877 | Giving a block its address and hashing it makes it the one found there, ahead of all stale buffers of that address. |
| WriteCache.QueueHeldKeeps | squashfs-tools/mksquashfs.c:2738-2877 | Queueing a buffer that was kept back keeps all blocks readable. |
| WriteCache.ForgetKeeps | squashfs-tools/mksquashfs.c:2738-2877 | Giving up the blocks of a duplicate keeps all others readable. |
| WriteCache.DropHeldKeeps | squashfs-tools/caches-queues-lists.c:466-504 | Putting a given-up buffer on the free list, still hashed, keeps all live blocks readable. |
| WriteCache.WriteKeeps | squashfs-tools/mksquashfs.c:2457-2490 | Writing the head of the queue, even a stale block over an address in use again, keeps all live blocks readable in the end. |
| WriteCache.TruncateKeeps | squashfs-tools/mksquashfs.c:2648-2735 | Cutting the output once the writer has caught up loses no live block. |
| WriteCache.PinKeeps | squashfs-tools/caches-queues-lists.c:331-359 | A lookup takes the buffer off the free list and keeps the order in which buffers come free. |
| WriteCache.UnpinKeeps | squashfs-tools/caches-queues-lists.c:466-504 | Putting a looked up buffer back behind the others keeps stale buffers of its address ahead of it. |
| WriteCache.MissKeeps | squashfs-tools/caches-queues-lists.c:331-359 | A lookup that finds nothing means the block is on disk and no queued write touches it. |
| WriteCache.QueueFragKeeps | squashfs-tools/mksquashfs.c:2549-2591 | A fragment queued at a free address keeps all live blocks readable. |
| WriteCache.BlockReads | squashfs-tools/mksquashfs.c:1870-1903 | In every such state, reading a live block from the cache or else from the disk gives its bytes. |
| WriteCache.UsersRead | squashfs-tools/mksquashfs.c:2099-2148 | A buffer looked up keeps the right bytes, and a missed block stays readable from the disk, until main is done with it. |
| Fragments.FillFragKeeps | squashfs-tools/mksquashfs.c:1718-1749 | Appending a tail end keeps all tail ends recorded in the fragment. |
| Fragments.CloseFragKeeps | squashfs-tools/mksquashfs.c:1670-1681 | Queueing a fragment counts it as outstanding. |
| Fragments.MakePackedKeeps | squashfs-tools/mksquashfs.c:2549-2591 | The write buffer a deflator makes is the only one with that number. |
| Fragments.PackFragKeeps | squashfs-tools/mksquashfs.c:2549-2591 | Compressing into a buffer that is already hashed shows no thread a half-filled copy. |
| Fragments.PlaceFragKeeps | squashfs-tools/mksquashfs.c:2549-2591 | A fragment placed at once has a table entry that leads to its extent. |
| Fragments.PendFragKeeps | squashfs-tools/mksquashfs.c:1660-1667 | A fragment that finds the output locked keeps its compressed copy until it is placed. |
| Fragments.UnlockFragKeeps | squashfs-tools/mksquashfs.c:1629-1657 | Placing a pending fragment does not mislead a thread that is fetching it. |
| Fragments.ReleaseFragKeeps | squashfs-tools/mksquashfs.c:2549-2591 | Putting the fragment buffer leaves the compressed copy or the disk to recover it from. |
| Fragments.PutPackedKeeps | squashfs-tools/mksquashfs.c:2457-2490 | Putting the write buffer after the write leaves the disk to recover it from. |
| Fragments.StartGetFinds | squashfs-tools/caches-queues-lists.c:564-597 | A fragment found in a cache is held until the thread is done. |
| Fragments.StartGetMakes | squashfs-tools/process_fragments.c:100-216 | A fragment in neither cache is placed or pending, and no other thread is fetching it. |
| Fragments.LookPackedKeeps | squashfs-tools/process_fragments.c:100-216 | Without a compressed copy the fragment has been written. |
| Fragments.ReadRowKeeps | squashfs-tools/process_fragments.c:100-216 | The size word read from the table is the right one, and the start too when it is needed. |
| Fragments.RecoverRight | squashfs-tools/process_fragments.c:100-216 | A fragment that has left the caches is recovered exactly, from the copy or from the disk. |
| Fragments.FillGetKeeps | squashfs-tools/process_fragments.c:100-216 | Filling and unlocking the buffer gives waiting threads the right bytes. |
| Fragments.EvictPackedKeeps | squashfs-tools/caches-queues-lists.c:362-373 | Recycling an unused write buffer leaves the fragment on disk. |
| Fragments.GotHoldsTails | squashfs-tools/mksquashfs.c:1454-1572 | The buffer get_fragment returns holds every tail end recorded in the fragment at its offset. |
| Fragments.NoneOutstanding | squashfs-tools/mksquashfs.c:6627-6637 | With none outstanding every closed fragment has a table entry and an extent with its compressed bytes. |
| Pipeline.PlaceBlockKeeps | squashfs-tools/mksquashfs.c:2880-2990 | The next block of the file goes right behind the others, where nothing else is. |
| Pipeline.DiscardKeeps | squashfs-tools/mksquashfs.c:2738-2877 | Rolling back gives up exactly the blocks of the file being written. |
| Pipeline.PlaceFragmentKeeps | squashfs-tools/mksquashfs.c:2549-2591 | A fragment never gets an address while a file is being written. |
| Pipeline.UnlockOneKeeps | squashfs-tools/mksquashfs.c:1629-1657 | Pending fragments get addresses behind the finished file. |
| Pipeline.NextKeeps | squashfs-tools/mksquashfs.c:2457-2990 | Every step of every thread keeps the invariant of the whole pipeline. |
| Pipeline.RunKeeps | squashfs-tools/mksquashfs.c:2457-2990 | The invariant holds after every run of any length. |
| Pipeline.NeverStuck | squashfs-tools/mksquashfs.c:2549-2591 | The buffers and table entries a fragment deflator or the unlocking loop reaches for are always there. |
| Pipeline.NeverStuckGetting | squashfs-tools/process_fragments.c:100-216 | So are those a thread in get_fragment reaches for. |
| Pipeline.FreshStart | squashfs-tools/mksquashfs.c:2457-2990 | A new output file is a start the theorems apply to. |
| Pipeline.AddressReused | squashfs-tools/mksquashfs.c:2738-2877 | There is a run in which an address is used again while the buffer of the block given up is still hashed under it; the case the theorems are about does occur. |
| Pipeline.EveryBlockReads | squashfs-tools/mksquashfs.c:2061-2182 | After every run, reading any block of any recorded or unfinished file gives its compressed bytes, however often its address was given up and used again. |
| Pipeline.EveryLookupHolds | squashfs-tools/mksquashfs.c:2061-2182 | After every run, what main has looked up or missed is still right although other threads have gone on. |
| Pipeline.EveryFragmentReturns | squashfs-tools/mksquashfs.c:1454-1572 | After every run no thread has failed to recover a fragment, and what it was given holds all recorded tail ends. |
| Pipeline.ExtentsApart | squashfs-tools/mksquashfs.c:2648-2990 | After every run each file lies in one piece from its start, and no file, fragment or block overlaps another. |
| Pipeline.OutstandingExact | squashfs-tools/mksquashfs.c:1620-1681 | After every run fragments_outstanding is the number of fragments queued, being compressed or pending. |
| Pipeline.AllOnDisk | squashfs-tools/mksquashfs.c:6627-6637 | When nothing is open, outstanding or queued any more, every block and every fragment is on disk at its recorded place. |
| ReaderMain.Reader.ReadOnce | squashfs-tools/mksquashfs.c:2305-2410 | One attempt at a file emits its blocks and a tail or an error report, with consecutive numbers, for every pattern of short reads, growth and failures. |
| ReaderMain.Reader.ReadFile | squashfs-tools/mksquashfs.c:2305-2410 | All attempts at a file whose size keeps changing. |
| ReaderMain.Reader.ReadProcess | squashfs-tools/mksquashfs.c:2222-2302 | The output of a process is emitted a block late so that the last carries the size; the number of the unused buffer is taken back. |
| ReaderMain.Reader.Scan | squashfs-tools/mksquashfs.c:2413-2435 | The walk reads each inode once, in directory order. |
| ReaderMain.SeqQueue.Get | squashfs-tools/caches-queues-lists.c:169-230 | Whatever order buffers arrive in, and however early, main waits for the one with the next number and gets it. |
| ReaderMain.Main.WriteFileProcess | squashfs-tools/mksquashfs.c:2648-2735 | Takes exactly the buffers of a process output. |
| ReaderMain.Main.WriteFileBlocks | squashfs-tools/mksquashfs.c:2880-2990 | Takes exactly as many buffers as were emitted for the size, fragment tail, sparse tail or error included. |
| ReaderMain.Main.WriteFile | squashfs-tools/mksquashfs.c:2993-3022 | Takes exactly the buffers of all attempts at the file. |
| ReaderMain.Main.Scan | squashfs-tools/mksquashfs.c:4119-4261 | The walk takes exactly the buffers of the inodes it has not made yet. |
| ReaderMain.VisitsAgree | squashfs-tools/mksquashfs.c:4119-4261 | Reader and main deal with the same inodes in the same order, hard links included. |
| ReaderMain.InStep | squashfs-tools/mksquashfs.c:2201-2435 | Over a whole tree, with buffers arriving through the queue in any order: the reader emits what its walk over files and processes prescribes, numbered from 0 without gap or repetition, and main takes exactly those, which are what its own walk calls for. |
| DupSearch.FileInfo.FragmentChecksum | squashfs-tools/mksquashfs.c:1575-1617 | A checksum computed when first needed equals the one recorded at once. |
| DupSearch.ChecksumDisk | squashfs-tools/mksquashfs.c:1870-1903 | Running over the blocks until the bytes are used up gives the checksum of all stored bytes. |
| DupSearch.PreScan | squashfs-tools/process_fragments.c:309-364 | The scan of a fragment thread finds a record with the same tail end exactly when its snapshot has one. |
| DupSearch.FragDuplicate | squashfs-tools/mksquashfs.c:2016-2058 | Snapshot scan and scan of the newer records together succeed exactly when one full scan at that moment would, and a hit has the same bytes. |
| DupSearch.Duplicate | squashfs-tools/mksquashfs.c:2061-2182 | Finds a record exactly when one has the same size, size words, stored bytes and tail end; the checksums reject no true match. |
| FileInode.DecodeBack | squashfs-tools/unsquash-4.c:143-182 | Whichever inode form was chosen, size, start, fragment, block count, tail length, sparse flag and xattr id come back. |
| FileInode.WordBack | squashfs-tools/mksquashfs.c:966-1075 | The size words come back from behind either header. |
| FileData.LayOut | squashfs-tools/mksquashfs.c:2880-2990 | Blocks, words and tail of a file come out as its cut into blocks prescribes, with all-zero blocks left out on demand. |
| FileData.LaidBlocksOk | squashfs-tools/mksquashfs.c:2880-2990 | A laid out file can be given to the duplicate search. |
| FileData.ChunkSizes | squashfs-tools/unsquashfs.c:999-1064 | The number of blocks and the length of each are what unsquashfs computes from the size alone. |
| FileData.ImageHoldsFile | squashfs-tools/mksquashfs.c:6627-6637 | After every finished run of the pipeline the image holds the blocks and the tail of every file stored, one that is only a fragment or only holes included. |
| FileData.QueueBlocks | squashfs-tools/unsquashfs.c:999-1064 | Queues a request per block, walking the start position by the stored sizes, and one for the fragment. |
| FileData.FileRoundTrip | squashfs-tools/unsquashfs.c:999-1064 | For every content, block size, fragment policy and sparse setting, the decoded inode and an image that holds the layout give requests that stand for exactly the original bytes. |
| FileData.DuplicateRoundTrip | squashfs-tools/mksquashfs.c:2738-2877 | The inode of a duplicate, which points at the blocks of another file, gives requests that all succeed and stand for its own bytes. |
| FileData.ExtractFile | squashfs-tools/unsquashfs.c:2000-2096 | From the bytes of the inode to the file written: the original bytes and length, whatever lseek does. |
| FileData.StoreAndExtract | squashfs-tools/unsquashfs.c:2000-2096 | For every file, policy and run of all threads that has ended and stored the layout: from the image and the bytes of the inode alone, unsquashfs writes the file. |
| FileData.FindAndExtract | squashfs-tools/mksquashfs.c:2061-2182 | For every laid out file and chain of records: the search hits exactly when there is a record of the same file, and the inode made from the hit extracts to the file. |
| FileData.TailCompared | squashfs-tools/process_fragments.c:309-364 | After every run, what get_fragment has given a thread is the tail of the record, so comparing it is comparing the record. |
| FileData.BlocksCompared | squashfs-tools/mksquashfs.c:2061-2182 | After every run, reading the blocks of a recorded file through the cache gives the blocks of the record. |
| Extract.Writer.WriteBlock | squashfs-tools/unsquashfs.c:880-919 | A hole before a block reads as zeros, whether it was skipped by lseek or written out. |
| Extract.Writer.WriteFile | squashfs-tools/unsquashfs.c:2000-2096 | The file written is the concatenation of the queued blocks and holes, a hole at the end included; it fails exactly when some block could not be read. |
| Append.InodesRestored | squashfs-tools/mksquashfs.c:423-453 | The restored inode table is the old one, block by block. |
| Append.DirsRestored | squashfs-tools/mksquashfs.c:6513-6593 | The restored directory table is the old one if and only if the root directory is empty at a block start or does not end on a multiple of 8192; otherwise its last block is missing. |
| Append.FullBlockIsLost | squashfs-tools/read_fs.c:624-696 | A concrete root directory of 31 sorted names whose encoding is exactly one block: an abort loses the block, and what is left does not decode. |
| Append.FindLastBlock | squashfs-tools/read_fs.c:624-696 | The reading loop finds the last block of the root directory and its uncompressed bytes. |
| Append.StoreMoves | squashfs-tools/mksquashfs.c:494-540 | Storing an item is a list of single changes to table and cache, so an abort inside it is a shorter list. |
| Append.FinishMoves | squashfs-tools/mksquashfs.c:633-706 | So is the final write. |
| Append.AbortTable | squashfs-tools/mksquashfs.c:423-453 | Save, any list of single changes, restore and final write give the old blocks as they were compressed and the saved tail compressed again. |
| Append.AbortInodes | squashfs-tools/read_fs.c:120-190 | For every inode table and root inode, every list of changes before the abort: what is written is the old table, byte for byte if the same saving is demanded; an incomplete root inode is refused. |
| Append.AbortDirectories | squashfs-tools/mksquashfs.c:6513-6593 | The same for the directory table with the last block that squashfs_readdir finds, whether or not the old root becomes a subdirectory. |
| Append.RewrittenDecodes | squashfs-tools/mksquashfs.c:423-453 | A rewritten table with the right tail reads as the old blocks, the first of them at their old positions, even if other savings were demanded when it was first written. |
| Append.FetchKept | squashfs-tools/unsquashfs.c:1185-1232 | Every old reference into the rewritten table fetches what it fetched before. |
| Append.DirectoriesComeBack | squashfs-tools/mksquashfs.c:423-453 | The rewritten directory table reads as the old one if and only if the root directory does not end on a block boundary, or the table ends where it begins. |
| IdTable.Ids.GetId | squashfs-tools/mksquashfs.c:725-735 | Walking the hash chain finds the last entry with the id, exactly when there is one. |
| IdTable.Ids.CreateId | squashfs-tools/mksquashfs.c:738-751 | A new id goes to the end of the table and the front of its chain. |
| IdTable.Ids.GetUid | squashfs-tools/mksquashfs.c:774-817 | The index of an entry with the id, added at the end if there is none; nothing else moves; fails exactly when a new id meets a full table. |
| IdTable.Answer | squashfs-tools/mksquashfs.c:774-817 | For any requests, every index handed out leads to the id that was asked for in the table at the end, and nothing is added but what was handed out. |
| IdTable.WriteIdTable | squashfs-tools/mksquashfs.c:709-722 | Writes the first entries as 32-bit words. |
| IdTable.OwnerComesBack | squashfs-tools/read_fs.c:699-747 | The index stored in an inode leads, through the table written and read again, to the id that was asked for. |
| IdTable.AbortIds | squashfs-tools/mksquashfs.c:423-453 | Whatever owners were asked for since, putting the count back writes the table that was read. |
| OldImage.StepOld | squashfs-tools/mksquashfs.c:2738-2877 | Every step of every thread leaves old bytes, old extents and old fragment rows alone. |
| OldImage.OldImageKept | squashfs-tools/mksquashfs.c:6513-6593 | After every run from an image that is appended to, all bytes below the place where writing began are unchanged, all old extents are on disk, and the rows of the old fragments are the old ones. |
| OldImage.WriteFragmentTable | squashfs-tools/mksquashfs.c:1810-1825 | Writes the first rows of the fragment table. |
| OldImage.RowsUnchanged | squashfs-tools/mksquashfs.c:423-453 | After every run, writing as many rows as the old image had writes the old rows. |
| OldImage.RowsComeBack | squashfs-tools/read_fs.c:750-803 | Every row of a fragment table written and read again is the row it was. |
| XattrTable.WriteXattrs | squashfs-tools/xattr.c:488-541 | Writes the closed xattr stream and behind it the table of ids with its header, or nothing when there is no id. |
| XattrTable.ReadXattrsFromDisk | squashfs-tools/read_xattrs.c:151-276 | Reads header, table of ids and xattr stream, or fails. |
| XattrTable.XattrsComeBack | squashfs-tools/read_xattrs.c:151-276 | What write_xattrs writes for a valid store gives, when read, the list of every id. |
| XattrTable.XattrRoundTrip | squashfs-tools/xattr.c:488-541 | Any lists generated, written and read again, as long as they are of modest size or the result fits: the id of a call leads to its list if and only if it was not merged or merged with a list whose values have the same lengths. |
| XattrTable.GetXattrs | squashfs-tools/xattr.c:737-774 | Reading the lists of an image and generating them again succeeds, with every list under its old id, if and only if none is taken for an earlier one. |
| XattrTable.Replay | squashfs-tools/xattr.c:737-774 | The lists of any run, generated again in the order of their ids, are never merged and get the same ids. |
| XattrTable.FitsSmall | squashfs-tools/xattr.c:456-541 | Lists of modest size fit the fields of the xattr tables however they are stored and compressed; larger ones do if the table that results is short enough. |
| XattrTable.AbortXattrs | squashfs-tools/xattr.c:781-819 | After any further lists and anywhere inside a further call, restore_xattrs and write_xattrs give an image in which every old id leads to its old list. |
| Restore.AbortAppend | squashfs-tools/mksquashfs.c:423-453 | For every image and every moment of giving up: data below the tables untouched, inode, fragment, id and xattr tables read as before, the directory table if and only if its tail was saved, and the super block leads to the old root inode if and only if main had not put another reference into it. |
| Restore.RootExact | squashfs-tools/mksquashfs.c:6605-6642 | In the restored inode table a reference leads to the place of the old root inode if and only if it is the old reference. |
| Restore.RootFetched | squashfs-tools/mksquashfs.c:423-453 | The old reference fetches the same root inode from the restored table. |
| Restore.DataUntouched | squashfs-tools/mksquashfs.c:423-453 | What the output holds below the old tables when the threads are stopped is what it held before. |
| Restore.RootBeyond | squashfs-tools/unsquashfs.c:616-628 | A root inode beyond the end of the inode table is not found. |
| Restore.LateAbortLosesRoot | squashfs-tools/mksquashfs.c:6605-6642 | A concrete append given up after main has put the new root inode into the super block: the restored inode table does not hold it. |

## Left out

- The compressor wrappers (gzip, xz, lzo, lz4, lzma) and their options; every result here holds for any lossless compressor.
- Command line, progress bar, information threads, signal handling and memory probing.
- The Android, SELinux and capability additions.
- The decoders of the 1.x, 2.x and 3.x formats.
- Following symbolic links in action tests, which has no bound on cycles.
- Deadlock freedom of the pipeline and the waiting and signalling of threads; the model has safety over all steps.
- Width of counters: counts, strides and positions do not overflow in the model; encoded tables are assumed to stay below the width of the fields that hold their positions.
- The block cache of the kernel and its locking; metadata reads in the kernel are sequential reads of the table.
- Inodes of other kinds than regular files, and the unused fields of regular ones.
- The tests of action expressions themselves; a parser for a test's arguments is any predicate.
- Recording moves and destinations by walking path names; recorded moves are given.
- Old root entries in a tree that is moved about, and the depth recorded with each directory.
- Error exits of mksquashfs on failed writes and failed memory requests.
- The sorted mode of reading files by priority.
- Growing the fragment table while a thread reads an entry of it, and the fragment of a record that is linked into the chain before its fragment is set; the model reads both when they are complete.
- The counters of the super block, the export table and the padding after an abort, and the mapping of owner ids before they are looked up.
- XattrTable.AbortXattrs: the memory behind a shorter value is the same whenever it is compared; lists that are not modest and do not fit the fields of the tables are excluded.
- Restore.AbortAppend: the old image lies as mksquashfs lays it out, with the directory table behind the inode table and the root directory last.
- Extraction of a damaged image beyond reporting failure: a block that decompresses to fewer bytes than expected is padded with zeros.
- MetaIndex.MetaCache.ReadBlocklist: inode numbers start from 1 and the state stays proper after a failed read only if the slot is cleared, which the 2.4 code does not do.
- ActionExpr.PrintParse: only names and arguments without blanks, quotes, escapes and operator characters print as themselves.
- XattrStore.Store.Generate: entries are filed at the end of the call rather than at its start, which no later step of the same call can tell apart.
- ReaderMain.InStep: each process has one directory entry, as the pseudo file definitions create it.
- Directory.DirectoryRoundTrip: names longer than 256 bytes come back cut, as they were stored.
