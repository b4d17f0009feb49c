# HydrogenOS kernel: a Dafny model of its state machines

This project models the parts of the HydrogenOS kernel that are closed state machines over fixed
tables, and proves what their comments promise for every input and every run. `dafny verify
dfyconfig.toml` checks all of it.

- **TCP endpoint** (`Tcp*.dfy`): one connection block as a record with functions for every entry
  point; its invariant over all runs of one block, in unbounded integers (`TcpInvariant`) and carried
  over to the 32-bit fields by a congruence argument (`TcpWrap`); two endpoints over a network that
  loses, duplicates and reorders (`TcpSystem`, `TcpRuns`, `TcpEnds`); the window edge (`TcpWindow`), obedience
  to the window of the peer (`TcpFlow`, `TcpHeed`) and what calls and the peer answer
  (`TcpReplies`, `TcpAnswers`); opening (`TcpOpen`), progress (`TcpProgress`) and boundary cases (`TcpEdge`); the byte rings and the transmit loop in place
  (`TcpBuffers`).
- **ext2 files** (`Ext2*.dfy`): the disk as byte blocks, the bitmap allocator, the three-level block
  map with trimming and growing, and read, write and truncate against a plain byte sequence, for one
  file (`Ext2Content`) and for many on one volume (`Ext2Files`).
- **ext2 directories** (`Dir*.dfy`): inodes with entries, `..` and link counts; mkdir, rmdir,
  unlink, link and rename keep a tree and succeed or fail exactly under their conditions; lookups through the dentry cache agree with uncached ones
  after any sequence of calls.
- **Dentry cache** (`Dentry*.dfy`): bucket chains, free list and order of use over one slot pool, as
  a least-recently-used list of at most 256 answers, and as the cache the directory code relies on.
- **Block cache** (`SectorTable`, `CacheInvariant`, `BlockCache`): hash chains, victim choice, sorted
  write-back, sync and tick over a device that fails, tears writes and loses unflushed data.
- **Pipes, wait queues, handles, scheduler** (`Pipe*.dfy`, `Wait*.dfy`, `Scheduler`): one machine
  whose steps are system calls and scheduler decisions; no lost wake-up, exact reference counts and
  reads that are a prefix of the writes in every run, with every answer a process gets; the linked queues and the ring buffer in place; fair turns at the top priority.
- **Address spaces** (`Regions`, `RegionSteps`, `AddressSpace`, `PageTables`, `PageCounts`,
  `PageSweep`, `Paging`, `UserMemory`): the region list as the canonical run-length encoding of a map, the four-level page
  tables as a flat map, and both together as one map of the pages of a process whose rights are those last asked for.
- **Path resolution** (`PathResolve`, `PathMeaning`): symbolic link expansion with its termination
  measure, and where a path leads by a meaning that never edits the text.

Functions say what is computed, lemmas what that means, and methods with loops or `modifies` follow
the source's in-place code and are proved against the functions.

Four things the model shows about the code:

- Two active opens cannot complete once both bare SYNs were heard (`TcpEdge.StalledForever`,
  `TcpEdge.SimultaneousOpenStalls`): a block in SYN_RECEIVED answers only with SYN+ACK, which the
  peer, also in SYN_RECEIVED, never takes as an acknowledgement. They do complete while one SYN is
  still unheard (`TcpOpen.HandshakeCompletes`); `TcpOpen.OpenCompletesIff` is the exact condition.
- An end of file read from a closed TCP block can hide lost bytes: a reset drops the unread ones, and
  if tcp_write is the first to be told of the error, the next tcp_read reports an end of file
  (`TcpEnds.WriteTakesTheError`); `TcpEnds.ClosedEndOfFileIff` says when it can be trusted.
- An end can send text past the edge its peer stands by: an acknowledgement on a segment numbered before the one the
  send window came from moves snd_una but leaves the window (`TcpHeed.OlderNumberOverruns`); as long as the window was
  told with the current snd_una it cannot (`TcpHeed.TextStaysInTheWindow`).
- A blocked pipe request for zero bytes would lose a wake: a writer would swallow one meant for the
  next writer, a reader would queue again in front of data (`PipeHandles.ResumeServesIff` says
  exactly when). No such request arises: the system calls return at once for length zero
  (kernel/core/syscall.c:376 and 411), and although they hand on only the low 32 bits of the length,
  a multiple of 2^32 bytes is refused before, since kernel/core/usercopy.c:42 wants every page of it
  mapped and kernel/mm/pmm.c:16 manages 128 MiB. The runs therefore start from `PipeWorld.Asks`.

## Model

| member | source | states |
|---|---|---|
| TcpInvariant.WindowEdge | kernel/net/tcp.c:263-285 | the window a segment advertises neither moves the right edge left nor exceeds the free receive buffer |
| TcpInvariant.SendDataKeeps | kernel/net/tcp.c:401-434 | the transmit loop keeps snd_una <= snd_nxt <= snd_max <= snd_una + tx_len and sends only slices of the unacknowledged bytes |
| TcpInvariant.OutputKeeps | kernel/net/tcp.c:385-459 | from any state inside a call, tcp_output re-establishes the whole invariant of a block: ordered send variables, backed window, running timer |
| TcpInvariant.TimeoutKeeps | kernel/net/tcp.c:461-505 | SYN retries, zero-window probes and go-back-N all keep the invariant |
| TcpInvariant.AckAdvanceValue | kernel/net/tcp.c:507-544 | an acknowledgement drops exactly the acknowledged bytes and moves the FIN states as RFC 793 section 3.9 asks |
| TcpInvariant.AckAdvanceKeeps | kernel/net/tcp.c:507-544 | advancing snd_una keeps the invariant |
| TcpInvariant.SynSentInputKeeps | kernel/net/tcp.c:559-600 | every answer to a SYN keeps the invariant |
| TcpInvariant.TextInputKeeps | kernel/net/tcp.c:626-681 | accepting text and FIN keeps the invariant |
| TcpInvariant.SegmentInputKeeps | kernel/net/tcp.c:683-762 | every segment, acceptable or not, keeps the mid-call invariant |
| TcpInvariant.InputKeeps | kernel/net/tcp.c:885-919 | every arriving segment keeps the invariant of the block |
| TcpInvariant.TickKeeps | kernel/net/tcp.c:937-964 | a timer tick keeps the invariant |
| TcpInvariant.ConnectKeeps | kernel/net/tcp.c:977-1043 | an active open starts in the invariant |
| TcpInvariant.ReadKeeps | kernel/net/tcp.c:1116-1154 | reading keeps the invariant |
| TcpInvariant.WriteKeeps | kernel/net/tcp.c:1156-1189 | writing keeps the invariant |
| TcpInvariant.ShutdownKeeps | kernel/net/tcp.c:1191-1206 | shutting down keeps the invariant |
| TcpInvariant.CloseKeeps | kernel/net/tcp.c:1208-1247 | closing keeps the invariant |
| TcpWrap.CongInput | kernel/net/tcp.c:146-152 | what a segment does depends on sequence numbers modulo 2^32 only |
| TcpWrap.CongOutput | kernel/net/tcp.c:385-459 | what is transmitted depends on sequence numbers modulo 2^32 only |
| TcpWrap.CongTick | kernel/net/tcp.c:937-964 | what a timer tick does depends on sequence numbers modulo 2^32 only |
| TcpWrap.EveryRun | kernel/net/tcp.c:401-456 | in every run of one block, whatever arrives and is called, the 32-bit fields satisfy snd_una <= snd_nxt <= snd_max <= snd_una + tx_len + FIN, the advertised window fits the buffer, and a data state with queued bytes or a FIN has its timer armed |
| TcpSystem.InputGood | kernel/net/tcp.c:683-762 | a delivered segment keeps both directions of a connection consistent: the transmit ring is the unacknowledged tail of the written stream, what the peer has is a prefix of it |
| TcpSystem.TickGood | kernel/net/tcp.c:937-964 | a timer tick keeps both directions consistent |
| TcpSystem.OutputKeepsGood | kernel/net/tcp.c:385-459 | transmission keeps both directions consistent |
| TcpSystem.ReadGood | kernel/net/tcp.c:1116-1154 | reading moves bytes from the receive ring to the reader and keeps both directions consistent |
| TcpSystem.WriteGood | kernel/net/tcp.c:1156-1189 | an accepted write extends the stream and keeps both directions consistent |
| TcpSystem.ShutdownGood | kernel/net/tcp.c:1191-1206 | shutdown keeps both directions consistent |
| TcpSystem.CloseGood | kernel/net/tcp.c:1208-1247 | close keeps both directions consistent |
| TcpRuns.EveryRunKeeps | kernel/net/tcp.c:385-762 | the consistency of both directions holds in every run over a network that loses, duplicates and reorders |
| TcpRuns.ReadsArePrefixes | kernel/net/tcp.c:1116-1189 | in every run what each side has read is a prefix of what the other side has written |
| TcpRuns.FinAfterEveryByte | kernel/net/tcp.c:626-681 | in every run and for either direction a consumed FIN is the end of the final stream and every byte before it was accepted or deliberately discarded |
| TcpRuns.NoByteLost | kernel/net/tcp.c:507-527 | in every run and for either direction an accepted byte is in the transmit ring or has been taken by the peer |
| TcpRuns.EndOfFileIsComplete | kernel/net/tcp.c:1116-1154 | in every run an end of file from an open, unshut side means the whole stream was read |
| TcpEnds.ActEnds | kernel/net/tcp.c:339-346 | a step that closes a block without error and without its owner having dropped it leaves every received byte to the reader |
| TcpEnds.ClosedEndOfFileIsComplete | kernel/net/tcp.c:1116-1154 | in every run an end of file on a block that was closed in order after the FIN of its peer, from LAST_ACK, CLOSING or TIME_WAIT, means the whole stream was read, however late |
| TcpEnds.ClosedEndOfFileIff | kernel/net/tcp.c:1116-1189 | in every run an end of file on a closed block means that the stream of the peer ended and was read to its end exactly when its FIN was consumed and the end of the connection dropped no unread byte |
| TcpEnds.WriteTakesTheError | kernel/net/tcp.c:1156-1163 | after a reset the first write is told the error and the next read reports an end of file although unread bytes were dropped |
| TcpWindow.EdgeStep | kernel/net/tcp.c:263-285 | no event moves the advertised right edge to the left, from SYN_RECEIVED on |
| TcpWindow.EdgeNeverMovesLeft | kernel/net/tcp.c:263-285 | the same in every run of the 32-bit block against any network: each event moves the edge ahead by less than half the sequence space or leaves it |
| TcpFlow.SendDataObeys | kernel/net/tcp.c:401-434 | the data loop sends the queued text in order from snd_nxt on; every segment ends inside the peer's window, is no longer than the segment size and no shorter than text, window, ring or segment size force; it stops only when nothing is unsent, the window is full or the silly-window rule holds |
| TcpFlow.OutputObeys | kernel/net/tcp.c:385-459 | the same for tcp_output as a whole: the text among its segments runs without gap from where transmission stood, or from snd_una if the window is shut |
| TcpFlow.StepObeys | kernel/net/tcp.c:385-1247 | whatever arrives or is called, text goes out only in data states and inside the window and queue the block has afterwards |
| TcpHeed.SegmentHeeds | kernel/net/tcp.c:683-762 | the send window a segment leaves is its own window field, with snd_una at what it acknowledges, or the one before |
| TcpHeed.WindowFollowsNewest | kernel/net/tcp.c:743-754 | the window of an acceptable segment is taken exactly when no newer one was taken before and it acknowledges something sent and not yet known |
| TcpHeed.StepHolds | kernel/net/tcp.c:385-1247 | no call and no timer changes the send window or what it is counted from |
| TcpHeed.StepPromises | kernel/net/tcp.c:263-285 | every window a block advertises ends at or below the edge it stands by, which never moves left |
| TcpHeed.EveryRunHeeds | kernel/net/tcp.c:385-762 | in every run the window an end obeys is the window field of a segment the peer sent, and every window the peer advertised lies below its edge |
| TcpHeed.TextStaysInTheWindow | kernel/net/tcp.c:385-459 | in every run and for either direction no end sends text past the window field it last took from its peer, nor past the peer's edge while that window counts from snd_una |
| TcpHeed.OlderNumberOverruns | kernel/net/tcp.c:743-754 | an acknowledgement on a segment numbered before the one the window came from moves snd_una but not the window, so text passes the edge that segment promised |
| TcpReplies.ReadReopens | kernel/net/tcp.c:1116-1154 | a read returns the oldest bytes and announces the window exactly when the free space has grown by a segment or half the buffer past the promised edge, and then all of it |
| TcpReplies.WriteQueues | kernel/net/tcp.c:1156-1189 | a write takes as much as the ring has room for, in order, behind what is queued; EAGAIN exactly when there is none |
| TcpReplies.ResetCloses | kernel/net/tcp.c:602-624 | a reset closes a synchronized block exactly when it is acceptable, numbered rcv_nxt and the block is not in TIME_WAIT; any other acceptable one is answered with an acknowledgement |
| TcpAnswers.ProbeIsAnswered | kernel/net/tcp.c:478-490 | in every run a probe of a closed window is never acceptable to the peer, whatever it has received, and draws an acknowledgement with its current window |
| TcpAnswers.OpenIsRefused | kernel/net/tcp.c:227-237 | an open against a closed end draws a reset that fails it with ECONNREFUSED |
| TcpAnswers.ForgottenIsReset | kernel/net/tcp.c:227-237 | any segment of a synchronized block to an end that forgot the connection draws a reset that closes the block |
| TcpAnswers.TextIsTakenWhole | kernel/net/tcp.c:626-662 | text is skipped up to rcv_nxt and then taken as far as there is room, or all of it when reading is shut; text behind a gap is only answered |
| TcpAnswers.AcceptableIff | kernel/net/tcp.c:695-704 | the acceptance test of RFC 793 section 3.9 in plain numbers, for segments within half the sequence space |
| TcpAnswers.NewBytesAreTaken | kernel/net/tcp.c:626-762 | a segment that reaches past rcv_nxt, also one that starts before it, advances the stream by its new bytes as far as there is room |
| TcpAnswers.TriesStartAgain | kernel/net/tcp.c:743-758 | an acknowledgement of something new or a closed window in the answer starts the count of tries again, nothing else does |
| TcpAnswers.TimerRunsWhileBusy | kernel/net/tcp.c:450-458 | the timer runs exactly while something is in flight or text waits behind a closed window, and starts with the full timeout |
| TcpAnswers.AckRestartsTimer | kernel/net/tcp.c:507-544 | an acknowledgement that moves snd_una resets the tries and restarts the timer, or stops it if nothing is in flight |
| TcpAnswers.CloseEndsTheStream | kernel/net/tcp.c:1208-1247 | closing with unread bytes resets the peer; otherwise the FIN follows the queued bytes, at once if all are sent, and the orphan gets its full time |
| TcpReplies.RetriesDouble | kernel/net/tcp.c:333-505 | without an answer every timeout doubles the next one up to the maximum, sends again and counts, for all six tries |
| TcpReplies.GivesUp | kernel/net/tcp.c:492-505 | the timeout after the sixth try fails the connection with ETIMEDOUT and one reset |
| TcpReplies.OpenGivesUp | kernel/net/tcp.c:461-476 | an unanswered SYN is sent again five times at doubled intervals and the next timeout fails the open |
| TcpReplies.TimeWaitLasts | kernel/net/tcp.c:364-368 | a block enters TIME_WAIT with its full second to go and no retransmission timer |
| TcpOpen.EveryRunHand | kernel/net/tcp.c:293-304 | in every run an end that is not connected yet has sent nothing but SYNs and resets, and its own SYN once it is in SYN_SENT |
| TcpOpen.SynIsAnswered | kernel/net/tcp.c:683-817 | a listener, an end that sent a SYN itself and one that heard this SYN before all answer a SYN with one SYN+ACK for it |
| TcpOpen.SynAckIsAnswered | kernel/net/tcp.c:559-600 | a SYN+ACK for its own SYN establishes an end in SYN_SENT, which acknowledges it |
| TcpOpen.AckEstablishes | kernel/net/tcp.c:683-762 | that acknowledgement establishes the end in SYN_RECEIVED |
| TcpOpen.HandshakeCompletes | kernel/net/tcp.c:559-817 | an active open against a listener, or against an active open whose SYN is not heard first, establishes both ends in three segments for all sequence numbers and clocks |
| TcpOpen.OpenCompletesIff | kernel/net/tcp.c:385-817 | in every run, two ends in LISTEN, SYN_SENT or SYN_RECEIVED can still both be established exactly when both blocks are in use and the ends are neither both in SYN_RECEIVED nor both listening |
| TcpEdge.ResendCoversFirst | kernel/net/tcp.c:492-505 | a retransmission timeout sends the first unacknowledged byte again, or the FIN if no byte is left, and re-arms the timer |
| TcpEdge.StaleTextIsTaken | kernel/net/tcp.c:626-662 | text exactly one sequence space old is accepted as new, which is why deliveries must not be older than half the space |
| TcpProgress.TextIsTaken | kernel/net/tcp.c:626-681 | text at the left edge is taken, at least one byte of it, by an end that takes data and has room |
| TcpProgress.RetransmissionDelivers | kernel/net/tcp.c:461-505 | in every run, from a sender with queued bytes, an open window and a retransmission left and a receiver with room, the receiver has the first unacknowledged byte or a timeout and one delivery bring it |
| TcpEdge.StalledForever | kernel/net/tcp.c:559-600 | once both bare SYNs were heard no continuation ever establishes either of them |
| TcpEdge.SimultaneousOpenStalls | kernel/net/tcp.c:385-391 | two active opens whose SYNs cross reach that stalled state |
| TcpBuffers.ByteRing.Put | kernel/net/tcp.c:546-553 | the two copies append the data to the ring contents |
| TcpBuffers.ByteRing.Take | kernel/net/tcp.c:1139-1145 | the two copies take the oldest bytes off the ring |
| TcpBuffers.ByteRing.Drop | kernel/net/tcp.c:516-519 | acknowledged bytes leave the ring |
| TcpBuffers.TransmitLoop | kernel/net/tcp.c:408-434 | the loop over the ring sends exactly what the recursive form sends, whose segments TcpFlow.SendDataObeys describes |
| Ext2Alloc.Allocator.FindClear | kernel/fs/ext2.c:386-413 | in a group whose count says a block is free, the scan ends at the first clear bit |
| Ext2Alloc.Allocator.Alloc | kernel/fs/ext2.c:386-413 | succeeds exactly when a block is free; takes the first free block in the order of groups from the goal group on; all counts keep agreeing with the bitmaps |
| Ext2Alloc.Allocator.Free | kernel/fs/ext2.c:415-432 | refuses blocks outside the volume and blocks already free; otherwise exactly that block becomes free |
| Ext2Tree.TableRoundTrip | kernel/fs/ext2.c:252-260 | a pointer table written to a block reads back the same |
| Ext2Inode.BlockPath | kernel/fs/ext2.c:485-517 | a path exists exactly below the largest map, and slot and remainder give the logical block back |
| Ext2Inode.IndexDigits | kernel/fs/ext2.c:485-517 | the stored indices are the digits a walk down the tree uses |
| Ext2Inode.Walk | kernel/fs/ext2.c:519-534 | the pointer loop computes the lookup in the tree, and the count of missing blocks |
| Ext2Inode.GetBlock | kernel/fs/ext2.c:519-534 | the physical block of a logical one, 0 for a hole, EIO exactly beyond the largest map |
| Ext2Inode.MapInjective | kernel/fs/ext2.c:485-534 | no two logical blocks share a physical block |
| Ext2Inode.MapIsData | kernel/fs/ext2.c:485-534 | a mapped data block is none of the inode's indirect blocks |
| Ext2Volume.Volume.MapBelow | kernel/fs/ext2.c:536-592 | the missing part of a path is built from fresh zeroed tables and only that index changes |
| Ext2Inode.MapNewBlock | kernel/fs/ext2.c:536-592 | ENOSPC is reported exactly when fewer blocks are free than the path lacks, before anything changed; otherwise the map gains exactly that block and i_blocks, bitmap and counts follow |
| Ext2Tree.TrimLookup | kernel/fs/ext2.c:613-656 | trimming a tree keeps the indices below the limit and makes holes of the rest |
| Ext2Volume.Volume.TrimIndirect | kernel/fs/ext2.c:613-656 | the loop over a table releases exactly the blocks the trimmed tree lacks, each once, and reports emptiness exactly |
| Ext2Inode.TrimSlotsMap | kernel/fs/ext2.c:658-690 | after inode_trim_blocks every logical block below keep maps as before and every later one is a hole |
| Ext2Inode.TrimBlocks | kernel/fs/ext2.c:658-690 | exactly the dropped data and indirect blocks become free, once each, i_blocks goes down by their number, and no data block is written |
| Ext2Content.ReadAt | kernel/fs/ext2.c:1170-1209 | returns the contents from the offset, cut at the end of file and the buffer size; nothing at or past the end |
| Ext2File.StoreChunk | kernel/fs/ext2.c:1348-1409 | one round of a write changes exactly its stretch of one block, or nothing when no space is left |
| Ext2Content.WriteAt | kernel/fs/ext2.c:1348-1409 | the bytes reported as written, and only those, are spliced in with gaps as zeros; a short write means the next block cannot be allocated; EFBIG exactly past the limit; no block outside the file is touched, allocated or freed |
| Ext2Content.ZeroTail | kernel/fs/ext2.c:1411-1423 | bytes of the last block past the new size become zero |
| Ext2Content.Truncate | kernel/fs/ext2.c:1425-1450 | the contents are cut or zero-extended, bytes past the end stay zero, exactly the blocks past the new size are released and no other allocation changes |
| Ext2Content.Replay | kernel/fs/ext2.c:1170-1450 | any history of writes and truncations leaves the file as it leaves a plain byte sequence |
| Ext2Files.Release | kernel/fs/ext2.c:704-724 | every block of the file and no other becomes free |
| Ext2Files.TrimmedAway | kernel/fs/ext2.c:704-724 | an inode trimmed to nothing has only holes |
| Ext2Files.EmptyFile | kernel/fs/ext2.c:1293-1346 | a new inode without blocks is a sound empty file on every volume |
| Ext2Files.OneChanged | kernel/fs/ext2.c:386-690 | a change to one file keeps all files sound and disjoint, changes no other text and strands no block |
| Ext2Files.Session | kernel/fs/ext2.c:386-1450 | any interleaving of creating, writing, truncating and deleting files acts on each text as its own calls do; files never share a block; the blocks in use that belong to no file stay the same |
| Ext2File.OtherFileKept | kernel/fs/ext2.c:386-690 | a file that shares no block with the one changed keeps its map and every byte |
| DirTree.CheckNotAncestor | kernel/fs/ext2.c:1063-1077 | in a tree the walk ends before its bound, and refuses exactly when the moved directory is on the way from the new parent to the root |
| DirMoves.MovedTree | kernel/fs/ext2.c:1582-1679 | a rename that passed its checks keeps one name per directory, a way to the root for all of them, and exact link counts |
| DirMoves.MovedSubdirs | kernel/fs/ext2.c:1652-1664 | the link counts of both parents follow their subdirectories, also when an empty directory is replaced or the parents coincide |
| DirRename.RenamedMoves | kernel/fs/ext2.c:1641-1678 | the separate updates of entries, ".." and link counts add up to moving one name |
| DirRename.Rename | kernel/fs/ext2.c:1582-1679 | the name moves, an empty directory or a file at the target goes, nothing else changes; succeeds exactly when the names are usable, the source exists and does not move below itself, and the target is absent with room and a link to spare, the same inode, a file for a file or an empty directory for a directory; every errno exactly under its own condition |
| Directories.FileTree.Mkdir | kernel/fs/ext2.c:1457-1519 | adds exactly one empty directory; succeeds exactly when the name is usable and free, the parent has a link to spare and inode and blocks are found; every errno exactly under its own condition; keeps the tree and the cached lookups |
| Directories.FileTree.Rmdir | kernel/fs/ext2.c:1521-1551 | removes exactly one empty directory, exactly when the name leads to one; every errno exactly under its own condition; keeps the tree and the cached lookups |
| Directories.FileTree.Unlink | kernel/fs/ext2.c:1553-1580 | removes exactly one name, and the inode with its last name, exactly when the name leads to a file; every errno exactly under its own condition |
| Directories.FileTree.Link | kernel/fs/ext2.c:1681-1718 | a file gets exactly one more name, exactly when it is a file with a link to spare and the name is usable and free; every errno exactly under its own condition |
| Directories.FileTree.WriteFile | kernel/fs/ext2.c:1293-1328 | a usable free name gets a new file when inode and block are found, a regular file keeps its name; every errno exactly under its own condition |
| Directories.FileTree.Symlink | kernel/fs/ext2.c:1720-1773 | a usable free name gets a new inode exactly when the target fits a block and inode and blocks are found; every errno exactly under its own condition |
| DirEdits.EditedTree | kernel/fs/ext2.c:881-958 | adding or removing one name in these ways keeps the tree and every link count |
| Directories.FileTree.LookupCached | kernel/fs/ext2.c:1002-1014 | with the slot pool as the cache, a cached lookup gives the answer of an uncached one, whatever the pool holds or forgets and however long the name |
| Directories.FileTree.Walk | kernel/fs/ext2.c:1016-1033 | a walk along a path through the cache ends where a walk through the directories ends, with the same error |
| Directories.FileTree.Mount | kernel/fs/ext2.c:1083-1086 | a mounted tree with nothing cached satisfies the invariant |
| Directories.FileTree.Forget | kernel/fs/ext2.c:881-958 | exactly the answer for the name is forgotten, also for names the pool never stores |
| Directories.FileTree.ForgetInode | kernel/fs/ext2.c:745-757 | exactly the answers about the inode are forgotten |
| DirSession.Session | kernel/fs/ext2.c:881-1679 | after any sequence of lookups and changes the inodes form a tree, a call whose conditions hold makes the one edit it asks for and any other changes nothing, and every path leads through the cache to where the directories lead at that moment |
| DentryLink.InvalidateInodeLinks | kernel/fs/ext2.c:745-757 | what dcache_invalidate_inode drops is exactly what destroying an inode needs dropped |
| DentryCache.Dcache.constructor | kernel/fs/dcache.c:55-66 | starts with every slot free and no answer |
| DentryCache.Dcache.BucketUnlink | kernel/fs/dcache.c:91-97 | a slot leaves its chain; every other slot stays on the list it belongs to |
| DentryCache.Dcache.LruUnlink | kernel/fs/dcache.c:68-78 | a slot leaves the order of use; the others keep theirs |
| DentryCache.Dcache.LruPushFront | kernel/fs/dcache.c:80-89 | a slot becomes the most recently used |
| DentryCache.Dcache.Release | kernel/fs/dcache.c:100-107 | exactly one answer is forgotten and its slot becomes free |
| DentryTable.DetachKeeps | kernel/fs/dcache.c:91-107 | taking a slot off its chain or the free list keeps the partition of all other slots |
| DentryTable.AttachKeeps | kernel/fs/dcache.c:104-159 | a slot put on the list it belongs to restores the partition |
| DentryCache.Dcache.Find | kernel/fs/dcache.c:109-118 | finds a key exactly when it is cached |
| DentryCache.Dcache.Acquire | kernel/fs/dcache.c:120-128 | yields a free slot; with none free, exactly the least recently used answer goes |
| DentryCache.Dcache.Insert | kernel/fs/dcache.c:130-159 | the answer comes first and of the others at most 255, the most recently used, stay |
| DentryCache.Dcache.Lookup | kernel/fs/dcache.c:161-180 | a hit returns the stored answer and moves it to the front; a miss changes nothing and means the key is not held |
| DentryCache.Dcache.InvalidateEntry | kernel/fs/dcache.c:192-202 | exactly the answer for the key goes; names that do not fit a slot are never held |
| DentryCache.Dcache.InvalidateInode | kernel/fs/dcache.c:204-215 | exactly the answers about the inode, as directory or as child, go |
| DentryLink.InvalidateEntryLinks | kernel/fs/dcache.c:192-202 | what it drops is exactly what the directory operations need dropped |
| DentryLink.InsertLinks | kernel/fs/dcache.c:130-159 | after an insertion the cache holds the new answer and only answers it held before |
| BlockCache.Cache.Find | kernel/drivers/block_cache.c:69-76 | finds the entry of a sector exactly when it is cached |
| SectorTable.LinkKeeps | kernel/drivers/block_cache.c:78-82 | linking a free entry keeps every hash chain |
| SectorTable.UnlinkKeeps | kernel/drivers/block_cache.c:84-96 | unlinking an entry keeps every hash chain |
| BlockCache.Cache.Unlink | kernel/drivers/block_cache.c:84-96 | the pointer walk removes exactly that entry |
| BlockCache.Cache.TakeVictim | kernel/drivers/block_cache.c:113-123 | always finds a free entry or, among the clean entries, the one used longest ago |
| SectorTable.CleanExists | kernel/drivers/block_cache.c:111-123 | fewer dirty entries than entries leaves a clean one |
| CacheInvariant.OlderIsEarlier | kernel/drivers/block_cache.c:119-119 | the wrapping comparison of ages is right while they span less than half the counter |
| BlockCache.Cache.CollectDirty | kernel/drivers/block_cache.c:127-139 | lists exactly the dirty entries, ascending by sector number |
| CacheInvariant.DeviceWriteStep | kernel/drivers/block_cache.c:146-164 | a write to the device, whole, torn or failed, loses no accepted contents |
| BlockCache.Cache.WriteBack | kernel/drivers/block_cache.c:146-164 | sorted runs bring all dirty sectors to the device; on success nothing is dirty, on failure nothing is lost; fails only if the device does or a sector past its end was written |
| BlockCache.Cache.ReadCached | kernel/drivers/block_cache.c:166-184 | returns the flat disk's contents and changes none; stops only where the device fails or ends |
| BlockCache.Cache.WriteCached | kernel/drivers/block_cache.c:186-209 | the sectors before a failure, and only those, are on the flat disk; fails only if writing back does |
| BlockCache.Cache.Sync | kernel/drivers/block_cache.c:211-217 | success means everything accepted so far is on the durable layer, whatever failed before; fails only if the device does or a sector past its end was written |
| CacheInvariant.AllDurable | kernel/drivers/block_cache.c:211-217 | with nothing dirty and the device flushed the durable layer is the flat disk |
| BlockCache.Cache.Invalidate | kernel/drivers/block_cache.c:219-223 | on success the cache is empty and everything accepted is durable |
| BlockCache.Cache.Tick | kernel/drivers/block_cache.c:225-231 | while no tick fails, whatever could still be lost is younger than one flush interval after every tick |
| BlockCache.Session | kernel/drivers/block_cache.c:69-231 | for any sequence of calls and failures the cache is the flat disk that received the accepted writes, durable after a successful sync, and every read returns what that disk held at its moment |
| WaitQueues.Queue.Unlink | kernel/core/waitq.c:16-30 | a waiter leaves from anywhere in the queue and the others keep their order |
| WaitQueues.Queue.Add | kernel/core/waitq.c:65-81 | goes to the tail; an entry still linked, here or on another queue, is moved |
| WaitQueues.Queue.WakeHead | kernel/core/waitq.c:33-42 | exactly the oldest waiter leaves, woken, still pointing at its queue |
| WaitQueues.Queue.WakeAll | kernel/core/waitq.c:114-122 | everybody leaves, woken |
| WaitQueues.Remove | kernel/core/waitq.c:83-91 | the entry is idle again and off its queue |
| WaitLink.WakeOneEntry | kernel/core/waitq.c:106-112 | waking the head of the linked queue is the wake-up of the pipe machine on process numbers |
| WaitLink.WakeAllEntries | kernel/core/waitq.c:114-122 | the same for waking everybody |
| WaitLink.AddEntry | kernel/core/waitq.c:65-81 | the same for a process that starts to wait |
| WaitLink.UnlinkEntry | kernel/core/waitq.c:16-30 | the same for a process that gives up while it is queued |
| WaitQueues.Cancel | kernel/core/waitq.c:93-104 | a woken exclusive waiter that gives up passes its wake to the next one |
| PipeRing.Ring.Take | kernel/core/pipe.c:121-132 | the byte loop takes the oldest bytes |
| PipeRing.Ring.Put | kernel/core/pipe.c:145-156 | the byte loop appends as much as fits |
| PipeRing.TransfersAgree | kernel/core/pipe.c:121-167 | what the loops move is what the machine's transfers move, and what they answer when nothing moves |
| PipeRuns.TransferKeeps | kernel/core/pipe.c:121-167 | after a transfer every queue that could move has a woken waiter, even not counting the one that ran |
| PipeRuns.PassOnKeeps | kernel/core/pipe.c:134-143 | the wakes after a transfer serve both directions |
| PipeHandles.CloseEndKeeps | kernel/core/pipe.c:169-187 | closing one of several references, the last of a kind or the last of all keeps queues, counts and wakes |
| PipeHandles.CreateKeeps | kernel/core/pipe.c:48-87 | creating a pipe, also when no handle slot is left, keeps the counts exact |
| PipeStreams.StepFlows | kernel/core/pipe.c:121-187 | a step of any kind on a pipe that stays in use: what it held and what came in is what went out and what it holds |
| PipeStreams.PipeIsAStream | kernel/core/pipe.c:48-187 | in every run and over one life of a pipe the bytes written are the bytes read followed by those in the buffer, so reads are a prefix of writes |
| PipeHandles.NoWakeUpIsLost | kernel/core/pipe.c:121-187 | in every run a pipe with data and queued readers, or room and queued writers, has a woken waiter that has not resumed |
| PipeHandles.NobodyWaitsForTheDead | kernel/core/pipe.c:169-187 | in every run nobody is queued for data once the last writer is gone, or for room once the last reader is |
| PipeReplies.ReadersAreTold | kernel/core/pipe.c:121-143 | in every run a read of at least one byte blocks exactly when the pipe is empty and some handle names its writing end; it is an end of file exactly when it is empty and none does, and then every byte written in this life was read; otherwise it returns the oldest bytes, as many as asked for or all |
| PipeReplies.WritersAreTold | kernel/core/pipe.c:145-167 | in every run a write of at least one byte fails exactly when no handle names the reading end, else blocks exactly when the buffer is full, else takes what fits |
| PipeHandles.ResumeServesIff | kernel/core/pipe.c:121-167 | a resumed process leaves its queue served exactly when it gives up, asks for at least one byte, finds nothing it could move, is not the only one woken, or leaves nobody waiting |
| PipeHandles.EmptyWriteSwallowsAWake | kernel/core/pipe.c:145-167 | a woken writer with nothing to write would swallow its wake |
| PipeHandles.EmptyReadSwallowsAWake | kernel/core/pipe.c:121-143 | a woken reader that wants nothing would queue again behind the others and swallow its wake |
| PipeRuns.ResumeKeeps | kernel/core/process.c:896-971 | a woken process that finishes, waits again or gives up loses no wake |
| PipeRuns.CallKeeps | kernel/core/process.c:1638-1692 | a read or write that blocks or completes loses no wake |
| PipeRuns.CancelKeeps | kernel/core/process.c:2158-2182 | an interrupted waiter leaves its queue or passes its wake on |
| PipeHandles.ReleaseKeeps | kernel/core/process.c:559-588 | releasing a handle keeps the counts exact |
| PipeHandles.CloneKeeps | kernel/core/process.c:590-638 | cloning a handle keeps the counts exact |
| PipeHandles.InheritKeeps | kernel/core/process.c:1283-1335 | inheriting any choice of handles keeps the counts exact |
| PipeHandles.CopyKeeps | kernel/core/process.c:1337-1619 | binding and duplicating release the old slot, then clone |
| PipeReplies.CreateSlots | kernel/core/process.c:1481-1508 | with a pipe and two slots free the lowest ones are taken, the reading end first, and the pipe is empty |
| PipeReplies.CreateFails | kernel/core/process.c:1481-1508 | otherwise no slot changes and no pipe comes into use |
| PipeReplies.CopySlots | kernel/core/process.c:1337-1619 | the target slot names what the source slot names and no other slot changes; it is left free exactly when the count of that end stands at its largest |
| PipeReplies.InheritSlots | kernel/core/process.c:1283-1335 | a spawned process holds the chosen handles of its parent in the same slots and no other |
| PipeReplies.ReleaseButSlots | kernel/core/process.c:1258-1267 | exactly the slots not kept become free, in this process only |
| PipeHandles.ExitKeeps | kernel/core/process.c:1221-1247 | an exiting process leaves every queue and holds no handle |
| PipeHandles.StepKeeps | kernel/core/process.c:251-279 | every step keeps queues, counts and wakes in flight |
| PipeHandles.CountsAreExact | kernel/core/process.c:559-1619 | in every run a pipe's counts are the numbers of handle slots naming its ends, and an unused pipe is named by no handle and waited on by nobody |
| Scheduler.PickNext | kernel/core/process.c:2201-2224 | picks nothing only if nothing can run; otherwise a top-priority process, the first after the previous one, which itself comes last |
| Scheduler.PickAdvances | kernel/core/process.c:2201-2224 | a pick goes to the next top process in ring order and wraps at the end |
| Scheduler.TurnsAreFair | kernel/core/process.c:2201-2224 | while the same k processes stay on top, any k consecutive picks are all different |
| Scheduler.TurnsComeBack | kernel/core/process.c:2201-2224 | and k picks later it is the same process's turn again |
| AddressSpace.Space.RangeIsFree | kernel/mm/vmm_user.c:59-66 | true exactly when no region meets the range |
| AddressSpace.Space.FindFree | kernel/mm/vmm_user.c:68-83 | the lowest address where the length fits, none exactly when it fits nowhere |
| AddressSpace.CheckMeans | kernel/mm/vmm_user.c:48-57 | what prot_check lets through, value by value: writing and executing together needs the flag and is the one request answered with EACCES |
| AddressSpace.Space.Choose | kernel/mm/vmm_user.c:125-169 | the range goes to the hint if it fits there and to the lowest fit otherwise; EINVAL, EACCES and ENOMEM are each answered exactly under their own condition |
| AddressSpace.Space.Insert | kernel/mm/vmm_user.c:177-198 | exactly the chosen range is added and the list stays canonical |
| UserMemory.Populate | kernel/mm/vmm_user.c:105-123 | every page of the range shows a granted frame with the given rights, or no page of any kind has changed, whichever page failed; no page table or directory is left empty; it succeeds if every page has a frame and tables and no table on the way is foreign |
| UserMemory.Memory.Map | kernel/mm/vmm_user.c:125-199 | the list and the page tables stay one map: the chosen range gets pages, all or none, user unless prot is 0, writable exactly with the write bit and no-execute exactly without the execute bit; every errno exactly under its own condition; a failed call leaves every page as it was |
| UserMemory.Memory.Unmap | kernel/mm/vmm_user.c:201-259 | exactly the pages of the range leave both the list and the tables; every errno exactly under its own condition; the frames released are those no longer held, each once |
| UserMemory.Memory.Protect | kernel/mm/vmm_user.c:298-358 | exactly the range changes in the list and in the tables, on the same frames, to the rights its protection bits say; every errno exactly under its own condition |
| UserMemory.Memory.Release | kernel/mm/vmm_user.c:360-373 | no region and no page of the window is left |
| UserMemory.Session | kernel/mm/vmm_user.c:37-373 | after any history of calls on a new process every page of the window has the rights the last call that reached it asked for; and if no call passed ALLOW_WX, no page can be both written and executed |
| UserMemory.ClearPages | kernel/mm/vmm_user.c:226-238 | unmapping the part of each region inside the range leaves no page in the range |
| RegionSteps.MappedKeeps | kernel/mm/vmm_user.c:156-196 | adding a free range keeps the list canonical and maps exactly that range |
| RegionSteps.CutAt | kernel/mm/vmm_user.c:201-259 | taking a range out unmaps exactly its addresses |
| RegionSteps.CutCanonical | kernel/mm/vmm_user.c:201-259 | and leaves a canonical list |
| AddressSpace.Space.Unmap | kernel/mm/vmm_user.c:201-259 | exactly the range leaves the map; ENOMEM exactly when a region has to be split and no descriptor is left, changing nothing |
| AddressSpace.Space.SplitAt | kernel/mm/vmm_user.c:263-277 | splits the region across the point, using a descriptor exactly when there is one |
| AddressSpace.Space.MergeAround | kernel/mm/vmm_user.c:279-296 | joins the halves that meet in the range; the list is canonical and the map unchanged |
| AddressSpace.Space.CheckCover | kernel/mm/vmm_user.c:315-331 | finds whether every page is mapped and exactly how many splits are needed |
| AddressSpace.Space.Protect | kernel/mm/vmm_user.c:298-358 | exactly the range changes its protection with exactly the splits counted; every errno exactly under its own condition, changing nothing |
| Regions.CanonicalUnique | kernel/mm/vmm_user.c:12-24 | a map has exactly one canonical list |
| Paging.UserTables.MapPage | kernel/mm/paging64.c:356-414 | adds one page exactly when the address is a user address, the place is free, no table on the way is foreign and each missing table gets a frame; otherwise the map is unchanged; which pages are out of reach does not change |
| Paging.UserTables.ProtectRange | kernel/mm/paging64.c:416-451 | exactly the owned pages of the range change rights on the same frames, despite the skips; nothing changes from the user top on |
| Paging.UserTables.UnmapRange | kernel/mm/paging64.c:453-501 | exactly the pages of the range leave the map, the frames released are exactly those no longer held, each once if every frame was used once, entries that are not user tables stay, and no page table or directory of the range is left empty |
| Paging.PruneFacts | kernel/mm/paging64.c:495-499 | an empty page directory can go without changing the map |
| Paging.FreePdpt | kernel/mm/paging64.c:49-94 | releases the owned pages and the tables of one sub-tree once each |
| Paging.Destroy | kernel/mm/paging64.c:211-224 | releases exactly the frames of the user pages in the flat map and the user tables, without repetition when every frame is in one place |
| PageSweep.SweptDone | kernel/mm/paging64.c:453-501 | skips, chunks and prunes add up: no table is empty that was not before, and none on the way to a page of the range |
| PageSweep.WaySwept | kernel/mm/paging64.c:392-414 | tables made for a page that could not be added go with the sweep that undoes it |
| PageCounts.OwnedIffMapped | kernel/mm/paging64.c:49-94 | a frame is released as a page exactly when the flat map owns it below the user top |
| PageCounts.OwnedCount | kernel/mm/paging64.c:228-257 | the leaves counted are as many as the pages the flat map owns below the user top |
| PageCounts.HeldCovers | kernel/mm/paging64.c:49-94 | pages and tables released are parts of what the tree holds |
| Paging.PagesApart | kernel/mm/paging64.c:43-47 | where every frame is in one place no two user pages show the same frame |
| Paging.CountPages | kernel/mm/paging64.c:228-257 | the number of user pages the flat map owns, which destroying would release |
| PathResolve.Resolve | kernel/fs/vfs.c:421-478 | the loop ends for every arrangement of links and computes the recursive resolution, whose meaning PathMeaning gives |
| PathResolve.Popped | kernel/fs/vfs.c:396-400 | shortens a rendered path by one component; the root stays |
| PathResolve.PushIs | kernel/fs/vfs.c:402-410 | appends one component |
| PathResolve.RunSettles | kernel/fs/vfs.c:421-478 | a result has no empty, "." or ".." component and no symbolic link, except possibly an unfollowed last one |
| PathResolve.LexicalWithoutLinks | kernel/fs/vfs.c:421-478 | when no component met on this path is a link, resolving is lexical normalisation, whatever links there are elsewhere |
| PathResolve.ResolutionIsIdempotent | kernel/fs/vfs.c:421-478 | resolving a result again gives the same result |
| PathMeaning.RunMeans | kernel/fs/vfs.c:421-478 | every result is where the path leads by a meaning that never edits the text: component by component, where a link stands for all of its target |
| PathMeaning.RunExact | kernel/fs/vfs.c:421-478 | and where the path leads within the budget and the texts fit, that is the result |
| PathMeaning.ResolutionMeans | kernel/fs/vfs.c:421-478 | resolving a path answers with the place it leads to |
| PathMeaning.PathsCompose | kernel/fs/vfs.c:421-478 | where a path followed by another leads is where the second leads from where the first does |
| PathMeaning.LinkStandsForItsTarget | kernel/fs/vfs.c:464-476 | a link leads where its target leads, from the directory that holds the link if it is relative and from the root if it is absolute |

## Left out

- TCP: round-trip arithmetic is a value in its clamp range, the PSH flag, checksums, parsing, ports,
  the loopback queue, the backlog and the order of the accept queue are not modelled; a failed send
  looks like a lost segment.
- TCP: the connection block is a record value, so aliasing between blocks of the static table and
  update in place are not captured; a listener's child takes the listener's place.
- TcpRuns.EveryRunKeeps: assumes one incarnation of the connection and deliveries that are resets or
  not older than half the sequence space (`TcpSystem.Fresh`), because older text is indistinguishable from new text
  (`TcpEdge.StaleTextIsTaken`); the invariant of one block needs no such assumption.
- TcpHeed.TextStaysInTheWindow: gives the edge of the peer only while the window counts from snd_una, because the
  code counts an old window from a newer snd_una (`TcpHeed.OlderNumberOverruns`).
- TcpProgress.RetransmissionDelivers: states one round; that rounds repeat until every queued byte is
  acknowledged, and what happens behind a closed window, is not stated.
- ext2: device I/O errors, timestamps, ownership, extended attributes, fast symlinks and the
  byte-level copies between sectors.
- Ext2Files.Release: empties a file by trimming it to nothing, where inode_release_blocks and
  free_indirect have loops of their own.
- Ext2Volume.Volume.MapBelow: descends by a tail call where the source has a loop over path levels.
- ext2 directories: record layout inside directory blocks (an entry is a name in a map), path
  resolution to the parent directory (calls start from it, with an empty name for a path without one), and inode allocation (a number that is
  not in use).
- Directories.FileTree.WriteFile: symbolic links and regular files are one kind of inode here, so whether an existing
  one is regular is an argument; the contents are the subject of the ext2 file modules.
- DirRename.CarryOut: drops the names from the cache before it updates the inodes.
- Dentry cache: the counters; dcache_invalidate_fs, which is the same loop with another test (mounting
  starts with an empty pool instead).
- Block cache: sector size and byte copies; a sector is a value.
- Pipes: poll waiters, sockets and child waits; handle flags are a free choice of slots.
- PipeRuns.CallKeeps: requests for zero bytes are excluded, because the system calls never make one;
  `PipeHandles.ResumeServesIff` says what they would do.
- Regions: the list is a sequence, so the links between descriptors and their allocation are not
  captured; what the allocators had is passed to the call.
- UserMemory.Memory.Unmap: changes the list first and then the tables, where the source alternates
  between them region by region.
- UserMemory.Populate: names a supply that suffices, not the smallest one; it bounds the frames held after a failure by those granted; page tables and
  directories made on the way go, but nothing is said of an empty first-level table.
- Page tables: a tree of values, so physical addresses of tables matter only as frames to release;
  TLB flushes; 2 MiB and 1 GiB kernel pages are opaque entries.
- Path resolution: buffers are strings, so the overlapping move inside the work buffer is not
  captured; readlink is a function of the path.
- Everything else in the repository: drivers, console, signals, system call dispatch, procfs, heap,
  frame allocator, sockets, UDP, ICMP and ARP.
