# memcr in Dafny

memcr freezes a process, copies its private memory into a dump file, gives the pages back to the kernel, and later puts
everything back. This project models the parts of memcr where that can go wrong and proves what the design promises of them.

* **The memory protocol.** memcr and the parasite (a thread injected into the target) are two processes joined by connections
  that deliver in order and with any delay. `Parasite` is the service loop inside the target, `Protocol` is memcr's side and
  the interleaving of both, one step at a time; bulk data moves byte by byte. `ProtocolInvariant`, `ProtocolSteps`,
  `ProtocolReplies` and `ProtocolRuns` keep one invariant through every step; `ProtocolScript`, `ProtocolJobs` and
  `ProtocolTheorems` compute what the whole stream of requests does to the target; `ProtocolGuarantees` and
  `ProtocolProgress` draw the conclusions. `Coalescing`, `FileDrops` and `Streams` are the page scan that feeds the protocol,
  and `WholeRun` joins scan and protocol. `Wire` is the requests as bytes with the loops that read them in the parasite, and
  `WireScript` shows that all that memcr ever sends parses back to what it meant.
* **The dump.** `Cbc` and `LibEncrypt` are the encrypting transport, `DumpCodec` the record format over every combination of
  transport and compression, `Checksum` the dump file with its counters and digests, `Truncation` what a file cut short does.
* **The service.** `CommandQueue` and `ServiceTable` are the ring and the slot table as the classes they are; `ServiceSystem`
  interleaves the accept thread, the command thread and the SIGCHLD handler over them. `ServiceInvariant`, `ServiceAborts` and
  `ServiceRequests` keep the invariants, `ServiceGuarantees` states what holds in every run, and `ServiceFindings` shows where
  the code departs from its design, with the exact condition.
* **The injection.** `Injection` is the retry loop that executes one system call inside the target, with saving and restoring of
  context and signal mask, `InjectionUndone` is what it leaves behind, `Interactive` is a whole interactive session, and
  `Sessions` shows sessions that come to each kind of end.

`Bytes`, `Arithmetic` and `TargetMemory` hold what these share.

Block ciphers, compressors, digests, ptrace and the kernel are abstract: a cipher has an inverse, a compressor an inverse and a
size bound, a digest is collision-free where that is said, and a system call has the effect that the model states.

Results that say the code does *not* do what one would expect, each with the exact condition under which it does:

* A failed read of the local pagemap does not advance the file position, so every later answer belongs to an earlier page. Under
  `--rss-file` a private page can then be dropped: `FileDrops.FileDropsHarmlessIff`, and `WholeRun.UnsettledLoses` for a whole
  run that ends with the byte lost.
* Without a checksum a truncated dump can restore without an error: cut between records, on the plain file also inside a record
  header, and on the encrypted file inside a payload whose bytes before the cut look like padding, which completes the record with
  stale bytes: `Truncation.TruncationMissedIff`, `Truncation.PaddingByteSlips`.
* A length in the dump file is bounded only by what was dumped in all, not by the buffer it is read into:
  `DumpCodec.BufferFitsIff`. lib__read can store up to a block more than it was asked for: `Cbc.StoredWithinIff`, and
  `Cbc.StoresMore` for an input.
* The accept thread can free a slot whose checkpoint is under way: `ServiceFindings.UnderwayFreedIff`, `UnderwayFreed`.
* `try_to_abort_checkpoint` can keep the table's lock for good: `ServiceFindings.LockLostIff`, `LockLostForever`, `LockLost`.
* An abort mark survives the reuse of its slot: `ServiceGuarantees.AbortsExact`, `ServiceFindings.AbortedUnasked`.
* A signal stop between the system call and the trap of the blocking blob loses the signal mask:
  `Interactive.MaskComesBackIff`, `Sessions.MaskLost`. The same for the mmap blob leaves an area mapped that is never unmapped:
  `Interactive.NothingLeftIff`, `Sessions.AreaLeft`. The same for the clone blob leaves a second parasite behind:
  `Interactive.AloneIff`, `Sessions.ParasiteLeft`. `Sessions.LostAndLeft` is one session with all three.
* memcr ends in a failed assertion, leaving the target as it is, on a death of the target that it does not expect or on a
  parasite that was stopped: `Interactive.CrashesIff`, `Sessions.SigkillCrashes`, `Sessions.StoppedParasiteCrashes`.

## Model

| member | source | states |
|---|---|---|
| `WholeRun.RoundTrip` | memcr.c:1881-1996 | For every memory, list of mappings, pagemap (unevictable pages, read failures, an abort between mappings), page access mode, dump format and schedule of the two sides, a released target has every protection it had and, if failed pagemap reads of file mappings are settled, every byte |
| `WholeRun.UnsettledLoses` | memcr.c:1564-1653 | For every file mapping and every pattern of failed pagemap reads that is not settled there is a target and a complete run that releases it with a byte lost |
| `WholeRun.SetupIsValidJob` | memcr.c:1668-1728 | What the scan asks for over all mappings is a valid job: requests apart, and what is dumped inside scanned mappings and storable |
| `ProtocolGuarantees.ReleasedIntactIff` | memcr.c:1934-1996 | For every valid job and schedule a released target has its protections, and its memory if and only if all that was dropped without a dump was clean |
| `ProtocolGuarantees.ExitIsBarrier` | memcr.c:1985-1995 | When the parasite has exited normally, its effects are exactly the mprotects with their protections, the drops, the bytes written back with their values, and the mprotects that were sent, all applied and in that order |
| `ProtocolGuarantees.ReleasedHasExited` | memcr.c:2355-2361 | After every schedule a released target's parasite has exited normally |
| `ProtocolGuarantees.DropsBeforeWrites` | parasite.c:141-206 | In every reachable state no page was dropped after a page had been written back |
| `ProtocolGuarantees.NeverFaults` | memcr.c:1730-1792 | In every reachable state the parasite has never read an unreadable page nor stored to an unwritable one |
| `ProtocolGuarantees.ReachableInv` | parasite.c:215-300 | The invariant of connections, agenda, replies, dump file and untouched memory holds after every schedule |
| `ProtocolTheorems.MemoryComesBackIff` | memcr.c:1450-1506 | Dropping all requested regions and storing the dumped records gives the original memory if and only if what was only freed was clean |
| `ProtocolTheorems.ProtComesBack` | memcr.c:1730-1792 | Making mappings accessible and then giving them their scanned protection restores every protection |
| `ProtocolTheorems.AfterCheckpoint` | memcr.c:1881-1932 | The whole checkpoint stream leaves the target listening, accessible, with exactly the requested regions dropped |
| `ProtocolTheorems.AfterRestore` | memcr.c:1934-1996 | Checkpoint stream plus restore stream leaves the parasite exited, the dumped regions stored back and the protections as at the start |
| `ProtocolRuns.StepKeeps` | memcr.c:793-812 | Every step of memcr, of the parasite, of failure and of death keeps the invariant |
| `ProtocolRuns.EnterReads` | memcr.c:1794-1851 | A finished checkpoint has left a file that reads back as exactly its records |
| `ProtocolProgress.TurnsAlwaysAgree` | memcr.c:803-812 | After every schedule memcr awaits exactly the bytes in flight, being sent, or still asked for; when it awaits none, none is on its way |
| `ProtocolProgress.NeverDeadlocks` | parasite.c:88-206 | After every schedule and for every buffer size one side can act: never both reading an empty stream, never both writing a full one |
| `ProtocolProgress.EveryStepWorks` | memcr.c:1474-1487 | Every step that changes anything uses up a finite amount of work, so no schedule goes on for ever |
| `ProtocolProgress.NoScheduleStuck` | memcr.c:2349-2361 | Every schedule without failures can be continued until the target is released |
| `WireScript.BytesAgree` | memcr.c:1434-1506 | For every checkpoint all that is ever sent is five connections, and the bytes of each parse back to the very requests, whatever the padding bytes and whatever the parasite's variables held before |
| `WireScript.ParsedBack` | parasite.c:123-238 | Every connection of a command and well-formed requests, serialised, parses back to its items |
| `WireScript.Carry` | parasite.c:88-238 | Under every schedule of short reads the parasite's loops consume exactly the items that were meant, and die only on a failed read |
| `WireScript.ScriptJoined` | memcr.c:1881-1996 | The stream of the protocol is those connections with their beginnings and ends |
| `Wire.ReadBytes` | parasite.c:88-105 | Whatever the short reads, the loop returns the next bytes of the stream up to the size or the end |
| `Wire.WriteBytes` | parasite.c:107-121 | Whatever the short writes, all of the data is sent in order unless a write fails |
| `Wire.ServeProtect` | parasite.c:123-139 | The loop makes the same requests of a stream under every schedule, a structure cut short at the end keeping its old bytes |
| `Wire.ServeGet` | parasite.c:141-190 | The same for region and pagemap requests |
| `Wire.ServeSet` | parasite.c:192-206 | The same for regions each followed by as many bytes as it has |
| `Wire.HandleConnection` | parasite.c:215-238 | The command byte selects the loop; the parasite dies exactly on a missing or unknown command when no read fails |
| `Wire.RequestBack` | memcr.h:62-86 | The 28 bytes of a request give back its region and flag, or its pagemap length, whatever the padding |
| `Wire.ProtectBack` | memcr.h:56-60 | The 24 bytes of a protection request give back region and protection |
| `Coalescing.GetVmaPages` | memcr.c:1525-1666 | The page loop with its running region computes the requests of the page-by-page definition |
| `Coalescing.CoalescingSafe` | memcr.c:1590-1625 | For arbitrary pagemap answers all regions are nonempty, page aligned, inside the mapping, ascending and disjoint, and dumped ones no longer than the limit |
| `Coalescing.CoalescingExact` | memcr.c:1564-1625 | Without skipped pages a page is in some region if and only if it is present or swapped (a file page, for file mappings under rss-file) |
| `FileDrops.FileDropsHarmlessIff` | memcr.c:1564-1588 | Dropping file pages changes no byte, for all pagemaps and memories, if and only if no failed read precedes a read that starts a region which is later flushed |
| `FileDrops.UnsettledHarms` | memcr.c:1627-1653 | For every such pattern of failures there is a pagemap, a file and a mapping written to in one byte that lose that byte |
| `Streams.ReadFull` | memcr.c:725-762 | Whatever the short reads, the loop returns a prefix of the stream in order, and the full count exactly when that many bytes were delivered |
| `Streams.WriteFull` | memcr.c:764-791 | Whatever the short writes, what was sent is a prefix of the data, and all of it exactly on success |
| `Streams.AnswerPagemap` | parasite.c:151-178 | The reply sent in pieces is exactly the requested part of the pagemap |
| `Streams.RemoteAnswers` | memcr.c:1541-1583 | The answers from the reassembled reply equal those of reading the pagemap directly, for every schedule of short transfers, so both ways ask for the same regions |
| `Cbc.DecryptEncrypt` | libencrypt.c:136-154 | CBC decryption inverts CBC encryption on any number of blocks |
| `Cbc.EncryptAppend` | libencrypt.c:182-201 | Encrypting in chunks, each chained after the last, equals encrypting at once |
| `Cbc.DecryptAppend` | libencrypt.c:117-143 | Decrypting in chunks equals decrypting at once |
| `Cbc.UnpadPad` | libencrypt.c:148-154 | Removing the padding gives back the message |
| `Cbc.ReadFrameRoundTrip` | libencrypt.c:91-157 | A read of the written count returns the written bytes and consumes exactly the written frame |
| `Cbc.CutFrame` | libencrypt.c:117-156 | A read of a frame cut anywhere: end of file, error, or, at a block boundary, the bytes before the cut exactly when they end in valid padding |
| `Cbc.StoredWithinIff` | libencrypt.c:142-156 | On every file a read stores less than a block more than asked for, and no more than asked for if and only if the padding byte is at least what the write put there |
| `Cbc.StoresMore` | libencrypt.c:142-156 | A frame of 31 bytes read with a count of 16 is stored as a whole |
| `Cbc.ReadAllWriteAll` | libencrypt.c:91-216 | Any sequence of positive-length writes is read back call by call by reads with the same counts, leaving exactly what followed |
| `LibEncrypt.LibWrite` | libencrypt.c:159-216 | The chunked loop over cipher updates writes exactly the one-shot frame of the buffer |
| `LibEncrypt.LibRead` | libencrypt.c:91-157 | For every file content the chunked loop ends, and returns what one-shot decryption of the frame gives, its end of file and its padding errors included, storing less than the frame size, and no more than asked for when it fails |
| `LibEncrypt.ReadLoop` | libencrypt.c:117-143 | The loop ends although an update may yield no bytes, having read the frame or all that is left of the file |
| `LibEncrypt.EncryptCtx.Update` | libencrypt.c:190-194 | What an encryption context has put out and holds back is the encryption of all it was fed |
| `LibEncrypt.EncryptCtx.Final` | libencrypt.c:203-207 | With the final call the output is the encryption of the padded input |
| `LibEncrypt.DecryptCtx.Update` | libencrypt.c:136-140 | What a decryption context has put out is the decryption of all it was fed but the held-back block |
| `LibEncrypt.DecryptCtx.Final` | libencrypt.c:148-152 | The final call gives the rest of the unpadded decryption, or fails exactly when the padding is wrong |
| `DumpCodec.DumpReadWrite` | memcr.c:845-867 | One read of the written count returns the written bytes over both transports |
| `DumpCodec.PackReadWrite` | compress.c:59-226 | A payload reads back for every compression, its length prefix included |
| `DumpCodec.HeaderRoundTrip` | memcr.c:1073-1083 | The 16 header bytes give back address and length |
| `DumpCodec.ReadRegionWrite` | memcr.c:1069-1139 | A written record reads back, consuming exactly its bytes and its share of the budget |
| `DumpCodec.ReadDumpWrite` | memcr.c:1821-1845 | Any list of storable records reads back equal and in order, ends at end of file, and leaves dumped_vm_size zero |
| `DumpCodec.ReadRegion` | memcr.c:1069-1106 | On arbitrary bytes an accepted record is aligned, nonempty, fully read, within the budget, and consumes input |
| `DumpCodec.ReadDump` | memcr.c:1821-1845 | On arbitrary bytes the loop ends and the accepted lengths plus the budget left never exceed the total dumped |
| `DumpCodec.BufferFitsIff` | memcr.c:1083-1093 | For every file content the buffer of the restore loop holds what is read into it if and only if less than one page more than the limit was dumped in all |
| `Checksum.ChecksumSound` | memcr.c:1953-1982 | With a collision-free digest, for every content of the dump file, equal digests mean exactly the dumped records were applied, in order |
| `Checksum.DigestedInjective` | memcr.c:1099-1104 | The stream of headers and payloads that is digested decodes uniquely |
| `Checksum.DumpFile.WriteVmRegion` | memcr.c:1108-1139 | Appends the record to file, size and digest |
| `Checksum.DumpFile.WriteRecords` | memcr.c:1668-1728 | Writing a list of records leaves the dump of that list, the sum of their lengths and the digest of them all |
| `Checksum.DumpFile.ReadVmRegion` | memcr.c:1069-1106 | Reads one record of any file, with its error cases, and keeps size and digest in step |
| `Checksum.DumpFile.TargetSetPages` | memcr.c:1821-1845 | The restore loop applies exactly the records the file decodes to and digests them all |
| `Checksum.DumpFile.CmdRestore` | memcr.c:1934-1983 | With checksum and a collision-free digest it returns 0 only if what was applied is what was dumped; a faithful file is accepted |
| `Checksum.DumpFile.CheckpointRestore` | memcr.c:1881-1983 | A checkpoint and a restore: the untouched file restores exactly the records and uses up the size; with a checksum and a collision-free digest no other content restores anything else with return value 0 |
| `Truncation.TruncationMissedIff` | memcr.c:1069-1097 | For every transport and compression, without checksum a dump cut at n restores without error if and only if the cut is between records, on the plain file inside a header, or on the encrypted file at a block of a payload after valid padding; and what is then applied |
| `Truncation.CutPayload` | compress.c:92-226 | A payload cut anywhere is an error for every transport and compression, except exactly at those blocks of an encrypted one, with the bytes it then yields |
| `Truncation.PaddingByteSlips` | libencrypt.c:145-156 | An encrypted page with a byte of 1 before the cut is restored from its first 15 bytes and stale ones, without an error |
| `CommandQueue.Queue.PushBack` | memcr.c:271-292 | The ring appends to a FIFO, or refuses exactly when it holds eight |
| `CommandQueue.Queue.WaitAndPopFront` | memcr.c:294-314 | Through any sequence of wakeups (pushes, stops, failures of the wait) the loop waits exactly while it must, then gives up the oldest request, or none with the right code |
| `CommandQueue.Queue.Interrupt` | memcr.c:316-322 | Stopping leaves the queue as it is |
| `ServiceTable.ServiceData.InitPidCheckpointData` | memcr.c:869-884 | Takes the first free slot without touching its abort mark, or does nothing when the table is full |
| `ServiceTable.ServiceData.SetPidCheckpointing` | memcr.c:916-933 | The first RESTORED slot of the pid gets the socket, and the abort is sent exactly when it was marked |
| `ServiceTable.ServiceData.SetPidCheckpointed` | memcr.c:935-950 | The first CHECKPOINTING slot of the pid gets the worker and gives up its socket |
| `ServiceTable.ServiceData.ClearPidCheckpointData` | memcr.c:952-964 | Frees every slot of the pid and no other |
| `ServiceTable.ServiceData.ClearPidOnWorkerExit` | memcr.c:966-979 | Frees every slot of the worker and no other |
| `ServiceTable.ServiceData.GetPidWorker` | memcr.c:981-993 | The worker of the first slot of the pid, or none |
| `ServiceTable.ServiceData.TryToAbortCheckpoint` | memcr.c:2647-2672 | Marks, sends or ignores by the slot's status; the lock is given back if and only if the pid was found |
| `ServiceTable.ServiceData.PidInUse` | memcr.c:995-1021 | True exactly when some slot has the pid |
| `ServiceGuarantees.TableInvariant` | memcr.c:869-1021 | In every run a pid has at most one slot, with a worker iff CHECKPOINTED and an abort socket iff CHECKPOINTING |
| `ServiceGuarantees.LifeCycle` | memcr.c:916-979 | In every run a slot moves only RESTORED, CHECKPOINTING, CHECKPOINTED or to free, and is freed only by the thread with a request for it or by the exit of its worker |
| `ServiceGuarantees.RestoresReachOkWorkers` | memcr.c:2802-2830 | In every run a restore is forwarded only to a worker that was forked for that pid and answered its checkpoint with OK |
| `ServiceGuarantees.AbortNeverLost` | memcr.c:2647-2671 | In every run, if a restore finds its checkpoint queued or running and the registration survives, that worker's command socket is sent a RESTORE, or the mark that will send it is set |
| `ServiceGuarantees.AbortsExact` | memcr.c:916-930 | In every run a registration is aborted if and only if a restore was accepted for it or its slot still carried an old mark |
| `ServiceGuarantees.HandledInOrder` | memcr.c:2769-2842 | In every run requests are handled in the order of acceptance, and at most eight wait |
| `ServiceGuarantees.OneResponse` | memcr.c:2674-2901 | In every run no client is answered twice, and one whose request was handled was answered exactly once if socketpair and fork work |
| `ServiceGuarantees.StepKeeps` | memcr.c:2392-2404 | Every step of the two threads and of the SIGCHLD handler keeps the whole invariant |
| `ServiceAborts.AbortKept` | memcr.c:2652-2668 | Every step keeps mark and command socket in agreement with what was asked of each registration |
| `ServiceRequests.AccountsKept` | memcr.c:2843-2901 | Every step keeps each connection in exactly one place: accepting, queued, handled, answered or dropped |
| `ServiceFindings.UnderwayFreedIff` | memcr.c:2860-2869 | Besides the command thread only the accept thread frees a slot whose checkpoint is under way, exactly when it rolls back a registration of that pid on a full queue; the checkpoint is then another request's |
| `ServiceFindings.UnderwayFreed` | memcr.c:2829-2869 | A reachable state in which that happens |
| `ServiceFindings.LockLostIff` | memcr.c:2647-2672 | The lock is lost if and only if the slot is gone when the abort looks for it |
| `ServiceFindings.LockLostForever` | memcr.c:2669-2672 | From then on the table changes only by SIGCHLD, in every continuation |
| `ServiceFindings.LockLost` | memcr.c:2811-2884 | A reachable state in which the lock is lost |
| `ServiceFindings.AbortedUnasked` | memcr.c:873-877 | A reachable state in which a checkpoint was aborted that no restore was accepted for |
| `Injection.Tracee.Poke` | memcr.c:2037-2054 | Word by word, exactly the given bytes are stored |
| `Injection.Tracee.Peek` | memcr.c:2018-2035 | Word by word, exactly the bytes of the range are fetched |
| `Injection.Tracee.DeliverSignals` | memcr.c:2102-2122 | Each signal meets the saved registers, until the job control trap or the death of the target, reported or by SIGKILL |
| `Injection.Tracee.ExecuteBlob` | memcr.c:2056-2148 | The retry loop, for every sequence of stops and for SIGKILL in any pass: effects of stopped passes, of the last system call, and its result, or the death that the next assertion finds |
| `Injection.Tracee.SignalsBlock` | memcr.c:2212-2232 | All signals blocked through the stack word, the word found there afterwards saved |
| `Injection.Tracee.SignalsUnblock` | memcr.c:2234-2256 | The saved mask set through the stack word, failing exactly when the target died |
| `Injection.Tracee.CtxSave` | memcr.c:2258-2291 | The start of the page being executed and the 128 bytes below the top of the stack are saved |
| `Injection.Tracee.CtxRestore` | memcr.c:2293-2303 | Saved code and stack are stored back |
| `InjectionUndone.BlobAround` | memcr.c:2063-2146 | For every sequence of stops a blob changes only the saved code, the stack zone and the parasite's area |
| `InjectionUndone.BlobIsRun` | memcr.c:2063-2074 | For every sequence of stops the pass that reaches the trap executes the injected code |
| `InjectionUndone.MaskIsSet` | memcr.c:2124-2128 | The mask blob sets the mask it was given whatever stops came, because the stack word is put back, and leaves the mask its last pass found |
| `InjectionUndone.BlobMeets` | memcr.c:2076-2141 | The target survives a blob, dies reported with -1, or dies where memcr asserts a stopped target, exactly as the first lethal event of the schedule says |
| `InjectionUndone.BlobThreads` | memcr.c:2328-2332 | Only the clone blob starts threads: one for its last run and one for every late stop that got one |
| `InjectionUndone.LateStopLosesMask` | memcr.c:2097-2100 | One stop between call and trap of the blocking blob saves the wrong mask |
| `InjectionUndone.LateStopLeavesArea` | memcr.c:2097-2100 | One stop between call and trap of the mmap blob leaves an area mapped after the munmap |
| `InjectionUndone.RestoreAround` | memcr.c:2293-2303 | Restoring the context gives back all memory but stack below the saved words |
| `Interactive.LoadParasite` | memcr.c:2305-2333 | Save, block, mmap, copy and clone, with the failure paths of each and the assertions that fail in them |
| `Interactive.UnloadParasite` | memcr.c:2362-2379 | Unmap, unblock and restore: the target is let go, killed, or an assertion fails, as the composed definition says |
| `Interactive.UserInteractiveMode` | memcr.c:2985-3037 | The session ends in the outcome of the composed definition, the report on the parasite included |
| `Interactive.IntactOrKilled` | memcr.c:2305-3037 | In every session a target that is let go has registers, protections, code and memory as at seizure, dead stack under handler frames apart, the mask that signals_block last found, and besides exactly the areas and threads that late stops of the mmap and clone blobs made |
| `Interactive.NothingLeftIff` | memcr.c:2313-2322 | Exactly the addresses of the seizure are mapped if and only if no late stop of the mmap blob got an address |
| `Interactive.AloneIff` | memcr.c:2328-2332 | The target has the threads of the seizure if and only if no late stop of the clone blob started one |
| `Interactive.MaskComesBackIff` | memcr.c:2212-2256 | With handlers that leave the mask alone, the mask comes back if and only if no stop of the blocking blob was late or everything was blocked already |
| `Interactive.CrashesIff` | memcr.c:2056-2361 | An assertion of memcr fails if and only if the target dies in the first two blobs, is hit by SIGKILL in the clone, munmap or unblocking blob that is run, clone answers zero, or the parasite was reported stopped during the restore and memcr comes to its status |
| `Sessions.SmoothLetsGo` | memcr.c:2985-3037 | Every session in which nothing kills the target, the calls succeed and the parasite exits has a schedule that lets the target go |
| `Sessions.MaskLost` | memcr.c:2212-2256 | With a late stop of the blocking blob some schedule lets the target go with its mask changed |
| `Sessions.AreaLeft` | memcr.c:2313-2322 | With a late stop of the mmap blob some schedule lets the target go with an area it did not have |
| `Sessions.ParasiteLeft` | memcr.c:2328-2332 | With a late stop of the clone blob some schedule lets the target go with a second parasite in it |
| `Sessions.LostAndLeft` | memcr.c:2097-2100 | One concrete session that ends with all three |
| `Sessions.SigkillCrashes` | memcr.c:2076-2079 | SIGKILL while the clone blob runs makes an assertion fail in every schedule |
| `Sessions.StoppedParasiteCrashes` | memcr.c:2355-2361 | A parasite reported stopped during a restore makes an assertion fail although the restore succeeded |

## Left out

- Real ptrace, wait4, fork, mmap, madvise and socket calls: steps with stated effects.
- The internals of LZ4, ZSTD, AES and MD5: functions with the laws named above.
- /proc parsing, RSS statistics, timing, logging, command line, client tool and library: they read text or pass requests on and hold no state of the protocol; the list of mappings is an input.
- Socket paths, network namespaces, gids and permissions: plumbing.
- Seizing and releasing of threads (memcr.c:487-645): the target is taken as frozen.
- Timeouts: they depend on the clock; a failure may happen at any step instead. Of the watch thread only its report is modelled.
- Assembly stubs and register layouts: a blob is one system call and a trap, words are eight bytes.
- Request structures in `Protocol` arrive whole; that their bytes do, under every schedule of short reads, is `WireScript.BytesAgree` and `WireScript.Carry`, for pages of at least eight bytes. Connections of the protocol succeed.
- `Protocol` reads the dump when the restore begins rather than record by record; the file is then the one the checkpoint wrote. Other contents are the subject of `Checksum`.
- What an overrun of the restore buffer or of the caller's buffer of lib__read would overwrite: `DumpCodec.BufferFitsIff` and `Cbc.StoredWithinIff` say when there is none; what a buffer held before a short payload is an arbitrary function.
- A digest that fails to initialise (length zero), and an encryption library that is loaded but switched off.
- Short reads of the dump file inside lib__read: file reads are full.
- Memory dropped without a dump: a page that the pagemap calls a file page is taken to equal the file.
- A pagemap entry in flight when the target changes: the target is frozen.
- Streams.ReadFull: transfers of zero bytes are left out, because no caller asks for them.
- ServiceGuarantees.OneResponse: responses are counted when they are sent; a write to a client that has gone, and the second close of a connection (memcr.c:2825 and 2837), are left out.
- ServiceGuarantees.LifeCycle: shutdown, which kills and clears every slot (memcr.c:886-902), is left out.
- ServiceSystem takes each locked section as one step, except the abort, in which the SIGCHLD handler may fall between finding the slot and looking at its status; process ids are positive.
- Interactive.IntactOrKilled: a handler frame that a retried blob has pushed aside is not run later; the model follows the code, which puts the registers of the seizure back.
- Interactive.AloneIff: the steps of a second parasite are left out. It binds the address of the first one, which kills the process when the address is in use and appears here as a death of parasite and target; and memcr may watch the wrong one, and then waits for ever.
- Interactive.CrashesIff: the waits of execute_blob are taken to report signal stops, the blob's trap, the interrupt trap or a death; assertions on allocation and on pids are left out.
