# Verification of faasm, faabric and the RFIT worker pool

A Dafny model of the parts of the repository that keep state across calls, hosts and threads, with proofs about every
input and every run. `dafny verify dfyconfig.toml` checks all of it.

What is modelled, file by file:

- `Bytes`, `Delta*`: the delta codec of faabric. `Delta` has the serializer and the interpreter as methods, each
  proved against a function; `DeltaFraming`, `DeltaEffects` and `DeltaRoundTrip` prove about these functions that the
  bytes mean the commands, that the commands turn the old data into the new, and the round trip. `DeltaFormat` names
  the bytes of a delta and what is refused. `DeltaSettings` is the text form of the settings, `DeltaSettingsMeaning`
  what a text means.
- `HostPages`, `StateChunks`, `StateReplica`, `StateKeyValue`, `StateProperties`: a state value replicated lazily, in
  chunks, with dirty and pulled masks. `StateKeyValue` is the class; `StateReplica` is one copy as a value.
- `MasterElection`: hosts that agree on a key's master through one Redis lock, as a protocol in steps, and the
  registry and store as classes.
- `Scheduler`, `ExecutorProtocol`, `FaabricExecutor`: the scheduler's ledgers, the placement of a batch, and any
  number of executors at work in any interleaving.
- `Rfit*`: requests, functions, workers and their lists in one resource, interleaved in any order. `RfitPool` has the
  steps, `RfitInvariants`, `RfitConservation` and `RfitSound` what each step keeps, `RfitProperties`, `RfitCapacity`
  and `RfitService` what follows of every run, `RfitExecution` that instances are run once and that no thread gets
  stuck but by sleeping, `RfitRuns` how runs are put together, `RfitStranded` and `RfitOverdrawn` two that go wrong,
  and `RfitClasses` the code of each critical section.
- `LinearMemory`, `MemoryRegions`, `MemoryGuards`, `WasmModule`: the break of a module's memory in 32-bit arithmetic,
  the regions handed out, the memory made read-only, thread stacks and dynamic modules with their guards. The page
  size is that of the WebAssembly Core Specification 1.0, section 4.2.8.
- `ReadDir`: a directory listing cut into buffers, as in `fd_readdir` of WASI snapshot preview1.
- `Wrappers`, `Numbers`, `Sums`: options and results, the smaller of two numbers, sums over sequences.

Where the code departs from what it is meant to do, the model keeps the code, and states exactly when it meets the
intent:

- The page test of the delta compares each page with the first page of the old data
  (faasm/faabric/src/util/delta.cpp:120-122). `RoundTrip` has the condition, `RoundTripCanFail` two buffers. Sizes are
  printed in 32 bits: `RoundTripExactly`.
- `set` leaves the dirty mask alone and `setChunk` marks nothing as pulled: `SetThenPartialPush`, `ReadYourWrites`,
  and inputs in `SetValueLost`, `WrittenChunkLost`.
- The offsets of the streaming chunks are kept in 32 bits: `StreamingPartition`, `StreamingCovers`.
- The message index is not advanced past a remote host's share (faasm/faabric/src/scheduler/Scheduler.cpp:369-372 and
  412-415): `PlacementAsWritten`, `PlacementRepeats`.
- An executor that stops, after a failed call or a timeout, counts as a faaslet until its exit is reported, and a wait
  can time out on a queue that has just been filled: `AlwaysStaffed`, `FailedExitStrands`, `TimedOutExitStrands`.
- A worker's look at its function's queue and its leave are two steps (src/RFIT/T/task.cpp:129-136), so a request can
  be stranded: `AlwaysServed`, `LeavingStrands`.
- A worker can hold more instances than its limit, so the asserted `restCap >= 0` (src/RFIT/F/function.cpp:72, 80) can
  fail when another leaves, with nobody stranded: `AssertionsHold`, `HoardingOverdraws`.
- `growMemory` adds in 32 bits: `GrowExact`, `AlwaysLaid`, `WrappingOverlaps`. `mmapMemory` rounds up in 32 bits:
  `MmapExact`. A restore can end above the snapshot's size: `RestoreExact`, `RestoreOvershoots`. A module whose data
  does not fit can pass `validate`: `LayoutValidates`, `OverfullValidates`.
- Guard regions stay read-only when the break falls below them and their memory is handed out again, and become
  writable when a snapshot is mapped over them: `AlwaysClear`, `ReuseMakesReadOnly`, `AlwaysHeld`,
  `RestoreUnprotects`.

Assumptions: a step of a protocol is one critical section, one Redis command or one RPC. Lock ids are unique, nobody
deletes the master key, and the lock outlives its critical section (`ExpiryInCriticalSectionSplits` shows why). Worker
and instance hashes are distinct, `restCap` starts at 0, which the source leaves to the allocator, and stealing is
off, as the project is built. The compressor is any pair of functions of which the second undoes the first. What the
host, the runtime or another host decides is a parameter: free cores, whether memory can be provisioned, whether a
bind or a call succeeds, the directory as the host lists it, the memory beyond the new data.

## Model

| member | source | states |
|---|---|---|
| Bytes.AppendU32 | faasm/faabric/include/faabric/util/bytes.h:24-30 | appends exactly the field's four bytes, higher bits cut off |
| Bytes.AppendU64 | faasm/faabric/include/faabric/util/bytes.h:24-30 | appends exactly the field's eight bytes |
| Bytes.ReadBytesOf | faasm/faabric/include/faabric/util/bytes.h:32-44 | gives the field and the offset past it exactly when it lies in the container; otherwise the range error |
| Bytes.U32FieldAt | faasm/faabric/include/faabric/util/bytes.h:24-44 | a 32-bit field appended anywhere is read back from where it lies |
| Bytes.U64FieldAt | faasm/faabric/include/faabric/util/bytes.h:24-44 | a 64-bit field appended anywhere is read back from where it lies |
| Bytes.XorBit | faasm/faabric/src/util/delta.cpp:89-93 | each bit of an exclusive or is set exactly if the two bits differ |
| Bytes.XorZero | faasm/faabric/src/util/delta.cpp:89-93 | it is zero exactly for equal bytes |
| Bytes.U32FieldByte | faasm/faabric/include/faabric/util/bytes.h:24-30 | the k-th byte of a 32-bit field is the number's k-th digit to base 256, the lowest first |
| Bytes.U64FieldByte | faasm/faabric/include/faabric/util/bytes.h:24-30 | the same of a 64-bit field |
| Delta.EncodeChangedRegion | faasm/faabric/src/util/delta.cpp:71-100 | appends the printed command of a region in both buffers, which `ChangedRegionMeaning` says in bits, and nothing for an empty one |
| Delta.EncodeNewRegion | faasm/faabric/src/util/delta.cpp:101-112 | appends the printed overwrite of a region only the new data has |
| Delta.EncodePage | faasm/faabric/src/util/delta.cpp:116-139 | appends what the page test, as written with its base at the start of the old data, selects of one page |
| Delta.EncodePages | faasm/faabric/src/util/delta.cpp:113-139 | appends the commands of all pages, in order |
| Delta.EncodeRegions | faasm/faabric/src/util/delta.cpp:113-148 | appends the commands of the paged or the unpaged comparison, for data that grew, shrank or kept its size |
| Delta.SerializeDelta | faasm/faabric/src/util/delta.cpp:60-186 | the whole delta, wrapped or not, or nothing where the compressor fails: `CompressedDelta`, and in bytes `SmallDelta` |
| Delta.DataBuffer.SetDataSize | faasm/faabric/src/util/delta.cpp:204-209 | the buffer is cut or extended with zeroes |
| Delta.ReadBlock | faasm/faabric/src/util/delta.cpp:235-242 | reads offset, length and bytes of a block, or the range error |
| Delta.ApplyBlock | faasm/faabric/src/util/delta.cpp:235-263 | one overwrite or XOR command applied in place, the cursor moved just past it, or the error with the buffer unchanged |
| Delta.ApplyEnvelope | faasm/faabric/src/util/delta.cpp:210-234 | one compressed block interpreted in place, with its three errors |
| Delta.ApplyDelta | faasm/faabric/src/util/delta.cpp:188-270 | the interpreter's loop leaves the buffer and ends as the interpretation function says |
| Delta.DecodeAt | faasm/faabric/src/util/delta.cpp:199-268 | whatever command is decoded, the cursor after it is past it and inside the delta |
| DeltaFormat.ChangedRegionMeaning | faasm/faabric/src/util/delta.cpp:71-100 | the command of a changed region carries the new bytes, or a mask whose bits are set exactly where the buffers differ, so zero for equal bytes |
| DeltaFormat.PageLeftOut | faasm/faabric/src/util/delta.cpp:116-139 | a page is left out exactly if it is in both buffers and repeats the old data's first bytes, or is after the old data and every byte tested is zero |
| DeltaFormat.BlockLayout | faasm/faabric/src/util/delta.cpp:82-100 | a block command byte by byte: tag, offset, length, bytes |
| DeltaFormat.EnvelopeLayout | faasm/faabric/src/util/delta.cpp:154-186 | a compressed block byte by byte: tag 1, compressed size, decompressed size, payload |
| DeltaFormat.SmallDelta | faasm/faabric/src/util/delta.cpp:60-153 | every byte of the delta of a one-byte and a two-byte buffer |
| DeltaFormat.CompressedDelta | faasm/faabric/src/util/delta.cpp:151-186 | a compressed delta is the plain one, compressed at the configured level and put into one block; nothing exactly if the compressor fails |
| DeltaFormat.HeaderChecked | faasm/faabric/src/util/delta.cpp:192-198 | a delta that is too short or of another version is refused, the data untouched |
| DeltaFormat.TruncatedAction | faasm/faabric/src/util/delta.cpp:204-242 | a delta that ends inside a command is refused there with the field's or the block's error, and the command has no effect |
| DeltaFormat.TailIgnored | faasm/faabric/src/util/delta.cpp:264-267 | what follows the end command is not looked at |
| DeltaFormat.UnknownPassedOver | faasm/faabric/src/util/delta.cpp:199-269 | bytes that are no command are passed over |
| DeltaFormat.PayloadChecked | faasm/faabric/src/util/delta.cpp:210-234 | a compressed block is refused exactly if it does not decompress, or not to the size it states; else it means its contents |
| DeltaFraming.DecodesAction | faasm/faabric/src/util/delta.cpp:200-263 | wherever a command was printed the interpreter reads that command and moves just past it |
| DeltaFraming.InterpretsActions | faasm/faabric/src/util/delta.cpp:199-269 | interpreting printed commands is running them, and leaves the cursor just past them |
| DeltaFraming.StreamInterpreted | faasm/faabric/src/util/delta.cpp:149-153 | interpreting a whole stream is running exactly the commands it was printed from |
| DeltaFraming.EnvelopeTransparent | faasm/faabric/src/util/delta.cpp:154-186 | interpreting the wrapped stream is interpreting the inner one, for any compressor with a left inverse |
| DeltaEffects.ChangedRegionEffect | faasm/faabric/src/util/delta.cpp:71-100 | running a region's commands puts the new bytes there, by overwrite or by XOR with the old ones, and changes nothing else |
| DeltaEffects.PageEffect | faasm/faabric/src/util/delta.cpp:113-139 | running one page's commands gives that page's new bytes or leaves the page as it was |
| DeltaEffects.PagesExact | faasm/faabric/src/util/delta.cpp:113-139 | running all pages' commands gives the new data exactly if no page was wrongly left out |
| DeltaEffects.GrownEffect | faasm/faabric/src/util/delta.cpp:140-147 | running the unpaged commands of data that kept its size or grew gives the new data |
| DeltaEffects.ShrunkEffect | faasm/faabric/src/util/delta.cpp:140-147 | the same for data that shrank |
| DeltaRoundTrip.AppliedDelta | faasm/faabric/src/util/delta.cpp:60-270 | what applying a serialized delta to the old data gives, in every setting, wrapped or not |
| DeltaRoundTrip.RoundTrip | faasm/faabric/src/util/delta.cpp:60-270 | as written: always unpaged, and paged exactly when no full page in both buffers equals the old data's first page while differing from its own old page |
| DeltaRoundTrip.RoundTripExactly | faasm/faabric/src/util/delta.cpp:60-270 | for data of any length: under the same condition, exactly if the new data is shorter than 2^32 bytes |
| DeltaRoundTrip.SizeStaysBelow | faasm/faabric/src/util/delta.cpp:199-269 | no delta whatever makes data longer than a 32-bit size |
| DeltaRoundTrip.RoundTripWithOwnPageTest | faasm/faabric/src/util/delta.cpp:116-127 | with each page compared with its own old bytes, always, in every setting |
| DeltaRoundTrip.RoundTripCanFail | faasm/faabric/src/util/delta.cpp:120-122 | two one-byte pages for which the code as written gives back the wrong data |
| DeltaSettings.Parse | faasm/faabric/src/util/delta.cpp:17-42 | the loop reads the definition's parts one by one, an unterminated last one included, and is an error exactly if one of them is none of the three kinds or has no number in range |
| DeltaSettings.ReadFails | faasm/faabric/src/util/delta.cpp:23-41 | whatever the settings before, reading parts is an error exactly if one of them cannot be read |
| DeltaSettingsMeaning.PartsCover | faasm/faabric/src/util/delta.cpp:23-27 | the parts of any text hold no semicolon and make up the text, the last one with or without a semicolon of its own |
| DeltaSettingsMeaning.PartsUnique | faasm/faabric/src/util/delta.cpp:23-27 | no other list of parts does |
| DeltaSettingsMeaning.LastSemicolonOptional | faasm/faabric/src/util/delta.cpp:23-27 | a text that does not end in a semicolon has the same parts as with one |
| DeltaSettingsMeaning.NumberOf | faasm/faabric/src/util/delta.cpp:28-35 | blanks, a sign, digits and whatever follows give the number of the digits with its sign |
| DeltaSettingsMeaning.NumberExactly | faasm/faabric/src/util/delta.cpp:28-35 | no other text gives a number |
| DeltaSettingsMeaning.DecimalCanonical | faasm/faabric/src/util/delta.cpp:44-58 | a number is printed with a minus sign exactly if it is negative, and without leading zeros |
| DeltaSettingsMeaning.InRange | faasm/faabric/src/util/delta.cpp:28-35 | a number is taken as it is in the range of its type; a negative page size wraps around |
| DeltaSettingsMeaning.ReadMeaning | faasm/faabric/src/util/delta.cpp:23-41 | each number is that of the last part that gives one, each switch is on if some part says so, and the rest stays as it was |
| DeltaSettingsMeaning.DefaultSetting | faasm/faabric/src/util/config.cpp:35-36 | the setting the program comes with: how it reads, and how it is printed |
| DeltaSettings.ToString | faasm/faabric/src/util/delta.cpp:44-58 | the text of the settings |
| DeltaSettings.SettingsRoundTrip | faasm/faabric/src/util/delta.cpp:15-58 | reading the text gives the settings, exactly if the page size and level have their defaults where unused |
| DeltaSettings.SameTextSameDelta | faasm/faabric/src/util/delta.cpp:15-186 | settings with the same text give the same delta of the same buffers |
| HostPages.GetPageAlignedChunk | faasm/faabric/src/util/memory.cpp:32-59 | offset, length and remainder of the aligned chunk add up to what was asked for |
| HostPages.AlignedChunkEnds | faasm/faabric/src/util/memory.cpp:32-59 | it begins at the page of the first byte and ends where the pages needed for the last one do |
| HostPages.AlignedChunkCovers | faasm/faabric/src/util/memory.cpp:11-59 | the aligned chunk is whole pages and covers the range |
| HostPages.AlignedChunkLeast | faasm/faabric/src/util/memory.cpp:32-59 | no smaller range of whole pages covers it |
| HostPages.PagesOfRange | faasm/faabric/src/util/memory.cpp:32-59 | every byte of a range is on a page allocated for it |
| StateChunks.GetDirtyChunks | faasm/faabric/src/state/StateKeyValue.cpp:595-632 | exactly the maximal runs of non-zero mask bytes, sorted, disjoint, non-adjacent and covering |
| StateChunks.DirtyRunsUnique | faasm/faabric/src/state/StateKeyValue.cpp:595-632 | there is only one such list |
| StateChunks.PushIsMaskedMerge | faasm/faabric/src/state/StateKeyValue.cpp:511-544 | storing the dirty chunks takes the masked bytes and no others |
| StateChunks.GetAllChunks | faasm/faabric/src/state/StateKeyValue.cpp:116-132 | the streaming chunks with count and offsets in 32 bits |
| StateChunks.StreamingPartition | faasm/faabric/src/state/StateKeyValue.cpp:116-132 | they split the value into contiguous pieces of at most 64 KiB exactly if it is at most 2^32 bytes |
| StateChunks.FullPullAnyOrder | faasm/faabric/src/state/StateClient.cpp:55-98 | a full pull takes the master's bytes as far as the chunks reach and no others, in whatever order the responses arrive |
| StateChunks.StreamingCovers | faasm/faabric/src/state/StateKeyValue.cpp:116-132 | for values of any size, the chunks reach exactly to the value's end, to 2^32 or to the end of their 32-bit count, whichever is least |
| StateChunks.CopyAllAt | faasm/faabric/src/state/StateClient.cpp:70-90 | copying chunks in any order and however often takes exactly the covered bytes |
| StateReplica.AllocateConsistent | faasm/faabric/src/state/StateKeyValue.cpp:330-360 | allocating keeps the allocation invariant and makes the range writable |
| StateReplica.AllocateExact | faasm/faabric/src/state/StateKeyValue.cpp:330-360 | exactly the pages that hold the range's bytes become writable, and the copy is fully allocated exactly if it was or the range is all of it |
| StateReplica.PullWholeBrings | faasm/faabric/src/state/StateKeyValue.cpp:442-468 | a pull that is not skipped brings the master's bytes as far as the chunks reach, and the value counts as pulled |
| StateReplica.PullChunkBrings | faasm/faabric/src/state/StateKeyValue.cpp:470-509 | the same of a chunk, the bytes beside it and their marks unchanged |
| StateReplica.PullWholeConsistent | faasm/faabric/src/state/StateKeyValue.cpp:442-468 | after a pull, and so in get, only writable pages are touched |
| StateReplica.PullChunkConsistent | faasm/faabric/src/state/StateKeyValue.cpp:470-509 | the same of a chunk |
| StateReplica.PushedPartialConsistent | faasm/faabric/src/state/StateKeyValue.cpp:511-544 | a partial push keeps the invariant in the copy and in its master |
| StateReplica.EveryReachableConsistent | faasm/faabric/src/state/StateKeyValue.cpp:330-544 | in every reachable state, mappings and full pushes included, fully pulled implies fully allocated, that implies every page writable, and every pulled byte is on a writable page |
| StateKeyValueClass.StateKeyValue.constructor | faasm/faabric/src/state/StateKeyValue.cpp:17-60 | a copy with nothing allocated, pulled or dirty |
| StateKeyValueClass.StateKeyValue.AllocateChunk | faasm/faabric/src/state/StateKeyValue.cpp:330-360 | the pages of the range become writable; all of them mark the whole as allocated |
| StateKeyValueClass.StateKeyValue.MarkDirtyChunk | faasm/faabric/src/state/StateKeyValue.cpp:236-240 | exactly the chunk's mask bytes are set and the copy is dirty |
| StateKeyValueClass.StateKeyValue.FlagDirty | faasm/faabric/src/state/StateKeyValue.cpp:216-220 | the copy is dirty, its mask unchanged |
| StateKeyValueClass.StateKeyValue.FlagChunkDirty | faasm/faabric/src/state/StateKeyValue.cpp:228-234 | as marking the chunk, or the missing-size error |
| StateKeyValueClass.StateKeyValue.Set | faasm/faabric/src/state/StateKeyValue.cpp:134-156 | the whole value is stored, allocated and pulled, and the mask is not touched |
| StateKeyValueClass.StateKeyValue.SetChunk | faasm/faabric/src/state/StateKeyValue.cpp:179-214 | the chunk is stored and marked dirty but not pulled; with the missing-size and bounds errors |
| StateKeyValueClass.StateKeyValue.IsChunkPulled | faasm/faabric/src/state/StateKeyValue.cpp:67-84 | true exactly if every byte of the chunk counts as pulled |
| StateKeyValueClass.StateKeyValue.PullChunks | faasm/faabric/src/state/StateClient.cpp:55-98 | the chunks are copied from the master, which first brings in what it is asked for |
| StateKeyValueClass.StateKeyValue.PullFromRemote | faasm/faabric/src/state/InMemoryStateKeyValue.cpp:102-110 | nothing on the master; elsewhere the streaming chunks are pulled |
| StateKeyValueClass.StateKeyValue.PullChunkFromRemote | faasm/faabric/src/state/InMemoryStateKeyValue.cpp:112-121 | the same of one chunk |
| StateKeyValueClass.StateKeyValue.DoPull | faasm/faabric/src/state/StateKeyValue.cpp:442-468 | unless this is the master or the pull is lazy and the value pulled, the copy then holds the master's bytes; it counts as pulled, its pages are writable, and the master's bytes are unchanged |
| StateKeyValueClass.StateKeyValue.DoPullChunk | faasm/faabric/src/state/StateKeyValue.cpp:470-509 | the same of one chunk, with its bounds error |
| StateKeyValueClass.StateKeyValue.Get | faasm/faabric/src/state/StateKeyValue.cpp:86-99 | the value read, up to 2^32 bytes, is the master's unless this is the master or the copy counted as pulled, and then its own; the copy counts as pulled |
| StateKeyValueClass.StateKeyValue.GetChunk | faasm/faabric/src/state/StateKeyValue.cpp:101-114 | the same of a chunk of any value |
| StateKeyValueClass.StateKeyValue.Pull | faasm/faabric/src/state/StateKeyValue.cpp:61-65 | the copy then holds the master's bytes, whether it counted as pulled or not |
| StateKeyValueClass.StateKeyValue.PushChunks | faasm/faabric/src/state/StateClient.cpp:32-53 | each chunk is stored by the master in turn; the copy is unchanged |
| StateKeyValueClass.StateKeyValue.PushChunksStep | faasm/faabric/src/state/StateServer.cpp:83-100 | the master stores one chunk as it arrives |
| StateKeyValueClass.StateKeyValue.PushPartial | faasm/faabric/src/state/StateKeyValue.cpp:410-416 | a dirty copy's push leaves copy and master as a partial push must; a clean one or a master does nothing |
| StateProperties.SetReadsBack | faasm/faabric/src/state/StateKeyValue.cpp:67-156 | a value that was set is what lazy reads of it and of its chunks give from then on, whatever the master holds |
| StateProperties.PartialPushMerges | faasm/faabric/src/state/StateKeyValue.cpp:511-544 | the push merges the masked bytes into the master, leaves its other bytes, and when fully allocated leaves copy and master equal as far as the chunks reach |
| StateProperties.SetChunkDelivered | faasm/faabric/src/state/StateKeyValue.cpp:179-214 | a chunk that was set is what the master holds there after the next partial push, next to what was dirty before |
| StateProperties.FlaggedDelivered | faasm/faabric/src/state/StateKeyValue.cpp:216-240 | so are the bytes of a chunk only flagged as dirty; the flag alone sends what the mask marks |
| StateProperties.PushedOnce | faasm/faabric/src/state/StateKeyValue.cpp:511-544 | what was pushed is not sent again: a second push does nothing, and one after the flag was set sends no byte |
| StateProperties.SetThenPartialPush | faasm/faabric/src/state/StateKeyValue.cpp:134-156 | a value set is not dirty: it survives the next partial push exactly if the master held it already wherever the mask was not set and the chunks reach |
| StateProperties.NoLostUpdates | faasm/faabric/src/state/StateServer.cpp:83-100 | for any number of copies with disjoint masks and every interleaving of their chunk writes the master ends with each byte of the copy that dirtied it, the others unchanged |
| StateProperties.ServedPushes | faasm/faabric/src/state/StateServer.cpp:83-100 | what a master serves leaves its bytes as the pushes alone do, whatever requests for chunks come in between |
| StateProperties.NoLostUpdatesServed | faasm/faabric/src/state/StateServer.cpp:37-100 | so no update is lost at a master that serves pushes and pulls in any order |
| StateProperties.PushOrderIrrelevant | faasm/faabric/src/state/StateKeyValue.cpp:511-544 | so the order of the pushes does not matter |
| StateProperties.SettledCopyIsArray | faasm/faabric/src/state/StateKeyValue.cpp:67-214 | a copy fully pulled, or the master, answers any sequence of set, setChunk, get and getChunk as one plain array |
| StateProperties.ReadYourWrites | faasm/faabric/src/state/StateKeyValue.cpp:179-214 | a chunk written is what a later lazy read gives exactly on the master or where it counts as pulled already |
| StateProperties.WrittenChunkLost | faasm/faabric/src/state/StateKeyValue.cpp:179-214 | a byte written to a fresh copy that the next lazy read gives as the master's |
| StateProperties.SetValueLost | faasm/faabric/src/state/StateKeyValue.cpp:134-156 | a value set on a fresh copy of which a partial push sends nothing and brings back the master's |
| MasterElection.Store.SetNxEx | faasm/faabric/src/redis/Redis.cpp:571-592 | sets the lock exactly if nobody holds it |
| MasterElection.Store.DelIfEq | faasm/faabric/src/redis/Redis.cpp:553-569 | deletes the lock exactly if it holds the given id |
| MasterElection.Store.AcquireLock | faasm/faabric/src/redis/Redis.cpp:537-551 | the new id if the lock was free, else zero and no change |
| MasterElection.Registry.WaitOnRemoteLock | faasm/faabric/src/state/StateKeyValue.cpp:546-573 | the retry loop ends; it has the lock exactly if it was free or ran out before a retry; the attempts are steps of the protocol |
| MasterElection.Registry.GetMasterIP | faasm/faabric/src/state/InMemoryStateRegistry.cpp:29-100 | what the call answers and what it leaves in the store and in the map, with both errors; and the steps of the protocol it takes |
| MasterElection.Registry.GetMasterIPForOtherMaster | faasm/faabric/src/state/InMemoryStateRegistry.cpp:102-121 | finds a master that is another host, or one of two errors; it never claims |
| MasterElection.StepKeepsInvariant | faasm/faabric/src/state/InMemoryStateRegistry.cpp:38-99 | every step of every host keeps: one holder of the lock, and every answer on its way equals the master key |
| MasterElection.MasterIsStable | faasm/faabric/src/state/InMemoryStateRegistry.cpp:69-88 | over every run of any number of hosts the master key, once set, never changes |
| MasterElection.CachedMasterAgrees | faasm/faabric/src/state/InMemoryStateRegistry.cpp:90-99 | every cached master equals the master key, then and ever after |
| MasterElection.AtMostOneMaster | faasm/faabric/src/state/InMemoryStateRegistry.cpp:29-100 | at most one host ever takes itself for the master |
| MasterElection.ExpiryInCriticalSectionSplits | faasm/faabric/src/redis/Redis.cpp:571-592 | if the lock may expire under its holder, two hosts both become master |
| MasterElection.LeadsRun | faasm/faabric/src/state/InMemoryStateRegistry.cpp:29-100 | steps such as a call takes make a run of the protocol longer, so what holds of every run holds of the call |
| MasterElection.ClaimIsProtocolRun | faasm/faabric/src/state/InMemoryStateRegistry.cpp:69-99 | from any run an unclaimed key claimed alone leads to a run in which the host is master |
| Scheduling.Scheduler.IncrementInFlightCount | faasm/faabric/src/scheduler/Scheduler.cpp:578-586 | the function's count and the total go up by one |
| Scheduling.Scheduler.AddFaaslets | faasm/faabric/src/scheduler/Scheduler.cpp:588-620 | one faaslet more and one bind queued exactly if there are fewer faaslets than calls in flight |
| Scheduling.Scheduler.NotifyCallFinished | faasm/faabric/src/scheduler/Scheduler.cpp:147-157 | both counts go down by one, not below zero |
| Scheduling.Scheduler.NotifyFaasletFinished | faasm/faabric/src/scheduler/Scheduler.cpp:159-194 | the faaslet count and the total go down by one, not below zero |
| Scheduling.Scheduler.ScheduleFunctionsOnHost | faasm/faabric/src/scheduler/Scheduler.cpp:489-540 | the next messages, as many as the host has room for, are sent in one stretch, and it is the host recorded for exactly these |
| Scheduling.ShareMost | faasm/faabric/src/scheduler/Scheduler.cpp:498-509 | no larger stretch would fit both the free cores and what remains |
| Scheduling.Scheduler.DistributeRemainder | faasm/faabric/src/scheduler/Scheduler.cpp:355-430 | the loop over hosts sends what the distribution says and registers exactly the hosts given work |
| Scheduling.Scheduler.CallFunctions | faasm/faabric/src/scheduler/Scheduler.cpp:211-472 | dispatches, ledgers and registrations; each message's record is the host of the last dispatch of it, and which that is where `PlacementAsWritten` holds; what stays here joins the end of the queue in order |
| Scheduling.PlacementAsWritten | faasm/faabric/src/scheduler/Scheduler.cpp:330-452 | each message of a batch is dispatched exactly once exactly if all fit locally, no other host has room, or the first that has takes all that is left |
| Scheduling.RecordedLast | faasm/faabric/src/scheduler/Scheduler.cpp:355-452 | whatever is dispatched, a message's record is the host of the last dispatch that covers it, this one exactly for a local dispatch to it |
| Scheduling.RecordedOnce | faasm/faabric/src/scheduler/Scheduler.cpp:355-452 | in a batch dispatched exactly once each message is recorded on the host it was dispatched to |
| Scheduling.PlacedHosts | faasm/faabric/src/scheduler/Scheduler.cpp:330-452 | the records of such a batch: this host as far as its free cores go, then the first host with room, or this one if there is none |
| Scheduling.HostsExact | faasm/faabric/src/scheduler/Scheduler.cpp:376-430 | a host is registered for a batch exactly if something of it was sent there |
| Scheduling.LocalsQueued | faasm/faabric/src/scheduler/Scheduler.cpp:330-345 | messages kept here join the end of their function's queue in the order of the batch, no other queue changes, and binds asked for earlier stay first |
| Scheduling.PlacementQueued | faasm/faabric/src/scheduler/Scheduler.cpp:330-452 | what a batch leaves in the queue: its first messages in order, and the rest too exactly if the hosts leave any |
| Scheduling.PlacementRepeats | faasm/faabric/src/scheduler/Scheduler.cpp:366-376 | two messages and two hosts with one core each: the first message is sent twice, the second never |
| Scheduling.AdvancingPlacement | faasm/faabric/src/scheduler/Scheduler.cpp:369-372 | with the index moved past each share, for every batch |
| Scheduling.SharesFit | faasm/faabric/src/scheduler/Scheduler.cpp:489-540 | no host is sent more than the free cores it reported |
| Scheduling.OneShareEach | faasm/faabric/src/scheduler/Scheduler.cpp:355-430 | and each is sent at most one stretch |
| ExecutorProtocol.StepKeepsLedgers | faasm/faabric/src/scheduler/Scheduler.cpp:147-194 | every step of scheduler or executor keeps all four ledgers exact |
| ExecutorProtocol.LedgersAlwaysExact | faasm/faabric/src/scheduler/Scheduler.cpp:578-620 | in every interleaving: in flight is queued plus executing, faaslets is pending binds plus live bound executors, and the totals are the sums |
| ExecutorProtocol.StepStaffing | faasm/faabric/src/executor/FaabricExecutor.cpp:104-134 | a step leaves every queued call an executor exactly if it is not one of three: a call that gets no faaslet, a bind that fails, a wait that times out, each with nobody spare |
| ExecutorProtocol.AlwaysStaffed | faasm/faabric/src/executor/FaabricExecutor.cpp:104-202 | so does a run, exactly if it has none of them |
| ExecutorProtocol.StaffedServes | faasm/faabric/src/scheduler/Scheduler.cpp:588-620 | then there is a faaslet for every call in flight, and a queue has an executor waiting or a bind pending |
| ExecutorProtocol.OneFaasletPerCall | faasm/faabric/src/scheduler/Scheduler.cpp:578-620 | which holds of every run whose binds succeed, whose waits time out on empty queues, and in which no call comes while an executor is on its way out |
| ExecutorProtocol.FailedExitStrands | faasm/faabric/src/executor/FaabricExecutor.cpp:60-69 | a run in which a call that comes between a failed call and the notice of the exit is left with no executor and no bind |
| ExecutorProtocol.TimedOutExitStrands | faasm/faabric/src/executor/FaabricExecutor.cpp:126-133 | the same after a wait that timed out on an empty queue |
| FaabricExecutorClass.FaabricExecutor.BindToFunction | faasm/faabric/src/executor/FaabricExecutor.cpp:28-53 | binding again is an error and changes nothing, unless forced and to the same function; a bind that fails has bound already |
| FaabricExecutorClass.FaabricExecutor.ProcessNextMessage | faasm/faabric/src/executor/FaabricExecutor.cpp:136-171 | one turn takes its steps in the protocol; it times out exactly if its queue is empty, and fails exactly if the bind or call does; the message served is the first of the queue |
| FaabricExecutorClass.FaabricExecutor.ExecuteCall | faasm/faabric/src/executor/FaabricExecutor.cpp:175-202 | a call that ends either way is reported finished |
| FaabricExecutorClass.FaabricExecutor.Finish | faasm/faabric/src/executor/FaabricExecutor.cpp:60-69 | only a bound executor reports its exit |
| FaabricExecutorClass.FaabricExecutor.Run | faasm/faabric/src/executor/FaabricExecutor.cpp:104-134 | the loop ends, is steps of the protocol ending in the executor's exit, keeps exact ledgers exact, and serves its queue first in, first out, all of it without failures |
| RfitInvariants.StepBalanced | src/RFIT/F/function.cpp:65-82 | in every step the capacity follows the limit times the workforce, and the requests |
| RfitProperties.CapacityLedger | src/RFIT/I/instance.cpp:33-41 | at every moment of every run restCap is the limit times the workers granted or attached, less the requests admitted and not completed |
| RfitProperties.CapacityWithoutWorkers | src/RFIT/T/task.cpp:108-113 | with no workers the capacity is negative exactly if more was admitted than completed |
| RfitCapacity.StepCapacity | src/RFIT/F/function.cpp:65-82 | a step keeps a capacity at or above zero exactly if no worker leaves a function with less capacity left than the worker brought |
| RfitCapacity.AlwaysNonNegative | src/RFIT/T/task.cpp:108-113 | so does a run, exactly if it has no such step |
| RfitCapacity.AssertionsHold | src/RFIT/F/function.cpp:65-82 | the assertions on restCap all hold in a run exactly if no step of it overdraws any function |
| RfitOverdrawn.HoardingOverdraws | src/RFIT/T/task.cpp:118-142 | a run in which every request is served at every moment and the capacity ends at -1 |
| RfitConservation.FetchConserves | src/RFIT/T/task.cpp:118-142 | a fetch moves each instance from queue or map to the map, the queue or the worker's hands, once |
| RfitConservation.FetchExact | src/RFIT/T/task.cpp:118-142 | a fetch finds nothing exactly if map and queue are empty; it pulls, from the front, half the limit or all there is, exactly if at most half the limit is left; and what it leaves in the map |
| RfitConservation.StepConserves | src/RFIT/T/task.cpp:55-99 | every step keeps each instance in exactly one place |
| RfitProperties.ExactlyOnce | src/RFIT/T/task.cpp:190-254 | at every moment of every run each instance is in exactly one place, and no two workers have it |
| RfitProperties.ReleasedAtMostOnce | src/RFIT/T/task.cpp:223-236 | it is completed and released at most once, and released only once completed |
| RfitExecution.RunsAccounted | src/RFIT/T/task.cpp:215-254 | at every moment of every run an instance was run as often as it was completed, and once more exactly if a worker has run it and not yet completed it |
| RfitExecution.RunOnce | src/RFIT/T/task.cpp:215-254 | an instance is run at most once, and completed only after it was run |
| RfitExecution.NeverStuck | src/RFIT/T/task.cpp:190-254 | a worker can go on exactly if it does not sleep or was woken |
| RfitExecution.RequestGoesOn | src/RFIT/T/task.cpp:258-283 | the thread that makes a request can always take its next step until it has found or woken a worker, whatever the others do |
| RfitProperties.LocalBound | src/RFIT/T/task.cpp:118-142 | a local map holds at most twice half the limit, and only instances of the function worked for |
| RfitSound.StepSound | src/RFIT/T/task.cpp:190-270 | every step keeps the pool sound: what workers carry, lists, wakers, semaphores, queues |
| RfitProperties.ParkWake | src/RFIT/T/task.cpp:213-220 | no worker is idle and busy, nor idle twice; its semaphore is 0 or 1, and 1 only asleep after a waker took it; each stay consumes one post |
| RfitProperties.OneWaker | src/RFIT/T/task.cpp:258-270 | no two requesters are waking the same worker |
| RfitProperties.IdleInOrder | src/RFIT/R/resource.cpp:62-75 | idle workers are taken in the order in which they parked |
| RfitProperties.ChecksAlwaysPass | src/RFIT/R/resource.cpp:62-91 | the assertions on a worker's status, on the busy map, on the kind of a function and on a fetched instance never fail |
| RfitProperties.NeverNull | src/RFIT/T/task.cpp:190-236 | the pointers a worker follows are never null |
| RfitService.StepServes | src/RFIT/T/task.cpp:118-142 | a step leaves every request served exactly if it is not the last worker leaving while the queue is not empty and nobody is being admitted |
| RfitService.AlwaysServed | src/RFIT/T/task.cpp:129-136 | so does a run, exactly if it has no such step |
| RfitService.StrandedInQueue | src/RFIT/T/task.cpp:129-136 | an uncompleted instance whose function has no workers sits in the function's queue |
| RfitStranded.LeavingStrands | src/RFIT/T/task.cpp:129-136 | a run that strands a request |
| RfitClasses.Function.TryScaleDownCap | src/RFIT/F/function.cpp:65-74 | takes the capacity exactly if there is enough |
| RfitClasses.Function.ScaleCap | src/RFIT/F/function.cpp:76-82 | adds to the capacity and gives the new count, or nothing where the assertion fails |
| RfitClasses.Function.TryGetMultiI | include/RFIT/F/function.h:39-51 | the loop takes the first instances of the queue, as many as asked for or there are |
| RfitClasses.Function.Admit | src/RFIT/I/instance.cpp:33-41 | the queue, the capacity and whether a worker is needed, for both kinds of function |
| RfitClasses.AdmitSteps | src/RFIT/I/instance.cpp:33-41 | admission is what a request's first steps in the protocol come to |
| RfitClasses.Task.TakeIFromILocalMap | src/RFIT/T/task.cpp:82-92 | one instance leaves the map, none if it is empty; and how many are left |
| RfitClasses.Task.AddMultiI | src/RFIT/T/task.cpp:94-99 | the loop adds each instance under its hash |
| RfitClasses.AddedValues | src/RFIT/T/task.cpp:94-99 | with hashes that differ nothing is lost |
| RfitClasses.Task.TryGetIFromF2T | src/RFIT/T/task.cpp:55-64 | moves instances from the function's queue to the map |
| RfitClasses.Task.GetI | src/RFIT/T/task.cpp:118-142 | is the protocol's fetch; with nothing found the worker's capacity is given back |
| RfitClasses.Task.GetInstance | src/RFIT/T/task.cpp:190-213 | runs the instance handed over, takes one, or parks |
| RfitClasses.Resource.GetTFromIdle | src/RFIT/R/resource.cpp:62-68 | the first idle worker, if any, off the queue |
| RfitClasses.Resource.PutT2Idle | src/RFIT/R/resource.cpp:70-75 | the worker is last in the idle queue |
| RfitClasses.Resource.RemoveTFromBusy | src/RFIT/R/resource.cpp:77-84 | the worker is off the busy map and works for nothing |
| RfitClasses.Resource.PutT2Busy | src/RFIT/R/resource.cpp:86-91 | the worker is in the busy map |
| RfitClasses.Resource.GetTForI | src/RFIT/T/task.cpp:258-283 | an idle worker to be woken, or a new one; either way busy for the function and, if it is not concurrent, with the instance in hand |
| LinearMemory.RoundUpExact | faasm/src/wasm/WasmModule.cpp:54-67 | rounding up gives the next whole pages up to 2^32 less a page, and zero above |
| LinearMemory.ExtendExact | faasm/src/wavm/WAVMWasmModule.cpp:1054-1130 | growth beyond what is provisioned succeeds exactly below 2^32 and within the maximum, ends at that size, and otherwise changes nothing |
| LinearMemory.GrowExact | faasm/src/wavm/WAVMWasmModule.cpp:1018-1052 | what growing comes to; where the 32-bit sum wraps, the break falls |
| LinearMemory.ShrinkExact | faasm/src/wavm/WAVMWasmModule.cpp:1132-1157 | shrinks exactly by whole pages of at most the break, and then gives the old break |
| LinearMemory.GrowThenShrink | faasm/src/wavm/memory.cpp:169-186 | growing and then shrinking by as much restores the break exactly if the growth did not wrap and stayed in provisioned memory or began at its top; the shrink gives the end of what was handed out |
| LinearMemory.UnmapExact | faasm/src/wavm/WAVMWasmModule.cpp:1159-1193 | gives memory back exactly if the range, rounded up, ends at the break, which falls to its beginning; and exactly which ranges are an error |
| LinearMemory.MmapExact | faasm/src/wavm/WAVMWasmModule.cpp:1195-1200 | rounds to at least what was asked for exactly up to 2^32 less a page, and what is handed out without wrapping holds it |
| LinearMemory.RestoreExact | faasm/src/wasm/WasmModule.cpp:121-150 | after a restore the break is at least the snapshot's size, equal exactly if it fits what is provisioned or the break was at the top |
| LinearMemory.RestoreOvershoots | faasm/src/wasm/WasmModule.cpp:134-137 | a restore of four pages that ends at five |
| MemoryRegions.StepSound | faasm/src/wavm/WAVMWasmModule.cpp:1018-1200 | a step keeps the regions handed out one above the other below the break exactly if it is not a growth that wraps |
| MemoryRegions.AlwaysValid | faasm/src/wavm/WAVMWasmModule.cpp:1018-1200 | in every run the break stays page aligned and within the memory, and the memory within its maximum |
| MemoryRegions.StartSound | faasm/src/wavm/WAVMWasmModule.cpp:464-467 | a run starts with its break at the top of memory, sound |
| MemoryRegions.ClippedHolds | faasm/src/wavm/WAVMWasmModule.cpp:1132-1157 | what is still handed out after the break falls is what was and lies below the new break |
| MemoryRegions.AlwaysLaid | faasm/src/wavm/WAVMWasmModule.cpp:1018-1200 | in every run the live regions lie in order, none overlapping another, and below the break, at every moment exactly if no growth wraps; the wrapping region itself lies beyond it |
| MemoryRegions.WrapLeavesMemory | faasm/src/wavm/WAVMWasmModule.cpp:1034-1052 | a growth that wraps hands out a region that ends beyond 2^32, and the break falls below its base |
| MemoryRegions.OverlapAfterWrap | faasm/src/wavm/WAVMWasmModule.cpp:1034-1052 | memory handed out after that overlaps every region that was live before and that it reaches into |
| MemoryRegions.WrappingOverlaps | faasm/src/wavm/WAVMWasmModule.cpp:1034-1052 | a run of four steps that hands out the same page twice |
| MemoryRegions.PartsDisjoint | faasm/src/wasm/WasmModule.cpp:398-441 | stacks, modules, other regions and the guards of live regions are pairwise disjoint and in provisioned memory |
| MemoryRegions.GuardsAround | faasm/src/wasm/WasmModule.cpp:398-441 | each stack and module that is whole has its full size and a whole guard directly below and above |
| MemoryGuards.MeetsShare | faasm/src/wasm/WasmModule.cpp:398-419 | two ranges meet exactly if they have an address in common |
| MemoryGuards.StepClear | faasm/src/wasm/WasmModule.cpp:398-419 | a step keeps all usable memory writable exactly if it does not reclaim memory in whose usable part a guard was made |
| MemoryGuards.AlwaysClear | faasm/src/wavm/WAVMWasmModule.cpp:1045-1052 | so does a run without wraps, exactly if no step of it does; guards given back by lowering the break stay read-only |
| MemoryGuards.StepHeld | faasm/faabric/src/snapshot/SnapshotRegistry.cpp:24-48 | a step keeps the guards of every live stack and module read-only exactly if it does not map a snapshot over one |
| MemoryGuards.AlwaysHeld | faasm/faabric/src/snapshot/SnapshotRegistry.cpp:24-48 | so does a run without wraps |
| MemoryGuards.HighBreakReusesNone | faasm/src/wavm/WAVMWasmModule.cpp:1045-1052 | while every guard made is below the break nothing reuses one |
| MemoryGuards.RisingGuarded | faasm/src/wasm/WasmModule.cpp:421-441 | however many stacks and modules are made, while the break only rises every guard stays read-only and every usable part writable |
| MemoryGuards.ReuseMakesReadOnly | faasm/src/wavm/WAVMWasmModule.cpp:1132-1157 | two stacks, most of both given back, a third: part of the third stack is read-only |
| MemoryGuards.RestoreUnprotects | faasm/src/wasm/WasmModule.cpp:144-147 | a stack that has no guards after a restore |
| WasmModules.WasmModule.GrowMemory | faasm/src/wavm/WAVMWasmModule.cpp:1018-1130 | break, pages and result are those of `GrowExact` and `ExtendExact`; the region is recorded |
| WasmModules.WasmModule.ShrinkMemory | faasm/src/wavm/WAVMWasmModule.cpp:1132-1157 | the break falls by the bytes given and the old one is returned, or one of two errors; what lies above is given back |
| WasmModules.WasmModule.UnmapMemory | faasm/src/wavm/WAVMWasmModule.cpp:1159-1193 | break and result are those of `UnmapExact`; what lies above the break is given back |
| WasmModules.WasmModule.MmapMemory | faasm/src/wavm/WAVMWasmModule.cpp:1195-1200 | break, pages and result are those of `MmapExact`; the region is recorded |
| WasmModules.WasmModule.Restore | faasm/src/wasm/WasmModule.cpp:121-150 | the break is that of `RestoreExact`; a snapshot mapped makes the memory below its size writable |
| WasmModules.WasmModule.CreateMemoryGuardRegion | faasm/src/wasm/WasmModule.cpp:398-419 | the region becomes read-only; gives its end |
| WasmModules.WasmModule.CreateThreadStacks | faasm/src/wasm/WasmModule.cpp:421-441 | the loop allocates the stacks one by one with both guards, up to the first for which memory cannot be grown, and records each one's top |
| WasmModules.WasmModule.LoadDynamicModule | faasm/src/wavm/WAVMWasmModule.cpp:594-621 | the module's memory between two guards, and its layout |
| WasmModules.StackInPlace | faasm/src/wasm/WasmModule.cpp:426-439 | a whole stack ends at the recorded top, just below the guard above it, and its guards are the recorded ones |
| WasmModules.ModuleInPlace | faasm/src/wavm/WAVMWasmModule.cpp:594-606 | a whole module's memory is exactly what lies between its guards, which are the recorded ones |
| WasmModules.LayoutValidates | faasm/src/wavm/LoadedDynamicModule.cpp:30-77 | the layout passes validation exactly for data of at most 34 pages and 2^31 bytes, or within the stack's size of 2^32 |
| WasmModules.OverfullValidates | faasm/src/wavm/LoadedDynamicModule.cpp:30-77 | a layout with one byte too much data that passes validation |
| WasmModules.LayoutNests | faasm/src/wavm/WAVMWasmModule.cpp:602-617 | stack, data and heap are nested in the module's memory exactly if the data is at most 34 pages |
| ReadDir.FileDescriptor.IterReset | faasm/src/storage/FileDescriptor.cpp:185-191 | the iterator is back where it began, nothing loaded |
| ReadDir.FileDescriptor.LoadDirContents | faasm/src/storage/FileDescriptor.cpp:193-244 | the listing in order, each entry's cookie the position after it |
| ReadDir.FileDescriptor.IterNext | faasm/src/storage/FileDescriptor.cpp:269-290 | the next entry, loading the listing first if need be, or the error at its end |
| ReadDir.FileDescriptor.IterBack | faasm/src/storage/FileDescriptor.cpp:246-257 | one back, or one of two errors |
| ReadDir.FileDescriptor.CopyDirentsToWasiBuffer | faasm/src/storage/FileDescriptor.cpp:307-359 | the buffer, the iterator and the result are those of filling one page; the rest of the buffer is untouched |
| ReadDir.FileDescriptor.FdReaddir | faasm/src/wavm/io.cpp:175-213 | the start cookie exactly on the first call, and then one call of a paged reading |
| ReadDir.FillDecodes | faasm/src/storage/FileDescriptor.cpp:307-359 | the complete entries in what a call returns are exactly those it took from the listing |
| ReadDir.HeaderLayout | faasm/src/storage/FileDescriptor.cpp:321-337 | an entry's header byte by byte |
| ReadDir.FullIffLeft | faasm/src/storage/FileDescriptor.cpp:350-358 | a call reports its buffer full exactly if it leaves entries behind |
| ReadDir.AdvancesIffFits | faasm/src/storage/FileDescriptor.cpp:316-348 | a call advances exactly if the next entry fits its buffer |
| ReadDir.CallsCollect | faasm/src/wavm/io.cpp:165-213 | after any calls on any buffers what was collected is the listing up to the iterator, in order, once each |
| ReadDir.CallsAdvance | faasm/src/storage/FileDescriptor.cpp:307-359 | with buffers that hold every entry each call advances until the end |
| ReadDir.ShortAnswerEnds | faasm/src/storage/FileDescriptor.cpp:292-306 | the first short answer means the whole listing was read, and comes at the latest after as many calls as entries |
| ReadDir.CookieIsPosition | faasm/src/storage/FileDescriptor.cpp:216-226 | the cookie of the last entry read is where the iterator is |

## Left out

- HTTP endpoints, gRPC and hiredis transport, file loaders, the upload server, logging, timers and configuration: RPCs
  and Redis commands are atomic steps, and their failures are not modelled.
- WAVM's compiling, linking and instantiation, ucontext switching, and mmap, mprotect and memfd themselves: only the
  page sets and sizes they change.
- zstd's internals and the failure to allocate the vectors of the delta codec.
- Page sizes so large that a page's end wraps around 2^64 in the delta codec.
- Delta.ApplyDelta: the nesting of compressed envelopes is bounded by a parameter, because a compressed stream may
  contain one again without end; every delta the serializer makes nests at most one deep.
- Delta.ApplyBlock: a block that reaches outside the buffer ends the interpretation; what lies around the buffer is
  not modelled.
- StateKeyValueClass.StateKeyValue.Get: says outright what the value is for values of at most 2^32 bytes; above that
  the pull leaves out the bytes `StreamingCovers` names, and the copy keeps its own there.
- StateKeyValueClass.StateKeyValue.SetChunk: does not model chunks that end between the value's size and its reserved
  memory, which the code admits although the masks are shorter.
- StateKeyValueClass.StateKeyValue.constructor: reserves the memory at once, where the code reserves it when first
  used, and takes the size of copy and master to agree.
- StateKeyValueClass.StateKeyValue.PushPartial: only with the copy's own mask; pushPartialMask, pushFull, appended
  values, clearing and the local locks are not modelled.
- Global locks as exclusion between a master and other hosts: they are not the same lock.
- MasterElection.Registry.GetMasterIP: one key, and of what other hosts may do during the call only that the lock runs
  out; the interleavings are in the protocol's steps.
- StateKeyValueClass.StateKeyValue.IsChunkPulled: without the missing-size error, which its callers raise first.
- Scheduling.Scheduler.CallFunctions: does not model batches of threads and processes, snapshots, forwarding to
  another master host, and the errors of a missing master host or of an empty batch.
- Unregistering a host: the bind message names this host as the master, so the branch is never taken.
- Scheduling.Scheduler.NotifyFaasletFinished: without the error for a message that has no master host.
- Flush and reset messages of the executor, function results and chained calls.
- RFIT's stealing, several resources, the making of threads, and requests whose thread cannot be made.
- RfitClasses.Task.GetI: goes on where the assertion on the capacity fails, as the protocol does.
- RfitClasses.Resource.GetTForI: the semaphore's post is in the protocol's step only.
- WasmModules.WasmModule.CreateMemoryGuardRegion: protecting the pages always succeeds.
- WasmModules.WasmModule.Restore: the contents of the snapshot.
- Mapping shared state into a module's memory, which replaces pages there.
- ReadDir.FileDescriptor.LoadDirContents: the host's listing is a parameter; opening the directory and shared files
  are left out.
- MPI, token pools, mutex managers and the other system calls: no invariant that spans them is hard.
