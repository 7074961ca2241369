# HAL daemon: rule cache, hash tables, device index, locks, helpers and sessions

This project models the parts of the HAL hardware daemon whose correctness does not show in any single
function, and proves what holds of them for every input, every run or every reachable state.

* **FDI rules.** `hald-generate-fdi-cache` compiles nested `<match>`, `<merge>`, `<spawn>` ... elements into a flat
  byte image: aligned rules of variable size, values that arrive in chunks, jump targets patched backwards from a
  stack. `hald` runs that image with a rule pointer. The project gives the SAX compiler (`FdiCompiler`, and in place
  in `CreateCache`), the interpreter on bytes (`FdiInterpreter`, and in place in `DeviceInfo`), a reference layout
  (`FdiDocument`, `FdiCache`), a reference walk of the rule trees, what elements mean by their names alone (`FdiMeaning`) and
  what rules do to devices (`FdiEffects`). It proves that the compiled bytes are the
  reference layout, that running them is the walk, that the image is tiled after every SAX event, that rejected
  files leave no trace, that every rule reads back after every event, and where every stored jump leads, and exactly when nested spawning ends.
* **uthash.** Elements are heap objects linked into a bucket chain and an application-order list (`UtHash`,
  `UtHashSort`). The table's invariant holds through adds, deletes, bucket expansion and the in-place merge sort,
  which is proved equal to a bottom-up merge sort on sequences (`MergeSort`) and hence a stable sort of the items themselves.
* **Device store.** The property index, kept by signals before and after each change, agrees with a linear scan in
  every run (`DeviceStore`), and a property is what the last accepted write left there (`DeviceEffects`).
* **Interface locks.** Holders, exclusiveness and lock names live in ordinary properties. The encoding carries out a
  plain table of locks (`DeviceLocks`), over runs with disconnects, revalidation and device removal (`LockRuns`), in
  place in `LockManager`; `AccessCheck` decides who is locked out.
* **Helpers.** The runner answers each request once (`Runner`, `RunnerProcess`); method calls are queued per device
  and drained by a mutual recursion (`MethodQueue`, `MethodTable`).
* **ConsoleKit sessions.** Reference counts over seats and sessions (`CkTracker`, `TrackerProcess`), which carry out plain
  lists of seats and sessions (`TrackerView`).
* **UDI allocation.** The search for a free suffix ends, by a pigeonhole argument (`UdiAllocation`).

A component whose source works by changing state is modelled twice: as functions on a value, about which the
properties are proved, and as a class or methods with loops whose postconditions equate the new state with those
functions.

Where the code does not do what it promises, the code is modelled as it is, a lemma shows the failure, and another
says exactly when the promise holds:

* a spawn UDI without the device prefix is refused by the store and so never found again; a section can be searched to
  the end, whatever matches and merges do, if and only if it spawns nothing or every UDI that the information and policy
  rules spawn carries the prefix (`SpawningEndsIff`);
* draining the queue of a device that has vanished reads a key that the drain has just freed, if and only if two or more
  calls wait behind the one that completes (`StepKeepsInvIff`, `RunKeepsInvIff`, `VanishingDeviceReadsFreedKey`);
* `run_kill_all` does not empty the list of singletons, so a freed record is used if and only if a singleton listed at one
  such call exits before another (`FreedRecordIsUsedIff`, `KillAllTwiceUsesFreedRecord`);
* a refused exclusive lock request still sets the flag: a shared request is refused if and only if the caller holds the lock
  already or somebody, even if refused, asked for it exclusively since it was free (`RequestRefusedIff`);
* the caller's own global lock only counts together with access to the device, which the comment on
  `access_check_caller_locked_out` (hald/access-check.c:360-366) leaves out (`DocumentedIff`);
* a session or seat is leaked when ConsoleKit does not answer a question about it (`ProcessTidyIff`);
* a base name that fills the buffer makes the search for a free UDI endless (`EndsIff`, `LongNamesNeverEnd`).

More statements are about functions taken by themselves, with arguments their callers in the repository never pass.
`hald_exec_method_enqueue` ignores that nothing was started for a device in neither store and then leaves an entry
that nothing removes (`LostCall`, `StuckForever`), but its only caller has just looked the device up
(hald/hald_dbus.c:5089-5093). `kill_rd` would answer a singleton that carries a message once per kill
(`StepAccountsIff`, `KillAllTwiceAnswersTwice`), but the bus handlers never pass a message with a singleton
(hald-runner/main.c:134-163). `hal_device_store_index_property` misses devices that already carry the property
(`IndexingIsCoherentIff`), but its only call comes before any device is probed (hald/linux/osspec.c:417). And
`hald_compute_udi` copies the name it found to a destination that may be shorter than its own buffer: the copy is unused
if and only if the base name was, or a search in the smaller of the two buffers would end (`ComputeUdi`,
`CopiedNameIsUnusedIff`, `TakenNameComesBack`), but every caller passes at least as many bytes.

## Model

| member | source | states |
|---|---|---|
| Bytes.LeRoundTrip | hald/rule.h:92-113 | a stored integer that fits its field reads back as itself |
| Bytes.CStringReads | hald/device_info.c:290-300 | a NUL-free string followed by a NUL reads back whole from the image |
| RuleLayout.CodeRoundTrip | hald/rule.h:34-45 | type codes are the positions of the enumerators and decode to them |
| RuleLayout.ReadStoredRule | hald/rule.h:92-106 | every representable rule reads back, each field at its own offset, from wherever its 48 bytes are placed |
| RuleLayout.ReadStoredHeader | hald/rule.h:107-113 | the cache header reads back, each word at its own offset, with the empty string behind them |
| FdiDocument.RuleSizeTiles | hald/create_cache.c:269-296 | a rule's start plus its `rule_size` is exactly where the next rule would start |
| FdiMeaning.ElementTypes | hald/create_cache.c:75-95 | an element has a rule type exactly if it has the name of that enumerator |
| FdiMeaning.MatchTypes | hald/create_cache.c:97-151 | a match attribute with a type code has the name of the enumerator with that value |
| FdiMeaning.MatchNames | hald/create_cache.c:97-151 | every match enumerator with a name has a type code |
| FdiMeaning.MergeTypes | hald/create_cache.c:153-173 | the same, both ways, for the type of a merge |
| FdiMeaning.LeafValue | hald/create_cache.c:417-431 | the value of merge, append, prepend, addset, remove and spawn is the text between the tags; clear has none |
| FdiMeaning.CleanChunks | hald/create_cache.c:226-267 | without NULs that is all the text, however it was split |
| FdiMeaning.MatchElement | hald/create_cache.c:346-385 | a key and a match attribute give that key, that type and that value |
| FdiMeaning.LeafElement | hald/create_cache.c:346-405 | a key and a type give that key and that merge type |
| FdiMeaning.SpawnElement | hald/create_cache.c:346-405 | a spawn takes its UDI as key |
| FdiMeaning.NestingLimit | hald/create_cache.c:298-303 | matches nest 64 deep and no deeper |
| FdiCompiler.StepKeepsValid | hald/create_cache.c:327-456 | every callback keeps the depth within the stack and the open rule's key non-empty |
| FdiCompiler.RunAppend | hald/create_cache.c:459-518 | a callback that stops the parser ends the run; otherwise streams compose |
| FdiCompilerProof.OpenKey | hald/create_cache.c:208-224 | storing the key leaves the file as the open rule's header space followed by the padded key |
| FdiCompilerProof.OpenValue | hald/create_cache.c:226-267 | storing one more chunk leaves the file as if the concatenation had been stored at once |
| FdiCompilerProof.AppendChunk | hald/create_cache.c:226-267 | overwriting the NUL and padding of a value with the next chunk gives the padded concatenation |
| FdiCompilerProof.OpenStore | hald/create_cache.c:269-296 | storing the open rule completes exactly the reference bytes of one rule |
| FdiCompilerProof.StartOpens | hald/create_cache.c:327-415 | a start tag is refused exactly as the attribute scan says, and otherwise leaves the rule with that content open |
| FdiCompilerProof.RunStatus | hald/create_cache.c:327-456 | the callbacks accept, stop or die on a document exactly as the recursive check of its tree says, and restore the depth |
| FdiCompilerProof.PatchJump | hald/create_cache.c:305-324 | back-patching changes the jump field of the patched rule and nothing else, whatever was written since |
| FdiCompilerProof.EndPatches | hald/create_cache.c:433-456 | the end tag of a match makes its rule jump to where the next rule will start |
| FdiCompilerProof.RunEmits | hald/create_cache.c:327-456 | compiling a document appends exactly its reference bytes, jump targets and split values included |
| FdiCompilerProof.RunKeepsPrefix | hald/create_cache.c:179-456 | no event stream, however it ends, changes a byte below where the file started |
| FdiTiling.PatchTile | hald/create_cache.c:305-324 | patching one rule of a tiled file changes only that rule's jump |
| FdiTiling.EndMatchTiles | hald/create_cache.c:305-324 | a patched jump is the start of the next rule, strictly behind the match |
| FdiTiling.RunTiles | hald/create_cache.c:327-456 | properly nested callbacks keep the file tiled by exactly the rules the callbacks describe, and the match stack pointing at rule starts |
| FdiTiling.CompilingTiles | hald/create_cache.c:179-456 | after every SAX event of every document the new part of the file is tiled by the rules of the events so far, the open rule included |
| FdiTiling.TileReads | hald/device_info.c:1072-1098 | each tile starts aligned, key, value and jump read back, and its `rule_size` leads to the next tile |
| FdiTiling.CompilingReadsBack | hald/create_cache.c:179-456 | after every SAX event every complete rule reads back, aligned and each where the one before leads, with the type, key and value the events gave it however text was split |
| FdiMeaning.GatheredIsRules | hald/create_cache.c:327-456 | the callbacks of an accepted document describe exactly its rules, each with its own attributes and text |
| FdiMeaning.DocumentReadsBack | hald/create_cache.c:327-456 | after compiling an accepted document its rules, by element name, read back from the file in order with their keys and text |
| FdiJumps.PlaceIsEmit | hald/create_cache.c:327-456 | the rules of a document, as a list with their jumps, are exactly its reference bytes |
| FdiJumps.FileJumps | hald/create_cache.c:305-324 | in a file every match leads to the start of a later rule, at the latest the file's EOF rule |
| FdiJumps.ImageJumps | hald/create_cache.c:305-324 | in every finished cache the stored jump of every match reads back as the start of a later rule of its own file, no later than its EOF rule |
| FdiCache.AcceptedEmits | hald/create_cache.c:459-533 | an accepted file appends exactly its rules and its EOF rule |
| FdiCache.RejectedLeavesNoTrace | hald/create_cache.c:564-580 | after the truncation the image is what it was before a rejected file was read |
| FdiCache.AddFilesEmits | hald/create_cache.c:540-610 | a section holds the accepted files, in order, and nothing else |
| FdiCache.SkipCountIs | hald/create_cache.c:564-580 | the files counted as skipped are exactly the rejected ones |
| FdiCache.CacheIsImageOfAccepted | hald/create_cache.c:614-716 | the finished cache, header included, is the reference cache of the accepted files |
| CreateCache.Pad32Write | hald/create_cache.c:179-206 | seek and two writes put the data and its padding at the offset and leave the rest of the file alone |
| CreateCache.FdiContext.StoreValue | hald/create_cache.c:226-267 | the in-place callback does to the file and context what the specification says |
| CreateCache.FdiContext.SetJumpPosition | hald/create_cache.c:305-324 | pops the stack and patches, or stops on an unbalanced end tag |
| CreateCache.FdiContext.Start | hald/create_cache.c:327-415 | the in-place start callback, its attribute loop included, equals the specification |
| CreateCache.FdiContext.End | hald/create_cache.c:433-456 | the in-place end callback equals the specification |
| CreateCache.FdiContext.Parse | hald/create_cache.c:459-518 | feeding events until one stops equals the run of the specification |
| CreateCache.RulesAddFdiFile | hald/create_cache.c:459-533 | the file as left behind and the returned size or -1 for every kind of input |
| CreateCache.KeepOrSkip | hald/create_cache.c:564-580 | compiles a file or truncates to where it began, and says which |
| CreateCache.RulesSearchAndAdd | hald/create_cache.c:540-610 | the directory loop builds the section and counts the skipped files |
| CreateCache.DiRulesInit | hald/create_cache.c:614-716 | the built cache, proved against the reference, and the number of rejected files |
| DeviceInfo.RulesMatchAndMergeDevice | hald/device_info.c:1101-1146 | the rule-pointer loop ends and equals the recursive machine on the bytes |
| DeviceInfo.HandleMerge | hald/device_info.c:849-1070 | a rule other than a spawn ends and gives exactly the devices it names their new properties; a spawn of a present UDI does nothing |
| DeviceInfo.DiSearchAndMerge | hald/device_info.c:1149-1199 | runs the section the type selects, and nothing when it is empty |
| FdiMachineProof.RuleReadsBack | hald/device_info.c:290-300 | at a compiled rule the machine sees the rule's type, key and value |
| FdiMachineProof.NextRule | hald/device_info.c:1072-1083 | `di_next` leads to the next rule of the section, and to the end exactly behind the last one |
| FdiMachineProof.SimulatesFiles | hald/device_info.c:1101-1146 | from the start of a file the machine does what walking that file and the rest of its section does |
| FdiMachineProof.MachineMeetsWalk | hald/device_info.c:1101-1199 | compiler correctness: on every compiled cache, section, device and state the machine ends as the walk of the rule trees |
| FdiMachineProof.CompiledCacheMeetsWalk | hald/create_cache.c:614-716 | the same from the input files to the final device state |
| FdiMachineProof.CacheNeverFaults | hald/device_info.c:1101-1146 | no jump of a compiled cache leads nowhere, backwards or out of its section |
| FdiEffects.MergeTakesEffect | hald/device_info.c:849-1042 | a rule other than a spawn changes the properties it says and no UDI, store or other device |
| FdiEffects.OneLeafSection | hald/device_info.c:1101-1146 | a section of one leaf rule, from the bytes of the cache to the final state, has that rule's effect with its text |
| FdiEffects.OneMatchSection | hald/device_info.c:1101-1146 | a match around it guards it |
| FdiEffects.SpawnSearches | hald/device_info.c:1043-1063 | a new spawned device is searched for information, then for policy, then stored |
| FdiEffects.SpawnAlone | hald/device_info.c:1043-1063 | the spawned device, its first properties and its store, to the last field |
| FdiEffects.SpawnedIsStored | hald/device_info.c:838-847 | whatever its own rules do, a prefixed spawned device is afterwards in exactly one store, once, under its UDI |
| FdiSpawn.WalkEvolves | hald/device_info.c:1043-1063 | a walk only adds devices, each with a spawn UDI that no store had, one per UDI |
| FdiSpawn.WalkEnds | hald/device_info.c:1043-1063 | with prefixed spawn UDIs nesting is bounded by the UDIs absent from both stores |
| FdiSpawn.SpawningEnds | hald/device_info.c:1043-1199 | on every compiled cache, in a section that spawns nothing or with prefixed device spawns, the search ends, within one level per absent UDI plus one, and creates at most one device per UDI |
| FdiSpawn.SpawningEndsIff | hald/device_info.c:1043-1199 | a section can be searched to the end for every device, state and handler behaviour iff it spawns nothing or all information and policy spawns are prefixed |
| FdiSpawn.UnsafeNeverEnds | hald/device_store.c:251-281 | otherwise, with matches that hold and empty stores, no nesting bound suffices |
| FdiSpawn.SpawnXIsUnsafe | hald/device_info.c:1043-1063 | one accepted file with an unprefixed spawn is not safe, so the condition can fail |
| FdiSpawn.FilesDepthIrrelevant | hald/device_info.c:1149-1199 | once a nesting bound suffices, the result does not depend on it |
| FdiSpawn.BadPrefixNeverEnds | hald/device_store.c:251-281 | an unprefixed UDI spawned outside matches by the section and by every device defeats every nesting bound for all handlers, devices and states |
| MergeSort.SortPermutes | libhal/uthash.h:485-560 | the sorted list is a permutation |
| MergeSort.SortSorts | libhal/uthash.h:485-560 | for a comparison that is a total preorder on the elements sorted, objects included, the result is sorted |
| MergeSort.SortIsStable | libhal/uthash.h:485-560 | elements, objects included, that compare equal keep their order |
| MergeSort.SortIsCorrect | libhal/uthash.h:485-560 | the sort is a sorted, stable permutation, starting from runs of length one |
| UtHashSort.TakeOne | libhal/uthash.h:510-547 | one step of the merge takes the element the comparison selects and links it behind the tail |
| UtHashSort.MergeRuns | libhal/uthash.h:508-548 | the inner loop appends the merge of the two runs to the list, with right links |
| UtHashSort.FindSecondRun | libhal/uthash.h:497-506 | counts off at most `insize` elements |
| UtHashSort.MergePass | libhal/uthash.h:490-551 | one pass equals one pass of the merge sort on sequences |
| UtHashSort.HashSort | libhal/uthash.h:485-560 | terminates and leaves the items sorted, stable and a permutation for every total preorder, with right head, tail, prev and next links |
| UtHash.PushFront | libhal/uthash.h:416-426 | adds to the front of a bucket chain, with back links and count |
| UtHash.Unchain | libhal/uthash.h:428-437 | removes one element of a bucket chain, with back links and count |
| UtHash.AppendToList | libhal/uthash.h:66-105 | appends to the application-order list |
| UtHash.AddToBucket | libhal/uthash.h:416-426 | files the element where its hash selects, and asks for growth at ten times the multiplier plus one |
| UtHash.RemoveFromList | libhal/uthash.h:108-139 | takes one element out of the application-order list, head and tail included |
| UtHash.IdealIsPositive | libhal/uthash.h:446-463 | the ideal chain length an expansion divides by is never zero |
| UtHash.MaskIsRemainder | libhal/uthash.h:242-260 | masking a hash with a power of two minus one, as every bucket choice does, is the remainder |
| UtHash.MoveChain | libhal/uthash.h:449-471 | moves every element of one chain to the bucket its hash selects among twice as many |
| UtHash.ExpandBuckets | libhal/uthash.h:440-481 | every element ends in exactly the bucket its hash selects; each bucket is rated by its ideal length and the excess is counted |
| UtHash.HashTable.Find | libhal/uthash.h:49-61 | finds the element with the key, and nothing only if there is none |
| UtHash.HashTable.Add | libhal/uthash.h:66-105 | the table afterwards holds the old elements and the new one last |
| UtHash.HashTable.Delete | libhal/uthash.h:108-139 | the table afterwards holds the other elements in the same order |
| UtHash.HashTable.Expand | libhal/uthash.h:440-481 | growing keeps the elements, their order and the invariant, and sets the evenness measure and noexpand from the excess |
| UtHash.HashTable.SortItems | libhal/uthash.h:485-560 | for a total preorder the application order becomes a stable sort of the items, and the buckets are left alone |
| DeviceStore.StepIsCoherent | hald/device_store.c:185-214 | every store or property operation keeps the index of both stores right |
| DeviceStore.RunIsCoherent | hald/device_store.c:251-314 | after any mix of adds, removes and property changes index[k][v] lists each stored device whose k is v, once |
| DeviceStore.IndexingIsCoherentIff | hald/device_store.c:487-498 | indexing a key keeps the index right exactly if no stored device has it as a string yet |
| DeviceStore.AddingIsCoherentIff | hald/device_store.c:251-281 | adding keeps the index right exactly if the device is refused or new to the store |
| DeviceStore.ChangeHandled | hald/device.c:1059-1096 | the signals around a property change move the device from the old value's list to the new one's |
| DeviceStore.IndexedMatchIsScan | hald/device_store.c:447-484 | the indexed multi-match is a permutation of the linear scan |
| DeviceStore.IndexedSingleMatch | hald/device_store.c:377-416 | the single match finds a stored device with the value, and finds one iff the scan does |
| DeviceEffects.StepProperties | hald/device.c:1059-1370 | an event changes exactly the property it is about, to the value it gives, if accepted, and no other property of any device |
| DeviceEffects.StepMembers | hald/device_store.c:251-314 | which devices each store lists after an event, in order |
| DeviceEffects.LastWriteHolds | hald/device.c:1059-1370 | over every run a property is what the last accepted write left there |
| DeviceEffects.UnwrittenStays | hald/device.c:1059-1370 | and what it was before if there is none |
| DeviceEffects.WrittenIsFound | hald/device_store.c:376-484 | over every allowed run both matches find a stored device under the string set last and under no other |
| DeviceStore.HalDeviceStore.Add | hald/device_store.c:251-281 | the in-place add equals the specification |
| DeviceStore.HalDeviceStore.Remove | hald/device_store.c:283-314 | the in-place remove equals the specification |
| DeviceStore.HalDeviceStore.MatchKeyValueString | hald/device_store.c:376-416 | the lookup loop equals the specification |
| DeviceStore.HalDeviceStore.MatchMultipleKeyValueString | hald/device_store.c:446-484 | the collecting loop equals the specification |
| DeviceLocks.KeysNeverCollide | hald/device.c:1733-1831 | keys of short lock names differ unless lock and suffix are the same |
| DeviceLocks.KeysAre | hald/device.c:1741-1760 | the keys of a lock, spelled out |
| DeviceLocks.AcquireRefines | hald/device.c:1733-1771 | acquiring through properties is acquiring in the table, and keeps holders, `.locked`, `.exclusive` and the name list in agreement |
| DeviceLocks.ReleaseRefines | hald/device.c:1783-1831 | releasing through properties is releasing in the table, and keeps the encoding |
| LockRuns.LockedIsNonEmpty | hald/device.c:40-56 | a device is in the locked set iff it has some lock |
| LockRuns.DisconnectIsExact | hald/device.c:1889-1913 | although locks are released mid-iteration, every table loses exactly the client's holdings |
| LockRuns.DisconnectedHoldings | hald/device.c:1889-1913 | a client holds a lock afterwards iff it did before and is not the one that left |
| LockRuns.ValidatedKeeps | hald/hald_dbus.c:5458-5502 | revalidation keeps the encoding and removes exactly the holders without access, on exactly the devices looked at |
| LockRuns.ValidatedHoldings | hald/hald_dbus.c:5458-5502 | a holder remains iff it passes the access check |
| LockRuns.StepRefines | hald/device.c:1733-1913 | every event does to the tables what it should, with the same answer, and keeps the encoding and the locked set |
| LockRuns.RunRefines | hald/device.c:1733-1913 | the same over every run |
| LockRuns.RequestHoldings | hald/device.c:1733-1771 | a granted request makes the caller a holder, a refused one changes no holding, and nobody else's change |
| LockRuns.ReleaseHoldings | hald/device.c:1783-1831 | a release succeeds exactly for a holder and takes away that holding and no other |
| LockRuns.ExclusiveGrantExcludes | hald/device.c:1733-1913 | after an exclusive grant its holder stays alone and every other request is refused until the grant ends |
| LockRuns.FlagIsRaisedIff | hald/device.c:1742-1752 | one event: the flag of a lock that stays held is raised by exactly the exclusive requests, all of them refused |
| LockRuns.FlagMeansAsked | hald/device.c:1733-1831 | over every run: while a lock is held its flag is up iff an exclusive request, granted or refused, was made since it was last free |
| LockRuns.RequestRefusedIff | hald/device.c:1733-1831 | over every run: exactly which exclusive and shared requests are answered FALSE |
| LockRuns.RefusedExclusiveBlocksSharing | hald/device.c:1742-1752 | the answers with and without a refused exclusive request in between: a shared request that would be granted is refused |
| LockManager.Devices.AcquireLock | hald/device.c:1733-1771 | the property writes, one by one, equal the specification |
| LockManager.Devices.ReleaseLock | hald/device.c:1783-1831 | the property writes, one by one, equal the specification |
| LockManager.Devices.ClientDisconnected | hald/device.c:1889-1913 | the nested loops over snapshots remove exactly the client's holdings |
| LockManager.Devices.ValidateLockForDevice | hald/hald_dbus.c:5458-5495 | the nested loops over names and holders equal the specification |
| LockManager.Devices.ValidateLocks | hald/hald_dbus.c:5497-5502 | both stores in turn: exactly the holders with access remain |
| AccessCheck.CallerLockedOut | hald/access-check.c:378-470 | TRUE without a computer object; otherwise iff the caller holds neither lock and somebody else's lock counts |
| AccessCheck.OthersHoldLock | hald/access-check.c:486-547 | TRUE without a computer object; otherwise iff somebody else's lock counts |
| AccessCheck.ComputerAndGlobalLock | hald/access-check.c:399-407 | the computer object by its UDI, global store first, and the name of the global lock |
| AccessCheck.LockedOutIff | hald/access-check.c:378-547 | locked out means locked by others and holding no lock that counts |
| AccessCheck.DocumentedIff | hald/access-check.c:352-376 | the code follows the comment except for global holders without access to a locked device |
| AccessCheck.ExclusiveGrantLocksOut | hald/access-check.c:378-470 | an exclusive grant locks out everybody else except global holders with access, as long as it lasts |
| Runner.StepKeepsInv | hald-runner/runner.c:132-379 | a UDI's list holds exactly its running records, once each; an armed timer belongs to a record not told to stop |
| Runner.StepAccountsIff | hald-runner/runner.c:148-379 | replies equal what is due after every event, except killing all while a told singleton with a message is listed |
| Runner.AnsweredOnce | hald-runner/main.c:89-180 | in every run of bus requests, exits, crashes, timeouts, kills and spawn failures each request is answered exactly once |
| Runner.StepAdds | hald-runner/runner.c:148-348 | each reply added goes to a request the event ends, with the code for how; exits are announced where the PID was returned |
| Runner.EndedIsAnswered | hald-runner/runner.c:148-379 | whoever an event ends is answered in that step, for the first time |
| Runner.StepCleanIff | hald-runner/runner.c:373-379 | the singleton list stays sound except when everything is killed while it is not empty |
| Runner.FreedRecordIsUsedIff | hald-runner/runner.c:148-379 | over every run: a freed record is used iff a singleton listed at one kill of everything exits before another |
| Runner.KillAllTwiceAnswersTwice | hald-runner/runner.c:330-379 | a singleton with a message is answered twice by two kills |
| Runner.KillAllTwiceUsesFreedRecord | hald-runner/runner.c:330-379 | two kills around a singleton's exit use its freed record |
| RunnerProcess.Process.RequestRun | hald-runner/runner.c:241-328 | the in-place start, spawn failure included, equals the specification and keeps the registry |
| RunnerProcess.Process.Exited | hald-runner/runner.c:148-196 | the in-place exit callback equals the specification and keeps the registry |
| RunnerProcess.Process.TimedOut | hald-runner/runner.c:198-213 | the in-place timeout equals the specification and keeps the registry |
| RunnerProcess.Process.KillUdi | hald-runner/runner.c:350-365 | the loop over one UDI's list equals the specification and keeps the registry |
| RunnerProcess.Process.KillAll | hald-runner/runner.c:367-379 | whatever the order of the table walk, every UDI is killed once and the table is empty |
| MethodQueue.DrainIs | hald/hald_dbus.c:4071-4123 | the mutual recursion ends and equals a closed form: starts in order to the first that runs, failures answered innermost first, and a read of the freed key when a vanished device has two waiting calls |
| MethodQueue.CompleteSends | hald/hald_dbus.c:4071-4198 | what is sent when a helper reports back (its return code, its exception or an unknown error), what stays queued, and exactly when a freed key is read |
| MethodQueue.StepKeepsInvIff | hald/hald_dbus.c:3972-4198 | a queue exists iff exactly its head runs, starts follow arrivals, each call is answered once, no freed string is read; exactly which events break this |
| MethodQueue.RunKeepsInvIff | hald/hald_dbus.c:3972-4198 | over every run of calls to devices that were looked up, all that holds exactly until a device is gone with two calls waiting when a helper reports back |
| MethodQueue.VanishingDeviceReadsFreedKey | hald/hald_dbus.c:4108-4119 | one call runs, two wait, the device vanishes, the first completes: the freed key is read |
| MethodQueue.LostCall | hald/hald_dbus.c:4044-4068 | a call to an absent device without a queue leaves an entry for which nothing runs |
| MethodQueue.StuckForever | hald/hald_dbus.c:4044-4123 | from then on no call to that UDI is answered |
| MethodTable.Table.DoInvocation | hald/hald_dbus.c:3972-4005 | the in-place invocation, synchronous failure included, equals the specification |
| MethodTable.Table.Callback | hald/hald_dbus.c:4125-4198 | drains first, then answers with the return code, the exception from the error lines or an unknown error |
| MethodTable.Table.ProcessQueue | hald/hald_dbus.c:4071-4123 | the in-place drain terminates by queue length and equals the closed form of the whole drain |
| MethodTable.Table.Completed | hald/hald_runner.c:696-770 | a helper's report, in place: the right answer last, and the invariant kept iff the device is there or at most one call waits |
| MethodTable.Table.Enqueue | hald/hald_dbus.c:4044-4068 | the in-place enqueue equals the specification and keeps the invariant for devices that are there |
| CkTracker.DetachOk | hald/ck-tracker.c:124-130 | detaching keeps counts and links; a session the tracker holds survives with one reference |
| CkTracker.AttachOk | hald/ck-tracker.c:116-122 | attaching a new session and listing it keeps counts and links |
| CkTracker.SeatUnrefOk | hald/ck-tracker.c:132-150 | freeing a seat releases each of its sessions and leaves no pointer to it |
| CkTracker.ProcessKeepsInv | hald/ck-tracker.c:516-742 | every signal keeps counts equal to the lists that hold a session, seats equal to the lists, and nothing reachable freed |
| CkTracker.RunKeepsInv | hald/ck-tracker.c:516-742 | the same over every sequence of signals and service losses |
| CkTracker.RemoveAllFreesAll | hald/ck-tracker.c:431-449 | when ConsoleKit goes away every seat and session is freed |
| CkTracker.ProcessTidyIff | hald/ck-tracker.c:282-423 | nothing leaks, except exactly when ConsoleKit does not answer while a session or seat is read |
| CkTracker.RunIsTidy | hald/ck-tracker.c:516-742 | nothing leaks over any run in which ConsoleKit answers |
| TrackerView.ProcessIsSeen | hald/ck-tracker.c:516-742 | every signal does to the listed seats and sessions, with their paths, seats and activity, exactly what it says |
| TrackerView.RunIsSeen | hald/ck-tracker.c:516-742 | so does every sequence of signals, service loss and rereading included |
| TrackerView.SessionRemovedByPath | hald/ck-tracker.c:638-676 | with one session of a path, its removal leaves exactly the sessions of other paths as they were |
| TrackerView.ActiveChangedByPath | hald/ck-tracker.c:677-706 | a change of activity sets that session's flag and no other |
| TrackerView.NobodyOnRemovedSeat | hald/ck-tracker.c:564-597 | a removed seat is unlisted and no listed session is on it |
| TrackerProcess.Tracker.SeatUnref | hald/ck-tracker.c:132-150 | the in-place loop over the seat's sessions equals the specification |
| TrackerProcess.Tracker.RemoveAllSeatsAndSessions | hald/ck-tracker.c:431-449 | the two loops equal the specification |
| TrackerProcess.Tracker.Init | hald/ck-tracker.c:350-423 | the nested reading loops, giving up at the first missing answer, equal the specification |
| TrackerProcess.Tracker.ProcessSystemBusMessage | hald/ck-tracker.c:516-742 | the signal handler does to the visible lists what the signal says, keeps the invariant and touches no freed object |
| UdiAllocation.DecimalInjective | hald/util.c:396-401 | different suffixes give different numerals |
| UdiAllocation.DecimalMeans | hald/util.c:396-401 | the suffix is the decimal numeral of its number, without leading zeros |
| UdiAllocation.CandidateIs | hald/hald.c:274-281 | a candidate that fits is the base name, an underscore and that numeral |
| UdiAllocation.SomeSuffixIsFree | hald/hald.c:274-281 | among as many suffixes as devices and one more one is free, if they fit the buffer |
| UdiAllocation.EndsIff | hald/hald.c:274-281 | the search ends iff a suffix that fits is free, or, without room for a digit, iff the cut name is free |
| UdiAllocation.LongNamesNeverEnd | hald/util.c:396-401 | a taken name that fills the buffer makes the search endless |
| UdiAllocation.ComputeUdi | hald/hald.c:257-286 | returns the first free name, within devices plus one suffixes; the copy in the destination is unused iff the base name was or a search in the smaller buffer ends |
| UdiAllocation.CopiedNameIsUnusedIff | hald/hald.c:274-281 | the first free name cut to a destination is unused iff a search in the smaller of the two buffers would end |
| UdiAllocation.CutBackToTaken | hald/hald.c:274-281 | a taken name that fills the destination: no search in that size ends, and every found name is cut back to it |
| UdiAllocation.TakenNameComesBack | hald/hald.c:274-281 | with "a" taken the search ends in 256 bytes, but two bytes get "a" again |
| UdiAllocation.MakeUdiUnique | hald/util.c:386-405 | the first free suffix in the caller's buffer; the result is unused iff the original was taken or the original cut to the buffer is free |

## Left out

- D-Bus marshalling, introspection, GObject plumbing, logging, daemonising, option parsing, partition tables and the operating-system backends.
- expat, directory scanning, mtime checks, inotify and mmap: a file is a document, a stream of callbacks that the parser then rejects, or unreadable; the files of a section come as a list; writing, seeking and truncating do not fail.
- The match kinds of `handle_match` and the merges other than spawn: they are arbitrary functions of the rule, the device and the state, so the interpreter theorems hold for all of them.
- Layout: the LP64 little-endian layout of `struct rule` is fixed, XML text and attribute values have no NUL, and the cache stays below 2^32 bytes (2^31 while files are added, because sizes are returned as an int).
- FdiInterpreter.SearchAndMerge: carries a bound on nested spawns because an unbounded one need not end; `FilesDepthIrrelevant` shows that the bound does not matter once it suffices.
- Callouts of spawned devices: a device with callouts stays in the temporary store; what happens when they finish later is not modelled.
- uthash's hash functions: any function to naturals before the final mask; overflow of the sort's run length; several hash handles in one element.
- UtHash.HashTable.Add: requires a key that is not in the table, as the macro's users must ensure.
- Memory reclamation in the index and in the locked set: contents are compared by value, and links removed while iterating stay readable.
- Direct client writes to `info.named_locks`, callers without a name other than in `access_check_locked_by_others`, and lock names too long for the 256-byte key buffer.
- Devices are numbered values in the lock and index models, so aliasing of device objects is not captured there.
- The lines a helper writes to standard error are not part of the runner's log; signals that cannot be delivered are not modelled.
- Method queues after a read of a freed key: what the program does then is undefined, and runs stop there.
- Changing a device's UDI while method calls are queued; the refresh of mount state after `Unmount`.
- Sessions' user, host and locality, and the tracker's callbacks to its owner.
- Formatting and canonicalising a UDI before the search; overflow of the suffix counter, which needs 2^31 devices.
- Advisory `Lock`/`Unlock`, the session-change callout queue, batched property notifications, libhal-storage accessors, device name tables and battery estimates.
