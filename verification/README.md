# Verified models of an inter-processor communication package

The package connects a host processor to co-processors: remote calls through a message queue
(`src/ti/grcm`), an ELF loader that places code in the co-processor's memory (`src/utils/elfload`)
and a tool that prepares firmware images (`src/utils/genextbin.c`).  This project models its five
hardest pieces of logic in Dafny and proves what they are meant to guarantee.

| Part | Modules |
|---|---|
| Replies of the RCM client | `Mailman`, `MailmanSafety`, `MailmanLiveness`, `RcmClient` |
| Job streams and worker pools of the RCM server | `JobStreams`, `JobSafety`, `JobOrder`, `JobPools`, `JobLiveness`, `JobReissue`, `RcmServer` |
| Function table of the RCM server | `FxnTable`, `StaticSymbols`, `StaleIndex`, `SymbolTable` |
| ELF loader: loading and unloading | `Loading`, `UseCounts`, `LoadRuns`, `LoadGraph`, `LoadLife`, `Loader` |
| ELF loader: addresses and relocation | `Placement`, `RelocScan`, `ArmFields`, `ArmRoundTrip`, `ArmReloc`, `RelocImage` |
| Firmware image, page table and table of contents | `PageTable`, `FirmwareMmu`, `Bytes`, `Image`, `ImageRoundTrip`, `ImageSource`, `ImageMeaning`, `PostProcessor` |
| Debug records in target memory | `DebugChain`, `DebugRecords`, `DebugList` |
| Shared | `Types`, `Sums` |

In each part a module of values and functions gives the meaning of every operation, lemmas prove
properties of all inputs, all runs or all reachable states, and a class or methods in the source's
imperative form are proved to do exactly what those functions say.

**Replies.** Any number of threads wait for replies that come in any order over one queue.  One of
them, the mailman, reads the queue and hands out what it finds; when it meets its own reply it wakes
a successor.  A step is a stretch of code that holds `mbxLock`.  Ids of outstanding calls are
distinct, and the queue returns a message or nothing.

**Jobs.** A job stream's messages go to worker pools one at a time.  A step is a stretch of code
under the instance gate, or one operation on a ready queue or semaphore, so a put and the post that
follows it are apart.  Packets are objects of their own, as with MessageQ, and pool ids are static.
What concerns packets, semaphores and live ids holds in every reachable state.  The order of a job's
messages holds in every state reached without giving out the id of a released job that still has a
message in flight; the source does not prevent this, and `JobReissue` shows exactly what it costs.

**Function table.** Indices carry a key that runs down from 2047 to 1 and starts again, so that an
index whose symbol was removed is recognised.  `stamp` counts the keys issued; the source has no such
field.

**Loading.** The files and what each needs are a parameter, as is the success of every load.  The
client follows the contract in the comments of `dlw_client.c` lines 412-448: a dependent that is not
loaded is loaded with `DLOAD_load`, and one that is dropped goes to `DLOAD_unload`.  (The functions
below those comments are stubs in this repository.)

**Images.** Addresses below 4 GB in multiples of 4K; other lengths make `create_ttb` index past its
list of sizes.  At most 19 regions, since the list is searched for its end, and at most 28 translated
sections, since two of the 30 rows are needed for the page table and the end marker.  `ImageSource` has
images as sections and resources with an encoder for their bytes, so that the results speak of what an
image says and not of what the code reads.

Results that say where the code does *not* meet an obvious expectation:

* `JobReissue.SequenceCondition`: what the next acquire does keeps all further runs in sequence
  exactly if the id that the search finds has no message of an earlier job in flight.
  `JobReissue.OldMessageMeetsNewId` reaches a server on which it has one, and
  `JobReissue.SequenceIsBroken` ends with two messages of one live job running together.
* `FxnTable.StaleHandle`: a stale index is accepted again exactly by a later symbol in the same slot
  whose key was issued a positive multiple of 2047 keys after.  `StaleIndex.StaleIndexIsAccepted` is
  a run from the new table in which that happens.
* `StaticSymbols.StaticTableCondition`: static symbols call their own functions exactly if there are no
  more than 65536, since a lookup keeps 16 bits of the index.
* `FxnTable.HandleLooksUp`: at slot offset 0 a lookup of a valid index stores no function.
* `ArmReloc.JumpExact`: a JUMP24 in a BLX whose H bit is set is read back two bytes off.
* `ArmReloc.ToArmExact` and `ArmRoundTrip.RoundingWraps`: the overflow test of THM_CALL is made
  before the offset is rounded up, so the largest offset wraps to the most negative one.
* `ArmRoundTrip.OffsetOverflowExact`: the magnitude test lets the most negative value pass, and no
  other wrong one; `LeastPasses` and `ThmLeastPasses` show that it is then not read back.
* `Placement.OneMapCondition`: symbols, entry point and tags move together exactly if no segment's
  old or new range reaches the end of the address space; `EntryCondition` and `SymbolCondition` say
  which range decides about which.
* `RelocScan.SkipCondition`: the scan of a relocation table skips no entry exactly if each segment's
  entries stand together and after those of the segment before it, unless these end the table.
* `PageTable.PartialMegabyteUnmapped`: a region that fills no whole megabyte is not mapped at all;
  `PageTable.MappedExactly` is the exact condition.
* `DebugChain.ChainSizes`: the sizes in the debug chain are the records' exactly if all are below
  2^16.

Where comments and code disagree the code is modelled: the comment at `arm_reloc.c` line 416 speaks of
a Thumb callee, while the test under it is for an ARM callee.

## Model

| member | source | states |
|---|---|---|
| MailmanSafety.SortKeeps | src/ti/grcm/RcmClient.c:1448-1537 | A mailman's whole round over any mail only fills empty slots with their owners' mail and adds signals; if it finds its own message it leaves an unserved recipient signalled; every message is afterwards in exactly one of rest, slots, new mail or the mailman's hands |
| MailmanSafety.StepMoves | src/ti/grcm/RcmClient.c:1407-1625 | Each step of a waiting thread moves mail without loss and returns at most one message, to the thread that asked for its id |
| MailmanSafety.StepKeeps | src/ti/grcm/RcmClient.c:1407-1625 | Every action of any thread, client or server keeps the whole protocol invariant |
| MailmanLiveness.StepFalls | src/ti/grcm/RcmClient.c:1407-1625 | Every step of a thread inside the protocol strictly lowers a measure over callers, signals and queued messages |
| MailmanLiveness.RunBounded | src/ti/grcm/RcmClient.c:1407-1625 | In any run the number of protocol steps is bounded by the measure and the calls and replies that came in |
| MailmanLiveness.Progress | src/ti/grcm/RcmClient.c:1377-1381 | While some caller waits and all replies have been sent, some thread can move |
| MailmanLiveness.EveryoneIsServed | src/ti/grcm/RcmClient.c:1377-1381 | From any reachable state with all replies sent, every schedule ends within the measure, and when it cannot go on every caller has got the reply it asked for |
| MailmanLiveness.HandoverNeverStalls | src/ti/grcm/RcmClient.c:1472-1489 | In every reachable state with the queue lock free and a recipient without a message, some thread is bound to become mailman |
| MailmanLiveness.BoundCallerBecomesMailman | src/ti/grcm/RcmClient.c:1407-1443 | A caller bound for the role takes it at its next step while it is free, or leaves with its message having signalled a successor |
| MailmanLiveness.LongestWaiterIsNext | src/ti/grcm/RcmClient.c:1472-1489 | A mailman that leaves with its message has signalled the first recipient on the list that still waits |
| MailmanLiveness.ListInOrder | src/ti/grcm/RcmClient.c:1575-1623 | The wait list is in the order of arrival: every step leaves it, adds the caller at its end or takes one element out |
| MailmanLiveness.MailIsConserved | src/ti/grcm/RcmClient.c:1416-1626 | In every reachable state a reply is in exactly one of queue, hand, new mail, slot or returned, and a returned reply has the id asked for |
| MailmanLiveness.NoForgottenSleeper | src/ti/grcm/RcmClient.c:1507-1518 | No recipient whose mail has arrived sleeps without a signal, and that mail is in its slot, not in the new mail |
| MailmanLiveness.OneReader | src/ti/grcm/RcmClient.c:1436-1443 | In every reachable state at most one thread reads the queue |
| RcmClient.IdsRepeat | src/ti/grcm/RcmClient.c:1349-1364 | The id generator gives 65535 different nonzero ids before it repeats one |
| RcmClient.Client.GenMsgId | src/ti/grcm/RcmClient.c:1349-1364 | Returns the successor of the last id, wrapping from 65535 to 1 |
| RcmClient.Client.SignalSuccessor | src/ti/grcm/RcmClient.c:1472-1483 | The search of the wait list signals the first recipient with an empty slot and changes nothing else |
| RcmClient.Client.DeliverToMailbox | src/ti/grcm/RcmClient.c:1504-1525 | A message goes to the first recipient that waits for its id, with a signal, or to the end of the new mail |
| RcmClient.Client.SortMail | src/ti/grcm/RcmClient.c:1448-1537 | The nested loops compute the round over hand and queue whose meaning SortKeeps states |
| RcmClient.Client.ServeAsMailman | src/ti/grcm/RcmClient.c:1443-1574 | The mailman role leads to the round's state: returned with the lock released, or blocked with the queue empty |
| RcmClient.Client.Attempt | src/ti/grcm/RcmClient.c:1407-1600 | From the top of the loop: collect new mail, become mailman, or join the wait list |
| RcmClient.Client.Fetch | src/ti/grcm/RcmClient.c:1550-1566 | The blocked mailman gets the first message of the queue |
| RcmClient.Client.Deliver | src/ti/grcm/RcmClient.c:1463-1572 | With a message in hand the mailman goes on with the round |
| RcmClient.Client.Wake | src/ti/grcm/RcmClient.c:1595-1600 | A pend on the own event consumes one signal |
| RcmClient.Client.Collect | src/ti/grcm/RcmClient.c:1602-1623 | A woken recipient leaves the wait list, with its message or back to the top |
| JobSafety.SearchResult | src/ti/grcm/RcmServer.c:1327-1355 | The bounded search stops at its n-th try of the rotation, at the first free id or after all tries were in use |
| JobSafety.TriedOnce | src/ti/grcm/RcmServer.c:1327-1355 | The 65535 tries are 65535 different valid ids |
| JobSafety.SearchComplete | src/ti/grcm/RcmServer.c:1327-1375 | The search reports no id available if and only if all 65535 are in use |
| JobSafety.AcquireTakesNextFree | src/ti/grcm/RcmServer.c:1327-1375 | Unless all ids are in use a new job gets the first free one after the last one tried, and the next search starts from there |
| JobSafety.WokenFindsMessage | src/ti/grcm/RcmServer.c:2364-2373 | A woken worker finds a message on its pool's ready queue |
| JobSafety.StepSemaphores | src/ti/grcm/RcmServer.c:2348-2373 | Every step keeps semaphore count, woken workers and posts to come equal to each ready queue's length |
| JobSafety.StepConserves | src/ti/grcm/RcmServer.c:1415-1506 | Every step keeps each packet in exactly one place |
| JobOrder.StepSound | src/ti/grcm/RcmServer.c:1306-1506 | Every step of any kind keeps ids distinct, queued packets at home, semaphores matched and packets conserved |
| JobOrder.StepOne | src/ti/grcm/RcmServer.c:1459-1500 | Every step that gives out no id with a message in flight keeps one message in flight for a live job that is not empty, none for one that is |
| JobOrder.StepOrder | src/ti/grcm/RcmServer.c:2378-2481 | Every such step keeps each job's messages starting in the order in which they were accepted |
| JobOrder.JobsRunInSequence | src/ti/grcm/RcmServer.c:2378-2481 | In every state reached without such an id being given out, a job message that a worker takes up is the next one accepted, and all earlier ones have ended |
| JobOrder.EmptyFlagIsExact | src/ti/grcm/RcmServer.c:1459-1500 | In every such state the empty flag tells exactly whether the job has a message in flight, and an empty job has nothing queued and all accepted messages done |
| JobOrder.LiveIdsDistinct | src/ti/grcm/RcmServer.c:1369-1375 | In every reachable state, reissued ids included, live job ids are nonzero 16-bit numbers and pairwise distinct |
| JobOrder.PacketsAreConserved | src/ti/grcm/RcmServer.c:1415-1506 | In every reachable state, reissued ids included, a packet given to dispatch is on one ready or job queue, with one worker, being returned by a release, processed once or returned once |
| JobOrder.SemaphoresMatchQueues | src/ti/grcm/RcmServer.c:2348-2373 | In every reachable state, reissued ids included, count, woken workers and posts to come make up each ready queue's length |
| JobOrder.PoolErrorUnreachable | src/ti/grcm/RcmServer.c:2427-2461 | In every reachable state, reissued ids included, the worker's pool error branch is not taken |
| JobPools.RunsWhereAddressed | src/ti/grcm/RcmServer.c:1744-1753 | In every reachable state the packets on a pool's ready queue, and those that its workers process, have the pool's number in the low byte of their pool id |
| JobPools.StepAnswers | src/ti/grcm/RcmServer.c:1415-1506 | A step sends PoolNotFound exactly for a packet whose pool is not there, JobNotFound exactly for one whose pool is there and whose job is not live, Unprocessed exactly for one taken by a release, and nothing else |
| JobPools.StatusTells | src/ti/grcm/RcmServer.c:2065-2115 | In any run the status of a returned packet names the step that sent it back: a dispatch without such a pool, a dispatch without such a job, or the release of its job while it was queued there |
| JobPools.StatusIsUnique | src/ti/grcm/RcmServer.c:1415-1506 | In every reachable state no packet has been returned twice |
| JobPools.FirstInFirstOut | src/ti/grcm/RcmServer.c:2364-2373 | In any run what the workers of a pool have begun, followed by its ready queue, is what has been put on that queue, in that order |
| JobPools.DiscreteInOrder | src/ti/grcm/RcmServer.c:1444-1456 | Messages without a job begin, in each pool, in the order in which clients sent them |
| JobLiveness.StepFalls | src/ti/grcm/RcmServer.c:2342-2482 | Every step of the server thread, a worker or a release that is returning packets strictly lowers a measure of the work left |
| JobLiveness.ServerFinishes | src/ti/grcm/RcmServer.c:2342-2482 | From any reachable state with a worker in every pool, no schedule of the server's own steps is longer than the measure, and when none can go on every packet given to dispatch has been processed once or returned once |
| JobReissue.OldMessageMeetsNewId | src/ti/grcm/RcmServer.c:1327-1375 | A server is reachable whose search finds the id of a released job while a worker still has that job's message, after 65534 further jobs have come and gone |
| JobReissue.ReissueBreaks | src/ti/grcm/RcmServer.c:2392-2481 | Whenever such an id is given out, some run then has a worker take up a message of the new job out of turn while another one runs |
| JobReissue.SequenceCondition | src/ti/grcm/RcmServer.c:1327-1375 | After an acquire all further runs process each job's messages one at a time and in order if and only if the id found had no message in flight |
| JobReissue.SequenceIsBroken | src/ti/grcm/RcmServer.c:2392-2481 | On a reachable server two messages of one live job run together |
| RcmServer.ReleaseIsRun | src/ti/grcm/RcmServer.c:2065-2115 | Releasing a job is one critical section followed by one return for each packet that was queued |
| RcmServer.Server.AcqJobId | src/ti/grcm/RcmServer.c:1306-1387 | The search loops add a job with the id found, or report 0 and add none |
| RcmServer.Server.RelJobId | src/ti/grcm/RcmServer.c:2042-2121 | The job goes, and all its packets go back as Unprocessed; an unknown id changes nothing |
| RcmServer.Server.Dispatch | src/ti/grcm/RcmServer.c:1415-1506 | A packet goes to its pool, behind its job's others, or back with its error; RunsWhereAddressed and StepAnswers say which pool and which error |
| RcmServer.Server.ServerPost | src/ti/grcm/RcmServer.c:1494-1497 | The post that follows a put |
| RcmServer.Server.Pend | src/ti/grcm/RcmServer.c:2347-2354 | A pend takes one from the count of the worker's pool |
| RcmServer.Server.Get | src/ti/grcm/RcmServer.c:2364-2373 | The worker takes the first ready packet, or waits again if there is none |
| RcmServer.Server.Process | src/ti/grcm/RcmServer.c:2378-2392 | The packet reaches processing once, and a job message leads to the search for the next |
| RcmServer.Server.Feed | src/ti/grcm/RcmServer.c:2416-2478 | The loop takes packets from the job's queue until one has a valid pool, returning the others |
| RcmServer.Server.Next | src/ti/grcm/RcmServer.c:2392-2481 | The critical section after a job message: feed the next one, or mark the job empty |
| RcmServer.Server.Post | src/ti/grcm/RcmServer.c:2464-2473 | The worker posts the pool it fed |
| FxnTable.DecodeEncode | src/ti/grcm/RcmServer.c:1661-1694 | Key, table and offset can be read back from an index |
| FxnTable.KeysRepeat | src/ti/grcm/RcmServer.c:1715-1721 | Two keys are equal exactly if a multiple of 2047 keys lies between them |
| FxnTable.AddFailsOnlyWhenFull | src/ti/grcm/RcmServer.c:1134-1200 | Adding fails if and only if all eight tables exist and all 8160 slots are taken |
| FxnTable.AddIssuesHandle | src/ti/grcm/RcmServer.c:1134-1200 | The index that an add returns names the new symbol |
| FxnTable.HandlePersists | src/ti/grcm/RcmServer.c:1134-1264 | An index keeps naming its symbol through any run that does not remove the name |
| FxnTable.LiveIndicesDistinct | src/ti/grcm/RcmServer.c:1661-1694 | Live symbols in different slots have different indices |
| FxnTable.HandleLooksUp | src/ti/grcm/RcmServer.c:1603-1640 | At a nonzero offset the lookup gives the function that was added; at offset 0 it stores none |
| FxnTable.SymIdxIsHandle | src/ti/grcm/RcmServer.c:1661-1694 | Looking up a uniquely named symbol gives the index issued for it |
| FxnTable.RemoveTakesHandle | src/ti/grcm/RcmServer.c:1252-1264 | Removing a uniquely named symbol empties its slot and leaves every other slot, key and table as it was |
| FxnTable.StaleHandle | src/ti/grcm/RcmServer.c:1603-1640 | After any run, an index whose symbol is gone is accepted if and only if the slot's later key came a positive multiple of 2047 after; before 2047 further keys it is rejected |
| StaticSymbols.StaticLooksUp | src/ti/grcm/RcmServer.c:1583-1602 | After any run of adds and removes a static name has the index of its slot with bit 31 set, and for the first 65536 slots that index calls the slot's function, at slot 0 the creator |
| StaticSymbols.FarSlotIsLost | src/ti/grcm/RcmServer.c:1583-1602 | The index of a slot further on calls another slot, 65536 places before |
| StaticSymbols.StaticTableCondition | src/ti/grcm/RcmServer.c:1583-1602 | All static symbols with different functions call their own if and only if there are at most 65536 |
| StaticSymbols.StaticIndexCondition | src/ti/grcm/RcmServer.c:1583-1602 | After any run an index with bit 31 is invalid if and only if its low 16 bits lie past the static table |
| StaticSymbols.StaticStays | src/ti/grcm/RcmServer.c:1242-1250 | After any run removing a static name is refused as such and changes nothing |
| StaticSymbols.NotFoundCondition | src/ti/grcm/RcmServer.c:1661-1694 | A lookup and a removal report an unknown name if and only if no slot has it |
| StaleIndex.StaleIndexIsAccepted | src/ti/grcm/RcmServer.c:1603-1640 | From the new table: a symbol is added and removed, 2046 others come and go in its slot, and the one added then is what the old index looks up |
| SymbolTable.Table.GetNextKey | src/ti/grcm/RcmServer.c:1705-1726 | Counts down from 2047 to 1 and starts again at 2047 |
| SymbolTable.Table.ScanFree | src/ti/grcm/RcmServer.c:1134-1165 | The inner loop finds the first empty slot of a table |
| SymbolTable.Table.AddSymbol | src/ti/grcm/RcmServer.c:1109-1212 | The loops fill the first empty slot, creating a table where needed, with the next key |
| SymbolTable.Table.GetSymIdx | src/ti/grcm/RcmServer.c:1649-1698 | The loops find the first symbol of the name and encode its place |
| SymbolTable.Table.RemoveSymbol | src/ti/grcm/RcmServer.c:1220-1270 | The slot that the index names is emptied; static symbols stay |
| SymbolTable.Table.GetFxnAddr | src/ti/grcm/RcmServer.c:1573-1640 | Decodes an index, checks the key, and gives the function as the branches do; HandleLooksUp and StaticLooksUp say which function that is |
| UseCounts.LoadNeededKeeps | src/utils/elfload/dload.c:216-293 | Loading any dependencies, cyclic ones too, keeps every use count exact and every loaded module loaded |
| UseCounts.LoadKeeps | src/utils/elfload/dload.c:2483-2677 | A load keeps every use count exact, with one use of the new module owed to the caller |
| UseCounts.NoReference | src/utils/elfload/dload.c:2986-3033 | A module that may be freed is named by no client reference and no entry of a module that stays |
| UseCounts.UnloadExact | src/utils/elfload/dload.c:2986-3053 | The recursive unload drops exactly one reference, keeps all other counts exact and frees only what nothing refers to |
| UseCounts.UnloadAllExact | src/utils/elfload/dload.c:3018-3022 | Unloading a dependency list drops one reference for each entry |
| LoadRuns.UseCountsAreExact | src/utils/elfload/dload.c:231-284 | After any run of loads and matching unloads each use count equals client references plus dependency entries on the module, and is positive |
| LoadRuns.NothingInUseIsFreed | src/utils/elfload/dload.c:2986-3053 | After any such run whatever the client or a loaded module refers to is loaded |
| LoadGraph.ListsFollowFiles | src/utils/elfload/dload.c:231-284 | After any run of loads and matching unloads a loaded module's list has one entry for each name that its file needs, in order, and each is the handle of a loaded module of that name |
| LoadGraph.NeededIsLoaded | src/utils/elfload/dload.c:216-293 | After any such run every file that a loaded module needs, directly or through others, is loaded |
| LoadLife.EachLifeIsWhole | src/utils/elfload/dload.c:2986-3053 | After any such run a loaded module has been allocated, relocated and initialised once each, in this order, and one that is gone has then been terminated and freed once each |
| LoadRuns.RelocationWaitsForGraph | src/utils/elfload/dload.c:2381-2470 | An outermost load allocates the whole graph first and then relocates and initialises exactly those modules, each once |
| LoadRuns.NestedLoadOnlyAllocates | src/utils/elfload/dload.c:2605-2677 | A load below another one relocates nothing and leaves its modules to the outermost one |
| LoadRuns.RelocationOrder | src/utils/elfload/dload.c:2390-2470 | Modules are relocated from the top of the stack down |
| LoadRuns.StackEmpty | src/utils/elfload/dload.c:2381-2470 | The dependency stack is empty between client calls |
| Loader.Loader.Record | src/utils/elfload/dload.c:231-284 | A handle is appended to the dependency list of the module that needs it |
| Loader.Loader.Load | src/utils/elfload/dload.c:2483-2677 | Appends, stacks and allocates the module, loads its dependencies, and relocates if it is outermost |
| Loader.Loader.Need | src/utils/elfload/dload.c:231-284 | A needed module that is loaded gets one more use and an entry; another one is loaded through the client and gets an entry; ListsFollowFiles says what the entries amount to |
| Loader.Loader.LoadDependencies | src/utils/elfload/dload.c:216-293 | The loop over the needed names |
| Loader.Loader.RelocateGraph | src/utils/elfload/dload.c:2381-2470 | Pops and relocates the stack only for the module at its bottom |
| Loader.Loader.Unload | src/utils/elfload/dload.c:2986-3053 | The recursion terminates, cycles included, and reports whether the module itself went away |
| Placement.NewRangeIsOld | src/utils/elfload/dload.c:858-899 | The test of a moved value against the new range is the test of the old value against the old range |
| Placement.SymbolsShift | src/utils/elfload/dload.c:858-899 | After all segments each unmarked symbol ends at its value shifted by the segment that held it, once |
| Placement.MarkedStays | src/utils/elfload/dload.c:875-899 | A symbol that is marked is never moved |
| Placement.EntryShift | src/utils/elfload/dload.c:823-842 | The entry point is shifted by the segment that holds it, and counts as relocated exactly then |
| Placement.TagShift | src/utils/elfload/dload.c:582-601 | A tag's address is found and shifted exactly if some segment holds it |
| Placement.OneMap | src/utils/elfload/dload.c:770-902 | Symbols, entry point and tags with one address end at one address |
| Placement.OwnOffset | src/utils/elfload/dload.c:770-902 | With disjoint segments the map adds each segment's own offset |
| Placement.EntryCondition | src/utils/elfload/dload.c:823-842 | A segment moves the entry point, and the tag, at every address it holds if and only if its old range ends below 2^32 |
| Placement.SymbolCondition | src/utils/elfload/dload.c:858-899 | A segment moves the symbol at every address it holds if and only if its new range ends below 2^32 |
| Placement.OneMapCondition | src/utils/elfload/dload.c:770-902 | For disjoint segments, symbols, entry point and tags at all held addresses are moved, and to one place, if and only if no old or new range reaches the end of the address space |
| Placement.WrapSplitsTheMap | src/utils/elfload/dload.c:823-899 | For instance, a segment that ends at the top of the address space moves a symbol and neither the entry point nor a tag |
| Placement.DynModule.AdjustSymbol | src/utils/elfload/dload.c:872-899 | One symbol is moved and marked if the segment holds it, together with its global copy |
| Placement.DynModule.PlaceSymbols | src/utils/elfload/dload.c:858-901 | The loop does so for every symbol and keeps the global copy equal to the full table |
| Placement.DynModule.PlaceSegment | src/utils/elfload/dload.c:770-902 | One turn of the segment loop: entry point, segment header and symbols |
| Placement.DynModule.PlaceSegments | src/utils/elfload/dload.c:764-902 | All segments in order, or failure exactly if an allocation is refused |
| Placement.DynModule.UpdateTag | src/utils/elfload/dload.c:582-601 | The tag gets the address of the first segment that holds it, or stays with a failure |
| Placement.DynModule.PlaceTags | src/utils/elfload/dload.c:611-720 | Every address-valued tag is updated once, the termination addresses are kept, and failure comes exactly from an unknown tag or an address in no segment |
| Placement.DynModule.RelocateTags | src/utils/elfload/dload.c:611-720 | Exactly the values of DT_PREINIT_ARRAY, DT_INIT, DT_INIT_ARRAY, DT_FINI and DT_FINI_ARRAY move with the map; fini, fini_array and fini_arraysz are those of the last such tag; it fails exactly on an unknown tag or an address in no segment |
| Placement.DynModule.Relocate | src/utils/elfload/dload.c:747-935 | Entry point, symbols and address-valued tags all end shifted by one map |
| RelocScan.ScanApplies | src/utils/elfload/arm_reloc.c:1572-1662 | One pass applies an entry if and only if it is the segment's, resolves, is not before the start and no gap lies before it in the group |
| RelocScan.ScanOrder | src/utils/elfload/arm_reloc.c:1572-1662 | A pass applies entries of its own segment only, each once, in table order |
| RelocScan.ScanStops | src/utils/elfload/arm_reloc.c:1653-1661 | The position handed to the next pass is just past the group, or the end if there was none |
| RelocScan.RunApplies | src/utils/elfload/arm_reloc.c:1812-1851 | Exactly what the passes over all segments apply, for any table |
| RelocScan.AtMostOnce | src/utils/elfload/arm_reloc.c:1812-1851 | With disjoint segments no entry of any table is applied twice |
| RelocScan.SkipCondition | src/utils/elfload/arm_reloc.c:1572-1662 | For any segments and any table, nothing of a segment with bytes is skipped if and only if each segment's entries are contiguous and come after those of the segment before it, unless these end the table |
| RelocScan.AllAppliedCondition | src/utils/elfload/arm_reloc.c:1812-1851 | If all symbols are found, every entry of every segment with bytes is applied if and only if the table is of this kind |
| RelocScan.GroupedInTurn | src/utils/elfload/arm_reloc.c:1653-1661 | A table in the order of disjoint segments is of this kind |
| RelocScan.AppliedInTurn | src/utils/elfload/arm_reloc.c:1812-1851 | In a table of this kind, with disjoint segments, an entry is applied under a segment if and only if that segment holds it and has bytes and its symbol resolves |
| RelocScan.AppliedExactlyOnce | src/utils/elfload/arm_reloc.c:1812-1851 | In a grouped table an entry is applied, under its own segment and in order, if and only if its symbol resolves and the segment has bytes |
| RelocScan.AppliedWhereMoved | src/utils/elfload/arm_reloc.c:1612-1614 | The address patched is where the map of symbols and tags moves the entry's offset |
| RelocScan.UngroupedLoses | src/utils/elfload/arm_reloc.c:1653-1661 | For instance, two segments and three entries out of turn: one entry is lost |
| RelocScan.SwappedLosesNothing | src/utils/elfload/arm_reloc.c:1581-1586 | Two segments in the opposite order lose nothing, since the scan goes back to the start of the table |
| RelocScan.ProcessTable | src/utils/elfload/arm_reloc.c:1572-1662 | The loop applies the entries and returns the position and flag of the pass |
| RelocScan.ProcessSegment | src/utils/elfload/arm_reloc.c:1827-1850 | The RELA table is scanned before the REL table, each from its own position |
| RelocScan.ProcessGotRelocs | src/utils/elfload/arm_reloc.c:1812-1851 | Each table's share of the log is the run whose meaning AppliedExactlyOnce states |
| RelocImage.EachPatchedOnce | src/utils/elfload/arm_reloc.c:1572-1662 | When the scan of a table in turn is done, and places do not overlap, each place of an applied entry holds one patch of what was there before the scan, and each other place what was there |
| RelocImage.RestIsKept | src/utils/elfload/arm_reloc.c:1572-1662 | Outside the places of the entries the image is as it was |
| ArmRoundTrip.Overflow26 | src/utils/elfload/arm_reloc.c:1025-1031 | The test of CALL, PC24 and JUMP24 passes exactly the values of 26 signed bits |
| ArmRoundTrip.Overflow25 | src/utils/elfload/arm_reloc.c:1032-1037 | The test of THM_CALL and THM_JUMP24 passes exactly the values of 25 signed bits |
| ArmRoundTrip.OffsetOverflowExact | src/utils/elfload/arm_reloc.c:1043-1047 | The magnitude test passes the values whose magnitude fits 12 bits and the most negative one |
| ArmRoundTrip.LeastPasses | src/utils/elfload/arm_reloc.c:599-614 | In ABS12 the most negative value passes the test and is not read back, whatever the instruction |
| ArmRoundTrip.ThmLeastPasses | src/utils/elfload/arm_reloc.c:616-637 | In THM_PC12 it is not read back either |
| ArmRoundTrip.BlxReadsBack | src/utils/elfload/arm_reloc.c:352-392 | A BLX reads back its value, to the halfword, if and only if it does not overflow; other bits stay |
| ArmRoundTrip.BlReadsBack | src/utils/elfload/arm_reloc.c:352-392 | A BL reads back its value, to the word, if and only if it does not overflow; other bits stay |
| ArmRoundTrip.ThumbCalleeMakesBlx | src/utils/elfload/arm_reloc.c:364-376 | A branch to Thumb code becomes a BLX, and one to ARM code stays as it is |
| ArmRoundTrip.JumpInBlx | src/utils/elfload/arm_reloc.c:1251-1268 | JUMP24 in a BLX reads back if and only if it does not overflow and the H bit was clear |
| ArmRoundTrip.JumpKeeps | src/utils/elfload/arm_reloc.c:394-399 | JUMP24 changes its 24 bits only |
| ArmRoundTrip.ThmBranchReadsBack | src/utils/elfload/arm_reloc.c:401-445 | THM_JUMP24, and THM_CALL of Thumb code, read back if and only if the value does not overflow |
| ArmRoundTrip.ThmCallToArmReadsBack | src/utils/elfload/arm_reloc.c:415-445 | THM_CALL of ARM code reads back the offset rounded up to a word if and only if the rounded offset does not overflow |
| ArmRoundTrip.RoundingWraps | src/utils/elfload/arm_reloc.c:415-445 | The largest offset passes the test and does not read back |
| ArmRoundTrip.ThmBranchKeeps | src/utils/elfload/arm_reloc.c:433-443 | Writing a Thumb-2 branch leaves its opcode bits alone |
| ArmRoundTrip.ThmCallToArmKeeps | src/utils/elfload/arm_reloc.c:415-443 | A BL to ARM code loses bit 12 of its second halfword and keeps the other opcode bits |
| ArmRoundTrip.OffsetReadsBack | src/utils/elfload/arm_reloc.c:599-614 | ABS12 reads back if and only if the magnitude fits 12 bits |
| ArmRoundTrip.OffsetKeeps | src/utils/elfload/arm_reloc.c:599-614 | ABS12 changes the U bit and the low 12 bits only |
| ArmRoundTrip.ThmOffsetReadsBack | src/utils/elfload/arm_reloc.c:616-637 | THM_PC12 reads back if and only if the magnitude fits 12 bits |
| ArmRoundTrip.ThmOffsetKeeps | src/utils/elfload/arm_reloc.c:616-637 | THM_PC12 changes the U bit and its 12 bits only |
| ArmRoundTrip.MovPairReadsBack | src/utils/elfload/arm_reloc.c:555-569 | A MOVW and a MOVT together carry any value, whatever the instructions were |
| ArmRoundTrip.MovKeeps | src/utils/elfload/arm_reloc.c:555-569 | They change their two immediate fields only |
| ArmRoundTrip.ThmMovPairReadsBack | src/utils/elfload/arm_reloc.c:571-597 | The same for the Thumb-2 forms |
| ArmRoundTrip.ThmMovKeeps | src/utils/elfload/arm_reloc.c:571-597 | They change their four immediate fields only |
| ArmRoundTrip.Jump11ReadsBack | src/utils/elfload/arm_reloc.c:480-488 | THM_JUMP11 reads back exactly the values of 12 signed bits |
| ArmRoundTrip.Jump8ReadsBack | src/utils/elfload/arm_reloc.c:490-498 | THM_JUMP8 reads back exactly the values of 9 signed bits |
| ArmRoundTrip.Jump6ReadsBack | src/utils/elfload/arm_reloc.c:520-535 | THM_JUMP6 reads back exactly the even values from -4 to 122 |
| ArmRoundTrip.Abs5ReadsBack | src/utils/elfload/arm_reloc.c:500-508 | THM_ABS5 reads back exactly the values of 7 unsigned bits |
| ArmRoundTrip.Pc8ReadsBack | src/utils/elfload/arm_reloc.c:510-518 | THM_PC8 reads back exactly the words from -4 to 1016 |
| ArmRoundTrip.HalvesKeep | src/utils/elfload/arm_reloc.c:480-535 | The 16-bit forms change their fields only |
| ArmReloc.ArmRoundTrips | src/utils/elfload/arm_reloc.c:1186-1203 | For every ARM type, word, value and symbol: what is read back after packing, masking and writing, with the exact condition for it to be the value |
| ArmReloc.PairRoundTrips | src/utils/elfload/arm_reloc.c:1186-1203 | The same for every Thumb-2 type |
| ArmReloc.HalfRoundTrips | src/utils/elfload/arm_reloc.c:1186-1203 | The same for every 16-bit type |
| ArmReloc.RoundTrips | src/utils/elfload/arm_reloc.c:1186-1203 | The same for every type of place in memory |
| ArmReloc.RelOverflow | src/utils/elfload/arm_reloc.c:1021-1048 | Reports exactly the signed values outside [-2^25, 2^25) for CALL, PC24 and JUMP24, outside [-2^24, 2^24) for THM_CALL and THM_JUMP24, and of magnitude 4096 or more but for the most negative one for ABS12 and THM_PC12 |
| ArmReloc.ReportTells | src/utils/elfload/arm_reloc.c:1183-1203 | A value without a report is read back, but for the bits its field drops, except by JUMP24 in a BLX with its H bit set, by THM_CALL of ARM code at the largest offset, and by ABS12 and THM_PC12 at the most negative value |
| ArmReloc.UnpackBranch | src/utils/elfload/arm_reloc.c:1220-1268 | The steps of the reader of BL, BLX and B give the offset that BlxReadsBack and BlReadsBack are about |
| ArmReloc.PackResult | src/utils/elfload/arm_reloc.c:872-1013 | The packed value is the quotient by the type's unit (1, 2, 4 or 2^16) modulo the size of its field |
| ArmReloc.PatchBranch | src/utils/elfload/arm_reloc.c:352-392 | Clearing, the BLX test and the H bit in the code's order give the branch that BlxReadsBack and BlReadsBack are about |
| ArmReloc.PatchOffset | src/utils/elfload/arm_reloc.c:599-614 | The steps of ABS12 |
| ArmReloc.PatchMov | src/utils/elfload/arm_reloc.c:555-569 | The steps of MOVW and MOVT |
| ArmReloc.Image.PatchThmBranch | src/utils/elfload/arm_reloc.c:401-445 | Rounding and the BLX bit for ARM code, then the two halfwords; nothing else in memory changes |
| ArmReloc.Image.PatchThmOffset | src/utils/elfload/arm_reloc.c:616-637 | The steps of THM_PC12; nothing else in memory changes |
| ArmReloc.Image.PatchThmMov | src/utils/elfload/arm_reloc.c:571-597 | The steps of the Thumb-2 MOVW and MOVT; nothing else in memory changes |
| ArmReloc.Image.WriteHalf | src/utils/elfload/arm_reloc.c:480-535 | The steps of the 16-bit types; nothing else in memory changes |
| ArmReloc.Image.WriteReloc | src/utils/elfload/arm_reloc.c:315-637 | Each type writes its own field of its own container; nothing else in memory changes |
| ArmReloc.Image.RelocDo | src/utils/elfload/arm_reloc.c:1186-1203 | Reports exactly the values out of the type's range, packs, masks and writes; without a report what is read afterwards is the value, but for the three cases that ReportTells names |
| ArmReloc.Image.UnpackAddend | src/utils/elfload/arm_reloc.c:1220-1567 | Whatever value was packed and written into the place by the type, and over whatever instruction, the addend read is that value exactly on the type's condition |
| PageTable.Unit | src/utils/genextbin.c:301-307 | The unit chosen divides both addresses, fits the rest, and no larger one of 16M and 1M would |
| PageTable.RegionClosed | src/utils/genextbin.c:294-328 | The greedy division of a region sets exactly the supersections and sections of its closed form |
| PageTable.EntryTranslates | src/utils/genextbin.c:309-322 | An entry that a region sets translates every address of its megabyte by the region's offset |
| PageTable.MappedExactly | src/utils/genextbin.c:280-333 | A megabyte is mapped if and only if some region holds all of it with equal alignment on both sides |
| PageTable.WalkAgrees | src/utils/genextbin.c:235-252 | For disjoint regions the hardware walk through any nonzero entry gives what va_to_pa gives, and an unmapped address faults |
| PageTable.WholeMegabytes | src/utils/genextbin.c:280-333 | With whole megabytes everywhere walk and va_to_pa agree on all addresses |
| PageTable.PartialMegabyteUnmapped | src/utils/genextbin.c:318-322 | A 4K region is translated by va_to_pa and not mapped |
| PageTable.EntriesFit | src/utils/genextbin.c:309-322 | Every entry of the table is a 32-bit word |
| PageTable.EntriesPlain | src/utils/genextbin.c:309-322 | Every entry is 0, or a section or supersection with no other bit set below its address |
| FirmwareMmu.Mmu.AddMemEntry | src/utils/genextbin.c:205-230 | Appends the entry, or fails exactly if all 20 slots are taken |
| FirmwareMmu.Mmu.Translate | src/utils/genextbin.c:235-252 | The search gives the first region that holds the address |
| FirmwareMmu.Mmu.MapUnit | src/utils/genextbin.c:309-326 | 16 equal entries, one entry or none |
| FirmwareMmu.Mmu.MapRegion | src/utils/genextbin.c:294-328 | The inner loop divides up one region |
| FirmwareMmu.Mmu.CreateTtb | src/utils/genextbin.c:280-333 | The cleared table becomes the table of the region list |
| ImageRoundTrip.RowsDescribe | src/utils/genextbin.c:452-475 | The rows describe, by offset and length, exactly the content of the translated sections in order |
| ImageRoundTrip.TocReadBack | src/utils/genextbin.c:498-519 | Following the last word of the output and reading to the end marker gives back the rows |
| ImageRoundTrip.ReaderRecovers | src/utils/genextbin.c:446-519 | A reader of the output recovers address and exact content of every translated section, and the page table |
| ImageRoundTrip.TableReadBack | src/utils/genextbin.c:482-490 | Each entry of the page table is read back from the bytes written for it |
| ImageRoundTrip.ReaderWalks | src/utils/genextbin.c:482-500 | The last part that a reader of the output finds is a page table whose walk, for disjoint regions, agrees with va_to_pa at every mapped address and faults elsewhere |
| ImageRoundTrip.OutputWalks | src/utils/genextbin.c:482-519 | The same as a property of the output file alone, for all addresses |
| ImageRoundTrip.OutputIsProcessed | src/utils/genextbin.c:372-406 | check_image reports any output as already processed |
| ImageRoundTrip.CleanExactly | src/utils/genextbin.c:389-402 | On whole sections check_image passes exactly if none is of the two appended kinds |
| ImageMeaning.SectionAdds | src/utils/genextbin.c:341-369 | A section that holds the 76-byte encodings of some resources adds exactly the regions (da, pa, len) of those that are CARVEOUT or DEVMEM with pa nonzero, in order, up to 20 in all |
| ImageMeaning.ImageIsRead | src/utils/genextbin.c:411-475 | The bytes of any image are read as its sections, its regions and the parts of the sections that these place |
| ImageMeaning.SectionInMemory | src/utils/genextbin.c:447-474 | A section that lies in a memory asked for up to then is placed at the memory's physical address plus its offset there |
| ImageMeaning.AppendedSections | src/utils/genextbin.c:482-519 | Behind the input stand the headers of a page table section and of a signature section, with their addresses and lengths, and the last word leads to the byte after the second header |
| PostProcessor.Processor.ProcessResources | src/utils/genextbin.c:341-369 | Carveouts and device memory with an address are added in order; SectionAdds says so of the encoded table |
| PostProcessor.Processor.ProcessSection | src/utils/genextbin.c:447-474 | Resources first, then a row if the section's address translates |
| PostProcessor.Processor.ProcessSections | src/utils/genextbin.c:446-475 | The pass over all sections gives all rows and the final list |
| PostProcessor.Processor.Finish | src/utils/genextbin.c:482-519 | Page table section, its row, the end row, the TOC section and its offset are appended |
| PostProcessor.Processor.ProcessImage | src/utils/genextbin.c:411-528 | For any image that the input encodes a reader of the output finds, in rows numbered from 1, the sections that its declared memories place and the page table, which walks as the declared memories say; check_image reports the output as processed; a wrong magic number gives none |
| DebugChain.AddTargetKeeps | src/utils/elfload/dlw_debug.c:140-248 | Adding a record at a fresh address keeps host and target lists in step |
| DebugChain.RemoveKeeps | src/utils/elfload/dlw_debug.c:258-335 | Removing any record, first, middle or last, keeps them in step |
| DebugChain.ChainIsMirror | src/utils/elfload/dlw_debug.c:217-243 | Following target links from the header for as many records as the mirror lists visits the same records in the same order, each link giving the next one's 16-bit size |
| DebugChain.ReachableChain | src/utils/elfload/dlw_debug.c:140-335 | The same in every state of every run |
| DebugChain.LinkSizeCondition | src/utils/elfload/dlw_debug.c:230-243 | A link carries the record's size if and only if that is below 2^16 |
| DebugChain.ChainSizes | src/utils/elfload/dlw_debug.c:217-243 | The sizes met along the whole chain are the records' sizes if and only if all are below 2^16 |
| DebugChain.NothingLeaks | src/utils/elfload/dlw_debug.c:319-330 | In every state of every run target memory holds the listed records and nothing else |
| DebugChain.AddAppends | src/utils/elfload/dlw_debug.c:140-243 | A finished load appends its module, name and segments and leaves the others as they were |
| DebugChain.RemoveTakesOut | src/utils/elfload/dlw_debug.c:258-330 | A removal takes out the module of the handle and nothing else; base image and unknown handles change nothing |
| DebugRecords.RecordsOwnSegments | src/utils/elfload/dlw_debug.c:341-386 | In any run a finished load appends a module with exactly the segments reported while it was the innermost one being loaded |
| DebugRecords.SizeIsWritten | src/utils/elfload/dlw_debug.c:156-163 | The size of a record is the number of bytes of its structure, its segments and its name |
| DebugList.List.AddHostRecord | src/utils/elfload/dlw_debug.c:91-129 | A new record goes on top of the stack |
| DebugList.List.AddSegmentRecord | src/utils/elfload/dlw_debug.c:341-386 | The record on top gets one more segment |
| DebugList.List.AddTargetRecord | src/utils/elfload/dlw_debug.c:140-248 | The top record is completed, written to target memory and linked behind the last one |
| DebugList.List.Locate | src/utils/elfload/dlw_debug.c:275-285 | The search finds the first record with the handle |
| DebugList.List.RemoveTargetRecord | src/utils/elfload/dlw_debug.c:258-335 | The record is bypassed in both lists, freed and dequeued |

## Left out

- RcmClient.Client.Fetch: a failing queue read or lock call leaves the source with locks held; here a read gives a message or waits.
- RcmClient.Client.SortMail: replies that arrive while the mailman empties the queue count as arrived before it began.
- JobOrder.JobsRunInSequence: says nothing of states reached by giving out an id with a message of its released job in flight, where it is false: JobReissue.SequenceCondition and SequenceIsBroken.
- JobReissue.SequenceCondition: servers without two workers in one static pool, on which two messages of a job may be unable to overlap, and servers with an empty pool.
- JobLiveness.ServerFinishes: each message is supposed to end; a server with an empty pool keeps that pool's packets waiting.
- RcmServer.Server.Dispatch: dynamic pool ids (bit 15 clear), for which the lookup reports success without a pool, are outside the model.
- RcmServer.Server.Process: what a message does, in-band processing, and results sent by the function itself.
- SymbolTable.Table.GetFxnAddr: indices whose offset lies outside the table they name; the source reads past the table.
- FxnTable.AddIssuesHandle: null functions, and failing allocation of a table.
- Loader.Loader.Load: static executables (dload.c line 2595), which are loaded without dependencies; failing loads, among them a failed dependency, which pops the top of the stack whatever it is.
- LoadRuns.RelocationWaitsForGraph: no claim that modules are initialised in dependency order; stack order breaks it for shared dependents.
- Placement.DynModule.PlaceSegment: the program header table, whose update can match an entry that has moved already.
- Placement.DynModule.PlaceTags: the tags of the C6000 target.
- RelocScan.ProcessTable: the byte swap for foreign endianness; the separate PLT table.
- RelocImage.EachPatchedOnce: takes what one application makes of its place as a parameter, which ArmReloc models type by type; overlapping places, in which the order of entries matters.
- RelocScan.AppliedWhereMoved: the offset of the host's view of the segment.
- ArmReloc.RelOverflow: an `unsigned long` of 32 bits is supposed; a wider one makes the comparison with -1UL fail for all negative values.
- ArmReloc.Image.RelocDo: how the value is made from symbol, addend and place; a word access that is not aligned.
- ArmReloc.Image.WriteReloc: types whose writer and reader differ: THM_JUMP19, PREL31, PLT32, the ALU and LDC groups, THM_ALU; and plain data words.
- FirmwareMmu.Mmu.CreateTtb: addresses or lengths that are not multiples of 4K, which read past the list of unit sizes.
- FirmwareMmu.Mmu.Translate: a full list of 20 regions, whose search runs past its end.
- PostProcessor.Processor.ProcessImage: files whose last section is cut short, logging, and files of 1.8 GB or more.
- DebugChain.ChainIsMirror: says nothing about the last record's own link, which adding never initialises in target memory.
- DebugRecords.SizeIsWritten: the values of version, verification word and timestamp, of which the last is never set.
- DebugList.List.RemoveTargetRecord: an empty list, whose front the source dereferences.
- Histories (`history`, `given`, `processed`, `returned`, `sent`, `log`, `stamp`, `issued`) are not in the source; no branch depends on them.
- Server shutdown, construction failures, the C6000 relocations, and the smaller modules of the package.
