# A verified model of the file storage server

A client-server file store keeps a bounded number of files and bytes in memory.
New files go in at the head of a doubly linked list; when a slot or bytes are
missing, closed and written files are evicted from its tail.  A manager thread
moves client descriptors between a select set, a request queue, workers and a
return pipe.  The repository also carries, among its sample files, the week and
duration arithmetic of moment.js.  This project models both in Dafny and proves
what the code keeps.

Where the code does less than its comments say, the model follows the code, and a
theorem says exactly when the code does what is meant.  Operations with such a
defect take a flag `splice`: false is the code as written, true the repaired code,
which is proved to meet the intent always.  The findings:

* `includes/file_storage.c:91-95` removing a middle node leaves it linked; the list
  is proper afterwards exactly when no middle node was removed.
* `includes/file_storage.c:222-226` the append's cursor is overwritten although no
  file was removed; the append returns exactly when its eviction has no file to step
  over, which a caller can tell from the files at the tail.
* `includes/util_server.c:271-273` n = 0 reads as many files as there are free
  slots, although `includes/util.h:81-82` says all of them.
* `includes/file_storage.c:125` the path is compared as a prefix, although
  `includes/file_storage.h:11` calls it the key.
* `includes/util_server.c:159` and `server.c:155` change `nclient` without a lock;
  it is right exactly as long as no update is lost.  At shutdown nothing is left
  behind exactly when the lost updates cancel out; runs from the start are given
  that stop too soon and that never stop.
* `includes/util_server.c:156-163` closing a connection closes no file; the next
  connection with the descriptor holds exactly what the last one left open.
* `includes/util_server.c:173-187` the lookup and the insertion of a create are two
  locked sections.  Stored paths stay distinct exactly when no insertion finds its
  path taken meanwhile, and a run from the start is given where one does.
* `includes/util_server.c:288` reading n files closes them over the head of the client
  that holds them.  Nothing else of another client does: a held file stays held exactly
  until its holder's own close or over-large append, or such a read.
* `includes/util_server.c:338-340` a failing append does not say which files it has
  cost.  As written, one request at a time, the report is incomplete exactly for a
  holder's first append that is larger than the store, which removes the file itself;
  with the eviction repaired, also for one that all evictable files together leave
  short, if there are any.  A failing open costs no file.  Runs are given for both.
* `includes/file_storage.c:154-163`, `includes/file_storage.c:219-227` and
  `includes/util_server.c:246-249` a cursor or a file found is used in a later locked
  section than the one it was set in.  Even with removals unlinked properly, some run touches
  freed memory exactly when there are two workers or more and a slot or more.  Without
  readN it is a waiting request or a second eviction that does so, and runs are given
  for both.
* `server.c:150` a connection waiting once SIGHUP is known falls into the branch for
  client requests and ends the server; a run from the start is given that loses a
  queued request so.

## Layout

| file | contents |
|---|---|
| Files.dfy | the stored files as values, and where an eviction has to stop |
| FileStorage.dfy | the doubly linked list with its two budgets, as classes |
| Service.dfy | the requests for files on values, and what every run of them keeps |
| Promises.dfy | what each request promises its client, from owners, marks and bytes |
| Server.dfy | the same requests on the linked list, refining Service |
| Workers.dfy | workers interleaving: locked sections, unlocked tests, the budgets |
| Ownership.dfy | in those interleavings: contents of files, and who may touch them |
| Faults.dfy | in those interleavings: when freed memory can be touched |
| Paths.dfy | in those interleavings: whether stored paths stay distinct |
| Witnesses.dfy | runs that attain the bounds or show where the code falls short |
| Alone.dfy | a worker alone does in the step system what Service says |
| Clients.dfy | where each client is, the counter of clients, shutdown |
| Losses.dfy | what a lost update of that counter does |
| Together.dfy | clients and workers as one system |
| RequestQueue.dfy | the linked queue of requests |
| Manager.dfy | the manager's pass over the ready descriptors |
| Wire.dfy | partial reads and writes, frames |
| Messages.dfy | requests and replies as text and as bytes |
| Reports.dfy | what a client is told of evicted files |
| WeekDates.dfy | weeks of the year in moment.js |
| Durations.dfy | durations in moment.js |

Two layers describe the store.  With requests one at a time, the classes of
FileStorage and Server have every pointer, and evict as the loops do.  With
workers interleaving, Workers is a step system over a sequence of files with
identities, whose steps are the locked sections and the unlocked tests, and whose
workers keep cursors into it; removals there are those of the repaired code.  Server
refines Service request by request, and Alone shows that every run of Service is a
run of Workers.  That a worker starts only for a connected client without another
request is a guard in Workers; Together runs it with the manager's side, without
that guard, and shows it always holds.

## Model

| member | source | states |
|---|---|---|
| Files.StopIsUnique | includes/file_storage.c:155-164 | an eviction can stop in one place only, so which files go is determined by the list and the shortage |
| Files.StopIsShortest | includes/file_storage.c:153-171 | the run of oldest files visited is the shortest that frees enough: no shorter one would do, and it fails only when all evictable files together are too few |
| Files.EvictionConserves | includes/file_storage.c:101-103 | files and bytes that stay plus those that went are what was there; exactly the files that are open or not marked written stay |
| Files.EnoughOrNot | includes/file_storage.c:169-171 | an eviction ends with enough room exactly when all closed, written files together free enough |
| Files.SecondRound | includes/file_storage.c:153-167 | after a round that was not enough, every later round up to TIMER evicts nothing: the file list, the report and the count stay |
| Files.TornExactly | includes/file_storage.c:91-95 | as written, a create tears the list exactly when the oldest evictable file has a neighbour on both sides |
| Files.GrowAppends | includes/file_storage.c:246-248 | realloc and memcpy append the chunk to the bytes in use, whatever the old buffer held behind them |
| FileStorage.Node.constructor | includes/file_storage.c:19-32 | a new node stands alone, owned by its creator, empty and never written |
| FileStorage.Node.Grow | includes/file_storage.c:246-250 | the node holds its old bytes followed by the chunk, and counts as written |
| FileStorage.ChainIsUnique | includes/file_storage.h:8-17 | the son pointers alone decide which nodes the store holds and in which order: two null-ended chains from one node are equal, so there is no cycle |
| FileStorage.ChainSkips | includes/file_storage.c:91-95 | once the two neighbours of a middle node point at each other, both chains lead past it |
| FileStorage.Storage.constructor | includes/file_storage.c:40-56 | an empty proper store with both budgets full |
| FileStorage.Storage.Relink | includes/file_storage.c:72-96 | only, last and head node are unlinked properly; a middle node stays in the chain of sons as written, and leaves it when its neighbours are spliced; the cursor it hands back in each case |
| FileStorage.Storage.RemoveFile | includes/file_storage.c:67-109 | removes exactly a closed, written file, gives its slot and bytes back and reports its path; the list is proper afterwards if and only if the file was not taken from the middle (or the links are spliced) |
| FileStorage.Storage.Sweep | includes/file_storage.c:154-164 | one round from last to head takes exactly the shortest sufficient run of evictable files, keeps all others in place, and ends by the distance to head |
| FileStorage.Storage.MakeRoom | includes/file_storage.c:153-167 | the eviction as intended, all TIMER rounds: the same files go as in one round, in the same order of report |
| FileStorage.Storage.SweepAsWritten | includes/file_storage.c:154-164 | the create's round as written: same files gone and reported, and the list is torn exactly at the place where the file went, if that was in the middle |
| FileStorage.Storage.MakeRoomAsWritten | includes/file_storage.c:148-171 | the create's eviction as written, all TIMER rounds |
| FileStorage.Storage.Insert | includes/file_storage.c:174-184 | the new node becomes the head and takes a slot; a proper list stays proper and a torn one stays torn |
| FileStorage.Storage.InsertCreateFile | includes/file_storage.c:146-188 | fails exactly when no slot is free and no file may be evicted; the resulting files, report and count; the list is proper afterwards if and only if the file evicted was not in the middle |
| FileStorage.Storage.VisitLast | includes/file_storage.c:222-226 | a turn of the append's loop as written: it removes the last file if evictable and moves to the new last, otherwise changes nothing |
| FileStorage.Storage.TrimEnd | includes/file_storage.c:213-235 | the append's eviction as written finishes exactly when there is no file to step over; otherwise it follows an unset pointer (if the very last file is not evictable) or turns without end |
| FileStorage.Storage.DropTooBig | includes/file_storage.c:203-211 | a first append larger than the whole store removes the file itself and reports it; torn if it stood in the middle |
| FileStorage.Storage.Commit | includes/file_storage.c:245-252 | the accepted chunk is at the end of this file and of no other, and its bytes are taken from the budget |
| FileStorage.Storage.UpdateFile | includes/file_storage.c:201-254 | the whole append: too large, refused, stored or never returning, each with its exact condition, files, report and count; the list keeps its shape |
| FileStorage.Storage.SearchFileNode | includes/file_storage.c:118-136 | the counted walk never steps past the last node and finds the newest file whose path starts with the query, or none if there is none |
| Service.NewestIs | includes/file_storage.c:123-133 | the lookup is determined: the first match from the head and nothing else |
| Service.OpenKeepsGood | includes/util_server.c:173-226 | an open, with its eviction, keeps both budgets in bounds, counts every file, and shadows no path |
| Service.AppendKeepsGood | includes/util_server.c:318-361 | an append, with its eviction or the loss of the file, keeps all of that, and the memory statistic exact |
| Service.RunIsGood | includes/util_server.c:143-398 | over every run of requests: neither budget is overdrawn, successful creations are the resident files plus cnt_file_removed, max_mem_used is the largest number of bytes ever in use, and no path is a prefix of an older one |
| Service.LookupFindsKey | includes/file_storage.c:125 | a path finds its own file exactly when no newer path continues it, since the lookup compares a prefix |
| Service.LongerPathIsFound | includes/file_storage.c:125 | two creates from the empty store after which the shorter path finds the other file and reads its bytes |
| Service.SentCount | includes/util_server.c:277-293 | readN sends written files only, as many as asked or as there are |
| Service.ReadAllIff | includes/util_server.c:271-273 | n = 0, documented as every file, sends every written file exactly when at least as many slots are free |
| Service.ReadAllSendsNone | includes/util_server.c:271-273 | on a store filled by one written file a request for every file is sent none |
| Service.ReadNTakesAway | includes/util_server.c:282-291 | after two requests from the empty store one readN of another client takes the file from its holder: its read fails and the other may open it |
| Service.AppendIsRead | includes/util_server.c:245-262 | after an accepted append its client reads the bytes it would have read before, followed by the chunk, although files were evicted in between |
| Service.CloseUndoesOpen | includes/util_server.c:374-386 | closing a file just opened restores the store exactly |
| Promises.FilesComeFrom | includes/util_server.c:205-391 | no request changes a file but the one it names, for its holder or for the client that opens it closed, and no bytes but those appended; a readN closes written files; a new file is the one created |
| Promises.RunIsMarked | includes/file_storage.c:19-32 | in every run a file that was never written is marked so and has no bytes, and every other is marked written |
| Promises.OnlyClosedAndWrittenGo | includes/file_storage.c:67-109 | a file that is open or was never written is still stored after a request if and only if the request is not its holder's first append, larger than the store |
| Promises.CreateSucceedsIff | includes/file_storage.c:146-171 | a create succeeds if and only if its path is new and the open and the never written files leave a slot; on a full store, if and only if some file is closed and written |
| Promises.AppendSucceedsIff | includes/file_storage.c:201-235 | an append succeeds if and only if its client holds the file and the open files with the chunk fit the store |
| Promises.NeverWrittenStays | includes/file_storage.c:68 | on a store of one slot a file created and closed stays, and another client's create is refused with nothing changed |
| Promises.OpenGrants | includes/util_server.c:173-217 | after an open or create that succeeds the client reads the file found, or an empty new one; an open succeeds if and only if the file is there and closed, a create of a stored path never; a refusal changes nothing |
| Promises.OneReader | includes/util_server.c:246-258 | two clients are never both sent the file of a path: what is read is a stored file that the reader holds, any other read is refused, and none changes the store |
| Promises.CloseFrees | includes/util_server.c:366-391 | a close succeeds if and only if a read would; then every client can open the file and none can close it again; any other close is refused and changes nothing |
| Promises.HeldUntilFreed | includes/util_server.c:205-391 | a held file is held on after a request if and only if the request is not its holder's close, its holder's first append larger than the store, or a readN that sends it |
| Promises.HeldSinceOpen | includes/util_server.c:205-391 | over every run, from a successful open or create on: the file is held after every request if and only if none of those comes, and until then no other client is sent it or can open, append to or close it |
| Promises.SentInOrder | includes/util_server.c:277-293 | the files sent are the first n written ones from the head, as they are stored, none left out before the last one sent; exactly they are closed |
| Promises.BatchEndsWell | includes/util_server.c:294-304 | readN ends with 0 if and only if it has sent a file: if and only if one is written and, for n = 0, a slot is free |
| Promises.ReadBatch | includes/API.c:122-154 | composed with the client: whatever its reads do, if they come to an end it has the files sent and returns 0 if and only if it has got one |
| Service.ThreeFallShort | includes/file_storage.c:222-226 | a family of stores where a create tears the list and an append never returns |
| Service.AsWrittenFallsShort | includes/file_storage.c:91-95 | five ordinary requests from the empty store lead to such a store |
| Server.Server.OpenFile | includes/util_server.c:165-229 | on the pointer list: reply and store are those of the value-level open; the store stays proper exactly when no middle file is evicted |
| Server.Server.ReadFile | includes/util_server.c:230-264 | answers the owner with the bytes of the file found, anyone else with a failure, and changes nothing |
| Server.Server.ReadNFiles | includes/util_server.c:267-306 | the walk along the sons sends the first n written files, newest first, and closes exactly those |
| Server.Server.AppendToFile | includes/util_server.c:309-364 | on the pointer list: an append that returns does what the value-level append does; it returns with a proper store exactly when there is nothing to step over |
| Server.Server.CloseFile | includes/util_server.c:366-398 | the owner's close frees the file found for others, any other close fails |
| Server.Server.Serve | includes/util_server.c:143-398 | every request on the pointer list refines the value-level service and keeps its invariant, exactly as long as the code as written survives it |
| Server.Server.ServeAll | includes/util_server.c:116-405 | a run of requests on the pointer list, taken up to its first request that does not survive the code as written: replies and store are those of the value-level run, and it comes through with a proper list exactly when that last request survives too |
| Workers.SlotSeen | includes/file_storage.c:147 | an unlocked test that sees a free slot may reserve one without breaking the bound |
| Workers.RoomSeen | includes/file_storage.c:213-218 | an unlocked test that sees room may reserve its bytes without breaking the bound |
| Workers.SectionKeepsBudgets | includes/file_storage.c:174-185 | every locked section of every operation keeps the budgets exact and within the bound for the reservations still pending |
| Workers.RunBudgets | includes/file_storage.c:147-185 | in every interleaving of T workers: budgets exact, nfile_dispo >= 1 - T, ram_dispo >= -(T - 1) ram_tot, creations = resident + removed |
| Workers.OneWorkerNeverOverdraws | includes/file_storage.c:213-251 | with one worker neither budget goes negative |
| Witnesses.SlotBoundIsAttained | includes/file_storage.c:147-185 | for every T there is a run of T workers that leaves nfile_dispo at 1 - T |
| Witnesses.MemoryBoundIsAttained | includes/file_storage.c:213-251 | with a slot for each, some run of T workers leaves ram_dispo at -(T - 1) ram_tot: each sees an empty store and copies a full one into its own file |
| Witnesses.CreatedTwice | includes/util_server.c:173-187 | two interleaved creates of one path both succeed when each looks before the other inserts, also with one free slot only, which is then overdrawn |
| Witnesses.CanCreateTwice | includes/util_server.c:173-187 | that happens in some run from the start, with two workers and an empty store |
| Paths.NextShadows | includes/file_storage.c:174-184 | with workers interleaving, a step makes one stored path equal to or a prefix of an older one if and only if it inserts a file whose path has been taken since its lookup |
| Paths.PathsStayDistinct | includes/util_server.c:173-187 | in every run stored paths stay distinct, and none a prefix of an older one, after every step if and only if no insertion finds its path taken |
| Ownership.NextLogged | includes/util_server.c:207-262 | in every interleaving whatever is done to a file is done by its holder, an open by a client that found it closed, and an open or create makes its client the holder until a close |
| Ownership.RunContents | includes/util_server.c:250-263 | in every interleaving a resident file is the concatenation, in lock order, of exactly the chunks accepted since its creation, and what a read sent was that |
| Ownership.HeldUntilReleased | includes/file_storage.c:68 | in every interleaving a held file stays held by a step if and only if the step is not its holder's own close, its holder's own append larger than the store, or a readN passing over it; no eviction and no other client's append takes it |
| Ownership.ExclusiveWhileHeld | includes/util_server.c:207-262 | while none of these happens and the holder does not hang up, whatever the others do, the file stays and every read, append and close of it was the holder's |
| Ownership.OpenIsExclusive | includes/util_server.c:205-217 | in every run without readN: from a client's successful open or create until its own close, own over-large append or own hangup, the file stays and all that is logged of it is that connection's doing |
| Ownership.HeldUntilOwnAct | includes/util_server.c:207-262 | the same from any state of a run on in which a connected client holds the file |
| Ownership.HeldExactlyUntilOwnAct | includes/file_storage.c:203-211 | in every run without readN: a held file is held on after every step if and only if no step is its holder's close or over-large append |
| Ownership.RunSettled | includes/file_storage.c:236-253 | without readN, an append past its owner test works on a file its client holds until it is done |
| Ownership.DescriptorReuse | includes/util_server.c:156-163 | closing a connection closes no file: over every run the next connection of a descriptor holds exactly the files the last one left open and no readN has passed over since |
| Witnesses.DescriptorInherits | includes/util_server.c:156-163 | that happens in some run from the start: the next connection of a descriptor holds the file that only the last one ever touched |
| Faults.NextNames | includes/file_storage.c:97-107 | an event frees exactly the file it removes, and every other one stays |
| Faults.CursorLost | includes/file_storage.c:154-163 | the cursor of an eviction or of readN comes to point to freed memory by a step if and only if another worker frees, in that step, the file it is on; a worker's own removals never do it |
| Faults.FaultsInGeneral | includes/file_storage.c:154-163 | a step touches freed memory if and only if it is a waiting request, an eviction, a readN or an append whose file has gone; an append does so when it compares sizes with a chunk larger than the store, removes the file or writes to it |
| Faults.FaultsWithoutReadN | includes/file_storage.c:155-163 | in every run without readN, a step touches freed memory if and only if it is a request waiting for a file that has gone or an eviction whose cursor is on one; an append past its owner test never does |
| Faults.OneWorkerNeverFaults | includes/file_storage.c:154-163 | where removals unlink properly, no run of one worker touches freed memory, readN included: all it has found and all its cursors are on files of the store |
| Faults.WaiterCanFault | includes/util_server.c:246-249 | for two workers or more and any store with a slot, a run from the start after which a waiting client reads freed memory: the file it waits for was removed as too large |
| Faults.EvictorCanFault | includes/file_storage.c:154-157 | for two workers or more, a run from the start after which an eviction reads freed memory: two creates on a full store aim at its last file, and the first removes it |
| Faults.FaultIff | includes/file_storage.c:154-163 | where removals unlink properly, some run touches freed memory if and only if there are at least two workers and at least one slot |
| Alone.Sweep | includes/file_storage.c:153-164 | a worker's eviction steps, oldest first, take the step system's store to what the loops leave, and every file that may not go keeps its identity and content |
| Alone.AloneIsHandle | includes/util_server.c:165-398 | a worker that no other interrupts can bring every request, with its evictions and refusals, to exactly the store and the reply that the value-level handler gives: it logs what the reply says, and nothing of a refusal |
| Alone.RunsAgree | includes/util_server.c:123-398 | every run of requests one at a time is also a run of the interleaving system, with the same files and counters |
| Clients.OnePlaceKept | server.c:150-161 | no step puts a client in two of select set, queue, worker and pipe |
| Clients.ClientsConserved | server.c:175-211 | in every run each descriptor is in as many places as it was accepted more often than closed, and in at most one: so a connected client is in exactly one, has no two requests outstanding, requests are popped once and in order, and with no lost update the queue is never longer than nclient, which is the number of clients |
| Clients.CounterDrift | includes/util_server.c:159 | nclient is the number of clients plus exactly what lost updates have left in it |
| Clients.CounterRightIff | server.c:155 | nclient is right throughout a run if and only if no update of it is lost |
| Clients.OneAtATimeNoSlip | includes/util_server.c:156-159 | updates that do not overlap are never lost |
| Clients.LeavesNothingBehind | includes/util_server.c:124-137 | when the manager or a worker leaves for SIGHUP, queue, pipe, select set and workers are empty and every request that came was answered, if and only if the lost updates of nclient add up to zero; a worker leaves no request in the queue in any case |
| Clients.EndsBySignal | server.c:137-150 | in every run the manager stops, a worker leaves or a waiting connection ends the server only after a signal that came |
| Clients.SignalsStop | server.c:137-140 | SIGINT and SIGQUIT stop the manager whoever is connected, SIGHUP if and only if the counter is 0; so with an idle worker, if and only if no request waits |
| Clients.RunAnsweredOnce | includes/util_server.c:138-157 | in every run a popped request has been answered exactly when no worker has it in hand, and none is answered twice |
| Losses.LostDecrement | includes/util_server.c:159 | two workers closing together can lower nclient once for two clients |
| Losses.LostIncrement | server.c:151-155 | an accept during a worker's close can be lost from nclient |
| Losses.NeverStops | server.c:137-140 | after a lost decrement with no client left, SIGHUP stops neither manager nor worker |
| Losses.StopsTooSoon | server.c:137-140 | after a lost increment the server stops with a request in the queue |
| Losses.CanRunForEver | server.c:137-140 | with two workers or more some run from the start ends, after SIGHUP and with no client left, where neither manager nor worker ever leaves |
| Losses.CanStopTooSoon | server.c:137-140 | some run from the start stops the server for SIGHUP with a request in the queue |
| Losses.CanCrash | server.c:141-150 | some run from the start, with no update lost, ends the server after SIGHUP with a client's request in the queue because another connection waits |
| Together.PopIsWelcome | server.c:175-211 | when a request is popped its client is connected and no worker is busy with another request of it: what the store's step system asks of a start |
| Together.TogetherIsBoth | includes/util_server.c:138-164 | in every run of clients' machinery and store together, up to a fault, each part is a run of its own system, so what is proved of either holds of both; no start is ever refused |
| RequestQueue.Queue.Push | includes/util_server.c:36-55 | on the linked list: the request waits behind all others |
| RequestQueue.Queue.Pop | includes/util_server.c:58-70 | on the linked list: the oldest request is taken out and the others keep their order |
| RequestQueue.Fifo | includes/util_server.c:36-70 | over any run of pushes and pops, what was served followed by what waits is what arrived |
| RequestQueue.Drive | includes/util_server.c:123-139 | the linked queue driven through any run serves what the mathematical queue serves |
| Manager.Manager.UpdateMax | server.c:31-36 | the largest descriptor below the one that left; the assertion at its end is not reached |
| Manager.Manager.Watch | server.c:153-161 | fd_max stays the largest member of the set when a descriptor joins |
| Manager.Manager.Unwatch | server.c:175-176 | fd_max stays the largest member of the set when one leaves |
| Manager.Manager.Pass | server.c:141-215 | although fd_max moves, a pass visits every ready descriptor exactly once and in order, queues each ready client, and ends the server exactly when a connection waits once SIGHUP is known |
| Wire.ReadN | includes/conn.c:14-28 | however reads are split, interrupted or cut short, the buffer holds what the stream holds there, and readn is done exactly when it is full |
| Wire.WriteN | includes/conn.c:36-50 | however writes are split, the stream grows by a prefix of the buffer, and by all of it exactly when writen is done |
| Wire.LittleRoundTrip | includes/util.c:88 | the length word reads back as the length that was written |
| Wire.LeastFirst | includes/util.c:88 | the least significant byte comes first: 256 to the i is a 1 in byte i alone |
| Wire.FirstFrame | includes/util.c:143-152 | the first frame is found whatever follows it |
| Wire.SentIsInjective | includes/util.c:88-89 | no stream can be read as two different lists of frames |
| Wire.Exchange | includes/conn.c:14-50 | for all frames and any behaviour of the calls on both sides, the receiver has a prefix of what was sent, and all of it with no byte between or behind when both finish |
| Messages.NumberRoundTrip | includes/API.c:160-161 | strtol reads back what sprintf wrote of a size |
| Messages.RequestRoundTrip | includes/util.c:68-88 | the server understands a request as meant if and only if its path is not empty and has no comma (a close: always) |
| Messages.KnownRequests | includes/util.c:68-88 | the text of one request of each kind, with its api id |
| Messages.KnownNumbers | includes/API.c:160-161 | strtol skips spaces, takes a sign and stops at what is no digit |
| Messages.ReadRequest | server.c:178-211 | whatever its reads do, the manager gets the request as meant and an append's content byte for byte, and stands right behind them, if its reads come to an end; they do when enough bytes come and calls are made |
| Messages.ReplyRoundTrip | includes/API.c:72-90 | the client sees the status and exactly the evicted paths in order, if and only if each is not empty and has no comma |
| Messages.NoticeIsListing | includes/file_storage.c:98-100 | what the eviction writes to rm_path is the comma list of the evicted paths, oldest first |
| Messages.KnownReplies | includes/util_server.c:207-217 | the text of a reply with two evicted paths, of one with none, of the two statuses and of a file header |
| Reports.RunIsPlain | includes/util_server.c:169-186 | in every run of requests off the wire no stored path is empty or has a comma, since paths are tokens |
| Reports.LostIsMissing | includes/util_server.c:309-364 | the paths an open or append is said to lose are exactly those it leaves no longer stored |
| Reports.LostOldestFirst | includes/file_storage.c:98-100 | they stand for stored files from the oldest on |
| Reports.ReportIsComplete | includes/util_server.c:343-351 | the client reads the status, and exactly the files its request made the server remove, oldest first, unless the request is an append by the file's holder that is larger than the store, or one that all evictable files leave short and there are any: this is told from the store before the request, and exact |
| Reports.SilentAsWritten | includes/file_storage.c:203-235 | as written only the first of these returns; a holder's append that returns succeeds exactly when it is not too large |
| Reports.TooLargeIsSilent | includes/util_server.c:338-340 | as written, two requests from the empty store after which a file is gone and its client is told of a failure only |
| Reports.NoRoomIsSilent | includes/util_server.c:338-340 | with the eviction repaired, a run after which an append that fails for want of room has cost another client's file and says nothing of it; as written it never returns |
| Reports.RunReports | includes/util_server.c:188-201 | the same after every run of requests off the wire, with the count of removed files |
| Messages.ReadNFiles | includes/API.c:122-154 | whatever its reads do, the client of readNFiles has a prefix of the files sent, and when its reads come to an end all of them, byte for byte, with the status, and stands right behind them |
| WeekDates.DaysBeforeNext | SupportTestDirectory/yo/FIGC_files/moment.js:771-777 | the Gregorian day count grows by daysInYear from each year to the next, leap years included |
| WeekDates.WeekdayIsDetermined | SupportTestDirectory/yo/FIGC_files/moment.js:1165-1172 | the weekday used is the only one that goes on by one from day to day, over every month and year, and has a Thursday on 1 January 1970 |
| WeekDates.KnownWeeks | SupportTestDirectory/yo/FIGC_files/moment.js:1198-1218 | Sunday 7 January 2024 is in ISO week 1 of 2024, which begins with the year; 31 December 2024 is in week 1 of 2025 |
| WeekDates.StartOfWeekYear | SupportTestDirectory/yo/FIGC_files/moment.js:1165-1172 | Jan 1 plus firstWeekOffset is the only day of weekday dow whose week holds the January day of the rule |
| WeekDates.WeeksInYear | SupportTestDirectory/yo/FIGC_files/moment.js:1220-1224 | the division is exact and the result is 52 or 53, for every year and rule |
| WeekDates.WeekHoldsDate | SupportTestDirectory/yo/FIGC_files/moment.js:1198-1218 | weekOfYear names the week, of this or a neighbouring year, that the date lies in |
| WeekDates.WeekIsUnique | SupportTestDirectory/yo/FIGC_files/moment.js:1198-1218 | no day is in two weeks, of one year or of two |
| WeekDates.DateInWeek | SupportTestDirectory/yo/FIGC_files/moment.js:1175-1196 | dayOfYearFromWeeks gives the date that many weeks into the year, on the weekday asked for, across both year boundaries |
| WeekDates.WeekRoundTrip | SupportTestDirectory/yo/FIGC_files/moment.js:1175-1218 | week to date and back is the same week if and only if the year has that week |
| WeekDates.DateRoundTrip | SupportTestDirectory/yo/FIGC_files/moment.js:1175-1218 | date to week and back is the same date, for every date |
| WeekDates.IsoLongYear | SupportTestDirectory/yo/FIGC_files/moment.js:1220-1224 | for weeks of ISO 8601:2004, section 4.1.4, a year has 53 weeks if and only if it begins on a Thursday, or on a Wednesday and is a leap year |
| WeekDates.LongYearsIn400 | SupportTestDirectory/yo/FIGC_files/moment.js:1220-1224 | under every rule any 400 consecutive years have 71 long ones |
| Durations.MonthsRoundTrip | SupportTestDirectory/yo/FIGC_files/moment.js:4157-4166 | daysToMonths undoes monthsToDays, rounded as bubble rounds them |
| Durations.FourCenturies | SupportTestDirectory/yo/FIGC_files/moment.js:4157-4166 | the two constants are the days and the months of any 400 years in a row, and turn into each other without rest |
| Durations.DaysLeft | SupportTestDirectory/yo/FIGC_files/moment.js:4141-4144 | whole months leave at most 30 days, with the sign of the days |
| Durations.LevelledConserves | SupportTestDirectory/yo/FIGC_files/moment.js:4117-4124 | bubbling mixed signs down is exact without months, and with them less than a day off, away from zero |
| Durations.ShownIsNormal | SupportTestDirectory/yo/FIGC_files/moment.js:4126-4152 | all fields have one sign and are in range |
| Durations.ShownConserves | SupportTestDirectory/yo/FIGC_files/moment.js:4126-4152 | the fields are worth the milliseconds, days and months they were made from |
| Durations.OnlyShown | SupportTestDirectory/yo/FIGC_files/moment.js:4126-4152 | fields of one sign and in range are worth those amounts if and only if they are the ones shown |
| Durations.ShownOpposite | SupportTestDirectory/yo/FIGC_files/moment.js:255-262 | the opposite duration shows the opposite fields |
| Durations.NormalIsShown | SupportTestDirectory/yo/FIGC_files/moment.js:2733-2768 | a duration built from the fields another one shows looks the same |
| Durations.UnitsAreWorth | SupportTestDirectory/yo/FIGC_files/moment.js:2733-2768 | a duration shows the same whatever units it was given in: a quarter is 3 months, a week 7 days, and so on down to milliseconds |
| Durations.Duration.constructor | SupportTestDirectory/yo/FIGC_files/moment.js:2733-2768 | the parts are summed and then shown |
| Durations.Duration.Bubble | SupportTestDirectory/yo/FIGC_files/moment.js:4110-4155 | the step by step division leaves in the fields what is left of each unit |
| Durations.Duration.Add | SupportTestDirectory/yo/FIGC_files/moment.js:4082-4090 | the amounts are added and the fields follow |
| Durations.AddSubtract | SupportTestDirectory/yo/FIGC_files/moment.js:4082-4090 | subtracting what was added shows what was shown before |

## Left out

- Sockets, pipes, select, signals, creating and joining threads, failing allocation, logging and printing: they appear only as byte streams, lists of call results, the ready set and atomic steps.
- The pointer list under interleaving: Workers has file identities in list order, and cursors are identities. There a removal unlinks properly and an append's cursor moves to the father, as in the repaired code.
- A freed node's address handed out again by malloc: an identity is never used twice, so a stale cursor is always told from a live one.
- The polls up to TIMER with sleeps between them: in Workers a waiting request may give up at any step; one request at a time, a wait for another client cannot succeed, so it is a refusal.
- Wake-up and progress of waiting workers: the flags and the broadcast are not under the queue's lock, so only safety is stated.
- FileStorage.Storage.TrimEnd: the endless turning of the append's loop is watched for a given number of turns, any number of them.
- The statistic max_nfile: it is brought up to date after appends only and no promise is made about it.
- Clients that vanish in the middle of a message, negative sizes, sizes beyond a C int, unknown request numbers and flags.
- client.c, includes/util_client.c and includes/configuration.c: options, directory walks and defaults, which would add easy members.
- WeekDates.StartOfWeekYear: the native Date is replaced by a Gregorian day count, so its limits on years are not modelled.
- Durations.Duration.Bubble: amounts are whole numbers and arithmetic is exact; rounding of floating point is not modelled.
- The rest of moment.js: locales, parsing, formatting, time zones.
- The other files under SupportTestDirectory: sample data for clients to send.
