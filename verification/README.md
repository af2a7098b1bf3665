# Message delivery and state keeping, modelled and proved

The model covers the parts of the server that deliver messages and keep state under concurrency:

- promises and their manager (`PromiseLifecycle`, `PromiseManagement`),
- the terminal auditor (`Auditor`),
- the edit lock and the subscription index of the config center (`EditLock`, `PushEngine`),
- the message dispatchers and their hash (`Dispatcher`, `DispatcherObjects`, `QueueShares`, `Hashing`),
- the WebSocket hub (`WsHub`),
- batch jobs (`BatchJob`) and the command table (`CommandTable`),
- multicast commands (`Multicast`, `MulticastReports`, `MulticastResults`, `MulticastObjects`),
- the file-transfer frames and their stream (`Bytes`, `Frames`, `FrameCodec`, `FrameStream`),
- upload sessions and the storage quota (`Upload`, `Quota`).

Concurrency is modelled by total step functions over atomic events: a critical section, an operation on a
concurrent map, an atomic counter or a channel, one SQL statement. An event that is not enabled changes
nothing, so every sequence of events is an interleaving, and a theorem about `Run(Step, start, es)` for all
`es` is one about all runs (`Runs` has the two induction principles). The objects that update their fields
in place are classes; their methods are proved to perform exactly those steps, or to compute the functions
the steps are made of. Fields called history or ghost record what a run did and no step decides by them.
`Counting` counts the elements of a sequence that satisfy a predicate; `Basics` has bytes, options and division.

Clocks, randomness, the hash function, handler results, what a write manages to store and how a network
attempt ends are parameters of events and methods. Tables are maps or sequences with their unique indexes.

Where the code and its comments or its promise differ, the code is followed:

- The format comments of the frames describe a layout that the encoders do not produce. They write each
  fixed-width field behind the end of the slice, where the next append overwrites it. `Frames` proves the
  round trips of the documented layout, `FrameCodec` that the output of the encoders as written never
  decodes to the frame, for any frame.
- The ESC-backslash end of an OSC sequence is recognised in isEscapeSequenceComplete, but an ESC restarts
  the buffer first, so it never is what ends one (`Auditor.OscNeverEndsAtBackslash`). Control sequences are
  those of section 5.4 of ECMA-48 with only letters and `~` as final bytes and a cap on their length.
- The dates stored in a lock row begin before its checks. Mutual exclusion holds for the time from insert to
  expiry or removal. For the stored intervals it holds exactly when no lock was valid as the call began and
  nobody else held the config before its insert (`EditLock.ClearOfEarlierIff`, `EditLock.ClearOfAllIff`).
- The keys of the subscription index are rebuilt after every run exactly when no client may use two
  namespaces (`PushEngine.RebuiltIffOneNamespace`). The names in its entries are then rebuilt after every run
  over given namespaces and groups exactly when no group has a colon and no namespace goes on where another
  one and a group end, as `a:b` does after `a` and `b` (`PushEngine.NamesRebuiltIff`).
- Round-robin tickets are unfair across the wrap of the counter unless the number of queues is a power of two
  (`QueueShares.AlwaysFairIff`).
- A multicast report made after a cancellation may count a client twice: the counts always add up only for
  at most one client (`MulticastReports.ReportsAddUpIff`).
- A job cancelled while pending runs all the same (`BatchJob.PendingCancelIsUndone`).
- Completing an upload does not compare committed with the file size (`Upload.PassesOutOfPlace`), and a write
  that fails half-way leaves bytes that the streaming checksum has not seen (`Upload.ChecksumAgreesIff`).
- The quota does not bound the anonymous user, and content once deleted cannot be stored again
  (`Quota.QuotaHoldsIff`, `Quota.DeletedHashNeverReturns`).

`dafny verify dfyconfig.toml` checks the whole project.

## Model

| member | source | states |
|---|---|---|
| `Auditor.ChunkingDoesNotMatter` | pkg/audit/auditor.go:64-123 | Main result. However a byte stream is cut into RecordInput calls, the commands saved are those of the multi-pass reading of the whole stream: strip escape sequences, cut at CR or LF, edit each line, trim, drop empty lines and bare prompts |
| `Auditor.SavedAreTrimmedLines` | pkg/audit/auditor.go:88-98 | For every stream, however it is cut, the commands saved are, in order, the edited lines without the white space at their two ends, but for those of which nothing or a bare prompt is left; white space and prompts are given as bytes |
| `Auditor.TrimCutsWhite` | pkg/audit/auditor.go:188-189 | Trimming gives a slice of the string: all that is cut off at either end is white space, and what is left neither begins nor ends with any |
| `Auditor.TrimmedIsUnique` | pkg/audit/auditor.go:188-189 | Only one string is what trimming may give |
| `Auditor.OnePassIsMultiPass` | pkg/audit/auditor.go:64-123 | The one-pass automaton with two buffers saves exactly what the independent multi-pass definition computes, for every byte stream |
| `Auditor.SessionAuditor.RecordInput` | pkg/audit/auditor.go:64-123 | The loop over the bytes, with its in-place buffers, is the fold of the automaton the theorems are about, from any earlier state |
| `Auditor.ReachableStates` | pkg/audit/auditor.go:64-175 | In every run the input buffer holds printable ASCII only, and the escape buffer is empty or an unfinished sequence of bounded length whose only ESC is its first byte |
| `Auditor.OscNeverEndsAtBackslash` | pkg/audit/auditor.go:149-159 | In every run the ESC-backslash test is dead: the byte that ends an OSC sequence is BEL or the one beyond 256 bytes |
| `Auditor.EscapesAsNamed` | pkg/audit/auditor.go:69-86 | In every run, which bytes begin, continue and end an escape sequence of each kind, byte value by byte value |
| `Auditor.CleanIsTrim` | pkg/audit/auditor.go:178-189 | On every buffer that can be reached, none of the regular expressions of cleanCommand matches: cleaning is trimming |
| `Auditor.TrimIdempotent` | pkg/audit/auditor.go:178-202 | Trimming twice is trimming once, so isPromptOnly sees the command as it will be saved |
| `Auditor.StripThenEdit` | pkg/audit/auditor.go:64-123 | Reading a stream with its escape sequences is editing the stream from which they have been stripped, from any state between sequences |
| `Auditor.EditIsUnwind` | pkg/audit/auditor.go:100-121 | What Backspace, Ctrl+C and Ctrl+U leave of a line is what a right-to-left reading with a count of pending backspaces finds |
| `Auditor.EditSavesCommands` | pkg/audit/auditor.go:88-121 | The line editor appends exactly the commands of the lines completed by CR or LF, in order |
| `Auditor.KeysAsNamed` | pkg/audit/auditor.go:88-121 | CR and LF save the trimmed line, Backspace and Delete take back the last character, Ctrl+C and Ctrl+U the line, and other control characters do nothing, with every key given as its byte |
| `PromiseLifecycle.AnsweredExactlyOnce` | pkg/callback/promise.go:40-140 | In every interleaving of completions, failures, timers and removals a promise has at most one answer, none is dropped, and until it is answered its timer is armed or its callback in flight |
| `PromiseLifecycle.AnswerIsFinal` | pkg/callback/promise.go:61-140 | Whatever happens after a promise was answered, it keeps that one answer |
| `PromiseLifecycle.FirstAnswerWins` | pkg/callback/promise.go:61-87 | In every run the first Complete or Fail that finds an unanswered promise gives it its own response, which it keeps in every continuation, and stops its timer; on an answered one they change nothing |
| `PromiseLifecycle.TimeoutAnswers` | pkg/callback/promise.go:90-111 | In every run the end of the timer callback gives an unanswered promise the timeout response, which it keeps in every continuation, and leaves an answered one with the answer it has |
| `PromiseLifecycle.WaiterReceives` | pkg/callback/promise.go:77-81 | In every run the waiter of an answered promise takes its answer from the channel, once |
| `PromiseLifecycle.TimerAlwaysAnswers` | pkg/callback/promise.go:49-111 | From every reachable state the three steps of a promise's own timer leave it with exactly one answer, the timeout if it had none |
| `PromiseLifecycle.UncompletedStaysFindable` | pkg/callback/manager.go:130-249 | While nobody outside the manager calls Remove for its id, a stored promise without an answer is in the map or its timer callback is in flight |
| `PromiseLifecycle.AnsweredIsScheduled` | pkg/callback/manager.go:177-281 | In every run an answered promise has left the map, or its removal is queued, pending, or under way: none is left behind |
| `PromiseLifecycle.CapacityBound` | pkg/callback/manager.go:130-174 | At every step the map has count plus the promises stored and not counted minus those deleted and not uncounted, and with at most n creators in flight neither exceeds maxCapacity + n - 1 |
| `PromiseLifecycle.BoundIsReached` | pkg/callback/manager.go:130-156 | For every capacity and every n that bound is reached by a run |
| `PromiseLifecycle.LoweredOnce` | pkg/callback/manager.go:169-327 | However many removal paths hit a promise, count has been lowered for it once if it has left the map and no Remove stands between its two operations, and otherwise not at all |
| `PromiseLifecycle.DueOrKept` | pkg/callback/manager.go:268-281 | Every pending removal whose time has come is handed on and every other is kept, never both lost |
| `PromiseLifecycle.KeptInOrder` | pkg/callback/manager.go:268-281 | Removals not yet due keep their order, each judged by its own time |
| `PromiseManagement.PromiseObject.Complete` | pkg/callback/promise.go:61-87 | Only the first answer wins: the winner stops an armed timer, and the response channel then holds the acknowledgement it was called with |
| `PromiseManagement.PromiseObject.Fail` | pkg/callback/promise.go:114-140 | As Complete, with the error it was called with in the response channel |
| `PromiseManagement.PromiseObject.Timeout` | pkg/callback/promise.go:90-111 | The end of the timer callback puts the timeout response into the channel of an unanswered promise and leaves an answered one alone |
| `PromiseManagement.PromiseManager.constructor` | pkg/callback/manager.go:68-102 | A capacity that is not positive becomes 50000 |
| `PromiseManagement.PromiseManager.Create` | pkg/callback/manager.go:130-156 | Refuses exactly when count has reached capacity, changing nothing; otherwise a new promise is stored and counted, and the map grows with count if and only if the id was not in it |
| `PromiseManagement.PromiseManager.Remove` | pkg/callback/manager.go:169-174 | Called by the manager or from outside, for any id, it deletes and uncounts the promise together, or does neither |
| `PromiseManagement.PromiseManager.Complete` | pkg/callback/manager.go:177-203 | Reports unknown and already answered promises; only the winning call schedules the removal, or removes at once when the 1000-slot channel is full |
| `PromiseManagement.PromiseManager.Fail` | pkg/callback/manager.go:206-228 | As Complete, with the error |
| `PromiseManagement.PromiseManager.OnTimeout` | pkg/callback/manager.go:231-249 | The callback schedules the removal before the promise is answered, or removes at once when the 1000-slot channel is full |
| `PromiseManagement.PromiseManager.Tick` | pkg/callback/manager.go:268-281 | The in-place compaction of pending is a filter: what is not due stays in order, exactly the ids that are due leave the map, the rest of the slice is untouched |
| `PromiseManagement.PromiseManager.Cleanup` | pkg/callback/manager.go:307-327 | Exactly the answered promises leave the map, and count falls by their number |
| `EditLock.LeasesAreDisjoint` | pkg/configcenter/store.go:687-753 | In every interleaving of acquires, releases and clean-ups no two leases on one config are in force at once, and a lease its own session did not release has expired before the next begins, though check, delete and create are separate statements |
| `EditLock.RemovedEarlyOnlyByOwner` | pkg/configcenter/store.go:687-753 | A lock row leaves the table at or before its expiry only through a release with its own session id |
| `EditLock.AcquireAlone` | pkg/configcenter/store.go:687-726 | In the same machine an acquire that is left alone gets the lock exactly when the config has none still valid when it looks, and then the row is its own |
| `EditLock.ClearOfEarlierIff` | pkg/configcenter/store.go:688-718 | The stored dates promise less. However a run goes on from the beginning of a call, the interval stored in the lock it wins is disjoint from those of all locks that were there, if and only if none was valid when the call began (or it asks for no time) |
| `EditLock.ClearOfAllIff` | pkg/configcenter/store.go:688-718 | If none was valid then, it is disjoint from those of all locks before it if and only if nobody else held the config between the beginning of the call and its insert |
| `EditLock.StoredDisjointIff` | pkg/configcenter/store.go:688-718 | The stored intervals of two locks on one config, both ever in force, are disjoint if and only if the first was over when the call for the second began |
| `EditLock.EditLockStore.AcquireEditLock` | pkg/configcenter/store.go:687-726 | The five statements in sequence, with three clock readings: success exactly when no lock is still valid at the last one, and the whole table afterwards |
| `EditLock.EditLockStore.ReleaseEditLock` | pkg/configcenter/store.go:729-733 | The lock of the config goes if and only if it is held by this session, and no other lock is touched |
| `EditLock.ShownLockIsOpen` | pkg/configcenter/store.go:736-745 | In every run the row GetEditLock shows for a config is that of its one lease that has not lost its row, and it shows none exactly when there is no such lease |
| `EditLock.EditLockStore.CleanupExpiredLocks` | pkg/configcenter/store.go:748-753 | Every lock that expired before now goes, no other does, and the number returned is how many those were |
| `EditLock.RemovalsAreExact` | pkg/configcenter/store.go:729-753 | In every run a release takes exactly the lock of its config, and only when its own session holds it, and a clean-up exactly the locks that had expired by its reading of the clock |
| `EditLock.ReleaseEndsLease` | pkg/configcenter/store.go:729-733 | In every run a release by the session that holds the lock ends its open lease then and there |
| `WsHub.ReceivesPrefix` | pkg/api/task_ws_api.go:70-99 | In every run what a client has taken and still has queued is a prefix, without gaps, of the broadcasts since it registered, and all of them while it is a member |
| `WsHub.NoPanic` | pkg/api/task_ws_api.go:70-99 | In every run no send channel is closed twice and the hub never sends on a closed one |
| `WsHub.DroppedOnlyWhenFull` | pkg/api/task_ws_api.go:85-96 | A broadcast drops a member exactly when its 256-slot buffer is full, and what that member is handed stops just before the message |
| `WsHub.NothingAfterLeaving` | pkg/api/task_ws_api.go:70-99 | After it has left the hub a client is handed nothing more and never becomes a member again |
| `WsHub.ComingAndGoing` | pkg/api/task_ws_api.go:70-99 | In every run a client that registers is a member from the next broadcast on, one that unregisters is out with its channel closed, and a write pump takes what was queued first |
| `WsHub.WSHub.Broadcast` | pkg/api/task_ws_api.go:85-96 | The loop over the map hands the message to every member with room, whatever the order, and drops exactly the members whose 256 slots are full |
| `WsHub.WSHub.Register` | pkg/api/task_ws_api.go:73-76 | Adds the client to the hub with an empty queue, changing no other |
| `WsHub.WSHub.Unregister` | pkg/api/task_ws_api.go:78-84 | Removes a member and closes its channel, changing no other; a client that has been dropped already is left alone |
| `PushEngine.RebuildsRelation` | pkg/configcenter/push_engine.go:137-261 | After any run of Subscribe and Unsubscribe in which each client keeps to one namespace and namespaces and groups have no colon, LoadSubscribers into a fresh engine rebuilds exactly the relation of clients to configs |
| `PushEngine.RebuildsIndex` | pkg/configcenter/push_engine.go:491-536 | Key by key the same holds for any names at all, also with colons in namespaces and groups |
| `PushEngine.SubscribedIffLive` | pkg/configcenter/push_engine.go:137-261 | After any run, with any names, a client is subscribed to a key if and only if its last operation on that key, calls without a session apart, was a Subscribe |
| `PushEngine.ListedIffLast` | pkg/configcenter/push_engine.go:168-252 | After any run, with any names and namespaces, the store lists an item for a client if and only if the client's last operation on it was a Subscribe, calls without a session and Unsubscribe calls on keys without an entry apart, in one row per client, under the namespace of its last subscription |
| `PushEngine.ListedIffLive` | pkg/configcenter/push_engine.go:168-252 | If each client keeps to one namespace, the same holds of what its row in the store lists, and a client has a row, and only one, exactly while it is subscribed to something |
| `PushEngine.RebuildsLive` | pkg/configcenter/push_engine.go:491-536 | So a fresh engine subscribes, after loading, exactly the clients whose last operation on a key was a Subscribe |
| `PushEngine.ListKeyRoundTrip` | pkg/configcenter/push_engine.go:544-552 | A stored group and dataId parse back if and only if the group has no colon; the dataId may have any |
| `PushEngine.KeyDetermines` | pkg/configcenter/push_engine.go:539-541 | Over namespaces and groups of that kind a subscription key determines all three names |
| `PushEngine.KeyInjective` | pkg/configcenter/push_engine.go:539-541 | In particular with colon-free namespaces and groups |
| `PushEngine.RebuiltIffOneNamespace` | pkg/configcenter/push_engine.go:168-195 | For any allowance of namespaces to clients, every run within it is rebuilt if and only if no client is allowed two |
| `PushEngine.TwoNamespacesBreakRebuild` | pkg/configcenter/push_engine.go:168-195 | Any client that subscribes in any two namespaces is rebuilt with one subscription it never made and without one it has |
| `PushEngine.NamesRebuiltIff` | pkg/configcenter/push_engine.go:502-516 | For any set of namespaces and any set of groups, every run over them, each client keeping to one namespace, is rebuilt with its names if and only if no group has a colon and no namespace goes on where another namespace and a group end |
| `PushEngine.SwallowingChangesNames` | pkg/configcenter/push_engine.go:502-516 | Where a namespace does, two clients have configs under one key, and the names rebuilt depend on the order in which the rows are listed |
| `PushEngine.ColonInGroupChangesNames` | pkg/configcenter/push_engine.go:502-516 | Any subscription to any group with a colon is rebuilt under other names |
| `PushEngine.ParseSubscriptionKey` | pkg/configcenter/push_engine.go:544-552 | The scanning loop splits at the first colon |
| `PushEngine.Engine.Subscribe` | pkg/configcenter/push_engine.go:137-213 | The entry is made before the session is looked up; with a session the client is added to that entry and to no other, and its one row gains the item unless it has it |
| `PushEngine.Engine.Unsubscribe` | pkg/configcenter/push_engine.go:216-261 | Nothing happens without an entry; otherwise that client leaves that entry, and no other does, and the item leaves its row, which is deleted when its list becomes empty |
| `PushEngine.Engine.LoadSubscribers` | pkg/configcenter/push_engine.go:491-536 | The two nested loops build the index that the listed rows describe |
| `Frames.RoundTrip` | pkg/filetransfer/protocol.go:63-619 | For all frames of the six kinds and any trailing bytes, the documented layout decodes to the frame if and only if its fields fit their widths |
| `Frames.AcceptedIsEncoded` | pkg/filetransfer/protocol.go:357-619 | Accepted Data, Ack, Complete, Error and Progress bytes begin with the layout of what was decoded |
| `Frames.InitAccepted` | pkg/filetransfer/protocol.go:90-166 | Accepted Init bytes are the layout of the decoded frame up to its options, which are whatever the lenient reading finds |
| `Frames.OptionsAreLenient` | pkg/filetransfer/protocol.go:145-153 | The options of an init frame are left at their defaults when they are absent, empty or cut short |
| `Frames.DecodedFits` | pkg/filetransfer/protocol.go:90-619 | Whatever any decoder accepts fits the field widths |
| `Frames.StrictRoundTrip` | pkg/filetransfer/protocol.go:385-619 | The five strict decoders read a laid-out frame back and stop exactly at its end |
| `Frames.LayoutIsFormat` | pkg/filetransfer/protocol.go:64-346 | The layout of every frame is the documented format: its type byte, its numbers and its texts behind their lengths, piece by piece in that order |
| `Bytes.Spellings` | pkg/filetransfer/protocol.go:74-84 | Each number field is big-endian in two, four or eight bytes and cut off at its width, a negative one in two's complement |
| `Frames.CutShortFails` | pkg/filetransfer/protocol.go:357-619 | A frame other than an init frame decodes from no cut: every proper prefix of its layout is refused |
| `FrameCodec.DecodeFrame` | pkg/filetransfer/protocol.go:357-383 | The dispatch on the type byte and all decoders, moving an offset, agree with the parser the theorems are about |
| `FrameCodec.DecodeInitFrame` | pkg/filetransfer/protocol.go:90-166 | The init decoder, with its lenient options |
| `FrameCodec.DecodeDataFrame` | pkg/filetransfer/protocol.go:385-435 | The data decoder accepts and returns what the parser does |
| `FrameCodec.DecodeAckFrame` | pkg/filetransfer/protocol.go:437-479 | The ack decoder accepts and returns what the parser does |
| `FrameCodec.DecodeCompleteFrame` | pkg/filetransfer/protocol.go:481-525 | The complete decoder accepts and returns what the parser does |
| `FrameCodec.DecodeErrorFrame` | pkg/filetransfer/protocol.go:527-566 | The error decoder accepts and returns what the parser does |
| `FrameCodec.DecodeProgressFrame` | pkg/filetransfer/protocol.go:568-619 | The progress decoder accepts and returns what the parser does |
| `FrameCodec.Buffer.PutUint` | pkg/filetransfer/protocol.go:75-84 | A fixed-width field is written behind the end of the slice, and leaves the contents of the slice as they were |
| `FrameCodec.Encode` | pkg/filetransfer/protocol.go:63-346 | The encoders as written stay within the capacity they reserve and return the bytes that LiteralHasNoNumbers describes |
| `FrameCodec.LiteralHasNoNumbers` | pkg/filetransfer/protocol.go:63-346 | What they return is the documented format with every number missing, the lengths included, and the type byte and the texts in their order |
| `FrameCodec.LiteralNeverDecodes` | pkg/filetransfer/protocol.go:63-346 | No frame of any kind survives the encoders as written: their output never decodes to it |
| `FrameCodec.LayoutLength` | pkg/filetransfer/protocol.go:63-346 | The totalLen sums are the lengths of the documented layout |
| `FrameStream.StreamRoundTrip` | pkg/filetransfer/protocol.go:631-682 | Any sequence of laid-out frames on a length-prefixed stream is read back as it was, and what follows it is left untouched |
| `FrameStream.CutShortIsEof` | pkg/filetransfer/protocol.go:662-682 | A message cut short anywhere, even within its length, is reported as the end of the stream |
| `FrameStream.StreamParsesUniquely` | pkg/filetransfer/protocol.go:631-682 | A byte stream is the writing of at most one sequence of frames |
| `FrameStream.LiteralStreamNeverRoundTrips` | pkg/filetransfer/protocol.go:631-682 | With the encoders as written the reader never gets back the frame the writer was given |
| `FrameStream.FrameWriter.WriteFrame` | pkg/filetransfer/protocol.go:631-650 | Appends the 32-bit length and the encoded bytes |
| `FrameStream.FrameReader.ReadFrame` | pkg/filetransfer/protocol.go:662-682 | Consumes exactly one message and decodes exactly its bytes, or reports the end of a stream shorter than the length and the message it announces |
| `Dispatcher.ExactlyOnePlace` | pkg/dispatcher/multi_queue.go:161-254 | In every run an accepted task is in exactly one place of its own queue, waiting, in one worker's hand or processed, once; a task not accepted is nowhere |
| `Dispatcher.SameMessageInOrder` | pkg/dispatcher/multi_queue.go:189-254 | Tasks with one message id sent by hash share a queue, are taken in the order of acceptance, and are processed in that order when the queue has one worker |
| `Dispatcher.RoutesInFull` | pkg/dispatcher/multi_queue.go:161-200 | In every run a task sent by hash is on the queue of the FNV hash of its message id modulo the number of queues, and one sent by ticket on the queue of its 64-bit ticket modulo that number |
| `Dispatcher.OneResponseEach` | pkg/dispatcher/dispatcher.go:220-281 | In every run a processed task has been handled exactly once, with its own message, and has sent exactly one response, the outcome of that handling, which the full-channel branch did not drop; an unprocessed task has sent none |
| `Dispatcher.OutcomeIsTheHandlers` | pkg/dispatcher/dispatcher.go:220-265 | When no handler is registered or removed during a run, the response of a processed task is what the handler of its message's type makes of that message; when the type has none, what the default handler makes of it; and without either an error |
| `Dispatcher.LatestHandlerIsFound` | pkg/dispatcher/multi_queue.go:120-131 | In every run, registrations and removals included, a worker finds the handler registered last for the type of its message, else the default handler |
| `Dispatcher.QuietIsDone` | pkg/dispatcher/dispatcher.go:202-217 | When no task waits and no worker is busy, every accepted task has been processed |
| `Dispatcher.CallsSpreadEvenly` | pkg/dispatcher/multi_queue.go:161-174 | In every run, of any round-robin calls in a row over which the counter does not wrap, each queue was given the floor or the ceiling of its even share |
| `Dispatcher.HeldTask` | pkg/dispatcher/multi_queue.go:233-254 | In every reachable state a task in a worker's hand was accepted by that worker's queue and has not been processed |
| `DispatcherObjects.MultiQueueDispatcher.ChooseQueue` | pkg/dispatcher/multi_queue.go:161-200 | The wrapping 64-bit ticket counter and the hash choose the queue the machine records for the task |
| `DispatcherObjects.MultiQueueDispatcher.TrySend` | pkg/dispatcher/multi_queue.go:176-184 | The send succeeds exactly when the queue has room, puts the task last, and changes no other queue |
| `DispatcherObjects.MultiQueueDispatcher.WorkerTakes` | pkg/dispatcher/multi_queue.go:243-252 | A worker receives the oldest task of its queue |
| `DispatcherObjects.MultiQueueDispatcher.FindHandler` | pkg/dispatcher/dispatcher.go:254-265 | The worker handles the task in its hand with the handler registered for the type of that task's message, and with the default handler, if any, exactly when the type has none |
| `DispatcherObjects.MultiQueueDispatcher.ProcessTask` | pkg/dispatcher/dispatcher.go:220-281 | In a reachable state the task's channel afterwards holds exactly what the handler made of that task's message, or an error without a handler: the send never meets a full channel |
| `DispatcherObjects.ResponseChannel.SendResponse` | pkg/dispatcher/dispatcher.go:268-281 | A response is stored in an empty one-slot channel and dropped by a full one |
| `DispatcherObjects.BatchReady` | pkg/dispatcher/dispatcher.go:317-355 | After any run in which the messages of a batch were offered and processed, they are different tasks, and each of their channels holds one response, the outcome for that very message, so collecting never waits |
| `DispatcherObjects.DispatchBatchSync` | pkg/dispatcher/dispatcher.go:317-360 | After any such run, slot i of the result is what the handler registered for the type of message i, or else the default one, made of it, the response only next to no error; the two counts are those of the nil and the non-nil error slots and add up to the length of the batch |
| `Hashing.ComputeFnvHash` | pkg/dispatcher/multi_queue.go:373-380 | The loop computes the hash as a fold over the bytes, with 32-bit wrap-around |
| `Hashing.KnownHashes` | pkg/dispatcher/multi_queue.go:373-380 | The hashes of the empty string and of the letter a are the published FNV-1a values of 32 bits |
| `Hashing.OneByteApart` | pkg/dispatcher/multi_queue.go:373-380 | Two message ids of one length that differ in exactly one byte never have the same hash |
| `QueueShares.NewQueues` | pkg/dispatcher/multi_queue.go:53-118 | For every configuration, after clamping, each queue has a worker, the worker counts differ by at most one and add up to WorkerCount, and the capacities add up to more than TaskQueueSize and at most TaskQueueSize plus the number of queues |
| `QueueShares.FairBetweenWraps` | pkg/dispatcher/multi_queue.go:172-174 | Any window of consecutive tickets in which the counter does not wrap gives every queue the floor or the ceiling of its even share |
| `QueueShares.AlwaysFairIff` | pkg/dispatcher/multi_queue.go:172-174 | Every window is fair, also across the wrap, if and only if the number of queues divides 2^64 |
| `QueueShares.FairQueueCounts` | pkg/dispatcher/multi_queue.go:78-88 | Of the queue counts the constructor can produce, those are the powers of two up to 32 |
| `BatchJob.CountersAddUp` | pkg/batch/executor.go:224-399 | In every run Success + Failed + Pending is Total plus the tasks between their two counter updates, and no more than MaxConcurrency tasks hold a slot |
| `BatchJob.EndedJobIsExact` | pkg/batch/executor.go:224-275 | A job that ended Completed or Failed has run every target exactly once with nothing pending, its counters are the numbers of targets that succeeded and failed, and it is Failed exactly when nothing succeeded |
| `BatchJob.UndisturbedEnd` | pkg/batch/executor.go:224-275 | A job neither cancelled nor timed out ends Completed exactly when some target succeeded, otherwise Failed, and never Cancelled |
| `BatchJob.TerminalStays` | pkg/batch/executor.go:224-446 | Once executeJob has set Running, a terminal status never changes |
| `BatchJob.PendingCancelIsUndone` | pkg/batch/executor.go:224-228 | A cancellation is undone exactly by executeJob starting on a job cancelled while pending |
| `BatchJob.CancelTakesEffect` | pkg/batch/executor.go:433-446 | In every run a cancellation makes a pending or running job Cancelled and leaves any other as it is |
| `BatchJob.Job.constructor` | pkg/batch/executor.go:170-183 | A new job is Pending with every target pending |
| `BatchJob.Job.Begin` | pkg/batch/executor.go:224-228 | The start sets Running whatever the status was |
| `BatchJob.Job.Abandon` | pkg/batch/executor.go:244-251 | A loop that finds its context done sets Cancelled whatever the status was, and starts no further target |
| `BatchJob.Job.End` | pkg/batch/executor.go:261-275 | The final status follows from the counters only if the job is still Running |
| `BatchJob.Job.Cancel` | pkg/batch/executor.go:433-446 | Cancels, and reports it, exactly when the job is pending or running |
| `BatchJob.Job.ExecuteTask` | pkg/batch/executor.go:304-399 | The retry loop stops at the first attempt that is no retry, or at an interrupted wait, or after MaxRetries; what replies succeed and what error is kept are stated reply by reply, and one target moves from pending to the counter of its result and to no other |
| `Multicast.FailedNeverNegative` | pkg/command/manager.go:353-522 | In every interleaving of senders and cancellation successCount + cancelledCount is at most the number of clients, so the failed count computed from two separate reads is never negative |
| `Multicast.WaitedReportIsExact` | pkg/command/manager.go:429-551 | A report made after waiting has every client's own result in its slot, counts exactly the Completed ones as successes, and its three counts add up to the total |
| `Multicast.UncancelledReportIsExact` | pkg/command/manager.go:429-551 | In a run without a cancellation every report waited: slot k is the result of client k, the success count is the number of Completed results, and the counts add up to the total |
| `MulticastResults.ResultIsTheEnding` | pkg/command/manager.go:459-513 | In every run the result a sender stores is what became of its command: Failed for a failed send, Cancelled when the task was cancelled by then, else the status found in the table, else Timeout |
| `MulticastResults.CheckDecides` | pkg/command/manager.go:439-458 | In every run a sender that finds the task cancelled at its first check stores Cancelled for its client, for ever, and any other goes on to send |
| `MulticastResults.NotStartedIsCancelled` | pkg/command/manager.go:412-433 | In every run in which the main goroutine gave up, the task was cancelled, and each client not started has a Cancelled result under its own name |
| `MulticastReports.ReportsAddUpIff` | pkg/command/manager.go:414-531 | The counts of every report, whatever the interleaving, add up to the total if and only if there is at most one client |
| `Multicast.ReportNeverUndercounts` | pkg/command/manager.go:518-531 | No report counts fewer results than there are clients |
| `MulticastReports.AbandonedReportCanOvercount` | pkg/command/manager.go:414-531 | For any two or more clients there is a cancelled run whose report counts one result more than there are clients |
| `MulticastObjects.MultiCommand.NextTurn` | pkg/command/manager.go:412-437 | A turn of the main loop starts the sender of the next client, and has the wait group wait for it, exactly when the task is not cancelled; otherwise it gives up at that client |
| `MulticastObjects.MultiCommand.Wait` | pkg/command/manager.go:516-517 | An empty wait group means that every sender is done, so the main goroutine may go on to its report |
| `MulticastObjects.MultiCommand.GiveUp` | pkg/command/manager.go:414-433 | The filling loop gives every client not started a Cancelled result of its own and leaves the others, and the counter is overwritten with their number |
| `MulticastObjects.MultiCommand.CheckBeforeSending` | pkg/command/manager.go:439-458 | A sender that finds the task cancelled stores a Cancelled result in its own slot and counts itself, and goes no further |
| `MulticastObjects.MultiCommand.Finish` | pkg/command/manager.go:459-513 | A failed send is reported as such; otherwise a cancelled task hides how the command ended, and an uncancelled one stores it, or a timeout when the command was not found; a success is counted exactly when the command completed and the task is not cancelled |
| `MulticastObjects.MultiCommand.Report` | pkg/command/manager.go:517-531 | Undisturbed, the three counts are the two counters and what they leave, and add up to the total |
| `CommandTable.TerminalStays` | pkg/command/manager.go:99-234 | In every run a terminal command is never non-terminal again |
| `CommandTable.CompletedAtIffTerminal` | pkg/command/manager.go:209-234 | CompletedAt is set if and only if the status is terminal, and no command is ever executing |
| `CommandTable.LastWriteCounts` | pkg/command/manager.go:99-234 | In every run a command has the status written to it last, with the time of that write: Failed by a failed send, an answer's own status, Cancelled by a cancellation; no other step changes it |
| `CommandTable.OwnersMoveOn` | pkg/command/manager.go:99-206 | In every run a command is pending once it is stored, a sent one waits until it is answered or its waiter leaves, and a cancellation that looks at an unfinished one is going to write |
| `CommandTable.LeavesOnlyWhenOld` | pkg/command/manager.go:314-341 | A command leaves the table only after it has been terminal for longer than the maximal age, and never comes back |
| `CommandTable.CleanupIsExact` | pkg/command/manager.go:314-341 | In every run a clean-up removes exactly the commands completed for longer than half an hour and changes no other |
| `CommandTable.OutcomeIsUnique` | pkg/command/manager.go:99-234 | A command is only ever seen with one terminal status besides Cancelled, the one its own sender or waiter reported |
| `CommandTable.UncancelledIsFinal` | pkg/command/manager.go:169-234 | A command that no multicast task cancels keeps its first terminal status |
| `CommandTable.FinalIffSettled` | pkg/command/manager.go:99-234 | The terminal status of a command never changes again if and only if its own goroutine is gone and it is Cancelled, or neither a cancellation that has seen it unfinished nor its multicast sender can still write |
| `CommandTable.CancelledAndCompletedRace` | pkg/command/manager.go:612-628 | Although a cancellation looks before it writes, both replacements happen for every command: a late acknowledgement overwrites Cancelled, and one between the look and the write is overwritten |
| `CommandTable.CommandManager.SendCommand` | pkg/command/manager.go:99-166 | The command is in the table whatever happens, unfinished when it was sent, and failed with a completion time when it could not be encoded or sent; no other command is touched |
| `CommandTable.CommandManager.WaitForCommandResponse` | pkg/command/manager.go:169-206 | An error and a timeout acknowledgement time the command out, success completes it, failure and an unknown status fail it, each with the completion time; an empty response leaves the table as it is, and no other command is touched |
| `CommandTable.CommandManager.UpdateCommandStatus` | pkg/command/manager.go:209-234 | Updates a command that is in the table, with a completion time exactly for a terminal status, and no other; an unknown id changes nothing |
| `CommandTable.CommandManager.Cleanup` | pkg/command/manager.go:314-341 | Collecting and then deleting removes exactly the commands that have been terminal for longer than half an hour |
| `CommandTable.CommandManager.CancelUnfinished` | pkg/command/manager.go:612-628 | Undisturbed, exactly the listed commands that are pending or executing become Cancelled |
| `Upload.GapNeverShrinks` | pkg/filetransfer/upload.go:134-183 | In every run the gap between committed and the bytes of accepted chunks is never negative and never shrinks |
| `Upload.CommittedIffInPlace` | pkg/filetransfer/upload.go:158-172 | Without torn writes committed is the length of the file if and only if every accepted chunk was written at its own offset |
| `Upload.ChecksumAgreesIff` | pkg/filetransfer/upload.go:164-169 | The streaming checksum has hashed the content of the file if and only if no failed write left bytes behind |
| `Upload.CompletedIsAssembled` | pkg/filetransfer/upload.go:186-236 | An upload that passes the checks is the exact assembly of its chunks if and only if no failed write left bytes behind and committed is the file size; without such bytes that is if and only if every chunk is in place |
| `Upload.PassesIffVerified` | pkg/filetransfer/upload.go:202-236 | In every run an upload passes if and only if its file is open, has the announced size, and is verified: a checksum is missing, or the task's is the hash of what was hashed, bare or behind one colon-free prefix; without torn writes that is the hash of the file |
| `Upload.PassesOutOfPlace` | pkg/filetransfer/upload.go:186-236 | The checks do not look at committed: for every file size an upload can pass, its checksum verified, with a chunk outside its place |
| `Upload.CompareAccepts` | pkg/filetransfer/checksum.go:101-117 | The comparison accepts the hash bare or behind one colon-free prefix of any name, and nothing else |
| `Upload.ExtractHash` | pkg/filetransfer/checksum.go:101-109 | The scanning loop returns what follows the first colon, or all of it |
| `Upload.UploadSession.UploadChunk` | pkg/filetransfer/upload.go:134-183 | A chunk is accepted exactly when the session is open and not cancelled, its offset is not below committed and the write is complete, and then it is appended and hashed; a torn write leaves just the bytes it managed in the file |
| `Upload.UploadSession.CompleteUpload` | pkg/filetransfer/upload.go:202-236 | Passes exactly the uploads that PassesIffVerified describes; a closed file, a wrong size and a wrong checksum are told apart in this order, and the file is closed before any of them can refuse |
| `Upload.UploadSession.CancelUpload` | pkg/filetransfer/upload.go:306-332 | Cancels and closes |
| `Quota.QuotaHolds` | pkg/filetransfer/storage.go:72-203 | Over any run of succeeding and failing Store and Delete calls no user but the anonymous one holds more live bytes than a positive quota |
| `Quota.QuotaHoldsIff` | pkg/filetransfer/storage.go:72-104 | The bound holds in every run if and only if the quota is positive and the user is not the anonymous one, whose files are checked one by one |
| `Quota.NewFileIsAdded` | pkg/filetransfer/storage.go:72-203 | In every run a file with a new path and a new hash is stored exactly when it fits the quota, by itself for the anonymous user and with all its owner holds for a named one, and adds its size to what its owner holds and to nobody else's |
| `Quota.DeletedFileIsFreed` | pkg/filetransfer/storage.go:248-277 | In every run a deletion takes exactly the live row at its path out of what its owner holds |
| `Quota.HashesAreUnique` | pkg/filetransfer/storage.go:107-277 | No two live rows share a hash or a path; no two rows do at all |
| `Quota.DeletedHashNeverReturns` | pkg/filetransfer/storage.go:157-200 | Because deleted rows keep their place in the unique index, content once deleted can never be stored again |
| `Quota.LocalStorage.UsedSpace` | pkg/filetransfer/storage.go:86-94 | The sum of the sizes of the owner's live rows |
| `Quota.LocalStorage.CheckQuota` | pkg/filetransfer/storage.go:72-104 | Admits every file when the quota is not positive; otherwise an anonymous file that fits by itself, a named user's that fits with all that user holds, and nobody else's |
| `Quota.LocalStorage.StoreFile` | pkg/filetransfer/storage.go:107-203 | Quota, file system, size, user, duplicate and unique index are decided in this order, each refusal exactly under its own condition; only a file that passes them all adds its row |
| `Quota.LocalStorage.DeleteFile` | pkg/filetransfer/storage.go:248-277 | Marks the live row at the path as deleted and changes no other, or reports why not |

## Left out

- QUIC, SSH, HTTP, SQL, JSON, CEL and the file system themselves: opaque; a failing call is an outcome of an event or method where the code reacts to it.
- Logging, metrics, hooks, configuration loading, progress callbacks, notifications, the text of error messages.
- Auditor.SessionAuditor.RecordInput: the store writes of saveCommand are goroutines, so the order in which saved commands reach the store is not modelled, only the order in which they are recognised; TrimSpace is modelled on ASCII, which is all that a reachable buffer holds.
- PromiseLifecycle.UncompletedStaysFindable: assumes message ids that are never reused, as generated ids are; a Remove call made by the manager is modelled as a deletion that may happen at any later moment, a superset of the code's interleavings.
- PromiseManagement.PromiseManager.Create: for an id used before it promises what becomes of the map and of count, but not that the state is one of the machine, whose promises are told apart by their ids.
- PromiseManagement.PromiseManager.Complete: the methods of this class are runs of their steps without interference; interleavings of the same steps are those of PromiseLifecycle.
- EditLock.EditLockStore.AcquireEditLock: two methods of this class do not interleave; interleavings are those of the state machine.
- PushEngine.RebuildsIndex: operations run one after another and store calls succeed; the unlocked read-modify-write of a subscriber row by concurrent calls, subscriber tags, addresses and times are not modelled.
- WsHub.ReceivesPrefix: a broadcast is one step; a write pump that takes a message while the loop is at another client commutes with it.
- Frames.RoundTrip: progress is counted in hundredths of a percent as an unsigned 64-bit number instead of a float; the options of an init frame are opaque bytes; Resume and Cancel frames have no encoder or decoder.
- Dispatcher.OneResponseEach: every task has a response channel of capacity one to itself, as DispatchSync and DispatchBatchSync make it; channels that other callers share or omit are not modelled. A handler is a function of the message and of an occasion, which stands for whatever else its outcome depends on, timeouts included.
- DispatcherObjects.DispatchBatchSync: the normal path, with no handler registered or removed meanwhile; the early-error path that closes the channels of outstanding tasks and the cancellation of the caller's context while collecting are not modelled.
- BatchJob.Job.ExecuteTask: one task without interference; of its TaskResult only the retry count and the error are modelled. On the path that does not wait for results an attempt is a SendError or an EmptyResponse.
- Multicast.WaitedReportIsExact: how a sender's command ends is a parameter of an event; its status in the command table is the subject of CommandTable.
- CommandTable.LeavesOnlyWhenOld: command ids are never reused; payloads, results and the send time are not modelled.
- Upload.ChecksumAgreesIff: the resumption and expiry of sessions, progress tracking, TeeChecksum and what happens after the checks of CompleteUpload are not modelled.
- Quota.QuotaHolds: the sum of used space and file size does not wrap at 64 bits in the model; physical files behind the rows are not modelled.
- WaitForCallback and its listeners: the check and the registration are separate critical sections, and a timeout deletes all listeners, so no claim about missed wake-ups holds.
- Gray rules of the push engine, the status of file-transfer tasks after a cancellation, the alert processor: the code does not have the property one would state.
- CRUD handlers, web interface and command-line programs: they store and show data, without state that interleaved calls could break.
