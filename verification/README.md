# A verified model of the GNSIS desktop, runtime and memory store

GNSIS is a voice assistant in three parts: a desktop app that listens, plays and acts; a
runtime that drives a full-duplex model; and a memory sidecar that keeps what it learns in
object storage. This project models the parts of it whose correctness depends on what
happens between steps, and proves what they promise over every run. Run
`dafny verify dfyconfig.toml` to check all of it.

What is proved, component by component:

- **The durable memory store** (`MemoryStore.dfy`, with `ArchiveKeys.dfy` for names and keys
  and `CacheBudget.dfy` for the eviction order). Local directories are a cache over
  content-addressed archives named by a manifest. Every step that touches a disk or the
  object store meets the next entry of an arbitrary fault schedule: it works, is refused,
  works and loses its answer, brings damaged bytes, or the process dies just before or after it. For every
  request sequence and every schedule, no acknowledged write is lost, a manifest always
  names an object of its own namespace with its digest, and what a delete erased never comes
  back; a delete answered with success erases unless the removal of the directory was refused.
- **Live voice.** `LiveSession.dfy` has starting, ending, muting and unmuting as coroutines
  with program counters, any number of them pending. `NativeForeground.dfy` numbers output
  generations and accounts for runtime inputs. `VoicePath.dfy` joins that with the
  desktop's filter and the wire between them, over any number of runtime sessions: once a
  cancel was handled, nothing it covers is played. `DeliveryGate.dfy` has output epochs, playback accounts and result lifecycles.
- **Acting on the desktop.** `ActionBroker.dfy` (a call id runs once while remembered),
  `DesktopLease.dfy` (a cancellable first-in-first-out lease made of chained promises),
  `CallExecution.dfy` (a call from its arrival over the question and the lease to its answer),
  `Words.dfy`, `Sites.dfy` and `ActionPolicy.dfy` (an action runs unasked exactly when every
  target has evidence in the person's fresh words), `LocalController.dfy` with
  `BoundedValues.dfy` (a bounded local loop whose requests never run twice).
- **Streams and transport.** `Utterances.dfy` (segmenting speech), `Resample.dfy` (the
  block-independent downsampler), `ScreenTransport.dfy` (one socket, one timer, a bounded
  number of reconnects), `LogTail.dfy` (reading a log's last lines backwards in blocks).

Objects that the source updates in place are classes whose methods change their fields; a
method's contract gives the whole new state or ties it to a function of the old one, and the
class invariants are what every operation keeps. Where an object reacts to events, a value
`Situation` (or `Queue`, `Situated`) with a function for each event says what they make of it;
the methods are proved against that, and so is `Run`, for every list of events. Methods named
`Run`, `Serve`, `FeedAll` and `PushAll` quantify over whole runs. Code that only computes is
functions with lemmas.

Some names:

- A `Reply` of `Died` means the process died; only files and objects survive it.
- The text of a call or request id is modelled by the numbers in it.
- `lowWater`, `highWater`, `ackTimeout`, `speechWindow`, `ratio`, `chunk`, the tables of sites
  and endings, and the test for secret keys are parameters: the theorems hold for any.

## Where a promise does not hold as it stands

Each of these comes with an input and with the exact condition under which the code does keep
the promise.

- The header of `delivery_gate.py` (lines 15-22) lists two gates that `may_announce`
  (308-316) does not check. A result of an older epoch is announced
  (`AnnouncedFromAnOlderEpoch`); `MayAnnounce` says that what it allows is of the current epoch
  exactly in the first epoch or when it is being delivered already. And a later result is
  announced while one waits that would be announced even as an interruption
  (`AnnouncedBeforeAnUrgentOne`); `NonePassedOverExactly` says that none is passed over exactly
  when the answer is no or none of interrupt priority waits. This is about the gate alone: which
  result its caller asks about is decided elsewhere, by update time when listing
  (supervision.py:276-287) and with interrupts first when claiming (supervision.py:1493-1517).
- A delete is answered with success although the removal of the local directory was refused,
  since such errors are ignored. The erased memory is then archived again by the next write:
  `ErasedMemoryComesBack`. `DeleteSync` says when the directory stays, and `WriteAfterDelete`
  says, for every outcome of a delete, exactly which old memories the next write commits.
  Evictions ignore the same errors: `EvictedAreGoneUnlessRefused` and `ReportIsTrueUnlessRefused`
  say when the evicted directories are gone and when the reported bytes are right.
- An archive marker is to say that a directory is backed by a committed manifest
  (sidecar.py:507-508). But a write changes the directory first and takes the marker away only
  when it archives, so a write that fails in between is served by later queries although it was
  answered with failure and never committed: `UncommittedWriteIsServed`. `Serve` says that a
  query shows only what some request left committed and such strays, and `ShowableMeans` which
  those are: writes that failed and left the directory with its marker.
  `FailedWriteShownExactly` gives the condition: a failed write that was not committed is shown
  by the next query exactly when it left the directory holding it under a marker.
- Different accepted names share one store, such as `a/b` and `a__b`
  (`SlashAndUnderscoresShareAStore`), so that a delete of one erases the other.
  `NamesThatShareAStore` says which names do, `StoresOfTheirOwn` which names never do.
- A namespace name is cleaned twice (by the endpoint and by the storage code). The second
  cleaning can refuse what the first accepted: `CleaningTwice` says exactly when,
  `CleaningTwiceCanRefuse` gives a family of names.
- A model answer can be bound to an input whose push failed: `UndeliveredInputAnswered`.
  `AnsweredWereDelivered` says that none is, exactly while every input whose failure came too
  late still waits. `MakeModelEvent` says that the next answer is such a one exactly when the
  oldest input waiting failed too late, and `PushFailed` that a failure makes an earlier answer
  one exactly when its input neither waits nor was withdrawn.
- A call the runtime has given up can still act. It can when it was being prepared
  (`TimedOutYetActs`), and when 128 newer calls had been accepted, since its id is then
  forgotten (`ForgottenYetActs`). `TimeOutStopsExactly` gives the condition: a timeout under its
  own id keeps a call that could act from ever acting exactly when the person is being asked
  about it, or it waits behind a chain that has not resolved, and fewer than 128 newer calls were
  accepted. `StartsThoughTimedOut` says which steps start a call that has timed out.
- The desktop keeps its floor when the runtime numbers anew, so a reply of a new session can be
  refused because of an interrupt of an earlier one: `RefusedInTheNextSession`. `Path.Run` says
  that what reaches a live desktop is refused exactly when a cancel or cut of this session, or
  one of an earlier session, is at or above its number.
- A mute asked for while a conversation starts is dropped when it goes live, and if it comes
  after the microphone opened, the conversation is live and unmuted without a microphone:
  `MutedWhileStarting`. `ElectronHost.Run` says that a live, unmuted conversation has an open
  microphone exactly when it was open when the conversation last became live and unmuted or the
  device has opened it since; `OnResumeMic` and `OnSetMuted` say when it was open then.

## Model

| member | source | states |
|---|---|---|
| ArchiveKeys.AcceptedNamesArePlain | tools/simplemem/sidecar.py:176-184 | every accepted namespace name is a non-empty single path segment of allowed characters with no step upwards |
| ArchiveKeys.RefusedExactly | tools/simplemem/sidecar.py:176-184 | a name is refused exactly when, stripped, it is empty, longer than 200, has a character that is not allowed, or has two dots in a row; else its slashes are replaced |
| ArchiveKeys.CleaningTwice | tools/simplemem/sidecar.py:176-184 | cleaning an accepted name again changes nothing, and is accepted if and only if the first result is at most 200 characters long |
| ArchiveKeys.CleaningTwiceCanRefuse | tools/simplemem/sidecar.py:176-184 | names of 101 to 200 slashes are accepted once and then refused |
| ArchiveKeys.NamesThatShareAStore | tools/simplemem/sidecar.py:176-189 | two accepted names share a store exactly when they have the same characters with slashes and underscores of the same length between them, a slash counting two |
| ArchiveKeys.StoresOfTheirOwn | tools/simplemem/sidecar.py:176-189 | an accepted name shares its store with no other exactly when it has no doubled underscore, and a slash only where no longer name fits and none beside an underscore |
| ArchiveKeys.TightIsShortest | tools/simplemem/sidecar.py:176-184 | a name in which nothing can be written another way at no more length is the shortest one of its store, and the only one of its length |
| ArchiveKeys.SlashAndUnderscoresShareAStore | tools/simplemem/sidecar.py:176-189 | two different accepted names with one store |
| ArchiveKeys.PrefixSelectsNamespace | tools/simplemem/sidecar.py:432-441 | listing by a namespace's prefix selects the keys of that namespace and no others |
| ArchiveKeys.KeyTextsAreDistinct | tools/simplemem/sidecar.py:432-441 | two keys have the same text only if they are the same manifest or the same archive of the same namespace |
| CacheBudget.OldestFirstSorts | tools/simplemem/sidecar.py:728-737 | sorting by last use is an ordered permutation of the same total size |
| CacheBudget.CandidatesAreTheMarked | tools/simplemem/sidecar.py:711-736 | the eviction candidates are exactly the marked namespace directories, each as often as listed |
| CacheBudget.CandidateMeans | tools/simplemem/sidecar.py:711-736 | a candidate is exactly a marked directory that is neither hidden nor a backup |
| CacheBudget.EvictionOrderSound | tools/simplemem/sidecar.py:711-737 | the order offered for eviction is oldest first, over exactly the marked directories that are neither hidden nor backups |
| CacheBudget.OfferedOnce | tools/simplemem/sidecar.py:711-737 | a directory is listed once and offered for eviction at most once |
| CacheBudget.EvictedWereMarked | tools/simplemem/sidecar.py:728-747 | nothing without an archive marker, and nothing hidden, is evicted |
| MemoryStore.PutArchiveKeeps | tools/simplemem/sidecar.py:574-576 | uploading a generation, even identical bytes again, leaves every manifest sound and every object as it was |
| MemoryStore.PutManifestKeeps | tools/simplemem/sidecar.py:577-590 | a manifest may replace another once its object is there, hashes to its digest and holds every acknowledged write |
| MemoryStore.DeleteObjectsKeeps | tools/simplemem/sidecar.py:593-599 | objects no manifest names may go without any namespace losing anything |
| MemoryStore.AckKeeps | tools/simplemem/sidecar.py:800-811 | success may be answered once the committed bytes and any local copy have the write |
| MemoryStore.ErasedKeeps | tools/simplemem/sidecar.py:1106-1120 | once nothing of a namespace is left, none of its earlier writes may come back |
| MemoryStore.Sidecar.DeleteObjects | tools/simplemem/sidecar.py:676-684 | a batch delete that succeeds removes exactly the batch; one that does not may have removed any part of it |
| MemoryStore.Sidecar.LoadManifest | tools/simplemem/sidecar.py:464-491 | the manifest that is there, or none, or an error for one that is not of schema 1, for another namespace, or with a key other than that of its digest |
| MemoryStore.Sidecar.RemoveTree | tools/simplemem/sidecar.py:1116-1117 | removes a directory or, when refused, leaves it and says nothing |
| MemoryStore.Sidecar.Publish | tools/simplemem/sidecar.py:574-590 | the object is written before the manifest: a new manifest implies its object, whatever goes wrong |
| MemoryStore.Sidecar.CommitGeneration | tools/simplemem/sidecar.py:574-608 | success means the manifest names exactly these bytes and the directory is marked with it; the old generation goes only after that; other namespaces are untouched |
| MemoryStore.Sidecar.Pack | tools/simplemem/sidecar.py:565-570 | the packed bytes are the directory as it was; its marker is gone before |
| MemoryStore.Sidecar.ArchiveSync | tools/simplemem/sidecar.py:552-610 | success commits the directory's image as it was; any fault leaves a sound store and the image in place; once anything was uploaded, a marker certifies that the directory is what is committed |
| MemoryStore.Sidecar.ReplaceDirectory | tools/simplemem/sidecar.py:648-651 | at every point the directory is the old one, gone, or the extracted image, marked last; one that cannot be removed is not overwritten |
| MemoryStore.Sidecar.Download | tools/simplemem/sidecar.py:640 | an object arrives as it is, unless the transfer damages it |
| MemoryStore.Sidecar.RestoreSync | tools/simplemem/sidecar.py:624-656 | checks what arrived by its digest, so a damaged transfer is never installed; restores if and only if there is a manifest, giving the committed image marked with that manifest and ready for use; otherwise the directory is untouched |
| MemoryStore.Sidecar.DeleteArchiveSync | tools/simplemem/sidecar.py:659-689 | the manifest goes first; the loop ends for every way of cutting the listing into pages; success leaves no object under the prefix and touches no other namespace; with one object it takes three steps |
| MemoryStore.Sidecar.DeletePage | tools/simplemem/sidecar.py:671-686 | lists and deletes one page; the last page leaves nothing that was not seen |
| MemoryStore.Sidecar.DeleteSync | tools/simplemem/sidecar.py:1106-1120 | success leaves no manifest and no object of the namespace, and no directory exactly unless its removal was refused; the directory goes even when object storage fails; only a delete after which nothing is left erases |
| MemoryStore.Sidecar.RemoveLocal | tools/simplemem/sidecar.py:1113-1120 | the directory is removed before a failure of object storage is reported |
| MemoryStore.Sidecar.EvictInOrder | tools/simplemem/sidecar.py:739-748 | goes through a prefix of the order, each entry while the reported total was above low water, ending at or below low water or with all offered; the bytes reported are the start minus those entries; the directories that go are those whose removal the schedule lets happen |
| MemoryStore.Sidecar.EnforceCacheBudget | tools/simplemem/sidecar.py:720-748 | does nothing at or below high water; above it evicts an oldest-first prefix of the marked directories, of which those go whose removal is not refused |
| MemoryStore.EvictedAreGoneUnlessRefused | tools/simplemem/sidecar.py:741-747 | what was evicted is gone, all of it, exactly when no removal was refused |
| MemoryStore.ReportIsTrueUnlessRefused | tools/simplemem/sidecar.py:744-748 | the reported bytes were freed exactly when every refused removal was of an empty directory |
| MemoryStore.Sidecar.TrimCache | tools/simplemem/sidecar.py:711-748 | keeps every directory as it was or removes it whole, and removes only marked ones |
| MemoryStore.Sidecar.PrepareForWrite | tools/simplemem/sidecar.py:765-773 | a write starts from the directory there, else from the committed image, else from nothing; metadata is made when missing |
| MemoryStore.Sidecar.PrepareAndIndex | tools/simplemem/sidecar.py:765-799 | success leaves exactly the earlier memories and the new one, recorded if named; a text write needs a store of the same models |
| MemoryStore.Sidecar.IndexMemory | tools/simplemem/sidecar.py:777-799 | success adds exactly the one memory and, if the upstream store names it, its record, and changes nothing else of the metadata; a media write whose captions were refused fails |
| MemoryStore.Sidecar.WriteSync | tools/simplemem/sidecar.py:756-818 | success commits exactly the earlier memories, records and version with the new memory; whatever goes wrong, the committed bytes are the old ones or have the write, so has the directory if it is there, and nothing else changes; what a directory with a marker holds is committed, was there before, or is this write |
| MemoryStore.Sidecar.MakeDurable | tools/simplemem/sidecar.py:800-811 | the write counts as answered only after the archive is committed and the cache trimmed |
| MemoryStore.Sidecar.PrepareCacheForQuery | tools/simplemem/sidecar.py:526-549 | success means a directory with metadata, upstream files and this namespace's marker: the one there exactly if it is such, else the committed image restored; an archived namespace without faults always gets one |
| MemoryStore.Sidecar.OpenForQuery | tools/simplemem/sidecar.py:1008-1026 | a store that cannot be opened is discarded and restored once; a directory just restored is opened as it is or not at all |
| MemoryStore.Sidecar.QuerySync | tools/simplemem/sidecar.py:1004-1058 | a query that is answered is answered from a directory marked for its namespace or from the committed bytes, of the same models, with every acknowledged write and nothing erased; without faults, from the directory exactly if it is complete and marked |
| MemoryStore.Sidecar.RecentSync | tools/simplemem/sidecar.py:1072-1078 | the list is the recorded writes of the directory there or of the committed bytes, with every acknowledged named write and nothing that was erased |
| MemoryStore.Sidecar.Serve | tools/simplemem/sidecar.py:552-689 | for any requests under any fault schedules from an empty store: no acknowledged write is missing from the committed bytes or from a local directory, nothing that a delete erased is left anywhere, a delete answered with success has erased unless its schedule refused a step, and every manifest is sound; an answered query shows every acknowledged write, nothing erased, and only what was committed or strayed; without faults deletes and media writes succeed |
| MemoryStore.ShowableMeans | tools/simplemem/sidecar.py:507-515 | what queries may show is exactly what some request since the last erasing delete left committed, and the writes that failed and left the directory with its marker |
| MemoryStore.FailedWriteShownExactly | tools/simplemem/sidecar.py:505-523 | a write that failed and was not committed is shown by the next query, if that is answered, exactly when the directory holds it under a marker |
| MemoryStore.UncommittedWriteIsServed | tools/simplemem/sidecar.py:779-804 | a write answered with failure, in no committed generation, is served by the next query |
| MemoryStore.WriteAfterDelete | tools/simplemem/sidecar.py:1106-1120 | after a delete under any schedule with any outcome, a write of any kind that succeeds commits, besides itself, exactly the memories of the directory if that stayed, else those still committed if the manifest stayed, else none |
| MemoryStore.ErasedMemoryComesBack | tools/simplemem/sidecar.py:1116-1117 | an acknowledged memory, erased by a delete answered with success, is committed again by the next write if and only if the directory was still cached |
| LiveSession.ElectronHost.OnStartLive | desktop/src/renderer/electronHost.ts:333-339 | a request while live or while waiting for the runtime does nothing; any other becomes the latest attempt, waiting for what is opening now |
| LiveSession.ElectronHost.LatestOpensAlone | desktop/src/renderer/electronHost.ts:333-348 | when the latest attempt's wait is over, no other attempt and no unmute is still opening the microphone |
| LiveSession.ElectronHost.OnResumeStart | desktop/src/renderer/electronHost.ts:339-348 | an overtaken attempt gives up without a call; the latest waits for the runtime or opens one call |
| LiveSession.ElectronHost.Open | desktop/src/renderer/electronHost.ts:350-373 | the call and the microphone wait until the runtime is ready |
| LiveSession.ElectronHost.OnResumeReady | desktop/src/renderer/electronHost.ts:361-373 | only a latest attempt that became ready opens a call |
| LiveSession.ElectronHost.OnResumeMic | desktop/src/renderer/electronHost.ts:372-394 | a failed or overtaken microphone closes its call and the device; otherwise the conversation is live and unmuted whatever was asked meanwhile, with the microphone open unless a mute came after it was opened |
| LiveSession.ElectronHost.OnEndLive | desktop/src/renderer/electronHost.ts:396-412 | ending overtakes every attempt, aborts the wait, and closes the call and the microphone if live |
| LiveSession.ElectronHost.OnSetMuted | desktop/src/renderer/electronHost.ts:414-436 | muting closes the microphone at once; unmuting a live conversation reopens it in the background, and it is open at once only if an overtaken unmute had opened it |
| LiveSession.ElectronHost.OnResumeUnmute | desktop/src/renderer/electronHost.ts:425-436 | a microphone reopened too late, muted or ended meanwhile, is closed again |
| LiveSession.ElectronHost.OnSetLink | desktop/src/renderer/electronHost.ts:621-630 | a ready link ends the pending wait well, a closed or failed one aborts it |
| LiveSession.ElectronHost.OnReadyTimeout | desktop/src/renderer/electronHost.ts:632-644 | a wait that takes too long ends as timed out, and only its first outcome counts |
| LiveSession.ElectronHost.Run | desktop/src/renderer/electronHost.ts:333-444 | the state is what the events say, one after the other; and in every interleaving: calls opened minus closed is one for a live conversation, one for an attempt with a call, never more than one; one attempt in the opening section; with nothing in flight the microphone is open only if live and unmuted; live and unmuted, it is open exactly when it was at first or the device opened it since |
| LiveSession.LastWordHolds | desktop/src/renderer/electronHost.ts:396-422 | after any events, muting leaves it muted, unmuting unmuted, and ending ended |
| LiveSession.SilentUntilAnswered | desktop/src/renderer/electronHost.ts:396-422 | from the moment an unmuted host is muted, or a live one ended, the microphone is closed until the device answers with it, whatever else happens |
| LiveSession.StaysMuted | desktop/src/renderer/electronHost.ts:391-422 | once muted it stays so until it is unmuted or a start attempt's microphone is resumed |
| LiveSession.MutedWhileStarting | desktop/src/renderer/electronHost.ts:372-421 | a mute while starting is dropped: the conversation goes live unmuted, with the microphone open exactly if the mute came before the device answered |
| NativeForeground.ChunkKeeps | runtime/gnsis_runtime/gnsis_runtime/foreground_session.py:464-515 | sequence numbers keep rising within a generation while it is current, also past late chunks of older ones |
| NativeForeground.BindKeeps | runtime/gnsis_runtime/gnsis_runtime/foreground_session.py:410-455 | binding the oldest waiting receipt keeps push order and accounts for every receipt |
| NativeForeground.WithdrawKeeps | runtime/gnsis_runtime/gnsis_runtime/foreground_session.py:656-672 | withdrawing the last receipt for its own failure loses no other |
| NativeForeground.WithdrawnGrows | runtime/gnsis_runtime/gnsis_runtime/foreground_session.py:656-672 | what was withdrawn for its own failure neither waits nor answers anything |
| NativeForeground.Session.GenerationFor | runtime/gnsis_runtime/gnsis_runtime/foreground_session.py:392-408 | a known key keeps its generation, a new one gets the next; keys stay injective into 1..current |
| NativeForeground.Session.MakeModelEvent | runtime/gnsis_runtime/gnsis_runtime/foreground_session.py:410-455 | a model event answers the oldest waiting receipt, if any, which is kept to be handed out for it, and no receipt answers two; it is the first to answer an undelivered input exactly when that receipt's push failed too late |
| NativeForeground.Session.RetireGeneration | runtime/gnsis_runtime/gnsis_runtime/foreground_session.py:464-494 | an interrupt cancels exactly the generation that was current, starts the next, and answers the oldest waiting receipt |
| NativeForeground.Session.TranslateFor | runtime/gnsis_runtime/gnsis_runtime/foreground_session.py:495-575 | what each kind of event becomes, and what it makes of the voice and of the waiting inputs; the log of chunks grows by just those put out, and audio without samples cannot be translated |
| NativeForeground.Session.Translate | runtime/gnsis_runtime/gnsis_runtime/foreground_session.py:457-575 | the outputs and the new state of each event, close and interrupt included; only interrupts cancel; the log of chunks grows by exactly the chunks returned |
| NativeForeground.Session.ReadEvent | runtime/gnsis_runtime/gnsis_runtime/foreground_session.py:365-389 | the reader goes on exactly unless the event cannot be translated; what it holds then are the chunks the log grew by |
| NativeForeground.Session.ReaderFails | runtime/gnsis_runtime/gnsis_runtime/foreground_session.py:374-385 | a failed provider is reported once, and nothing more is read |
| NativeForeground.Session.InterruptOutput | runtime/gnsis_runtime/gnsis_runtime/foreground_session.py:787-805 | queues the cancel of the generation that was current, and numbering starts afresh above it |
| NativeForeground.Session.PushInput | runtime/gnsis_runtime/gnsis_runtime/foreground_session.py:656-672 | a pushed input waits last |
| NativeForeground.Session.PushFailed | runtime/gnsis_runtime/gnsis_runtime/foreground_session.py:656-672 | a failed push withdraws its own receipt if that is still the last one waiting, and else leaves it waiting; an undelivered input has been answered then exactly when the receipt neither waits nor was withdrawn |
| NativeForeground.Session.AnsweredWereDelivered | runtime/gnsis_runtime/gnsis_runtime/foreground_session.py:656-672 | no answer is bound to an input whose push failed exactly while every input whose failure came too late still waits, or was withdrawn after all |
| NativeForeground.UndeliveredInputAnswered | runtime/gnsis_runtime/gnsis_runtime/foreground_session.py:656-672 | an input whose push failed behind a later one is answered |
| NativeForeground.Session.TakeReceipt | runtime/gnsis_runtime/gnsis_runtime/foreground_session.py:722-724 | a model event's receipt is handed out the first time it is asked for, and is the one it was bound to; every later time there is none |
| PlaybackFilter.Desktop.OnCancel | desktop/src/renderer/electronHost.ts:526-533 | raises the floor to the cancelled generation, or without one to the latest heard, never lowers it |
| PlaybackFilter.Desktop.OnAudio | desktop/src/renderer/electronHost.ts:575-587 | plays a binary message only when live and its header is above the floor |
| PlaybackFilter.Desktop.RetireGeneration | desktop/src/renderer/electronHost.ts:617-619 | a local cut makes what is playing stale |
| VoicePath.StoryContinues | desktop/src/renderer/electronHost.ts:526-539 | every step of runtime, wire and desktop keeps the ordering of cancels, allocations and playback, and the causes of what was refused or played |
| VoicePath.WireExtends | runtime/gnsis_runtime/gnsis_runtime/foreground_session.py:365-389 | binary messages keep following their own header, whatever is queued between |
| VoicePath.WireTellsAll | runtime/gnsis_runtime/gnsis_runtime/online_duplex.py:990-1025 | read back from the wire, every chunk and every cancel is what it was, in order, and nothing else is |
| VoicePath.EmittedAreTheChunks | runtime/gnsis_runtime/gnsis_runtime/foreground_session.py:495-515 | the log of chunks is the chunks among the outputs |
| VoicePath.Path.Deliver | desktop/src/renderer/electronHost.ts:575-587 | what delivering a message makes the desktop do, chunk by chunk |
| VoicePath.Path.Reconnect | runtime/gnsis_runtime/gnsis_runtime/foreground_session.py:310-324 | a new session numbers from the start and what was on the wire is gone, while the desktop's floor stays |
| VoicePath.Path.Run | runtime/gnsis_runtime/gnsis_runtime/foreground_session.py:365-408 | the state of runtime, wire and desktop, and everything that happens to generations, is what the moves say; end to end, in every interleaving over any number of sessions: once the cancel of a generation was handled nothing numbered up to it is played; what reaches a live desktop is refused exactly when a cancel or local cut, of this session or an earlier one, is at or above it; within a session a generation allocated after an interrupt is never refused because of that interrupt; the chunks that left the runtime are those of its log in its order, whose sequence numbers rise within a current generation; keys and receipts stay in order |
| VoicePath.RefusedInTheNextSession | desktop/src/renderer/electronHost.ts:526-587 | the first reply of a new session is refused because of an interrupt of the session before |
| DeliveryGate.RecordKeepsOrder | runtime/gnsis_runtime/gnsis_runtime/delivery_gate.py:62-65 | recording a state of no lower rank keeps a history ordered with at most one terminal entry |
| DeliveryGate.CutKeeps | runtime/gnsis_runtime/gnsis_runtime/delivery_gate.py:126-128 | an interruption ends what is being delivered and leaves the rest, each result still waiting, of the current epoch, or at its end |
| DeliveryGate.SettleKeeps | runtime/gnsis_runtime/gnsis_runtime/delivery_gate.py:171-200 | settling a pending playback keeps the accounts and all other sends' fates |
| DeliveryGate.TimeoutKeeps | runtime/gnsis_runtime/gnsis_runtime/delivery_gate.py:202-221 | timing out keeps the accounts and adds the send to the timeouts once |
| DeliveryGate.Gate.Interrupt | runtime/gnsis_runtime/gnsis_runtime/delivery_gate.py:108-129 | moves to the next epoch, drops exactly the older playbacks and cancels exactly the delivering results, leaving none |
| DeliveryGate.Gate.NoteOutputSent | runtime/gnsis_runtime/gnsis_runtime/delivery_gate.py:160-169 | a send is pending in its epoch; a reused id replaces its earlier send |
| DeliveryGate.Gate.NotePlaybackAck | runtime/gnsis_runtime/gnsis_runtime/delivery_gate.py:171-200 | a stale acknowledgement changes nothing; a current finished or cancelled one settles exactly its playback |
| DeliveryGate.Gate.PlaybackDraining | runtime/gnsis_runtime/gnsis_runtime/delivery_gate.py:202-221 | gives up exactly the overdue playbacks and reports whether others are pending |
| DeliveryGate.Gate.TakeExpired | runtime/gnsis_runtime/gnsis_runtime/delivery_gate.py:223-227 | returns each timed-out playback once, in order |
| DeliveryGate.Gate.Register | runtime/gnsis_runtime/gnsis_runtime/delivery_gate.py:231-238 | registering again changes nothing |
| DeliveryGate.Gate.Transition | runtime/gnsis_runtime/gnsis_runtime/delivery_gate.py:240-286 | terminal states are absorbing; a delivering result takes the current epoch; histories only grow |
| DeliveryGate.Gate.BlockedReason | runtime/gnsis_runtime/gnsis_runtime/delivery_gate.py:293-306 | the exact reason, the speech window first; a safe pause is open if and only if nobody spoke within the window, no model output is open and every pending playback is overdue, and then those are given up |
| DeliveryGate.Gate.MayAnnounce | runtime/gnsis_runtime/gnsis_runtime/delivery_gate.py:308-316 | allowed if and only if the result is not at its end and the gate is open, with the exact reason otherwise; what is allowed is of the current epoch exactly in the first epoch or when it is being delivered already; nothing but the result's own block changes |
| DeliveryGate.AnnouncedFromAnOlderEpoch | runtime/gnsis_runtime/gnsis_runtime/delivery_gate.py:308-316 | a result that waited through an interruption is announced though its epoch is older than the current one |
| DeliveryGate.AnnouncedBeforeAnUrgentOne | runtime/gnsis_runtime/gnsis_runtime/delivery_gate.py:308-316 | a later result is announced while an earlier one waits that would be announced even as an interruption |
| DeliveryGate.Gate.NonePassedOverExactly | runtime/gnsis_runtime/gnsis_runtime/delivery_gate.py:293-316 | what is allowed at a safe pause leaves every waiting result free to interrupt, so no urgent one is passed over exactly when the answer is no or none waits |
| DeliveryGate.Gate.Run | runtime/gnsis_runtime/gnsis_runtime/delivery_gate.py:76-316 | the gate is what its operations say; over any operations: every send is pending or has exactly one fate, settled for good; histories only grow; a delivering result carries the current epoch |
| DeliveryGate.TerminalIsLast | runtime/gnsis_runtime/gnsis_runtime/delivery_gate.py:36-60 | the terminal states are exactly those after which nothing comes |
| ActionBroker.RestartNeedsNewerIds | desktop/src/host/actionBroker.ts:461-467 | a call id starts again only after at least 128 distinct other ids were accepted in between |
| ActionBroker.SendsKeepAccounts | desktop/src/host/actionBroker.ts:218-266 | what each event sends keeps the responses of every call at one for its completion, unless typed here, plus one for every redelivery after it |
| ActionBroker.NothingWhileItRuns | desktop/src/host/actionBroker.ts:218-228 | delivering again a call that runs begins nothing and has nothing coming |
| ActionBroker.Broker.Remember | desktop/src/host/actionBroker.ts:461-467 | the memory is exactly the last 128 accepted ids |
| ActionBroker.Broker.Dispatch | desktop/src/host/actionBroker.ts:218-266 | a remembered id never starts again: it is answered from its result, or with nothing while it runs |
| ActionBroker.Broker.RunLocal | desktop/src/host/actionBroker.ts:148-216 | the same for a typed command, for which nothing is sent |
| ActionBroker.Broker.Complete | desktop/src/host/actionBroker.ts:262-264 | a call's own result is saved and sent once, also when its id was forgotten meanwhile |
| ActionBroker.Broker.Run | desktop/src/host/actionBroker.ts:148-266 | over any list of events: the accepted calls are those the list begins; starts of one id are at least 128 newer ids apart; everything sent for a call is its first completion's response; and the responses number one for that completion, unless typed here, plus one for every redelivery after it while the id is remembered |
| DesktopLease.TailMeansAllGates | desktop/src/host/actionBroker.ts:366-372 | the tail of the promise chain has resolved exactly when every slot before it has finished or passed |
| DesktopLease.NeverStalls | desktop/src/host/actionBroker.ts:361-405 | with nobody running and somebody waiting, some slot can run or pass its turn on |
| DesktopLease.Lease.Proceed | desktop/src/host/actionBroker.ts:388-400 | a slot runs only behind finished or passed slots, and after all that started before it |
| DesktopLease.Lease.Abort | desktop/src/host/actionBroker.ts:374-397 | a slot whose wait was aborted gives up and keeps its place until everything before it is over |
| DesktopLease.Lease.HandOver | desktop/src/host/actionBroker.ts:361-405 | the lease reaches the earliest waiter through any number of cancelled slots |
| DesktopLease.Lease.Run | desktop/src/host/actionBroker.ts:361-405 | the chain is what its moves say; mutual exclusion, order of arrival, and no aborted slot ever runs, over any number of slots |
| CallExecution.Executor.OnPrepared | desktop/src/host/actionBroker.ts:283-335 | a call that is not asked about acts at once exactly when it needs no lease or finds the lease free, timed out or not; one that timed out never waits |
| CallExecution.Executor.OnAnswered | desktop/src/host/actionBroker.ts:306-324 | a call that timed out while being asked about is not done, whatever the answer |
| CallExecution.Executor.ComeToLease | desktop/src/host/actionBroker.ts:366-396 | a lease noticed to be free is taken; else a call that timed out gives its place up and is answered, and any other waits |
| CallExecution.Executor.OnTimeOut | desktop/src/host/actionBroker.ts:123-129 | a remembered call being asked about is doomed, and one that waits behind others gives its place up and is answered; others go on; a timeout for a forgotten id changes nothing |
| CallExecution.Executor.Run | desktop/src/host/actionBroker.ts:218-405 | in every interleaving: where all calls are is what the steps say; each action starts at most once, at most one holds the lease; the calls that timed out by the steps, remembered and asked about or waiting, never start; and every call that ended has its one outcome and the responses owed for it; that outcome is the response of the step that ended it, and the broker hears just what the steps tell it |
| CallExecution.StepAnswers | desktop/src/host/actionBroker.ts:231-268 | a step gives an outcome to exactly the call it ends, and that is the response it carries |
| CallExecution.Executor.TimeOutStopsExactly | desktop/src/host/actionBroker.ts:123-129 | a timeout under its own id keeps a call that could still act from ever acting, whatever follows, exactly when it is asked about or waits behind an unresolved chain and fewer than 128 newer calls were accepted |
| CallExecution.TimedOutByAStep | desktop/src/host/actionBroker.ts:123-129 | the calls given up in a run are exactly those remembered and asked about or waiting when a step timed out their id |
| CallExecution.CanActUnlessHopeless | desktop/src/host/actionBroker.ts:218-405 | from any situation, some continuation starts a call that has not acted, through everything before it in the queue, exactly unless it ended or is asked about in vain |
| CallExecution.StartsThoughTimedOut | desktop/src/host/actionBroker.ts:306-396 | a step starts a call that timed out exactly when it comes straight from being prepared and needs no lease or finds it free, or when the lease had come to it |
| CallExecution.ForgottenYetActs | desktop/src/host/actionBroker.ts:461-467 | a call is asked about, 128 others are accepted, its timeout changes nothing, and it acts when the person allows it |
| CallExecution.TimedOutYetActs | desktop/src/host/actionBroker.ts:283-335 | a call that timed out while being prepared acts all the same |
| Words.SplitKeepsAll | desktop/src/host/words.ts:12-19 | the words of a text, run together, are exactly its letters and digits |
| Words.SplitAt | desktop/src/host/words.ts:17-19 | anything but a letter or digit ends a word |
| Words.FoldedAlike | desktop/src/host/words.ts:6-9 | texts fold alike exactly when they differ in nothing but case |
| Words.CaseMakesNoDifference | desktop/src/host/words.ts:29-44 | whether a name is said depends on the case of neither |
| Words.StemCutsTheExtension | desktop/src/host/words.ts:32 | a name has at most one extension of one to six letters and digits, and its stem is what comes before it |
| Words.SaidIn | desktop/src/host/words.ts:29-44 | true exactly when some run of consecutive words concatenates to the normalised name or its stem; stopping a run at the longest name loses nothing |
| Words.NameNamesItself | desktop/src/host/words.ts:21-28 | saying a name in its own spelling names it |
| Words.SayingMoreStillNames | desktop/src/host/words.ts:29-44 | more words before or after never take a name back |
| Words.PieceOfAWordIsNoName | desktop/src/host/words.ts:21-28 | one word names only what it is as a whole, never a piece of it |
| Sites.SiteOf | desktop/src/host/sites.ts:107-115 | the site is the address itself, or one label before the longest shared ending of up to three labels, or the last two labels |
| Sites.SiteIsItsOwnSite | desktop/src/host/sites.ts:107-115 | a site is the end of its host and is its own site |
| Sites.SiteMeans | desktop/src/host/sites.ts:107-115 | the site of a host of numbers is the host; of any other, one label more than the longest shared ending of at most three labels, or else the last two labels |
| Sites.LabelsOfHost | desktop/src/host/sites.ts:108 | a host is read as its labels, in whatever case, with or without www. and a final dot |
| Sites.From | desktop/src/host/sites.ts:139-146 | the search from one word finds a segmentation if and only if there is one from there; the first match of a label is the only one to try |
| Sites.SpelledOut | desktop/src/host/sites.ts:136-149 | true exactly when some segmentation of the words matches the labels in order with "dot" between |
| Sites.SiteSaidIn | desktop/src/host/sites.ts:118-124 | true exactly when the site was spelled out, or is a domain of a well-known site one of whose names was said |
| Sites.SayingMoreStillAsks | desktop/src/host/sites.ts:118-149 | more words before or after never take an address back |
| Sites.SentenceEndIsNoDot | desktop/src/host/sites.ts:126-129 | a full stop between sentences only separates words |
| Sites.AddressNamesItself | desktop/src/host/sites.ts:126-149 | a transcript that reads an address as it is written spells it out |
| ActionPolicy.TargetSaid | desktop/src/host/actionPolicy.ts:71-76 | the search by value and then by other names finds a target exactly when it is in the words |
| ActionPolicy.Decide | desktop/src/host/actionPolicy.ts:67-105 | the verdict found by searching the words is the one the policy states |
| ActionPolicy.InTheWordsIsVouchedFor | desktop/src/host/actionPolicy.ts:71-78 | a target passes exactly when there is evidence for it: a selection, a run of words, a segmentation, or a named site that owns the domain |
| ActionPolicy.AllowedExactlyOnEvidence | desktop/src/host/actionPolicy.ts:67-105 | an action runs unasked exactly when it is not one always asked about and is harmless or has evidence in a fresh turn for every target; what the provenance means, both ways |
| ActionPolicy.OldWordsVouchForNothing | desktop/src/host/actionPolicy.ts:65-80 | with no turn, or one that ended more than 90 seconds ago or more than 5 seconds ahead, the provenance is unknown, no turn is named, and anything that is not harmless is asked about; with any other turn it is named and the provenance known |
| ActionPolicy.OldWordsStayOld | desktop/src/host/actionPolicy.ts:65-69 | once a turn is too old it never covers an action again |
| ActionPolicy.ReasonTellsWhy | desktop/src/host/actionPolicy.ts:82-104 | each reason is given exactly in its case: always asked about, harmless, all of it said, part of it not said, or nothing recent on record |
| ActionPolicy.SayingMoreStillAllows | desktop/src/host/actionPolicy.ts:67-105 | saying more in the same turn never withdraws what was allowed |
| BoundedValues.BoundMeetsTheBounds | desktop/src/host/localController.ts:206-218 | whatever is kept is within the bounds at every level, and whatever is within them is kept as it is |
| BoundedValues.BoundedResultIsBounded | desktop/src/host/localController.ts:192-204 | a bounded result has at most 16 fields, no secret ones, is within the bounds at every level, and bounding it again changes nothing |
| BoundedValues.DroppedExactly | desktop/src/host/localController.ts:206-218 | a value is dropped exactly when it cannot be carried or would open a fourth level; a text is cut to its first 1000 characters, a list to its first 20 items |
| BoundedValues.ItemsKeptInOrder | desktop/src/host/localController.ts:210-215 | the items kept are all those that can be, in order, each bounded |
| BoundedValues.FieldsKeptInOrder | desktop/src/host/localController.ts:196-204 | the fields kept are all those that are not secret and can be, in order, under their keys |
| BoundedValues.WithinIsShallow | desktop/src/host/localController.ts:206-218 | what is within the bounds opens at most three levels |
| BoundedValues.FillObject | desktop/src/host/localController.ts:196-204 | filling the object field by field gives the bounded first 16 fields |
| LocalController.CallsAreDetermined | desktop/src/host/localController.ts:88-187 | how many calls a request makes is determined by what the provider and the tools say |
| LocalController.RecordedOnceBeforeTheCalls | desktop/src/host/localController.ts:155-165 | the turn is recorded once, before the first call, if anything ran, and never otherwise; no call id is used twice |
| LocalController.EndingIsQuiet | desktop/src/host/localController.ts:72-75 | null is returned only if nothing ran and nothing was answered |
| LocalController.DoneMeans | desktop/src/host/localController.ts:171 | a call came back done exactly when its status is done |
| LocalController.MessageMeans | desktop/src/host/localController.ts:173-176 | what is said of a call that did not is its message, if that is a text |
| LocalController.TrimMeans | desktop/src/host/localController.ts:113-126 | just the white space at both ends goes, and a blank text says nothing |
| LocalController.Controller.Send | desktop/src/host/localController.ts:76-187 | for every decision stream: at most `maxSteps` calls, each a confident decision for an offered tool after one that came back done; what is recorded, run, answered and returned; what history the provider is shown each time |
| LocalController.Router.Send | desktop/src/host/typedTurnRouter.ts:25-64 | the foreground model's path is taken alone or not at all, never after anything was recorded, run or answered here; what the controller returns stands; a command spelled out in full runs once, as itself |
| Utterances.WindowsGrow | desktop/src/host/utterances.ts:82-88 | more bytes never change the windows already cut |
| Utterances.NextWindow | desktop/src/host/utterances.ts:83-88 | cutting from the carried remainder gives the windows of the whole stream |
| Utterances.SampleIsTwosComplement | desktop/src/host/utterances.ts:253 | two bytes are a 16-bit sample, the low one first |
| Utterances.LoudMeans | desktop/src/host/utterances.ts:140-256 | a window is loud exactly when the mean square of its samples is at least 0.012 squared |
| Utterances.HandOverKeeps | desktop/src/host/utterances.ts:163-193 | handing over what is held keeps the utterances in order and apart |
| Utterances.UtteranceTranscriber.Finish | desktop/src/host/utterances.ts:163-193 | hands over exactly what is held, with 20 ms per window from its start, unless it has fewer than 15 spoken windows or no recognizer takes it |
| Utterances.UtterancesEndExactly | desktop/src/host/utterances.ts:153-161 | an utterance ends exactly at 35 windows in a row that are not loud or at 1500 windows |
| Utterances.UtterancesBeginExactly | desktop/src/host/utterances.ts:139-152 | one begins exactly at the fifth loud window in a row, with up to 15 windows of which the last five are loud |
| Utterances.HeardAllJoin | desktop/src/host/utterances.ts:83-88 | hearing windows in two batches is hearing them in one |
| Utterances.UtteranceTranscriber.Window | desktop/src/host/utterances.ts:139-161 | a window does what the segmenter as a function does, keeps what is held against all windows heard, and sets the start time when an utterance begins |
| Utterances.UtteranceTranscriber.CutWindows | desktop/src/host/utterances.ts:83-88 | hears every whole window of the data once, in order, and returns what is left over |
| Utterances.UtteranceTranscriber.Feed | desktop/src/host/utterances.ts:78-90 | after a gap of more than a second the utterance is over; then every new window is heard; the windows are those of all bytes so far, however they were delivered |
| Utterances.UtteranceTranscriber.Idle | desktop/src/host/utterances.ts:93-95 | finishes the utterance exactly when one is held and more than a second passed without audio |
| Utterances.UtteranceTranscriber.FeedAll | desktop/src/host/utterances.ts:78-193 | over any deliveries, timers and recognizer outages: the windows depend only on the concatenated bytes, and without gaps so do the utterances found; what is handed over are disjoint slices of them in order, each with at least 15 loud and at most 1500 windows, ending 20 ms per window after its start |
| Resample.Count | desktop/src/shared/resample.ts:19-23 | n source samples give n / ratio samples, rounded up |
| Resample.Quantise | desktop/src/shared/resample.ts:28-31 | samples are clipped at full scale and rounded to the nearest 16-bit value |
| Resample.SamplesGrow | desktop/src/shared/resample.ts:18-23 | more source never changes the samples already taken |
| Resample.NextSample | desktop/src/shared/resample.ts:19-23 | the carried position is where the next sample of the whole source lies |
| Resample.CuttingMakesNoDifference | desktop/src/shared/resample.ts:18-35 | the chunks sent are determined by the source alone |
| Resample.Resampler.Push | desktop/src/shared/resample.ts:18-35 | sample k is the source at floor(k * ratio); sent and kept samples are all that the source gives; less than one chunk is kept |
| Resample.Resampler.PushAll | desktop/src/shared/resample.ts:18-35 | any cutting of the source into blocks gives the chunks of the whole |
| ScreenTransport.ReconnectDelayMs | desktop/src/shared/frames.ts:55-64 | a delay is given only within the budget, and is the attempt's or the last one |
| ScreenTransport.FifteenWaitsAreTooLong | desktop/src/shared/frames.ts:19-20 | with the default delays, 15 waits exceed the budget, whatever attempts went before |
| ScreenTransport.BudgetScheduled | desktop/src/main/wsClient.ts:192-209 | a reconnect is scheduled only after the one before it was due, so the waits add up |
| ScreenTransport.ScreenClient.BoundedReconnects | desktop/src/main/wsClient.ts:192-209 | in one outage the waits before the last reconnect fit the budget: at most 15 reconnects by default |
| ScreenTransport.ScreenClient.ApplyChannel | desktop/src/main/wsClient.ts:132-141 | begins anew with a new socket exactly for a token that is not the one held, or one to use while not connected |
| ScreenTransport.ScreenClient.OpenSocket | desktop/src/main/wsClient.ts:157-190 | opens a new socket, the only one listened to, with no timer pending; without a token or unless wanted, nothing |
| ScreenTransport.ScreenClient.OnClose | desktop/src/main/wsClient.ts:178-188 | only the socket listened to is acted on; a refusal ends it; otherwise one more reconnect, unless the budget is spent |
| ScreenTransport.ScreenClient.ScheduleReconnect | desktop/src/main/wsClient.ts:192-209 | schedules exactly one timer with the attempt's delay, or reports the budget spent |
| ScreenTransport.ScreenClient.Retire | desktop/src/main/wsClient.ts:222-237 | drops the socket, unlistened, and the pending timer |
| ScreenTransport.ScreenClient.Close | desktop/src/main/wsClient.ts:239-242 | afterwards nothing is listened to, nothing is pending and nothing is wanted |
| ScreenTransport.ScreenClient.Run | desktop/src/main/wsClient.ts:132-242 | the client is what the calls and events say; in every run at most one socket is listened to and at most one timer is pending, never both; at no point more than 15 reconnects in an outage by default |
| LogTail.LinesForNewlines | runtime/gnsis_runtime/gnsis_runtime/deferred_app.py:51-56 | a text has at least as many lines as newlines |
| LogTail.EachEndingEndsOneLine | runtime/gnsis_runtime/gnsis_runtime/deferred_app.py:56 | a newline, a carriage return, or the two together end one line |
| LogTail.OnlyTheFirstLineChanges | runtime/gnsis_runtime/gnsis_runtime/deferred_app.py:51-56 | what comes before a block changes at most its first line, even when a line ending is cut in two |
| LogTail.EnoughRead | runtime/gnsis_runtime/gnsis_runtime/deferred_app.py:51-56 | with more newlines than lines asked for, a suffix has the file's last lines |
| LogTail.Tail | runtime/gnsis_runtime/gnsis_runtime/deferred_app.py:43-56 | the block-wise backward read gives the last lines of the whole file for every block size and every count of at least one |
| LogTail.ShortLogsComeBackWhole | runtime/gnsis_runtime/gnsis_runtime/deferred_app.py:43-56 | a log of no more lines than asked for comes back as it is, with a newline at its end |

## Left out

Store:

- HTTP endpoints, authorisation, S3 calls, tar packing and extraction, captions, the upstream store's contents: parameters or abstract values.
- SHA-256: a digest determines the bytes; its fixed length is not modelled, since no fixed length could be free of collisions.
- Directory removal, rename and the upstream add happen whole or not at all; a half-removed directory is not modelled, and the write path does not promise anything for one.
- Names ending in `.previous` and the backup directory of a restore: no code creates such a namespace, and the swap is one step here.
- A namespace named `.` shares its directory with the data root in the source; here every name has a directory of its own.
- Damaged metadata files, and objects that appear some time after their upload failed.
- Restoring to an incomplete directory: shown not to happen, because what is archived is complete.
- Whitespace other than ASCII when a name is stripped.

Voice:

- Device capture, playback scheduling, bytes on the socket, screen frames and talker state.
- The correlation id of one event being the text made from another event's epoch: keys are compared as given.
- Receipts are keyed by object identity in the source; an identity reused after its event was dropped is not modelled.
- Uniqueness of (generation, sequence) for late chunks of an old generation: the counter is shared, and repeats can occur.
- In which order playbacks found overdue at the same moment expire.
- Timeline events, the epoch argument of the model-output notes, and callers that change a tracked result they were handed.

Acting:

- `fit` and its limit on a response's length; JSON escaping can exceed it.
- What an action does, permissions, confirmation dialogs and progress messages while they are shown. A timeout between the moment the lease becomes free and the moment a waiting call notices it is taken to come too late.
- Text other than ASCII, where folding also drops accents.
- The wording of a verdict's reason and of the explanation read to the person.
- Keys of a tool result that JavaScript treats specially (`__proto__`), and how a typed command is parsed: `commandOf` is a parameter.
- What happens on the foreground model's path beyond that it was taken.

Streams and transport:

- Floating point: loudness is compared exactly on integer samples, positions and samples are reals.
- What a recognizer says, routing between recognizers and the back-off after an outage: whether one takes utterances is a field that changes between events.
- Sending screen frames, and control messages the screen socket receives.
- Decoding of a log's bytes, and blanking secrets in it.
