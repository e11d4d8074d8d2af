# Vibertemis: verified models of the backend's protocols

Dafny models of the parts of Vibertemis where several things must stay consistent over time: the
rolling updater, the single-instance and shutdown protocol, the crash log, the visible app list, the
persistence of hosts, the two installers, and the framing of diagnostic reports. Each file follows
one component, keeps its branches, constants and error codes, and proves what the component is for. A
module is named like its file and holds the program's class under the program's own name.

`dafny verify dfyconfig.toml` checks everything.

## What is here

- **Updater** (`AutoUpdate`, `UpdateStateMachine`, `RollingUpdateParser`, `PendingUpdate`,
  `PendingRecordCodec`, with `UpdateTypes` and `UpdateWorld`). `AutoUpdateChecker` is a class whose
  methods are the program's operations and event handlers. Its fields stand in one record, `now`, so
  that what a step means is a function of that record and its invariants are lemmas about records.
  Three fields exist for the proofs only: the replies heard in the current verification (`evidence`,
  `tagDocuments`) and whether an installation is wanted (`userAsked`). `handOffs` records every file
  given to the installer. `Run` is the main result: any sequence of inputs. Replies, chunk sizes,
  free space, failures of the disk, the session mode and the installer's answers are arbitrary.
- **Shutdown and single instance** (`Shutdown`, `SingleInstance`, `ReplacementProtocol`). The classes
  carry the code; two state machines, over the same functions, carry the interleavings of threads and
  of processes.
- **Crash log** (`CrashRing`, `CrashFreeze`). The array, and separately the spinlock and crash flag
  with one step for every byte stored.
- **App list** (`AppListModel`), **hosts** (`HostPersistence`), **installers** (`FlatpakInstall`,
  `DesktopPortal`, with `Runs`), **reports** (`Crc32`, `Diagnostics`).

## What turned out not to hold, and exactly when it does

- The final assertion of `updateAppList` fails for some lists that `sortAppList` produces: ties in the
  lower-cased name are enough. `AppListModel.MergeIsExact` gives the exact condition.
- A crash during the first flush after a crash can lose every host, because beginning to write the
  backup array takes away the leftover backup's size while the primary copy is still missing.
  `HostPersistence.HostSettings.Flush` gives the exact condition.
- The destructor interrupts and wakes the flush thread without its mutex. The wake-up is missed if and
  only if it comes between the thread's look at the interruption and its wait, and the destructor then
  waits until a request or a spurious wake-up (`HostPersistence.InterruptionIsMissedExactly`,
  `ExitFollowsExactly`, `MissedLasts`; `InterruptionCanBeMissed` is one such run).
- `parseDecimal` also accepts a decimal followed by one newline: the pattern's `$` stands before a
  final newline, and the conversion ignores surrounding white space
  (`PendingRecordCodec.ParseDecimalAccepts`).
- The order of start and exit matters once sixteen other processes have ended first
  (`FlatpakInstall.OrderDoesNotMatter`), and the order of path and decision once eight other request
  paths were answered (`DesktopPortal.OrderDoesNotMatter`).
- On the desktop portal a failure noticed while opening is reported later, and then ends whatever
  request is under way. A good request is ended by it if and only if an open before it was refused, or
  not monitorable, and its failure is still to come, or another open has come since
  (`DesktopPortal.FailureEndsRequest`; `RefusedOpenEndsTheNext` is one such run). The updater makes no
  second open of that kind: it opens only from ReadyToHandOff, and in HandingOff nothing happens before
  the installer has answered (`AutoUpdateChecker.Handle`). For such a caller the portal stays orderly if
  and only if the failure of a request that could not be monitored, which is queued without delay, is
  not overtaken by another answer to that request (`DesktopPortal.OrderlyExactly`); then each open gets
  exactly one response and no good request is ended by a failure (`OneResponseEach`).
- A pending record with a date outside the years 1 to 9999 passes the checks made before saving and
  does not read back (`PendingRecordCodec.RecordRoundTrip`, `FarDateIsLost`). The publisher's dates are
  read from ISO text, which has no such years.
- After a check from ReadyToHandOff the old verified file stays with the old expected candidate. A
  later retry may revalidate that old candidate while a newer one is shown; it is still handed out only
  if the publisher then confirms it, which is why the invariant ties the file to the expected candidate
  and not to the one shown.

## Assumptions

SHA-256, JSON text, UTC date text, URL approval, the parsing of published documents, `QString::toLower`,
qCompress and raw inflation are uninterpreted functions. Two laws are named and required where used.
`PendingRecordCodec.Lawful` says that the JSON text of a record that may be saved reads as the document
it came from, and that exactly the UTC dates of the years 1 to 9999 print to a text that reads back; the
record round trips and what a saved record loads as rest on it, and nothing else in the updater does:
`Valid`, `Handle`, `Run` and the safety of hand-offs need no law. `Diagnostics.ZlibIsSound` says that
inflating undoes compressing. A settings array without a completed `endArray` reads as empty. The
instance lock is exclusive and ends with its process; each launch has its own generation; the file
system has one actor. The time bound of `Enter` takes exchanges to honour their deadlines, a nap to
last 25 ms, and local steps to take no time.

## Model

| member | source | states |
|---|---|---|
| `AutoUpdate.AutoUpdateChecker.Run` | app/backend/autoupdatechecker.cpp:396-1361 | after any sequence of user actions, network replies, timeouts and installer answers: a reply is outstanding exactly in Checking, Downloading, Verifying and RestoringPending and its stage fits that state; every file given to the installer so far went out safely; the disk is contained; at most 234 replies have ended since the last user action; and without a request to install nothing went out at all |
| `AutoUpdate.AutoUpdateChecker.Handle` | app/backend/autoupdatechecker.cpp:396-1361 | one input keeps all of that; outside user actions the bound on replies to come never rises and falls with every reply that ends; an input that cannot ask for an installation never creates the wish for one, and then only a wish that was already there lets a file out; after a file has gone out nothing changes and no other goes out before the installer has answered |
| `AutoUpdate.HandOffIsSafe` | app/backend/autoupdatechecker.cpp:679-701 | from ReadyToHandOff in an install-capable session the file given out has the expected candidate's size and SHA-256, is open read-only, and release, manifest and tag all matched that candidate in the replies heard since the last entry to Verifying or RestoringPending |
| `AutoUpdate.HandOffIsWhatWasPublished` | app/backend/autoupdatechecker.cpp:929-969 | for the bytes themselves: they have the size and digest of the manifest reply of this very verification, for the release replied then, built from the commit the tag replies lead to |
| `AutoUpdate.RankBound` | app/backend/autoupdatechecker.cpp:25-31 | a settled updater has at most 234 replies ahead of it (19 revalidation stages and 20 check stages, six replies each), and at least one while a reply is outstanding |
| `AutoUpdate.AutoUpdateChecker.HandleReplyFinished` | app/backend/autoupdatechecker.cpp:868-927 | every finished reply strictly lowers the number of replies still possible; a file goes out only if installation after verification had been asked for |
| `AutoUpdate.AutoUpdateChecker.ConcludeReply` | app/backend/autoupdatechecker.cpp:880-926 | a redirect is followed with the same stage and limit and one redirect more, at most five times and only to approved addresses; any other non-2xx status or a network error fails the operation, as RateLimited exactly for a rate-limited 403 |
| `AutoUpdate.AutoUpdateChecker.FollowRedirect` | app/backend/autoupdatechecker.cpp:899-909 | the reply budget of a stage pays for its redirects |
| `AutoUpdate.AutoUpdateChecker.UseBody` | app/backend/autoupdatechecker.cpp:911-926 | a body reaches its stage's handler only after a 2xx status without a network error |
| `AutoUpdate.AutoUpdateChecker.HandleRequestSuccess` | app/backend/autoupdatechecker.cpp:929-969 | every stage's handler leaves the updater settled with fewer stages ahead |
| `AutoUpdate.AutoUpdateChecker.IssueRequest` | app/backend/autoupdatechecker.cpp:710-760 | never finds another request active; sends exactly the given request, or ends the operation in its own error state |
| `AutoUpdate.RequestSettles` | app/backend/autoupdatechecker.cpp:710-760 | a request that is sent leaves the updater waiting for exactly that reply, with file, candidate and flags untouched |
| `AutoUpdate.AutoUpdateChecker.HandleReplyMetadata` | app/backend/autoupdatechecker.cpp:762-789 | a declared body that is too long or unreadable fails the operation, as SizeMismatch exactly for the download; anything else changes nothing |
| `AutoUpdate.AutoUpdateChecker.HandleTimeout` | app/backend/autoupdatechecker.cpp:1026-1040 | a timer ends the operation with Timeout, and does nothing when no request is outstanding |
| `AutoUpdate.AutoUpdateChecker.HandleRequestFailure` | app/backend/autoupdatechecker.cpp:971-976 | ends the request, then the operation |
| `AutoUpdate.AutoUpdateChecker.FailForActiveOperation` | app/backend/autoupdatechecker.cpp:978-1009 | ends in the error state of the operation that was in progress, with the disk untouched unless a download ended; a persisted candidate the publisher has replaced is forgotten instead, with its file, and a fresh check begins |
| `AutoUpdate.FailedSettles` | app/backend/autoupdatechecker.cpp:978-1009 | every failure leaves a settled updater: no request, no part file, no wish to install, and the verified file and its candidate still agreeing |
| `AutoUpdate.AutoUpdateChecker.InvalidatePendingAndCheck` | app/backend/autoupdatechecker.cpp:370-394 | no file, record, candidate, path or flag of the pending update is left, on disk nothing but its record and its own payload is gone, and at most 120 replies follow |
| `AutoUpdate.AutoUpdateChecker.ConsumeReplyBody` | app/backend/autoupdatechecker.cpp:801-866 | takes in a first part of what arrived and changes nothing else; never more than the limit; a discarded body changes nothing |
| `AutoUpdate.AutoUpdateChecker.ConsumeDownload` | app/backend/autoupdatechecker.cpp:828-865 | what is hashed and what is counted are the bytes taken, in order, within the published size |
| `AutoUpdate.AutoUpdateChecker.ConsumeDocument` | app/backend/autoupdatechecker.cpp:828-850 | a document grows by the bytes taken, in order, within its limit |
| `AutoUpdate.AutoUpdateChecker.FinishStableResponse` | app/backend/autoupdatechecker.cpp:1042-1072 | CheckError on a malformed list, otherwise Available with just label and page exactly when the selected release is newer, else NoUpdate |
| `AutoUpdate.AutoUpdateChecker.FinishRollingRelease` | app/backend/autoupdatechecker.cpp:1074-1085 | goes on to the manifest of exactly the parsed release, or to CheckError |
| `AutoUpdate.AutoUpdateChecker.FinishRollingManifest` | app/backend/autoupdatechecker.cpp:1087-1097 | goes on to the tag with exactly the parsed candidate, or to CheckError |
| `AutoUpdate.AutoUpdateChecker.FinishTagReference` | app/backend/autoupdatechecker.cpp:1107-1157 | a reference to a tag object is kept as parsed and its target asked for next, from an empty chain; otherwise the chain ends; on the checking and the revalidating path alike |
| `AutoUpdate.AutoUpdateChecker.ResolveCurrentTagObject` | app/backend/autoupdatechecker.cpp:1159-1173 | asks for the object the chain points at now, and for no more than sixteen |
| `AutoUpdate.AutoUpdateChecker.FinishTagObject` | app/backend/autoupdatechecker.cpp:1175-1225 | lengthens the chain by exactly the parsed object and asks for its target, or ends the chain; the reply budget pays for both |
| `AutoUpdate.TagIsRead` | app/backend/autoupdatechecker.cpp:1117-1135 | the resolution used to match or bind a candidate is the one the heard reference and objects lead to |
| `AutoUpdate.AutoUpdateChecker.FinishRevalidateRelease` | app/backend/autoupdatechecker.cpp:936-947 | goes on only if the release reply matches the expected candidate |
| `AutoUpdate.AutoUpdateChecker.FinishRevalidateManifest` | app/backend/autoupdatechecker.cpp:960-968 | goes on only if the manifest reply matches the expected candidate |
| `AutoUpdate.AutoUpdateChecker.ConcludeRevalidation` | app/backend/autoupdatechecker.cpp:1128-1136 | goes on only if the tag's resolution matches the expected candidate; otherwise nothing goes out and the verification ends with PublisherChanged, or the persisted candidate is given up |
| `AutoUpdate.AutoUpdateChecker.ConcludeTag` | app/backend/autoupdatechecker.cpp:1118-1153 | a defect of the tag or a resolution that does not match means PublisherChanged while revalidating, and the defect's own error while checking; nothing goes out then |
| `AutoUpdate.AutoUpdateChecker.BindAndCompare` | app/backend/autoupdatechecker.cpp:1143-1152 | compares the running commit with the commit the candidate was bound to |
| `AutoUpdate.AutoUpdateChecker.FinishCompare` | app/backend/autoupdatechecker.cpp:1227-1249 | Available exactly when the candidate is ahead by ancestry and by sequence and both commits are well formed; CheckError exactly when the relation is unknown |
| `AutoUpdate.AutoUpdateChecker.FinishFlatpakDownload` | app/backend/autoupdatechecker.cpp:1251-1293 | goes on to revalidation only with a file whose digest is the candidate's, held as the expected candidate's file |
| `AutoUpdate.AutoUpdateChecker.FinishRevalidation` | app/backend/autoupdatechecker.cpp:1303-1361 | ready only for the same expected candidate, with every persisted-candidate flag cleared, and after a fresh download only once a record naming that candidate is on disk next to its intact payload |
| `AutoUpdate.AutoUpdateChecker.RevalidatePersisted` | app/backend/autoupdatechecker.cpp:1307-1342 | the file that becomes ready or goes out was opened anew under the record's path, with the record's size and digest on the disk of that moment, for the expected candidate |
| `AutoUpdate.AutoUpdateChecker.ReopenFailed` | app/backend/autoupdatechecker.cpp:1312-1335 | a read failure may be retried; any other defect gives the pending update up and checks afresh |
| `AutoUpdate.ReopenedMatches` | app/backend/autoupdatechecker.cpp:1309-1311 | what the store verified against the record is the expected candidate's file |
| `AutoUpdate.NothingLeftToProve` | app/backend/autoupdatechecker.cpp:1303-1361 | with the three matches and a file that fits the expected candidate, everything a hand-off needs is established |
| `AutoUpdate.AutoUpdateChecker.ConcludeVerification` | app/backend/autoupdatechecker.cpp:1343-1360 | ReadyForDesktop exactly when the session cannot install; a file goes out here only on an earlier request |
| `AutoUpdate.AutoUpdateChecker.SaveVerifiedPending` | app/backend/autoupdatechecker.cpp:1363-1381 | the record kept is on disk with its payload intact and names the expected candidate and the verified file's path, so it is what a later run loads if its dates have four-digit years; otherwise the operation fails with IoFailure |
| `AutoUpdate.AutoUpdateChecker.OpenInstaller` | app/backend/autoupdatechecker.cpp:679-701 | gives the file out exactly from ReadyToHandOff in a session that can install right now |
| `AutoUpdate.AutoUpdateChecker.GiveFile` | app/backend/autoupdatechecker.cpp:694-700 | the one place a file goes out; it keeps every file so far safe |
| `AutoUpdate.AutoUpdateChecker.HandlePortalResponse` | app/backend/autoupdatechecker.cpp:183-214 | only in HandingOff: Installed only from a direct installer's success, HandOffRequested from a portal's, InstallationUnknown or HandOffError otherwise |
| `AutoUpdate.AutoUpdateChecker.CheckNow` | app/backend/autoupdatechecker.cpp:447-469 | refused while anything else is going on; otherwise a check begins with every persisted-candidate flag cleared, and the verified file and its candidate stay together |
| `AutoUpdate.CheckBegins` | app/backend/autoupdatechecker.cpp:447-469 | a check may begin next to a verified file, and the file still matches its candidate |
| `AutoUpdate.AutoUpdateChecker.DownloadUpdate` | app/backend/autoupdatechecker.cpp:512-537 | asks for exactly the candidate's asset and size with an empty part file and digest, or ends in DownloadError |
| `AutoUpdate.AutoUpdateChecker.InstallUpdate` | app/backend/autoupdatechecker.cpp:498-510 | the only file it can give out is one explicitly asked for from ReadyToHandOff; from either state the wish survives only with a direct installer in a session that can install |
| `AutoUpdate.AutoUpdateChecker.Cancel` | app/backend/autoupdatechecker.cpp:539-563 | from any cancellable state: Cancelled, no request, no file, no wish |
| `AutoUpdate.CancelSettles` | app/backend/autoupdatechecker.cpp:539-563 | cancelling leaves a settled updater whatever was going on |
| `AutoUpdate.AutoUpdateChecker.DiscardPendingUpdate` | app/backend/autoupdatechecker.cpp:653-677 | cancels, or forgets the requested hand-off, or does nothing |
| `AutoUpdate.AutoUpdateChecker.RetryWork` | app/backend/autoupdatechecker.cpp:565-651 | keeps all invariants whatever is retried; only a hand-off retry may create a wish to install |
| `AutoUpdate.AutoUpdateChecker.RetryDownload` | app/backend/autoupdatechecker.cpp:576-590 | with a verified file still there only the publisher is asked again; otherwise the update is on offer again |
| `AutoUpdate.VerifyingAgainIsReady` | app/backend/autoupdatechecker.cpp:582-588 | the short way back to Verifying keeps file, candidate and flags |
| `AutoUpdate.AutoUpdateChecker.RetryHandOff` | app/backend/autoupdatechecker.cpp:630-642 | revalidates the persisted candidate; the wish is there exactly with a direct installer in a session that can install |
| `AutoUpdate.AutoUpdateChecker.RetryReady` | app/backend/autoupdatechecker.cpp:643-650 | revalidates, keeping the wish as it was |
| `AutoUpdate.AutoUpdateChecker.RetryRestoration` | app/backend/autoupdatechecker.cpp:591-629 | asks the publisher about the same record again, or loads the record again first |
| `AutoUpdate.AutoUpdateChecker.TakeUp` | app/backend/autoupdatechecker.cpp:404-444 | a record for the running commit means NoUpdate; another is revalidated as its own candidate; an unreadable one waits in RestoreError |
| `AutoUpdate.AutoUpdateChecker.Start` | app/backend/autoupdatechecker.cpp:396-445 | only from Idle: restores a pending update of another commit, or checks; never lets a file out |
| `UpdateStateMachine.HandOffFollowsVerification` | app/backend/updatestatemachine.cpp:28-113 | however events come, HandingOff was entered straight out of a stay in ReadyToHandOff that began with passing verification in an install-capable session |
| `UpdateStateMachine.ReadyEntry` | app/backend/updatestatemachine.cpp:28-113 | finds where the current stay in ReadyToHandOff began |
| `UpdateStateMachine.HandOffEntry` | app/backend/updatestatemachine.cpp:28-113 | finds where the current stay in HandingOff began |
| `UpdateStateMachine.CheckStaysPossible` | app/backend/updatestatemachine.cpp:28-113 | some sequence of events leads to a fresh check exactly from the states other than Installed and InstallationUnknown |
| `UpdateStateMachine.RouteArrives` | app/backend/updatestatemachine.cpp:28-113 | a route of at most three events does so |
| `UpdateStateMachine.TerminalAbsorbs` | app/backend/updatestatemachine.cpp:28-113 | Installed and InstallationUnknown are never left |
| `RollingUpdateParser.ResolveTagCommit` | app/backend/rollingupdateparser.cpp:397-457 | succeeds exactly when reference and objects are well formed with distinct ids and following targets arrives at a commit-typed object, and returns that end; cycles and gaps fail; each hop uses up an id |
| `RollingUpdateParser.ChainEndIsUnique` | app/backend/rollingupdateparser.cpp:425-456 | a chain has one end, at one distance |
| `RollingUpdateParser.WalkCannotSkipCommit` | app/backend/rollingupdateparser.cpp:425-456 | no walk passes a commit |
| `RollingUpdateParser.CycleReachesNothing` | app/backend/rollingupdateparser.cpp:428-432 | no commit lies on or after a cycle |
| `RollingUpdateParser.DeadEnd` | app/backend/rollingupdateparser.cpp:425-456 | where the walk gets stuck, nothing was reachable from its start either |
| `RollingUpdateParser.CollectIds` | app/backend/rollingupdateparser.cpp:407-417 | accepts exactly well-formed objects with distinct ids |
| `RollingUpdateParser.FindObject` | app/backend/rollingupdateparser.cpp:433-455 | finds the object of an id exactly if there is one |
| `RollingUpdateParser.BindingIsWhatMatches` | app/backend/rollingupdateparser.cpp:459-474 | a candidate bound to a resolution is matched later by that same resolution and by no other |
| `PendingRecordCodec.RecordRoundTrip` | app/backend/pendingupdate.cpp:218-262 | a record the save checks admit is read back from its own text unchanged if and only if its four dates lie in the years 1 to 9999, the ones ISO text can hold |
| `PendingRecordCodec.CandidateRoundTrip` | app/backend/pendingupdate.cpp:149-216 | the same for the candidate in it |
| `PendingRecordCodec.AssetRoundTrip` | app/backend/pendingupdate.cpp:106-147 | the same for an asset and its one date |
| `PendingRecordCodec.FarDateIsLost` | app/backend/pendingupdate.cpp:78-99 | any record that may be saved, with year 10000 put in as its publication date, may still be saved and is not read back |
| `PendingRecordCodec.ParsedRecordIsSavable` | app/backend/pendingupdate.cpp:230-262 | whatever is read from any text satisfies the save checks, has its dates in those years, and prints to a text that reads the same |
| `PendingRecordCodec.ParseTimestampAccepts` | app/backend/pendingupdate.cpp:78-99 | a text is taken for a time exactly if the time lies in those years and prints as this very text |
| `PendingRecordCodec.ParseDecimalAccepts` | app/backend/pendingupdate.cpp:62-76 | accepts exactly the canonical decimals of 1 to 2^64-1, each with or without one newline behind it |
| `PendingRecordCodec.NewlineIsAccepted` | app/backend/pendingupdate.cpp:62-76 | the input "12" with a newline behind it is taken as 12, so the accepted texts are more than the canonical ones |
| `PendingRecordCodec.PrintUndoesValue` | app/backend/pendingupdate.cpp:106-117 | printing the value of a canonical decimal gives the decimal back |
| `PendingRecordCodec.NumberRoundTrip` | app/backend/pendingupdate.cpp:106-147 | every printed number is read back |
| `PendingRecordCodec.ExactKeysMeansSameKeys` | app/backend/pendingupdate.cpp:49-60 | same size and all keys present means exactly these keys |
| `PendingUpdate.PendingUpdateStore.FinalizeAndVerify` | app/backend/pendingupdate.cpp:489-581 | on success the final path holds exactly the candidate's bytes, whatever was there; on failure what is there is what was there before or the candidate's bytes |
| `PendingUpdate.PendingUpdateStore.RenameVerified` | app/backend/pendingupdate.cpp:520-581 | only bytes of the candidate's size and digest get the final name |
| `PendingUpdate.PendingUpdateStore.CreateDownload` | app/backend/pendingupdate.cpp:447-487 | a new, empty part file, only when size and safety margin fit the free space |
| `PendingUpdate.PendingUpdateStore.Save` | app/backend/pendingupdate.cpp:611-647 | on success the record's text is stored next to its intact payload, and it is what will be loaded if and only if its dates lie in the years 1 to 9999; on failure nothing changed |
| `PendingUpdate.PendingUpdateStore.Load` | app/backend/pendingupdate.cpp:649-687 | returns exactly the stored record with an intact payload; one that cannot be trusted is not loadable afterwards either; a read failure changes nothing |
| `PendingUpdate.PendingUpdateStore.SavedIsStored` | app/backend/pendingupdate.cpp:611-687 | saving then loading on an otherwise untouched disk gives the same record, exactly under that condition on its dates |
| `PendingUpdate.PendingUpdateStore.KeptIsStored` | app/backend/pendingupdate.cpp:649-687 | whenever a record's text and intact payload are on disk, loading finds that record, exactly under that condition |
| `PendingUpdate.PendingUpdateStore.Clear` | app/backend/pendingupdate.cpp:689-700 | deletes at most the record and, if asked, the payload that record owns |
| `PendingUpdate.PendingUpdateStore.ReopenAndVerify` | app/backend/pendingupdate.cpp:583-609 | opens the recorded payload only if record, current candidate and bytes all agree |
| `PendingUpdate.PendingUpdateStore.OpenAndVerify` | app/backend/pendingupdate.cpp:723-813 | success means a regular file directly in Downloads with this size and digest |
| `PendingUpdate.PendingUpdateStore.HashContent` | app/backend/pendingupdate.cpp:768-802 | the chunked loop accepts exactly bytes of the expected size and digest |
| `PendingUpdate.PendingUpdateStore.CleanStaleParts` | app/backend/pendingupdate.cpp:702-721 | deletes only part files not written for a day |
| `PendingUpdate.PendingUpdateStore.AppendTemporary` | app/backend/autoupdatechecker.cpp:852-858 | only the part file is written: at its end, or, when the write fails, with any content |
| `PendingUpdate.PendingUpdateStore.Remove` | app/backend/pendingupdate.cpp:849-874 | only owned names are ever deleted |
| `PendingUpdate.PendingUpdateStore.FinalPathIsOwned` | app/backend/pendingupdate.cpp:820-832 | the final path is artemis-steam-deck-, twelve hex digits and .flatpak directly in Downloads |
| `PendingUpdate.PendingUpdateStore.RecordIsNotFinal` | app/backend/pendingupdate.cpp:834-847 | the record and a payload are never the same file |
| `Shutdown.NothingMissed` | app/backend/shutdowncoordinator.cpp:120-151 | for every interleaving: once all calls have returned the session there now has been told, and the dispatcher there now has been run exactly when it came after the request or the request found no session |
| `Shutdown.FirstReasonIsPermanent` | app/backend/shutdowncoordinator.cpp:120-137 | the first reason and its deadline never change, and everyone told is told that reason |
| `Shutdown.NotToldAfterRemoval` | app/backend/shutdowncoordinator.cpp:159-182 | no session is told after its removal returned unless it registered again |
| `Shutdown.OnlyLatestDispatcherRuns` | app/backend/shutdowncoordinator.cpp:147-152 | no dispatcher runs after it was replaced or removed |
| `Shutdown.InvariantAlways` | app/backend/shutdowncoordinator.cpp:120-182 | fields and history agree and no one who has to be told is forgotten, after every step of every interleaving |
| `Shutdown.RecoveryOutlivesSession` | app/backend/shutdowncoordinator.cpp:159-185 | what a session leaves for recovery stays visible until cleared by its own context or displaced |
| `Shutdown.RemainingFalls` | app/backend/shutdowncoordinator.cpp:142-146 | the time left falls from five seconds to nothing and never rises |
| `Shutdown.ShutdownCoordinator.RequestShutdown` | app/backend/shutdowncoordinator.cpp:120-137 | one request, uninterrupted, is a run of the interleaved machine: the first one tells the session, or else runs the dispatcher; later ones do nothing |
| `Shutdown.ShutdownCoordinator.SetQuitDispatcher` | app/backend/shutdowncoordinator.cpp:147-152 | runs the new dispatcher at once exactly when a shutdown has been requested |
| `Shutdown.ShutdownCoordinator.RegisterSession` | app/backend/shutdowncoordinator.cpp:159-165 | tells a late session at once, with the one reason |
| `Shutdown.ActiveSessionRegistry.UnregisterSession` | app/backend/shutdowncoordinator.cpp:166-172 | only the registered context is removed, leaving its snapshot for recovery if asked |
| `Shutdown.ActiveSessionRegistry.ClearRecovery` | app/backend/shutdowncoordinator.cpp:173-176 | only the context it belongs to clears a recovery |
| `SingleInstance.Guard.Enter` | app/backend/instanceguard.cpp:124-172 | ends within 12,025 ms, the deadline moving at most once; sends at most one request to make way, from a gaming launch to a gaming program seen to have started strictly earlier; Primary only with the lock; a handoff only from a program that said it was closing |
| `SingleInstance.Guard.AskOnce` | app/backend/instanceguard.cpp:144-168 | one round of that wait: two requests at most, within the deadline; the wait starts anew only on the first notice that the running program is closing |
| `SingleInstance.Guard.Serve` | app/backend/instanceguard.cpp:204-250 | once a request to make way is answered, every later answer that carries a handoff carries the same one; a valid handoff that is carried was visible in the session registry or is the one this program was handed |
| `SingleInstance.Guard.Acquire` | app/backend/instanceguard.cpp:106-123 | a lock once held stays held |
| `ReplacementProtocol.HandoffProvenance` | app/backend/instanceguard.cpp:151-247 | for any number of processes, lost and late messages and deaths: a valid handoff held anywhere, after any number of replacements, is one a session registry held |
| `ReplacementProtocol.HeldWasRegistered` | app/backend/shutdowncoordinator.cpp:159-165 | and what was held had been registered by a running process |
| `ReplacementProtocol.PromiseIsFinal` | app/backend/instanceguard.cpp:233-242 | across the whole run a server that answered a request to make way never carries another handoff |
| `ReplacementProtocol.OnePrimary` | app/backend/instanceguard.cpp:106-123 | at most one live process is the running one |
| `ReplacementProtocol.OneReplaceEach` | app/backend/instanceguard.cpp:156-160 | a launch sends at most one request to make way |
| `ReplacementProtocol.ChainsRise` | app/backend/instanceguard.cpp:156-160 | along any chain of replacements launch times strictly rise, all sessions gaming, so no chain comes back |
| `ReplacementProtocol.InvariantAlways` | app/backend/instanceguard.cpp:124-250 | the conjunction of these holds after every step |
| `AppListModel.MergeIsExact` | app/gui/appmodel.cpp:154-205 | for unique ids, the merge ends with exactly the new list if and only if surviving apps keep their order, the new list's lower-cased names never fall, and no added app ties with or follows a survivor that comes after it |
| `AppListModel.DistinctNamesSuffice` | app/gui/appmodel.cpp:154-205 | with strictly rising names only the survivors' order is left to ask |
| `AppListModel.TieGoesWrong` | app/backend/nvcomputer.cpp:126-131 | the stable sort allows two equal names, and an app added before its namesake then ends up behind it |
| `AppListModel.ExactNeedsOrder` | app/gui/appmodel.cpp:180-205 | the three conditions are necessary |
| `AppListModel.MergeFollowsIdeal` | app/gui/appmodel.cpp:180-205 | the three conditions suffice, stage by stage |
| `AppListModel.AppModel.UpdateAppList` | app/gui/appmodel.cpp:148-206 | the visible list is the merge of the survivors with the new visible list, and a view that replays the row signals shows exactly it |
| `AppListModel.AppModel.RemoveAndReplace` | app/gui/appmodel.cpp:154-178 | the first pass leaves the old apps that are still there, as the new list describes them, one signal for each change |
| `AppListModel.AppModel.AddNew` | app/gui/appmodel.cpp:180-203 | the second pass adds each new app where its scan stops |
| `AppListModel.AppModel.Scan` | app/gui/appmodel.cpp:182-196 | the scan stops at the app's own id, at the first later name, or at the end |
| `AppListModel.AppModel.FindById` | app/gui/appmodel.cpp:158-170 | finds the first app with an id |
| `AppListModel.AppModel.GetVisibleApps` | app/gui/appmodel.cpp:132-146 | the apps that are shown, in the list's order |
| `AppListModel.AppModel.IsAppCurrentlyVisible` | app/gui/appmodel.cpp:121-130 | whether the id is visible now |
| `AppListModel.VisibleKeepsOrder` | app/gui/appmodel.cpp:132-146 | a sorted list with unique ids shows as a sorted list with unique ids |
| `AppListModel.VisibleStaysVisible` | app/gui/appmodel.cpp:137-142 | an app that was visible stays visible while it is in the list, hidden or not |
| `CrashRing.CrashRingBuffer.Append` | app/backend/crashringbuffer.cpp:56-110 | the array stands for the last 65,536 bytes of everything appended, each message cut to its first 65,536 bytes; nothing changes during a crash |
| `CrashRing.CrashRingBuffer.Snapshot` | app/backend/crashringbuffer.cpp:122-164 | the first bytes, as many as fit, of that tail; the rest of the caller's buffer untouched |
| `CrashRing.CrashRingBuffer.SnapshotToFd` | app/backend/crashringbuffer.cpp:166-198 | when every byte is accepted, what arrived is that tail |
| `CrashRing.WriteAll` | app/backend/crashringbuffer.cpp:18-34 | writes a prefix, all of it unless the descriptor breaks or 1,024 attempts are used up |
| `CrashRing.RunsAreTail` | app/backend/crashringbuffer.cpp:122-164 | the run from the write position and the run before it, put together, are the tail, before and after wrapping |
| `CrashFreeze.FrozenAfterCrash` | app/backend/crashringbuffer.cpp:56-120 | for any threads and interleaving: once the crash flag is set only the one append already past its second check can still change buffer, index or wrap flag; without it they never change |
| `CrashFreeze.AppendsDoNotMix` | app/backend/crashringbuffer.cpp:79-109 | whenever no append is half done the array is the tail of all messages, each whole, in lock order |
| `CrashFreeze.NoNewWriter` | app/backend/crashringbuffer.cpp:79-96 | no append gets past its second check after the flag is set |
| `CrashFreeze.InvariantAlways` | app/backend/crashringbuffer.cpp:56-110 | one holder of the spinlock, and the array right up to the byte it has reached, after every step |
| `HostPersistence.HostSettings.Flush` | app/backend/computermanager.cpp:274-305 | a crash at any step leaves, apps aside, the old hosts or the new ones if and only if there was no leftover backup or the primary copy was acceptable too; undisturbed, it leaves exactly the new ones and no backup |
| `HostPersistence.HostSettings.WriteBackup` | app/backend/computermanager.cpp:278-288 | a crash at any step before the backup is complete leaves the primary copy of before to be read |
| `HostPersistence.HostSettings.WritePrimary` | app/backend/computermanager.cpp:290-301 | a crash at any step from then on, before the primary copy is complete, leaves the backup to be read |
| `HostPersistence.NoLeftoverIsSafe` | app/backend/computermanager.cpp:165-173 | without a leftover backup every flush is safe at every step |
| `HostPersistence.SecondCrashLosesHosts` | app/backend/computermanager.cpp:278-292 | a crash in the next run's first flush, right after a crash in this one, loses every host |
| `HostPersistence.NoRequestLost` | app/backend/computermanager.cpp:244-318 | for every interleaving: the flag is clear exactly when a flush began after every request, and it is clear whenever the thread waits |
| `HostPersistence.ExitIsFinal` | app/backend/computermanager.cpp:244-318 | once the thread has exited, the destructor finds the flag set exactly if it was set then or a request came later; that request is never served |
| `HostPersistence.FlagMeansUnserved` | app/backend/computermanager.cpp:248-270 | the flag is set exactly while a request is unserved |
| `HostPersistence.InterruptionIsMissedExactly` | app/backend/computermanager.cpp:198-259 | for every interleaving: the thread sleeps after the destructor's one wake-up if and only if that wake-up was made between the thread's look and its wait |
| `HostPersistence.MutexWouldSuffice` | app/backend/computermanager.cpp:198-259 | a wake-up made under the mutex would never be missed |
| `HostPersistence.InterruptionCanBeMissed` | app/backend/computermanager.cpp:198-259 | the input that shows it: the thread looks, is interrupted and woken, and waits |
| `HostPersistence.MissedLasts` | app/backend/computermanager.cpp:198-259 | a missed interruption stays missed exactly as long as no request and no spurious wake-up comes |
| `HostPersistence.ExitFollowsExactly` | app/backend/computermanager.cpp:198-271 | after the wake-up six steps of the thread alone end it, with every request served, if and only if the wake-up did not find it between look and wait |
| `FlatpakInstall.OrderDoesNotMatter` | app/backend/flatpakinstaller.cpp:211-235 | hearing of the end of the process before or after its start gives the same one response, if and only if fewer than sixteen other processes ended before it |
| `FlatpakInstall.SuccessMeansExitedZero` | app/backend/flatpakinstaller.cpp:211-235 | success is reported only for a process that was started and ended with status 0 since the open |
| `FlatpakInstall.UnknownBlocks` | app/backend/flatpakinstaller.cpp:238-240 | after an unknown outcome nothing is opened or answered any more |
| `FlatpakInstall.OneResponseEach` | app/backend/flatpakinstaller.cpp:238-292 | every open that is taken up gets one response, unless the installer is still at work |
| `FlatpakInstall.StartThenExit` | app/backend/flatpakinstaller.cpp:211-235 | start first: one response, by the exit status |
| `FlatpakInstall.ExitThenStart` | app/backend/flatpakinstaller.cpp:222-230 | end first: the same response while it was remembered, none if it was not |
| `FlatpakInstall.EarlyExitsCounted` | app/backend/flatpakinstaller.cpp:226-229 | as long as there is room every early exit is remembered |
| `FlatpakInstall.FlatpakInstaller.OnStarted` | app/backend/flatpakinstaller.cpp:211-223 | exactly the specified change and response |
| `FlatpakInstall.FlatpakInstaller.OnExited` | app/backend/flatpakinstaller.cpp:224-235 | exactly the specified change and response |
| `FlatpakInstall.FlatpakInstaller.OpenFlatpak` | app/backend/flatpakinstaller.cpp:238-261 | exactly the specified change and response |
| `DesktopPortal.OrderDoesNotMatter` | app/backend/desktopinstallerportal.cpp:440-505 | hearing the decision before or after the path is known gives the same one response, if and only if fewer than eight other request paths were answered before |
| `DesktopPortal.ReturnedPathIsRequestPath` | app/backend/desktopinstallerportal.cpp:507-521 | the paths accepted are exactly this caller's request paths for a valid token |
| `DesktopPortal.FailureEndsRequest` | app/backend/desktopinstallerportal.cpp:394-438 | for every run: a request not yet answered is ended by the next failure reported from the event loop if and only if an earlier open was refused or not monitorable and its failure is still to come, or this request could not be monitored, or another open came since |
| `DesktopPortal.ResponsesBalance` | app/backend/desktopinstallerportal.cpp:394-521 | for every run: failures noticed are reported or still due, and responses, the request under way, failures due and requests cut short make up the opens, unmonitored ones counted twice |
| `DesktopPortal.RefusedOpenEndsTheNext` | app/backend/desktopinstallerportal.cpp:394-438 | the input that shows it: an open without a usable file, then a good one, then the first one's failure |
| `DesktopPortal.OneResponseEach` | app/backend/desktopinstallerportal.cpp:394-521 | a caller that opens again only after a response gets exactly one response for each open, and no monitored request of its own is ended by a failure, as long as no unmonitored request is answered before its own failure |
| `DesktopPortal.OrderlyExactly` | app/backend/desktopinstallerportal.cpp:394-521 | for such a caller: it waits exactly while its one open is under way or has its failure to come, if and only if no request that could not be monitored is answered before its own failure |
| `DesktopPortal.IsValidHandleToken` | app/backend/desktopinstallerportal.cpp:359-376 | accepts exactly 1 to 255 ASCII letters, digits and underscores |
| `DesktopPortal.DesktopInstallerPortal.OpenFlatpak` | app/backend/desktopinstallerportal.cpp:394-438 | exactly the specified change |
| `DesktopPortal.DesktopInstallerPortal.HandleMethodFinished` | app/backend/desktopinstallerportal.cpp:440-480 | exactly the specified change and response |
| `DesktopPortal.DesktopInstallerPortal.HandleRequestResponse` | app/backend/desktopinstallerportal.cpp:482-505 | exactly the specified change and response |
| `Runs.RoomLeft` | app/backend/flatpakinstaller.cpp:226-229 | a bounded cache has room exactly while fewer keys than its limit were offered |
| `Crc32.Crc32Update` | app/backend/diagnosticreporter.cpp:40-113 | for all inputs the table loop computes the bit-by-bit reflected division of section 8 of RFC 1952 |
| `Crc32.CrcComposes` | app/backend/diagnosticreporter.cpp:40-113 | crc(crc(c, a), b) = crc(c, a + b) |
| `Crc32.ChangedByteIsCaught` | app/backend/diagnosticreporter.cpp:40-113 | any change confined to one byte changes the checksum |
| `Crc32.EntryIsRight` | app/backend/diagnosticreporter.cpp:42-106 | each of the 256 table entries is what eight bit steps make of its index |
| `Crc32.TableStep` | app/backend/diagnosticreporter.cpp:108-111 | eight bit steps are one look at the table |
| `Diagnostics.GzipCompress` | app/backend/diagnosticreporter.cpp:115-194 | ten header bytes, the deflate stream without zlib's framing, and a trailer of CRC-32 and length mod 2^32, little-endian; nothing if zlib gave nothing usable; a fixed member for empty input |
| `Diagnostics.ReportReadsBack` | app/backend/diagnosticreporter.cpp:115-194 | a reader by section 2.3 of RFC 1952 gets the input back from every member produced, trailer checks included |
| `Diagnostics.BuildReport` | app/backend/diagnosticreporter.cpp:538-562 | the first try, halving the log's share each time, that is not too large decides; at most 2 MiB are sent |
| `Diagnostics.TwentyTries` | app/backend/diagnosticreporter.cpp:538-556 | there are at most twenty tries |

## Left out

- Qt signals other than the app list's row signals, QML, logs, messages and progress display: only the state they report is modelled.
- Timers as objects: a timeout is an event that may come at any moment.
- `parseRelease`, `parseManifest`, `parseTagReference`, `parseTagObject`, `parseCommitRelation`, `isApprovedUrl` and the version selector: uninterpreted; what the updater does with their results is modelled.
- `expectedDownloadBytes`, `errorMessage`, `availableBuild` and the manual install command: display only.
- HTTP headers other than Content-Length, the redirect target and the rate limit: not modelled.
- `updatestatemachine.cpp`'s error text and the refused transitions' log lines: a refused event changes nothing.
- Inode, ownership and symlink-race checks of the pending store: a path is a regular file, a symbolic link or neither, and one actor changes it.
- QSaveFile's temporary file: saving the record is atomic or has no effect.
- The watchdog thread, signal pipe and forced exit: only the deadline they use is modelled.
- `setDeadlineDurationMs`: the duration is the constant 5,000 ms.
- Callbacks that call back into the coordinator or registry: not modelled.
- Socket details (credentials, partial reads, message size): an exchange gives a reply or none.
- The activation handler's own effect: `serve` calls it, nothing is said about it.
- Wake-ups and thread scheduling: safety and step counts are proved, not fairness.
- Relaxed memory order of the crash log's atomics: steps are sequentially consistent.
- Snapshots torn by an append in progress: `snapshot` is specified for a ring at rest; `CrashFreeze` says when it is.
- A settings entry is written in one step, with its nested app array: a crash between two keys of one host is not told apart, since the array has no size until `endArray`.
- HostPersistence.HostSettings.Flush: compares hosts apart from their app lists, because the backup is written without them; the undisturbed result is exact.
- The D-Bus transports, file descriptors and command line of the installers, and diagnostics' text: only events, statuses and paths are modelled.
- The upload of a report and its reply: the payload is modelled, the transfer is not.
- `LogScrubber`, pairing, polling, settings, launchers and the other components: not modelled; they would add easy members or rest on regular expressions and cryptography.
