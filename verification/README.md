# WhatsApp ingest daemon: a verified model

This project models the protocols of the WhatsApp ingest daemon in Dafny and proves what they keep. The daemon
stores messages in two transactions with a file write between them, lets each tenant read what is new behind a
cursor, wakes subscribers, pages back through history on request, reloads its allowlist while it runs, and shuts
down with history syncs still under way. Nothing here executes the daemon; every statement in the Model table is a
contract that the verifier has checked.

`dafny verify dfyconfig.toml` checks the whole project.

## How it is built

| part | files |
|---|---|
| strings, decimal numbers, records, ids | `Text.dfy`, `Types.dfy`, `MediaPath.dfy` |
| the store: statements, transactions, class `Writer` | `Store.dfy` |
| the store under interleaving and crashes | `StoreProtocol.dfy`, `WriteSchedule.dfy`, `NaturalKeys.dfy`, `MediaSafety.dfy`, `RunAccounting.dfy`, `LastWrite.dfy`, `Replay.dfy` |
| policy, download and wake-up of one message | `Listener.dfy` |
| the unseen reader, alone and interleaved | `Output.dfy`, `Unseen.dfy`, `UnseenProtocol.dfy` |
| allowlist, reload, group rows | `Config.dfy`, `ReloadProtocol.dfy` |
| coalesced wake-ups, shutdown | `Changes.dfy`, `Shutdown.dfy` |
| history sync, summaries, retries, paging | `HistorySync.dfy`, `Summary.dfy`, `Retry.dfy`, `Backfill.dfy`, `Ending.dfy`, `Coverage.dfy` |
| the control socket | `Control.dfy`, `Replies.dfy` |
| from configuration to stored files and printed lines, from writes to cursors | `EndToEnd.dfy` |

Code that changes state step by step is a class or a method with the loops of the original, proved against
functions of its inputs or its old state; what the daemon promises is then proved about those functions, and about
schedules: sequences of atomic steps in which a step that is not enabled changes nothing, so that every sequence
is a run. `Exec` runs a schedule; the safety results quantify over all of them.

Clocks, I/O results, replies of the phone, cancellations and failures are parameters: an environment record for
one call, an arbitrary trace for a loop, an arbitrary step in a schedule.

Conventions that the statements rely on:

- An id is the string that is fed to SHA-256, and a text hash and a run id likewise, so equality of ids stands
  for equality of hashes under an injective hash.
- A table is a map from its key, the full-text table a sequence of rows. A transaction is one step that applies
  all of its statements or none.
- The daemon's int64 values are unbounded integers; wrap-around is written out where the code can reach it
  (cutoff, back-off doubling, unsigned message times).
- The field `label` of the configuration and of the database is called `chatLabel`.

## What came out

Some promises hold only under a condition, and the model names it:

- A file extension that ends in ".tmp" makes one write's final file another write's temporary file
  (`MediaPath.TmpNameCollision`; a document named so is enough, `MediaSafety.DaemonTitles`); creating a temporary file
  harms no row exactly when no row points at a file of its name (`MediaSafety.OpenSafeExactly`).
- Two writes of one path share a temporary file. A step of one leaves what the other has sent exactly when it
  truncates before the other has sent anything, or writes the very bytes that the other body has there
  (`MediaSafety.TmpKeptExactly`); a rename by one while the other writes never does. A step that does not spare the
  file can reach a row (`MediaSafety.SharedTmpBreaks`), and sparing it is exactly what consistency takes
  (`MediaSafety.InvKeptExactly`).
- One row per message needs lookups that answer and no new source keys (`NaturalKeys.OneRowExactlyWhen`). A replay
  with source keys sends every event to its row exactly when no keyless event is overtaken
  (`Replay.RoutesAgreeExactly`); otherwise a text can change (`Replay.ReplayWithSourceKeysDiffers`).
- Every message has its full-text entry all the time exactly when every commit refreshes the index, or finds it
  missing with the right entry in it, and the table is not lost (`LastWrite.AgreesThroughoutExactly`). The error "no
  such table" means that it was: the daemon goes on without the index, and the schema of its next start creates an
  empty table, so that all texts are gone from the index, and not only those stored in between. It is complete again
  exactly when each of these messages has been stored once more (`LastWrite.RestartForgetsTheIndex`). With "no such
  module" the entries are kept, and those of messages stored in between are missing or old (`LastWrite.IndexFollows`).
- The reader of the configuration looks up "tenants" and "jid" as they are spelled, while `encoding/json` takes keys of
  struct fields in any letter case. So Load accepts a file with "Tenants" that the reader refuses, and one with "JID"
  of which the reader misses a chat; they agree exactly when the keys are in lower case (`Config.ReadersAgree`).
- A history-sync result does not say which request it answers. A request gets a reply to an earlier request for the
  same chat if that wait was given up and its reply came late; it is sure of its own exactly when no reply for the chat
  is owed or in the channel (`ReplyProtocol.OwnReplyExactly`).
- The mark at the end of a run hides a file that nobody saw exactly when the file of a row has been replaced since the
  run fetched it (`UnseenProtocol.HidesUnseenExactly`).
- The empty summary is an identity of merging only for summaries such as the code builds
  (`Summary.LeftIdentityExactly`, `Summary.RightIdentityExactly`).
- The allowlist watcher starts before its consumer subscribes, so a reload in between is lost
  (`ReloadProtocol.SubscriptionTakesOverExactly`).
- A run with `--since-hours` passes rows that it did not print exactly when its cutoff and the next default one both
  lie after the start of the default range (`Unseen.SinceHoursSkipsExactly`,
  `UnseenProtocol.TwoRunsLeaveOutExactly`). The no-missed-message theorem therefore speaks of cutoffs that are no
  later than the default one; it also needs time stamps that are not negative
  (`UnseenProtocol.NegativeTimeIsMissed`), and its overlap is tight (`UnseenProtocol.OverlapIsTight`).

Two facts differ from what comments or names suggest. Marks are set at the end of every run that finds a
successful ingest, also when the cursor does not move (`UnseenProtocol.MarkedOnlyIfPrinted`). And although the
backfill loop pages, a request over the control socket makes at most one chunk, because the limit and the chunk
size are capped at the same number (`Control.OneChunkAtMost`).

## Model

| member | source | states |
|---|---|---|
| NaturalKeys.NeverTwoRows | whatsapp-daemon/internal/writer/writer.go:204-267 | in every interleaving of concurrent writes, failures and crashes, a table with at most one row per (chat, message, sender, time) and ids that match their keys stays so, although the key lookup runs outside the transaction |
| NaturalKeys.LookupStable | whatsapp-daemon/internal/writer/writer.go:323-339 | an upsert under a looked-up key changes the answer of no lookup, of this key or of any other; this is why a stale lookup does no harm |
| NaturalKeys.OneRowExactlyWhen | whatsapp-daemon/internal/writer/writer.go:228-253 | storing a key under a source key keeps one row per key if and only if the key is new or already has that source key |
| NaturalKeys.FailedLookupSplits | whatsapp-daemon/internal/writer/writer.go:333-338 | a lookup that fails (it answers 0) splits every message whose row carries a source key |
| Types.MessageIDInjective | whatsapp-daemon/internal/writer/writer.go:451-455 | the NUL-joined key is injective, source key included, as soon as one of the two keys is free of NUL |
| Types.MessageIDNulCollision | whatsapp-daemon/internal/writer/writer.go:451-455 | two different keys with NUL characters in them that get one id |
| Types.RunIDInjective | whatsapp-daemon/internal/writer/writer.go:462-465 | a run id stands for one message and one second |
| MediaSafety.CrashConsistent | whatsapp-daemon/internal/writer/writer.go:211-287 | after every step and every crash of a schedule in which every call spares the temporary files of the others and no event is stored as "ok" or under a name ending in ".tmp": a row with a local path names a file that holds the complete bytes of a written event placed there, the hydration time is set iff the path is, status ok implies a path, surfaced implies hydrated |
| MediaSafety.InvKeptExactly | whatsapp-daemon/internal/writer/writer.go:211-287 | from a consistent state a step leads to a consistent state if and only if it starts no unacceptable event and spares the temporary files of the other calls |
| MediaSafety.ConsistentOnlyIfCareful | whatsapp-daemon/internal/writer/writer.go:211-287 | so a run whose every state is consistent consists of such steps |
| MediaSafety.TmpKeptExactly | whatsapp-daemon/internal/writer/writer.go:384-400 | a step of one call leaves in the temporary file of another what that one has sent, if and only if the paths differ, or it truncates before the other has sent anything, or it writes bytes that the other body has in that place too |
| MediaSafety.AppendHoldsExactly | whatsapp-daemon/internal/writer/writer.go:388-391 | a write into a file that holds beginnings of two bodies leaves one of the other body if and only if that body has the same bytes there |
| MediaSafety.BackedKept | whatsapp-daemon/internal/writer/writer.go:374-408 | every step keeps a file that a row may point at backed by the complete bytes of a written event |
| MediaSafety.SettledKept | whatsapp-daemon/internal/writer/writer.go:384-401 | no step other than a rename onto it changes a file whose name does not end in ".tmp" |
| MediaSafety.MediaOnlyAdvances | whatsapp-daemon/internal/writer/writer.go:246-253 | along every schedule no row disappears, no attempts counter decreases and no row loses its file |
| MediaSafety.AcceptableInDaemon | whatsapp-daemon/internal/writer/writer.go:374-384 | under the placement of writeMedia the condition on events reads: the status is not "ok" and the extension in use does not end in ".tmp" |
| MediaSafety.DaemonTitles | whatsapp-daemon/internal/auth/auth.go:766-769 | so a downloaded file whose title has a short extension meets that condition if and only if the extension is not .tmp |
| MediaSafety.UpsertConsistentExactly | whatsapp-daemon/internal/writer/writer.go:246-249 | an upsert keeps "ok implies a path" if and only if the event does not claim "ok" for a row without a file |
| MediaSafety.OpenSafeExactly | whatsapp-daemon/internal/writer/writer.go:384-388 | creating a temporary file leaves every row backed if and only if no row points at a file of that name |
| MediaSafety.SharedTmpBreaks | whatsapp-daemon/internal/writer/writer.go:384-400 | a call that has written its whole temporary file, a second call that truncates it, then the rename and the mark of the first: always a row that points at an empty file |
| MediaPath.FinalEndsInTmp | whatsapp-daemon/internal/writer/writer.go:374-384 | a final name ends in ".tmp" exactly when the extension in use does |
| MediaPath.FinalIsNobodysTmp | whatsapp-daemon/internal/writer/writer.go:383-384 | without such an extension no final name is the temporary name of any write |
| MediaPath.TmpNameCollision | whatsapp-daemon/internal/writer/writer.go:383-384 | for every safe message id, the final name of a ".tmp" file is the temporary name of another message |
| MediaPath.FinalInjective | whatsapp-daemon/internal/writer/writer.go:379-383 | equal final names mean equal chat directories and equal file names; no event can place its file outside the directory of its chat |
| MediaPath.SafePathPart | whatsapp-daemon/internal/writer/writer.go:488-496 | the part is never empty, contains no slash and only safe characters, and neither starts nor ends with a dot or an underscore |
| MediaPath.SafePathPartIdempotent | whatsapp-daemon/internal/writer/writer.go:490-496 | sanitising a sanitised part changes nothing |
| MediaPath.SafeCharsAre | whatsapp-daemon/internal/writer/writer.go:488-496 | the safe characters are the two alphabets, the digits, @, dot, underscore and hyphen |
| MediaPath.CleanIsKept | whatsapp-daemon/internal/writer/writer.go:488-496 | a text of safe characters without a dot or underscore at either end is kept as it is |
| MediaPath.RunBecomesUnderscore | whatsapp-daemon/internal/writer/writer.go:488-496 | a run of unsafe characters between two such texts becomes one underscore |
| MediaPath.NothingLeftIsUnknown | whatsapp-daemon/internal/writer/writer.go:488-496 | a text without any other character becomes unknown |
| MediaPath.FinalLiesUnder | whatsapp-daemon/internal/writer/writer.go:374-384 | a file lies in the directory of its chat, right under the root, and is named after its message |
| MediaPath.TypesHaveExtensions | whatsapp-daemon/internal/writer/writer.go:511-525 | without a usable extension the message type decides, in any letter case |
| MediaPath.LowerCaseIs | whatsapp-daemon/internal/writer/writer.go:508 | lower-casing exchanges the letters of the two alphabets one by one and nothing else |
| MediaPath.CleanExt | whatsapp-daemon/internal/writer/writer.go:498-509 | kept exactly when it is not empty, holds neither slash and is at most twelve characters long with its dot; a kept one starts with a dot |
| MediaPath.CleanExtIdempotent | whatsapp-daemon/internal/writer/writer.go:498-509 | a cleaned extension is kept as it is |
| MediaPath.TitleDecidesTmp | whatsapp-daemon/internal/auth/auth.go:766-769 | a short extension in the title decides: the file is a ".tmp" one exactly when the title ends in .tmp, in any case |
| MediaPath.TitleWithDot | whatsapp-daemon/internal/auth/auth.go:766-769 | the extension of a title is what follows its last dot, unless it is longer than twelve characters; then the type decides |
| MediaPath.TitleWithoutDot | whatsapp-daemon/internal/auth/auth.go:766-769 | a title without a dot in its last part leaves it to the type |
| LastWrite.LastWriteWins | whatsapp-daemon/internal/writer/writer.go:228-253 | after every schedule a row has the identity columns of the first event of its id (or of the row that was there) and the content columns of the last committed one, and exactly the ids with an event or an initial row have rows |
| LastWrite.ColumnsReadBack | whatsapp-daemon/internal/writer/writer.go:228-259 | every column of a stored event reads back as the field it is named after |
| LastWrite.MediaColumns | whatsapp-daemon/internal/writer/writer.go:246-259 | an upsert sets a given status and adds its attempts, leaves both alone without one, and never touches the file, its times or another row |
| LastWrite.UpdatedExactly | whatsapp-daemon/internal/writer/writer.go:216-227 | a row that holds one event is reported as updated by the next if and only if text, title or a given status is new, for texts without NUL |
| LastWrite.IndexKeptExactly | whatsapp-daemon/internal/writer/writer.go:290-321 | from a state in which every message has exactly one index row, with its text, sender name, title and latest label, and no index row is without a message, a step keeps this if and only if it is no commit and does not lose the index under messages, or a commit that refreshes the index, or one that finds it missing with the very entry of the event in it |
| LastWrite.AgreesThroughoutExactly | whatsapp-daemon/internal/writer/writer.go:290-321 | over a whole run, crashes and restarts included, index and messages agree all the time if and only if every step is such a step |
| LastWrite.IndexFollows | whatsapp-daemon/internal/writer/writer.go:290-304 | after any schedule in which every commit refreshes the index, index and messages agree if and only if every message whose entry was wrong or missing at the start has been stored in it |
| LastWrite.EntryFollows | whatsapp-daemon/internal/writer/writer.go:290-304 | over such a schedule an index entry is right if and only if it was right at the start or its message has been stored |
| LastWrite.RestartForgetsTheIndex | whatsapp-daemon/internal/writer/writer.go:290-321 | once the index table is lost, whatever the daemon stores without it, a restart makes the index available and empty; after any further schedule in which every commit refreshes it, it agrees with the messages if and only if every message of the moment of the restart has been stored once more |
| LastWrite.LabelsAgreeExactly | whatsapp-daemon/internal/writer/writer.go:234-253 | the label of a row and that of its index row agree if and only if the first and the last event of the id carried the same label |
| RunAccounting.CountersConserved | whatsapp-daemon/internal/writer/writer.go:341-372 | over every schedule the run rows stay balanced (scanned = inserted + updated + skipped) and each sum grows by exactly its share of history: scanned by the committed first transactions, inserted by the rows created, updated and skipped by the commits that changed a row and that did not, media_copied by the successful hydrations; also when calls share a run id |
| RunAccounting.RunRowCounts | whatsapp-daemon/internal/writer/writer.go:341-372 | and every single run row counts exactly the commits of its own message and second |
| RunAccounting.RunsAreReal | whatsapp-daemon/internal/writer/writer.go:356-372 | no schedule makes a dry run or a run without a finish time: every row is named after the second it was started and finished in, with status ok or pending |
| RunAccounting.RunRowOfCommit | whatsapp-daemon/internal/writer/writer.go:356-372 | right after a commit its run is finished now, pending exactly when a file is still to be written, and a new one carries the number of allowed chats |
| RunAccounting.RunKeepsItsStart | whatsapp-daemon/internal/writer/writer.go:356-372 | start time, dry-run mark and number of allowed chats of a run row never change |
| RunAccounting.RowsAreCreations | whatsapp-daemon/internal/writer/writer.go:216-267 | however calls interleave, the table grows by exactly the number of calls whose first transaction reported an insert |
| RunAccounting.TotalUpdate | whatsapp-daemon/internal/writer/writer.go:356-372 | replacing one run row changes a column sum by exactly the difference |
| Replay.ReplayChangesNothing | whatsapp-daemon/internal/writer/writer.go:197-288 | storing a whole list of events without media bytes and status a second time is accepted and changes nothing but ingest times and run records, if no event has a source key or no keyless event is later overtaken by a larger source key of its message |
| Replay.RoutesAgreeExactly | whatsapp-daemon/internal/writer/writer.go:323-339 | for keys without NUL: in the second pass every event goes to the row it went to, if and only if no keyless event is later overtaken by a larger source key of its message |
| Replay.AllKeyedIsSettled | whatsapp-daemon/internal/writer/writer.go:323-326 | a list in which every event carries its source key meets that condition |
| Replay.KeylessAgree | whatsapp-daemon/internal/writer/writer.go:323-339 | without source keys every event goes where it went, whatever characters its key holds |
| Replay.SameRoutesChangeNothing | whatsapp-daemon/internal/writer/writer.go:228-253 | same rows twice is what makes a replay harmless, and acceptable to the foreign key |
| Replay.TopsFollow | whatsapp-daemon/internal/writer/writer.go:323-339 | the highest stored source key of a message, computed from the list alone, is what the lookups see |
| Replay.PutIsWrite | whatsapp-daemon/internal/writer/writer.go:197-288 | the function the replay is stated with is what Write does on such an event |
| Replay.ReplayWithSourceKeysDiffers | whatsapp-daemon/internal/writer/writer.go:323-339 | with explicit source keys a replay of three events does change a stored text |
| WriteSchedule.WriteIsASchedule | whatsapp-daemon/internal/writer/writer.go:197-288 | every undisturbed call of Write, whatever fails in it, is a schedule of the interleaving model with the same final disk |
| StoreProtocol.CommitEffect | whatsapp-daemon/internal/writer/writer.go:211-267 | what one committed first transaction does to messages, index, runs and history |
| StoreProtocol.QuietEffect | whatsapp-daemon/internal/writer/writer.go:410-449 | every other step keeps the set of rows, their identity and content, the history, and the index unless the step loses it |
| StoreProtocol.RowsPersist | whatsapp-daemon/internal/writer/writer.go:228-253 | no step of the writers removes a row or changes its identity columns |
| Store.Writer.constructor | whatsapp-daemon/internal/writer/writer.go:60-75 | a new writer has empty tables and an available index |
| Store.Writer.Write | whatsapp-daemon/internal/writer/writer.go:197-288 | the whole call: final tables, files, index flag, result and error are those of WriteAlone on the old state |
| Store.Writer.StoreText | whatsapp-daemon/internal/writer/writer.go:211-267 | the first transaction, all or nothing, in the order of its statements |
| Store.Writer.UpsertAndRecord | whatsapp-daemon/internal/writer/writer.go:228-266 | upsert, index and run record together, or none of the tables changed |
| Store.Writer.Compare | whatsapp-daemon/internal/writer/writer.go:212-227 | inserted exactly for a new id; updated exactly for a known one with a new hash or a given status |
| Store.Writer.StoreMedia | whatsapp-daemon/internal/writer/writer.go:271-287 | the file, then the second transaction, with the result flags and each error return |
| Store.Writer.WriteMedia | whatsapp-daemon/internal/writer/writer.go:374-408 | the files after each point at which writing can stop; a path is returned exactly when the rename happened |
| Store.Writer.MarkMediaOK | whatsapp-daemon/internal/writer/writer.go:410-429 | sets path, time, status and attempts, clears the surfaced mark and counts the copy, or changes nothing |
| Store.Writer.MarkMediaFailure | whatsapp-daemon/internal/writer/writer.go:431-449 | marks the failure and closes the run, or changes nothing |
| Store.Writer.RefreshFtsTx | whatsapp-daemon/internal/writer/writer.go:290-304 | delete and insert of one index row, with a missing module or table as a flag and other errors as failures |
| Store.Writer.SourcePKFor | whatsapp-daemon/internal/writer/writer.go:323-339 | the given source key, or the highest one stored for the key, or 0 |
| Store.Lookup | whatsapp-daemon/internal/writer/writer.go:327-332 | 0 for an unknown key, otherwise the highest source key stored for it |
| Store.Writer.EnsureGroups | whatsapp-daemon/internal/writer/writer.go:133-159 | all groups or none are upserted, later entries of one JID win, and the group count changes either way |
| Store.Writer.UpsertGroups | whatsapp-daemon/internal/writer/writer.go:133-159 | afterwards exactly the old chats and the listed ones have rows |
| Store.LastGroupWins | whatsapp-daemon/internal/writer/writer.go:137-156 | the row of a chat carries the settings of its last entry |
| Store.OtherGroupsKept | whatsapp-daemon/internal/writer/writer.go:137-156 | chats that are not listed keep their rows |
| Store.WriteFacts | whatsapp-daemon/internal/writer/writer.go:216-288 | Write never sets both flags; a call that returns nil, or only a media error, leaves its run ok with the time of the call; a media error keeps the text and no new file pointer |
| Text.FormatIntInjective | whatsapp-daemon/internal/writer/writer.go:451-465 | decimal numbers in keys are unambiguous |
| Listener.Handler.ApplyPolicy | whatsapp-daemon/internal/listener/listener.go:57-80 | an allowed chat gets its label and loses what its policy forbids; a disallowed one is left as it is |
| Listener.Handler.HandleResult | whatsapp-daemon/internal/listener/listener.go:29-55 | a disallowed chat touches nothing; an allowed one is written after its policy, and wakes its subscribers exactly on success with an inserted or updated row |
| Listener.Handler.WriteAndWake | whatsapp-daemon/internal/listener/listener.go:34-49 | the write and, on success with an inserted or updated row, one wake-up; an error hides the result |
| Listener.Handler.Download | whatsapp-daemon/internal/auth/auth.go:600-621 | the bytes on success, the failed-expired status on an expired history download, nothing on other failures |
| Listener.Handler.Prepare | whatsapp-daemon/internal/auth/auth.go:595-621 | policy and download of an allowed chat |
| Listener.Handler.HandleMessage | whatsapp-daemon/internal/auth/auth.go:595-627 | policy, download, a reload of the allowlist or none, and the policy and write that follow: final store, wake-ups, result and error |
| Listener.PolicyIdempotent | whatsapp-daemon/internal/listener/listener.go:57-80 | applying the policy a second time, after the download, changes nothing |
| Listener.ForbiddenIsNeverStored | whatsapp-daemon/internal/auth/auth.go:595-621 | the event that is written in the end has no text, media data or bytes that the policy at the download or the one at the write forbids, all that both allow, and the later label |
| Listener.WakesExactly | whatsapp-daemon/internal/listener/listener.go:34-49 | a committed text wakes subscribers if and only if the file part did not fail and the row is new, changed, carries a status or a body |
| Listener.DaemonEvents | whatsapp-daemon/internal/auth/auth.go:595-627 | what the daemon writes has no source key and no "ok" status, a body only with permission to copy and then no status, and the file extension it was given |
| Listener.StatusExactly | whatsapp-daemon/internal/auth/auth.go:605-617 | a stored status is "failed: expired", after one attempt, exactly for an expired download of a history message with media in a chat whose files are copied; otherwise there is none |
| UnseenProtocol.NoMissedMessage | whatsapp-daemon/internal/unseen/unseen.go:145-196 | over every interleaving of one tenant's runs with writer steps under a clock that does not go back, as long as no run reads a cutoff later than the default one, a new row committed at most the overlap after its time stamp is printed by the first run that fetches after the commit, provided that this run may see its chat, unless it is the own account's, of a skipped type, or from before 1970 |
| UnseenProtocol.DefaultIsSafe | whatsapp-daemon/internal/unseen/unseen.go:239-256 | default runs and runs over everything read no later cutoff |
| UnseenProtocol.NegativeTimeIsMissed | whatsapp-daemon/internal/unseen/unseen.go:252-255 | for rows with a negative time stamp the clamped cutoff leaves the row out |
| UnseenProtocol.OverlapIsTight | whatsapp-daemon/internal/unseen/unseen.go:248-256 | from every sound world: a run fetches in a second, a row is committed in that second, one second past the overlap after its time stamp, and whatever the next default run fetches, it does not print the row |
| UnseenProtocol.TwoRunsLeaveOutExactly | whatsapp-daemon/internal/unseen/unseen.go:145-198 | a healthy run of any cutoff and the healthy default run after it leave a row out if and only if its time is before both cutoffs |
| Unseen.SinceHoursSkipsExactly | whatsapp-daemon/internal/unseen/unseen.go:181-192 | of the three cutoffs of a default run, of a run with --since-hours in its place and of the default run after that: some time is covered by the first and by neither of the others if and only if the first lies before both |
| UnseenProtocol.RunPrintsFromCutoff | whatsapp-daemon/internal/unseen/unseen.go:296-302 | a healthy run prints a row that nothing else excludes exactly when its time is not before the cutoff |
| UnseenProtocol.RunIsASchedule | whatsapp-daemon/internal/unseen/unseen.go:123-198 | every undisturbed run, whatever fails in it, is a schedule of the interleaving model with the same output, cursor file and marks |
| UnseenProtocol.CursorNeverGoesBack | whatsapp-daemon/internal/unseen/unseen.go:181-196 | along every schedule the cursor stays a well-formed number not after the clock and never decreases |
| UnseenProtocol.CursorStep | whatsapp-daemon/internal/unseen/unseen.go:181-196 | only the cursor write moves the cursor, to a value at most the run's now and at most the ingest it read minus the margin |
| UnseenProtocol.MarkedOnlyIfPrinted | whatsapp-daemon/internal/unseen/unseen.go:449-467 | a reader marks a row as surfaced only in the last step of a run that printed it as hydrated and unsurfaced |
| UnseenProtocol.HydratedIsAlwaysShown | whatsapp-daemon/internal/unseen/unseen.go:296-302 | a hydrated unsurfaced row of a visible chat is printed whatever the cutoff |
| UnseenProtocol.HidesUnseenExactly | whatsapp-daemon/internal/unseen/unseen.go:449-467 | from the fetch of a run over any steps to its mark: of the hydrated unsurfaced rows the mark hides exactly those that it fetched as hydrated and unsurfaced, and it hides a file that it did not show exactly when it fetched the row so and its path or hydration time has changed since |
| UnseenProtocol.MarkHidesExactly | whatsapp-daemon/internal/unseen/unseen.go:449-467 | the mark takes an unsurfaced row off the list if and only if the run marks its id |
| UnseenProtocol.RehydrationIsSwallowed | whatsapp-daemon/internal/unseen/unseen.go:449-467 | from every state before the mark of a printed hydrated row the writer can replace the file in one step, and the mark then hides a file that the run did not show |
| UnseenProtocol.WriterStepsAllowed | whatsapp-daemon/internal/unseen/unseen.go:279-302 | every step of the store protocol is a step that the reader's world allows |
| Unseen.PrintedExactly | whatsapp-daemon/internal/unseen/unseen.go:154-168 | a row is among the rows of a run if and only if it qualifies under the query and its type is not skipped |
| Unseen.PrintedByColumns | whatsapp-daemon/internal/unseen/unseen.go:279-302 | the same in terms of the columns and the list of skipped types: not the account's own, a chat of the tenant, from the cutoff on or hydrated and not surfaced, and no skipped type in any letter case |
| Unseen.MarkedByColumns | whatsapp-daemon/internal/unseen/unseen.go:154-168 | a run marks exactly the rows it prints whose hydration time is set and not zero and that were not surfaced |
| Unseen.TruncateIs | whatsapp-daemon/internal/unseen/unseen.go:239-247 | the conversion of a cutoff to an integer drops the fraction toward zero |
| Unseen.PrintedOfTenant | whatsapp-daemon/internal/unseen/unseen.go:279-302 | only messages of the tenant's chats, none of the account's own, and nothing for a tenant without chats |
| Unseen.TenantsAreIsolated | whatsapp-daemon/internal/unseen/unseen.go:279-302 | whatever is added, removed or changed in the chats of others, a run has the same answer, writes the same lines, and leaves the rows of its own chats the same |
| Unseen.PrintedInQueryOrder | whatsapp-daemon/internal/unseen/unseen.go:158-168 | the rows are printed in the order of the query, label groups included |
| Unseen.SelectedSorted | whatsapp-daemon/internal/unseen/unseen.go:302 | the selected rows come in label order |
| Unseen.LatestOK | whatsapp-daemon/internal/unseen/unseen.go:435-447 | the latest finish time of a successful real run, or none |
| Unseen.CursorBounds | whatsapp-daemon/internal/unseen/unseen.go:181-192 | a new cursor is between the prior one and now, and not after the ingest minus the margin |
| Unseen.CursorGoesBackExactly | whatsapp-daemon/internal/unseen/unseen.go:181-192 | a run can move the cursor back if and only if the prior cursor lies after now and the latest ingest passes the margin |
| Unseen.WrittenCursorReadsBack | whatsapp-daemon/internal/unseen/unseen.go:248-249 | a written cursor reads back as the same number |
| Text.FormatParseRoundTrip | whatsapp-daemon/internal/unseen/unseen.go:193 | parsing a formatted 64-bit number gives it back |
| Text.ParseIs | whatsapp-daemon/internal/unseen/unseen.go:263-272 | what parses is an optional sign and at least one digit, as the number they write, where it is an int64 |
| Text.SpacesAre | whatsapp-daemon/internal/unseen/unseen.go:263-272 | white space is the 25 characters of that Unicode property |
| Text.WrapIs | whatsapp-daemon/internal/unseen/unseen.go:248-256 | a wrapped number is an int64 that differs by a multiple of 2^64, and an int64 is kept |
| Text.TrimIs | whatsapp-daemon/internal/unseen/unseen.go:248-249 | trimming takes off all white space at both ends and nothing else |
| Text.LessIs | whatsapp-daemon/internal/backfill/backfill.go:279-283 | the order of sorted lists is that of the first difference, a beginning first |
| Unseen.Reader.Select | whatsapp-daemon/internal/unseen/unseen.go:158-168 | the selection loop returns the selected rows in order |
| Unseen.Reader.Run | whatsapp-daemon/internal/unseen/unseen.go:123-198 | one undisturbed run: every line of the output, cursor file, marks, and for each error exactly when it is returned; on an answer of the query all printed rows are of the tenant's chats |
| Unseen.Reader.AdvanceAndMark | whatsapp-daemon/internal/unseen/unseen.go:173-197 | what follows the output: cursor, marks, and for each error exactly when it is returned |
| Unseen.Reader.WriteCursor | whatsapp-daemon/internal/unseen/unseen.go:181-196 | the new cursor is written exactly when the run advances and the write succeeds |
| Unseen.Reader.MarkSurfaced | whatsapp-daemon/internal/unseen/unseen.go:449-467 | sets the time on exactly the marked rows |
| Output.WriteOutput | whatsapp-daemon/internal/unseen/unseen.go:403-433 | head line, totals and all rows grouped by label, line by line |
| Output.SectionsDescribe | whatsapp-daemon/internal/unseen/unseen.go:416-432 | every section line is followed by as many items as it says, all of its label, the first of its chat |
| Output.Collect | whatsapp-daemon/internal/unseen/unseen.go:404-411 | labels in the order of their first row, and under each label its rows in order |
| Output.PrintedExactlyOnce | whatsapp-daemon/internal/unseen/unseen.go:403-433 | every selected row is printed exactly as often as it was selected |
| Output.OrderWithinLabelKept | whatsapp-daemon/internal/unseen/unseen.go:403-433 | within a label the order of the rows is kept |
| Output.SortedIsPrintedAsIs | whatsapp-daemon/internal/unseen/unseen.go:403-433 | rows that come in label order are printed in exactly that order |
| Output.ContiguousIsKept | whatsapp-daemon/internal/unseen/unseen.go:403-433 | more generally, grouping changes nothing when the rows of each label stand together |
| Config.ReadersAgree | whatsapp-daemon/internal/config/config.go:65-121 | for every file that Load accepts, the reader sees, in order, the JIDs of the loaded groups that hold the tenant, if and only if the file is disabled or all its entries spell "tenants", and those that hold the tenant "jid", in lower case; the expected list has no duplicates, and a disabled file gives an empty one |
| Config.EntriesOfAccepted | whatsapp-daemon/internal/unseen/unseen.go:80-96 | what the reader makes of each entry of an accepted file |
| Config.HoldingIn | whatsapp-daemon/internal/config/config.go:277-284 | a JID is in that list if and only if a group with it holds the tenant |
| Config.TenantGroupJIDs | whatsapp-daemon/internal/unseen/unseen.go:76-106 | the reader's loop computes the list the agreement is about, errors included |
| Config.Load | whatsapp-daemon/internal/config/config.go:65-121 | the loading loop accepts and returns exactly what the specification does |
| Config.Accept | whatsapp-daemon/internal/config/config.go:80-115 | one pass over the entries, with every refusal and the two duplicate checks |
| Config.NormalizeTenants | whatsapp-daemon/internal/config/config.go:257-275 | trimmed tenants, refused when empty, blank or repeated |
| Config.LoadedGroupsSound | whatsapp-daemon/internal/config/config.go:80-115 | accepted groups have supported JIDs; JIDs, labels and tenants are trimmed and not empty, every tenant list is not empty and without repetitions, and all JIDs and labels are distinct |
| Config.LoadedIsWhatIsSaid | whatsapp-daemon/internal/config/config.go:80-115 | group i of an accepted file is what entry i says: JID, label and tenants trimmed, purpose and retention as given; files are copied and embeddings indexed only where the entry says true, text and descriptions kept out only where it says false |
| Config.AcceptedExactly | whatsapp-daemon/internal/config/config.go:65-121 | a file is accepted if and only if its entries are well-typed and, when it is enabled, each has a JID of a supported kind, a label and a list of tenants without blanks and repetitions, and no JID or label comes twice |
| Config.WellTypedExactly | whatsapp-daemon/internal/config/config.go:28-43 | well-typed is an entry with texts, or null, where texts belong |
| Config.SupportedExactly | whatsapp-daemon/internal/config/config.go:237-255 | a supported JID is a user and a server around one @: any group, or digits at one of the two servers for persons |
| Config.SameGroupIsEquality | whatsapp-daemon/internal/config/config.go:286-311 | the field by field comparison is equality |
| Config.Manager.Compare | whatsapp-daemon/internal/config/config.go:133-143 | the comparison finds a change exactly when the maps differ, and lists exactly the new groups, each once |
| Config.Manager.Reload | whatsapp-daemon/internal/config/config.go:123-158 | an error changes nothing; otherwise the map is replaced and every subscriber with room gets one change, exactly when the map is a different one, with exactly the new groups |
| Config.DiffersExactly | whatsapp-daemon/internal/config/config.go:134-143 | different sizes, a new key or a changed group are together the same as a different map |
| ReloadProtocol.ReloadReachesStore | whatsapp-daemon/cmd/whatsapp-daemon/main.go:151-169 | from the subscription on, while EnsureGroups succeeds, every chat of the current map has a row or a signal is buffered, being sent or being handled; signals dropped on a full buffer are harmless |
| ReloadProtocol.ReloadSteps | whatsapp-daemon/internal/config/config.go:123-158 | one reload that nothing interrupts does in this model what Manager.Reload does to map and buffer, and a subscription starts empty |
| ReloadProtocol.AtRestEveryChatHasItsRow | whatsapp-daemon/internal/writer/schema.sql:45 | so with nothing under way every allowed chat satisfies the foreign key |
| ReloadProtocol.CanComeToRest | whatsapp-daemon/cmd/whatsapp-daemon/main.go:151-169 | from every covered state after a subscription some schedule of succeeding steps comes to rest with a row for every chat: nothing gets stuck |
| ReloadProtocol.SubscriptionTakesOverExactly | whatsapp-daemon/cmd/whatsapp-daemon/main.go:152-155 | after any steps without a subscription, at the moment of subscription this holds if and only if every current chat already has its row |
| ReloadProtocol.ReloadBeforeSubscriptionIsLost | whatsapp-daemon/cmd/whatsapp-daemon/main.go:152-155 | a reload between starting the watcher and subscribing leaves a chat without a row |
| Changes.Hub.Subscribe | whatsapp-daemon/internal/control/changes.go:18-25 | a fresh channel with no token; the other subscriptions are untouched |
| Changes.Hub.Notify | whatsapp-daemon/internal/control/changes.go:29-40 | every subscription of the chat, and no other, holds a token afterwards, whatever the order of the loop |
| Changes.BurstIsCoalesced | whatsapp-daemon/internal/control/changes.go:29-40 | a second notification before the token is taken changes nothing |
| WakeProtocol.NoLostWakeUp | whatsapp-daemon/internal/control/changes.go:18-74 | in every reachable state, for every live watcher: a notified commit newer than the client's snapshot implies a token, an unsent event, an event not yet acted on, or a Notify still running; at most one token, and no more changed events than notifications |
| WakeHub.NotifyIsASchedule | whatsapp-daemon/internal/control/changes.go:29-40 | a whole Notify is a schedule that does to the subscriptions what the hub's method does, whatever the order of its loop |
| WakeHub.HubSteps | whatsapp-daemon/internal/control/changes.go:18-26 | subscribing, receiving and unsubscribing are steps that do to the subscriptions what the hub's methods do |
| WakeProtocol.IdleClientIsUpToDate | whatsapp-daemon/internal/control/changes.go:47-72 | a watcher with nothing to do has a client that has seen every notified commit |
| WakeHub.EveryClientCanCatchUp | whatsapp-daemon/internal/control/changes.go:18-74 | from every state of a run some schedule ends the Notify under way and brings every live client to rest, which then has seen every notified commit |
| WakeHub.CommitCanReachEveryClient | whatsapp-daemon/internal/control/changes.go:18-74 | from every quiet state of a run: after a commit its Notify can run and every live client of the chat can come to see it |
| Shutdown.ShutdownIsSafe | whatsapp-daemon/internal/auth/auth.go:208-247 | in every interleaving: nothing can send on the closed channel or close it again, no Add comes after the flag, no Done takes the counter below zero, the queue holds at most eight, and the channel is closed only when no goroutine is left |
| Shutdown.EachResultOnce | whatsapp-daemon/internal/auth/auth.go:222-231 | a finished on-demand sync was queued or dropped exactly once, every other sync never |
| Shutdown.DroppedOnlyWhenFull | whatsapp-daemon/internal/auth/auth.go:224-230 | a result is dropped only by a step that finds all eight slots taken |
| Shutdown.QueueIsTailOfSent | whatsapp-daemon/internal/auth/auth.go:177-231 | results are received in the order in which they were queued |
| Shutdown.CanShutDown | whatsapp-daemon/internal/auth/auth.go:235-245 | from every state of a run some schedule brings every callback to its end and closes the channel: nobody waits for ever for the lock, the counter or the channel |
| HistorySync.HandleHistorySync | whatsapp-daemon/internal/auth/auth.go:419-492 | the walk up to the first noticed cancellation; uncancelled, conversations and messages of the event are fully accounted for; the row counters count the results of the dispatched calls, reported inserts are new table rows, missing at most those whose call failed, and every reported row woke its subscribers once |
| HistorySync.HandleConversations | whatsapp-daemon/internal/auth/auth.go:440-491 | the outer loop stops at the first noticed cancellation and counts exactly what it passed |
| HistorySync.HandleConversation | whatsapp-daemon/internal/auth/auth.go:440-491 | one conversation: cancelled, missing, skipped or walked through |
| HistorySync.HandleMessages | whatsapp-daemon/internal/auth/auth.go:457-490 | the inner loop likewise, for one admitted conversation |
| HistorySync.HandleOne | whatsapp-daemon/internal/auth/auth.go:461-489 | one message falls into exactly one class |
| HistorySync.OneClassEach | whatsapp-daemon/internal/auth/auth.go:461-489 | a message is dispatched, a parse error or skipped by its key, body, time and parse outcome alone, and counted once |
| HistorySync.WalkedExactly | whatsapp-daemon/internal/auth/auth.go:440-456 | a conversation is walked exactly when its id is not blank and parses to a chat that is allowed then, and otherwise skipped with all its messages |
| HistorySync.FailedExactly | whatsapp-daemon/internal/auth/auth.go:479-489 | the failed calls are counted from none, and none is counted exactly when no call returned an error |
| HistorySync.Dispatch | whatsapp-daemon/internal/auth/auth.go:479-489 | the counters of one dispatched message are those of its call, which is HandleMessage's; counters, table and wake-ups move together |
| HistorySync.CallHandler | whatsapp-daemon/internal/auth/auth.go:479 | what one call returns, its error included, and how table and wake-ups move |
| HistorySync.SkipAll | whatsapp-daemon/internal/auth/auth.go:430-436 | without a configuration everything is skipped and counted |
| HistorySync.WalkBalanced | whatsapp-daemon/internal/auth/auth.go:440-491 | allowed + skipped = conversations and dispatched + parse errors + skipped = messages, as equalities on a finished walk and as upper bounds on a cancelled one |
| HistorySync.OneWriteGrows | whatsapp-daemon/internal/writer/writer.go:197-288 | a call of Write adds at most one row, and on success exactly when it reports an insert |
| HistorySync.DispatchedWithinSummary | whatsapp-daemon/internal/backfill/backfill.go:248-253 | the walk never dispatches more messages, parse errors included, than the summary of the same event counts as valid |
| Backfill.MergeStats | whatsapp-daemon/internal/backfill/backfill.go:699-714 | adds all counters and keeps the first sync type |
| HistorySync.MergedStatsBalance | whatsapp-daemon/internal/backfill/backfill.go:699-714 | merged statistics balance over the messages of all events they come from |
| HistorySync.MergeStatsAssociative | whatsapp-daemon/internal/backfill/backfill.go:699-714 | merging is associative with the empty statistics as identity on both sides |
| Summary.SummaryIsHomomorphism | whatsapp-daemon/internal/backfill/backfill.go:227-285 | merging the summaries of two batches is the summary of both batches together: counters, zero-sentinel minimum, earliest tie of the oldest anchor, sorted chat list |
| Summary.MergeAssociative | whatsapp-daemon/internal/backfill/backfill.go:716-751 | merging is associative on all summaries |
| Summary.LeftIdentityExactly | whatsapp-daemon/internal/backfill/backfill.go:716-751 | the empty summary is a left identity if and only if the other one has a sorted duplicate-free chat list, no negative maximum and no anchor unless one was found |
| Summary.RightIdentityExactly | whatsapp-daemon/internal/backfill/backfill.go:716-751 | and a right identity if and only if the chat list is sorted and duplicate-free and the maximum is not negative |
| Summary.OldestIsOldest | whatsapp-daemon/internal/backfill/backfill.go:269-277 | the counted messages of the requested chat and the first of the oldest among them, found iff there is one |
| Summary.SummaryDescribes | whatsapp-daemon/internal/backfill/backfill.go:248-268 | message, media and aged counters count; the minimum is the least time, the maximum the greatest but never below zero; the same-day flag has a witness exactly when it is set |
| Summary.SameDayExactly | whatsapp-daemon/internal/backfill/backfill.go:260-268 | two times are on one day exactly when both are given and lie between the same two midnights |
| Summary.AnchorIs | whatsapp-daemon/internal/backfill/backfill.go:287-306 | every field of the anchor of a message, with the chat it names standing in for a missing chat and for a missing sender unless the message is the own account's |
| Summary.AsInt64Is | whatsapp-daemon/internal/backfill/backfill.go:248-252 | a message time is read as the int64 with the same bits |
| Summary.SummaryChats | whatsapp-daemon/internal/backfill/backfill.go:233-247 | all conversations are counted, the chat set holds exactly their non-empty ids, and the requested chat is contained exactly when some conversation has its id |
| Summary.SummarizeHistorySync | whatsapp-daemon/internal/backfill/backfill.go:227-285 | the loops compute the summary the laws are about |
| Summary.SummarizeMessage | whatsapp-daemon/internal/backfill/backfill.go:254-277 | one valid message and every field it moves |
| Summary.MergeSummaries | whatsapp-daemon/internal/backfill/backfill.go:716-751 | the merge loops compute the merge the laws are about |
| Summary.MergeCounts | whatsapp-daemon/internal/backfill/backfill.go:720-737 | the counters, the zero-sentinel minimum, the maximum and the oldest anchor of a merge |
| Summary.ViableOverChunks | whatsapp-daemon/internal/backfill/backfill.go:214-225 | a merged summary is viable if and only if, over the chunks, some message, some media envelope and some same-day message were seen |
| Summary.SortedList | whatsapp-daemon/internal/backfill/backfill.go:279-283 | exactly the members of the set, strictly sorted |
| Retry.NormalizeSendRetryOptions | whatsapp-daemon/internal/backfill/backfill.go:619-640 | every field is the given one where valid and the default otherwise, and the initial back-off is at most the maximum |
| Retry.WaitForPeerSendReady | whatsapp-daemon/internal/backfill/backfill.go:642-693 | succeeds at the first sample that ends a long enough unbroken run of ready samples, and at no other; otherwise ends with the first wake-up that is no tick |
| Retry.ReadyMeansLoggedIn | whatsapp-daemon/internal/backfill/backfill.go:387-389 | a wait that succeeds has seen the connection up and logged in without a break for the stable duration; without a sample that is both none succeeds |
| Retry.LoggedInMeansReady | whatsapp-daemon/internal/backfill/backfill.go:664-691 | under a clock that does not go back, such a span that only ticks precede makes the wait succeed |
| Retry.NotReadyIsWoken | whatsapp-daemon/internal/backfill/backfill.go:683-691 | a wait that fails was ended by its timer or its context, after ticks only |
| Retry.StableMeansUnbroken | whatsapp-daemon/internal/backfill/backfill.go:669-684 | success means an unbroken run of ready samples that spans the stable duration |
| Retry.UnbrokenMeansStable | whatsapp-daemon/internal/backfill/backfill.go:669-684 | and under a clock that does not go back every such run is noticed |
| Retry.BackoffIsCappedPower | whatsapp-daemon/internal/backfill/backfill.go:535-538 | under a maximum of at most half the int64 range, the k-th back-off is the initial one times 2^k, capped |
| Retry.OverflowEndsTheLoop | whatsapp-daemon/internal/backfill/backfill.go:535-538 | a doubling that overflows makes the back-off negative, and the attempt after it ends the loop |
| Retry.Send | whatsapp-daemon/internal/backfill/backfill.go:490-539 | the attempt in which the loop ends and its result are those that the options and the trace cause, each result exactly under its cause, a failed or cancelled wait for readiness included; sends are counted, and each sleep is the back-off cut to the time that is left on the clock |
| Retry.TryOnce | whatsapp-daemon/internal/backfill/backfill.go:502-538 | one attempt: wait for readiness on its samples, send exactly when they get stable, classify, cut the sleep |
| Retry.SendsAreLoggedIn | whatsapp-daemon/internal/backfill/backfill.go:502-511 | nothing is sent unless the samples of that very attempt have seen such a span |
| Retry.RunIsBounded | whatsapp-daemon/internal/backfill/backfill.go:490-539 | in every ending: the sends are at most timeout / initial back-off + 1, each after such a span, and the sleeps fit into the timeout |
| Retry.DefaultsInSeconds | whatsapp-daemon/internal/backfill/backfill.go:30-34 | with the daemon's options these are 41 sends, three quarters of a second and ten seconds |
| Retry.OutcomeIsDetermined | whatsapp-daemon/internal/backfill/backfill.go:490-539 | options and trace leave no choice of the ending attempt or the result |
| Retry.SleepIsCappedPower | whatsapp-daemon/internal/backfill/backfill.go:523-538 | whatever the maximum, every sleep that happens is the initial back-off times 2^k, capped, cut to the time left |
| Retry.SleepsFit | whatsapp-daemon/internal/backfill/backfill.go:493-534 | all sleeps together fit into the ready timeout |
| Retry.SendsBounded | whatsapp-daemon/internal/backfill/backfill.go:495-539 | at most timeout / initial back-off + 1 sends |
| Backfill.WaitForProcessedOnDemand | whatsapp-daemon/internal/backfill/backfill.go:565-586 | takes results up to the first on-demand one that holds the chat; timer and closed channel are unavailable, cancellation is its own error |
| Backfill.GotAnswers | whatsapp-daemon/internal/backfill/backfill.go:576-582 | a reply that is got arrived and answers |
| Backfill.AnswersExactly | whatsapp-daemon/internal/backfill/backfill.go:576-582 | a reply answers exactly when it is an ON_DEMAND sync that holds the chat, or any such sync when no chat is named |
| Backfill.SizeIs | whatsapp-daemon/internal/backfill/backfill.go:398-401 | a chunk asks for one to fifty messages, as many as the request says where it can |
| Backfill.HistorySyncHasConversation | whatsapp-daemon/internal/backfill/backfill.go:794-804 | true if and only if some conversation has that id |
| Backfill.RunProcessedRequests | whatsapp-daemon/internal/backfill/backfill.go:391-469 | where a run stands in every ending, chunk by chunk, and the cause of the ending: every refused notice, missing answer, failed send or cancelled sleep ends it, and nothing else |
| Ending.EndingIsDetermined | whatsapp-daemon/internal/backfill/backfill.go:391-469 | request and turns determine result, notices, chunks and ending |
| Ending.StartsExactly | whatsapp-daemon/internal/backfill/backfill.go:395-417 | a run does not start exactly for a limit that is not positive, or an anchor without chat, message id or time, or with a chat or sender that is no JID |
| Backfill.Page | whatsapp-daemon/internal/backfill/backfill.go:420-467 | one turn keeps the loop's state, notices taken and sleep done, or ends the run in the ending it caused |
| Backfill.Ask | whatsapp-daemon/internal/backfill/backfill.go:421-440 | count, send, first notice and wait, with the outcome that each of them forces |
| Backfill.Digest | whatsapp-daemon/internal/backfill/backfill.go:442-466 | merge, two notices, the empty-answer check, the new anchor and the sleep, with the outcome that each of them forces |
| Coverage.RunCovers | whatsapp-daemon/internal/backfill/backfill.go:418-468 | if every reply holds, in any order, the up-to-count newest messages strictly before the anchor, a run in any ending has seen exactly a newest-first prefix of the history, as long as what it asked for or the whole; it reports nothing older only after seeing everything; and the merged summary counts exactly these messages |
| Coverage.AnchorsDecrease | whatsapp-daemon/internal/backfill/backfill.go:460-461 | anchors move strictly back |
| Coverage.ChunksDisjoint | whatsapp-daemon/internal/backfill/backfill.go:418-468 | no message comes in two chunks |
| Coverage.ExplainedIsLaid | whatsapp-daemon/internal/backfill/backfill.go:418-468 | each chunk is one slice of the history that starts where the one before it ends |
| Coverage.CompleteIsCeiling | whatsapp-daemon/internal/backfill/backfill.go:418-468 | without an error the requested number is the limit and the chunks are the limit divided by the chunk size, rounded up |
| Coverage.AskedExactly | whatsapp-daemon/internal/backfill/backfill.go:418-423 | all requests but the last ask for a full chunk |
| Coverage.RequestedIsWhatWasSent | whatsapp-daemon/internal/backfill/backfill.go:428-469 | in every ending Requested is the sum of the counts that were sent |
| Coverage.NoticesAreWellFormed | whatsapp-daemon/internal/backfill/backfill.go:430-458 | unless a received notice is refused, the notices are triples followed by at most one lone request, and pure triples exactly when no request is left unanswered |
| Coverage.RunStatsBalance | whatsapp-daemon/internal/backfill/backfill.go:444 | the merged statistics of a run balance when those of every reply do |
| Control.NormalizeRequest | whatsapp-daemon/internal/control/control.go:236-248 | all texts trimmed, the limit between 1 and 50 |
| Control.NormalizeIdempotent | whatsapp-daemon/internal/control/control.go:236-248 | the daemon sees the request that the client normalised |
| Control.Admit | whatsapp-daemon/internal/control/control.go:192-220 | a backfill is accepted iff the chat is configured and belongs to a named tenant; a subscription iff in addition that tenant is the only one |
| Control.HandleConn | whatsapp-daemon/internal/control/control.go:180-234 | one error for refused requests, a hand-over exactly for subscriptions by the only tenant, the executor's stream and its done event for accepted backfills |
| Control.Execute | whatsapp-daemon/internal/control/control.go:285-341 | refusals without a run, otherwise the notices of the run as events and then its verdict; the numbers of the events add up to those of the result |
| Control.StreamAddsUp | whatsapp-daemon/internal/control/control.go:312-334 | whatever the ending, the requested numbers of the stream add up to the result's, messages, media envelopes and chats to those of its summary, and, unless the notice of a reply is refused, inserted, updated and hydrated to those of its statistics |
| Control.FirstEventIsTheRequest | whatsapp-daemon/internal/control/control.go:312-319 | the first event carries the id of the send, the anchor with its chat filled in, and the limit or a whole chunk |
| Control.StreamShape | whatsapp-daemon/internal/control/control.go:222-233 | on a connection that takes every event an accepted backfill sends nothing, one request, or one triple before its done event, because limit and chunk are capped alike |
| Control.OneChunkAtMost | whatsapp-daemon/internal/control/control.go:301-305 | an accepted request makes at most one chunk |
| Control.ViableExactly | whatsapp-daemon/internal/control/control.go:357-369 | VIABLE if and only if the run finished and, over its chunks, some valid message, some media envelope and some same-day message before the anchor was seen |
| Control.UnavailableExactly | whatsapp-daemon/internal/control/control.go:357-369 | UNAVAILABLE if and only if no reply answered in time, a reported reply held no message of the chat, or a finished run was not viable |
| Control.ReadStream | whatsapp-daemon/internal/control/control.go:417-444 | the client fails on a line it cannot read or a stream without a done event; otherwise the last done event gives the exit code |
| Control.ClientAndDaemon | whatsapp-daemon/internal/control/control.go:285-444 | a client that reads a whole stream exits 0 exactly on VIABLE, 2 exactly on UNAVAILABLE, and 1 otherwise |
| ExecutorProtocol.ExecutorIsExclusive | whatsapp-daemon/internal/control/control.go:222-226 | in every interleaving at most one connection executes, and what it sends and receives on the shared channel is one unbroken block |
| ReplyProtocol.OwnReplyExactly | whatsapp-daemon/internal/control/control.go:222-226 | a request that is sent now can get no reply but its own, whatever happens afterwards, if and only if no reply for its chat is owed by the phone or left in the channel |
| ReplyProtocol.OwnReplyCanCome | whatsapp-daemon/internal/backfill/backfill.go:565-586 | and then its own reply can come |
| ReplyProtocol.RepliesAreOwn | whatsapp-daemon/internal/backfill/backfill.go:565-586 | in every interleaving of connections, phone and channel a request gets its own reply, or that of an earlier request about the same chat, and then the wait of that request or of one before it was given up |
| ReplyProtocol.LeavesExactly | whatsapp-daemon/internal/auth/auth.go:222-232 | a reply that may still be taken leaves only by being taken or by finding all eight places taken, and who takes it gets it exactly when it is about the same chat |
| ReplyProtocol.EveryoneCanHaveATurn | whatsapp-daemon/internal/control/control.go:222-226 | from every state every connection can come to hold the lock with nothing to wait for |
| ReplyProtocol.TakesAreTheWait | whatsapp-daemon/internal/backfill/backfill.go:576-582 | taking items off the channel until there is a reply is what the wait of a run computes |
| EndToEnd.NoFileWithoutConsent | whatsapp-daemon/internal/listener/listener.go:57-80 | a message brings bytes to the store only if the configuration, before and after a reload, has an entry for its chat that says copy_media true |
| EndToEnd.TextOnlyKeptOutIfSaid | whatsapp-daemon/internal/listener/listener.go:57-80 | a text that does not arrive was kept out by an entry that says ingest_text false |
| EndToEnd.NoBytesNoFile | whatsapp-daemon/internal/writer/writer.go:271-287 | a write without bytes touches no file and leaves every file pointer as it is |
| EndToEnd.ListedChatsAreOwned | whatsapp-daemon/internal/unseen/unseen.go:76-106 | every chat that the reader lists for a tenant is a loaded one whose group holds that tenant, however the keys are spelled |
| EndToEnd.TenantSeesOwnChats | whatsapp-daemon/internal/unseen/unseen.go:123-168 | so a run prints only messages of such chats |
| EndToEnd.WriteCountsAsIngest | whatsapp-daemon/internal/unseen/unseen.go:435-447 | after a write that returns nil, or only failed to store the file, the reader finds a successful ingest of that time or later |
| EndToEnd.LatestIsLastOk | whatsapp-daemon/internal/unseen/unseen.go:435-447 | over runs that the daemon made, what the reader finds is the latest second whose run was closed, and nothing exactly while all are pending |
| EndToEnd.CursorFollowsWrites | whatsapp-daemon/internal/unseen/unseen.go:181-196 | a run without failures after a write more than a minute later than its cursor moves it to a minute before the latest ingest or to its own time, whichever is earlier |
| EndToEnd.CutoffsInSeconds | whatsapp-daemon/internal/unseen/unseen.go:239-256 | a default run reads from half an hour before its cursor, not before 1970, and from a day ago without one |
| EndToEnd.HoursInSeconds | whatsapp-daemon/internal/unseen/unseen.go:239-247 | a run over some hours reads from that many times 3600 seconds ago, to less than a second |
| EndToEnd.FirstRunWritesCursor | whatsapp-daemon/internal/unseen/unseen.go:181-196 | a first run, without a cursor, writes one exactly when the latest ingest is more than a minute after 1970 |

## Left out

- SHA-256 itself, hexadecimal digests and the truncation of run ids to 16 bytes: ids are the strings that are hashed.
- whatsmeow, protobuf accessors, pairing and QR codes, media download: their results are arbitrary inputs.
- The SQLite binding, SQL parsing, schema creation and column migration; columns that the modelled code only copies or never reads (mode, error, deleted flag, extracted text).
- Memory and string encodings: strings are sequences of characters, lengths count characters, lower-casing covers ASCII.
- JSON syntax: a configuration file is a parsed value, in which each field stands at most once; duplicate keys within one object are not modelled. The letter case of keys is modelled for the two fields that the reader looks up.
- File syncs, permissions and directory creation; a rename is atomic, and a file is known by its name, so writes through a handle to a file that was renamed meanwhile are not followed.
- The file watcher's modification times, signals, flag parsing, paths, log lines, health and status files.
- Display text, dates and sizes in the reader's output, and the reasons in control events.
- Socket handling of the control server: accepting, deadlines, decoding; a stream is a sequence of events.
- How an anchor is found in the database (`resolveAnchor`): a backfill starts from an arbitrary one.
- WaitForOnDemand, ProcessOnDemand and ParseTimestamp of backfill.go, which the daemon's executor does not use.
- Liveness: the protocols are proved safe and free of dead ends, not fair; nothing says that a step that can happen will happen.
- Retry.Send: how long a wait for readiness takes is part of the trace; it is not computed from the times of its samples.
- Backfill.Ask: a send either gives an id or fails; how often it was retried is the subject of module Retry.
- HistorySync.HandleHistorySync: runs on its own handler and store without other writers in between; over interleaved calls the reported inserts are counted by RunAccounting.RowsAreCreations.
- ReplyProtocol.OwnReplyExactly: assumes that the phone answers a request at most once, and with the chat it was asked about.
- Unseen.Reader.Run: one tenant; the surfaced mark is shared by all tenants, as in the code.
- MediaSafety.CrashConsistent: covers two calls that hold one temporary file only while they spare it; what a write through the handle of a renamed file does is not followed, so a rename under another writer counts as not sparing it.
- Replay.ReplayChangesNothing: speaks of events without media bytes and status; with source keys, of keys without NUL, since with one two messages can share a row.
- Replay.RoutesAgreeExactly: is about where events go; an overtaken event whose row ends with the same text and titles anyway leaves no trace.
- Store.Writer.StoreText: a failed commit leaves nothing on disk. That the connection then keeps its transaction open, so that every later one is refused until the process restarts (sqlite.go:83-94), is not a state of its own; such runs are among the schedules in which the later steps fail.
- Retry.SleepIsCappedPower: asks for durations within int64, as Go's are.
