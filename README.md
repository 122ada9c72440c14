# Campus Radio Processor: a verified model of the merge back end

The Campus Radio Processor lets a station upload audio clips, which are deduplicated by content.
Clips can be renamed, deleted and put in order. A chosen set of clips can then be merged into one
broadcast file while a page follows the job's progress and may cancel it. This project models the
part of the system that holds its state and logic, and proves properties about that model:

- **The metadata store.** The records in `audio_metadata.json`: an unmerged record is an uploaded
  clip waiting to be merged, a merged record is a merge output. The model covers the handlers that
  read and rewrite them: load, upload, the two listings, rename, delete one or all, reorder, and
  the download name. The ordering invariant of the unmerged records is `DenseOrders`: they carry
  the orders 1..n, each once.
- **The registry of merge tasks.** The `processing_tasks` dictionary, where `merge_audio` registers a task
  and the cancel and status endpoints act on it.
- **The merge job.** `process_audio_files` is a machine that takes one step at a time. Each step
  runs from one read of the cancel flag or one registry write to the next. Cancel and poll requests
  can arrive between any two steps; the model states this as traces of events. The audio codec is
  an oracle that tells each step what its call returned.
- **The front end's task list.** `taskStatusStore` in `frontend/src/store/taskStatus.js`: a list
  of tasks keyed by `requestId`, plus the entry shown in the progress dialog.

## Layout

| file | module | what it holds |
|---|---|---|
| `wrappers.dfy` | `Wrappers` | `Option`, `Result` and the three HTTP errors the handlers raise (400, 404, 500) |
| `seqs.dfy` | `Seqs` | filters, first and last index searches, `set(...)` of a list |
| `py_text.dfy` | `PyText` | `str.strip`, `os.path.basename`, `os.path.splitext`, the `.mp3` suffix test |
| `audio_metadata.dfy` | `AudioMetadata` | the record, load, the stable sort, the listings, `DenseOrders`, the download name |
| `uploads.dfy` | `Uploads` | `upload_audio` as functions on values, with lemmas about its loop |
| `edits.dfy` | `MetadataEdits` | rename, delete all, delete one (with renumbering), delete processed |
| `reorder.dfy` | `Reorder` | `reorder_audio` |
| `metadata_store.dfy` | `MetadataService` | `class MetadataStore`: the file as a field; one method per handler, with the handler's own loops, each proved to compute the function above |
| `tasks.dfy` | `Tasks` | registry entries, register, cancel, status, and `class TaskRegistry` |
| `merge_submit.dfy` | `MergeSubmit` | `merge_audio`: checks, registration, lookup, sort, the job handed over |
| `merge_runner.dfy` | `MergeRunner` | the step function of `process_audio_files`, its invariant, and lemmas about single steps |
| `merge_trace.dfy` | `MergeTrace` | the job interleaved with cancel and poll requests, and lemmas about whole traces |
| `merge_worker.dfy` | `MergeJob` | `class Worker`: the job on the shared registry and store objects, step by step |
| `task_status.dfy` | `TaskStatus` | the front-end store as `class TaskStatusStore`, with the functions that specify it |

Each imperative handler is a method of a class. Its `ensures` clause says that the new state and
the reply are those computed by a pure function of the old state. The properties are proved about
those functions, so they hold for the methods as well.

## Model

| member | source | states |
|---|---|---|
| AudioMetadata.Load | backend/app.py:87-102 | an unreadable, missing or empty file loads as `[]`; otherwise the stored records come back one for one, and only a missing `hash` is filled in, with `""` |
| AudioMetadata.LoadSaved | backend/app.py:87-110 | saving the loaded records and loading them again gives the same records |
| AudioMetadata.LoadHashed | backend/app.py:95-97 | loading a list in which every record has a `hash` changes nothing |
| MetadataService.MetadataStore.LoadRecords | backend/app.py:87-102 | the fill-in loop returns exactly `Load` of the file |
| MetadataService.MetadataStore.Save | backend/app.py:105-110 | the file then holds exactly the records saved |
| AudioMetadata.InsertByOrder | backend/app.py:221 | inserting into a sorted list keeps it sorted, and the result is a permutation of the list plus the new element |
| AudioMetadata.SortByOrder | backend/app.py:221 | the sort by `order` (default 0) yields a sorted permutation of its input |
| AudioMetadata.SortStable | backend/app.py:221 | the sort is stable: for every key, the records with that key keep their input order |
| AudioMetadata.ListAudioSpec | backend/app.py:218-222 | the audio listing is sorted, holds exactly the unmerged records as often as they are stored, and keeps records with equal `order` in stored order |
| AudioMetadata.ListAudioMembers | backend/app.py:218-222 | a record is listed as audio if and only if it is stored and unmerged |
| AudioMetadata.ListingsPartition | backend/app.py:218-230 | every record is in exactly one of the two listings, and the processed listing holds exactly the merged records |
| AudioMetadata.DenseListing | backend/app.py:218-222 | when the unmerged records are numbered densely, the audio listing shows the orders 1, 2, ..., n in sequence |
| AudioMetadata.DownloadName | backend/app.py:670-672 | a merged record's download name ends in `.mp3` in some letter case; it is the display name, with `.mp3` appended only when a merged record lacked the suffix; an unmerged record keeps its name |
| AudioMetadata.DownloadNameIdempotent | backend/app.py:670-672 | applying the download name again appends nothing more |
| AudioMetadata.DownloadAudio | backend/app.py:660-682 | a download succeeds exactly when the first record with the id has its file on disk; it then serves that record's path under its download name; every failure is a 404 |
| PyText.StripShape | backend/app.py:375-378 | `strip()` is empty exactly when the name is blank; otherwise it is the slice between the leading and trailing white space, and it starts and ends with a non-space |
| PyText.StripIdempotent | backend/app.py:378 | stripping twice is stripping once |
| PyText.BasenameShape | backend/app.py:146 | the base name is the longest suffix of the path that contains no `/` |
| PyText.ExtensionShape | backend/app.py:169 | the extension is the suffix from the last dot on; it is empty exactly when every dot of the name has only dots before it |
| PyText.AppendMp3 | backend/app.py:672 | appending `.mp3` always yields a name that passes the suffix test |
| Uploads.HashIndex | backend/app.py:137-138 | the dedup index maps each hash to an indexed record, one that is unmerged and has that non-empty hash; every such stored record's hash is a key |
| Uploads.HashIndexLast | backend/app.py:137-138 | when two unmerged records share a hash, the index keeps the last one |
| Uploads.NewRecord | backend/app.py:179-189 | a new record is unmerged, carries the file's hash, its fresh id, the next order and the base name as both names |
| Uploads.UploadAudio | backend/app.py:128-130 | an upload with no files is a 400, and only then |
| Uploads.UploadOneRecords | backend/app.py:153-203 | one loop iteration appends a record, and moves the counter on, exactly for a readable, written file that is not a duplicate |
| Uploads.UploadOneReplies | backend/app.py:153-200 | one iteration adds one reply for a known file or a new file, and none for a file that failed |
| Uploads.UploadAllRecords | backend/app.py:145-203 | the whole loop appends the records of exactly the new files, in arrival order, numbered on from the counter; the counter moves once per new record |
| Uploads.UploadAllReplyCount | backend/app.py:145-203 | the response has one entry per duplicate file and per new file |
| Uploads.UploadAllCreated | backend/app.py:198-200 | the created replies report exactly the new records, in order |
| Uploads.UploadAllDuplicates | backend/app.py:153-166 | the duplicate replies come one per known file, in arrival order, each carrying the indexed record and the uploaded name |
| Uploads.DuplicateCreatesNothing | backend/app.py:153-166 | a file whose hash matches a stored unmerged record with a non-empty hash is answered as a duplicate, never as new, and the indexed record carries that hash |
| Uploads.SameContentTwiceBothStored | backend/app.py:137-203 | two files with the same new content in one request are both stored, with consecutive orders, because the index is built once, before the loop |
| Uploads.UploadKeepsDense | backend/app.py:140-203 | an upload keeps the unmerged records numbered 1..n without gaps or repeats |
| MetadataService.MetadataStore.UploadAudio | backend/app.py:128-213 | the handler's loop saves and returns what `Uploads.UploadAudio` specifies; on a 400 nothing is saved |
| MetadataEdits.Rename | backend/app.py:235-256 | a rename fails with 404 exactly when no record of the kind has the id; otherwise it returns a record of that kind with that id, and the list keeps its length |
| MetadataEdits.RenameSpec | backend/app.py:237-242 | a rename changes only the first record of the kind with the id, and of that record only the display name: the new one when given, otherwise the old one |
| MetadataEdits.RenameIgnoresOrder | backend/app.py:235-256 | the `order` field of the request never makes a difference |
| MetadataEdits.RenameTwice | backend/app.py:235-243 | renaming to `a` and then to `b` is the same as renaming to `b` |
| MetadataEdits.RenameKeepsOrders | backend/app.py:235-256 | a rename keeps the dense numbering and the set of unmerged ids; renaming an upload leaves the processed listing unchanged |
| MetadataService.MetadataStore.Rename | backend/app.py:235-256 | both rename handlers save and return what `Rename` specifies; on a 404 nothing is saved |
| MetadataEdits.DeleteAllAudioSpec | backend/app.py:261-282 | after deleting all audio, the audio listing is empty, the processed listing is unchanged, the numbering is dense, and the files removed are those of exactly the unmerged records |
| MetadataEdits.DeleteAllProcessedSpec | backend/app.py:287-308 | after deleting all processed files, the processed listing is empty, the unmerged records are exactly those before, in order, the audio listing is unchanged and a dense numbering stays dense |
| MetadataEdits.DeleteAllCounts | backend/app.py:261-308 | every record is either kept or has its file removed |
| MetadataService.MetadataStore.DeleteAllAudio | backend/app.py:261-282 | the handler's loop keeps the merged records and removes the files of the others, as `DeleteAllAudio` specifies |
| MetadataService.MetadataStore.DeleteAllProcessed | backend/app.py:287-308 | the same with the kinds exchanged |
| MetadataEdits.RenumberAt | backend/app.py:333-337 | after renumbering, an unmerged record has order 1 plus the number of unmerged records stored before it; merged records and every other field are untouched |
| MetadataEdits.RenumberDense | backend/app.py:333-337 | renumbering always yields a dense numbering, whatever the orders were, and keeps every merged record |
| MetadataService.RenumberInOrder | backend/app.py:333-337 | the `current_order` loop computes the renumbering |
| MetadataEdits.DeleteAudio | backend/app.py:313-340 | the delete fails with 404 exactly when no unmerged record has the id; otherwise one record goes |
| MetadataEdits.DeleteAudioSpec | backend/app.py:313-339 | the first unmerged record with the id is removed together with its file; the rest is renumbered densely, and the processed listing is unchanged |
| MetadataEdits.DeleteAudioCount | backend/app.py:317-331 | one unmerged record fewer remains |
| MetadataEdits.DeleteAudioListsStoredOrder | backend/app.py:333-337 | after a delete, the audio listing is the stored order of the unmerged records, whatever order a reorder had given them |
| MetadataService.MetadataStore.DeleteAudio | backend/app.py:313-340 | the handler's search and renumbering loops save and return what `DeleteAudio` specifies; on a 404 nothing is saved |
| MetadataEdits.DeleteProcessed | backend/app.py:345-365 | the delete fails with 404 exactly when no record with the id has `merged` true or missing; otherwise the first such record is cut out of the list, the others keep their order, and its path is the file removed |
| MetadataEdits.DeleteProcessedListing | backend/app.py:349-363 | deleting a merged record takes exactly that record out of the processed listing, at its place, and keeps the other entries in order |
| MetadataEdits.DeleteProcessedSpec | backend/app.py:345-365 | deleting a merged record leaves the unmerged records, the audio listing and a dense numbering as they were |
| MetadataEdits.DeleteProcessedTakesUnmarked | backend/app.py:350 | when the first record with the id has no `merged` key, this handler deletes it, although the audio listing shows that record |
| MetadataService.MetadataStore.DeleteProcessed | backend/app.py:345-365 | the handler's search saves and returns what `DeleteProcessed` specifies; on a 404 nothing is saved |
| Reorder.AssignOrders | backend/app.py:700-713 | the renumbering loop keeps the number of records |
| Reorder.AssignOrdersStep | backend/app.py:707-713 | one iteration gives the record the dictionary keeps for the id (the last one stored with it) the order `i + 1`, when that record is unmerged |
| Reorder.AssignOrdersAt | backend/app.py:700-713 | the loop computes the closed form: a record's order is one more than the last position of its id, when it is the unmerged record kept for a listed id; otherwise it is unchanged |
| Reorder.AssignOrdersFrame | backend/app.py:707-710 | only `order` changes, and merged records do not change at all |
| Reorder.ReorderIdempotent | backend/app.py:693-718 | sending the same list twice changes nothing the second time |
| Reorder.ListedAt | backend/app.py:707-710 | with unique ids, a listed unmerged record gets its id's last position plus one; with duplicate ids the later position wins |
| Reorder.ReorderDense | backend/app.py:702-713 | a list that names every waiting upload once restores the dense numbering, whatever it was before |
| Reorder.ReorderListing | backend/app.py:714-718 | the audio listing returned then names the uploads exactly in the order sent |
| Reorder.ReorderAudio | backend/app.py:693-721 | an empty list is a 400; a list whose set of ids differs from the unmerged ids is a 500 (the 400 raised inside the `try` is turned into a 500); otherwise it succeeds |
| Reorder.ReorderAudioSpec | backend/app.py:693-718 | on success with unique ids, only the orders of unmerged records change, the saved records are dense, and the listing shows the ids in the order sent, numbered 1..n |
| Reorder.RepeatedIdBreaksOrder | backend/app.py:702-710 | the guard compares sets, so a valid list followed by its first id again is accepted; it leaves an upload numbered n + 1, and the numbering is no longer dense |
| MetadataService.MetadataStore.Reorder | backend/app.py:693-721 | the handler's loop over `id_to_item` saves and returns what `ReorderAudio` specifies; on an error nothing is saved |
| Tasks.RegisterTask | backend/app.py:381-382 | registration creates or replaces the entry under the key as `processing`, not cancelled, and leaves every other entry alone |
| Tasks.CancelProcessing | backend/app.py:603-615 | cancel is a 400 for a missing or empty id, a 404 for an unknown one, and succeeds exactly otherwise |
| Tasks.CancelSpec | backend/app.py:611-613 | a cancel sets only the flag and the status `cancelled` of its own entry, whatever the status was before, `completed` included |
| Tasks.CancelIdempotent | backend/app.py:603-615 | cancelling twice is cancelling once |
| Tasks.UnaddressableEntry | backend/app.py:604-606 | a merge without a request id registers under `None`, and neither endpoint can ever address that entry |
| Tasks.CheckProcessingStatus | backend/app.py:620-655 | the status reply has the same 400/404 cases; otherwise it reports the entry with defaults for missing keys, and `fileInfo` if and only if the status is `completed` and a record is stored |
| Tasks.CancelHidesResult | backend/app.py:648-649 | once a completed task is cancelled, polls report `cancelled` and no longer carry the merged record |
| Tasks.TaskRegistry.Register | backend/app.py:382 | the registry then maps the key to a fresh `processing` entry |
| Tasks.TaskRegistry.Cancel | backend/app.py:603-615 | the in-place cancel does what `CancelProcessing` specifies; on an error nothing changes |
| Tasks.TaskRegistry.CheckStatus | backend/app.py:620-655 | the poll returns `CheckProcessingStatus` and changes nothing |
| MergeSubmit.Resolve | backend/app.py:388-393 | the lookup loop either fails with 404 or yields one record per requested id |
| MergeSubmit.ResolveSpec | backend/app.py:388-393 | the lookup succeeds exactly when every id has an unmerged record; it then yields, in request order, the first unmerged record with each id |
| MergeSubmit.RejectedBeforeRegistering | backend/app.py:371-376 | an empty id list or a blank output name is a 400 that registers nothing |
| MergeSubmit.RegisteredBeforeLookup | backend/app.py:380-392 | past those checks the merge task is registered, and it stays registered when an id then has no unmerged record (404 exactly then) |
| MergeSubmit.AcceptedJob | backend/app.py:378-420 | an accepted job's inputs are stored unmerged records, one per requested id, sorted by `order` with equal orders kept in request order; `totalFiles` counts the ids; the name is the stripped name; the output is an `.mp3` in the processed folder; the gain settings are those requested |
| MergeSubmit.SubmitMerge | backend/app.py:370-420 | the handler's lookup loop registers and replies as `MergeAudio` specifies |
| MergeRunner.MergeProgress | backend/app.py:486 | merge progress lies in 0..60, and is 60 after the last file |
| MergeRunner.MergeProgressMonotone | backend/app.py:486 | merge progress never goes down from one file to the next |
| MergeRunner.InvInit | backend/app.py:382 | a freshly registered job satisfies the job invariant |
| MergeRunner.StepInv | backend/app.py:424-598 | every step keeps the invariant: nothing is written before the export; once written, the file holds the reloaded records plus exactly the job's record, and the entry holds that record |
| MergeRunner.CancelInv | backend/app.py:611-613 | a cancel request keeps the invariant whenever it arrives |
| MergeRunner.CheckpointHonoursCancel | backend/app.py:440-505 | at each of the checkpoints (before each load in both passes, and after the merge loop) a cancel ends the job as `cancelled`; nothing is written and no output is left |
| MergeRunner.LoadFailureFails | backend/app.py:430-497 | an empty input list or a failed load, in either pass, ends the job as `failed` without writing anything |
| MergeRunner.MergeStepReports | backend/app.py:484-490 | merging file `i` reports its progress, the stage naming the file, the index `i + 1` and the total |
| MergeRunner.ProgressNeverDecreases | backend/app.py:484-572 | the progress a poll reads never goes down, except when a failed export resets it to 0 |
| MergeRunner.ExportFailure | backend/app.py:574-596 | a failed export ends the job as `failed`, with progress 0 and the error text; the counters are set to the total, nothing is written and the output file is removed |
| MergeRunner.ExportSuccess | backend/app.py:532-562 | a successful export appends exactly one record, the job's, to the records reloaded at that moment; only then does the entry report `completed` with that record |
| MergeRunner.LateCancelOverwritten | backend/app.py:559-562 | a cancel that arrives after the last checkpoint is overwritten by `completed` |
| MergeRunner.CancelAfterCompletionSticks | backend/app.py:566-572 | a cancel between `completed` and the final update sticks: the job ends `cancelled` with progress 100, and its record stays written |
| MergeRunner.StepDecreases | backend/app.py:424-598 | every step that has not returned lowers the job's rank |
| MergeTrace.RunInv | backend/app.py:424-616 | the invariant holds after any trace of job steps, cancels and polls |
| MergeTrace.Outcome | backend/app.py:424-598 | after any trace from registration, a job that returned early has written nothing and left no output; a finished job has appended exactly its one record |
| MergeTrace.CompletedOnlyAfterWrite | backend/app.py:551-562 | a poll sees `completed` only once the record is in the file, and is then handed that record |
| MergeTrace.PollsSeeRecord | backend/app.py:648-649 | every poll of the job in any trace that reports `completed` carries the job's record |
| MergeTrace.ProgressMonotone | backend/app.py:484-572 | along any trace whose export does not fail, polled progress never goes down |
| MergeTrace.RunRank | backend/app.py:424-598 | steps taken plus rank left never exceed the starting rank, whatever is interleaved |
| MergeTrace.Terminates | backend/app.py:424-598 | after 2n + 6 steps of its own, the job has returned |
| MergeJob.Worker.Step | backend/app.py:424-598 | one step on the shared registry and store objects changes them as `MergeRunner.Step` specifies |
| MergeJob.Worker.ProcessAudioFiles | backend/app.py:424-598 | run without interruptions, the job returns and keeps the job invariant: it has written nothing, or it has appended exactly its one record |
| TaskStatus.Find | frontend/src/store/taskStatus.js:40 | `find` returns none exactly when no task has the id, and otherwise the first task with it |
| TaskStatus.TaskStatusStore.FindIndex | frontend/src/store/taskStatus.js:19 | `findIndex` returns the first position with the id, or -1 |
| TaskStatus.OverlayRid | frontend/src/store/taskStatus.js:21 | after the spread, the entry has the added task's id when it carries one, and the old id otherwise |
| TaskStatus.AddNew | frontend/src/store/taskStatus.js:19-28 | a task with a new id is appended; it becomes current exactly when there was none or the current task has its id |
| TaskStatus.AddKnown | frontend/src/store/taskStatus.js:19-28 | a task with a known id is merged into the first entry with that id (old fields overlaid by new ones); the length and the other entries are unchanged; the merged entry becomes current exactly when there was none or the current task had that id |
| TaskStatus.AddKeepsUnique | frontend/src/store/taskStatus.js:17-29 | adding keeps the ids unique, and the added id is then present |
| TaskStatus.UpdateUnknown | frontend/src/store/taskStatus.js:30-38 | an update for an unknown id changes nothing |
| TaskStatus.UpdateKnown | frontend/src/store/taskStatus.js:30-37 | an update merges into that entry only, and refreshes the current task only when it has the id |
| TaskStatus.UpdateKeepsUnique | frontend/src/store/taskStatus.js:30-38 | an update that does not carry another id keeps the ids unique |
| TaskStatus.RemoveSpec | frontend/src/store/taskStatus.js:42-47 | after a remove, the entries left are exactly those with another id; the current task is cleared exactly when it had the id |
| TaskStatus.RemoveKeepsOrder | frontend/src/store/taskStatus.js:43 | with unique ids, removing cuts one position out of the list and keeps the others in order |
| TaskStatus.RemoveAbsent | frontend/src/store/taskStatus.js:43 | removing an absent id leaves the list as it was |
| TaskStatus.TaskStatusStore.constructor | frontend/src/store/taskStatus.js:13-16 | the store starts with no tasks and no current task |
| TaskStatus.TaskStatusStore.AddTask | frontend/src/store/taskStatus.js:17-29 | `addTask` changes the list and the current task as `Added` specifies |
| TaskStatus.TaskStatusStore.UpdateTask | frontend/src/store/taskStatus.js:30-38 | `updateTask` changes them as `Updated` specifies |
| TaskStatus.TaskStatusStore.SetCurrentTask | frontend/src/store/taskStatus.js:39-41 | the list is unchanged, and the current task becomes the first task with the id, or none |
| TaskStatus.TaskStatusStore.RemoveTask | frontend/src/store/taskStatus.js:42-47 | `removeTask` changes them as `Removed` specifies |
| TaskStatus.TaskStatusStore.Clear | frontend/src/store/taskStatus.js:48-51 | afterwards there are no tasks and no current task |

## Left out

- HTTP transport, routing, CORS, environment set-up and logging. Handler errors are `Result` values carrying 400, 404 or 500.
- File I/O. The metadata file is a value (`MetadataFile`): missing, empty, unreadable or a list of records.
- MetadataService.MetadataStore.Save: a write that fails is logged and swallowed by `save_metadata`. The model always writes.
- Removing files. The delete handlers return the paths they would remove, and a failed removal changes nothing in the saved records. `os.path.exists` for downloads is the parameter `onDisk`.
- SHA-256 and the chunked reads. A file's digest arrives with the upload as data, `None` when reading it failed.
- The audio codec: loading, concatenation, `apply_gain`, `dBFS` and `export`. Each step receives the codec's answer as a `Codec` value. Lengths are integer milliseconds, and durations are those divided by 1000.
- `total_duration` in the first pass is computed but never used. The model keeps that pass only for its checkpoints and failures.
- MergeRunner.MergeProgress: the source divides in floating point and truncates with `int()`. The model uses exact floor division, so it does not capture any rounding error of the float division.
- The thread pool and the lack of locking. The model covers cancels and polls between any two steps of one job (`MergeTrace`). Other jobs and other handlers that write the metadata file during a job are not modelled. The export step reloads the file, so such writes would be kept.
- MergeJob.Worker.ProcessAudioFiles: the method runs the job without interleaved requests. Interleaving is covered by the lemmas of `MergeTrace` on the same step function.
- The cleanup of the output file after a failed export is the flag `outputOnDisk`. A failed `os.remove` during that cleanup is not modelled.
- Error and progress message texts are the `Note` values `Merging(name)`, `Normalizing`, `Done` and `Error(text)`, not the Chinese strings. The text of an exception is the export error's string.
- The request id is `Option<string>`. A JSON body whose `requestId` is not a string is not modelled.
- The uuids of new files, new records and merge outputs are given as parameters.
- Uploads.UploadAudio: an exception while handling one file is modelled only through the three ways that can fail (unreadable, unwritable, length unknown). Any other exception inside the loop is not modelled.
- Reorder.ReorderAudioSpec: density and the exact listing are stated for stored records with unique ids and a list without repeats. `Reorder.RepeatedIdBreaksOrder` shows what happens with a repeat.
- MetadataEdits.DeleteProcessedSpec: it is stated for removing a merged record. Removing a record without a `merged` key is covered by `DeleteProcessedTakesUnmarked`.
- TaskStatus.UpdateKeepsUnique: it is stated for updates that carry no `requestId` or the same one. An update that changes the id can make two entries share it.
- The front end's `wsConnected` flag, and object identity. Tasks are maps from property names to values, so `currentTask` is a copy of the entry rather than a reference to it.
- The WebSocket progress broadcast and the client's polling timers are not part of this model.

## Where the code and the design differ

The model follows the code in each of these cases:

- The design says a cancel after completion has no effect. In the code, `cancel_processing` overwrites any status, so a completed task is reported as `cancelled` and polls no longer carry its record (`Tasks.CancelSpec`, `Tasks.CancelHidesResult`). If the cancel arrives between `completed` and the final update, the job still sets progress 100 (`MergeRunner.CancelAfterCompletionSticks`).
- The design says a terminal status is sticky. In the code, a cancel that arrives after the last checkpoint is overwritten by `completed` (`MergeRunner.LateCancelOverwritten`).
- The design says a request that fails validation is rejected before any merge task is created. In the code, `merge_audio` registers the merge task before it looks up the ids, so a 404 leaves the entry behind (`MergeSubmit.RegisteredBeforeLookup`).
- The design says a set mismatch in a reorder is a validation error. In the code, the 400 is caught by the handler's own `except Exception` and answered as a 500 (`Reorder.ReorderAudio`).
- The design says uploading the same content twice yields one stored item. In the code, the dedup index is built once per request, so two identical new files in one request are both stored (`Uploads.SameContentTwiceBothStored`).
- The design says the unmerged orders are unique and dense. A reorder list that repeats an id passes the set check and breaks that (`Reorder.RepeatedIdBreaksOrder`).
- The design says the recorded gain is the gain applied. In the code, the record stores `normalizeTargetDb` whenever normalisation was requested, even when the gain step failed (`MergeRunner.MergedRecord`, `MergeRunner.ExportSuccess`).
- The design says progress never decreases. A failed export resets it to 0 (`MergeRunner.ProgressNeverDecreases`, `MergeRunner.ExportFailure`).
- A merge without `requestId` is registered under `None`: the field always exists with default `None`, so the uuid fallback never applies. Both endpoints reject that id, so the entry can never be cancelled or polled (`Tasks.UnaddressableEntry`).
