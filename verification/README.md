# Folder uploader: the `/upload` command, modelled in Dafny

`msu.py` is a Telegram bot. Its `/upload <path>` command uploads a folder tree into a chat, and this project models that command:

- **Check the path.** With no argument, or when the space-joined arguments contain `..` or do not name a directory, the command replies with an error and stops. The counters keep their old values.
- **Reset and announce.** Otherwise it resets the counters `total/success/failed/skipped`, looks up the chat and posts a status message.
- **Scan.** The command walks the folder with `os.walk`. It puts every regular file into a bucket keyed by the file's directory relative to the root. The file's lower-cased extension makes it an *image* or a *document*. A tree without files ends with the edit "Folder is empty", and the counters stay at zero.
- **Visit the buckets.** It visits the buckets in sorted key order and skips empty ones.
- **Topics.** If topics are on, it opens a forum topic for every sub-folder. The topic name is the sub-folder path cut to 128 characters.
- **Images, then documents.** Each folder sends its images first and its documents second. Images go as albums of at most ten or one by one. Documents go as groups of at most ten or one by one. A file over 50 MiB or an unreadable file is counted as `skipped`.
- **Retry.** Every request goes through `retry_with_backoff`. That function makes at most three attempts:
  - it sleeps `2 * 2^attempt` seconds after a network error;
  - it sleeps `retry_after + 2` seconds after a rate-limit answer;
  - it re-raises any other error at once.
- **Counting.** A request that returns counts one `success`, and one that raises counts one `failed`. This holds for an album of ten files as much as for a single photo.
- **Status messages.** The status message is edited before each non-empty phase of a folder and once more for the final report. These calls sit outside the retry loop. If one of them raises, the command's outer handler replies with the error. The remaining folders are then never uploaded, and the counters keep the values the run had reached.

## How the model is built

- **The outside world is a set of parameters.**
  - The walk of the file system is a sequence of `WalkStep`s, and each file carries its size and readability.
  - The Telegram API is a `Transport`. It maps a call number and an attempt number to an outcome: returned, rate-limited, network error, or other error.
  - Topic creation is a function from the topic name to `NotCreated`, `Created(id)` or `CreatedHeaderFailed`. The last case covers a topic that was created but whose header message failed. The source counts that topic as created but does not post into it.
  - The status-message calls are numbered in the order they are made. A `StatusFailure` names the first one that raises, if any. Call 0 is the chat lookup together with the first status message. For a tree without files, call 1 is the "Folder is empty" edit. Otherwise the per-phase edits follow, one per non-empty phase, and the final report comes last.
- **A run is pure data.** A run of the command is a pure function (`Command.UploadCommand`). Its result is a `RunState`:
  - the counters;
  - the list of requests sent, with their captions, file names and threads;
  - every sleep;
  - the folders visited in order;
  - the names of the folders whose topic block was entered;
  - the number of topics counted as created.
- **Each operation has a partner.** The scan is compared with an independent per-file reference (`Classifier.Selected`). The sort is compared with a strict key order. The retry loop is compared with a declarative account of its attempts (`Retry.MeetsSpec`). Each upload loop is compared with the counts and the request log it must produce. The whole run is compared with the plan it is driven by (`Accounting.PlannedLog`). A run cut short by a status call is compared with the same plan: it sent a prefix of it (`Aborts.AbortedRun`).
- **Quirks are kept as written.**
  - An album gets its folder caption only when the first file of its slice of ten was accepted: the test is on the index within the unfiltered slice (`Uploader.AlbumCaptionRule`).
  - In album and document-group mode, `success` and `failed` count requests, not files.
  - `RetryAfter` uses up one of the three attempts.

## Where the code departs from what a caller would expect

The model follows the code in each case:

- **Rate limits.** A caller would expect a rate-limit answer to be waited out without using up a retry. In the code, `for attempt in range(MAX_RETRIES)` counts it like any other attempt. Three rate-limit answers therefore end the loop (`Retry.RateLimitConsumesAttempts`).
- **Exhaustion.** A caller would expect an exhausted retry loop to pass on the last error it saw. In the code, `raise last_exception` raises `None` when every attempt was rate-limited, because only network errors are stored there. The model calls this `RaisedNone`, and the caller counts it as a failure like any other error.
- **Counting.** The final report prints `success` over `total_files` as "files" (line 525), so a caller would expect one count per file. The grouped loops count one success or failure per group (`Uploader.GroupedAccounts`).
- **Status messages.** A caller would expect a failed progress message not to stop the upload. The edits at lines 403, 476, 501 and 521 are outside every `try` except the outermost one, so a raising edit ends the whole command (`Aborts.AbortedIffStatusFails`).

## Model

| member | source | states |
|---|---|---|
| Stats.Reset | msu.py:69-72 | the counters start at zero and are balanced |
| Stats.Update | msu.py:74-78 | one event raises `total` and exactly the named counter by one |
| Stats.UpdatePreservesBalance | msu.py:74-78 | `total == success + failed + skipped` survives every update |
| Stats.ApplyAllCounts | msu.py:74-78 | after a sequence of events each counter grows by the number of its events and `total` by their number |
| Stats.ResetThenBalanced | msu.py:69-78 | any run of updates after a reset leaves the counters balanced |
| Stats.CountPartition | msu.py:74-78 | every event is exactly one of success, failed, skipped |
| Retry.RetryWithBackoff | msu.py:80-100 | at least one and at most three invocations, at most one sleep per invocation |
| Retry.RetryMeetsSpec | msu.py:80-100 | the loop stops at the first answer that returns or raises a non-retryable error, or after three attempts. It makes exactly that many invocations and sleeps after every earlier attempt: `2 * 2^i` after a network error, `retry_after + 2` after a rate limit. On exhaustion it raises the last network error seen |
| Retry.FirstOkReturned | msu.py:84-86 | a first answer that returns is returned at once, with no sleep |
| Retry.OtherPropagatesImmediately | msu.py:96-98 | a non-retryable error after k retryable ones is re-raised after k+1 invocations and k sleeps |
| Retry.TransientThenSuccess | msu.py:84-95 | k < 3 network errors then success returns after k+1 invocations, sleeping 2, 4, … for a total of `2 * (2^k - 1)` seconds |
| Retry.AlwaysTransient | msu.py:91-100 | three network errors sleep 2, 4 and 8 seconds (14 in all), then raise the third error |
| Retry.RateLimitConsumesAttempts | msu.py:84-90 | three rate-limit answers use up all attempts; the loop sleeps `retry_after + 2` each time and ends with nothing to re-raise |
| Retry.ExhaustionRaisesLatestNetworkError | msu.py:91-100 | when all attempts are retryable, the error raised is the latest network error, even if rate limits follow it |
| Paths.SplitExt | msu.py:394 | the extension split puts the path back together and the extension is empty or a dot followed by no separator and no dot |
| Paths.SplitExtCharacterization | msu.py:394 | the extension is non-empty exactly when the last path component has a dot after some non-dot character |
| Paths.ExtensionOfJoinedPath | msu.py:389-394 | the extension of `root/name` is the extension of `name` |
| Paths.JoinSplitRoundTrip | msu.py:561-563 | `dirname` and `basename` of a joined relative path give back its directory and file name |
| Paths.RFindLower | msu.py:394 | lower-casing never moves the last separator or the last dot |
| Paths.SplitExtLower | msu.py:394 | the extension of the lower-cased path is the lower-cased extension |
| Classifier.BucketKey | msu.py:381-383 | the relative root keeps its name except that `.` becomes the empty key |
| Classifier.ImageTestIgnoresCase | msu.py:394-396 | a path and its lower-cased form are classified alike: the case of the extension's letters never matters |
| Classifier.ImageTestUsesNameOnly | msu.py:394-396 | whether a file is an image depends on its name alone, not on its directory |
| Classifier.EnsureBucket | msu.py:385-386 | after the step a bucket for the key exists |
| Classifier.AddFiles | msu.py:388-399 | adding files never changes the keys or their order |
| Classifier.BuildPlanInv | msu.py:379-399 | each bucket of the scan holds exactly the regular files of its directory, images and documents apart, in walk order. The keys are distinct and are those of the walk |
| Classifier.BuildPlanKeysDistinct | msu.py:385-386 | no key gets two buckets |
| Classifier.PlanClassifiesWalk | msu.py:379-399 | the scan agrees with the per-file reference classification, bucket by bucket |
| Classifier.TotalFilesCountsRegularFiles | msu.py:401 | `total_files` is the number of regular files the walk reported |
| Batcher.ScreenOrder | msu.py:545-553 | a file is sent iff it is at most 50 MiB and readable; the size test comes first |
| Batcher.Slices | msu.py:593-594 | a list of n files gives `ceil(n/10)` slices |
| Batcher.SlicesPartition | msu.py:593-594 | the slices concatenate back to the list, each holds 1 to 10 files, and all but the last hold 10 |
| Batcher.Accepted | msu.py:604-616 | the files kept are exactly the screened-in ones |
| Batcher.AcceptedPlusRejected | msu.py:604-616 | kept plus skipped files make up the whole list |
| Batcher.AcceptedAppend | msu.py:604-616 | screening a concatenation screens its parts |
| Batcher.GroupsBounded | msu.py:593-642 | the groups sent number at most `ceil(n/10)`, hold 1 to 10 sendable files each, and together are the accepted files in order |
| Sorting.StrLtTotal | msu.py:413 | any two distinct keys are ordered one way |
| Sorting.StrLtTransitive | msu.py:413 | the key order is transitive |
| Sorting.SortByKey | msu.py:413 | sorting permutes the buckets and keeps the key set |
| Sorting.SortByKeySorted | msu.py:413 | the sorted buckets are in key order |
| Sorting.SortKeepsDistinct | msu.py:413 | sorting keeps keys distinct |
| Sorting.SortPreservesSum | msu.py:413 | any per-bucket count summed over the plan is unchanged by sorting |
| Sorting.SortedDistinctAscending | msu.py:413 | sorted distinct keys are strictly ascending |
| Uploader.Send | msu.py:568-586 | a request is logged, counted once, and counted as success or failure, leaving `skipped` alone |
| Uploader.SkipRejected | msu.py:604-616 | the rejected files of a slice are each counted once as skipped, and nothing is sent |
| Uploader.ImageCaptionNamesParent | msu.py:561-565 | the per-image caption is the name of the parent directory, `Root` at the top |
| Uploader.DocumentNameIsFileName | msu.py:757-758 | a document goes out under its own file name |
| Uploader.AlbumCaptionRule | msu.py:604-629 | an album holds the accepted files as photos, and only its first photo carries the folder caption. It does so only with album captions on and when the slice's first file was accepted |
| Uploader.DocumentCaptionRule | msu.py:689-704 | a document group holds the accepted files, each named by its file name, captioned with it exactly when captions are on |
| Uploader.IndividuallyAccounts | msu.py:540-586 | the per-file loop counts every file once: rejected ones as skipped, the rest as success or failure |
| Uploader.IndividuallyLog | msu.py:540-586 | the per-file loop sends one request per accepted file, in order |
| Uploader.GroupedAccounts | msu.py:593-651 | the per-slice loop counts rejected files as skipped and one success or failure per non-empty group |
| Uploader.GroupedLog | msu.py:593-651 | the per-slice loop sends exactly the planned group requests |
| Uploader.GroupLog | msu.py:634-642 | each group request is a non-empty media group to the folder's thread |
| Uploader.GroupLogItems | msu.py:593-642 | the group requests carry exactly the non-empty accepted slices, in order |
| Command.TopicName | msu.py:438 | the topic name is the sub-folder path cut to 128 characters |
| Command.TopicId | msu.py:426-468 | uploads go to a thread only when a topic was created and its header sent |
| Command.OpenTopic | msu.py:426-468 | a topic is tried only for sub-folders with topics on. It is counted as created even when its header message then fails |
| Command.Start | msu.py:341 | a run starts from zeroed counters and empty logs |
| Command.JoinArgs | msu.py:330 | a single argument is the path itself; no arguments give the empty path |
| Command.JoinArgsRoundTrip | msu.py:330 | arguments without spaces come back when the joined path is split on spaces: the join loses nothing |
| Command.FolderEdits | msu.py:470-501 | a folder makes at most two status edits, one per non-empty phase, and none exactly when it is empty |
| Command.UploadCommand | msu.py:326-334 | the command stops on missing arguments, and stops as invalid exactly when the joined path has `..` or is not a directory |
| Accounting.RejectedInAllSlices | msu.py:593-616 | over all slices, the skipped count is that of the whole list |
| Accounting.AlbumBuilderKeepsAccepted | msu.py:604-629 | an album holds exactly the accepted files of its slice |
| Accounting.DocumentBuilderKeepsAccepted | msu.py:675-704 | a document group holds exactly the accepted files of its slice |
| Accounting.PhaseAccounts | msu.py:485-513 | either upload loop counts rejected files as skipped and one outcome per request sent |
| Accounting.ImagesEffect | msu.py:470-491 | a folder's image phase appends its planned requests and counts them |
| Accounting.DocumentsEffect | msu.py:493-516 | a folder's document phase appends its planned requests and counts them |
| Accounting.EmptyFolderPlansNothing | msu.py:413-415 | an empty bucket is skipped: no request, no count |
| Accounting.FolderAccounts | msu.py:413-516 | one folder adds its rejected files to `skipped` and its requests to `success + failed` |
| Accounting.FolderRequests | msu.py:413-516 | one folder appends exactly its planned requests |
| Accounting.FolderProgress | msu.py:413-468 | a folder is visited and gets a topic attempt only when it holds files |
| Accounting.FoldersAccounts | msu.py:413-516 | the folder loop's counts are the sums of the per-folder counts |
| Accounting.FoldersRequests | msu.py:413-516 | the folder loop's log is the concatenation of the per-folder plans |
| Accounting.FoldersProgress | msu.py:413-468 | the folder loop visits the occupied folders in plan order and tries their topics |
| Properties.ImagesLogLength | msu.py:485-488 | the image phase sends one request per accepted image, or one per non-empty album |
| Properties.DocumentsLogLength | msu.py:510-513 | the document phase sends one request per accepted document, or one per non-empty group |
| Properties.PlannedLogLength | msu.py:413-516 | the planned log has one entry per request the folders count |
| Properties.TreeEnds | msu.py:352-534 | after the path checks the command aborts exactly when a status call it makes raises, and otherwise stops as empty for a tree without files and completes for one with files |
| Properties.EmptyFolderIffNoFiles | msu.py:363-405 | a valid path stops as empty exactly when the walk found no regular file and neither status call raised; it completes exactly when there are files and no status call raised |
| Properties.CompletedCounts | msu.py:413-516 | after a run the counters are balanced. `skipped` is the number of rejected files, and `success + failed` is the number of requests sent |
| Properties.CompletedLog | msu.py:413-516 | the requests sent are exactly the plan of the sorted buckets |
| Properties.OneByOneCountsEveryFile | msu.py:536-586 | with albums and document groups off, `total` equals the number of files found |
| Properties.TransportOnlySplitsOutcomes | msu.py:324-516 | the network's answers change only success versus failure: whether the run completes or aborts, the early stops, and a completed run's requests, `skipped` and `total` do not depend on it |
| Delivery.Delivered | msu.py:568-586 | no more calls are delivered than made |
| Delivery.SendTallies | msu.py:568-586 | one request keeps `success` equal to the number of calls the retry loop returned from |
| Delivery.IndividuallyTallies | msu.py:540-586 | the per-file loop keeps that tally |
| Delivery.GroupedTallies | msu.py:593-651 | the per-slice loop keeps that tally |
| Delivery.FolderTallies | msu.py:470-516 | a folder keeps that tally |
| Delivery.FoldersTally | msu.py:413-516 | the folder loop keeps that tally |
| Delivery.RunTallies | msu.py:341-516 | a whole run from reset keeps that tally |
| Delivery.ReliableDeliversAll | msu.py:84-86 | when every first attempt succeeds, every call is delivered |
| Delivery.UnreachableDeliversNone | msu.py:91-100 | when every attempt hits a network error, no call is delivered |
| LogShape.OneByOneWellFormed | msu.py:540-586 | the per-file loop only sends single accepted files |
| LogShape.GroupsWellFormed | msu.py:593-642 | each group sent holds one to ten accepted files |
| LogShape.AlbumBuilderBuildsPhotos | msu.py:618-629 | albums hold only photos |
| LogShape.DocumentBuilderBuildsDocuments | msu.py:689-704 | document groups hold only documents |
| LogShape.ImagesLogShape | msu.py:485-488 | the image phase sends only well-formed image requests to the folder's thread |
| LogShape.DocumentsLogShape | msu.py:510-513 | the document phase sends only well-formed document requests to the folder's thread |
| LogShape.DocumentGroupsShape | msu.py:659-722 | document groups are well-formed document requests to the folder's thread |
| LogShape.ImagesBeforeDocuments | msu.py:470-516 | within a folder every image request precedes every document request. All go to the folder's thread, which is the main chat for the top folder or with topics off |
| LogShape.PlannedLogWellFormed | msu.py:413-516 | every planned request is well-formed |
| LogShape.TopicsOffNoThreads | msu.py:426-427 | with topics off nothing goes to a forum thread |
| Runs.CompletedTallies | msu.py:519-528 | the reported `success` is the number of requests delivered by the retry loop, and `failed` the rest |
| Runs.ReliableRunFailsNothing | msu.py:519-528 | over a network whose first attempts all succeed, nothing fails |
| Runs.ReliableReport | msu.py:519-528 | over such a network the report is fully determined by the plan: `skipped` rejected files, `success` the requests, `failed` zero |
| Runs.UnreachableRunSucceedsNothing | msu.py:519-528 | over an unreachable network nothing succeeds and every request fails |
| Runs.OccupiedKeysMembers | msu.py:413-417 | the folders visited are exactly the occupied ones |
| Runs.OccupiedKeysAscending | msu.py:413-417 | folders are visited in strictly ascending key order |
| Runs.VisitsInOrder | msu.py:413-417 | a completed run visits each folder holding files once, in strictly ascending key order, and no other |
| Runs.VisitOrderKeys | msu.py:413-417 | the sorted plan visits the occupied keys of the scan in ascending order |
| Runs.TopicCountsBounded | msu.py:426-468 | topics created ≤ topics tried ≤ folders visited. None is tried with topics off, and none counts when every creation fails |
| Runs.TopicNamesFit | msu.py:438 | every topic name tried fits in 128 characters |
| Runs.CompletedTopics | msu.py:426-468 | the same bounds and name limit hold for a completed run |
| Runs.CompletedRequestsWellFormed | msu.py:470-516 | a completed run sends only well-formed requests, none to a thread with topics off |
| Runs.PlannedLogWithoutTopics | msu.py:460-468 | when every topic creation fails the plan is the plan with topics off |
| Runs.CompletedReport | msu.py:519-528 | the final counters are balanced. `skipped` counts the rejected files, `success + failed` the requests, `success` the deliveries |
| Runs.CompletedProgress | msu.py:413-468 | a completed run visits the occupied folders of the sorted plan and counts their created topics |
| Runs.TopicFailureSameRequests | msu.py:460-468 | when every topic creation fails, the same requests go out as with topics off |
| Runs.TopicsDoNotChangeTheEnd | msu.py:324-534 | turning topics on or off never changes whether the command completes, aborts, or how it stops early |
| Runs.TopicFailureHarmless | msu.py:460-468 | when every topic creation fails, requests, counters and visits equal those of a run with topics off, and no topic is counted |
| Aborts.StoppedLogIsPrefix | msu.py:413-516 | the requests planned up to a failing per-phase edit are a prefix of all the planned requests |
| Aborts.StoppedFoldersLog | msu.py:413-516 | a folder loop cut short by a per-phase edit has sent the earlier folders' planned requests, plus the failing folder's images when it was the document edit that raised |
| Aborts.StoppedFoldersKeep | msu.py:413-516 | the cut-short loop keeps the counters balanced and `success` equal to the deliveries |
| Aborts.AbortedIffStatusFails | msu.py:352-534 | the command ends in the outer handler exactly when the path passes the checks and one of the status calls it makes raises |
| Aborts.AbortedRun | msu.py:352-534 | an aborted run has sent a prefix of the planned requests. Its counters are balanced, with one success or failure per request sent and `success` equal to the deliveries |
| Aborts.FinalReportFailureKeepsTheRun | msu.py:519-534 | when only the final report raises, the run behind it is the completed run |
| Aborts.AbortedLogIgnoresTransport | msu.py:352-534 | whether a run aborts, and which requests it sent before, do not depend on the network |
| Scenarios.SimpleNameExtension | msu.py:394 | a name `stem.ext` has extension `.ext` |
| Scenarios.SimpleNameKind | msu.py:394-396 | a simple lower-case name `stem.ext` is an image exactly when `.ext` is an image extension |
| Scenarios.TwoFolderPlan | msu.py:379-399 | a walk of an image at the top and an image plus a document in a sub-folder gives two buckets, in that shape |
| Scenarios.MixedTreePlan | msu.py:379-399 | the scan of a concrete three-file tree gives the expected two buckets |
| Scenarios.MixedPlanCounts | msu.py:401 | that tree has three files, one too large, and two requests in album mode |
| Scenarios.MixedTreeReport | msu.py:324-528 | with the default settings and a reliable network, `/upload photos` on that tree ends with 3 total, 2 success, 0 failed, 1 skipped |

## Left out

- The Telegram API is a parameter. This leaves out HTTP, `parse_mode`, the HTML wrapping of captions, read and write timeouts, and the file handles opened and closed around each call.
- The forum flag read from `get_chat`, `get_chat_member` and the permission check are not modelled one by one. Together with `create_forum_topic` and the header `send_message`, they are reduced to one `TopicOutcome` per topic name. Any exception inside the topic block (lines 430-468) is `NotCreated` or `CreatedHeaderFailed`. An exception from `get_chat` itself (line 363) is outside that block: it is status call 0.
- `os.walk`, `os.path.isfile`, `os.path.getsize`, `os.access`, `os.path.isdir` and `os.path.abspath` are inputs. An exception from `getsize` or `open` inside the upload loops is not modelled.
- The text of the status messages, `log_message`, the log file and the other command handlers of the bot are left out. Whether a status call raises is an input; its text is not. The final report's text is represented by the counters it shows.
- The floating-point pacing sleeps after each sent file or group (lines 581-582, 647, 722, 775-776) are left out. The retry sleeps and the one-second pauses after each phase (lines 491, 516) are recorded.
- Lower-casing of extensions covers ASCII letters only.
- The `os.path.exists` check (lines 336-338) can never fire after the `isdir` check, so it has no branch in the model.
- The outer exception handler (lines 532-534) is modelled for exceptions from the status-message calls only, as the `Aborted` outcome. Its error reply is not modelled, nor an exception that reply might raise.
- `RetryAfter` uses up one of the three attempts, as the loop over `range(MAX_RETRIES)` does. When every attempt is rate-limited, line 100 raises `None`. Python turns that into a `TypeError`, and the callers count it as a failure. The model calls this outcome `RaisedNone`.
- The final report prints `success` over `total_files` (line 525). In album or document-group mode `success` counts groups, not files. The model keeps both numbers as the source computes them and does not reconcile them.
- Cancelling a running upload is not modelled: the code has no way to do it.
- Retry.RetryWithBackoff: its own contract gives only the bounds on invocations and sleeps. The full account of the attempts is `Retry.RetryMeetsSpec`.
- Classifier.EnsureBucket: its own contract says only that the bucket exists afterwards. That it keeps the other buckets and their contents is `Classifier.EnsureBucketKeepsInv`.
- Delivery.Delivered: its own contract is only the bound. What the count means for a run is `Runs.CompletedTallies`.
