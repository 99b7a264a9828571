# sentio focus timer — queue editor, session history and intent records in Dafny

sentio is a desktop focus timer (a Tauri backend in Rust with a React front end). The user
works in *sessions* of a chosen length, groups sessions into *queues* and attaches them to
*intents*, the goals they focus on. This project models the logic at the core of that:

- **Queue editor** (`queue_view.dfy`, `create_session_view.dfy`): starting a queue (the request
  that sets the active queue with a cursor on the first cycle of the first session), appending
  a session built by the two-slider form, removing a session by id, reordering by drag and drop
  (the `array-move` package's immutable move), and deleting the queue with a two-click
  confirmation. The form is a class whose duration and cycle cells stay within the slider ranges
  (1–90 minutes, 1–16 cycles); the view's flags are a class too.
- **Session history** (`sessions_view.dfy`, `focus_sessions.dfy`): the `days` memo that walks an
  intent's sessions once, grouping them into days in an insertion-ordered map, and filters the
  days with a `YYYY-MM-DD` pattern that allows `*` wildcards (JavaScript `split` semantics,
  truthiness of the pieces); and the page shown, `days.slice(skip, limit)`.
- **Intent records** (`intent.dfy`): reading an intent out of a database object field by field,
  the first failure being the error; the objects written on create and update; listing; and the
  result branch of archive and unarchive.
- **Intent details** (`details_modal.dfy`): session count, total and average duration (0 when
  there are none), the archive/unarchive choice, and the two-click delete.
- **Sidebar** (`sidebar.dfy`): the list of intents that are not archived, the "no intents"
  message only for an empty store, and the three content tabs.

`wrappers.dfy` holds `Option` and `Result`, `seqs.dfy` an order-preserving `Filter` with its
lemmas, `queue_sessions.dfy` the queue records shared by the views.

Requests sent to the backend (`update_queue`, `set_active_queue`, `delete_queue`, archive,
delete) are modelled as values a handler returns (`Command`, `ModalCommand`), not as effects.
Time stamps and generated ids are parameters (`now`, `id`), and so is the UTC calendar date of
a session's `finished_at` (`dayOf`), which the code takes from `toISOString()`.

The code does not refuse an empty queue when starting it (the cursor is then out of bounds,
which `StartQueueCursor` states); appending does not check for a duplicate id; removing an
unknown id changes nothing; and the sliders clamp, so no duration or cycle error exists.

## Model

| member | source | states |
|---|---|---|
| QueueView.StartQueue | src/windows/queues/QueueView.tsx:34-42 | The play button sends `set_active_queue` with the queue's id, name and sessions and a cursor at iteration 1, session 0, cycle 1; `StartQueueCursor` says when that cursor is in bounds. |
| QueueView.StartQueueCursor | src/windows/queues/QueueView.tsx:34-42 | Starting sends the queue's id, name and sessions unchanged with iterations 1, session index 0 and cycle 1; that cursor is in bounds exactly when the queue has at least one session. |
| QueueView.AppendSession | src/windows/queues/QueueView.tsx:47-50 | The updated queue keeps its id and name, has one more session, keeps the old sessions as a prefix and ends with the new one. |
| QueueView.SaveSession | src/windows/queues/QueueView.tsx:47-54 | Saving sends `update_queue` for this queue's id with its id and name kept and the session appended; `AppendThenRemove` is its inverse. |
| QueueView.RemoveSessionById | src/windows/queues/QueueView.tsx:63-66 | The updated queue keeps its id and name; a session survives iff its id differs from the removed id, and each survivor occurs as often as before. |
| QueueView.RemoveSession | src/windows/queues/QueueView.tsx:63-70 | A session's delete icon sends `update_queue` for this queue's id keeping exactly the sessions with another id; `RemoveSessionById` and its lemmas carry the rest. |
| QueueView.RemoveUnknownId | src/windows/queues/QueueView.tsx:63-66 | Removing an id that no session carries leaves the queue unchanged. |
| QueueView.RemoveSessionKeepsOrder | src/windows/queues/QueueView.tsx:63-66 | Removal keeps the survivors in their original relative order. |
| QueueView.RemoveSessionIdempotent | src/windows/queues/QueueView.tsx:63-66 | Removing the same id twice equals removing it once. |
| QueueView.AppendThenRemove | src/windows/queues/QueueView.tsx:47-66 | Appending a session with a fresh id and then removing that id gives back the original queue. |
| QueueView.ArrayMove | src/windows/queues/QueueView.tsx:85-89 | A move keeps length and multiset; an out-of-range source gives the sessions unchanged; the moved session lands on the destination (appended when it is past the end) and the others keep their order. |
| QueueView.RemoveThenInsert | src/windows/queues/QueueView.tsx:85-89 | Putting a removed element back at its index restores the sequence. |
| QueueView.ArrayMoveInverse | src/windows/queues/QueueView.tsx:85-89 | Dragging back from the destination to the source restores the original order. |
| QueueView.ArrayMoveShift | src/windows/queues/QueueView.tsx:85-89 | Sessions outside the moved range stay put and those inside shift by one towards the source. |
| QueueView.DragEnd | src/windows/queues/QueueView.tsx:79-97 | A drop outside the list issues no request; any other drop issues exactly one update of this queue with its sessions moved. |
| QueueView.EditsKeepQueueIdentity | src/windows/queues/QueueView.tsx:47-97 | Every session edit (add, remove, reorder) is addressed to the queue's own id and changes only its sessions; a reorder keeps the count. |
| QueueView.QueueViewState.constructor | src/windows/queues/QueueView.tsx:28-29 | The form starts closed and delete starts disarmed. |
| QueueView.QueueViewState.ClickDelete | src/windows/queues/QueueView.tsx:107-115 | A click while armed deletes the queue by id; otherwise it only arms the confirmation. |
| QueueView.QueueViewState.ConfirmDeleteExpired | src/windows/queues/QueueView.tsx:72-77 | When the confirmation timer fires, delete is disarmed and the form flag is untouched. |
| QueueView.QueueViewState.ShowCreateSession | src/windows/queues/QueueView.tsx:119-126 | "Add a session" opens the form. |
| QueueView.QueueViewState.HideCreateSession | src/windows/queues/QueueView.tsx:128-129 | The form's cancel closes it and issues nothing. |
| QueueView.QueueViewState.SaveFromForm | src/windows/queues/QueueView.tsx:128-133 | The form's save issues the append request and closes the form. |
| QueueView.DeleteTakesTwoClicks | src/windows/queues/QueueView.tsx:107-115 | From a fresh view the first click issues nothing and the second deletes the queue. |
| QueueView.ExpiredConfirmationDoesNotDelete | src/windows/queues/QueueView.tsx:72-77 | If the confirmation expires between two clicks, neither click deletes. |
| CreateSessionView.SliderValue | src/windows/queues/CreateSessionView.tsx:47-50 | A slider reports a value within its bounds: the requested one when in range, else the nearer bound. |
| CreateSessionView.SessionForm.constructor | src/windows/queues/CreateSessionView.tsx:16-18 | The form starts at 25 minutes, 1 cycle and no project, which is within range. |
| CreateSessionView.SessionForm.SetDuration | src/windows/queues/CreateSessionView.tsx:47-50 | The duration becomes the slider's value in 1..90; the other cells stay. |
| CreateSessionView.SessionForm.SetCycles | src/windows/queues/CreateSessionView.tsx:121-124 | The cycle count becomes the slider's value in 1..16; the other cells stay. |
| CreateSessionView.SessionForm.SetProject | src/windows/queues/CreateSessionView.tsx:58-61 | The project becomes the selection, or none when cleared; the other cells stay. |
| CreateSessionView.SessionForm.Save | src/windows/queues/CreateSessionView.tsx:133-138 | The saved session carries the new id and the form's current values, and is always within the slider ranges. |
| CreateSessionView.FillAndSave | src/windows/queues/CreateSessionView.tsx:47-137 | Whatever the sliders are dragged to, the saved session is in range and holds the clamped values and the chosen project. |
| CreateSessionView.SaveUntouched | src/windows/queues/CreateSessionView.tsx:16-18 | Saving an untouched form gives a 25-minute, one-cycle session with no project. |
| FocusSessions.TotalDuration | src/windows/intents/intentView/DetailsModal.tsx:28 | The reduce total of durations is non-negative when every duration is; `TotalDurationConcat` and `TotalDurationBounds` carry the rest. |
| FocusSessions.TotalDurationConcat | src/windows/intents/intentView/DetailsModal.tsx:28 | The summed duration of two runs of sessions is the sum of their sums. |
| FocusSessions.TotalDurationBounds | src/windows/intents/intentView/DetailsModal.tsx:28 | When every duration lies in lo..hi, the total lies between lo and hi times the count. |
| SessionsView.Split | src/windows/intents/intentView/SessionsView.tsx:29-33 | JavaScript `split` on `-`: at least one piece, empty pieces kept; `SplitNoSep` (no separator gives one piece), `SplitJoin` (the text before the first separator is the first piece) and `SplitDate` (`y-m-d` gives `[y, m, d]`) characterise it. |
| SessionsView.HandleFilter | src/windows/intents/intentView/SessionsView.tsx:26-44 | The filter either keeps the day unchanged or drops it; an empty filter keeps every day. |
| SessionsView.MalformedFilterRejects | src/windows/intents/intentView/SessionsView.tsx:29-31 | A non-empty filter with fewer than three pieces, or an empty one among them, rejects every day. |
| SessionsView.ExtraPiecesIgnored | src/windows/intents/intentView/SessionsView.tsx:29 | Pieces after the third do not affect filtering. |
| SessionsView.FilterOnDate | src/windows/intents/intentView/SessionsView.tsx:33-43 | On a date y-m-d, a filter fy-fm-fd accepts iff each component is `*` or equal. |
| SessionsView.WildcardAcceptsAll | src/windows/intents/intentView/SessionsView.tsx:35-43 | `*-*-*` accepts every day. |
| SessionsView.FilterDays | src/windows/intents/intentView/SessionsView.tsx:67 | A day is shown iff it is among the grouped days and the filter accepts it. |
| SessionsView.EmptyFilterKeepsAll | src/windows/intents/intentView/SessionsView.tsx:27 | With an empty filter every day is shown. |
| SessionsView.FilterDaysKeepsOrder | src/windows/intents/intentView/SessionsView.tsx:67 | Filtering keeps the days' order. |
| SessionsView.Slice | src/windows/intents/intentView/SessionsView.tsx:110 | `Array.prototype.slice`: the length is the gap between the resolved start and end (or 0), and element k is the element at start + k; `PageIsEndIndexed`, `PageBounds` and `InitialPage` apply it to the page. |
| SessionsView.PageIsEndIndexed | src/windows/intents/intentView/SessionsView.tsx:110 | `limit` is an end index: the page holds days skip..limit-1. |
| SessionsView.PageBounds | src/windows/intents/intentView/SessionsView.tsx:110 | The page is cut at the end of the list and empty when limit is not past skip. |
| SessionsView.InitialPage | src/windows/intents/intentView/SessionsView.tsx:21-22 | Initially the first 25 days are shown, or all when there are fewer. |
| SessionsView.DatesExact | src/windows/intents/intentView/SessionsView.tsx:49-65 | The day keys are distinct, every session's day is among them, and no day is empty. |
| SessionsView.DatesGrowByAppending | src/windows/intents/intentView/SessionsView.tsx:47-67 | Days are listed in order of their first session. |
| SessionsView.GroupingCountsEverySession | src/windows/intents/intentView/SessionsView.tsx:49-65 | Every session lands in exactly one day: the days hold as many sessions as the input. |
| SessionsView.GroupContents | src/windows/intents/intentView/SessionsView.tsx:54-63 | Each day holds exactly its sessions in input order, and its duration is their total over 60. |
| SessionsView.DayOfSnocSame | src/windows/intents/intentView/SessionsView.tsx:55-57 | A session of a known day is pushed onto that day and its minutes added. |
| SessionsView.DayOfSnocOther | src/windows/intents/intentView/SessionsView.tsx:54-63 | A session leaves the other days unchanged. |
| SessionsView.Days | src/windows/intents/intentView/SessionsView.tsx:46-68 | The loop over an insertion-ordered map computes exactly the filtered day grouping. |
| IntentModel.AsStrings | src-tauri/src/model/intent.rs:38-42 | The tags convert iff every element is a string, element by element; otherwise the error is a not-a-String error. |
| IntentModel.IntentFromObject | src-tauri/src/model/intent.rs:31-48 | The fields are taken in order, so a missing `id` is the error reported; `ReadSucceedsIff` gives the full characterisation and `ReadStoredIntent` the round trip. |
| IntentModel.ReadErrorKinds | src-tauri/src/model/intent.rs:31-48 | A failed read reports a missing property or a value of the wrong kind, never a store error. |
| IntentModel.ReadSucceedsIff | src-tauri/src/model/intent.rs:31-48 | Reading succeeds exactly on objects with the five required fields of the right kinds and an absent or string `archived_at`; each field is then the converted value, and a present `archived_at` reads as `Some` of its converted value. |
| IntentModel.MissingFieldFails | src-tauri/src/model/intent.rs:34-43 | A missing required field fails the read; a missing id is reported by name. |
| IntentModel.NonStringTagFails | src-tauri/src/model/intent.rs:38-42 | One non-string tag fails the whole read. |
| IntentModel.ReadStoredIntent | src-tauri/src/model/intent.rs:20-48 | An intent stored as an object reads back as itself. |
| IntentModel.ListIntents | src-tauri/src/model/intent.rs:141-145 | Listing succeeds iff every object is an intent object, then gives each object's intent in order; otherwise the error is that of the first bad object. |
| IntentModel.ListStoredIntents | src-tauri/src/model/intent.rs:141-145 | Listing stored intents returns them in store order. |
| IntentModel.CreateValue | src-tauri/src/model/intent.rs:57-71 | The create object has exactly label, created_at, pinned and tags: the label, now, false and no tags. |
| IntentModel.CreatedIntentReads | src-tauri/src/model/intent.rs:57-71 | Once given an id, the created object reads as an unpinned, untagged, unarchived intent with that label and time. |
| IntentModel.UpdateFields | src-tauri/src/model/intent.rs:84-100 | The patch has a field iff it was provided, with the provided value, and no other keys; an empty update is an empty patch. |
| IntentModel.UpdateValue | src-tauri/src/model/intent.rs:84-100 | Inserting the provided fields one by one gives that patch, never touching id, created_at or archived_at. |
| IntentModel.MergedUpdateReads | src-tauri/src/model/intent.rs:122-127 | Merging the patch into a stored intent changes exactly the provided fields. |
| IntentModel.UpdatedIntent | src-tauri/src/model/intent.rs:164-172 | A first row that is an object is read as the intent; no row or a non-object fails with "can't update {id}, nothing returned.". |
| IntentModel.ArchiveSetsTime | src-tauri/src/model/intent.rs:147-173 | Archiving a stored intent returns it with its archive time set to now. |
| IntentModel.UnarchiveClearsTime | src-tauri/src/model/intent.rs:175-197 | Unarchiving returns the intent with no archive time. |
| DetailsModal.Summarize | src/windows/intents/intentView/DetailsModal.tsx:28-76 | Count is the number of sessions, total their summed duration, and the average times the count is the total; no sessions give 0. |
| DetailsModal.AverageWithinBounds | src/windows/intents/intentView/DetailsModal.tsx:74-76 | The average lies between the shortest and longest allowed durations. |
| DetailsModal.SummaryAfterOneMore | src/windows/intents/intentView/DetailsModal.tsx:28-65 | One more session adds one to the count and its duration to the total. |
| DetailsModal.OfferedAction | src/windows/intents/intentView/DetailsModal.tsx:83-99 | Unarchive is offered iff the intent shows an archive time (set and non-empty, as the "Archived at" line at 55-62), Archive otherwise. |
| DetailsModal.OfferedActionToggles | src/windows/intents/intentView/DetailsModal.tsx:83-99 | Doing the offered action flips whether the intent shows as archived. |
| DetailsModal.ArchiveButton | src/windows/intents/intentView/DetailsModal.tsx:83-99 | The button asks to unarchive an archived intent and to archive any other, by its id. |
| DetailsModal.DetailsModalState.constructor | src/windows/intents/intentView/DetailsModal.tsx:21 | The delete confirmation starts hidden. |
| DetailsModal.DetailsModalState.ClickDelete | src/windows/intents/intentView/DetailsModal.tsx:100-117 | The first click shows "Confirm"; a click on "Confirm" deletes the intent by id. |
| DetailsModal.DetailsModalState.ConfirmExpired | src/windows/intents/intentView/DetailsModal.tsx:30-41 | When the timeout fires the confirmation is hidden again. |
| DetailsModal.DeleteTakesTwoClicks | src/windows/intents/intentView/DetailsModal.tsx:100-117 | From a fresh dialog the first click issues nothing and the second deletes. |
| Sidebar.ListedIntents | src/windows/main/Sidebar.tsx:84-88 | An intent is listed iff it is in the store and not archived, as often as in the store. |
| Sidebar.ListedIntentsKeepOrder | src/windows/main/Sidebar.tsx:84-88 | The list keeps the store's order. |
| Sidebar.NothingArchivedListsAll | src/windows/main/Sidebar.tsx:84-88 | With nothing archived every intent is listed. |
| Sidebar.ContentFor | src/windows/main/Sidebar.tsx:80-102 | Each tab shows exactly its own view; the intents tab shows the message iff the store is empty and the list of unarchived intents otherwise. |
| Sidebar.OnlyArchivedShowsEmptyList | src/windows/main/Sidebar.tsx:82-98 | A store of archived intents only shows an empty list, not the message. |
| Sidebar.SidebarState.constructor | src/windows/main/Sidebar.tsx:22 | The intents tab is selected first. |
| Sidebar.SidebarState.SetTab | src/windows/main/Sidebar.tsx:104-137 | A navigation button selects its own tab. |
| Seqs.FilterCounts | src/windows/queues/QueueView.tsx:66 | `filter` keeps exactly the elements that pass, each as often as before. |
| Seqs.FilterConcat | src/windows/main/Sidebar.tsx:84-88 | `filter` distributes over concatenation, so it keeps order. |
| Seqs.FilterIdempotent | src/windows/queues/QueueView.tsx:66 | Filtering twice by the same test equals filtering once. |

## Left out

- The timer window and its hook (phases, ticking, advancing the active queue's cursor) are not part of this model.
- Backend calls, the global stores and their setters, `appWindow.close()` and opening windows are left out; handlers return the request they would send.
- Asynchronous `IntentBmc` methods, event emission and the database engine are left out; reads, the create/update objects, the merge of a patch and the archive updates are modelled on values.
- Clocks and generated ids are parameters, and so is the UTC date of `finished_at` (`dayOf`); a `finished_at` that does not parse to a valid time makes `toISOString` throw a RangeError and the `days` memo fail, which the total `dayOf` parameter does not capture.
- The confirmation timeouts (1600 ms and 3000 ms) are modelled as an explicit expiry step, not as time.
- Scrolling, drag rendering, collapse/expand toggles, tag selection and the active-intent switch are presentation and are left out.
- The `array-move` package, the slider and select widgets and the `x_take`/`x_take_val` helpers are not part of this model; the model assumes their usual behaviour (an out-of-range source leaves the array unchanged and a destination past the end appends; sliders report values clamped to their bounds; a missing key or a wrong kind is an error, strings and record ids convert to strings).
- QueueView.ArrayMove: negative indices from the drag library are not modelled (indices are natural numbers).
- SessionsView.GroupContents: day durations are exact rationals; floating-point rounding of `duration / 60` is left out.
- DetailsModal.Summarize: the average is exact; `toFixed(1)` rounding and time formatting are left out.
- IntentModel.UpdatedIntent: a panic when the database returns no statement result and errors from parsing the record id are left out.
