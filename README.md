# Task tracker comments and attendance, modelled in Dafny

The task tracker is a multi-tenant web application. Each tenant is a company, identified by a subdomain. Workers send comments to the administrators, and each comment carries a thread of replies. Administrators read every worker's comments as chats. They answer them, mark them read, soft-delete workers from the chat list and search it. The application also shows each worker's attendance as a day-by-day report of IN and OUT punches.

This project models four parts of that system.

- `comment_controller.dfy` (module `CommentController`): the backend comment handlers.
  - A `CommentStore` class holds the comment documents.
  - Its functions are the read-only queries.
  - Its methods are the handlers that create comments, append replies and clear the unread flags.
  - Errors are a `Result` carrying a 400, 404 or 500 outcome.
  - A store invariant, `Valid`, is kept by every handler. It requires ids to be unique and every comment to be well-formed: non-empty text, a tenant subdomain, replies in the parent's subdomain, and an unread admin reply always announced by `hasUnreadAdminReply`.
- `comment_management.dfy` (module `CommentManagement`): the administrator's chat screen. It covers:
  - unread counts against the per-chat last-read map;
  - building the chat list;
  - the merged message thread;
  - selection and soft deletion;
  - choosing the comment a reply goes to;
  - the filtered and searched chat list.
- `worker_comments.dfy` (module `WorkerComments`): the worker's chat screen. It covers:
  - flattening comments and replies into one sorted thread;
  - the unread admin badge;
  - the send guards;
  - the click that marks admin replies read.
- `worker_attendance.dfy` (module `WorkerAttendance`): the attendance report. It covers:
  - the worker filter;
  - grouping punches into one row per day, newest first;
  - the department fallback chain;
  - the inclusive date-range filter;
  - the guarded from/to handlers.

Shared definitions live in three more files.

- `domain.dfy` (`Domain`): the records and the error type.
- `seqs.dfy` (`Seqs`): `filter`, `filter(...).length` and stable sorting as the source uses them.
- `text.dfy` (`Text`): the JavaScript string operations the guards and the search rely on. These are `trim`, ASCII `toLowerCase`, `includes`, and the code-point order of `<`.

Interfaces to the outside world become parameters:
- the current time (`Date.now()`, `Date.now` in Mongo defaults) is `now`;
- the authenticated caller's id and role are parameters;
- `populate('worker')` is a lookup in a `directory` map;
- a failing `save()` is the flag `saveFails`;
- `localStorage` contents are plain maps and sequences passed in and returned.

Timestamps are integers (milliseconds). Comparisons of `new Date(...)` values in the source are integer comparisons here.

## Model

| member | source | states |
|---|---|---|
| CommentController.CommentStore.CreateComment | task-tracker-backend-main/controllers/commentController.js:75-116 | Empty text fails with 400 first, then a missing or "main" subdomain with 400, then a save failure with 500; each of these failures leaves the store unchanged. Success appends exactly one comment by the caller with the given text and subdomain, unread, with no replies and a fresh id, and returns it populated |
| CommentController.CommentStore.AddReply | task-tracker-backend-main/controllers/commentController.js:121-168 | Empty text fails with 400 before any lookup, an unknown id with 404, and both leave the store unchanged. It succeeds iff the text is non-empty and the id is found; then only that comment changes, to `WithReply` of itself, and the populated comment is returned |
| CommentController.WithReply | task-tracker-backend-main/controllers/commentController.js:144-163 | Exactly one reply is appended at the end and the existing replies are kept. The new reply is new, is an admin reply iff the role is "admin", and carries the parent's subdomain. The comment becomes new. An admin reply sets the unread flag and `lastReplyTimestamp = now`; any other role leaves both as they were |
| CommentController.CommentStore.MarkCommentAsRead | task-tracker-backend-main/controllers/commentController.js:173-192 | 404 and no change for an unknown id; otherwise only that comment changes, to `MarkedRead` of itself |
| CommentController.MarkedRead | task-tracker-backend-main/controllers/commentController.js:181-187 | The comment and every reply become read; reply count, text, authorship and every other field are unchanged |
| CommentController.MarkedReadIdempotent | task-tracker-backend-main/controllers/commentController.js:181-187 | Marking a comment read twice equals marking it once |
| CommentController.CommentStore.MarkCommentAdminRepliesAsRead | task-tracker-backend-main/controllers/commentController.js:234-255 | 404 and no change for an unknown id; otherwise only that comment changes, to `AdminRepliesRead` of itself |
| CommentController.AdminRepliesRead | task-tracker-backend-main/controllers/commentController.js:242-251 | Admin replies become read, worker replies stay exactly as they were, the unread flag is cleared, nothing else changes |
| CommentController.AdminRepliesReadIdempotent | task-tracker-backend-main/controllers/commentController.js:242-251 | Reading the admin replies twice equals reading them once |
| CommentController.AdminRepliesReadClearsUnread | task-tracker-backend-main/controllers/commentController.js:242-251 | After either read-marking operation no admin reply of the comment is unread |
| CommentController.CommentStore.MarkAdminRepliesAsRead | task-tracker-backend-main/controllers/commentController.js:209-229 | Exactly the caller's comments whose flag was set get their admin replies read and the flag cleared; every other comment is unchanged. Afterwards no comment of the caller has the flag or an unread admin reply |
| CommentController.HandlersPreserveWellFormed | task-tracker-backend-main/controllers/commentController.js:121-255 | A reply with non-empty text, and each read-marking update, keep a comment well-formed, including "an unread admin reply implies the flag" |
| CommentController.MarkedReadLeavesFlag | task-tracker-backend-main/controllers/commentController.js:181-187 | A concrete comment shows that `markCommentAsRead` reads every reply but leaves `hasUnreadAdminReply` set |
| CommentController.CommentStore.WorkerComments | task-tracker-backend-main/controllers/commentController.js:8-13 | A permutation of the comments whose worker is the given id, each as often as in the store, newest first |
| CommentController.CommentStore.MyComments | task-tracker-backend-main/controllers/commentController.js:18-35 | A permutation of the caller's comments, each as often as in the store, newest first, each with the caller's populated worker, or none when the worker no longer exists |
| CommentController.CommentStore.AllComments | task-tracker-backend-main/controllers/commentController.js:40-73 | Fails with 400 iff the subdomain is missing or "main". Otherwise it returns a permutation of that tenant's comments, each as often as in the store, newest first. An unresolved worker becomes the "Unknown Worker"/"Unassigned" placeholder, and a resolved one is returned as looked up |
| CommentController.CommentStore.UnreadAdminReplies | task-tracker-backend-main/controllers/commentController.js:197-204 | The caller's comments whose `hasUnreadAdminReply` is set, each as often as in the store and in store order |
| CommentController.SortNewestFirst | task-tracker-backend-main/controllers/commentController.js:10 | The result is a permutation of the input, ordered by `createdAt` descending |
| CommentController.IndexOf | task-tracker-backend-main/controllers/commentController.js:129-142 | `findById`: a position holding the id, or None exactly when no comment has it |
| CommentController.PopulateAll | task-tracker-backend-main/controllers/commentController.js:59-70 | The documents are kept in order; each worker is the looked-up worker, or the placeholder when the lookup fails and the fallback applies |
| CommentManagement.CalculateUnreadCounts | task-tracker-client-main/src/components/admin/CommentManagement.jsx:306-329 | One entry per chat id. A group counts 0. A worker chat counts the worker's comments and non-admin replies newer than its last-read time, where a missing time is 0. With repeated ids the last chat wins |
| CommentManagement.WorkerUnread | task-tracker-client-main/src/components/admin/CommentManagement.jsx:313-324 | The nested loops compute exactly `UnreadIn` of the worker's comments |
| CommentManagement.UnreadInAntitone | task-tracker-client-main/src/components/admin/CommentManagement.jsx:314-325 | A later last-read time never counts more |
| CommentManagement.UnreadInNone | task-tracker-client-main/src/components/admin/CommentManagement.jsx:314-325 | Nothing counts when every comment and reply is at or before the last-read time |
| CommentManagement.MarkChatAsRead | task-tracker-client-main/src/components/admin/CommentManagement.jsx:335-341 | Only that chat's entries change: last-read becomes `now`, count becomes 0; every other entry and field is kept |
| CommentManagement.MarkChatAsReadClears | task-tracker-client-main/src/components/admin/CommentManagement.jsx:335-341 | Marking a worker chat read at a time no earlier than its messages makes its unread count 0 |
| CommentManagement.ReadAll | task-tracker-client-main/src/components/admin/CommentManagement.jsx:431-446 | Every non-group chat's last-read time becomes `now`; groups and ids not in the list keep theirs |
| CommentManagement.LoadData | task-tracker-client-main/src/components/admin/CommentManagement.jsx:357-391 | Comments without a worker or of a soft-deleted worker are dropped. The chat list is the saved groups, then one non-group chat per distinct commenting worker in first-appearance order. Among the worker entries after the saved groups no id repeats, none is named "Unknown Worker", and none is a deleted id; the saved groups come back exactly as saved |
| CommentManagement.CollectWorkers | task-tracker-client-main/src/components/admin/CommentManagement.jsx:375-382 | The loop filling the worker map computes `CommentingWorkers` |
| CommentManagement.CommentingWorkersFacts | task-tracker-client-main/src/components/admin/CommentManagement.jsx:375-382 | The commenting workers have distinct ids and none is named "Unknown Worker". Each one comes from a comment, and every eligible comment's worker id is among them |
| CommentManagement.ChatMessages | task-tracker-client-main/src/components/admin/CommentManagement.jsx:397-423 | With no selection or a group selected, the list is empty. Otherwise it holds each of the worker's comments (as worker messages) and each of their replies exactly once, as a permutation of the pushed thread. There is one worker message per comment, and the list is sorted by `createdAt` ascending |
| CommentManagement.ThreadMessagesCounts | task-tracker-client-main/src/components/admin/CommentManagement.jsx:401-417 | The pushed thread has one message per comment and reply, and its worker messages are exactly the comments |
| CommentManagement.DeleteSelected | task-tracker-client-main/src/components/admin/CommentManagement.jsx:448-474 | An empty selection changes nothing. Otherwise the deleted list gains the selection, and the chat list, worker list and comments lose the selected ids: each keeps, in its order and with its multiplicities, exactly the entries of unselected ids, and the comments also drop those without a worker. The selection is cleared and selection mode ends. A deleted selected chat is deselected and any other selection is kept |
| CommentManagement.DeletedStayDeleted | task-tracker-client-main/src/components/admin/CommentManagement.jsx:357-391 | After a deletion, reloading with the updated deleted list lists none of the deleted workers |
| CommentManagement.ToggleWorker | task-tracker-client-main/src/components/admin/CommentManagement.jsx:476-482 | An absent id is appended at the end; a present one is removed, the rest kept in order with their multiplicities; a selection without duplicates stays without duplicates |
| CommentManagement.ToggleTwice | task-tracker-client-main/src/components/admin/CommentManagement.jsx:476-482 | Toggling the same id twice gives back the same set of ids, and exactly the original sequence when the id was not selected |
| CommentManagement.ToggleSelectionMode | task-tracker-client-main/src/components/admin/CommentManagement.jsx:484-490 | Selection mode flips, entering it clears the selection, and nothing else changes |
| CommentManagement.ChatSelect | task-tracker-client-main/src/components/admin/CommentManagement.jsx:343-355 | Ignored in selection mode; a soft-deleted chat deselects. Otherwise the chat is selected, and it is marked read only when it is a worker chat with a positive count |
| CommentManagement.SubmitReply | task-tracker-client-main/src/components/admin/CommentManagement.jsx:496-515 | Nothing is sent iff the text is blank, no chat is selected, or a group is. The missing-thread error arises iff the worker has no comment. Otherwise the untrimmed text goes to the first comment whose worker is the selected chat |
| CommentManagement.FirstCommentOf | task-tracker-client-main/src/components/admin/CommentManagement.jsx:500 | `find`: the first position whose worker is the id, or None exactly when there is none |
| CommentManagement.FilteredChatList | task-tracker-client-main/src/components/admin/CommentManagement.jsx:517-524 | A chat is in the result iff it is in the chat list, the filter keeps it (never a non-group "Unknown Worker"; under "Unread" only worker chats with a positive count; under "Groups" only groups) and its name contains the search term case-insensitively. Each kept chat appears as often as in the chat list. The result is no longer than the list and keeps its order (`FilteredChatListOrder`) |
| CommentManagement.FilteredChatListOrder | task-tracker-client-main/src/components/admin/CommentManagement.jsx:517-524 | The visible list is a subsequence of the chat list, so it keeps the list's order |
| CommentManagement.EmptySearchMatchesAll | task-tracker-client-main/src/components/admin/CommentManagement.jsx:522-523 | The empty search term matches every name |
| CommentManagement.EmptySearchKeepsFiltered | task-tracker-client-main/src/components/admin/CommentManagement.jsx:517-524 | With an empty search term the list holds exactly the chats the filter keeps |
| WorkerComments.FetchMessages | task-tracker-client-main/src/components/worker/Comments.jsx:40-79 | The thread is a permutation of the flattened comments and replies, sorted ascending by `createdAt`, of length comments plus replies. The badge equals the number of admin replies that are still new |
| WorkerComments.ReplyMessage | task-tracker-client-main/src/components/worker/Comments.jsx:56-66 | The sender is admin iff the reply is an admin reply; the bubble is new iff the reply is an admin reply and new; it carries the reply's text and time and the parent's id |
| WorkerComments.ReplyMessages | task-tracker-client-main/src/components/worker/Comments.jsx:56-66 | One bubble per reply, in reply order |
| WorkerComments.FlattenCounts | task-tracker-client-main/src/components/worker/Comments.jsx:44-73 | The flattened thread has one bubble per comment and reply; its unread admin bubbles are exactly the unread admin replies |
| WorkerComments.UnreadAdminRepliesZero | task-tracker-client-main/src/components/worker/Comments.jsx:72-73 | A comment adds nothing to the badge iff it has no admin reply that is still new |
| WorkerComments.NoBadgeIffAllRead | task-tracker-client-main/src/components/worker/Comments.jsx:72-73 | The badge is 0 iff no comment has an unread admin reply |
| WorkerComments.MarkAsReadLowersBadge | task-tracker-client-main/src/components/worker/Comments.jsx:100-107 | Reading one comment's admin replies lowers the badge by exactly that comment's unread admin replies |
| WorkerComments.ClickTarget | task-tracker-client-main/src/components/worker/Comments.jsx:203-205 | A click marks read iff the bubble is from the admin and new, and then it names the bubble's comment |
| WorkerComments.ClickTargetHasUnread | task-tracker-client-main/src/components/worker/Comments.jsx:203-205 | The comment a click names is in the thread and has an unread admin reply |
| WorkerComments.SendMessage | task-tracker-client-main/src/components/worker/Comments.jsx:81-98 | Nothing is sent iff the text is blank after trimming. A missing or "main" subdomain is rejected iff the text is not blank. Otherwise the trimmed, non-empty text is sent with a valid subdomain, so it passes both checks of `createComment` |
| WorkerComments.SendDisabled | task-tracker-client-main/src/components/worker/Comments.jsx:250 | The button is enabled iff the trimmed text is non-empty and no send is in flight |
| WorkerComments.EnabledSendIsNotIgnored | task-tracker-client-main/src/components/worker/Comments.jsx:81-90 | An enabled button never submits a blank message |
| WorkerAttendance.ProcessAttendanceData | task-tracker-client-main/src/components/admin/WorkerAttendance.jsx:32-60 | One row per distinct day key and no day twice. Each row has the header of the day's first punch and the day's IN and OUT times in input order, and in plus out equals the punches of that day. In the model's order, rows with ISO dates come newest first (later days first in string order) and every other row after them; this is the source's order when every day key is a real ISO date |
| WorkerAttendance.GroupByDate | task-tracker-client-main/src/components/admin/WorkerAttendance.jsx:35-54 | The keys are the day keys in first-appearance order, and every grouped row is the row owed to its day |
| WorkerAttendance.InPlusOut | task-tracker-client-main/src/components/admin/WorkerAttendance.jsx:50-54 | A day's IN and OUT times together number the punches with that day key |
| WorkerAttendance.KeysFacts | task-tracker-client-main/src/components/admin/WorkerAttendance.jsx:35-48 | The day keys have no duplicates and are exactly the keys of the punches |
| WorkerAttendance.BeforeT | task-tracker-client-main/src/components/admin/WorkerAttendance.jsx:36 | `split('T')[0]`: the longest prefix without a 'T' |
| WorkerAttendance.OrUnknown | task-tracker-client-main/src/components/admin/WorkerAttendance.jsx:40-41 | An empty value becomes "Unknown"; a present one is kept |
| WorkerAttendance.DepartmentName | task-tracker-client-main/src/components/admin/WorkerAttendance.jsx:63-69 | The result is non-empty and is either "Unknown" or one of the four candidates |
| WorkerAttendance.DepartmentNameFirstPresent | task-tracker-client-main/src/components/admin/WorkerAttendance.jsx:63-69 | The first present candidate is chosen, in the order worker department, record department, worker department name, record department name; "Unknown" when none is present |
| WorkerAttendance.DigitsOrder | task-tracker-client-main/src/components/admin/WorkerAttendance.jsx:57-59 | For digit strings of the same shape, the numeric order of the dates agrees with their string order |
| WorkerAttendance.NewestFirstIso | task-tracker-client-main/src/components/admin/WorkerAttendance.jsx:57-59 | In the model's order, sorted rows with ISO dates come newest first in string order; the source's order when every day key is a real ISO date |
| WorkerAttendance.UndatedLast | task-tracker-client-main/src/components/admin/WorkerAttendance.jsx:57-59 | In the model's order, no undated row sorts before a dated one; the source leaves this order implementation-defined |
| WorkerAttendance.WorkerRecords | task-tracker-client-main/src/components/admin/WorkerAttendance.jsx:102-104 | Exactly the punches of the route's worker, with their multiplicities; nothing when the response has no array |
| WorkerAttendance.WorkerRecordsConcat | task-tracker-client-main/src/components/admin/WorkerAttendance.jsx:102-104 | The selection keeps input order: it distributes over concatenation |
| WorkerAttendance.InRange | task-tracker-client-main/src/components/admin/WorkerAttendance.jsx:420-426 | Inclusive at both ends, and an empty bound is no bound |
| WorkerAttendance.InRangeInclusive | task-tracker-client-main/src/components/admin/WorkerAttendance.jsx:420-426 | With `from <= to`, both bounds themselves are kept |
| WorkerAttendance.RowsInRange | task-tracker-client-main/src/components/admin/WorkerAttendance.jsx:420-426 | Exactly the rows in range; with both bounds empty, every row in its original order |
| WorkerAttendance.FromChange | task-tracker-client-main/src/components/admin/WorkerAttendance.jsx:179-186 | The end is kept. The start becomes the new value unless the end is set and precedes it, in which case the state is unchanged |
| WorkerAttendance.ToChange | task-tracker-client-main/src/components/admin/WorkerAttendance.jsx:188-195 | The start is kept. The end becomes the new value unless the start is set and follows it, in which case the state is unchanged |
| WorkerAttendance.Reset | task-tracker-client-main/src/components/admin/WorkerAttendance.jsx:172-177 | Both bounds are cleared |
| WorkerAttendance.HandlersKeepOrdered | task-tracker-client-main/src/components/admin/WorkerAttendance.jsx:172-195 | From a state with `from <= to` whenever both are set, every handler yields such a state |
| WorkerAttendance.ResetShowsAll | task-tracker-client-main/src/components/admin/WorkerAttendance.jsx:172-177 | After a reset the table shows every row |
| Text.Trim | task-tracker-client-main/src/components/worker/Comments.jsx:83 | The text is the trimmed text with an all-whitespace prefix and suffix around it; the trimmed text neither starts nor ends with whitespace, and is empty iff the text is all whitespace |
| Text.LeTotalOrder | task-tracker-client-main/src/components/admin/WorkerAttendance.jsx:420-426 | String `<=` is reflexive, transitive and total |
| Seqs.SortBy | task-tracker-client-main/src/components/worker/Comments.jsx:69-70 | `sort`: a permutation of the input, sorted ascending by the key |
| Seqs.Filter | task-tracker-client-main/src/components/admin/CommentManagement.jsx:517-524 | `filter`: every kept element passes, and each one passing keeps its multiplicity |
| Seqs.FilterSubsequence | task-tracker-client-main/src/components/admin/CommentManagement.jsx:517-524 | A filtered sequence is a subsequence of its input |

## Left out

- HTTP and persistence plumbing is not modelled: Express request and response objects, authentication middleware, Mongoose queries and `save()` persistence. A failed save appears only in `createComment`, as the `saveFails` parameter; in the other handlers a database failure (the 500 branches) is not modelled.
- `populate('worker')` is modelled as a lookup in a directory map. Mongo's `updateMany` with `arrayFilters` is the per-comment loop of `MarkAdminRepliesAsRead`.
- `task-tracker-client-main/src/services/commentService.js` is not part of this model: it holds thin HTTP wrappers.
- `task-tracker-backend-main/routes/commentRoutes.js` is not part of this model: it is route wiring.
- React rendering and effects are not modelled, nor toasts, scrolling, the 30-second polling interval, `Promise.all` concurrency, or React's batching of state updates.
- `localStorage` reads and writes are not modelled. Its contents (deleted ids, groups, last-read times) are passed in and returned as maps and sequences.
- `date-fns` formatting is not modelled. This covers the Today/Yesterday day labels of the worker screen, which depend on the wall clock.
- PDF export, `calculateWorkerProductivity`, the settings fetch and the attendance screen's loading and error state are not modelled.
- `handleBatchChange`, `handleNewChatClick` and the group-creation modal of the admin screen are not modelled. They are UI flows outside the chat-list logic.
- The attendance effect at WorkerAttendance.jsx:127-141 computes a filtered list that nothing reads. The table applies the same predicate at 420-426, which `InRange` models.
- `isNew` is modelled as the plain field the handlers write. Whether Mongoose persists a field of that name cannot be judged from these files.
- `markCommentAsRead` leaves `hasUnreadAdminReply` set even though it reads every reply (`MarkedReadLeavesFlag`). The flag does not drive any screen modelled here, so this is recorded as behaviour rather than corrected.
- Timestamps are integers. Parsing the date strings (`new Date(...)`) and the `NaN` that an unparsable date produces in a comparator are not modelled.
- `ProcessAttendanceData`: a day counts as dated when it has the shape `YYYY-MM-DD` (digits, with '-' at the fifth and eighth places); dated rows sort newest first by that number and every other row sorts after them. This is the model's order; it equals the source's `new Date(...)` order when every day key is a real `YYYY-MM-DD` date, and differs from it in three ways. First, once any day key is one `new Date` cannot parse, including the "Unknown" key that a record without a date gets (WorkerAttendance.jsx:36), the comparator returns `NaN` for every pair with that row, `sort` treats it as 0, the comparator is inconsistent, and the resulting order is implementation-defined: the source then promises neither that undated rows come last nor that the dated rows come newest first. Second, a day in another form that `new Date` parses, such as "2024/05/01" or "2024-05-01 10:00", is sorted by time in the source but placed after the dated rows here. Third, a day of the right shape that is not a real date, such as "2024-13-01", is sorted as dated here, while `new Date` gives `NaN` for it.
- `ProcessAttendanceData`: the order of equal keys follows insertion order. `Object.values` would first list integer-like keys in ascending numeric order, but a day key containing '-' is never integer-like; bare numeric keys are not modelled.
- `Text.ToLower` folds only ASCII letters, not the full Unicode case mapping of `toLowerCase`.
- `CalculateUnreadCounts`: for a chat id that appears twice in the list, the contract names only the last chat's count. The map holds that entry, and earlier duplicates are overwritten.
- `DepartmentName`: its own contract says only that the result is non-empty and one of the candidates or "Unknown". The first-present order is stated by `DepartmentNameFirstPresent`.
- `CreateComment`: the single `saveFails` flag stands for a failure before the comment is stored. The source also answers 500 when `populate('worker')` fails after `Comment.create` has stored the comment (commentController.js:91-106); that path, a failure that leaves the new comment saved, is not modelled.
- `Seqs.SortBy`: stability (equal keys keep their input order, as `Array.prototype.sort` guarantees) holds by construction, since each element is inserted before the first element of greater or equal key, but no lemma states it; the contract says only sorted and a permutation.
- Ids are natural numbers instead of Mongo ObjectIds; `CreateComment` draws them from a counter.
