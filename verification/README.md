# Forum API core in Dafny

A model of the core of a forum discussion API. Users create threads, post
comments on threads, and soft-delete their own comments. The model covers
four parts:

- **Request value objects** (`AddThread`, `AddComment`, `DeleteComment`,
  `GetThreadDetails`). Each runs a two-phase check over a dynamic JavaScript
  payload. The first phase tests presence with JavaScript truthiness. The
  second tests that every field is a string. On success the fields are
  copied. Payload values are a small `JsValue` datatype with a `Truthy`
  predicate.
- **The error translator** (`DomainErrorTranslator`). A finite map from
  error codes to classified errors (InvariantError, NotFoundError,
  AuthorizationError plus a message). It is the identity on any other code.
- **The repositories** (`ThreadRepositoryPostgres`, `CommentRepositoryPostgres`)
  as operations on an abstract store. Users and threads are maps keyed by
  id. Comments are a sequence of rows in insertion order. Each query's
  `WHERE` clause becomes a predicate over rows. `is_delete` is a nullable SQL
  boolean, because `IS NOT TRUE` and `= FALSE` treat NULL differently. Dates
  are opaque integers.
- **The use cases** (add thread, add comment, delete comment, get thread
  details). Each is a function that returns a `Run`: the outcome (`Ok` value
  or thrown `Error`), the ordered trace of collaborator calls, and the store
  afterwards. `FailFast` states that a run makes the planned calls up to and
  including the first failing check, and none after it.

Values that come from outside the store on an insert are bundled in an
`Oracle` parameter. These are the id generator's next value, the current time
for the `date` column, and the column default of `is_delete`.

Where the code and its tests disagree, the model follows the code:

- `deleteCommentById` has no `is_delete` filter. Deleting a comment that is
  already deleted touches its row again and reports 1 again, not 0
  (`CommentRepository.DeleteAgainCountsRow`). At the use-case level, a second
  delete still fails earlier, at the availability check
  (`UseCases.SecondDeleteFails`).
- `getThreadById` throws a NotFoundError with code
  `GET_THREAD_DETAILS.DATA_NOT_FOUND`. The repository test expects an
  InvariantError and a `user_id` field. The code returns `username` and
  `date` instead.
- The HTTP tests expect a different comment order and a translator message
  that is not in the table. The model follows the use case and the table.

Files: `results.dfy` (Option/Result), `js_values.dfy`, `errors.dfy`,
`entities.dfy`, `store.dfy`, `user_repository.dfy`, `thread_repository.dfy`,
`comment_repository.dfy`, `use_cases.dfy`.

## Model

| member | source | states |
|---|---|---|
| Entities.NewAddThread | src/Domains/threads/entities/AddThread.js:2-20 | Fails with ADD_THREAD.NOT_CONTAIN_NEEDED_PROPERTY iff some of userId/title/body is falsy. Fails with ADD_THREAD.NOT_MEET_DATA_TYPE_SPECIFICATION iff all are truthy and some is not a string. Succeeds iff all three are non-empty strings, and then the fields equal the payload's values. |
| Entities.NewAddComment | src/Domains/comments/entities/AddComment.js:2-20 | The same two-phase contract over userId/threadId/content with the ADD_COMMENT codes. The presence error wins over the type error. Success copies the three strings unchanged. |
| Entities.NewDeleteComment | src/Domains/comments/entities/DeleteComment.js:2-20 | The same two-phase contract over commentId/userId/threadId with the DELETE_COMMENT codes. Success implies three non-empty strings equal to the payload's. |
| Entities.NewGetThreadDetails | src/Domains/threads/entities/_test/GetThreadDetails.test.js:4-35 | A single threadId: GET_THREAD_DETAILS.NOT_CONTAIN_NEEDED_PROPERTY iff it is falsy, the type code iff it is truthy but not a string, otherwise the id is copied. |
| Entities.RoundTrips | src/Domains/threads/entities/AddThread.js:5-9 | A request with non-empty fields, sent as a payload, validates back to itself. This holds for AddThread, AddComment and DeleteComment. |
| Entities.AddThreadIgnoresExtraKeys | src/Domains/threads/entities/AddThread.js:5-9 | Any payload keys other than userId, title and body, other requests' keys included, leave the thread request's outcome unchanged. |
| Entities.AddCommentIgnoresExtraKeys | src/Domains/comments/entities/AddComment.js:5-9 | Any payload keys other than userId, threadId and content leave the comment request's outcome unchanged. |
| Entities.DeleteCommentIgnoresExtraKeys | src/Domains/comments/entities/DeleteComment.js:5-9 | Any payload keys other than commentId, threadId and userId leave the delete request's outcome unchanged. |
| Entities.GetThreadDetailsIgnoresExtraKeys | src/Domains/threads/entities/_test/GetThreadDetails.test.js:4-35 | Any payload keys other than threadId leave the thread-details request's outcome unchanged. |
| Entities.PresenceBeforeType | src/Domains/threads/entities/AddThread.js:13-19 | Any payload whose userId is falsy and whose body is truthy but not a string fails with the presence code, not the type code, whatever its other keys. |
| Entities.TruthyNonStringsReachTypeCheck | src/Domains/comments/entities/_test/DeleteComment.test.js:15-25 | `true`, `[]` and `123` count as present, so that payload fails with DELETE_COMMENT.NOT_MEET_DATA_TYPE_SPECIFICATION. |
| Entities.AddThreadErrorsTranslate | src/Commons/exceptions/DomainErrorTranslator.js:23-24 | Every error the AddThread request throws translates to an InvariantError. |
| Entities.AddCommentErrorsTranslate | src/Commons/exceptions/DomainErrorTranslator.js:29-30 | Every error the AddComment request throws translates to an InvariantError. |
| Entities.GetThreadDetailsErrorsTranslate | src/Commons/exceptions/DomainErrorTranslator.js:26-27 | Every error the GetThreadDetails request throws translates to an InvariantError. |
| Entities.DeleteCommentErrorsUntranslated | src/Domains/comments/entities/DeleteComment.js:12-19 | The DeleteComment request's errors are not keys of the translator, so they come back unchanged as plain errors. |
| Errors.Translate | src/Commons/exceptions/DomainErrorTranslator.js:6-8 | A key maps to its table entry. The result equals the input iff the message is not a key. A changed result is a classified error whose message is not a code. |
| Errors.DirectoryShape | src/Commons/exceptions/DomainErrorTranslator.js:11-33 | Every key ends in an upper-case letter. No translated message does. Every entry is an InvariantError, NotFoundError or AuthorizationError. |
| Errors.KindFollowsSuffix | src/Commons/exceptions/DomainErrorTranslator.js:12-32 | For every key: NotFoundError iff it ends in `.DATA_NOT_FOUND`. AuthorizationError iff it ends in `.INVALID_OWNER`. InvariantError otherwise, which covers every `NOT_CONTAIN` and `NOT_MEET_DATA_TYPE_SPECIFICATION` key. |
| Errors.TranslateIdempotent | src/Commons/exceptions/DomainErrorTranslator.js:7 | Translating a translated error changes nothing. |
| Errors.TranslateIgnoresKind | src/Commons/exceptions/DomainErrorTranslator.js:7 | Only the message selects the entry. The class of the incoming error does not matter. |
| Errors.UntranslatedCodes | src/Commons/exceptions/DomainErrorTranslator.js:11-33 | DELETE_COMMENT.* and GET_THREAD_DETAILS.DATA_NOT_FOUND are not keys and are returned unchanged. |
| Errors.RepositoryCodesTranslate | src/Commons/exceptions/DomainErrorTranslator.js:25-32 | VERIFY_THREAD.DATA_NOT_FOUND and VERIFY_COMMENT.DATA_NOT_FOUND become NotFoundErrors. VERIFY_COMMENT.INVALID_OWNER becomes AuthorizationError "anda tidak dapat mengakses comment ini". |
| Errors.RequestCodesTranslate | src/Commons/exceptions/DomainErrorTranslator.js:23-30 | The six ADD_THREAD, ADD_COMMENT and GET_THREAD_DETAILS validation codes all become InvariantErrors. |
| UserRepository.GetUserById | src/Applications/use_case/_test/AddThreadUseCase.test.js:30-35 | The lookup succeeds iff the user exists, returning that user. Otherwise it throws a NotFoundError. |
| ThreadRepository.AddThread | src/Infrastructures/repository/ThreadRepositoryPostgres.js:12-25 | Inserts exactly one row under `thread-` + generated id, returns {id, title, owner = userId}, and leaves every other row unchanged. A taken id fails and leaves the store unchanged. |
| ThreadRepository.GetThreadById | src/Infrastructures/repository/ThreadRepositoryPostgres.js:27-41 | Succeeds iff the thread exists and its owner exists (the join). Returns id, title, body, date and the owner's username. Otherwise throws NotFoundError GET_THREAD_DETAILS.DATA_NOT_FOUND. |
| ThreadRepository.VerifyAvailableThreadById | src/Infrastructures/repository/ThreadRepositoryPostgres.js:43-56 | Returns true iff the thread exists. Otherwise throws NotFoundError VERIFY_THREAD.DATA_NOT_FOUND. |
| ThreadRepository.FoundThreadIsAvailable | src/Infrastructures/repository/ThreadRepositoryPostgres.js:27-56 | A thread `getThreadById` finds also passes the availability check. The two differ only when the owner row is missing. |
| ThreadRepository.AddThenRead | src/Infrastructures/repository/ThreadRepositoryPostgres.js:12-41 | After an insert, the new thread passes the availability check. When its owner exists, it reads back with the given title, body and date. |
| CommentRepository.FirstMatch | src/Infrastructures/repository/CommentRepositoryPostgres.js:43-49 | `result.rows[0]`: the index of the first row the predicate selects. None iff no row is selected. |
| CommentRepository.AddComment | src/Infrastructures/repository/CommentRepositoryPostgres.js:14-35 | Appends one row under `comment-` + generated id with the request's content, user and thread. Returns {id, content, owner = userId}. A taken id fails and leaves the store unchanged. |
| CommentRepository.GetCommentById | src/Infrastructures/repository/CommentRepositoryPostgres.js:37-50 | Succeeds iff a row has the id and `is_delete = FALSE` (NULL excluded), returning that row's columns. Otherwise throws InvariantError. |
| CommentRepository.VerifyCommentAvailability | src/Infrastructures/repository/CommentRepositoryPostgres.js:52-65 | Succeeds iff a row has the id and `is_delete IS NOT TRUE` (NULL counts as available). Otherwise throws NotFoundError VERIFY_COMMENT.DATA_NOT_FOUND. |
| CommentRepository.VerifyCommentOwner | src/Infrastructures/repository/CommentRepositoryPostgres.js:67-82 | Succeeds iff a row has both the comment id and the user id, whatever its flag. Otherwise throws AuthorizationError VERIFY_COMMENT.INVALID_OWNER. |
| CommentRepository.DeleteCommentById | src/Infrastructures/repository/CommentRepositoryPostgres.js:84-95 | Never throws. Sets `is_delete = TRUE` on exactly the rows with that id and leaves every other row, user and thread unchanged. The count is positive iff such a row exists, and is 1 when ids are unique. |
| CommentRepository.MatchCountSpec | src/Infrastructures/repository/CommentRepositoryPostgres.js:92-94 | The UPDATE's row count is positive iff a row has the id. Under the primary key it is 1 or 0. |
| CommentRepository.JoinThread | src/Infrastructures/repository/CommentRepositoryPostgres.js:99 | The join yields exactly the listings of rows on that thread whose author exists: one listing per such row (its length is the number of joining rows), and under unique comment ids no listing occurs twice. |
| CommentRepository.Insert | src/Infrastructures/repository/CommentRepositoryPostgres.js:99 | Inserting into a date-sorted list keeps it sorted and adds exactly that element. |
| CommentRepository.SortByDate | src/Infrastructures/repository/CommentRepositoryPostgres.js:99 | `ORDER BY c.date ASC`: the result is sorted by date and is a permutation of the input. |
| CommentRepository.GetCommentsByThreadId | src/Infrastructures/repository/CommentRepositoryPostgres.js:97-106 | Returns exactly the thread's comments whose author exists, deleted ones included, as a date-ascending permutation of the joined rows. It has one entry per joining row, and under unique comment ids each comment is listed once. |
| CommentRepository.AddCommentKeepsKey | src/Infrastructures/repository/CommentRepositoryPostgres.js:16-21 | An insert keeps comment ids unique. |
| CommentRepository.DeleteCommentKeepsKey | src/Infrastructures/repository/CommentRepositoryPostgres.js:87-90 | A soft delete keeps comment ids unique. |
| CommentRepository.SoftDeleteKeepsRow | src/Infrastructures/repository/CommentRepositoryPostgres.js:52-95 | After a delete the row still exists. The availability check now throws VERIFY_COMMENT.DATA_NOT_FOUND, and `getCommentById` fails too. |
| CommentRepository.OwnerCheckIgnoresDelete | src/Infrastructures/repository/CommentRepositoryPostgres.js:67-82 | A soft delete does not change any owner check's answer. |
| CommentRepository.DeleteAgainCountsRow | src/Infrastructures/repository/CommentRepositoryPostgres.js:84-95 | With unique ids, deleting an existing comment reports 1, and deleting it again reports 1 again. |
| CommentRepository.StrictFilterImpliesAvailable | src/Infrastructures/repository/CommentRepositoryPostgres.js:37-65 | Whatever `getCommentById` finds passes the availability check. |
| CommentRepository.NullFlagSeparatesFilters | src/Infrastructures/repository/CommentRepositoryPostgres.js:39-54 | In any store with unique comment ids, a row whose flag is NULL passes the availability check, which returns that row, but `getCommentById` does not find it. |
| UseCases.FirstFailure | src/Applications/use_case/DeleteCommentUseCase.js:13-21 | The position of the first failing check: every earlier check passed and this one failed. Equals the number of checks when all pass. |
| UseCases.AddThreadUseCase | src/Applications/use_case/AddThreadUseCase.js:9-13 | An invalid payload makes no call. Otherwise the user lookup precedes `addThread`, which runs only if the user exists. Success iff the payload is valid, the user exists and the id is free. Success returns {thread-id, payload title, payload userId} and adds exactly that thread row. Once the user exists, the outcome and store are exactly `addThread`'s, so a taken id comes back as its duplicate-key error. Any failure leaves the store unchanged. |
| UseCases.AddCommentUseCase | src/Applications/use_case/AddCommentUseCase.js:10-15 | An invalid payload makes no call. Otherwise the calls are user lookup, then thread check, then `addComment`, stopping at the first failure with that collaborator's error. Once both checks pass, the outcome and store are exactly `addComment`'s, so a taken id comes back as its duplicate-key error. Success appends exactly one row with the payload's content, user and thread and changes nothing else. |
| UseCases.CheckDeleteComment | src/Applications/use_case/DeleteCommentUseCase.js:13-19 | The user, availability, thread and owner checks run in that order and stop at the first failure. The trace is the plan up to that check. The error is that check's error. The outcome is Ok iff all four pass. The store is never changed. |
| UseCases.DeleteValidComment | src/Applications/use_case/DeleteCommentUseCase.js:13-23 | The calls are user, comment availability, thread, owner, then delete, stopping at the first failing check. The error is that check's error and the store is unchanged. When all pass, the delete's count and store are returned. |
| UseCases.DeleteCommentUseCase | src/Applications/use_case/DeleteCommentUseCase.js:10-24 | An invalid payload makes no call. Success iff the user exists, the comment is available, the thread exists and the user owns the comment. It returns 1 under unique ids. Any failure leaves the store unchanged. |
| UseCases.FormatComments | src/Applications/use_case/GetThreadDetailsUseCase.js:15-20 | Same length and order as the listing. id, username and date are copied, the flag is dropped, and content is the marker when the flag is TRUE, otherwise the original. |
| UseCases.GetThreadDetailsUseCase | src/Applications/use_case/GetThreadDetailsUseCase.js:9-25 | Read-only. `getCommentsByThreadId` is called only after `getThreadById` succeeds, and both get the validated id. Success iff the thread and its owner exist. The result carries the thread's fields unchanged plus one view per listed comment, in order. |
| UseCases.AddThreadForwardsPayload | src/Applications/use_case/AddThreadUseCase.js:10-12 | The user lookup gets the payload's userId. `addThread` is called iff the user exists, with a request equal to the payload's userId/title/body. |
| UseCases.AddCommentToMissingThread | src/Applications/use_case/AddCommentUseCase.js:13-14 | When the thread is missing, no comment is inserted and the store is unchanged. The run ends at the thread check with VERIFY_THREAD.DATA_NOT_FOUND, which translates to NotFoundError "tidak dapat menemukan data thread". |
| UseCases.OwnerMismatchDeletesNothing | src/Applications/use_case/DeleteCommentUseCase.js:19-21 | An owner mismatch throws AuthorizationError VERIFY_COMMENT.INVALID_OWNER. `deleteCommentById` is never called and the comment rows are unchanged. |
| UseCases.DeleteFlagsOnlyThatComment | src/Applications/use_case/DeleteCommentUseCase.js:21 | When the payload is valid and all four checks pass, the delete succeeds, sets the flag on exactly the requested comment's row and changes nothing else. |
| UseCases.SecondDeleteFails | src/Applications/use_case/DeleteCommentUseCase.js:15-16 | Repeating a delete whose four checks passed fails at the availability check with VERIFY_COMMENT.DATA_NOT_FOUND after two calls. |
| UseCases.DeleteIgnoresCommentsThread | src/Applications/use_case/DeleteCommentUseCase.js:15-21 | A comment on thread A is deleted through a request naming an existing thread B. The comment's thread is never compared. |
| UseCases.RedactionMarksDeleted | src/Applications/use_case/GetThreadDetailsUseCase.js:19 | A view shows the marker iff its comment is deleted or its own text is the marker. |
| UseCases.GetThreadDetailsReadOnly | src/Applications/use_case/GetThreadDetailsUseCase.js:12-13 | The store is unchanged. The first call is `getThreadById(threadId)`. A second call, `getCommentsByThreadId(threadId)`, happens iff the run succeeds. |
| UseCases.AddCommentScenario | src/Applications/use_case/_test/AddCommentUseCase.test.js:12-67 | For the test's payload and store, the result is AddedComment{comment-123, content, user-123}. The calls are the three expected ones with the expected arguments. |
| UseCases.ThreadDetailsScenario | src/Applications/use_case/_test/GetThreadDetailsUseCase.test.js:10-111 | For the test's thread and its three comments by batman, spiderman and wonderwoman, the third deleted, the result is the whole expected object. The comments are in date order, the third shows "**komentar telah dihapus**", and the calls are getThreadById then getCommentsByThreadId, both with the thread id. |

## Left out

- The HTTP layer (handlers, routes, status codes), the dependency-injection container, and authentication/JWT. The use cases receive an already-resolved user id.
- The `pg` pool, SQL text and Promise machinery. Calls are sequential `Result` compositions over an in-memory store. Nothing runs concurrently.
- The id generator, the clock and the schema's column defaults. These come from the `Oracle` parameter. The migrations are not part of this model, so the default of `is_delete` is left open.
- UserRepository.GetUserById: UserRepositoryPostgres is not part of this model. Its not-found message is a placeholder (`USER.DATA_NOT_FOUND`), so lemmas say nothing about that message's translation.
- Foreign keys and other schema constraints are not modelled. A duplicate generated id is modelled as a failed insert (`DatabaseError`) that leaves the store unchanged.
- SQL leaves the order of comments with equal dates unspecified. The model's stable sort keeps table order, but no lemma depends on that tie-break.
- ThreadDetailsScenario: the use-case test gives all three comments the same timestamp and mocks the repository. Through the store, `ORDER BY c.date ASC` would leave those three in an unspecified order, so the scenario gives them distinct ascending dates. The order the test expects for equal dates is not claimed.
- JavaScript numbers are integers here, so `NaN` and `-0` (both falsy) are not modelled. A `null` or `undefined` payload, which makes destructuring throw a TypeError, is not modelled either: payloads are plain objects.
- The translator's prototype lookup (a key such as `"constructor"` would hit `Object.prototype`) is not modelled. The table is a finite map.
- Purity of validation (same payload, same outcome) holds by construction, since the validators are functions. No lemma states it.
- `getCommentById` is modelled although no use case calls it.
- src/Domains/threads/entities/GetThreadDetails.js is not part of this model. `Entities.NewGetThreadDetails` follows its test and the same two-phase pattern as the other three validators.
- The test helper's malformed `deleteCommentById` SQL and the stale repository tests are not modelled.
