/** The four use-case orchestrators. Each validates its payload, then calls
    its collaborators one after another, stopping at the first that throws.
    A run returns the outcome, the calls made in order, and the store after
    the run. */
module UseCases {
  import opened Results
  import opened Errors
  import opened JsValues
  import opened Store
  import E = Entities
  import Users = UserRepository
  import Threads = ThreadRepository
  import Comments = CommentRepository

  /** A collaborator call, with the argument it was given. */
  datatype Call =
    | GetUserByIdCalled(userId: string)
    | VerifyAvailableThreadByIdCalled(threadId: string)
    | AddThreadCalled(addThread: E.AddThread)
    | AddCommentCalled(addComment: E.AddComment)
    | VerifyCommentAvailabilityCalled(commentId: string)
    | VerifyCommentOwnerCalled(deleteComment: E.DeleteComment)
    | DeleteCommentByIdCalled(deleteComment: E.DeleteComment)
    | GetThreadByIdCalled(threadId: string)
    | GetCommentsByThreadIdCalled(threadId: string)

  /** One execution of a use case. */
  datatype Run<T> = Run(outcome: Result<T, Error>, trace: seq<Call>, store: Store)

  // --------------------------------------------------------------- fail fast

  /** The position of the first check that fails, or the number of checks
      when all pass. */
  function FirstFailure(checks: seq<bool>): (k: nat)
    ensures k <= |checks|
    ensures forall i :: 0 <= i < k ==> checks[i]
    ensures k < |checks| ==> !checks[k]
  {
    if |checks| == 0 then 0
    else if !checks[0] then 0
    else 1 + FirstFailure(checks[1..])
  }

  /** FirstFailure of four checks, by cases. */
  lemma FirstFailureOfFour(a: bool, b: bool, c: bool, d: bool)
    ensures FirstFailure([a, b, c, d]) == if !a then 0 else if !b then 1 else if !c then 2 else if !d then 3 else 4
  {
    assert [d][1..] == [];
    assert FirstFailure([d]) == if !d then 0 else 1;
    assert [c, d][1..] == [d];
    assert FirstFailure([c, d]) == if !c then 0 else 1 + FirstFailure([d]);
    assert [b, c, d][1..] == [c, d];
    assert FirstFailure([b, c, d]) == if !b then 0 else 1 + FirstFailure([c, d]);
    assert [a, b, c, d][1..] == [b, c, d];
  }

  /** The run made the planned calls up to and including the first one
      whose check fails, and none after it. The plan has one call per check
      followed by the final call, which is made only when every check passes. */
  predicate FailFast(trace: seq<Call>, plan: seq<Call>, checks: seq<bool>)
    requires |plan| == |checks| + 1
  {
    trace == plan[..FirstFailure(checks) + 1]
  }

  // ---------------------------------------------------------- AddThreadUseCase

  function AddThreadPlan(t: E.AddThread): seq<Call> {
    [GetUserByIdCalled(t.userId), AddThreadCalled(t)]
  }

  /** `AddThreadUseCase.execute(payload)`. */
  function AddThreadUseCase(s: Store, p: Payload, o: Oracle): (r: Run<E.AddedThread>)
    ensures E.NewAddThread(p).Err? ==> r == Run(Err(E.NewAddThread(p).error), [], s)
    ensures E.NewAddThread(p).Ok? ==>
      var t := E.NewAddThread(p).value;
      && FailFast(r.trace, AddThreadPlan(t), [t.userId in s.users])
      && (t.userId !in s.users ==> r.outcome == Err(Users.UserNotFound))
    ensures r.outcome.Ok? <==>
      E.NewAddThread(p).Ok? && Get(p, "userId").s in s.users && Threads.NewThreadId(o) !in s.threads
    ensures r.outcome.Ok? ==>
      && r.outcome.value == E.AddedThread(Threads.NewThreadId(o), Get(p, "title").s, Get(p, "userId").s)
      && r.store == s.(threads := s.threads[Threads.NewThreadId(o) :=
                         ThreadRow(Get(p, "title").s, Get(p, "body").s, Get(p, "userId").s, o.now)])
    ensures E.NewAddThread(p).Ok? && Get(p, "userId").s in s.users ==>
      var step := Threads.AddThread(s, E.NewAddThread(p).value, o);
      r.outcome == step.result && r.store == step.store
    ensures E.NewAddThread(p).Ok? && Get(p, "userId").s in s.users && Threads.NewThreadId(o) in s.threads ==>
      r.outcome == Err(Threads.DuplicateKey(Threads.NewThreadId(o)))
    ensures r.outcome.Err? ==> r.store == s
  {
    match E.NewAddThread(p)
    case Err(e) => Run(Err(e), [], s)
    case Ok(t) =>
      match Users.GetUserById(s, t.userId)
      case Err(e) => Run(Err(e), [GetUserByIdCalled(t.userId)], s)
      case Ok(_) =>
        var step := Threads.AddThread(s, t, o);
        Run(step.result, AddThreadPlan(t), step.store)
  }

  // --------------------------------------------------------- AddCommentUseCase

  function AddCommentPlan(c: E.AddComment): seq<Call> {
    [GetUserByIdCalled(c.userId), VerifyAvailableThreadByIdCalled(c.threadId), AddCommentCalled(c)]
  }

  function AddCommentChecks(s: Store, c: E.AddComment): seq<bool> {
    [c.userId in s.users, c.threadId in s.threads]
  }

  /** `AddCommentUseCase.execute(payload)`. */
  function AddCommentUseCase(s: Store, p: Payload, o: Oracle): (r: Run<E.AddedComment>)
    ensures E.NewAddComment(p).Err? ==> r == Run(Err(E.NewAddComment(p).error), [], s)
    ensures E.NewAddComment(p).Ok? ==>
      var c := E.NewAddComment(p).value;
      && FailFast(r.trace, AddCommentPlan(c), AddCommentChecks(s, c))
      && (c.userId !in s.users ==> r.outcome == Err(Users.UserNotFound))
      && (c.userId in s.users && c.threadId !in s.threads ==>
            r.outcome == Err(Error(NotFoundError, ThreadNotFound)))
    ensures r.outcome.Ok? <==>
      && E.NewAddComment(p).Ok? && Get(p, "userId").s in s.users && Get(p, "threadId").s in s.threads
      && !HasComment(s.comments, Comments.NewCommentId(o))
    ensures r.outcome.Ok? ==>
      && r.outcome.value == E.AddedComment(Comments.NewCommentId(o), Get(p, "content").s, Get(p, "userId").s)
      && r.store == s.(comments := s.comments + [CommentRow(Comments.NewCommentId(o), Get(p, "content").s,
                                                          Get(p, "userId").s, Get(p, "threadId").s,
                                                          o.isDeleteDefault, o.now)])
    ensures E.NewAddComment(p).Ok? && Get(p, "userId").s in s.users && Get(p, "threadId").s in s.threads ==>
      var step := Comments.AddComment(s, E.NewAddComment(p).value, o);
      r.outcome == step.result && r.store == step.store
    ensures && E.NewAddComment(p).Ok? && Get(p, "userId").s in s.users && Get(p, "threadId").s in s.threads
            && HasComment(s.comments, Comments.NewCommentId(o)) ==>
      r.outcome == Err(Error(DatabaseError, Comments.NewCommentId(o)))
    ensures r.outcome.Err? ==> r.store == s
  {
    match E.NewAddComment(p)
    case Err(e) => Run(Err(e), [], s)
    case Ok(c) =>
      match Users.GetUserById(s, c.userId)
      case Err(e) => Run(Err(e), [GetUserByIdCalled(c.userId)], s)
      case Ok(_) =>
        match Threads.VerifyAvailableThreadById(s, c.threadId)
        case Err(e) => Run(Err(e), [GetUserByIdCalled(c.userId), VerifyAvailableThreadByIdCalled(c.threadId)], s)
        case Ok(_) =>
          var step := Comments.AddComment(s, c, o);
          Run(step.result, AddCommentPlan(c), step.store)
  }

  // ------------------------------------------------------ DeleteCommentUseCase

  function DeleteCommentPlan(d: E.DeleteComment): seq<Call> {
    [ GetUserByIdCalled(d.userId), VerifyCommentAvailabilityCalled(d.commentId),
      VerifyAvailableThreadByIdCalled(d.threadId), VerifyCommentOwnerCalled(d), DeleteCommentByIdCalled(d) ]
  }

  /** The four checks, in the order the use case makes them. The comment's
      own thread is never compared with the requested thread. */
  function DeleteCommentChecks(s: Store, d: E.DeleteComment): seq<bool> {
    [ d.userId in s.users, Comments.IsAvailable(s, d.commentId), d.threadId in s.threads,
      Comments.IsOwner(s, d.commentId, d.userId) ]
  }

  /** The error each check throws when it fails. */
  const DeleteCommentErrors: seq<Error> := [
    Users.UserNotFound,
    Error(NotFoundError, CommentNotFound),
    Error(NotFoundError, ThreadNotFound),
    Error(AuthorizationError, CommentInvalidOwner)
  ]

  /** The four checks `DeleteCommentUseCase.execute` awaits before it
      deletes, stopping at the first that throws. Checks read the store and
      never change it. */
  function CheckDeleteComment(s: Store, d: E.DeleteComment): (r: Run<()>)
    ensures r.store == s
    ensures var k := FirstFailure(DeleteCommentChecks(s, d));
      && r.trace == DeleteCommentPlan(d)[..if k < 4 then k + 1 else 4]
      && (k < 4 ==> r.outcome == Err(DeleteCommentErrors[k]))
      && (r.outcome.Ok? <==> k == 4)
  {
    var plan := DeleteCommentPlan(d);
    var checks := DeleteCommentChecks(s, d);
    FirstFailureOfFour(checks[0], checks[1], checks[2], checks[3]);
    match Users.GetUserById(s, d.userId)
    case Err(e) =>
      Run(Err(e), plan[..1], s)
    case Ok(_) =>
      match Comments.VerifyCommentAvailability(s, d.commentId)
      case Err(e) =>
        Run(Err(e), plan[..2], s)
      case Ok(_) =>
        match Threads.VerifyAvailableThreadById(s, d.threadId)
        case Err(e) =>
          Run(Err(e), plan[..3], s)
        case Ok(_) =>
          match Comments.VerifyCommentOwner(s, d)
          case Err(e) =>
            Run(Err(e), plan[..4], s)
          case Ok(_) =>
            Run(Ok(()), plan[..4], s)
  }

  /** The collaborator calls of `DeleteCommentUseCase.execute` once the
      payload is valid: the four checks, then the delete. */
  function DeleteValidComment(s: Store, d: E.DeleteComment): (r: Run<nat>)
    ensures FailFast(r.trace, DeleteCommentPlan(d), DeleteCommentChecks(s, d))
    ensures var k := FirstFailure(DeleteCommentChecks(s, d));
      k < 4 ==> r.outcome == Err(DeleteCommentErrors[k]) && r.store == s
    ensures FirstFailure(DeleteCommentChecks(s, d)) == 4 ==>
      r.outcome == Comments.DeleteCommentById(s, d).result && r.store == Comments.DeleteCommentById(s, d).store
  {
    var checked := CheckDeleteComment(s, d);
    var plan := DeleteCommentPlan(d);
    var k := FirstFailure(DeleteCommentChecks(s, d));
    assert k <= 4;
    match checked.outcome
    case Err(e) =>
      assert k < 4 && checked.trace == plan[..k + 1];
      Run(Err(e), checked.trace, s)
    case Ok(_) =>
      var step := Comments.DeleteCommentById(s, d);
      assert k == 4 && plan[..k + 1] == plan;
      Run(step.result, plan, step.store)
  }

  /** The payload is well formed and all four checks of the delete use case pass. */
  predicate DeletePermitted(s: Store, p: Payload) {
    && E.NewDeleteComment(p).Ok?
    && var d := E.NewDeleteComment(p).value;
    && d.userId in s.users && Comments.IsAvailable(s, d.commentId)
    && d.threadId in s.threads && Comments.IsOwner(s, d.commentId, d.userId)
  }

  /** Being permitted is the same as the fail-fast run of the four checks
      reaching the delete call. */
  lemma PermittedIffChecksPass(s: Store, p: Payload)
    requires E.NewDeleteComment(p).Ok?
    ensures DeletePermitted(s, p) <==> FirstFailure(DeleteCommentChecks(s, E.NewDeleteComment(p).value)) == 4
  {
    var d := E.NewDeleteComment(p).value;
    FirstFailureOfFour(d.userId in s.users, Comments.IsAvailable(s, d.commentId), d.threadId in s.threads,
                       Comments.IsOwner(s, d.commentId, d.userId));
  }

  /** `DeleteCommentUseCase.execute(payload)`. */
  function DeleteCommentUseCase(s: Store, p: Payload): (r: Run<nat>)
    ensures E.NewDeleteComment(p).Err? ==> r == Run(Err(E.NewDeleteComment(p).error), [], s)
    ensures E.NewDeleteComment(p).Ok? ==> r == DeleteValidComment(s, E.NewDeleteComment(p).value)
    ensures r.outcome.Ok? <==> DeletePermitted(s, p)
    ensures r.outcome.Ok? && UniqueCommentIds(s.comments) ==> r.outcome.value == 1
    ensures r.outcome.Err? ==> r.store == s
  {
    match E.NewDeleteComment(p)
    case Err(e) => Run(Err(e), [], s)
    case Ok(d) =>
      var r := DeleteValidComment(s, d);
      var checks := DeleteCommentChecks(s, d);
      assert r.outcome.Ok? <==> FirstFailure(checks) == 4 by {
        if FirstFailure(checks) < 4 {
          assert DeleteCommentErrors[FirstFailure(checks)].kind != PlainError;
        }
      }
      r
  }

  // -------------------------------------------------- GetThreadDetailsUseCase

  /** The text shown in place of a soft-deleted comment. */
  const DeletedMarker := "**komentar telah dihapus**"

  /** One comment as the thread detail shows it. */
  datatype CommentView = CommentView(id: string, username: string, date: int, content: string)

  /** The object `getThreadById` returned, with `comments` attached. */
  datatype ThreadDetail = ThreadDetail(
    id: string, title: string, body: string, date: int, username: string, comments: seq<CommentView>)

  /** The `comments.map(...)` projection: copy id, username and date, drop
      the flag, and redact the content of deleted comments. */
  function FormatComments(xs: seq<Comments.CommentListing>): (r: seq<CommentView>)
    ensures |r| == |xs|
    ensures forall i :: 0 <= i < |xs| ==>
      && r[i].id == xs[i].id && r[i].username == xs[i].username && r[i].date == xs[i].date
      && r[i].content == if FlagTruthy(xs[i].isDelete) then DeletedMarker else xs[i].content
  {
    if |xs| == 0 then []
    else
      var x := xs[0];
      [CommentView(x.id, x.username, x.date, if FlagTruthy(x.isDelete) then DeletedMarker else x.content)]
        + FormatComments(xs[1..])
  }

  function GetThreadDetailsPlan(threadId: string): seq<Call> {
    [GetThreadByIdCalled(threadId), GetCommentsByThreadIdCalled(threadId)]
  }

  /** `getThreadById` finds the thread joined with its owner. */
  predicate ThreadFound(s: Store, threadId: string) {
    Threads.GetThreadById(s, threadId).Ok?
  }

  /** `GetThreadDetailsUseCase.execute(payload)`. */
  function GetThreadDetailsUseCase(s: Store, p: Payload): (r: Run<ThreadDetail>)
    ensures r.store == s
    ensures E.NewGetThreadDetails(p).Err? ==> r == Run(Err(E.NewGetThreadDetails(p).error), [], s)
    ensures E.NewGetThreadDetails(p).Ok? ==>
      var tid := E.NewGetThreadDetails(p).value.threadId;
      && FailFast(r.trace, GetThreadDetailsPlan(tid), [ThreadFound(s, tid)])
      && (!ThreadFound(s, tid) ==> r.outcome == Err(Error(NotFoundError, ThreadDetailsNotFound)))
    ensures r.outcome.Ok? <==> E.NewGetThreadDetails(p).Ok? && ThreadFound(s, Get(p, "threadId").s)
    ensures r.outcome.Ok? ==>
      var tid := Get(p, "threadId").s;
      var row := s.threads[tid];
      var listing := Comments.GetCommentsByThreadId(s, tid);
      && r.outcome.value.id == tid && r.outcome.value.title == row.title && r.outcome.value.body == row.body
      && r.outcome.value.date == row.date && r.outcome.value.username == s.users[row.userId].username
      && |r.outcome.value.comments| == |listing|
      && forall i :: 0 <= i < |listing| ==>
           && r.outcome.value.comments[i].id == listing[i].id
           && r.outcome.value.comments[i].username == listing[i].username
           && r.outcome.value.comments[i].date == listing[i].date
           && r.outcome.value.comments[i].content ==
                if listing[i].isDelete == SqlTrue then DeletedMarker else listing[i].content
  {
    match E.NewGetThreadDetails(p)
    case Err(e) => Run(Err(e), [], s)
    case Ok(request) =>
      var tid := request.threadId;
      match Threads.GetThreadById(s, tid)
      case Err(e) => Run(Err(e), [GetThreadByIdCalled(tid)], s)
      case Ok(thread) =>
        var comments := FormatComments(Comments.GetCommentsByThreadId(s, tid));
        Run(Ok(ThreadDetail(thread.id, thread.title, thread.body, thread.date, thread.username, comments)),
            GetThreadDetailsPlan(tid), s)
  }

  // ------------------------------------------------------------------ lemmas

  /** Every collaborator receives the validated payload values: the user
      lookup the payload's userId, and `addThread` a request equal to the
      payload's three properties. */
  lemma AddThreadForwardsPayload(s: Store, p: Payload, o: Oracle)
    requires E.NewAddThread(p).Ok?
    ensures var r := AddThreadUseCase(s, p, o);
      && |r.trace| >= 1 && r.trace[0] == GetUserByIdCalled(Get(p, "userId").s)
      && (|r.trace| == 2 <==> Get(p, "userId").s in s.users)
      && (|r.trace| == 2 ==>
            r.trace[1] == AddThreadCalled(E.AddThread(Get(p, "userId").s, Get(p, "title").s, Get(p, "body").s)))
  {
  }

  /** A comment on a missing thread is never inserted: the run stops at the
      thread check with its NotFound code, which the boundary shows as
      "tidak dapat menemukan data thread". */
  lemma AddCommentToMissingThread(s: Store, p: Payload, o: Oracle)
    requires E.NewAddComment(p).Ok?
    requires Get(p, "userId").s in s.users && Get(p, "threadId").s !in s.threads
    ensures var r := AddCommentUseCase(s, p, o);
      && r.outcome == Err(Error(NotFoundError, ThreadNotFound))
      && r.store == s
      && |r.trace| == 2 && r.trace[1] == VerifyAvailableThreadByIdCalled(Get(p, "threadId").s)
      && Translate(r.outcome.error) == Error(NotFoundError, "tidak dapat menemukan data thread")
  {
    RepositoryCodesTranslate(NotFoundError);
  }

  /** An owner mismatch stops the run at the owner check: `deleteCommentById`
      is never called, every comment row is left as it was, and the error is
      the owner check's AuthorizationError. */
  lemma OwnerMismatchDeletesNothing(s: Store, p: Payload)
    requires E.NewDeleteComment(p).Ok?
    requires var d := E.NewDeleteComment(p).value;
      && d.userId in s.users && Comments.IsAvailable(s, d.commentId) && d.threadId in s.threads
      && !Comments.IsOwner(s, d.commentId, d.userId)
    ensures var r := DeleteCommentUseCase(s, p);
      && r.outcome == Err(Error(AuthorizationError, CommentInvalidOwner))
      && DeleteCommentByIdCalled(E.NewDeleteComment(p).value) !in r.trace
      && r.store.comments == s.comments
  {
    var d := E.NewDeleteComment(p).value;
    FirstFailureOfFour(d.userId in s.users, Comments.IsAvailable(s, d.commentId), d.threadId in s.threads,
                       Comments.IsOwner(s, d.commentId, d.userId));
    var r := DeleteCommentUseCase(s, p);
    assert r == DeleteValidComment(s, d);
    assert r.trace == DeleteCommentPlan(d)[..4];
    assert r.outcome == Err(Error(AuthorizationError, CommentInvalidOwner));
  }

  /** A successful delete flags exactly the requested comment's row and
      changes nothing else. */
  lemma DeleteFlagsOnlyThatComment(s: Store, p: Payload)
    requires DeletePermitted(s, p)
    ensures var r := DeleteCommentUseCase(s, p);
      var id := Get(p, "commentId").s;
      && r.outcome.Ok?
      && r.store.users == s.users && r.store.threads == s.threads
      && |r.store.comments| == |s.comments|
      && forall i :: 0 <= i < |s.comments| ==>
           r.store.comments[i] ==
             if s.comments[i].id == id then s.comments[i].(isDelete := SqlTrue) else s.comments[i]
  {
    var d := E.NewDeleteComment(p).value;
    FirstFailureOfFour(d.userId in s.users, Comments.IsAvailable(s, d.commentId), d.threadId in s.threads,
                       Comments.IsOwner(s, d.commentId, d.userId));
  }

  /** Deleting the same comment twice: the second run finds it unavailable
      and fails with NotFound before reaching the delete. */
  lemma SecondDeleteFails(s: Store, p: Payload)
    requires DeletePermitted(s, p)
    ensures var again := DeleteCommentUseCase(DeleteCommentUseCase(s, p).store, p);
      && again.outcome == Err(Error(NotFoundError, CommentNotFound))
      && |again.trace| == 2
  {
    var d := E.NewDeleteComment(p).value;
    FirstFailureOfFour(d.userId in s.users, Comments.IsAvailable(s, d.commentId), d.threadId in s.threads,
                       Comments.IsOwner(s, d.commentId, d.userId));
    var k :| 0 <= k < |s.comments| && Comments.Available(s.comments[k], d.commentId);
    assert HasComment(s.comments, d.commentId);
    Comments.SoftDeleteKeepsRow(s, d);
    var after := DeleteCommentUseCase(s, p).store;
    FirstFailureOfFour(d.userId in after.users, Comments.IsAvailable(after, d.commentId), d.threadId in after.threads,
                       Comments.IsOwner(after, d.commentId, d.userId));
  }

  /** The requested thread only has to exist: a user may delete their comment
      through the URL of another thread. */
  lemma DeleteIgnoresCommentsThread()
    ensures var s := Store(
        map["user-123" := User("dicoding")],
        map["thread-A" := ThreadRow("a", "a", "user-123", 0), "thread-B" := ThreadRow("b", "b", "user-123", 0)],
        [CommentRow("comment-123", "x", "user-123", "thread-A", SqlFalse, 1)]);
      var p := map["commentId" := Str("comment-123"), "threadId" := Str("thread-B"), "userId" := Str("user-123")];
      DeleteCommentUseCase(s, p).outcome == Ok(1)
  {
    var s := Store(
        map["user-123" := User("dicoding")],
        map["thread-A" := ThreadRow("a", "a", "user-123", 0), "thread-B" := ThreadRow("b", "b", "user-123", 0)],
        [CommentRow("comment-123", "x", "user-123", "thread-A", SqlFalse, 1)]);
    assert Comments.Available(s.comments[0], "comment-123");
    assert Comments.OwnedBy(s.comments[0], "comment-123", "user-123");
    FirstFailureOfFour(true, true, true, true);
  }

  /** The view shows the marker exactly when the comment is deleted, or
      when its own text already is the marker. */
  lemma RedactionMarksDeleted(xs: seq<Comments.CommentListing>, i: nat)
    requires i < |xs|
    ensures FormatComments(xs)[i].content == DeletedMarker <==>
      xs[i].isDelete == SqlTrue || xs[i].content == DeletedMarker
  {
  }

  /** Reading a thread changes nothing and only ever calls the two lookups
      with the requested id, the second only after the first succeeded. */
  lemma GetThreadDetailsReadOnly(s: Store, p: Payload)
    requires E.NewGetThreadDetails(p).Ok?
    ensures var r := GetThreadDetailsUseCase(s, p);
      var tid := Get(p, "threadId").s;
      && r.store == s
      && r.trace[0] == GetThreadByIdCalled(tid)
      && (|r.trace| == 2 <==> r.outcome.Ok?)
      && (|r.trace| == 2 ==> r.trace[1] == GetCommentsByThreadIdCalled(tid))
  {
  }

  /** The add-comment scenario of the use-case test: user and thread exist,
      the generator yields "123". */
  lemma AddCommentScenario()
    ensures var s := Store(map["user-123" := User("dicoding")],
                           map["thread-123" := ThreadRow("t", "b", "user-123", 0)], []);
      var p := map["userId" := Str("user-123"), "threadId" := Str("thread-123"),
                   "content" := Str("lorem ipsum dolor sit amet")];
      var r := AddCommentUseCase(s, p, Oracle("123", 5, SqlFalse));
      && r.outcome == Ok(E.AddedComment("comment-123", "lorem ipsum dolor sit amet", "user-123"))
      && r.trace == [GetUserByIdCalled("user-123"), VerifyAvailableThreadByIdCalled("thread-123"),
                     AddCommentCalled(E.AddComment("user-123", "thread-123", "lorem ipsum dolor sit amet"))]
  {
    var s := Store(map["user-123" := User("dicoding")],
                   map["thread-123" := ThreadRow("t", "b", "user-123", 0)], []);
    var p := map["userId" := Str("user-123"), "threadId" := Str("thread-123"),
                 "content" := Str("lorem ipsum dolor sit amet")];
    assert Get(p, "userId") == Str("user-123");
    assert Get(p, "threadId") == Str("thread-123");
    assert Get(p, "content") == Str("lorem ipsum dolor sit amet");
    assert E.NewAddComment(p) == Ok(E.AddComment("user-123", "thread-123", "lorem ipsum dolor sit amet"));
    assert Comments.NewCommentId(Oracle("123", 5, SqlFalse)) == "comment-123";
  }

  /** The store behind the thread-details test: four users, one thread
      and three comments on it, the third deleted. The comments get distinct
      ascending dates, since `ORDER BY c.date ASC` fixes no order among
      equal dates. */
  function ScenarioStore(): Store {
    Store(
      map["user-1" := User("superman"), "user-2" := User("batman"), "user-3" := User("wonderwoman"),
          "user-4" := User("spiderman")],
      map["thread-123" := ThreadRow("Thread baru", "lorem ipsum dolor sit amet", "user-1", 6)],
      [ CommentRow("comment-1", "Komentar 1", "user-2", "thread-123", SqlFalse, 7),
        CommentRow("comment-2", "Komentar 2", "user-4", "thread-123", SqlFalse, 8),
        CommentRow("comment-3", "Komentar 3", "user-3", "thread-123", SqlTrue, 9) ])
  }

  /** The rows `getCommentsByThreadId` returns in the test. */
  function ScenarioListing(): seq<Comments.CommentListing> {
    [ Comments.CommentListing("comment-1", "batman", 7, "Komentar 1", SqlFalse),
      Comments.CommentListing("comment-2", "spiderman", 8, "Komentar 2", SqlFalse),
      Comments.CommentListing("comment-3", "wonderwoman", 9, "Komentar 3", SqlTrue) ]
  }

  /** The thread detail the test expects. */
  function ScenarioDetail(): ThreadDetail {
    ThreadDetail("thread-123", "Thread baru", "lorem ipsum dolor sit amet", 6, "superman",
      [ CommentView("comment-1", "batman", 7, "Komentar 1"),
        CommentView("comment-2", "spiderman", 8, "Komentar 2"),
        CommentView("comment-3", "wonderwoman", 9, DeletedMarker) ])
  }

  lemma ScenarioJoin()
    ensures Comments.JoinThread(ScenarioStore().comments, ScenarioStore().users, "thread-123") == ScenarioListing()
  {
    var s := ScenarioStore();
    var rows := s.comments;
    var l := ScenarioListing();
    assert rows[1..][1..] == [rows[2]];
    assert Comments.JoinThread(rows[1..][1..], s.users, "thread-123") == [l[2]];
    assert Comments.JoinThread(rows[1..], s.users, "thread-123") == [l[1], l[2]];
  }

  lemma ScenarioSort()
    ensures Comments.SortByDate(ScenarioListing()) == ScenarioListing()
  {
    var l := ScenarioListing();
    assert l[1..][1..] == [l[2]];
    assert Comments.SortByDate([l[2]]) == [l[2]];
    assert Comments.SortByDate(l[1..]) == l[1..];
  }

  lemma ScenarioRequest()
    ensures E.NewGetThreadDetails(map["threadId" := Str("thread-123")]) == Ok(E.GetThreadDetails("thread-123"))
  {
    assert Get(map["threadId" := Str("thread-123")], "threadId") == Str("thread-123");
  }

  /** The scenario store lists its three comments by ascending date. */
  lemma ScenarioListed()
    ensures Comments.GetCommentsByThreadId(ScenarioStore(), "thread-123") == ScenarioListing()
  {
    ScenarioJoin();
    ScenarioSort();
  }

  /** A found thread's detail is its row, its owner's username and the
      formatted listing of its comments, after exactly the two planned calls. */
  lemma DetailOfFoundThread(s: Store, p: Payload, tid: string)
    requires E.NewGetThreadDetails(p) == Ok(E.GetThreadDetails(tid))
    requires ThreadFound(s, tid)
    ensures var row := s.threads[tid];
      GetThreadDetailsUseCase(s, p) ==
        Run(Ok(ThreadDetail(tid, row.title, row.body, row.date, s.users[row.userId].username,
                            FormatComments(Comments.GetCommentsByThreadId(s, tid)))),
            GetThreadDetailsPlan(tid), s)
  {
  }

  /** The formatted scenario listing: the first two comments are copied,
      the deleted third one is redacted. */
  lemma ScenarioViews()
    ensures FormatComments(ScenarioListing()) == ScenarioDetail().comments
  {
  }

  /** The thread-details scenario of the use-case test: the detail is the
      expected object, with the three comments in date order and the third
      redacted, and both repositories are called with the thread id. */
  lemma ThreadDetailsScenario()
    ensures var r := GetThreadDetailsUseCase(ScenarioStore(), map["threadId" := Str("thread-123")]);
      && r.outcome == Ok(ScenarioDetail())
      && r.trace == [GetThreadByIdCalled("thread-123"), GetCommentsByThreadIdCalled("thread-123")]
      && r.store == ScenarioStore()
  {
    var s, p := ScenarioStore(), map["threadId" := Str("thread-123")];
    var row := s.threads["thread-123"];
    assert row == ThreadRow("Thread baru", "lorem ipsum dolor sit amet", "user-1", 6);
    assert s.users["user-1"] == User("superman");
    ScenarioRequest();
    ScenarioListed();
    ScenarioViews();
    var views := FormatComments(Comments.GetCommentsByThreadId(s, "thread-123"));
    assert views == ScenarioDetail().comments;
    DetailOfFoundThread(s, p, "thread-123");
  }
}
