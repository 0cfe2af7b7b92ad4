/** The request value objects of the domain layer (AddThread, AddComment,
    DeleteComment, GetThreadDetails) and the records the repositories return
    for new threads and comments. */
module Entities {
  import opened Results
  import opened JsValues
  import opened Errors

  /** The two codes a value object throws, one per validation phase. */
  datatype Codes = Codes(missing: string, mistyped: string)

  /** The two-phase check every value object runs on construction: first
      every named property must be truthy, then every one must be a string.
      None means the payload passed both phases. */
  function VerifyPayload(p: Payload, names: seq<string>, codes: Codes): (r: Option<Error>)
    ensures r.None? <==> forall name :: name in names ==> IsString(Get(p, name)) && Truthy(Get(p, name))
    ensures (exists name :: name in names && !Truthy(Get(p, name))) ==>
      r == Some(Error(PlainError, codes.missing))
    ensures ((forall name :: name in names ==> Truthy(Get(p, name))) &&
      (exists name :: name in names && !IsString(Get(p, name)))) ==>
      r == Some(Error(PlainError, codes.mistyped))
  {
    if exists name :: name in names && !Truthy(Get(p, name)) then
      Some(Error(PlainError, codes.missing))
    else if exists name :: name in names && !IsString(Get(p, name)) then
      Some(Error(PlainError, codes.mistyped))
    else
      None
  }

  /** A non-empty string: what a property must be to pass both phases. */
  predicate IsFilledString(v: JsValue) {
    v.Str? && |v.s| > 0
  }

  // ---------------------------------------------------------------- AddThread

  datatype AddThread = AddThread(userId: string, title: string, body: string)

  const AddThreadCodes := Codes(AddThreadMissing, AddThreadMistyped)

  /** `new AddThread(payload)`. */
  function NewAddThread(p: Payload): (r: Result<AddThread, Error>)
    ensures r.Err? ==> r.error == Error(PlainError, AddThreadMissing) || r.error == Error(PlainError, AddThreadMistyped)
    ensures r == Err(Error(PlainError, AddThreadMissing)) <==>
      !Truthy(Get(p, "userId")) || !Truthy(Get(p, "title")) || !Truthy(Get(p, "body"))
    ensures r == Err(Error(PlainError, AddThreadMistyped)) <==>
      Truthy(Get(p, "userId")) && Truthy(Get(p, "title")) && Truthy(Get(p, "body")) &&
      (!IsString(Get(p, "userId")) || !IsString(Get(p, "title")) || !IsString(Get(p, "body")))
    ensures r.Ok? <==>
      IsFilledString(Get(p, "userId")) && IsFilledString(Get(p, "title")) && IsFilledString(Get(p, "body"))
    ensures r.Ok? ==>
      Get(p, "userId") == Str(r.value.userId) && Get(p, "title") == Str(r.value.title) &&
      Get(p, "body") == Str(r.value.body)
  {
    match VerifyPayload(p, ["userId", "title", "body"], AddThreadCodes)
    case Some(e) => Err(e)
    case None => Ok(AddThread(Get(p, "userId").s, Get(p, "title").s, Get(p, "body").s))
  }

  /** The payload a caller sends to create `t`. */
  function AddThreadPayload(t: AddThread): Payload {
    map["userId" := Str(t.userId), "title" := Str(t.title), "body" := Str(t.body)]
  }

  // --------------------------------------------------------------- AddComment

  datatype AddComment = AddComment(userId: string, threadId: string, content: string)

  const AddCommentCodes := Codes(AddCommentMissing, AddCommentMistyped)

  /** `new AddComment(payload)`. */
  function NewAddComment(p: Payload): (r: Result<AddComment, Error>)
    ensures r.Err? ==> r.error == Error(PlainError, AddCommentMissing) || r.error == Error(PlainError, AddCommentMistyped)
    ensures r == Err(Error(PlainError, AddCommentMissing)) <==>
      !Truthy(Get(p, "userId")) || !Truthy(Get(p, "threadId")) || !Truthy(Get(p, "content"))
    ensures r == Err(Error(PlainError, AddCommentMistyped)) <==>
      Truthy(Get(p, "userId")) && Truthy(Get(p, "threadId")) && Truthy(Get(p, "content")) &&
      (!IsString(Get(p, "userId")) || !IsString(Get(p, "threadId")) || !IsString(Get(p, "content")))
    ensures r.Ok? <==>
      IsFilledString(Get(p, "userId")) && IsFilledString(Get(p, "threadId")) && IsFilledString(Get(p, "content"))
    ensures r.Ok? ==>
      Get(p, "userId") == Str(r.value.userId) && Get(p, "threadId") == Str(r.value.threadId) &&
      Get(p, "content") == Str(r.value.content)
  {
    match VerifyPayload(p, ["userId", "threadId", "content"], AddCommentCodes)
    case Some(e) => Err(e)
    case None => Ok(AddComment(Get(p, "userId").s, Get(p, "threadId").s, Get(p, "content").s))
  }

  function AddCommentPayload(c: AddComment): Payload {
    map["userId" := Str(c.userId), "threadId" := Str(c.threadId), "content" := Str(c.content)]
  }

  // ------------------------------------------------------------ DeleteComment

  datatype DeleteComment = DeleteComment(commentId: string, threadId: string, userId: string)

  const DeleteCommentCodes := Codes(DeleteCommentMissing, DeleteCommentMistyped)

  /** `new DeleteComment(payload)`. */
  function NewDeleteComment(p: Payload): (r: Result<DeleteComment, Error>)
    ensures r.Err? ==> r.error == Error(PlainError, DeleteCommentMissing) || r.error == Error(PlainError, DeleteCommentMistyped)
    ensures r == Err(Error(PlainError, DeleteCommentMissing)) <==>
      !Truthy(Get(p, "commentId")) || !Truthy(Get(p, "userId")) || !Truthy(Get(p, "threadId"))
    ensures r == Err(Error(PlainError, DeleteCommentMistyped)) <==>
      Truthy(Get(p, "commentId")) && Truthy(Get(p, "userId")) && Truthy(Get(p, "threadId")) &&
      (!IsString(Get(p, "commentId")) || !IsString(Get(p, "userId")) || !IsString(Get(p, "threadId")))
    ensures r.Ok? <==>
      IsFilledString(Get(p, "commentId")) && IsFilledString(Get(p, "userId")) && IsFilledString(Get(p, "threadId"))
    ensures r.Ok? ==>
      Get(p, "commentId") == Str(r.value.commentId) && Get(p, "threadId") == Str(r.value.threadId) &&
      Get(p, "userId") == Str(r.value.userId)
  {
    match VerifyPayload(p, ["commentId", "userId", "threadId"], DeleteCommentCodes)
    case Some(e) => Err(e)
    case None => Ok(DeleteComment(Get(p, "commentId").s, Get(p, "threadId").s, Get(p, "userId").s))
  }

  function DeleteCommentPayload(d: DeleteComment): Payload {
    map["commentId" := Str(d.commentId), "threadId" := Str(d.threadId), "userId" := Str(d.userId)]
  }

  // --------------------------------------------------------- GetThreadDetails

  datatype GetThreadDetails = GetThreadDetails(threadId: string)

  const GetThreadDetailsCodes := Codes(GetThreadDetailsMissing, GetThreadDetailsMistyped)

  /** `new GetThreadDetails(payload)`: the same two phases over `threadId`. */
  function NewGetThreadDetails(p: Payload): (r: Result<GetThreadDetails, Error>)
    ensures r.Err? ==> r.error == Error(PlainError, GetThreadDetailsMissing) || r.error == Error(PlainError, GetThreadDetailsMistyped)
    ensures r == Err(Error(PlainError, GetThreadDetailsMissing)) <==> !Truthy(Get(p, "threadId"))
    ensures r == Err(Error(PlainError, GetThreadDetailsMistyped)) <==>
      Truthy(Get(p, "threadId")) && !IsString(Get(p, "threadId"))
    ensures r.Ok? <==> IsFilledString(Get(p, "threadId"))
    ensures r.Ok? ==> Get(p, "threadId") == Str(r.value.threadId)
  {
    match VerifyPayload(p, ["threadId"], GetThreadDetailsCodes)
    case Some(e) => Err(e)
    case None => Ok(GetThreadDetails(Get(p, "threadId").s))
  }

  // ------------------------------------------------ records the store returns

  /** What `addThread` returns: the new id, the title and the owner's id. */
  datatype AddedThread = AddedThread(id: string, title: string, owner: string)

  /** What `addComment` returns: the new id, the content and the owner's id. */
  datatype AddedComment = AddedComment(id: string, content: string, owner: string)

  // ------------------------------------------------------------------ lemmas

  /** A well-formed request survives a trip through its payload. */
  lemma RoundTrips(t: AddThread, c: AddComment, d: DeleteComment)
    requires |t.userId| > 0 && |t.title| > 0 && |t.body| > 0
    requires |c.userId| > 0 && |c.threadId| > 0 && |c.content| > 0
    requires |d.commentId| > 0 && |d.threadId| > 0 && |d.userId| > 0
    ensures NewAddThread(AddThreadPayload(t)) == Ok(t)
    ensures NewAddComment(AddCommentPayload(c)) == Ok(c)
    ensures NewDeleteComment(DeleteCommentPayload(d)) == Ok(d)
  {
  }

  /** Keys other than userId, title and body do not change the thread
      request, whichever other request they belong to. */
  lemma AddThreadIgnoresExtraKeys(p: Payload, extra: Payload)
    requires "userId" !in extra && "title" !in extra && "body" !in extra
    ensures NewAddThread(p + extra) == NewAddThread(p)
  {
    GetIgnoresOtherKeys(p, extra, "userId");
    GetIgnoresOtherKeys(p, extra, "title");
    GetIgnoresOtherKeys(p, extra, "body");
  }

  /** Keys other than userId, threadId and content do not change the
      comment request. */
  lemma AddCommentIgnoresExtraKeys(p: Payload, extra: Payload)
    requires "userId" !in extra && "threadId" !in extra && "content" !in extra
    ensures NewAddComment(p + extra) == NewAddComment(p)
  {
    GetIgnoresOtherKeys(p, extra, "userId");
    GetIgnoresOtherKeys(p, extra, "threadId");
    GetIgnoresOtherKeys(p, extra, "content");
  }

  /** Keys other than commentId, threadId and userId do not change the
      delete request. */
  lemma DeleteCommentIgnoresExtraKeys(p: Payload, extra: Payload)
    requires "commentId" !in extra && "threadId" !in extra && "userId" !in extra
    ensures NewDeleteComment(p + extra) == NewDeleteComment(p)
  {
    GetIgnoresOtherKeys(p, extra, "commentId");
    GetIgnoresOtherKeys(p, extra, "threadId");
    GetIgnoresOtherKeys(p, extra, "userId");
  }

  /** Keys other than threadId do not change the thread-details request. */
  lemma GetThreadDetailsIgnoresExtraKeys(p: Payload, extra: Payload)
    requires "threadId" !in extra
    ensures NewGetThreadDetails(p + extra) == NewGetThreadDetails(p)
  {
    GetIgnoresOtherKeys(p, extra, "threadId");
  }

  /** Reading a property not among the added keys sees the original payload. */
  lemma GetIgnoresOtherKeys(p: Payload, extra: Payload, key: string)
    requires key !in extra
    ensures Get(p + extra, key) == Get(p, key)
  {
  }

  /** Every code the thread request throws is a key of the translator and
      becomes an InvariantError. */
  lemma AddThreadErrorsTranslate(p: Payload)
    ensures NewAddThread(p).Err? ==> Translate(NewAddThread(p).error).kind == InvariantError
  {
    RequestCodesTranslate(PlainError);
  }

  /** Every code the comment request throws becomes an InvariantError. */
  lemma AddCommentErrorsTranslate(p: Payload)
    ensures NewAddComment(p).Err? ==> Translate(NewAddComment(p).error).kind == InvariantError
  {
    RequestCodesTranslate(PlainError);
  }

  /** Every code the thread-details request throws becomes an InvariantError. */
  lemma GetThreadDetailsErrorsTranslate(p: Payload)
    ensures NewGetThreadDetails(p).Err? ==> Translate(NewGetThreadDetails(p).error).kind == InvariantError
  {
    RequestCodesTranslate(PlainError);
  }

  /** The delete-comment request's codes are not keys: its errors reach the
      boundary as the plain errors they were thrown as. */
  lemma DeleteCommentErrorsUntranslated(p: Payload)
    ensures NewDeleteComment(p).Err? ==> Translate(NewDeleteComment(p).error) == NewDeleteComment(p).error
  {
    UntranslatedCodes(PlainError);
  }

  /** The payload of the delete-comment test: `true`, `[]` and `123` are all
      truthy, so the presence phase passes and the type phase fails. */
  lemma TruthyNonStringsReachTypeCheck()
    ensures NewDeleteComment(map["commentId" := Bool(true), "threadId" := Arr([]), "userId" := Num(123)]) ==
      Err(Error(PlainError, DeleteCommentMistyped))
  {
  }

  /** A missing property wins over a mistyped one. */
  lemma PresenceBeforeType(p: Payload)
    requires !Truthy(Get(p, "userId")) && Truthy(Get(p, "body")) && !IsString(Get(p, "body"))
    ensures NewAddThread(p) == Err(Error(PlainError, AddThreadMissing))
  {
  }
}
