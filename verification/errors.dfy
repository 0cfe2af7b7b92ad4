/** The error taxonomy of the forum API: the error classes thrown by the
    domain and repositories, and the translator that turns machine codes
    into classified, human-readable errors. */
module Errors {

  /** The JavaScript class of a thrown error. `PlainError` is the built-in
      `Error` used by the request validators; `DatabaseError` stands for a
      constraint violation reported by the store. */
  datatype ErrorKind =
    | PlainError
    | InvariantError
    | NotFoundError
    | AuthorizationError
    | DatabaseError

  /** A thrown error: its class and its `message`. */
  datatype Error = Error(kind: ErrorKind, message: string)

  /** The three classes the HTTP boundary maps to 400, 404 and 403. */
  predicate IsClassified(k: ErrorKind) {
    k == InvariantError || k == NotFoundError || k == AuthorizationError
  }

  // Codes raised by the request validators and repositories of this model.
  const AddThreadMissing := "ADD_THREAD.NOT_CONTAIN_NEEDED_PROPERTY"
  const AddThreadMistyped := "ADD_THREAD.NOT_MEET_DATA_TYPE_SPECIFICATION"
  const AddCommentMissing := "ADD_COMMENT.NOT_CONTAIN_NEEDED_PROPERTY"
  const AddCommentMistyped := "ADD_COMMENT.NOT_MEET_DATA_TYPE_SPECIFICATION"
  const DeleteCommentMissing := "DELETE_COMMENT.NOT_CONTAIN_NEEDED_PROPERTY"
  const DeleteCommentMistyped := "DELETE_COMMENT.NOT_MEET_DATA_TYPE_SPECIFICATION"
  const GetThreadDetailsMissing := "GET_THREAD_DETAILS.NOT_CONTAIN_NEEDED_PROPERTY"
  const GetThreadDetailsMistyped := "GET_THREAD_DETAILS.NOT_MEET_DATA_TYPE_SPECIFICATION"
  const ThreadNotFound := "VERIFY_THREAD.DATA_NOT_FOUND"
  const ThreadDetailsNotFound := "GET_THREAD_DETAILS.DATA_NOT_FOUND"
  const CommentNotFound := "VERIFY_COMMENT.DATA_NOT_FOUND"
  const CommentInvalidOwner := "VERIFY_COMMENT.INVALID_OWNER"

  /** The translation table, keyed by error message: the account and
      authentication entries, then the thread entries, then the comment
      entries. The three parts have no key in common. */
  const Directory: map<string, Error> := AccountDirectory + ThreadDirectory + CommentDirectory

  const AccountDirectory: map<string, Error> := map[
    "REGISTER_USER.NOT_CONTAIN_NEEDED_PROPERTY" :=
      Error(InvariantError, "tidak dapat membuat user baru karena properti yang dibutuhkan tidak ada"),
    "REGISTER_USER.NOT_MEET_DATA_TYPE_SPECIFICATION" :=
      Error(InvariantError, "tidak dapat membuat user baru karena tipe data tidak sesuai"),
    "REGISTER_USER.USERNAME_LIMIT_CHAR" :=
      Error(InvariantError, "tidak dapat membuat user baru karena karakter username melebihi batas limit"),
    "REGISTER_USER.USERNAME_CONTAIN_RESTRICTED_CHARACTER" :=
      Error(InvariantError, "tidak dapat membuat user baru karena username mengandung karakter terlarang"),
    "USER_LOGIN.NOT_CONTAIN_NEEDED_PROPERTY" :=
      Error(InvariantError, "harus mengirimkan username dan password"),
    "USER_LOGIN.NOT_MEET_DATA_TYPE_SPECIFICATION" :=
      Error(InvariantError, "username dan password harus string"),
    "REFRESH_AUTHENTICATION_USE_CASE.NOT_CONTAIN_REFRESH_TOKEN" :=
      Error(InvariantError, "harus mengirimkan token refresh"),
    "REFRESH_AUTHENTICATION_USE_CASE.PAYLOAD_NOT_MEET_DATA_TYPE_SPECIFICATION" :=
      Error(InvariantError, "refresh token harus string"),
    "DELETE_AUTHENTICATION_USE_CASE.NOT_CONTAIN_REFRESH_TOKEN" :=
      Error(InvariantError, "harus mengirimkan token refresh"),
    "DELETE_AUTHENTICATION_USE_CASE.PAYLOAD_NOT_MEET_DATA_TYPE_SPECIFICATION" :=
      Error(InvariantError, "refresh token harus string")
  ]

  const ThreadDirectory: map<string, Error> := map[
    AddThreadMissing :=
      Error(InvariantError, "tidak dapat membuat thread baru karena properti yang dibutuhkan tidak ada"),
    AddThreadMistyped :=
      Error(InvariantError, "tidak dapat membuat thread baru karena tipe data tidak sesuai"),
    ThreadNotFound :=
      Error(NotFoundError, "tidak dapat menemukan data thread"),
    GetThreadDetailsMissing :=
      Error(InvariantError, "tidak dapat mendapatkan thread karena properti yang dibutuhkan tidak ada"),
    GetThreadDetailsMistyped :=
      Error(InvariantError, "tidak dapat mendapatkan thread karena tipe data tidak sesuai")
  ]

  const CommentDirectory: map<string, Error> := map[
    AddCommentMissing :=
      Error(InvariantError, "tidak dapat membuat comment baru karena properti yang dibutuhkan tidak ada"),
    AddCommentMistyped :=
      Error(InvariantError, "tidak dapat membuat comment baru karena tipe data tidak sesuai"),
    CommentNotFound :=
      Error(NotFoundError, "tidak dapat menemukan data comment"),
    CommentInvalidOwner :=
      Error(AuthorizationError, "anda tidak dapat mengakses comment ini")
  ]

  predicate EndsWith(s: string, suffix: string) {
    |suffix| <= |s| && s[|s| - |suffix|..] == suffix
  }

  /** Machine codes are written in upper case: every key of the table ends
      in an upper-case letter, while every translated message ends in a
      lower-case one. */
  predicate EndsUpper(s: string) {
    |s| > 0 && 'A' <= s[|s| - 1] <= 'Z'
  }

  /** The account and authentication entries: all InvariantErrors under
      codes that end in neither suffix the repositories use. */
  lemma AccountShape(k: string)
    requires k in AccountDirectory
    ensures EndsUpper(k) && !EndsUpper(AccountDirectory[k].message)
    ensures AccountDirectory[k].kind == InvariantError
    ensures !EndsWith(k, ".DATA_NOT_FOUND") && !EndsWith(k, ".INVALID_OWNER")
  {
  }

  /** The thread entries: one NotFoundError, the rest InvariantErrors. */
  lemma ThreadShape(k: string)
    requires k in ThreadDirectory
    ensures EndsUpper(k) && !EndsUpper(ThreadDirectory[k].message)
    ensures ThreadDirectory[k].kind == NotFoundError <==> EndsWith(k, ".DATA_NOT_FOUND")
    ensures ThreadDirectory[k].kind == InvariantError <==> !EndsWith(k, ".DATA_NOT_FOUND")
    ensures !EndsWith(k, ".INVALID_OWNER")
  {
  }

  /** The comment entries: two InvariantErrors, a NotFoundError and an
      AuthorizationError. */
  lemma CommentShape(k: string)
    requires k in CommentDirectory
    ensures EndsUpper(k) && !EndsUpper(CommentDirectory[k].message)
    ensures CommentDirectory[k].kind == NotFoundError <==> EndsWith(k, ".DATA_NOT_FOUND")
    ensures CommentDirectory[k].kind == AuthorizationError <==> EndsWith(k, ".INVALID_OWNER")
    ensures CommentDirectory[k].kind == InvariantError <==>
      !EndsWith(k, ".DATA_NOT_FOUND") && !EndsWith(k, ".INVALID_OWNER")
  {
  }

  /** The entry of a key, read from the part of the table that holds it. */
  lemma DirectoryParts(k: string)
    requires k in Directory
    ensures k in CommentDirectory ==> Directory[k] == CommentDirectory[k]
    ensures k !in CommentDirectory && k in ThreadDirectory ==> Directory[k] == ThreadDirectory[k]
    ensures k !in CommentDirectory && k !in ThreadDirectory ==>
      k in AccountDirectory && Directory[k] == AccountDirectory[k]
  {
  }

  /** Shape of the table: keys look like codes, translated messages do not,
      and every translation is a classified error. */
  lemma DirectoryShape(k: string)
    requires k in Directory
    ensures EndsUpper(k)
    ensures !EndsUpper(Directory[k].message)
    ensures IsClassified(Directory[k].kind)
  {
    KindFollowsSuffix(k);
  }

  /** The class of a translated error follows the suffix of its code. */
  lemma KindFollowsSuffix(k: string)
    requires k in Directory
    ensures EndsUpper(k) && !EndsUpper(Directory[k].message)
    ensures Directory[k].kind == NotFoundError <==> EndsWith(k, ".DATA_NOT_FOUND")
    ensures Directory[k].kind == AuthorizationError <==> EndsWith(k, ".INVALID_OWNER")
    ensures Directory[k].kind == InvariantError <==>
      !EndsWith(k, ".DATA_NOT_FOUND") && !EndsWith(k, ".INVALID_OWNER")
  {
    DirectoryParts(k);
    if k in CommentDirectory {
      CommentShape(k);
    } else if k in ThreadDirectory {
      ThreadShape(k);
    } else {
      AccountShape(k);
    }
  }

  /** `DomainErrorTranslator.translate(error)`: the table's entry for the
      error's message, or the error itself when the message is not a key.
      The class of the incoming error plays no part. */
  function Translate(e: Error): (r: Error)
    ensures e.message in Directory ==> r == Directory[e.message]
    ensures r == e <==> e.message !in Directory
    ensures r != e ==> IsClassified(r.kind) && !EndsUpper(r.message)
  {
    if e.message in Directory then
      DirectoryShape(e.message);
      Directory[e.message]
    else
      e
  }

  /** Translating twice is translating once: no translated message is
      itself a key of the table. */
  lemma TranslateIdempotent(e: Error)
    ensures Translate(Translate(e)) == Translate(e)
  {
    var t := Translate(e);
    if t != e && t.message in Directory {
      DirectoryShape(t.message);
    }
  }

  /** Only the message selects the entry: two errors with the same message
      translate alike whenever the message is a key. */
  lemma TranslateIgnoresKind(e1: Error, e2: Error)
    requires e1.message == e2.message && e1.message in Directory
    ensures Translate(e1) == Translate(e2)
  {
  }

  // Facts about individual codes are read off the part of the table that
  // holds them, so that each proof looks at one small map at a time.

  /** The translation of a code, read from the part of the table that holds
      it; a code in no part is left as it is. */
  lemma TranslateByPart(k: ErrorKind, c: string)
    ensures c in CommentDirectory ==> Translate(Error(k, c)) == CommentDirectory[c]
    ensures c !in CommentDirectory && c in ThreadDirectory ==> Translate(Error(k, c)) == ThreadDirectory[c]
    ensures c !in CommentDirectory && c !in ThreadDirectory && c !in AccountDirectory ==>
      Translate(Error(k, c)) == Error(k, c)
  {
  }

  /** The thread codes of this model and their entries. */
  lemma ThreadEntries()
    ensures AddThreadMissing in ThreadDirectory && AddThreadMissing !in CommentDirectory
    ensures AddThreadMistyped in ThreadDirectory && AddThreadMistyped !in CommentDirectory
    ensures GetThreadDetailsMissing in ThreadDirectory && GetThreadDetailsMissing !in CommentDirectory
    ensures GetThreadDetailsMistyped in ThreadDirectory && GetThreadDetailsMistyped !in CommentDirectory
    ensures ThreadNotFound in ThreadDirectory && ThreadNotFound !in CommentDirectory
    ensures ThreadDirectory[AddThreadMissing].kind == InvariantError
    ensures ThreadDirectory[AddThreadMistyped].kind == InvariantError
    ensures ThreadDirectory[GetThreadDetailsMissing].kind == InvariantError
    ensures ThreadDirectory[GetThreadDetailsMistyped].kind == InvariantError
    ensures ThreadDirectory[ThreadNotFound] == Error(NotFoundError, "tidak dapat menemukan data thread")
  {
  }

  /** The comment codes of this model and their entries. */
  lemma CommentEntries()
    ensures AddCommentMissing in CommentDirectory && AddCommentMistyped in CommentDirectory
    ensures CommentNotFound in CommentDirectory && CommentInvalidOwner in CommentDirectory
    ensures CommentDirectory[AddCommentMissing].kind == InvariantError
    ensures CommentDirectory[AddCommentMistyped].kind == InvariantError
    ensures CommentDirectory[CommentNotFound] == Error(NotFoundError, "tidak dapat menemukan data comment")
    ensures CommentDirectory[CommentInvalidOwner] ==
      Error(AuthorizationError, "anda tidak dapat mengakses comment ini")
  {
  }

  /** The delete-comment codes and the code `getThreadById` raises are in
      no part of the table. */
  lemma MissingEntries()
    ensures DeleteCommentMissing !in CommentDirectory && DeleteCommentMissing !in ThreadDirectory
    ensures DeleteCommentMissing !in AccountDirectory
    ensures DeleteCommentMistyped !in CommentDirectory && DeleteCommentMistyped !in ThreadDirectory
    ensures DeleteCommentMistyped !in AccountDirectory
    ensures ThreadDetailsNotFound !in CommentDirectory && ThreadDetailsNotFound !in ThreadDirectory
    ensures ThreadDetailsNotFound !in AccountDirectory
  {
  }

  /** The codes the delete-comment request and `getThreadById` raise are not
      keys, so they reach the boundary untranslated. */
  lemma UntranslatedCodes(k: ErrorKind)
    ensures Translate(Error(k, DeleteCommentMissing)) == Error(k, DeleteCommentMissing)
    ensures Translate(Error(k, DeleteCommentMistyped)) == Error(k, DeleteCommentMistyped)
    ensures Translate(Error(k, ThreadDetailsNotFound)) == Error(k, ThreadDetailsNotFound)
  {
    MissingEntries();
    TranslateByPart(k, DeleteCommentMissing);
    TranslateByPart(k, DeleteCommentMistyped);
    TranslateByPart(k, ThreadDetailsNotFound);
  }

  /** The entries the forum's own repositories rely on. */
  lemma RepositoryCodesTranslate(k: ErrorKind)
    ensures Translate(Error(k, ThreadNotFound)) == Error(NotFoundError, "tidak dapat menemukan data thread")
    ensures Translate(Error(k, CommentNotFound)) == Error(NotFoundError, "tidak dapat menemukan data comment")
    ensures Translate(Error(k, CommentInvalidOwner)) ==
      Error(AuthorizationError, "anda tidak dapat mengakses comment ini")
  {
    ThreadEntries();
    CommentEntries();
    TranslateByPart(k, ThreadNotFound);
    TranslateByPart(k, CommentNotFound);
    TranslateByPart(k, CommentInvalidOwner);
  }

  /** The codes of the thread, comment and thread-details requests are keys
      of the table, and each becomes an InvariantError. */
  lemma RequestCodesTranslate(k: ErrorKind)
    ensures Translate(Error(k, AddThreadMissing)).kind == InvariantError
    ensures Translate(Error(k, AddThreadMistyped)).kind == InvariantError
    ensures Translate(Error(k, AddCommentMissing)).kind == InvariantError
    ensures Translate(Error(k, AddCommentMistyped)).kind == InvariantError
    ensures Translate(Error(k, GetThreadDetailsMissing)).kind == InvariantError
    ensures Translate(Error(k, GetThreadDetailsMistyped)).kind == InvariantError
  {
    ThreadEntries();
    CommentEntries();
    TranslateByPart(k, AddThreadMissing);
    TranslateByPart(k, AddThreadMistyped);
    TranslateByPart(k, AddCommentMissing);
    TranslateByPart(k, AddCommentMistyped);
    TranslateByPart(k, GetThreadDetailsMissing);
    TranslateByPart(k, GetThreadDetailsMistyped);
  }
}
