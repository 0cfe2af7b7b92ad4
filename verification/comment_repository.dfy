/** CommentRepositoryPostgres as operations on the abstract store: each
    query's WHERE clause becomes a predicate over the rows of `comments`. */
module CommentRepository {
  import opened Results
  import opened Errors
  import opened Store
  import E = Entities

  /** The id `addComment` gives a new comment. */
  function NewCommentId(o: Oracle): string {
    "comment-" + o.idSuffix
  }

  // ------------------------------------------------------------- row search

  /** The index of the first row `keep` selects: `result.rows[0]`. */
  function FirstMatch(rows: seq<CommentRow>, keep: CommentRow -> bool): (r: Option<nat>)
    ensures r.Some? ==> r.value < |rows| && keep(rows[r.value])
    ensures r.Some? ==> forall j :: 0 <= j < r.value ==> !keep(rows[j])
    ensures r.None? <==> forall j :: 0 <= j < |rows| ==> !keep(rows[j])
  {
    if |rows| == 0 then None
    else if keep(rows[0]) then Some(0)
    else
      match FirstMatch(rows[1..], keep)
      case None => None
      case Some(i) => Some(i + 1)
  }

  /** The columns `id, content, user_id, thread_id` the single-row queries select. */
  datatype CommentSummary = CommentSummary(id: string, content: string, userId: string, threadId: string)

  function Summary(row: CommentRow): CommentSummary {
    CommentSummary(row.id, row.content, row.userId, row.threadId)
  }

  /** `WHERE id = $1 AND is_delete = FALSE`: a NULL flag does not match. */
  predicate NotDeletedStrict(row: CommentRow, id: string) {
    row.id == id && row.isDelete == SqlFalse
  }

  /** `WHERE id = $1 AND is_delete IS NOT TRUE`: a NULL flag matches. */
  predicate Available(row: CommentRow, id: string) {
    row.id == id && row.isDelete != SqlTrue
  }

  /** `WHERE id = $1 AND user_id = $2`, whatever the flag. */
  predicate OwnedBy(row: CommentRow, id: string, userId: string) {
    row.id == id && row.userId == userId
  }

  /** Some row matches `WHERE id = $1 AND is_delete = FALSE`. */
  predicate FoundStrict(s: Store, commentId: string) {
    exists i :: 0 <= i < |s.comments| && NotDeletedStrict(s.comments[i], commentId)
  }

  /** Some row matches `WHERE id = $1 AND is_delete IS NOT TRUE`. */
  predicate IsAvailable(s: Store, commentId: string) {
    exists i :: 0 <= i < |s.comments| && Available(s.comments[i], commentId)
  }

  /** Some row matches `WHERE id = $1 AND user_id = $2`. */
  predicate IsOwner(s: Store, commentId: string, userId: string) {
    exists i :: 0 <= i < |s.comments| && OwnedBy(s.comments[i], commentId, userId)
  }

  // ---------------------------------------------------------------- queries

  /** `addComment(addComment)`: append one row and return its id, content and owner. */
  function AddComment(s: Store, c: E.AddComment, o: Oracle): (r: Step<E.AddedComment>)
    ensures r.result.Ok? <==> !HasComment(s.comments, NewCommentId(o))
    ensures r.result.Ok? ==>
      && r.result.value == E.AddedComment(NewCommentId(o), c.content, c.userId)
      && r.store.comments ==
         s.comments + [CommentRow(NewCommentId(o), c.content, c.userId, c.threadId, o.isDeleteDefault, o.now)]
    ensures r.store.users == s.users && r.store.threads == s.threads
    ensures r.result.Err? ==> r.store == s && r.result.error == Error(DatabaseError, NewCommentId(o))
  {
    var id := NewCommentId(o);
    match FirstMatch(s.comments, (row: CommentRow) => row.id == id)
    case Some(_) => Step(Err(Error(DatabaseError, id)), s)
    case None =>
      var row := CommentRow(id, c.content, c.userId, c.threadId, o.isDeleteDefault, o.now);
      Step(Ok(E.AddedComment(id, c.content, c.userId)), s.(comments := s.comments + [row]))
  }

  /** `getCommentById(commentId)`: InvariantError unless a row with that id
      has its flag set to FALSE. */
  function GetCommentById(s: Store, commentId: string): (r: Result<CommentSummary, Error>)
    ensures r.Ok? <==> FoundStrict(s, commentId)
    ensures r.Ok? ==>
      exists i :: 0 <= i < |s.comments| && NotDeletedStrict(s.comments[i], commentId) && r.value == Summary(s.comments[i])
    ensures r.Err? ==> r.error == Error(InvariantError, "comment tidak ditemukan")
  {
    match FirstMatch(s.comments, (row: CommentRow) => NotDeletedStrict(row, commentId))
    case Some(i) => Ok(Summary(s.comments[i]))
    case None => Err(Error(InvariantError, "comment tidak ditemukan"))
  }

  /** `verifyCommentAvailability(commentId)`: NotFoundError unless a row
      with that id is not soft-deleted. */
  function VerifyCommentAvailability(s: Store, commentId: string): (r: Result<CommentSummary, Error>)
    ensures r.Ok? <==> IsAvailable(s, commentId)
    ensures r.Ok? ==>
      exists i :: 0 <= i < |s.comments| && Available(s.comments[i], commentId) && r.value == Summary(s.comments[i])
    ensures r.Err? ==> r.error == Error(NotFoundError, CommentNotFound)
  {
    match FirstMatch(s.comments, (row: CommentRow) => Available(row, commentId))
    case Some(i) => Ok(Summary(s.comments[i]))
    case None => Err(Error(NotFoundError, CommentNotFound))
  }

  /** `verifyCommentOwner(deleteComment)`: AuthorizationError unless a row
      has both the comment id and the user id, deleted or not. */
  function VerifyCommentOwner(s: Store, d: E.DeleteComment): (r: Result<CommentSummary, Error>)
    ensures r.Ok? <==> IsOwner(s, d.commentId, d.userId)
    ensures r.Ok? ==>
      exists i :: 0 <= i < |s.comments| && OwnedBy(s.comments[i], d.commentId, d.userId) && r.value == Summary(s.comments[i])
    ensures r.Err? ==> r.error == Error(AuthorizationError, CommentInvalidOwner)
  {
    match FirstMatch(s.comments, (row: CommentRow) => OwnedBy(row, d.commentId, d.userId))
    case Some(i) => Ok(Summary(s.comments[i]))
    case None => Err(Error(AuthorizationError, CommentInvalidOwner))
  }

  // ------------------------------------------------------------ soft delete

  /** `UPDATE comments SET is_delete = TRUE WHERE id = $1` on the rows. */
  function SetDeleted(rows: seq<CommentRow>, id: string): (r: seq<CommentRow>)
    ensures |r| == |rows|
    ensures forall i :: 0 <= i < |rows| ==>
      r[i] == if rows[i].id == id then rows[i].(isDelete := SqlTrue) else rows[i]
  {
    if |rows| == 0 then []
    else [if rows[0].id == id then rows[0].(isDelete := SqlTrue) else rows[0]] + SetDeleted(rows[1..], id)
  }

  /** The UPDATE's `rowCount`: how many rows have that id. */
  function MatchCount(rows: seq<CommentRow>, id: string): nat {
    if |rows| == 0 then 0
    else (if rows[0].id == id then 1 else 0) + MatchCount(rows[1..], id)
  }

  /** The row count is positive exactly when a row has that id, and with a
      primary key on `id` it is 1 in that case. */
  lemma {:induction false} MatchCountSpec(rows: seq<CommentRow>, id: string)
    ensures MatchCount(rows, id) > 0 <==> HasComment(rows, id)
    ensures UniqueCommentIds(rows) ==> MatchCount(rows, id) == if HasComment(rows, id) then 1 else 0
  {
    if |rows| > 0 {
      MatchCountSpec(rows[1..], id);
      assert forall j :: 1 <= j < |rows| ==> rows[j] == rows[1..][j - 1];
      if HasComment(rows[1..], id) {
        var j :| 0 <= j < |rows[1..]| && rows[1..][j].id == id;
        assert rows[j + 1].id == id;
      }
      if UniqueCommentIds(rows) {
        assert UniqueCommentIds(rows[1..]);
      }
    }
  }

  /** `deleteCommentById(deleteComment)`: flag every row with the comment id
      as deleted and return how many rows the UPDATE touched. Already
      deleted rows match too: the WHERE clause has no `is_delete` filter. */
  function DeleteCommentById(s: Store, d: E.DeleteComment): (r: Step<nat>)
    ensures r.result.Ok?
    ensures r.result.value > 0 <==> HasComment(s.comments, d.commentId)
    ensures UniqueCommentIds(s.comments) ==>
      r.result.value == if HasComment(s.comments, d.commentId) then 1 else 0
    ensures r.store.users == s.users && r.store.threads == s.threads
    ensures |r.store.comments| == |s.comments|
    ensures forall i :: 0 <= i < |s.comments| ==>
      r.store.comments[i] ==
        if s.comments[i].id == d.commentId then s.comments[i].(isDelete := SqlTrue) else s.comments[i]
  {
    MatchCountSpec(s.comments, d.commentId);
    Step(Ok(MatchCount(s.comments, d.commentId)), s.(comments := SetDeleted(s.comments, d.commentId)))
  }

  // ---------------------------------------------------------------- listing

  /** A row of `getCommentsByThreadId`: `c.id, u.username, c.date, c.content, c.is_delete`. */
  datatype CommentListing = CommentListing(id: string, username: string, date: int, content: string, isDelete: SqlBool)

  /** `comments c JOIN users u ON c.user_id = u.id WHERE c.thread_id = $1`. */
  predicate Joins(row: CommentRow, users: map<string, User>, threadId: string) {
    row.threadId == threadId && row.userId in users
  }

  function Listing(row: CommentRow, users: map<string, User>): CommentListing
    requires row.userId in users
  {
    CommentListing(row.id, users[row.userId].username, row.date, row.content, row.isDelete)
  }

  /** The number of rows the join keeps. */
  function JoinCount(rows: seq<CommentRow>, users: map<string, User>, threadId: string): nat {
    if |rows| == 0 then 0
    else (if Joins(rows[0], users, threadId) then 1 else 0) + JoinCount(rows[1..], users, threadId)
  }

  /** The joined rows of one thread, in table order: one listing per kept
      row, so with a primary key no listing occurs twice. */
  function JoinThread(rows: seq<CommentRow>, users: map<string, User>, threadId: string): (r: seq<CommentListing>)
    ensures forall x :: x in r <==>
      exists i :: 0 <= i < |rows| && Joins(rows[i], users, threadId) && x == Listing(rows[i], users)
    ensures |r| == JoinCount(rows, users, threadId)
    ensures UniqueCommentIds(rows) ==> forall x :: multiset(r)[x] <= 1
  {
    if |rows| == 0 then []
    else
      var rest := JoinThread(rows[1..], users, threadId);
      assert forall j :: 1 <= j < |rows| ==> rows[j] == rows[1..][j - 1];
      if Joins(rows[0], users, threadId) then
        var head := Listing(rows[0], users);
        assert UniqueCommentIds(rows) ==> head !in rest && UniqueCommentIds(rows[1..]);
        [head] + rest
      else
        assert UniqueCommentIds(rows) ==> UniqueCommentIds(rows[1..]);
        rest
  }

  predicate SortedByDate(xs: seq<CommentListing>) {
    forall i, j :: 0 <= i < j < |xs| ==> xs[i].date <= xs[j].date
  }

  /** Insert `x` before the first element whose date is not earlier. */
  function Insert(x: CommentListing, xs: seq<CommentListing>): (r: seq<CommentListing>)
    requires SortedByDate(xs)
    ensures SortedByDate(r)
    ensures multiset(r) == multiset(xs) + multiset{x}
  {
    if |xs| == 0 then [x]
    else if x.date <= xs[0].date then
      InsertFront(x, xs);
      [x] + xs
    else
      SortedTail(xs);
      var rest := Insert(x, xs[1..]);
      InsertBehind(x, xs, rest);
      [xs[0]] + rest
  }

  /** The tail of a sorted list is sorted. */
  lemma SortedTail(xs: seq<CommentListing>)
    requires |xs| > 0 && SortedByDate(xs)
    ensures SortedByDate(xs[1..])
  {
    forall i, j | 0 <= i < j < |xs| - 1 ensures xs[1..][i].date <= xs[1..][j].date {
      assert xs[1..][i] == xs[i + 1] && xs[1..][j] == xs[j + 1];
    }
  }

  /** An element no later than the head of a sorted list may go in front. */
  lemma InsertFront(x: CommentListing, xs: seq<CommentListing>)
    requires |xs| > 0 && SortedByDate(xs) && x.date <= xs[0].date
    ensures SortedByDate([x] + xs)
  {
    forall y | y in xs ensures x.date <= y.date {
      var i :| 0 <= i < |xs| && xs[i] == y;
    }
    PrependSorted(x, xs);
  }

  /** An element later than the head goes behind it: the head followed by
      the tail with the element inserted is sorted and holds everything. */
  lemma InsertBehind(x: CommentListing, xs: seq<CommentListing>, rest: seq<CommentListing>)
    requires |xs| > 0 && SortedByDate(xs) && xs[0].date < x.date
    requires SortedByDate(rest) && multiset(rest) == multiset(xs[1..]) + multiset{x}
    ensures SortedByDate([xs[0]] + rest)
    ensures multiset([xs[0]] + rest) == multiset(xs) + multiset{x}
  {
    assert xs == [xs[0]] + xs[1..];
    forall y | y in rest ensures xs[0].date <= y.date {
      assert y in multiset(rest);
      if y != x {
        assert y in multiset(xs[1..]);
        var i :| 0 <= i < |xs[1..]| && xs[1..][i] == y;
        assert xs[i + 1] == y;
      }
    }
    PrependSorted(xs[0], rest);
  }

  /** A sorted list stays sorted under an element no later than any of it. */
  lemma PrependSorted(y: CommentListing, rest: seq<CommentListing>)
    requires SortedByDate(rest)
    requires forall z :: z in rest ==> y.date <= z.date
    ensures SortedByDate([y] + rest)
  {
    var r := [y] + rest;
    forall i, j | 0 <= i < j < |r| ensures r[i].date <= r[j].date {
      assert r[j] == rest[j - 1];
      if i > 0 {
        assert r[i] == rest[i - 1];
      } else {
        assert rest[j - 1] in rest;
      }
    }
  }

  /** `ORDER BY c.date ASC`, by insertion sort; rows with equal dates keep
      their table order. */
  function SortByDate(xs: seq<CommentListing>): (r: seq<CommentListing>)
    ensures SortedByDate(r)
    ensures multiset(r) == multiset(xs)
  {
    if |xs| == 0 then []
    else
      assert xs == [xs[0]] + xs[1..];
      Insert(xs[0], SortByDate(xs[1..]))
  }

  /** `getCommentsByThreadId(threadId)`: every comment of the thread whose
      author exists, deleted ones included, ascending by date. */
  function GetCommentsByThreadId(s: Store, threadId: string): (r: seq<CommentListing>)
    ensures SortedByDate(r)
    ensures multiset(r) == multiset(JoinThread(s.comments, s.users, threadId))
    ensures |r| == JoinCount(s.comments, s.users, threadId)
    ensures UniqueCommentIds(s.comments) ==> forall x :: multiset(r)[x] <= 1
    ensures forall x :: x in r <==>
      exists i :: 0 <= i < |s.comments| && Joins(s.comments[i], s.users, threadId) && x == Listing(s.comments[i], s.users)
  {
    var joined := JoinThread(s.comments, s.users, threadId);
    var r := SortByDate(joined);
    assert forall x :: x in r <==> x in multiset(r);
    assert forall x :: x in joined <==> x in multiset(joined);
    r
  }

  // ----------------------------------------------------------------- lemmas

  /** An insert keeps `comments.id` a key: it refuses a taken id. */
  lemma AddCommentKeepsKey(s: Store, c: E.AddComment, o: Oracle)
    requires UniqueCommentIds(s.comments)
    ensures UniqueCommentIds(AddComment(s, c, o).store.comments)
  {
    var added := AddComment(s, c, o);
    if added.result.Ok? {
      var rows := added.store.comments;
      forall i, j | 0 <= i < j < |rows| ensures rows[i].id != rows[j].id {
        if j == |s.comments| {
          assert rows[i] == s.comments[i];
        }
      }
    }
  }

  /** A soft delete keeps `comments.id` a key: it changes no id. */
  lemma DeleteCommentKeepsKey(s: Store, d: E.DeleteComment)
    requires UniqueCommentIds(s.comments)
    ensures UniqueCommentIds(DeleteCommentById(s, d).store.comments)
  {
  }

  /** A soft delete keeps the row but makes it unavailable: the
      availability check and `getCommentById` now fail on it. */
  lemma SoftDeleteKeepsRow(s: Store, d: E.DeleteComment)
    requires HasComment(s.comments, d.commentId)
    ensures HasComment(DeleteCommentById(s, d).store.comments, d.commentId)
    ensures VerifyCommentAvailability(DeleteCommentById(s, d).store, d.commentId) ==
      Err(Error(NotFoundError, CommentNotFound))
    ensures GetCommentById(DeleteCommentById(s, d).store, d.commentId).Err?
  {
    var after := DeleteCommentById(s, d).store;
    var k :| 0 <= k < |s.comments| && s.comments[k].id == d.commentId;
    assert after.comments[k].id == d.commentId;
    assert forall i :: 0 <= i < |after.comments| && after.comments[i].id == d.commentId ==>
      after.comments[i].isDelete == SqlTrue;
    assert !IsAvailable(after, d.commentId);
    assert !FoundStrict(after, d.commentId);
  }

  /** Setting the flag changes no row's id or author. */
  lemma SetDeletedKeepsOwners(rows: seq<CommentRow>, id: string, commentId: string, userId: string)
    ensures forall i :: 0 <= i < |rows| ==>
      (OwnedBy(SetDeleted(rows, id)[i], commentId, userId) <==> OwnedBy(rows[i], commentId, userId))
  {
  }

  /** The owner check ignores the flag, so a soft delete does not change
      its answer. */
  lemma OwnerCheckIgnoresDelete(s: Store, d: E.DeleteComment, owner: E.DeleteComment)
    ensures VerifyCommentOwner(DeleteCommentById(s, d).store, owner).Ok? == VerifyCommentOwner(s, owner).Ok?
  {
    var after := DeleteCommentById(s, d).store;
    assert after.comments == SetDeleted(s.comments, d.commentId);
    SetDeletedKeepsOwners(s.comments, d.commentId, owner.commentId, owner.userId);
    assert IsOwner(after, owner.commentId, owner.userId) <==> IsOwner(s, owner.commentId, owner.userId);
  }

  /** Deleting an already deleted comment touches its row again: the second
      call reports the same row count as the first, 1 under the key. */
  lemma DeleteAgainCountsRow(s: Store, d: E.DeleteComment)
    requires UniqueCommentIds(s.comments)
    requires HasComment(s.comments, d.commentId)
    ensures DeleteCommentById(s, d).result == Ok(1)
    ensures DeleteCommentById(DeleteCommentById(s, d).store, d).result == Ok(1)
  {
    DeleteCommentKeepsKey(s, d);
    var after := DeleteCommentById(s, d).store;
    var k :| 0 <= k < |s.comments| && s.comments[k].id == d.commentId;
    assert after.comments[k].id == d.commentId;
    assert HasComment(after.comments, d.commentId);
  }

  /** `getCommentById` is the stricter filter: whatever it finds is
      available. */
  lemma StrictFilterImpliesAvailable(s: Store, commentId: string)
    ensures GetCommentById(s, commentId).Ok? ==> VerifyCommentAvailability(s, commentId).Ok?
  {
    if GetCommentById(s, commentId).Ok? {
      var i :| 0 <= i < |s.comments| && NotDeletedStrict(s.comments[i], commentId);
      assert Available(s.comments[i], commentId);
    }
  }

  /** The two filters differ on NULL: a row whose flag is NULL is
      available, yet `getCommentById` does not find it. */
  lemma NullFlagSeparatesFilters(s: Store, k: nat)
    requires UniqueCommentIds(s.comments) && k < |s.comments| && s.comments[k].isDelete == SqlNull
    ensures VerifyCommentAvailability(s, s.comments[k].id) == Ok(Summary(s.comments[k]))
    ensures GetCommentById(s, s.comments[k].id) == Err(Error(InvariantError, "comment tidak ditemukan"))
  {
    var id := s.comments[k].id;
    assert Available(s.comments[k], id);
    assert forall i :: 0 <= i < |s.comments| && s.comments[i].id == id ==> i == k;
  }
}
