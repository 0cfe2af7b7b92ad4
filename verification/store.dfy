/** The relational state the repositories read and write, abstracted from
    the Postgres tables `users`, `threads` and `comments`. */
module Store {
  import opened Results
  import opened Errors

  /** A nullable SQL boolean, as node-postgres returns it: true, false or null. */
  datatype SqlBool = SqlTrue | SqlFalse | SqlNull

  /** JavaScript truthiness of a returned `is_delete` column: only TRUE is
      truthy, NULL reads as `null`. */
  predicate FlagTruthy(b: SqlBool) {
    b == SqlTrue
  }

  /** A row of `users`, keyed by its id in the store. */
  datatype User = User(username: string)

  /** A row of `threads`, keyed by its id in the store. `date` is the
      column's creation timestamp, an opaque ordered integer here. */
  datatype ThreadRow = ThreadRow(title: string, body: string, userId: string, date: int)

  /** A row of `comments`. */
  datatype CommentRow = CommentRow(
    id: string,
    content: string,
    userId: string,
    threadId: string,
    isDelete: SqlBool,
    date: int)

  /** The database. Comments are kept as a sequence of rows in insertion
      order, so that a listing ordered by date has a definite order on ties. */
  datatype Store = Store(
    users: map<string, User>,
    threads: map<string, ThreadRow>,
    comments: seq<CommentRow>)

  /** A repository call that may change the store: its outcome and the
      store after it. */
  datatype Step<T> = Step(result: Result<T, Error>, store: Store)

  /** The values the repositories take from outside the store on an insert:
      the id generator's next value, the current time for the `date`
      column, and the column default of `is_delete`. */
  datatype Oracle = Oracle(idSuffix: string, now: int, isDeleteDefault: SqlBool)

  /** `comments.id` is the table's primary key. */
  predicate UniqueCommentIds(rows: seq<CommentRow>) {
    forall i, j :: 0 <= i < j < |rows| ==> rows[i].id != rows[j].id
  }

  /** Some row of `comments` has id `id`. */
  predicate HasComment(rows: seq<CommentRow>, id: string) {
    exists i :: 0 <= i < |rows| && rows[i].id == id
  }
}
