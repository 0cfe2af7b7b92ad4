/** ThreadRepositoryPostgres as operations on the abstract store. */
module ThreadRepository {
  import opened Results
  import opened Errors
  import opened Store
  import E = Entities

  /** The id `addThread` gives a new thread. */
  function NewThreadId(o: Oracle): string {
    "thread-" + o.idSuffix
  }

  /** The error an insert reports when the generated id is already taken. */
  function DuplicateKey(id: string): Error {
    Error(DatabaseError, id)
  }

  /** `addThread(addThread)`: insert one row and return its id, title and owner. */
  function AddThread(s: Store, t: E.AddThread, o: Oracle): (r: Step<E.AddedThread>)
    ensures r.result.Ok? <==> NewThreadId(o) !in s.threads
    ensures r.result.Ok? ==>
      && r.result.value == E.AddedThread(NewThreadId(o), t.title, t.userId)
      && r.store.threads.Keys == s.threads.Keys + {NewThreadId(o)}
      && r.store.threads[NewThreadId(o)] == ThreadRow(t.title, t.body, t.userId, o.now)
      && |r.store.threads| == |s.threads| + 1
    ensures forall id :: id in s.threads ==> id in r.store.threads && r.store.threads[id] == s.threads[id]
    ensures r.store.users == s.users && r.store.comments == s.comments
    ensures r.result.Err? ==> r.store == s && r.result.error == DuplicateKey(NewThreadId(o))
  {
    var id := NewThreadId(o);
    if id in s.threads then
      Step(Err(DuplicateKey(id)), s)
    else
      Step(Ok(E.AddedThread(id, t.title, t.userId)),
           s.(threads := s.threads[id := ThreadRow(t.title, t.body, t.userId, o.now)]))
  }

  /** What `getThreadById` returns: the thread joined with its author's name. */
  datatype ThreadRecord = ThreadRecord(id: string, title: string, body: string, date: int, username: string)

  /** `getThreadById(threadId)`: the thread row joined with `users` on its
      owner; NotFoundError when no joined row exists. */
  function GetThreadById(s: Store, threadId: string): (r: Result<ThreadRecord, Error>)
    ensures r.Ok? <==> threadId in s.threads && s.threads[threadId].userId in s.users
    ensures r.Ok? ==>
      var row := s.threads[threadId];
      r.value == ThreadRecord(threadId, row.title, row.body, row.date, s.users[row.userId].username)
    ensures r.Err? ==> r.error == Error(NotFoundError, ThreadDetailsNotFound)
  {
    if threadId in s.threads && s.threads[threadId].userId in s.users then
      var row := s.threads[threadId];
      Ok(ThreadRecord(threadId, row.title, row.body, row.date, s.users[row.userId].username))
    else
      Err(Error(NotFoundError, ThreadDetailsNotFound))
  }

  /** `verifyAvailableThreadById(threadId)`: true when the thread exists,
      NotFoundError otherwise. */
  function VerifyAvailableThreadById(s: Store, threadId: string): (r: Result<bool, Error>)
    ensures r.Ok? <==> threadId in s.threads
    ensures r.Ok? ==> r.value
    ensures r.Err? ==> r.error == Error(NotFoundError, ThreadNotFound)
  {
    if threadId in s.threads then Ok(true) else Err(Error(NotFoundError, ThreadNotFound))
  }

  /** A thread that `getThreadById` finds also passes the availability
      check; the converse fails only for a thread whose owner is gone. */
  lemma FoundThreadIsAvailable(s: Store, threadId: string)
    ensures GetThreadById(s, threadId).Ok? ==> VerifyAvailableThreadById(s, threadId) == Ok(true)
    ensures VerifyAvailableThreadById(s, threadId).Ok? && GetThreadById(s, threadId).Err? ==>
      s.threads[threadId].userId !in s.users
  {
  }

  /** After a successful insert the new thread can be verified and, when its
      owner exists, read back with the title and body it was given. */
  lemma AddThenRead(s: Store, t: E.AddThread, o: Oracle)
    requires AddThread(s, t, o).result.Ok?
    ensures VerifyAvailableThreadById(AddThread(s, t, o).store, NewThreadId(o)) == Ok(true)
    ensures t.userId in s.users ==>
      GetThreadById(AddThread(s, t, o).store, NewThreadId(o)) ==
        Ok(ThreadRecord(NewThreadId(o), t.title, t.body, o.now, s.users[t.userId].username))
  {
  }
}
