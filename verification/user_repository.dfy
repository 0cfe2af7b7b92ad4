/** The user lookup the use cases call before any other collaborator. */
module UserRepository {
  import opened Results
  import opened Errors
  import opened Store

  /** The error a failed user lookup throws. UserRepositoryPostgres is not
      part of this model, so the message here only stands for its own. */
  const UserNotFound := Error(NotFoundError, "USER.DATA_NOT_FOUND")

  /** `getUserById(id)`: the user row, or a NotFoundError when there is none. */
  function GetUserById(s: Store, id: string): (r: Result<User, Error>)
    ensures r.Ok? <==> id in s.users
    ensures r.Ok? ==> r.value == s.users[id]
    ensures r.Err? ==> r.error == UserNotFound
  {
    if id in s.users then Ok(s.users[id]) else Err(UserNotFound)
  }
}
