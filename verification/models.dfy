/**
 * The user record the store owns and the cache holds copies of, the two
 * request bodies the handlers bind, and the JSON documents the handlers
 * marshal into the cache.
 */
module Models {

  /** A password as stored: the hash of a plain-text password (salt not modelled). */
  datatype Password = HashOf(plain: string)

  function HashPassword(plain: string): Password {
    HashOf(plain)
  }

  datatype User = User(id: nat, name: string, username: string, email: string, password: Password)

  /** A body that gin bound and validated for CreateUser. */
  datatype CreateRequest = CreateRequest(name: string, username: string, email: string, password: string)

  /** A body that gin bound and validated for UpdateUser; an empty password keeps the old one. */
  datatype UpdateRequest = UpdateRequest(name: string, username: string, email: string, password: string)

  /**
   * A JSON document held in the cache: what json.Marshal produces for a
   * list of users or for one user, or bytes that do not unmarshal at all.
   */
  datatype Doc = UserList(users: seq<User>) | UserRecord(user: User) | Malformed
}
