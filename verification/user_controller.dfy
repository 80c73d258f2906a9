/**
 * The user HTTP handlers and their own cache scheme: one unpaginated list
 * key and one key per user, read through on FindUsers and FindUserById and
 * deleted by the mutations. The path parameter is kept as the text the
 * request carries: the cache key is built from that text, and the store
 * lookup from the row it resolves to. Time is counted in seconds.
 */
module UserController {
  import opened Wrappers
  import opened Strconv
  import opened Models
  import opened Redis
  import opened Database

  const UserListCacheKey: string := "users:list"
  const UserCachePrefix: string := "user:id:"
  const Minute: nat := 60
  const CacheTTL: nat := 5 * Minute
  const UserTTL: nat := 10 * Minute

  /** The HTTP status each handler answers with. */
  datatype Status = OK | Created | NotFound | Unprocessable | ServerError

  datatype Body = Empty | UserListBody(users: seq<User>) | UserBody(user: User)

  /** A response: its status, whether it was served from the cache, and its data. */
  datatype Response = Response(status: Status, fromCache: bool, body: Body)

  /** The cache key of one user: the prefix followed by the id exactly as the path spells it. */
  function UserKey(idParam: string): (k: string)
    ensures HasPrefix(k, UserCachePrefix)
    ensures k != UserListCacheKey
  {
    var k := UserCachePrefix + idParam;
    assert k[4] == ':' && UserListCacheKey[4] == 's';
    k
  }

  /** Distinct path spellings never share a cache key. */
  lemma UserKeyInjective(a: string, b: string)
    ensures UserKey(a) == UserKey(b) ==> a == b
  {
  }

  /**
   * The row DB.First(&user, id) looks for. gorm passes a path that Go reads
   * as an integer to MySQL as a primary-key condition, and MySQL reads it as
   * that number, so "7", "07" and "+7" all name row 7. A negative number or
   * any other text names no row.
   */
  function ResolveId(idParam: string): (r: Option<nat>)
    ensures r.Some? ==> ParseInt(idParam) == Some(r.value as int)
    ensures ParseInt(idParam).Some? && ParseInt(idParam).value >= 0 ==> r.Some?
  {
    match ParseInt(idParam)
    case Some(n) => if n >= 0 then Some(n) else None
    case None => None
  }

  /** The canonical decimal spelling of an id resolves to that id. */
  lemma ResolveCanonical(id: nat)
    requires id <= MaxInt64
    ensures ResolveId(FormatInt(id)) == Some(id)
  {
    ParseFormatRoundTrip(id);
  }

  /**
   * A zero-padded spelling resolves to the same row as the canonical one,
   * yet it has a different cache key.
   */
  lemma ZeroPaddedAlias(id: nat)
    requires id <= MaxInt64
    ensures ResolveId("0" + FormatInt(id)) == ResolveId(FormatInt(id)) == Some(id)
    ensures UserKey("0" + FormatInt(id)) != UserKey(FormatInt(id))
  {
    ResolveCanonical(id);
    var p := FormatInt(id);
    var q := "0" + p;
    DigitsValueOfDigits(id);
    LeadingZeroValue(p);
    assert Unsigned(q) == q;
    assert SignedValue(q) == id;
    assert |UserKey(q)| != |UserKey(p)|;
  }

  /** The list a cache hit on `users:list` yields: the value unmarshals as a list of users. */
  function CachedUsers(m: map<string, Entry>): (r: Option<seq<User>>)
    ensures r.Some? ==> UserListCacheKey in m && m[UserListCacheKey].value == Json(UserList(r.value))
  {
    match GetValue(m, UserListCacheKey)
    case Some(Json(UserList(users))) => Some(users)
    case _ => None
  }

  /** The user a cache hit on `user:id:<idParam>` yields: the value unmarshals as one user. */
  function CachedUser(m: map<string, Entry>, idParam: string): (r: Option<User>)
    ensures r.Some? ==> UserKey(idParam) in m && m[UserKey(idParam)].value == Json(UserRecord(r.value))
  {
    match GetValue(m, UserKey(idParam))
    case Some(Json(UserRecord(user))) => Some(user)
    case _ => None
  }

  /** Deleting other keys does not change what a read of `user:id:<idParam>` finds. */
  lemma CachedUserFrame(m: map<string, Entry>, gone: set<string>, idParam: string)
    requires UserKey(idParam) !in gone
    ensures CachedUser(m - gone, idParam) == CachedUser(m, idParam)
  {
  }

  /**
   * What the miss paths write is read back by the hit paths. This holds
   * because a JSON document is kept as the value it encodes; it restates
   * that abstraction of json.Marshal and json.Unmarshal rather than
   * deriving anything about JSON.
   */
  lemma CacheRoundTrip(m: map<string, Entry>, users: seq<User>, idParam: string, user: User, x: Expiry)
    ensures CachedUsers(m[UserListCacheKey := Entry(Json(UserList(users)), x)]) == Some(users)
    ensures CachedUser(m[UserKey(idParam) := Entry(Json(UserRecord(user)), x)], idParam) == Some(user)
  {
  }

  /**
   * GET /users. A cached list that unmarshals is returned with no query and
   * no write. Otherwise (a miss, or a value that does not unmarshal) the
   * store is queried: a failed query is a 500 that caches nothing; a
   * successful one is cached under `users:list` for CacheTTL and returned.
   */
  method FindUsers(rdb: Keyspace, db: Db, findFault: bool) returns (resp: Response)
    requires rdb.Valid() && db.Valid()
    modifies rdb`entries, db`roundTrips
    ensures rdb.Valid()
    ensures old(CachedUsers(rdb.entries)).Some? ==>
              && resp == Response(OK, true, UserListBody(old(CachedUsers(rdb.entries)).value))
              && unchanged(rdb) && unchanged(db)
    ensures old(CachedUsers(rdb.entries)).None? ==> db.roundTrips == old(db.roundTrips) + 1
    ensures old(CachedUsers(rdb.entries)).None? && findFault ==>
              resp == Response(ServerError, false, Empty) && unchanged(rdb)
    ensures old(CachedUsers(rdb.entries)).None? && !findFault ==>
              && resp == Response(OK, false, UserListBody(Rows(db.users, db.nextId)))
              && rdb.entries == old(rdb.entries)[UserListCacheKey := Entry(Json(UserList(resp.body.users)), ExpiresAt(rdb.now + CacheTTL))]
  {
    var v := rdb.Get(UserListCacheKey);
    if v.Some? && v.value.Json? && v.value.doc.UserList? {
      return Response(OK, true, UserListBody(v.value.doc.users));
    }
    var rows := db.Find(findFault);
    if rows.None? {
      return Response(ServerError, false, Empty);
    }
    rdb.Set(UserListCacheKey, Json(UserList(rows.value)), CacheTTL);
    resp := Response(OK, false, UserListBody(rows.value));
  }

  /**
   * POST /users. An invalid body is a 422 and a failed insert a 500, both
   * with no change. A successful insert deletes `users:list` and nothing
   * else, and answers 201 with the stored user.
   */
  method CreateUser(rdb: Keyspace, db: Db, req: Option<CreateRequest>, createFault: bool) returns (resp: Response)
    requires rdb.Valid() && db.Valid()
    modifies rdb`entries, db
    ensures rdb.Valid() && db.Valid()
    ensures req.None? ==> resp == Response(Unprocessable, false, Empty) && unchanged(rdb) && unchanged(db)
    ensures req.Some? ==> db.roundTrips == old(db.roundTrips) + 1
    ensures req.Some? && createFault ==>
              && resp == Response(ServerError, false, Empty) && unchanged(rdb)
              && db.users == old(db.users) && db.nextId == old(db.nextId)
    ensures req.Some? && !createFault ==>
              && var user := User(old(db.nextId), req.value.name, req.value.username, req.value.email,
                                  HashPassword(req.value.password));
              && resp == Response(Created, false, UserBody(user))
              && db.users == old(db.users)[user.id := user]
              && db.nextId == old(db.nextId) + 1
              && rdb.entries == old(rdb.entries) - {UserListCacheKey}
    ensures forall p :: UserKey(p) in old(rdb.entries) ==>
              UserKey(p) in rdb.entries && rdb.entries[UserKey(p)] == old(rdb.entries)[UserKey(p)]
  {
    if req.None? {
      return Response(Unprocessable, false, Empty);
    }
    var r := req.value;
    var user := User(0, r.name, r.username, r.email, HashPassword(r.password));
    var created := db.Create(user, createFault);
    if created.None? {
      return Response(ServerError, false, Empty);
    }
    rdb.Del({UserListCacheKey});
    resp := Response(Created, false, UserBody(created.value));
  }

  /**
   * GET /users/:id. A cached user under the key of the path's own spelling
   * that unmarshals is returned with no query and no write. Otherwise the
   * store is asked for the row the path resolves to: any error is a 404
   * that caches nothing; a found user is cached under `user:id:<idParam>`
   * for UserTTL and returned.
   */
  method FindUserById(rdb: Keyspace, db: Db, idParam: string, firstFault: bool) returns (resp: Response)
    requires rdb.Valid()
    modifies rdb`entries, db`roundTrips
    ensures rdb.Valid()
    ensures old(CachedUser(rdb.entries, idParam)).Some? ==>
              && resp == Response(OK, true, UserBody(old(CachedUser(rdb.entries, idParam)).value))
              && unchanged(rdb) && unchanged(db)
    ensures old(CachedUser(rdb.entries, idParam)).None? ==> db.roundTrips == old(db.roundTrips) + 1
    ensures old(CachedUser(rdb.entries, idParam)).None? &&
            (firstFault || ResolveId(idParam).None? || ResolveId(idParam).value !in db.users) ==>
              resp == Response(NotFound, false, Empty) && unchanged(rdb)
    ensures old(CachedUser(rdb.entries, idParam)).None? && !firstFault &&
            ResolveId(idParam).Some? && ResolveId(idParam).value in db.users ==>
              && var user := db.users[ResolveId(idParam).value];
              && resp == Response(OK, false, UserBody(user))
              && rdb.entries == old(rdb.entries)[UserKey(idParam) := Entry(Json(UserRecord(user)), ExpiresAt(rdb.now + UserTTL))]
  {
    var cacheKey := UserKey(idParam);
    var v := rdb.Get(cacheKey);
    if v.Some? && v.value.Json? && v.value.doc.UserRecord? {
      return Response(OK, true, UserBody(v.value.doc.user));
    }
    var found := db.First(ResolveId(idParam), firstFault);
    if found.None? {
      return Response(NotFound, false, Empty);
    }
    rdb.Set(cacheKey, Json(UserRecord(found.value)), UserTTL);
    resp := Response(OK, false, UserBody(found.value));
  }

  /** The row UpdateUser saves: name, username and email replaced, the password only when one is given. */
  function Updated(user: User, req: UpdateRequest): (u: User)
    ensures u.id == user.id && u.name == req.name && u.username == req.username && u.email == req.email
    ensures req.password == "" ==> u.password == user.password
    ensures req.password != "" ==> u.password == HashPassword(req.password)
  {
    user.(name := req.name, username := req.username, email := req.email,
          password := if req.password != "" then HashPassword(req.password) else user.password)
  }

  /**
   * PUT /users/:id. The user is looked up before the body is looked at: a
   * lookup error is a 404 and an invalid body a 422, both with no change.
   * A failed save is a 500 with no cache change. A successful save deletes
   * exactly the key of the path's own spelling and `users:list`.
   */
  method UpdateUser(rdb: Keyspace, db: Db, idParam: string, firstFault: bool, req: Option<UpdateRequest>,
                    saveFault: bool)
    returns (resp: Response)
    requires rdb.Valid() && db.Valid()
    modifies rdb`entries, db
    ensures rdb.Valid() && db.Valid() && db.nextId == old(db.nextId)
    ensures (firstFault || ResolveId(idParam).None? || ResolveId(idParam).value !in old(db.users)) ==>
              && resp == Response(NotFound, false, Empty) && unchanged(rdb)
              && db.users == old(db.users) && db.roundTrips == old(db.roundTrips) + 1
    ensures !firstFault && ResolveId(idParam).Some? && ResolveId(idParam).value in old(db.users) && req.None? ==>
              && resp == Response(Unprocessable, false, Empty) && unchanged(rdb)
              && db.users == old(db.users) && db.roundTrips == old(db.roundTrips) + 1
    ensures !firstFault && ResolveId(idParam).Some? && ResolveId(idParam).value in old(db.users) && req.Some? ==>
              db.roundTrips == old(db.roundTrips) + 2
    ensures !firstFault && ResolveId(idParam).Some? && ResolveId(idParam).value in old(db.users) && req.Some? && saveFault ==>
              resp == Response(ServerError, false, Empty) && unchanged(rdb) && db.users == old(db.users)
    ensures !firstFault && ResolveId(idParam).Some? && ResolveId(idParam).value in old(db.users) && req.Some? && !saveFault ==>
              && var id := ResolveId(idParam).value;
              && var user := Updated(old(db.users)[id], req.value);
              && resp == Response(OK, false, UserBody(user))
              && db.users == old(db.users)[id := user]
              && rdb.entries == old(rdb.entries) - {UserKey(idParam), UserListCacheKey}
  {
    var found := db.First(ResolveId(idParam), firstFault);
    if found.None? {
      return Response(NotFound, false, Empty);
    }
    if req.None? {
      return Response(Unprocessable, false, Empty);
    }
    var user := Updated(found.value, req.value);
    var saved := db.Save(user, saveFault);
    if !saved {
      return Response(ServerError, false, Empty);
    }
    rdb.Del({UserKey(idParam), UserListCacheKey});
    resp := Response(OK, false, UserBody(user));
  }

  /**
   * DELETE /users/:id. A lookup error is a 404 and a failed delete a 500,
   * both with no change. A successful delete removes the row and deletes
   * exactly the key of the path's own spelling and `users:list`.
   */
  method DeleteUser(rdb: Keyspace, db: Db, idParam: string, firstFault: bool, deleteFault: bool)
    returns (resp: Response)
    requires rdb.Valid() && db.Valid()
    modifies rdb`entries, db
    ensures rdb.Valid() && db.Valid() && db.nextId == old(db.nextId)
    ensures (firstFault || ResolveId(idParam).None? || ResolveId(idParam).value !in old(db.users)) ==>
              && resp == Response(NotFound, false, Empty) && unchanged(rdb)
              && db.users == old(db.users) && db.roundTrips == old(db.roundTrips) + 1
    ensures !firstFault && ResolveId(idParam).Some? && ResolveId(idParam).value in old(db.users) ==>
              db.roundTrips == old(db.roundTrips) + 2
    ensures !firstFault && ResolveId(idParam).Some? && ResolveId(idParam).value in old(db.users) && deleteFault ==>
              resp == Response(ServerError, false, Empty) && unchanged(rdb) && db.users == old(db.users)
    ensures !firstFault && ResolveId(idParam).Some? && ResolveId(idParam).value in old(db.users) && !deleteFault ==>
              && resp == Response(OK, false, Empty)
              && db.users == old(db.users) - {ResolveId(idParam).value}
              && rdb.entries == old(rdb.entries) - {UserKey(idParam), UserListCacheKey}
  {
    var found := db.First(ResolveId(idParam), firstFault);
    if found.None? {
      return Response(NotFound, false, Empty);
    }
    var deleted := db.Delete(found.value.id, deleteFault);
    if !deleted {
      return Response(ServerError, false, Empty);
    }
    rdb.Del({UserKey(idParam), UserListCacheKey});
    resp := Response(OK, false, Empty);
  }

  // ---------------------------------------------------------------------
  // Consistency across requests

  /**
   * After a successful delete, reading with the same spelling of the id is
   * a 404, never a stale cached copy.
   */
  method DeleteThenFind(rdb: Keyspace, db: Db, idParam: string, deleteFault: bool, firstFault: bool)
    returns (deleted: Response, found: Response)
    requires rdb.Valid() && db.Valid()
    modifies rdb`entries, db
    ensures deleted.status == OK ==> found == Response(NotFound, false, Empty)
  {
    deleted := DeleteUser(rdb, db, idParam, false, deleteFault);
    found := FindUserById(rdb, db, idParam, firstFault);
  }

  /**
   * A delete only reaches the cache key of its own spelling of the id: after
   * a read through "<id>" and a successful delete through "0<id>", a second
   * read through "<id>" is served from the cache, although the row is gone.
   */
  method DeleteOtherSpellingThenFind(rdb: Keyspace, db: Db, id: nat)
    returns (before: Response, deleted: Response, after: Response)
    requires rdb.Valid() && db.Valid() && id in db.users && id <= MaxInt64
    modifies rdb`entries, db
    ensures before.status == OK && deleted.status == OK && id !in db.users
    ensures after == before.(fromCache := true) && after.body.UserBody?
    ensures old(CachedUser(rdb.entries, FormatInt(id))).None? ==> after.body == UserBody(old(db.users)[id])
  {
    var canonical := FormatInt(id);
    var padded := "0" + canonical;
    ZeroPaddedAlias(id);
    before := FindUserById(rdb, db, canonical, false);
    assert before.status == OK && before.body.UserBody?;
    ghost var user := before.body.user;
    assert CachedUser(rdb.entries, canonical) == Some(user) by {
      if old(CachedUser(rdb.entries, canonical)).None? {
        CacheRoundTrip(old(rdb.entries), [], canonical, user, ExpiresAt(rdb.now + UserTTL));
      }
    }
    ghost var cachedBefore := rdb.entries;
    deleted := DeleteUser(rdb, db, padded, false, false);
    CachedUserFrame(cachedBefore, {UserKey(padded), UserListCacheKey}, canonical);
    after := FindUserById(rdb, db, canonical, false);
  }

  /**
   * With one spelling of the id throughout, a user read (and cached) before
   * an update is read back with the updated fields.
   */
  method FindUpdateFind(rdb: Keyspace, db: Db, idParam: string, req: UpdateRequest)
    returns (before: Response, updated: Response, after: Response)
    requires rdb.Valid() && db.Valid()
    modifies rdb`entries, db
    ensures updated.status == OK ==> after == Response(OK, false, updated.body)
    ensures updated.status == OK ==>
              after.body.UserBody? && after.body.user.name == req.name && after.body.user.email == req.email
  {
    before := FindUserById(rdb, db, idParam, false);
    updated := UpdateUser(rdb, db, idParam, false, Some(req), false);
    after := FindUserById(rdb, db, idParam, false);
  }

  /** After a successful create, listing goes to the store and the new user is in the list. */
  method CreateThenList(rdb: Keyspace, db: Db, req: CreateRequest)
    returns (created: Response, listed: Response)
    requires rdb.Valid() && db.Valid()
    modifies rdb`entries, db
    ensures created.status == Created ==> !listed.fromCache && listed.status == OK
    ensures created.status == Created ==>
              created.body.UserBody? && listed.body.UserListBody? && created.body.user in listed.body.users
  {
    created := CreateUser(rdb, db, Some(req), false);
    listed := FindUsers(rdb, db, false);
    if created.status == Created {
      var newId := created.body.user.id;
      assert newId in db.users && newId < db.nextId && db.users[newId] == created.body.user;
    }
  }

  /**
   * A list fetched from the store is served from the cache for reads up to
   * CacheTTL seconds later, and fetched from the store again after that.
   */
  method FindAdvanceFind(rdb: Keyspace, db: Db, dt: nat) returns (first: Response, second: Response)
    requires rdb.Valid() && db.Valid()
    modifies rdb, db`roundTrips
    ensures !first.fromCache && first.status == OK && dt <= CacheTTL ==> second == first.(fromCache := true)
    ensures !first.fromCache && first.status == OK && dt > CacheTTL ==> !second.fromCache
  {
    first := FindUsers(rdb, db, false);
    ghost var written := rdb.entries;
    ghost var t0 := rdb.now;
    rdb.Advance(dt);
    if !first.fromCache && first.status == OK {
      TtlBoundary(written, UserListCacheKey, Json(UserList(first.body.users)), t0, CacheTTL, dt);
    }
    second := FindUsers(rdb, db, false);
  }
}
