# Cache-aside model of the user backend

This project models the caching discipline that sits between the Redis
key/value cache and the `users` table of a Go (gin + gorm + go-redis)
backend, and proves its properties in Dafny. The model covers which key each
result is cached under, what happens on a hit, a miss, or a payload that does
not decode, which TTL applies, and which keys each mutation deletes.

The backend has two separate caching schemes, and the model keeps them apart:

- **Controller scheme** (`backend/controllers/user_controller.go`, module
  `UserController`). It uses one unpaginated list key `users:list` and keys
  `user:id:<id>`, where `<id>` is the path text as the request spells it. `FindUsers` and `FindUserById` read through the
  cache. `CreateUser` deletes `users:list`. `UpdateUser` and `DeleteUser`
  delete `user:id:<id>` and `users:list`.
- **Cache-package scheme** (`backend/cache/user.go`, module `UserCache`).
  `GetUsersTotalCount` reads the user count through the cache and stores it as
  a decimal string. `InvalidateUserListCache` purges using the registry: it
  deletes `users:total`, every member of the set `users:list:keys`, and then
  the set itself. `InvalidateAllSingleUserCache` deletes every key that starts
  with `user:id:`.

Supporting modules:

- `Strconv`: Go's `strconv.FormatInt(n, 10)` and `strconv.ParseInt(s, 10, 64)`.
  It includes the int64 range check and the round-trip lemma.
- `Models`: the user record, the two bound request bodies, the abstract
  password hash, and the JSON documents the handlers marshal.
- `Redis`: class `Keyspace`. It holds the live entries (a string value, a JSON
  document or a set, each with an expiry) and a logical clock in seconds. It
  provides GET, SET with TTL, DEL, SMEMBERS and KEYS with a prefix pattern.
  Advancing the clock drops expired entries, so an expired key is absent.
- `Database`: class `Db`. It holds the users table keyed by an auto-increment
  id, plus a round-trip counter, so contracts can say that a cache hit sent no
  query. It provides Find, First, Count, Create, Save and Delete.

The handlers are module-level methods that receive the two client handles.
This mirrors Go package functions that use the global `redis.Client` and
`database.DB`. Environment failures are parameters:

- each database error is a `fault` flag;
- a request body that gin fails to bind or validate is `None`.

Each handler's result is a `Response`. It holds a status, a "served from cache"
flag, and the data. The status is one of OK, Created, NotFound, Unprocessable
and ServerError.

## Model

| member | source | states |
|---|---|---|
| `Strconv.Digits` | backend/cache/user.go:32 | the decimal digits of a natural number: non-empty, all digits, no leading zero |
| `Strconv.FormatInt` | backend/cache/user.go:32 | the decimal form starts with '-' exactly for negative numbers, and is all digits otherwise |
| `Strconv.ParseInt` | backend/cache/user.go:24 | a parse succeeds exactly when the text is an optional sign followed by at least one digit and nothing else, and the signed value it denotes is within int64; the result is that value |
| `Strconv.DigitsValueOfDigits` | backend/cache/user.go:24-32 | reading back the digits FormatInt writes gives the original number |
| `Strconv.LeadingZeroValue` | backend/controllers/user_controller.go:137 | a leading zero does not change the number a run of digits denotes |
| `Strconv.DigitsInjective` | backend/cache/user.go:32 | distinct numbers have distinct decimal forms |
| `Strconv.ParseFormatRoundTrip` | backend/cache/user.go:24-32 | ParseInt(FormatInt(n)) == n for every int64 n |
| `Redis.ExpiryAfter` | backend/cache/user.go:32 | a positive TTL gives an expiry that is still live at the moment of writing |
| `Redis.Unexpired` | backend/cache/user.go:17-18 | the keyspace at time t keeps exactly the entries whose expiry has not passed, and leaves them unchanged |
| `Redis.GetValue` | backend/cache/user.go:22-23 | GET hits exactly when the key exists and holds a string value; a missing or set-typed key is a miss |
| `Redis.TtlBoundary` | backend/controllers/user_controller.go:20-21 | a key written with TTL T is present d seconds later exactly when d <= T (Redis expires a key only once the clock is past its expiry) |
| `Redis.Keyspace.Get` | backend/controllers/user_controller.go:29 | GET answers with the live string value under the key, or a miss |
| `Redis.Keyspace.Set` | backend/controllers/user_controller.go:53 | SET replaces exactly that key's entry and gives it the TTL's expiry |
| `Redis.Keyspace.Del` | backend/controllers/user_controller.go:92 | DEL removes exactly the named keys; a missing key is a no-op |
| `Redis.Keyspace.SMembers` | backend/cache/user.go:40 | a missing set is empty; a set's members are returned; a string-typed key is an error |
| `Redis.Keyspace.Keys` | backend/cache/user.go:49 | KEYS with a prefix pattern returns exactly the live keys that start with the prefix |
| `Redis.Keyspace.Advance` | backend/cache/user.go:17-18 | advancing the clock drops exactly the entries whose TTL ran out |
| `Database.Rows` | backend/controllers/user_controller.go:42 | the listed rows are exactly the stored users, each once, in increasing id order |
| `Database.Db.Find` | backend/controllers/user_controller.go:42 | a successful Find returns all rows; a failed one returns nothing; one round trip either way |
| `Database.Db.First` | backend/controllers/user_controller.go:137 | First returns the row with the primary key the condition names; any error, a missing row and a condition that names no row included, is a miss |
| `Database.Db.Count` | backend/cache/user.go:30 | Count returns the number of rows, or an error |
| `Database.Db.Create` | backend/controllers/user_controller.go:82 | a successful insert stores the user under the next auto-increment id; a failed one changes nothing |
| `Database.Db.Save` | backend/controllers/user_controller.go:196 | a successful save overwrites the row with the user's id; a failed one changes nothing |
| `Database.Db.Delete` | backend/controllers/user_controller.go:237 | a successful delete removes the row; a failed one changes nothing |
| `UserCache.ListPageKey` | backend/cache/user.go:13 | every list-page key starts with `users:list:page:` |
| `UserCache.ConstantsDistinct` | backend/cache/user.go:13-16 | the four key constants are pairwise distinct |
| `UserCache.SingleUserKeysDisjoint` | backend/cache/user.go:13-16 | no `user:id:` key equals `users:total`, `users:list:keys` or any page key; no page key equals `users:total` or `users:list:keys` |
| `UserCache.CachedTotal` | backend/cache/user.go:22-27 | a hit is a string under `users:total` that parses as a base-10 int64 |
| `UserCache.CachedTotalRoundTrip` | backend/cache/user.go:24-32 | the decimal string written on a miss is read back as the same count |
| `UserCache.GetUsersTotalCount` | backend/cache/user.go:21-35 | a hit returns the parsed count and changes nothing, with no query; a miss or unparsable value counts the store once, where a failed count is 0, then caches its decimal form for 5 minutes and returns it |
| `UserCache.CountTwice` | backend/cache/user.go:21-35 | after a miss, a second count up to 5 minutes later returns the same value with no further query; after a hit, the same holds while the cached entry is live |
| `UserCache.Registry` | backend/cache/user.go:40-41 | the registry names no key when `users:list:keys` is missing, and its members when it is a set |
| `UserCache.ListPurged` | backend/cache/user.go:37-46 | after the purge, `users:total`, every registered key and the registry are absent; every other key keeps its entry; no key is added |
| `UserCache.ListPurgeIdempotent` | backend/cache/user.go:37-46 | purging twice equals purging once |
| `UserCache.ListPurgeKeepsSingleUsers` | backend/cache/user.go:37-46 | a `user:id:` entry that the registry does not name survives the purge unchanged |
| `UserCache.InvalidateUserListCache` | backend/cache/user.go:37-46 | the three successive DELs leave exactly the purged keyspace |
| `UserCache.SingleUsersPurged` | backend/cache/user.go:48-53 | exactly the keys that start with `user:id:` are removed; all others keep their entries |
| `UserCache.SingleUsersPurgeIdempotent` | backend/cache/user.go:48-53 | purging single users twice equals purging once |
| `UserCache.SingleUsersPurgeKeepsListKeys` | backend/cache/user.go:48-53 | the total key, the registry and every page key survive the single-user purge |
| `UserCache.InvalidateAllSingleUserCache` | backend/cache/user.go:48-53 | KEYS followed by DEL leaves exactly the single-user-purged keyspace |
| `UserController.UserKey` | backend/controllers/user_controller.go:111-112 | the per-user key is `user:id:` followed by the path text as spelled, and is never `users:list` |
| `UserController.UserKeyInjective` | backend/controllers/user_controller.go:206 | distinct path spellings have distinct cache keys |
| `UserController.ResolveId` | backend/controllers/user_controller.go:137 | the path text names row n exactly when Go's integer parse of it gives the non-negative n; other text names no row |
| `UserController.ResolveCanonical` | backend/controllers/user_controller.go:137 | the canonical decimal spelling of an id names that id's row |
| `UserController.ZeroPaddedAlias` | backend/controllers/user_controller.go:111-112 | a zero-padded spelling names the same row as the canonical one but has a different cache key |
| `UserController.CachedUserFrame` | backend/controllers/user_controller.go:117-119 | deleting keys other than `user:id:<idParam>` does not change what a read of that key finds |
| `UserController.CachedUsers` | backend/controllers/user_controller.go:29-31 | a list hit is a JSON list of users stored under `users:list` |
| `UserController.CachedUser` | backend/controllers/user_controller.go:117-119 | a user hit is a JSON user record stored under the key of the path's own spelling |
| `UserController.CacheRoundTrip` | backend/controllers/user_controller.go:52-53 | what the miss paths write is read back as the same list or user; this restates the JSON abstraction, in which a document is kept as the value it encodes, and derives nothing about JSON |
| `UserController.FindUsers` | backend/controllers/user_controller.go:25-61 | a decodable hit returns the cached list and changes neither cache nor store, with no query; otherwise there is one query; a failed query is a 500 that writes nothing; a successful one caches the rows under `users:list` for 5 minutes and returns those same rows |
| `UserController.CreateUser` | backend/controllers/user_controller.go:64-106 | an invalid body is a 422 and a failed insert a 500, neither changing anything; success stores the user with a hashed password under the next auto-increment id, advances that id by one, deletes only `users:list`, and keeps every `user:id:` entry; each insert attempt is one query |
| `UserController.FindUserById` | backend/controllers/user_controller.go:110-163 | a decodable hit under the key of the path's spelling returns the cached user with no query; otherwise the row the path resolves to is looked up: an error or no row is a 404 that caches nothing, and a found user is cached under that key for 10 minutes and returned |
| `UserController.Updated` | backend/controllers/user_controller.go:189-194 | name, username and email are overwritten; the password changes only when the request gives a non-empty one |
| `UserController.UpdateUser` | backend/controllers/user_controller.go:166-221 | a lookup error is a 404 before the body is checked, an invalid body a 422, a failed save a 500, none changing anything; success saves the updated row of the resolved id and deletes exactly the key of the path's spelling and `users:list`; the query count and the auto-increment id are stated on every path |
| `UserController.DeleteUser` | backend/controllers/user_controller.go:224-254 | a lookup error is a 404 and a failed delete a 500, neither changing anything; success removes the resolved row and deletes exactly the key of the path's spelling and `users:list`; the query count and the auto-increment id are stated on every path |
| `UserController.DeleteThenFind` | backend/controllers/user_controller.go:237-248 | after a successful delete, reading with the same spelling of the id is a 404, never a stale cached copy |
| `UserController.DeleteOtherSpellingThenFind` | backend/controllers/user_controller.go:247-248 | after a read through "<id>" and a successful delete through "0<id>", a read through "<id>" is served from the cache although the row is gone |
| `UserController.FindUpdateFind` | backend/controllers/user_controller.go:205-207 | with one spelling of the id throughout, a user read and cached before a successful update is read back from the store with the updated fields |
| `UserController.CreateThenList` | backend/controllers/user_controller.go:91-92 | after a successful create, listing queries the store, and the new user is in the list |
| `UserController.FindAdvanceFind` | backend/controllers/user_controller.go:53 | a freshly cached list is served from the cache for up to 5 minutes and refetched after that |

## Left out

- HTTP plumbing is not modelled: gin request binding, the JSON response envelopes, the message strings and timestamp formatting. A body that fails to bind or validate is `None`, and a response is reduced to a status, a cache flag and its data.
- The `CreatedAt` and `UpdatedAt` columns are not modelled. gorm fills them from the wall clock, and no cache decision depends on them.
- JSON is abstract. A value that `json.Marshal` writes is kept as the document it encodes. Plain text, a document of the other shape, and a malformed document all fail to unmarshal.
- The `json.Marshal` error branches (user_controller.go:52 and 147) are not modelled, because marshalling a user record cannot fail. Encoding is therefore total.
- Password hashing is the abstract `HashOf`. bcrypt's random salt is not modelled.
- The path parameter is kept as text. The cache key is built from the text as spelled, but the store lookup goes to the row the text resolves to, so "7", "07" and "+7" all name row 7 under three different keys. A mutation deletes only the key of its own spelling: after `DELETE /users/07`, an earlier `GET /users/7` stays cached and is served for up to 10 minutes, and an update through one spelling leaves another spelling's copy stale in the same way. `UserController.DeleteOtherSpellingThenFind` proves this.
- UserController.DeleteThenFind: promises a 404 only when the delete and the read spell the id the same way, because the source does not promise more.
- UserController.FindUpdateFind: promises the updated fields only when all three requests spell the id the same way, because the source does not promise more.
- `UserController.ResolveId`: text that Go does not read as an integer becomes a raw SQL condition in gorm, whose result depends on MySQL. The model treats such text as naming no row.
- Redis and gorm client internals and network errors are not modelled. A failed GET takes the same branch as a miss. A failed SET or DEL, whose error the source ignores, is not modelled.
- Expiry uses a logical clock in seconds, not Redis's millisecond wall clock. An entry is live up to and including its expiry time. The keyspace keeps only live entries.
- `Database.Rows`: `SELECT * FROM users` has no ORDER BY, so SQL does not guarantee an order. The model fixes primary-key order.
- No code here adds keys to `users:list:keys`. The registry's contents are given state, and no registration step is modelled.
- Concurrency is not modelled: races between readers and writers, cache stampedes, and shared global handles.
- `backend/database/reset.go`, `backend/main.go` and `backend/structs/pagination.go` are not part of this model. They hold persistence plumbing, startup wiring and a response struct.
