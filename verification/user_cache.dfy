/**
 * The cache package of the backend: the user-list key scheme, the cached
 * total count, the registry-driven purge of list pages and the prefix
 * purge of single-user entries. Time is counted in seconds.
 */
module UserCache {
  import opened Wrappers
  import opened Strconv
  import opened Models
  import opened Redis
  import opened Database

  const UserListCachePrefix: string := "users:list:page:"
  const UserTotalCacheKey: string := "users:total"
  const UserListKeysSet: string := "users:list:keys"
  const UserCachePrefix: string := "user:id:"
  const Minute: nat := 60
  const CacheTTL: nat := 5 * Minute
  const UserTTL: nat := 10 * Minute

  /** The key of one cached list page. */
  function ListPageKey(page: nat): (k: string)
    ensures HasPrefix(k, UserListCachePrefix)
  {
    UserListCachePrefix + FormatInt(page)
  }

  /** The four key constants are pairwise distinct. */
  lemma ConstantsDistinct()
    ensures UserListCachePrefix != UserTotalCacheKey && UserListCachePrefix != UserListKeysSet
    ensures UserListCachePrefix != UserCachePrefix && UserTotalCacheKey != UserListKeysSet
    ensures UserTotalCacheKey != UserCachePrefix && UserListKeysSet != UserCachePrefix
  {
  }

  /**
   * No single-user key is the total key, the registry key or any list-page
   * key, and no list-page key is the total key or the registry key.
   */
  lemma SingleUserKeysDisjoint(k: string, page: nat)
    ensures HasPrefix(k, UserCachePrefix) ==> k != UserTotalCacheKey && k != UserListKeysSet && k != ListPageKey(page)
    ensures ListPageKey(page) != UserTotalCacheKey && ListPageKey(page) != UserListKeysSet
  {
    var p := ListPageKey(page);
    assert p[6] == 'l' && UserTotalCacheKey[6] == 't';
    assert p[11] == 'p' && UserListKeysSet[11] == 'k';
    if HasPrefix(k, UserCachePrefix) {
      assert k[4] == UserCachePrefix[4] == ':';
      assert UserTotalCacheKey[4] == UserListKeysSet[4] == p[4] == 's';
    }
  }

  // ---------------------------------------------------------------------
  // GetUsersTotalCount

  /** The count a cache hit yields: the total key holds text that ParseInt accepts. */
  function CachedTotal(m: map<string, Entry>): (r: Option<int>)
    ensures r.Some? ==> UserTotalCacheKey in m && m[UserTotalCacheKey].value.Text?
    ensures r.Some? ==> ParseInt(m[UserTotalCacheKey].value.s) == r
  {
    match GetValue(m, UserTotalCacheKey)
    case Some(Text(s)) => ParseInt(s)
    case _ => None
  }

  /** What GetUsersTotalCount writes on a miss is read back as the same count. */
  lemma CachedTotalRoundTrip(m: map<string, Entry>, total: int, x: Expiry)
    requires MinInt64 <= total <= MaxInt64
    ensures CachedTotal(m[UserTotalCacheKey := Entry(Text(FormatInt(total)), x)]) == Some(total)
  {
    ParseFormatRoundTrip(total);
  }

  /**
   * Read-through for the user count. A hit is returned with no query. On a
   * miss, or a cached value that does not parse, the store is counted (a
   * failed count is ignored and counts as 0) and the decimal string of the
   * result is cached for CacheTTL.
   */
  method GetUsersTotalCount(rdb: Keyspace, db: Db, countFault: bool) returns (total: int)
    requires rdb.Valid()
    modifies rdb`entries, db`roundTrips
    ensures rdb.Valid()
    ensures old(CachedTotal(rdb.entries)).Some? ==>
              total == old(CachedTotal(rdb.entries)).value && unchanged(rdb) && unchanged(db)
    ensures old(CachedTotal(rdb.entries)).None? ==>
              && total == (if countFault then 0 else |db.users|)
              && db.roundTrips == old(db.roundTrips) + 1
              && rdb.entries == old(rdb.entries)[UserTotalCacheKey := Entry(Text(FormatInt(total)), ExpiresAt(rdb.now + CacheTTL))]
  {
    var v := rdb.Get(UserTotalCacheKey);
    if v.Some? && v.value.Text? {
      var parsed := ParseInt(v.value.s);
      if parsed.Some? {
        return parsed.value;
      }
    }
    var counted := db.Count(countFault);
    total := if counted.Some? then counted.value else 0;
    rdb.Set(UserTotalCacheKey, Text(FormatInt(total)), CacheTTL);
  }

  /**
   * A second count up to CacheTTL seconds after a miss is served from the
   * cache: the same value, and no query beyond the first call's. After a
   * hit, the same holds while the cached entry is still live.
   */
  method CountTwice(rdb: Keyspace, db: Db, countFault: bool, dt: nat) returns (first: int, second: int)
    requires rdb.Valid() && |db.users| <= MaxInt64 && dt <= CacheTTL
    modifies rdb, db`roundTrips
    ensures old(CachedTotal(rdb.entries)).None? ==>
              first == second && db.roundTrips == old(db.roundTrips) + 1
    ensures old(CachedTotal(rdb.entries)).None? && !countFault ==> first == |db.users|
    ensures old(CachedTotal(rdb.entries)).Some? && Live(old(rdb.entries)[UserTotalCacheKey], old(rdb.now) + dt) ==>
              first == second && db.roundTrips == old(db.roundTrips)
  {
    first := GetUsersTotalCount(rdb, db, countFault);
    ghost var written := rdb.entries;
    ghost var t0 := rdb.now;
    if old(CachedTotal(rdb.entries)).None? {
      CachedTotalRoundTrip(old(rdb.entries), first, ExpiresAt(t0 + CacheTTL));
      TtlBoundary(written, UserTotalCacheKey, Text(FormatInt(first)), t0, CacheTTL, dt);
    }
    rdb.Advance(dt);
    assert UserTotalCacheKey in rdb.entries ==> rdb.entries[UserTotalCacheKey] == written[UserTotalCacheKey];
    second := GetUsersTotalCount(rdb, db, countFault);
  }

  // ---------------------------------------------------------------------
  // InvalidateUserListCache

  /**
   * The list-page keys the registry names. A missing registry is empty; a
   * registry key holding a string makes SMEMBERS fail, and nothing is named.
   */
  function Registry(m: map<string, Entry>): (r: set<string>)
    ensures UserListKeysSet !in m ==> r == {}
    ensures UserListKeysSet in m && m[UserListKeysSet].value.Members? ==> r == m[UserListKeysSet].value.keys
  {
    if UserListKeysSet in m && m[UserListKeysSet].value.Members? then m[UserListKeysSet].value.keys else {}
  }

  /**
   * The keyspace after InvalidateUserListCache: the total key, every key
   * the registry names and the registry itself are gone; every other key
   * keeps its entry.
   */
  function ListPurged(m: map<string, Entry>): (r: map<string, Entry>)
    ensures UserTotalCacheKey !in r && UserListKeysSet !in r
    ensures forall k :: k in Registry(m) ==> k !in r
    ensures forall k :: k in m && k != UserTotalCacheKey && k != UserListKeysSet && k !in Registry(m) ==>
              k in r && r[k] == m[k]
    ensures forall k :: k in r ==> k in m
  {
    m - ({UserTotalCacheKey} + Registry(m) + {UserListKeysSet})
  }

  /** Purging twice leaves what purging once left. */
  lemma ListPurgeIdempotent(m: map<string, Entry>)
    ensures ListPurged(ListPurged(m)) == ListPurged(m)
  {
  }

  /** Single-user entries survive the list purge unless the registry names them. */
  lemma ListPurgeKeepsSingleUsers(m: map<string, Entry>, k: string)
    requires HasPrefix(k, UserCachePrefix) && k in m && k !in Registry(m)
    ensures k in ListPurged(m) && ListPurged(m)[k] == m[k]
  {
    SingleUserKeysDisjoint(k, 0);
  }

  /** DEL the total key; DEL every registered page key (if any); DEL the registry. */
  method InvalidateUserListCache(rdb: Keyspace)
    requires rdb.Valid()
    modifies rdb`entries
    ensures rdb.Valid()
    ensures rdb.entries == ListPurged(old(rdb.entries))
  {
    rdb.Del({UserTotalCacheKey});
    var ok, keys := rdb.SMembers(UserListKeysSet);
    if ok && |keys| > 0 {
      rdb.Del(keys);
    }
    rdb.Del({UserListKeysSet});
  }

  // ---------------------------------------------------------------------
  // InvalidateAllSingleUserCache

  /** The keyspace after InvalidateAllSingleUserCache: exactly the `user:id:` keys are gone. */
  function SingleUsersPurged(m: map<string, Entry>): (r: map<string, Entry>)
    ensures forall k :: k in r <==> k in m && !HasPrefix(k, UserCachePrefix)
    ensures forall k :: k in r ==> r[k] == m[k]
  {
    map k | k in m && !HasPrefix(k, UserCachePrefix) :: m[k]
  }

  /** Purging single users twice leaves what purging once left. */
  lemma SingleUsersPurgeIdempotent(m: map<string, Entry>)
    ensures SingleUsersPurged(SingleUsersPurged(m)) == SingleUsersPurged(m)
  {
  }

  /** The total, the registry and every page key survive the single-user purge. */
  lemma SingleUsersPurgeKeepsListKeys(m: map<string, Entry>, page: nat)
    ensures var r := SingleUsersPurged(m);
            && (UserTotalCacheKey in m ==> UserTotalCacheKey in r)
            && (UserListKeysSet in m ==> UserListKeysSet in r)
            && (ListPageKey(page) in m ==> ListPageKey(page) in r)
  {
    SingleUserKeysDisjoint(UserTotalCacheKey, page);
    SingleUserKeysDisjoint(UserListKeysSet, page);
    SingleUserKeysDisjoint(ListPageKey(page), page);
  }

  /** KEYS user:id:* then DEL them all (when there are any). */
  method InvalidateAllSingleUserCache(rdb: Keyspace)
    requires rdb.Valid()
    modifies rdb`entries
    ensures rdb.Valid()
    ensures rdb.entries == SingleUsersPurged(old(rdb.entries))
  {
    var keys := rdb.Keys(UserCachePrefix);
    if |keys| > 0 {
      rdb.Del(keys);
    }
  }
}
