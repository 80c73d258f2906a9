/**
 * The Redis keyspace as the cache-aware code sees it: string values, JSON
 * documents and sets under string keys, each with an optional expiry on a
 * logical clock. Only live entries are kept: an entry whose expiry has
 * passed is observably absent, so advancing the clock drops it.
 */
module Redis {
  import opened Wrappers
  import opened Models

  /** A string value (plain text or a JSON document) or a set of strings. */
  datatype Value = Text(s: string) | Json(doc: Doc) | Members(keys: set<string>)

  datatype Expiry = Persistent | ExpiresAt(t: int)

  datatype Entry = Entry(value: Value, expiry: Expiry)

  /** An entry is live up to and including its expiry time; Redis expires a key only once now > expiry. */
  predicate Live(e: Entry, now: int) {
    e.expiry.Persistent? || now <= e.expiry.t
  }

  /** The expiry SET gives a key written at `now` with a TTL; a zero TTL means none. */
  function ExpiryAfter(now: int, ttl: nat): (x: Expiry)
    ensures ttl > 0 ==> x.ExpiresAt? && Live(Entry(Text(""), x), now)
  {
    if ttl == 0 then Persistent else ExpiresAt(now + ttl)
  }

  /** The keyspace at time `now`: the entries still live. */
  function Unexpired(m: map<string, Entry>, now: int): (r: map<string, Entry>)
    ensures forall k :: k in r <==> k in m && Live(m[k], now)
    ensures forall k :: k in r ==> r[k] == m[k]
  {
    map k | k in m && Live(m[k], now) :: m[k]
  }

  /**
   * What GET answers: the value of a string-typed key. A missing key is a
   * miss, and a set-typed key is a WRONGTYPE error; callers treat both alike.
   */
  function GetValue(m: map<string, Entry>, key: string): (r: Option<Value>)
    ensures r.Some? <==> key in m && !m[key].value.Members?
    ensures r.Some? ==> r.value == m[key].value
  {
    if key in m && !m[key].value.Members? then Some(m[key].value) else None
  }

  /** The glob `<p>*` of KEYS: every key that starts with p. */
  predicate HasPrefix(k: string, p: string) {
    |p| <= |k| && k[..|p|] == p
  }

  /** TTL boundary: a key set with TTL ttl > 0 at t0 is present at t0 + d exactly when d <= ttl. */
  lemma TtlBoundary(m: map<string, Entry>, key: string, v: Value, t0: int, ttl: nat, d: nat)
    requires ttl > 0
    ensures var written := m[key := Entry(v, ExpiryAfter(t0, ttl))];
            key in Unexpired(written, t0 + d) <==> d <= ttl
  {
  }

  class Keyspace {
    var entries: map<string, Entry>
    var now: int

    ghost predicate Valid()
      reads this
    {
      forall k :: k in entries ==> Live(entries[k], now)
    }

    constructor ()
      ensures Valid() && entries == map[] && now == 0
    {
      entries := map[];
      now := 0;
    }

    /** GET key */
    method Get(key: string) returns (v: Option<Value>)
      ensures v == GetValue(entries, key)
    {
      v := GetValue(entries, key);
    }

    /** SET key value EX ttl */
    method Set(key: string, v: Value, ttl: nat)
      requires Valid()
      modifies this`entries
      ensures Valid()
      ensures entries == old(entries)[key := Entry(v, ExpiryAfter(now, ttl))]
    {
      entries := entries[key := Entry(v, ExpiryAfter(now, ttl))];
    }

    /** DEL key...: deleting a missing key is a no-op. */
    method Del(keys: set<string>)
      requires Valid()
      modifies this`entries
      ensures Valid()
      ensures entries == old(entries) - keys
    {
      entries := entries - keys;
    }

    /**
     * SMEMBERS key: a missing key is the empty set; a key holding a string
     * is a WRONGTYPE error (ok == false).
     */
    method SMembers(key: string) returns (ok: bool, members: set<string>)
      ensures key !in entries ==> ok && members == {}
      ensures key in entries && entries[key].value.Members? ==> ok && members == entries[key].value.keys
      ensures key in entries && !entries[key].value.Members? ==> !ok && members == {}
    {
      if key !in entries {
        ok, members := true, {};
      } else if entries[key].value.Members? {
        ok, members := true, entries[key].value.keys;
      } else {
        ok, members := false, {};
      }
    }

    /** KEYS <prefix>*: every live key that starts with the prefix. */
    method Keys(prefix: string) returns (ks: set<string>)
      ensures forall k :: k in ks <==> k in entries && HasPrefix(k, prefix)
    {
      ks := set k | k in entries && HasPrefix(k, prefix);
    }

    /** The passage of dt seconds: entries whose TTL ran out disappear. */
    method Advance(dt: nat)
      requires Valid()
      modifies this
      ensures Valid() && now == old(now) + dt
      ensures entries == Unexpired(old(entries), now)
    {
      now := now + dt;
      entries := Unexpired(entries, now);
    }
  }
}
