/**
 * The users table behind gorm: rows keyed by an auto-increment primary key.
 * `roundTrips` counts every query the handlers send, so a contract can say
 * that a cache hit sent none. Whether a query fails is the caller's `fault`
 * argument: the database's own errors are outside the model.
 */
module Database {
  import opened Wrappers
  import opened Models

  /** Every row sits under its own id. */
  ghost predicate WellKeyed(users: map<nat, User>) {
    forall id :: id in users ==> users[id].id == id
  }

  /** `SELECT * FROM users`: the rows with id below n, in primary-key order. */
  function Rows(users: map<nat, User>, n: nat): (r: seq<User>)
    requires WellKeyed(users)
    ensures forall id :: id in users && id < n ==> users[id] in r
    ensures forall u :: u in r ==> u.id in users && users[u.id] == u && u.id < n
    ensures forall i, j :: 0 <= i < j < |r| ==> r[i].id < r[j].id
  {
    if n == 0 then []
    else if n - 1 in users then Rows(users, n - 1) + [users[n - 1]]
    else Rows(users, n - 1)
  }

  class Db {
    var users: map<nat, User>
    var nextId: nat
    var roundTrips: nat

    ghost predicate Valid()
      reads this
    {
      WellKeyed(users) && forall id :: id in users ==> id < nextId
    }

    constructor ()
      ensures Valid() && users == map[] && nextId == 1 && roundTrips == 0
    {
      users := map[];
      nextId := 1;
      roundTrips := 0;
    }

    /** DB.Find(&users) */
    method Find(fault: bool) returns (rows: Option<seq<User>>)
      requires Valid()
      modifies this`roundTrips
      ensures roundTrips == old(roundTrips) + 1
      ensures rows == if fault then None else Some(Rows(users, nextId))
    {
      roundTrips := roundTrips + 1;
      rows := if fault then None else Some(Rows(users, nextId));
    }

    /**
     * DB.First(&user, id): `key` is the primary key the condition names, or
     * None when it names no row. Every error, a missing row included, is None.
     */
    method First(key: Option<nat>, fault: bool) returns (r: Option<User>)
      modifies this`roundTrips
      ensures roundTrips == old(roundTrips) + 1
      ensures r == if fault || key.None? || key.value !in users then None else Some(users[key.value])
    {
      roundTrips := roundTrips + 1;
      r := if fault || key.None? || key.value !in users then None else Some(users[key.value]);
    }

    /** DB.Model(&User{}).Count(&total) */
    method Count(fault: bool) returns (r: Option<nat>)
      modifies this`roundTrips
      ensures roundTrips == old(roundTrips) + 1
      ensures r == if fault then None else Some(|users|)
    {
      roundTrips := roundTrips + 1;
      r := if fault then None else Some(|users|);
    }

    /** DB.Create(&user): the row gets the next auto-increment id. */
    method Create(u: User, fault: bool) returns (r: Option<User>)
      requires Valid()
      modifies this
      ensures Valid() && roundTrips == old(roundTrips) + 1
      ensures fault ==> r.None? && users == old(users) && nextId == old(nextId)
      ensures !fault ==> && r == Some(u.(id := old(nextId)))
                         && users == old(users)[old(nextId) := r.value]
                         && nextId == old(nextId) + 1
    {
      roundTrips := roundTrips + 1;
      if fault {
        r := None;
      } else {
        r := Some(u.(id := nextId));
        users := users[nextId := r.value];
        nextId := nextId + 1;
      }
    }

    /** DB.Save(&user): writes every column of the row with u's id (inserting it if gone). */
    method Save(u: User, fault: bool) returns (ok: bool)
      requires Valid()
      modifies this
      ensures Valid() && roundTrips == old(roundTrips) + 1
      ensures ok == !fault
      ensures fault ==> users == old(users) && nextId == old(nextId)
      ensures !fault ==> users == old(users)[u.id := u] && nextId == if u.id < old(nextId) then old(nextId) else u.id + 1
    {
      roundTrips := roundTrips + 1;
      ok := !fault;
      if ok {
        users := users[u.id := u];
        if nextId <= u.id {
          nextId := u.id + 1;
        }
      }
    }

    /** DB.Delete(&user) */
    method Delete(id: nat, fault: bool) returns (ok: bool)
      requires Valid()
      modifies this
      ensures Valid() && roundTrips == old(roundTrips) + 1 && nextId == old(nextId)
      ensures ok == !fault
      ensures users == if fault then old(users) else old(users) - {id}
    {
      roundTrips := roundTrips + 1;
      ok := !fault;
      if ok {
        users := users - {id};
      }
    }
  }
}
