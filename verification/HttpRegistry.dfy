/**
  The registry of HTTP connections (http.go): `retrieve`, `unregister` and the cleaner. Times are
  in seconds.
 */
module HttpRegistries {

  /** `httpReadWriter`, as far as the registry is concerned. */
  class HttpConn {
    const writeAddr: string
    var lastActivity: int
    ghost var closes: nat            // how often its read channel was closed

    constructor (writeAddr: string)
      ensures this.writeAddr == writeAddr && lastActivity == 0 && closes == 0
    {
      this.writeAddr, lastActivity, closes := writeAddr, 0, 0;
    }

    method BumpActivity(now: int)
      modifies this`lastActivity
      ensures lastActivity == now
    {
      lastActivity := now;
    }
  }

  predicate Stale(lastActivity: int, now: int, timeout: int) {
    now - lastActivity >= timeout
  }

  /** `GoatOverHttp`, as far as the registry is concerned. */
  class Registry {
    var value: map<string, HttpConn>
    ghost var all: set<HttpConn>     // every connection ever made

    /**
      A connection is registered, under its own address, exactly while its channel is open; no
      channel is closed twice.
     */
    ghost predicate Valid()
      reads this, all
    {
      && (forall id :: id in value ==> value[id] in all && value[id].writeAddr == id)
      && (forall c :: c in all ==> c.closes <= 1)
      && (forall c :: c in all ==> (c.closes == 0 <==> c.writeAddr in value && value[c.writeAddr] == c))
    }

    constructor ()
      ensures Valid() && value == map[] && all == {}
    {
      value, all := map[], {};
    }

    /** The connection for an address, made when there is none. */
    method Retrieve(id: string) returns (conn: HttpConn, made: bool)
      requires Valid()
      modifies this
      ensures Valid()
      ensures value == old(value)[id := conn]
      ensures made <==> id !in old(value)
      ensures !made ==> conn == old(value)[id] && all == old(all)
      ensures made ==> fresh(conn) && all == old(all) + {conn} && conn.lastActivity == 0
    {
      made := id !in value;
      if made {
        conn := new HttpConn(id);
        value, all := value[id := conn], all + {conn};
      } else {
        conn := value[id];
      }
    }

    /** `unregisterLocked`: closes the channel of the connection, if it is registered. */
    method Unregister(id: string)
      requires Valid()
      modifies this`value, all
      ensures Valid()
      ensures value == old(value) - {id}
      ensures forall c :: c in all ==>
                            c.closes == old(c.closes) + (if id in old(value) && old(value)[id] == c then 1 else 0)
                            && c.lastActivity == old(c.lastActivity)
    {
      if id in value {
        var c := value[id];
        c.closes := c.closes + 1;
      }
      value := value - {id};
    }

    /** The stale connections of the addresses in `ids`. */
    ghost function StaleIn(ids: set<string>, now: int, timeout: int): set<string>
      reads this, all
      requires Valid()
    {
      set id | id in ids && id in value && Stale(value[id].lastActivity, now, timeout)
    }

    /**
      One pass of `connectionCleaner`: exactly the stale connections are closed and forgotten, and
      every connection left is fresh.
     */
    method Clean(now: int, timeout: int)
      requires Valid()
      modifies this`value, all
      ensures Valid()
      ensures forall id :: id in value <==> id in old(value) && now - old(value[id].lastActivity) < timeout
      ensures forall id :: id in value ==> value[id] == old(value[id])
      ensures forall c :: c in all ==>
                            && c.lastActivity == old(c.lastActivity)
                            && c.closes == old(c.closes) +
                                           (if old(c.closes) == 0 && now - c.lastActivity >= timeout then 1 else 0)
    {
      var left := value.Keys;
      ghost var had, stale := value, StaleIn(value.Keys, now, timeout);
      while left != {}
        invariant Valid() && left <= had.Keys
        invariant forall id :: id in left ==> id in value
        invariant value == had - (stale - left)
        invariant forall c :: c in all ==> c.lastActivity == old(c.lastActivity)
        invariant forall c :: c in all ==>
                                c.closes == old(c.closes) + (if old(c.closes) == 0 && c.writeAddr in stale - left then 1 else 0)
        decreases left
      {
        var id :| id in left;
        var conn := value[id];
        if Stale(conn.lastActivity, now, timeout) {
          Unregister(conn.writeAddr);
        }
        left := left - {id};
      }
    }
  }
}
