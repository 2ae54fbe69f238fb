/** HttpConnectionPool: connections between the idle list, their borrowers and deletion. */
module ConnectionPools {

  class HttpConnection {
    const created: nat
    /** Whether the socket is still connected; the peer decides. */
    var connected: bool
    var requests: nat

    constructor (at: nat)
      ensures created == at && connected && requests == 0
    {
      created, connected, requests := at, true, 0;
    }
  }

  function Max(a: nat, b: nat): (m: nat) {
    if a > b then a else b
  }

  ghost predicate Distinct(cs: seq<HttpConnection>) {
    forall i, j :: 0 <= i < j < |cs| ==> cs[i] != cs[j]
  }

  class HttpConnectionPool {
    const maxAliveTime: nat
    const maxRequest: nat
    var idle: seq<HttpConnection>
    var total: int
    /** The connections handed out and not released. */
    ghost var lent: set<HttpConnection>

    constructor (alive: nat, requests: nat)
      ensures Valid() && idle == [] && lent == {} && maxAliveTime == alive && maxRequest == requests
    {
      maxAliveTime, maxRequest := alive, requests;
      idle, total, lent := [], 0, {};
    }

    /** Every connection counted is in exactly one place, has served less than it may, and has the creation
        time 0 it was made with: nothing ever sets it. */
    ghost predicate Valid()
      reads this, idle, lent
    {
      && total == |idle| + |lent|
      && Distinct(idle) && (forall c :: c in idle ==> c !in lent)
      && (forall c :: c in idle ==> c.requests < maxRequest)
      && (forall c :: c in lent ==> c.requests < Max(1, maxRequest))
      && (forall c :: c in idle ==> c.created == 0) && (forall c :: c in lent ==> c.created == 0)
    }

    /** What getConnection takes from the list. The comparison of ages is the wrong way round in the code:
        it discards a connection while it is younger than the limit. As the creation time of a connection is
        never set, what it compares is the limit with the clock itself. */
    predicate Usable(c: HttpConnection, now: nat)
      reads c
    {
      c.connected && !(c.created + maxAliveTime > now)
    }

    /** The loop over the idle list; k connections in front of the one found are discarded. */
    method TakeIdle(now: nat) returns (c: HttpConnection?, k: nat)
      requires Distinct(idle)
      modifies this`idle
      ensures k <= |old(idle)| && forall i :: 0 <= i < k ==> !Usable(old(idle)[i], now)
      ensures c == null ==> k == |old(idle)| && idle == []
      ensures c != null ==> k < |old(idle)| && c == old(idle)[k] && Usable(c, now) && idle == old(idle)[k + 1..]
    {
      c, k := null, 0;
      while idle != []
        invariant k <= |old(idle)| && idle == old(idle)[k..]
        invariant forall i :: 0 <= i < k ==> !Usable(old(idle)[i], now)
        decreases |idle|
      {
        var conn := idle[0];
        idle := idle[1..];
        if !conn.connected || conn.created + maxAliveTime > now {
          k := k + 1;
          continue;
        }
        return conn, k;
      }
    }

    /** getConnection: the first usable idle connection, or a new one if there is none, whatever the pool's
        maximum size; up says whether connecting works. */
    method GetConnection(now: nat, up: bool) returns (c: HttpConnection?, ghost k: nat)
      requires Valid()
      modifies this
      ensures Valid() && (c == null ==> !up)
      ensures k <= |old(idle)| && forall i :: 0 <= i < k ==> !old(Usable(idle[i], now))
      ensures k < |old(idle)| ==> c == old(idle)[k] && old(Usable(idle[k], now)) && idle == old(idle)[k + 1..]
      ensures k == |old(idle)| ==> idle == [] && (c != null <==> up) && (c != null ==> fresh(c) && c.requests == 0)
      ensures lent == (if c == null then old(lent) else old(lent) + {c}) && (c != null ==> c !in old(lent))
      ensures c != null ==> c.connected && c.requests + 1 <= Max(1, maxRequest) && c.created == 0
      ensures k < |old(idle)| ==> maxAliveTime <= now
      ensures forall i :: 0 <= i < k ==> !old(idle[i].connected) || maxAliveTime > now
    {
      var n;
      c, n := TakeIdle(now);
      k := n;
      total := total - n;
      if c == null {
        if !up {
          return;
        }
        c := new HttpConnection(0);
        total := total + 1;
      }
      lent := lent + {c};
    }

    /** ReleasePtr: counts the request, and keeps the connection exactly if it may serve another one. */
    method Release(c: HttpConnection, now: nat) returns (kept: bool)
      requires Valid() && c in lent
      modifies this, c`requests
      ensures Valid() && c.requests == old(c.requests) + 1
      ensures kept <==> c.connected && maxAliveTime < now && c.requests < maxRequest
      ensures idle == (if kept then old(idle) + [c] else old(idle)) && lent == old(lent) - {c}
    {
      c.requests := c.requests + 1;
      lent := lent - {c};
      if !c.connected || c.created + maxAliveTime >= now || c.requests >= maxRequest {
        total := total - 1;
        return false;
      }
      idle := idle + [c];
      kept := true;
    }
  }
}
