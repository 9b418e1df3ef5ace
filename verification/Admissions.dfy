/** The ledger of connections that have not joined yet, in all and for each address. */
module Admissions {

  /** A connection and the address it came from. */
  datatype Conn = Conn(id: nat, ip: string)

  function From(conns: set<Conn>, ip: string): set<Conn> {
    set c | c in conns && c.ip == ip
  }

  /** The per-address counts are exact, and an address without connections has no count. */
  ghost predicate Exact(conns: set<Conn>, perIp: map<string, nat>) {
    forall ip :: if ip in perIp then perIp[ip] == |From(conns, ip)| > 0 else From(conns, ip) == {}
  }

  ghost predicate Capped(conns: set<Conn>, globalCap: nat, perIpCap: nat) {
    |conns| <= globalCap && forall ip :: |From(conns, ip)| <= perIpCap
  }

  function Admitted(conns: set<Conn>, c: Conn, globalCap: nat, perIpCap: nat): bool {
    |conns| < globalCap && |From(conns, c.ip)| < perIpCap
  }

  lemma FromMore(conns: set<Conn>, c: Conn, ip: string)
    requires c !in conns
    ensures From(conns + {c}, ip) == if c.ip == ip then From(conns, ip) + {c} else From(conns, ip)
  {
  }

  lemma FromLess(conns: set<Conn>, c: Conn, ip: string)
    requires c in conns
    ensures From(conns - {c}, ip) == if c.ip == ip then From(conns, ip) - {c} else From(conns, ip)
  {
  }

  /** One admission and one departure keep the ledger exact; a departure never needs the fallback
      count of one. */
  lemma AdmitKeeps(conns: set<Conn>, perIp: map<string, nat>, c: Conn, globalCap: nat, perIpCap: nat)
    requires Exact(conns, perIp) && Capped(conns, globalCap, perIpCap)
    requires c !in conns && Admitted(conns, c, globalCap, perIpCap)
    ensures var count := if c.ip in perIp then perIp[c.ip] else 0;
      && count == |From(conns, c.ip)|
      && Exact(conns + {c}, perIp[c.ip := count + 1]) && Capped(conns + {c}, globalCap, perIpCap)
  {
    forall ip ensures From(conns + {c}, ip) == if c.ip == ip then From(conns, ip) + {c} else From(conns, ip) {
      FromMore(conns, c, ip);
    }
  }

  lemma LeaveKeeps(conns: set<Conn>, perIp: map<string, nat>, c: Conn, globalCap: nat, perIpCap: nat)
    requires Exact(conns, perIp) && Capped(conns, globalCap, perIpCap) && c in conns
    ensures c.ip in perIp
    ensures var left := if perIp[c.ip] <= 1 then perIp - {c.ip} else perIp[c.ip := perIp[c.ip] - 1];
      Exact(conns - {c}, left) && Capped(conns - {c}, globalCap, perIpCap)
  {
    assert c in From(conns, c.ip);
    forall ip ensures From(conns - {c}, ip) == if c.ip == ip then From(conns, ip) - {c} else From(conns, ip) {
      FromLess(conns, c, ip);
    }
  }

  class UnauthTracker {
    const globalCap: nat
    const perIpCap: nat
    var unauthSockets: set<Conn>
    var unauthPerIp: map<string, nat>

    ghost predicate Valid()
      reads this
    {
      Exact(unauthSockets, unauthPerIp) && Capped(unauthSockets, globalCap, perIpCap)
    }

    constructor (globalCap: nat, perIpCap: nat)
      ensures Valid() && unauthSockets == {}
    {
      this.globalCap, this.perIpCap := globalCap, perIpCap;
      unauthSockets, unauthPerIp := {}, map[];
      new;
      assert forall ip :: From(unauthSockets, ip) == {};
    }

    /** A new connection is let in exactly when neither cap is reached. */
    method Track(c: Conn) returns (ok: bool)
      requires Valid() && c !in unauthSockets
      modifies this
      ensures Valid()
      ensures ok <==>
        && |old(unauthSockets)| < globalCap
        && |set x | x in old(unauthSockets) && x.ip == c.ip| < perIpCap
      ensures unauthSockets == if ok then old(unauthSockets) + {c} else old(unauthSockets)
    {
      assert From(unauthSockets, c.ip) == set x | x in unauthSockets && x.ip == c.ip;
      if |unauthSockets| >= globalCap { return false; }
      var current := if c.ip in unauthPerIp then unauthPerIp[c.ip] else 0;
      assert current == |From(unauthSockets, c.ip)|;
      if current >= perIpCap { return false; }
      AdmitKeeps(unauthSockets, unauthPerIp, c, globalCap, perIpCap);
      unauthSockets := unauthSockets + {c};
      unauthPerIp := unauthPerIp[c.ip := current + 1];
      return true;
    }

    /** A connection joins or closes; doing both, in either order, counts once. */
    method Promote(c: Conn)
      requires Valid()
      modifies this
      ensures Valid() && unauthSockets == old(unauthSockets) - {c}
    {
      if c in unauthSockets {
        LeaveKeeps(unauthSockets, unauthPerIp, c, globalCap, perIpCap);
        unauthSockets := unauthSockets - {c};
        var count := if c.ip in unauthPerIp then unauthPerIp[c.ip] else 1;
        unauthPerIp := if count <= 1 then unauthPerIp - {c.ip} else unauthPerIp[c.ip := count - 1];
      }
    }
  }
}
