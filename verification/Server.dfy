/** The server object: the shared tables of src/server.rs, updated in place. */
module ServerObject {
  import opened Bytes
  import opened Protocol
  import opened Tables

  /** Evicting those of `candidates` that are idle, in turn. */
  function Reaped(t: Tables, candidates: seq<Addr>, idle: Addr -> bool): Tables {
    if candidates == [] then t
    else
      var t' := Reaped(t, candidates[..|candidates| - 1], idle);
      var addr := candidates[|candidates| - 1];
      if idle(addr) then Remove(t', addr) else t'
  }

  /** A pass of the reaper is a run of removals, so it keeps the tables in agreement. */
  lemma {:induction false} ReapedKeeps(t: Tables, candidates: seq<Addr>, idle: Addr -> bool)
    requires Agree(t)
    ensures Agree(Reaped(t, candidates, idle))
  {
    if candidates != [] {
      var n := |candidates| - 1;
      ReapedKeeps(t, candidates[..n], idle);
      RemoveKeeps(Reaped(t, candidates[..n], idle), candidates[n]);
    }
  }

  /** The sessions that stay are exactly those that are not idle candidates, and they are unchanged. */
  lemma {:induction false} ReapedExactly(t: Tables, candidates: seq<Addr>, idle: Addr -> bool)
    ensures var t' := Reaped(t, candidates, idle);
            && (forall a :: a in t'.sessions <==> a in t.sessions && !(a in candidates && idle(a)))
            && forall a | a in t'.sessions :: t'.sessions[a] == t.sessions[a]
  {
    if candidates != [] {
      var n := |candidates| - 1;
      ReapedExactly(t, candidates[..n], idle);
      assert candidates == candidates[..n] + [candidates[n]];
    }
  }

  class VpnServer {
    const cfg: Config

    var sessions: map<Addr, Entry>
    var routes: map<u32, Addr>
    var routesV6: map<u128, Addr>
    var peers: map<u32, Addr>
    var dataRoutes: map<u32, Addr>
    var nextPeerId: u32
    var nextPoolIp: u32
    var nextPoolIpV6: u128

    constructor (cfg: Config)
      ensures this.cfg == cfg && View() == Initial(cfg)
    {
      this.cfg := cfg;
      sessions, routes, routesV6, peers, dataRoutes := map[], map[], map[], map[], map[];
      nextPeerId, nextPoolIp, nextPoolIpV6 := 1, cfg.start, cfg.start6;
    }

    function View(): Tables
      reads this
    {
      Tables(sessions, routes, routesV6, peers, dataRoutes, nextPeerId, nextPoolIp, nextPoolIpV6)
    }

    /** The branch of `handle_control_packet` for a hard reset from an unknown address. */
    method CreateSession(addr: Addr, sent: bool, ready: bool)
      modifies this
      ensures View() == Create(old(View()), addr, sent, ready)
    {
      if addr in sessions {
        return;
      }
      var peerId := nextPeerId % 0x100_0000;
      nextPeerId := (nextPeerId + 1) % 0x1_0000_0000;
      if !sent {
        return;
      }
      sessions := sessions[addr := Entry(peerId, None, None, false)];
      peers := peers[peerId := addr];
      SpawnDataWorker(peerId, addr, ready);
    }

    method SpawnDataWorker(peerId: u32, addr: Addr, ready: bool)
      modifies this`dataRoutes
      ensures dataRoutes == if ready then old(dataRoutes)[peerId := addr] else old(dataRoutes)
    {
      if ready {
        dataRoutes := dataRoutes[peerId := addr];
      }
    }

    method AllocatePoolIp() returns (r: Result<u32>)
      modifies this`nextPoolIp
      ensures (View(), r) == AllocateIp(cfg, old(View()))
    {
      var ip := nextPoolIp;
      if ip > cfg.end {
        return Err;
      }
      nextPoolIp := (ip + 1) % 0x1_0000_0000;
      return Ok(ip);
    }

    method AllocatePoolIpV6() returns (r: Result<Option<u128>>)
      modifies this`nextPoolIpV6
      ensures (View(), r) == AllocateIp6(cfg, old(View()))
    {
      if cfg.end6.None? {
        return Ok(None);
      }
      var ip := nextPoolIpV6;
      if ip > cfg.end6.value {
        return Err;
      }
      nextPoolIpV6 := (ip + 1) % 0x1_0000_0000_0000_0000_0000_0000_0000_0000;
      return Ok(Some(ip));
    }

    /** The PUSH_REQUEST branch of `drive_control_plane`. */
    method AssignAddresses(addr: Addr, fixed: Static) returns (established: bool)
      modifies this
      ensures (View(), established) == Push(cfg, old(View()), addr, fixed)
    {
      if addr !in sessions || sessions[addr].established {
        return false;
      }
      var chosen;
      match fixed {
        case StaticV4(ip) => chosen := if ip in routes then Err else Ok(ip);
        case StaticV6 => chosen := Err;
        case NoStatic => chosen := AllocatePoolIp();
      }
      if chosen.Err? {
        return false;
      }
      sessions := sessions[addr := sessions[addr].(ip4 := Some(chosen.value))];
      routes := routes[chosen.value := addr];
      var chosen6 := AllocatePoolIpV6();
      if chosen6.Err? {
        return false;
      }
      if chosen6.value.Some? {
        sessions := sessions[addr := sessions[addr].(ip6 := chosen6.value)];
        routesV6 := routesV6[chosen6.value.value := addr];
      }
      sessions := sessions[addr := sessions[addr].(established := true)];
      return true;
    }

    /** What eviction and the end of a TCP stream have in common. */
    method RemoveSession(addr: Addr)
      modifies this
      ensures View() == Remove(old(View()), addr)
    {
      if addr !in sessions {
        return;
      }
      var e := sessions[addr];
      sessions := sessions - {addr};
      if e.ip4.Some? {
        routes := routes - {e.ip4.value};
      }
      if e.ip6.Some? {
        routesV6 := routesV6 - {e.ip6.value};
      }
      peers := peers - {e.peerId};
      dataRoutes := dataRoutes - {e.peerId};
    }

    /** One pass of the idle-session reaper. */
    method ReapIdle(candidates: seq<Addr>, idle: Addr -> bool)
      modifies this
      ensures View() == Reaped(old(View()), candidates, idle)
    {
      var i := 0;
      while i < |candidates|
        invariant 0 <= i <= |candidates|
        invariant View() == Reaped(old(View()), candidates[..i], idle)
      {
        assert candidates[..i + 1][..i] == candidates[..i];
        if idle(candidates[i]) {
          RemoveSession(candidates[i]);
        }
        i := i + 1;
      }
      assert candidates[..|candidates|] == candidates;
    }

    /** The lookups of `forward_tun_to_client`. */
    method FindTunTarget(pkt: ByteString) returns (target: Option<Addr>)
      ensures target == TunTarget(View(), pkt)
    {
      if pkt == [] {
        return None;
      }
      var addr: Addr;
      var version := pkt[0] / 16;
      if version == 4 {
        if |pkt| < 20 {
          return None;
        }
        var dst := U32(pkt[16..20]);
        if dst !in routes {
          return None;
        }
        addr := routes[dst];
      } else if version == 6 {
        if |pkt| < 40 {
          return None;
        }
        SixteenBytes(pkt[24..40]);
        var dst: u128 := FromBe(pkt[24..40]);
        if dst !in routesV6 {
          return None;
        }
        addr := routesV6[dst];
      } else {
        return None;
      }
      if addr !in sessions {
        return None;
      }
      return Some(addr);
    }

    /** `route_data` */
    method FindDataTarget(pkt: ByteString) returns (target: Option<Addr>)
      ensures target == DataTarget(View(), pkt)
    {
      var dp := ParseData(pkt);
      if dp.Err? {
        return None;
      }
      if dp.value.peerId in dataRoutes {
        return Some(dataRoutes[dp.value.peerId]);
      }
      return None;
    }
  }
}
