/**
  The server's shared tables (src/server.rs): sessions, routes, peers, data routes and the address
  pools.  Each locked section is one step.  An entry of the session table keeps the fields of a
  session that the tables depend on.
 */
module Tables {
  import opened Bytes
  import opened Protocol

  const PEER_ID_SPACE: nat := 0x100_0000

  type u128 = x: int | 0 <= x < 0x1_0000_0000_0000_0000_0000_0000_0000_0000

  const U128_COUNT: nat := 0x1_0000_0000_0000_0000_0000_0000_0000_0000

  /** A client's socket address. */
  datatype Addr = Addr(ip: nat, port: u16)

  datatype Entry = Entry(peerId: u32, ip4: Option<u32>, ip6: Option<u128>, established: bool)

  datatype Tables = Tables(
    sessions: map<Addr, Entry>,
    routes: map<u32, Addr>,
    routes6: map<u128, Addr>,
    peers: map<u32, Addr>,
    dataRoutes: map<u32, Addr>,
    nextPeerId: u32,
    nextIp: u32,
    nextIp6: u128)

  /** The pools; `end6` is absent when the tunnel has no IPv6. */
  datatype Config = Config(start: u32, end: u32, start6: u128, end6: Option<u128>)

  function Initial(cfg: Config): Tables {
    Tables(map[], map[], map[], map[], map[], 1, cfg.start, cfg.start6)
  }

  /** The per-client address, if the configuration names one. */
  datatype Static = NoStatic | StaticV4(v4: u32) | StaticV6

  // ---------------------------------------------------------------------------------------------
  // Steps
  // ---------------------------------------------------------------------------------------------

  /** A hard reset from an address; `sent` says whether the reply could be sent, `ready` whether there is
      a TUN writer yet, without which no data worker is started. */
  function Create(t: Tables, addr: Addr, sent: bool, ready: bool): Tables {
    if addr in t.sessions then t
    else
      var peerId := t.nextPeerId % 0x100_0000;
      var t' := t.(nextPeerId := (t.nextPeerId + 1) % 0x1_0000_0000);
      if !sent then t'
      else t'.(sessions := t.sessions[addr := Entry(peerId, None, None, false)],
               peers := t.peers[peerId := addr],
               dataRoutes := if ready then t.dataRoutes[peerId := addr] else t.dataRoutes)
  }

  function AllocateIp(cfg: Config, t: Tables): (Tables, Result<u32>) {
    if t.nextIp > cfg.end then (t, Err)
    else (t.(nextIp := (t.nextIp + 1) % 0x1_0000_0000), Ok(t.nextIp))
  }

  function AllocateIp6(cfg: Config, t: Tables): (Tables, Result<Option<u128>>) {
    match cfg.end6
    case None => (t, Ok(None))
    case Some(end) =>
      if t.nextIp6 > end then (t, Err)
      else (t.(nextIp6 := (t.nextIp6 + 1) % 0x1_0000_0000_0000_0000_0000_0000_0000_0000), Ok(Some(t.nextIp6)))
  }

  /** The IPv4 address for a client: its static one if free, else the next of the pool. */
  function ChooseIp(cfg: Config, t: Tables, fixed: Static): (Tables, Result<u32>) {
    match fixed
    case StaticV4(ip) => (t, if ip in t.routes then Err else Ok(ip))
    case StaticV6 => (t, Err)
    case NoStatic => AllocateIp(cfg, t)
  }

  function Assign4(t: Tables, addr: Addr, ip: u32): Tables
    requires addr in t.sessions
  {
    t.(sessions := t.sessions[addr := t.sessions[addr].(ip4 := Some(ip))], routes := t.routes[ip := addr])
  }

  function Assign6(t: Tables, addr: Addr, ip: u128): Tables
    requires addr in t.sessions
  {
    t.(sessions := t.sessions[addr := t.sessions[addr].(ip6 := Some(ip))], routes6 := t.routes6[ip := addr])
  }

  function Establish(t: Tables, addr: Addr): Tables
    requires addr in t.sessions
  {
    t.(sessions := t.sessions[addr := t.sessions[addr].(established := true)])
  }

  /** The IPv6 half of an assignment; if the pool is exhausted, the IPv4 half stays in place. */
  function Finish(cfg: Config, t: Tables, addr: Addr): (Tables, bool)
    requires addr in t.sessions
  {
    var (t1, r) := AllocateIp6(cfg, t);
    match r
    case Err => (t1, false)
    case Ok(None) => (Establish(t1, addr), true)
    case Ok(Some(ip6)) => (Establish(Assign6(t1, addr, ip6), addr), true)
  }

  /** A PUSH_REQUEST on a session that waits for one: the outcome is whether it is established. */
  function Push(cfg: Config, t: Tables, addr: Addr, fixed: Static): (Tables, bool) {
    if addr !in t.sessions || t.sessions[addr].established then (t, false)
    else
      var (t1, r) := ChooseIp(cfg, t, fixed);
      match r
      case Err => (t1, false)
      case Ok(ip) => Finish(cfg, Assign4(t1, addr, ip), addr)
  }

  function Without<K, V>(m: map<K, V>, k: Option<K>): map<K, V> {
    match k case Some(key) => m - {key} case None => m
  }

  /** Idle eviction and the end of a TCP stream do the same to the tables. */
  function Remove(t: Tables, addr: Addr): Tables {
    if addr !in t.sessions then t
    else
      var e := t.sessions[addr];
      t.(sessions := t.sessions - {addr},
         routes := Without(t.routes, e.ip4),
         routes6 := Without(t.routes6, e.ip6),
         peers := t.peers - {e.peerId},
         dataRoutes := t.dataRoutes - {e.peerId})
  }

  // ---------------------------------------------------------------------------------------------
  // Agreement between the tables
  // ---------------------------------------------------------------------------------------------

  predicate RoutesAgree(t: Tables) {
    && (forall ip | ip in t.routes :: t.routes[ip] in t.sessions && t.sessions[t.routes[ip]].ip4 == Some(ip))
    && (forall a | a in t.sessions && t.sessions[a].ip4.Some? ::
          t.sessions[a].ip4.value in t.routes && t.routes[t.sessions[a].ip4.value] == a)
  }

  predicate Routes6Agree(t: Tables) {
    && (forall ip | ip in t.routes6 :: t.routes6[ip] in t.sessions && t.sessions[t.routes6[ip]].ip6 == Some(ip))
    && (forall a | a in t.sessions && t.sessions[a].ip6.Some? ::
          t.sessions[a].ip6.value in t.routes6 && t.routes6[t.sessions[a].ip6.value] == a)
  }

  predicate PeersAgree(t: Tables) {
    && (forall id | id in t.peers :: t.peers[id] in t.sessions && t.sessions[t.peers[id]].peerId == id)
    && (forall a | a in t.sessions :: t.sessions[a].peerId in t.peers && t.peers[t.sessions[a].peerId] == a)
    && t.dataRoutes == t.peers
  }

  predicate Agree(t: Tables) {
    RoutesAgree(t) && Routes6Agree(t) && PeersAgree(t)
  }

  /** Creation keeps the tables in agreement exactly when the masked peer id is free and there is a
      TUN writer. */
  lemma CreateKeepsExactly(t: Tables, addr: Addr, sent: bool, ready: bool)
    requires Agree(t)
    ensures Agree(Create(t, addr, sent, ready))
        <==> addr in t.sessions || !sent || (ready && t.nextPeerId % 0x100_0000 !in t.peers)
  {
    var peerId := t.nextPeerId % 0x100_0000;
    if addr !in t.sessions && sent {
      if peerId in t.peers {
        CreateCollides(t, addr, ready);
      } else if ready {
        CreateFresh(t, addr);
      } else {
        var t' := Create(t, addr, sent, ready);
        assert peerId in t'.peers && peerId !in t'.dataRoutes;
      }
    }
  }

  lemma CreateFresh(t: Tables, addr: Addr)
    requires Agree(t) && addr !in t.sessions && t.nextPeerId % 0x100_0000 !in t.peers
    ensures Agree(Create(t, addr, true, true))
  {
    var t' := Create(t, addr, true, true);
    assert RoutesAgree(t');
    assert Routes6Agree(t');
    assert PeersAgree(t');
  }

  lemma CreateCollides(t: Tables, addr: Addr, ready: bool)
    requires Agree(t) && addr !in t.sessions && t.nextPeerId % 0x100_0000 in t.peers
    ensures !PeersAgree(Create(t, addr, true, ready))
  {
    var peerId := t.nextPeerId % 0x100_0000;
    var t' := Create(t, addr, true, ready);
    var holder := t.peers[peerId];
    assert holder in t'.sessions && t'.sessions[holder].peerId == peerId;
    assert t'.peers[peerId] == addr;
  }

  lemma RemoveKeeps(t: Tables, addr: Addr)
    requires Agree(t)
    ensures Agree(Remove(t, addr))
  {
    if addr in t.sessions {
      var t' := Remove(t, addr);
      assert RoutesAgree(t');
      assert Routes6Agree(t');
      assert PeersAgree(t');
    }
  }

  /** An address may be given to a session that has none yet if it is free; the one it already has
      may be given again. */
  predicate May4(t: Tables, addr: Addr, ip: u32)
    requires addr in t.sessions
  {
    (ip !in t.routes && t.sessions[addr].ip4.None?) || t.sessions[addr].ip4 == Some(ip)
  }

  predicate May6(t: Tables, addr: Addr, ip: u128)
    requires addr in t.sessions
  {
    (ip !in t.routes6 && t.sessions[addr].ip6.None?) || t.sessions[addr].ip6 == Some(ip)
  }

  lemma Assign4Bad(t: Tables, addr: Addr, ip: u32)
    requires RoutesAgree(t) && addr in t.sessions && !May4(t, addr, ip)
    ensures !RoutesAgree(Assign4(t, addr, ip))
  {
    var t' := Assign4(t, addr, ip);
    var old4 := t.sessions[addr].ip4;
    if old4.Some? {
      assert t'.routes[old4.value] == addr && t'.sessions[addr].ip4 == Some(ip);
    } else {
      var holder := t.routes[ip];
      assert t'.sessions[holder].ip4 == Some(ip) && t'.routes[ip] == addr;
    }
  }

  lemma Assign4Exact(t: Tables, addr: Addr, ip: u32)
    requires RoutesAgree(t) && addr in t.sessions
    ensures RoutesAgree(Assign4(t, addr, ip)) <==> May4(t, addr, ip)
  {
    if !May4(t, addr, ip) {
      Assign4Bad(t, addr, ip);
    }
  }

  lemma Assign4Rest(t: Tables, addr: Addr, ip: u32)
    requires addr in t.sessions
    ensures Routes6Agree(t) ==> Routes6Agree(Assign4(t, addr, ip))
    ensures PeersAgree(t) ==> PeersAgree(Assign4(t, addr, ip))
  {}

  lemma Assign6Bad(t: Tables, addr: Addr, ip: u128)
    requires Routes6Agree(t) && addr in t.sessions && !May6(t, addr, ip)
    ensures !Routes6Agree(Assign6(t, addr, ip))
  {
    var t' := Assign6(t, addr, ip);
    var old6 := t.sessions[addr].ip6;
    if old6.Some? {
      assert t'.routes6[old6.value] == addr && t'.sessions[addr].ip6 == Some(ip);
    } else {
      var holder := t.routes6[ip];
      assert t'.sessions[holder].ip6 == Some(ip) && t'.routes6[ip] == addr;
    }
  }

  lemma Assign6Exact(t: Tables, addr: Addr, ip: u128)
    requires Routes6Agree(t) && addr in t.sessions
    ensures Routes6Agree(Assign6(t, addr, ip)) <==> May6(t, addr, ip)
  {
    if !May6(t, addr, ip) {
      Assign6Bad(t, addr, ip);
    }
  }

  /** Changing the IPv6 address or the established mark of a session touches no other table. */
  lemma OthersFollow(t: Tables, t': Tables)
    requires t'.sessions.Keys == t.sessions.Keys
    requires forall a | a in t.sessions ::
               t'.sessions[a].ip4 == t.sessions[a].ip4 && t'.sessions[a].peerId == t.sessions[a].peerId
    requires t'.routes == t.routes && t'.peers == t.peers && t'.dataRoutes == t.dataRoutes
    ensures RoutesAgree(t') <==> RoutesAgree(t)
    ensures PeersAgree(t') <==> PeersAgree(t)
  {
    assert forall a :: a in t'.sessions <==> a in t.sessions;
  }

  lemma EstablishKeeps(t: Tables, addr: Addr)
    requires addr in t.sessions
    ensures Agree(Establish(t, addr)) <==> Agree(t)
  {
    var t' := Establish(t, addr);
    assert t'.sessions.Keys == t.sessions.Keys;
    OthersFollow(t, t');
    assert forall a :: a in t'.sessions <==> a in t.sessions;
    assert forall a | a in t.sessions :: t'.sessions[a].ip6 == t.sessions[a].ip6;
  }

  /** When the IPv6 half of an assignment is sound. */
  predicate FinishSafe(cfg: Config, t: Tables, addr: Addr)
    requires addr in t.sessions
  {
    cfg.end6.Some? && t.nextIp6 <= cfg.end6.value ==> May6(t, addr, t.nextIp6)
  }

  lemma Assign6Agree(t: Tables, addr: Addr, ip: u128)
    requires addr in t.sessions && Routes6Agree(t) && PeersAgree(t)
    ensures Agree(Assign6(t, addr, ip)) <==> RoutesAgree(t) && May6(t, addr, ip)
  {
    var t' := Assign6(t, addr, ip);
    assert t'.sessions.Keys == t.sessions.Keys;
    OthersFollow(t, t');
    Assign6Exact(t, addr, ip);
  }

  /** The pool counter is nobody's address. */
  lemma CounterIrrelevant(t: Tables, next: u128, addr: Addr, ip: u128)
    requires addr in t.sessions
    ensures var t' := t.(nextIp6 := next);
            && (Agree(t') <==> Agree(t)) && (RoutesAgree(t') <==> RoutesAgree(t))
            && (Routes6Agree(t') <==> Routes6Agree(t))
            && (PeersAgree(t') <==> PeersAgree(t)) && (May6(t', addr, ip) <==> May6(t, addr, ip))
  {}

  lemma FinishExact(cfg: Config, t: Tables, addr: Addr)
    requires addr in t.sessions && Routes6Agree(t) && PeersAgree(t)
    ensures Agree(Finish(cfg, t, addr).0) <==> RoutesAgree(t) && FinishSafe(cfg, t, addr)
  {
    if cfg.end6.None? {
      EstablishKeeps(t, addr);
    } else if t.nextIp6 <= cfg.end6.value {
      var t1 := AllocateIp6(cfg, t).0;
      CounterIrrelevant(t, t1.nextIp6, addr, t.nextIp6);
      Assign6Agree(t1, addr, t.nextIp6);
      EstablishKeeps(Assign6(t1, addr, t.nextIp6), addr);
    }
  }

  /** When a PUSH_REQUEST keeps the tables in agreement: the addresses handed out are free, and the
      session does not already hold others. */
  predicate PushSafe(cfg: Config, t: Tables, addr: Addr, fixed: Static) {
    (addr in t.sessions && !t.sessions[addr].established && ChooseIp(cfg, t, fixed).1.Ok?) ==>
      && May4(t, addr, ChooseIp(cfg, t, fixed).1.value)
      && FinishSafe(cfg, t, addr)
  }

  lemma AssignThenFinish(cfg: Config, t: Tables, addr: Addr, ip: u32)
    requires Agree(t) && addr in t.sessions
    ensures Agree(Finish(cfg, Assign4(t, addr, ip), addr).0) <==> May4(t, addr, ip) && FinishSafe(cfg, t, addr)
  {
    Assign4Exact(t, addr, ip);
    Assign4Rest(t, addr, ip);
    FinishExact(cfg, Assign4(t, addr, ip), addr);
  }

  lemma ChoosingKeeps(cfg: Config, t: Tables, fixed: Static)
    requires Agree(t)
    ensures var t1 := ChooseIp(cfg, t, fixed).0;
            Agree(t1) && t1 == t.(nextIp := t1.nextIp)
  {}

  lemma PushKeepsExactly(cfg: Config, t: Tables, addr: Addr, fixed: Static)
    requires Agree(t)
    ensures Agree(Push(cfg, t, addr, fixed).0) <==> PushSafe(cfg, t, addr, fixed)
  {
    if addr in t.sessions && !t.sessions[addr].established {
      var (t1, r) := ChooseIp(cfg, t, fixed);
      ChoosingKeeps(cfg, t, fixed);
      if r.Ok? {
        AssignThenFinish(cfg, t1, addr, r.value);
      }
    }
  }

  // ---------------------------------------------------------------------------------------------
  // Whole runs
  // ---------------------------------------------------------------------------------------------

  datatype Event =
    | Creates(newcomer: Addr, sent: bool, ready: bool)
    | Pushes(client: Addr, fixed: Static)
    | Removes(leaver: Addr)

  function Step(cfg: Config, t: Tables, e: Event): Tables {
    match e
    case Creates(addr, sent, ready) => Create(t, addr, sent, ready)
    case Pushes(addr, fixed) => Push(cfg, t, addr, fixed).0
    case Removes(addr) => Remove(t, addr)
  }

  function After(cfg: Config, events: seq<Event>): Tables {
    if events == [] then Initial(cfg) else Step(cfg, After(cfg, events[..|events| - 1]), events[|events| - 1])
  }

  /** Neither pool ends at the largest address, and each starts no later than one past its end. */
  predicate PoolsValid(cfg: Config) {
    && cfg.start <= cfg.end + 1 && cfg.end < U32_COUNT - 1
    && (cfg.end6.Some? ==> cfg.start6 <= cfg.end6.value + 1 && cfg.end6.value < U128_COUNT - 1)
  }

  /** What the operator provides for: at most 2^24 sessions, static addresses outside the pool, and
      an IPv6 pool that does not run out; the server sets the TUN writer before it receives anything. */
  predicate Provided(cfg: Config, t: Tables, e: Event) {
    match e
    case Creates(_, _, ready) => ready && t.nextPeerId <= PEER_ID_SPACE
    case Pushes(_, fixed) =>
      && (fixed.StaticV4? ==> !(cfg.start <= fixed.v4 <= cfg.end))
      && (cfg.end6.Some? ==> t.nextIp6 <= cfg.end6.value)
    case Removes(_) => true
  }

  ghost predicate AllProvided(cfg: Config, events: seq<Event>) {
    forall n: nat | n < |events| :: Provided(cfg, After(cfg, events[..n]), events[n])
  }

  /** Addresses in use lie behind the pool counters, or outside the pool. */
  ghost predicate AddressesBehind(cfg: Config, t: Tables) {
    && cfg.start <= t.nextIp <= cfg.end + 1
    && (forall ip | ip in t.routes && cfg.start <= ip <= cfg.end :: ip < t.nextIp)
    && (cfg.end6.Some? ==> t.nextIp6 <= cfg.end6.value + 1)
    && (forall ip | ip in t.routes6 :: ip < t.nextIp6)
  }

  ghost predicate PeersBehind(t: Tables) {
    && 1 <= t.nextPeerId <= PEER_ID_SPACE + 1
    && (t.nextPeerId <= PEER_ID_SPACE ==> forall id | id in t.peers :: 1 <= id < t.nextPeerId)
  }

  /** A session holds no address before it is established. */
  ghost predicate BlankAtFirst(t: Tables) {
    forall a | a in t.sessions && !t.sessions[a].established :: t.sessions[a].ip4.None? && t.sessions[a].ip6.None?
  }

  ghost predicate Behind(cfg: Config, t: Tables) {
    AddressesBehind(cfg, t) && PeersBehind(t) && BlankAtFirst(t)
  }

  lemma PeerIdIsFree(t: Tables)
    requires PeersBehind(t) && t.nextPeerId <= PEER_ID_SPACE
    ensures t.nextPeerId % 0x100_0000 !in t.peers
  {}

  lemma CreateBehind(cfg: Config, t: Tables, addr: Addr, sent: bool, ready: bool)
    requires Behind(cfg, t) && t.nextPeerId <= PEER_ID_SPACE
    ensures Behind(cfg, Create(t, addr, sent, ready))
  {}

  lemma RemoveBehind(cfg: Config, t: Tables, addr: Addr)
    requires Behind(cfg, t)
    ensures Behind(cfg, Remove(t, addr))
  {}

  lemma ChooseBehind(cfg: Config, t: Tables, addr: Addr, fixed: Static)
    requires PoolsValid(cfg) && AddressesBehind(cfg, t) && addr in t.sessions
    requires fixed.StaticV4? ==> !(cfg.start <= fixed.v4 <= cfg.end)
    ensures var (t1, r) := ChooseIp(cfg, t, fixed);
            && t1 == t.(nextIp := t1.nextIp) && AddressesBehind(cfg, t1)
            && (r.Ok? ==> r.value !in t.routes && AddressesBehind(cfg, Assign4(t1, addr, r.value)))
  {}

  lemma FinishBehind(cfg: Config, t: Tables, addr: Addr)
    requires PoolsValid(cfg) && AddressesBehind(cfg, t) && addr in t.sessions
    requires cfg.end6.Some? ==> t.nextIp6 <= cfg.end6.value
    ensures var (t', ok) := Finish(cfg, t, addr);
            && ok && AddressesBehind(cfg, t')
            && t'.peers == t.peers && t'.nextPeerId == t.nextPeerId
            && t'.sessions.Keys == t.sessions.Keys && t'.sessions[addr].established
            && forall a | a in t.sessions && a != addr :: t'.sessions[a] == t.sessions[a]
  {}

  lemma PushBehind(cfg: Config, t: Tables, addr: Addr, fixed: Static)
    requires PoolsValid(cfg) && Agree(t) && Behind(cfg, t) && Provided(cfg, t, Pushes(addr, fixed))
    ensures PushSafe(cfg, t, addr, fixed)
    ensures Behind(cfg, Push(cfg, t, addr, fixed).0)
  {
    if addr in t.sessions && !t.sessions[addr].established {
      ChooseBehind(cfg, t, addr, fixed);
      var (t1, r) := ChooseIp(cfg, t, fixed);
      if r.Ok? {
        var t2 := Assign4(t1, addr, r.value);
        FinishBehind(cfg, t2, addr);
        assert BlankAtFirst(Finish(cfg, t2, addr).0);
      }
    }
  }

  lemma StepBehind(cfg: Config, t: Tables, e: Event)
    requires PoolsValid(cfg) && Agree(t) && Behind(cfg, t) && Provided(cfg, t, e)
    ensures Agree(Step(cfg, t, e)) && Behind(cfg, Step(cfg, t, e))
  {
    match e
    case Creates(addr, sent, ready) =>
      PeerIdIsFree(t);
      CreateKeepsExactly(t, addr, sent, ready);
      CreateBehind(cfg, t, addr, sent, ready);
    case Pushes(addr, fixed) =>
      PushBehind(cfg, t, addr, fixed);
      PushKeepsExactly(cfg, t, addr, fixed);
    case Removes(addr) =>
      RemoveKeeps(t, addr);
      RemoveBehind(cfg, t, addr);
  }

  /**
    Table agreement: under what the operator provides for, every interleaving of session creation,
    PUSH_REQUEST, idle eviction and TCP close keeps all tables in agreement.
   */
  lemma {:induction false} TablesAgree(cfg: Config, events: seq<Event>)
    requires PoolsValid(cfg) && AllProvided(cfg, events)
    ensures Agree(After(cfg, events)) && Behind(cfg, After(cfg, events))
  {
    if events != [] {
      var n := |events| - 1;
      assert Provided(cfg, After(cfg, events[..n]), events[n]);
      assert forall m: nat | m < n :: events[..n][..m] == events[..m];
      TablesAgree(cfg, events[..n]);
      StepBehind(cfg, After(cfg, events[..n]), events[n]);
    }
  }

  /** Whether a client can be given an address now. */
  predicate Available(cfg: Config, t: Tables, fixed: Static) {
    match fixed
    case NoStatic => t.nextIp <= cfg.end
    case StaticV4(ip) => ip !in t.routes
    case StaticV6 => false
  }

  /**
    Under the same provisions a waiting session is established exactly when an address is available,
    and then it holds that address, which nobody held before, and an IPv6 address if there is a pool.
   */
  lemma PushGrants(cfg: Config, t: Tables, addr: Addr, fixed: Static)
    requires PoolsValid(cfg) && Agree(t) && Behind(cfg, t) && Provided(cfg, t, Pushes(addr, fixed))
    requires addr in t.sessions && !t.sessions[addr].established
    ensures var (t', ok) := Push(cfg, t, addr, fixed);
            && (ok <==> Available(cfg, t, fixed))
            && (ok ==>
                  && addr in t'.sessions && t'.sessions[addr].established
                  && t'.sessions[addr].peerId == t.sessions[addr].peerId
                  && t'.sessions[addr].ip4.Some? && t'.sessions[addr].ip4.value !in t.routes
                  && (fixed.StaticV4? ==> t'.sessions[addr].ip4.value == fixed.v4)
                  && (t'.sessions[addr].ip6.Some? <==> cfg.end6.Some?))
  {
    ChooseBehind(cfg, t, addr, fixed);
    var (t1, r) := ChooseIp(cfg, t, fixed);
    if r.Ok? {
      FinishBehind(cfg, Assign4(t1, addr, r.value), addr);
    }
  }

  /** The pool address an event hands out, if it does. */
  function GrantOf(cfg: Config, t: Tables, e: Event): seq<u32> {
    if e.Pushes? && e.fixed.NoStatic? && e.client in t.sessions && !t.sessions[e.client].established then
      match ChooseIp(cfg, t, e.fixed).1 case Ok(ip) => [ip] case Err => []
    else []
  }

  /** The pool addresses handed out over a run, in order. */
  function PoolGrants(cfg: Config, events: seq<Event>): seq<u32> {
    if events == [] then []
    else
      var before := events[..|events| - 1];
      PoolGrants(cfg, before) + GrantOf(cfg, After(cfg, before), events[|events| - 1])
  }

  lemma FinishKeepsCounter(cfg: Config, t: Tables, addr: Addr)
    requires addr in t.sessions
    ensures Finish(cfg, t, addr).0.nextIp == t.nextIp
  {}

  /** An address handed out is the counter's, and the counter moves to the one after it. */
  lemma GrantIsNext(cfg: Config, t: Tables, e: Event)
    ensures var g := GrantOf(cfg, t, e);
            && (g == [] || (g == [t.nextIp] && t.nextIp <= cfg.end))
            && Step(cfg, t, e).nextIp == if g == [] then t.nextIp else (t.nextIp + 1) % 0x1_0000_0000
  {
    if e.Pushes? && e.client in t.sessions && !t.sessions[e.client].established {
      var (t1, r) := ChooseIp(cfg, t, e.fixed);
      if r.Ok? {
        FinishKeepsCounter(cfg, Assign4(t1, e.client, r.value), e.client);
      }
    }
  }

  /** The `i`th address from `start` on; addresses are 32-bit words. */
  function NthIp(start: u32, i: nat): u32 {
    (start + i) % 0x1_0000_0000
  }

  lemma NthIpNext(start: u32, i: nat)
    ensures NthIp(start, i + 1) == (NthIp(start, i) + 1) % 0x1_0000_0000
  {
    WrapAdd(start + i, 1);
  }

  /** `log` holds the addresses from `start` on, none skipped, and `next` comes after them. */
  ghost predicate InSuccession(start: u32, end: u32, log: seq<u32>, next: u32) {
    next == NthIp(start, |log|) && forall i | 0 <= i < |log| :: log[i] == NthIp(start, i) && log[i] <= end
  }

  lemma SuccessionGrows(start: u32, end: u32, log: seq<u32>, next: u32)
    requires InSuccession(start, end, log, next) && next <= end
    ensures InSuccession(start, end, log + [next], (next + 1) % 0x1_0000_0000)
  {
    NthIpNext(start, |log|);
  }

  /** Over every run the pool is handed out from its start, address by address, none skipped. */
  lemma {:induction false} PoolInOrder(cfg: Config, events: seq<Event>)
    ensures InSuccession(cfg.start, cfg.end, PoolGrants(cfg, events), After(cfg, events).nextIp)
  {
    if events != [] {
      var n := |events| - 1;
      var t, log := After(cfg, events[..n]), PoolGrants(cfg, events[..n]);
      PoolInOrder(cfg, events[..n]);
      GrantIsNext(cfg, t, events[n]);
      if GrantOf(cfg, t, events[n]) == [] {
        assert log + [] == log;
      } else {
        SuccessionGrows(cfg.start, cfg.end, log, t.nextIp);
      }
    }
  }

  /** So no pool address is handed out twice, if the pool does not end at the largest address. */
  lemma PoolNeverRepeats(cfg: Config, events: seq<Event>)
    requires cfg.end < U32_COUNT - 1
    ensures Distinct(PoolGrants(cfg, events))
  {
    PoolInOrder(cfg, events);
    SuccessionIsDistinct(cfg.start, cfg.end, PoolGrants(cfg, events), After(cfg, events).nextIp);
  }

  lemma {:induction false} SuccessionIsDistinct(start: u32, end: u32, log: seq<u32>, next: u32)
    requires InSuccession(start, end, log, next) && end < U32_COUNT - 1
    ensures Distinct(log) && (log != [] ==> start + |log| <= end + 1)
  {
    if log != [] {
      var n := |log| - 1;
      SuccessionIsDistinct(start, end, log[..n], NthIp(start, n));
      assert log[n] == NthIp(start, n) <= end;
      assert forall i | 0 <= i < n :: log[..n][i] == log[i];
      assert start + n <= end + 1;
      assert forall i | 0 <= i < n :: log[i] == start + i;
    }
  }

  /** After a removal no table mentions the address, and every other session is as before. */
  lemma RemoveForgets(t: Tables, addr: Addr)
    requires Agree(t)
    ensures var t' := Remove(t, addr);
            && addr !in t'.sessions && addr !in t'.routes.Values && addr !in t'.routes6.Values
            && addr !in t'.peers.Values && addr !in t'.dataRoutes.Values
            && forall a | a in t.sessions && a != addr :: a in t'.sessions && t'.sessions[a] == t.sessions[a]
  {
    RemoveKeeps(t, addr);
  }

  // ---------------------------------------------------------------------------------------------
  // Where packets go
  // ---------------------------------------------------------------------------------------------

  datatype Destination = To4(ip4: u32) | To6(ip6: u128) | Nowhere

  /** The destination address of an IP packet, as `forward_tun_to_client` reads it. */
  function DestinationOf(pkt: ByteString): Destination {
    if pkt == [] then Nowhere
    else if pkt[0] / 16 == 4 then (if |pkt| < 20 then Nowhere else To4(U32(pkt[16..20])))
    else if pkt[0] / 16 == 6 then (if |pkt| < 40 then Nowhere else SixteenBytes(pkt[24..40]); To6(FromBe(pkt[24..40])))
    else Nowhere
  }

  lemma SixteenBytes(s: ByteString)
    requires |s| == 16
    ensures FromBe(s) < U128_COUNT
  {
    Pow256Of16();
  }

  const W128: nat := 16

  lemma Pow256Of16()
    ensures Pow256(W128) == U128_COUNT
  {
    assert Pow256(8) == 0x1_0000_0000_0000_0000;
    assert Pow256(12) == 0x1_0000_0000_0000_0000_0000_0000;
  }

  /** The destination is where IPv4 and IPv6 headers carry it. */
  lemma DestinationOfHeaders(first: byte, rest: ByteString, ip4: u32, ip6: u128, payload: ByteString)
    ensures first / 16 == 4 && |rest| == 15 ==>
              DestinationOf([first] + rest + ToBe(W32, ip4) + payload) == To4(ip4)
    ensures first / 16 == 6 && |rest| == 23 ==>
              DestinationOf([first] + rest + ToBe(W128, ip6) + payload) == To6(ip6)
  {
    if first / 16 == 4 && |rest| == 15 {
      assert ([first] + rest + ToBe(W32, ip4) + payload)[16..20] == ToBe(W32, ip4);
      U32RoundTrip(ip4);
    }
    if first / 16 == 6 && |rest| == 23 {
      assert ([first] + rest + ToBe(W128, ip6) + payload)[24..40] == ToBe(W128, ip6);
      Pow256Of16();
      FromToBe(W128, ip6);
    }
  }

  /** Exactly the packets that have a destination, and which. */
  lemma DestinationExact(pkt: ByteString, ip4: u32, ip6: u128)
    ensures DestinationOf(pkt) == To4(ip4) <==> |pkt| >= 20 && 64 <= pkt[0] < 80 && pkt[16..20] == ToBe(W32, ip4)
    ensures DestinationOf(pkt) == To6(ip6) <==> |pkt| >= 40 && 96 <= pkt[0] < 112 && pkt[24..40] == ToBe(W128, ip6)
  {
    if |pkt| >= 20 {
      U32RoundTrip(ip4);
      ToFromBe(pkt[16..20]);
    }
    if |pkt| >= 40 {
      Pow256Of16();
      FromToBe(W128, ip6);
      ToFromBe(pkt[24..40]);
    }
  }

  /** The session for which a packet from the TUN device is sealed. */
  function TunTarget(t: Tables, pkt: ByteString): Option<Addr> {
    var addr := match DestinationOf(pkt)
      case To4(ip) => if ip in t.routes then Some(t.routes[ip]) else None
      case To6(ip) => if ip in t.routes6 then Some(t.routes6[ip]) else None
      case Nowhere => None;
    if addr.Some? && addr.value in t.sessions then addr else None
  }

  predicate HoldsDestination(e: Entry, d: Destination) {
    match d
    case To4(ip) => e.ip4 == Some(ip)
    case To6(ip) => e.ip6 == Some(ip)
    case Nowhere => false
  }

  /** While the tables agree, a packet from the TUN device goes to a session if and only if that
      session holds its destination address. */
  lemma TunTargetExact(t: Tables, pkt: ByteString, addr: Addr)
    requires Agree(t)
    ensures TunTarget(t, pkt) == Some(addr)
        <==> addr in t.sessions && HoldsDestination(t.sessions[addr], DestinationOf(pkt))
  {}

  /** The session whose worker gets a datagram. */
  function DataTarget(t: Tables, pkt: ByteString): Option<Addr> {
    match ParseData(pkt)
    case Err => None
    case Ok(dp) => if dp.peerId in t.dataRoutes then Some(t.dataRoutes[dp.peerId]) else None
  }

  lemma DataTargetExact(t: Tables, pkt: ByteString, addr: Addr)
    requires Agree(t)
    ensures DataTarget(t, pkt) == Some(addr)
        <==> ParseData(pkt).Ok? && addr in t.sessions && t.sessions[addr].peerId == ParseData(pkt).value.peerId
  {}

  // ---------------------------------------------------------------------------------------------
  // What happens when an IPv6 pool runs out
  // ---------------------------------------------------------------------------------------------

  lemma AfterNext(cfg: Config, events: seq<Event>, e: Event)
    ensures After(cfg, events + [e]) == Step(cfg, After(cfg, events), e)
  {
    assert (events + [e])[..|events|] == events;
  }

  /** With the IPv6 pool exhausted, two PUSH_REQUESTs of one client leave a route behind. */
  lemma ExhaustedPoolExample(addr: Addr)
    ensures var cfg := Config(10, 20, 6, Some(5));
            !Agree(After(cfg, [Creates(addr, true, true), Pushes(addr, NoStatic), Pushes(addr, NoStatic)]))
  {
    var cfg := Config(10, 20, 6, Some(5));
    var e1, e2 := Creates(addr, true, true), Pushes(addr, NoStatic);
    assert [] + [e1] == [e1] && [e1] + [e2] == [e1, e2] && [e1, e2] + [e2] == [e1, e2, e2];
    AfterNext(cfg, [], e1);
    AfterNext(cfg, [e1], e2);
    AfterNext(cfg, [e1, e2], e2);
    var t1 := Step(cfg, Initial(cfg), e1);
    assert t1.sessions[addr] == Entry(1, None, None, false);
    ExhaustedPushes(cfg, t1, addr);
  }

  lemma ExhaustedPushes(cfg: Config, t: Tables, addr: Addr)
    requires cfg == Config(10, 20, 6, Some(5)) && t.nextIp == 10 && t.nextIp6 == 6
    requires addr in t.sessions && t.sessions[addr] == Entry(1, None, None, false)
    ensures !Agree(Push(cfg, Push(cfg, t, addr, NoStatic).0, addr, NoStatic).0)
  {
    var t2 := Push(cfg, t, addr, NoStatic).0;
    assert t2.sessions[addr] == Entry(1, Some(10), None, false) && t2.nextIp == 11 && t2.routes[10] == addr;
    var t3 := Push(cfg, t2, addr, NoStatic).0;
    assert t3.routes[10] == addr && t3.sessions[addr].ip4 == Some(11);
  }

  // ---------------------------------------------------------------------------------------------
  // What happens without the other provisions
  // ---------------------------------------------------------------------------------------------

  /** With a static address inside the pool, the pool gives one client's address to another. */
  lemma StaticInPoolExample(a: Addr, b: Addr)
    requires a != b
    ensures var t := After(Config(10, 20, 0, None),
                           [Creates(a, true, true), Creates(b, true, true), Pushes(a, StaticV4(10)),
                            Pushes(b, NoStatic)]);
            !Agree(t) && a in t.sessions && t.sessions[a].ip4 == Some(10) && 10 in t.routes && t.routes[10] == b
  {
    var cfg := Config(10, 20, 0, None);
    var e1, e2, e3, e4 := Creates(a, true, true), Creates(b, true, true), Pushes(a, StaticV4(10)), Pushes(b, NoStatic);
    assert [] + [e1] == [e1] && [e1] + [e2] == [e1, e2] && [e1, e2] + [e3] == [e1, e2, e3];
    assert [e1, e2, e3] + [e4] == [e1, e2, e3, e4];
    AfterNext(cfg, [], e1);
    AfterNext(cfg, [e1], e2);
    AfterNext(cfg, [e1, e2], e3);
    AfterNext(cfg, [e1, e2, e3], e4);
    var t2 := Step(cfg, Step(cfg, Initial(cfg), e1), e2);
    assert t2.routes == map[] && t2.nextIp == 10 && a in t2.sessions && b in t2.sessions;
    StaticInPool(cfg, t2, a, b);
  }

  lemma StaticInPool(cfg: Config, t: Tables, a: Addr, b: Addr)
    requires cfg == Config(10, 20, 0, None) && a != b && a in t.sessions && b in t.sessions
    requires !t.sessions[a].established && !t.sessions[b].established && t.routes == map[] && t.nextIp == 10
    ensures var t' := Push(cfg, Push(cfg, t, a, StaticV4(10)).0, b, NoStatic).0;
            !Agree(t') && a in t'.sessions && t'.sessions[a].ip4 == Some(10) && 10 in t'.routes && t'.routes[10] == b
  {}

  /** `n` hard resets in a row whose reply cannot be sent; each uses up a peer id. */
  function FailedCreations(addr: Addr, n: nat): seq<Event> {
    if n == 0 then [] else FailedCreations(addr, n - 1) + [Creates(addr, false, true)]
  }

  /** `t'` is `t` with `n` more peer ids used up. */
  predicate UsedUp(t: Tables, t': Tables, n: nat) {
    t.nextPeerId + n < U32_COUNT && t' == t.(nextPeerId := t.nextPeerId + n)
  }

  lemma FailureUsesId(cfg: Config, t: Tables, t': Tables, addr: Addr, n: nat)
    requires addr !in t.sessions && UsedUp(t, t', n) && t.nextPeerId + n + 1 < U32_COUNT
    ensures UsedUp(t, Step(cfg, t', Creates(addr, false, true)), n + 1)
  {}

  lemma {:induction false} FailuresUseIds(cfg: Config, events: seq<Event>, t: Tables, addr: Addr, n: nat)
    requires t == After(cfg, events) && addr !in t.sessions && t.nextPeerId + n < U32_COUNT
    ensures UsedUp(t, After(cfg, events + FailedCreations(addr, n)), n)
  {
    if n == 0 {
      assert events + FailedCreations(addr, n) == events;
    } else {
      var before, last := events + FailedCreations(addr, n - 1), Creates(addr, false, true);
      FailuresUseIds(cfg, events, t, addr, n - 1);
      assert events + FailedCreations(addr, n) == before + [last];
      AfterNext(cfg, before, last);
      FailureUsesId(cfg, t, After(cfg, before), addr, n - 1);
    }
  }

  /** After 2^24 - 1 such failures the peer id of a living session is handed out again. */
  lemma PeerIdCollisionExample(cfg: Config, a: Addr, b: Addr)
    requires a != b
    ensures var failures := FailedCreations(b, PEER_ID_SPACE - 1);
            !Agree(After(cfg, [Creates(a, true, true)] + failures + [Creates(b, true, true)]))
  {
    var first := Creates(a, true, true);
    assert [] + [first] == [first];
    AfterNext(cfg, [], first);
    var t1 := After(cfg, [first]);
    assert t1.nextPeerId == 2 && t1.peers == map[1 := a] && b !in t1.sessions;
    FailuresUseIds(cfg, [first], t1, b, PEER_ID_SPACE - 1);
    var events := [first] + FailedCreations(b, PEER_ID_SPACE - 1);
    AfterNext(cfg, events, Creates(b, true, true));
    FirstAgrees(cfg, a);
    CreateCollides(After(cfg, events), b, true);
  }

  lemma FirstAgrees(cfg: Config, a: Addr)
    ensures Agree(Create(Initial(cfg), a, true, true).(nextPeerId := PEER_ID_SPACE + 1))
  {}
}
