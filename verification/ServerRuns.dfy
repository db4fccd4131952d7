/**
  Sessions and tables together: the outcome of address assignment is no longer an input, but what the
  tables answer when the session's drive reaches a PUSH_REQUEST (src/server.rs:1078-1122).
 */
module ServerRuns {
  import opened Bytes
  import opened Keyring
  import opened ControlPlane
  import SessionRuns
  import Tables

  datatype Server = Server(tables: Tables.Tables, conns: map<Tables.Addr, Conn>)

  /** A hard reset, a locked section of one session, and the end of a session.  `fixed` and `reply` are
      what the configuration gives the client should it be assigned an address now. */
  datatype Happening =
    | Opens(newcomer: Tables.Addr, sent: bool, ready: bool)
    | Acts(client: Tables.Addr, e: Event, fixed: Tables.Static, reply: ByteString)
    | Ends(leaver: Tables.Addr)

  function Begin(cfg: Tables.Config): Server {
    Server(Tables.Initial(cfg), map[])
  }

  /** The event makes the main track reach a PUSH_REQUEST. */
  predicate Asks(c: Conn, e: Event) {
    && e.Control? && !IsRekeyControl(c, e.keyId)
    && var fed := FeedMain(c, e.chunk, e.tlsUp);
       BehindPush(fed.phase, fed.inbox).Some?
  }

  function Act(env: Env, cfg: Tables.Config, v: Server, addr: Tables.Addr, e: Event, fixed: Tables.Static,
               reply: ByteString)
    : Server
    requires addr in v.conns
  {
    var c := v.conns[addr];
    if Asks(c, e) then
      var (t, ok) := Tables.Push(cfg, v.tables, addr, fixed);
      Server(t, v.conns[addr := Step(env, c, e.(assign := if ok then Ok(reply) else Err))])
    else v.(conns := v.conns[addr := Step(env, c, e)])
  }

  function Next(envs: Tables.Addr -> Env, cfg: Tables.Config, v: Server, h: Happening): Server {
    match h
    case Opens(addr, sent, ready) =>
      Server(Tables.Create(v.tables, addr, sent, ready),
             if addr in v.tables.sessions || !sent then v.conns else v.conns[addr := Start])
    case Acts(addr, e, fixed, reply) => if addr in v.conns then Act(envs(addr), cfg, v, addr, e, fixed, reply) else v
    case Ends(addr) => Server(Tables.Remove(v.tables, addr), v.conns - {addr})
  }

  function After(envs: Tables.Addr -> Env, cfg: Tables.Config, hs: seq<Happening>): Server {
    if hs == [] then Begin(cfg) else Next(envs, cfg, After(envs, cfg, hs[..|hs| - 1]), hs[|hs| - 1])
  }

  // ---------------------------------------------------------------------------------------------
  // When a drive establishes the session
  // ---------------------------------------------------------------------------------------------

  predicate IsUp(p: Phase) {
    Rank(p) >= Rank(Established)
  }

  lemma UpStays(env: Env, assign: Result<ByteString>, c: Conn)
    requires IsUp(c.phase)
    ensures IsUp(Drive(env, assign, c).0.phase)
  {
    SessionRuns.DriveEffect(env, assign, c);
  }

  /** A session that is not established becomes so exactly if the drive reaches a PUSH_REQUEST and
      assignment succeeds. */
  lemma {:induction false} DriveEstablishes(env: Env, assign: Result<ByteString>, c: Conn)
    requires !IsUp(c.phase)
    ensures IsUp(Drive(env, assign, c).0.phase) <==> BehindPush(c.phase, c.inbox).Some? && assign.Ok?
    decreases |c.inbox|
  {
    var (c', v) := Turn(env, assign, c);
    TurnEstablishes(env, assign, c);
    if v.None? {
      if IsUp(c'.phase) {
        UpStays(env, assign, c');
      } else {
        DriveEstablishes(env, assign, c');
      }
    }
  }

  /** One turn of that drive: it establishes, or passes the question on, or ends without a PUSH_REQUEST
      that succeeds. */
  lemma TurnEstablishes(env: Env, assign: Result<ByteString>, c: Conn)
    requires !IsUp(c.phase)
    ensures var (c', v) := Turn(env, assign, c);
            && (IsUp(c'.phase) ==> v.None? && BehindPush(c.phase, c.inbox).Some? && assign.Ok?)
            && (!IsUp(c'.phase) && v.None? ==> BehindPush(c.phase, c.inbox) == BehindPush(c'.phase, c'.inbox))
            && (!IsUp(c'.phase) && v.Some? ==> BehindPush(c.phase, c.inbox).None? || assign.Err?)
  {}

  lemma UpHasNoPush(phase: Phase, buf: ByteString)
    requires IsUp(phase)
    ensures BehindPush(phase, buf).None?
  {}

  lemma MainEstablishes(env: Env, assign: Result<ByteString>, c: Conn, chunk: ByteString, tlsUp: bool)
    ensures var fed := FeedMain(c, chunk, tlsUp);
            IsUp(HandleMain(env, assign, c, chunk, tlsUp).0.phase) <==>
              IsUp(c.phase) || (BehindPush(fed.phase, fed.inbox).Some? && assign.Ok?)
  {
    var fed := FeedMain(c, chunk, tlsUp);
    assert IsUp(fed.phase) == IsUp(c.phase);
    if IsUp(fed.phase) {
      UpStays(env, assign, fed);
    } else {
      DriveEstablishes(env, assign, fed);
    }
  }

  lemma StepEstablishes(env: Env, c: Conn, e: Event)
    ensures IsUp(Step(env, c, e).phase) <==> IsUp(c.phase) || (Asks(c, e) && e.assign.Ok?)
    ensures Asks(c, e) ==> !IsUp(c.phase)
  {
    if e.Control? && !IsRekeyControl(c, e.keyId) {
      var fed := FeedMain(c, e.chunk, e.tlsUp);
      MainEstablishes(env, e.assign, c, e.chunk, e.tlsUp);
      if IsUp(c.phase) {
        UpHasNoPush(fed.phase, fed.inbox);
      }
    }
  }

  // ---------------------------------------------------------------------------------------------
  // Every run
  // ---------------------------------------------------------------------------------------------

  /** The table entry and the session agree on whether the session is established, and an established
      one has an address. */
  predicate Linked(entry: Tables.Entry, c: Conn) {
    (entry.established <==> IsUp(c.phase)) && (entry.established ==> entry.ip4.Some?)
  }

  ghost predicate AllLinked(v: Server) {
    && v.conns.Keys == v.tables.sessions.Keys
    && forall a | a in v.conns :: Linked(v.tables.sessions[a], v.conns[a])
  }

  /** A session went on, with the tables as they are. */
  lemma ActedLinked(v: Server, addr: Tables.Addr, c: Conn)
    requires AllLinked(v) && addr in v.conns && IsUp(c.phase) == IsUp(v.conns[addr].phase)
    ensures AllLinked(v.(conns := v.conns[addr := c]))
  {
    assert Linked(v.tables.sessions[addr], v.conns[addr]);
  }

  /** The tables changed one entry, as the session did. */
  predicate Marked(t: Tables.Tables, t': Tables.Tables, addr: Tables.Addr, ok: bool) {
    && addr in t.sessions && t'.sessions.Keys == t.sessions.Keys
    && t'.sessions[addr].established == ok && (ok ==> t'.sessions[addr].ip4.Some?)
    && forall a | a in t.sessions && a != addr :: t'.sessions[a] == t.sessions[a]
  }

  lemma AskedLinked(v: Server, addr: Tables.Addr, t: Tables.Tables, ok: bool, c: Conn)
    requires AllLinked(v) && addr in v.conns && IsUp(c.phase) == ok
    requires Marked(v.tables, t, addr, ok)
    ensures AllLinked(Server(t, v.conns[addr := c]))
  {
    var v' := Server(t, v.conns[addr := c]);
    forall a | a in v'.conns
      ensures Linked(v'.tables.sessions[a], v'.conns[a])
    {
      if a != addr {
        assert Linked(v.tables.sessions[a], v.conns[a]);
      }
    }
  }

  lemma PushMarks(cfg: Tables.Config, t: Tables.Tables, addr: Tables.Addr, fixed: Tables.Static)
    requires addr in t.sessions && !t.sessions[addr].established
    ensures var (t', ok) := Tables.Push(cfg, t, addr, fixed);
            Marked(t, t', addr, ok)
  {
    var (t1, r) := Tables.ChooseIp(cfg, t, fixed);
    assert t1.sessions == t.sessions;
    if r.Ok? {
      FinishMarks(cfg, Tables.Assign4(t1, addr, r.value), addr);
    }
  }

  lemma FinishMarks(cfg: Tables.Config, t: Tables.Tables, addr: Tables.Addr)
    requires addr in t.sessions && !t.sessions[addr].established && t.sessions[addr].ip4.Some?
    ensures var (t', ok) := Tables.Finish(cfg, t, addr);
            Marked(t, t', addr, ok)
  {}

  lemma AskLinked(env: Env, cfg: Tables.Config, v: Server, addr: Tables.Addr, e: Event, fixed: Tables.Static,
                  reply: ByteString)
    requires AllLinked(v) && addr in v.conns && Asks(v.conns[addr], e)
    ensures AllLinked(Act(env, cfg, v, addr, e, fixed, reply))
  {
    var c := v.conns[addr];
    var (t, ok) := Tables.Push(cfg, v.tables, addr, fixed);
    var e' := e.(assign := if ok then Ok(reply) else Err);
    assert Linked(v.tables.sessions[addr], c);
    StepEstablishes(env, c, e');
    PushMarks(cfg, v.tables, addr, fixed);
    AskedLinked(v, addr, t, ok, Step(env, c, e'));
  }

  lemma ActLinked(env: Env, cfg: Tables.Config, v: Server, addr: Tables.Addr, e: Event, fixed: Tables.Static,
                  reply: ByteString)
    requires AllLinked(v) && addr in v.conns
    ensures AllLinked(Act(env, cfg, v, addr, e, fixed, reply))
  {
    var c := v.conns[addr];
    if Asks(c, e) {
      AskLinked(env, cfg, v, addr, e, fixed, reply);
    } else {
      assert Linked(v.tables.sessions[addr], c);
      StepEstablishes(env, c, e);
      ActedLinked(v, addr, Step(env, c, e));
    }
  }

  lemma StartLinked(v: Server, addr: Tables.Addr, peerId: u32, t: Tables.Tables)
    requires AllLinked(v) && addr !in v.conns
    requires t.sessions == v.tables.sessions[addr := Tables.Entry(peerId, None, None, false)]
    ensures AllLinked(Server(t, v.conns[addr := Start]))
  {}

  lemma OpenLinked(v: Server, addr: Tables.Addr, sent: bool, ready: bool)
    requires AllLinked(v)
    ensures AllLinked(Server(Tables.Create(v.tables, addr, sent, ready),
                             if addr in v.tables.sessions || !sent then v.conns else v.conns[addr := Start]))
  {
    if addr !in v.tables.sessions && sent {
      StartLinked(v, addr, v.tables.nextPeerId % 0x100_0000, Tables.Create(v.tables, addr, sent, ready));
    }
  }

  lemma EndLinked(v: Server, addr: Tables.Addr)
    requires AllLinked(v)
    ensures AllLinked(Server(Tables.Remove(v.tables, addr), v.conns - {addr}))
  {
    var t := Tables.Remove(v.tables, addr);
    assert t.sessions == v.tables.sessions - {addr};
  }

  lemma NextLinked(envs: Tables.Addr -> Env, cfg: Tables.Config, v: Server, h: Happening)
    requires AllLinked(v)
    ensures AllLinked(Next(envs, cfg, v, h))
  {
    match h
    case Opens(addr, sent, ready) => OpenLinked(v, addr, sent, ready);
    case Acts(addr, e, fixed, reply) =>
      if addr in v.conns {
        ActLinked(envs(addr), cfg, v, addr, e, fixed, reply);
      }
    case Ends(addr) => EndLinked(v, addr);
  }

  /** Over every run of the server, with sessions opening, acting and ending in any order, the tables and
      the sessions agree on which sessions are established. */
  lemma {:induction false} RunLinked(envs: Tables.Addr -> Env, cfg: Tables.Config, hs: seq<Happening>)
    ensures AllLinked(After(envs, cfg, hs))
  {
    if hs != [] {
      var n := |hs| - 1;
      RunLinked(envs, cfg, hs[..n]);
      NextLinked(envs, cfg, After(envs, cfg, hs[..n]), hs[n]);
    }
  }

  ghost predicate AllValid(conns: map<Tables.Addr, Conn>) {
    forall a | a in conns :: SessionRuns.Valid(conns[a])
  }

  lemma ValidWith(conns: map<Tables.Addr, Conn>, addr: Tables.Addr, c: Conn)
    requires AllValid(conns) && SessionRuns.Valid(c)
    ensures AllValid(conns[addr := c])
  {}

  lemma NextValid(envs: Tables.Addr -> Env, cfg: Tables.Config, v: Server, h: Happening)
    requires AllValid(v.conns)
    ensures AllValid(Next(envs, cfg, v, h).conns)
  {
    if h.Opens? {
      ValidWith(v.conns, h.newcomer, Start);
    } else if h.Acts? && h.client in v.conns {
      var env, c := envs(h.client), v.conns[h.client];
      var e := if Asks(c, h.e)
               then h.e.(assign := if Tables.Push(cfg, v.tables, h.client, h.fixed).1 then Ok(h.reply) else Err)
               else h.e;
      SessionRuns.StepValid(env, c, e);
      ValidWith(v.conns, h.client, Step(env, c, e));
    }
  }

  lemma {:induction false} RunValid(envs: Tables.Addr -> Env, cfg: Tables.Config, hs: seq<Happening>)
    ensures AllValid(After(envs, cfg, hs).conns)
  {
    if hs != [] {
      var n := |hs| - 1;
      RunValid(envs, cfg, hs[..n]);
      NextValid(envs, cfg, After(envs, cfg, hs[..n]), hs[n]);
    }
  }

  lemma LinkedIsServed(v: Server, addr: Tables.Addr)
    requires AllLinked(v) && AllValid(v.conns) && addr in v.tables.sessions && v.tables.sessions[addr].established
    ensures addr in v.conns && ActiveSlot(v.conns[addr].keys).Some? && v.tables.sessions[addr].ip4.Some?
  {
    assert addr in v.conns && Linked(v.tables.sessions[addr], v.conns[addr]);
    assert SessionRuns.Valid(v.conns[addr]);
  }

  /** So a session the tables call established has an address and a key to seal with. */
  lemma EstablishedIsServed(envs: Tables.Addr -> Env, cfg: Tables.Config, hs: seq<Happening>, v: Server,
                            addr: Tables.Addr)
    requires v == After(envs, cfg, hs) && addr in v.tables.sessions && v.tables.sessions[addr].established
    ensures addr in v.conns && ActiveSlot(v.conns[addr].keys).Some? && v.tables.sessions[addr].ip4.Some?
  {
    RunLinked(envs, cfg, hs);
    RunValid(envs, cfg, hs);
    LinkedIsServed(v, addr);
  }

  // ---------------------------------------------------------------------------------------------
  // The tables of a run are a run of the tables
  // ---------------------------------------------------------------------------------------------

  function TableEvents(v: Server, h: Happening): seq<Tables.Event> {
    match h
    case Opens(addr, sent, ready) => [Tables.Creates(addr, sent, ready)]
    case Acts(addr, e, fixed, _) =>
      if addr in v.conns && Asks(v.conns[addr], e) then [Tables.Pushes(addr, fixed)] else []
    case Ends(addr) => [Tables.Removes(addr)]
  }

  function TableRun(envs: Tables.Addr -> Env, cfg: Tables.Config, hs: seq<Happening>): seq<Tables.Event> {
    if hs == [] then []
    else
      var before := hs[..|hs| - 1];
      TableRun(envs, cfg, before) + TableEvents(After(envs, cfg, before), hs[|hs| - 1])
  }

  lemma TablesStep(envs: Tables.Addr -> Env, cfg: Tables.Config, v: Server, h: Happening)
    ensures |TableEvents(v, h)| <= 1
    ensures Next(envs, cfg, v, h).tables
         == if TableEvents(v, h) == [] then v.tables else Tables.Step(cfg, v.tables, TableEvents(v, h)[0])
  {}

  /** What is proved of every run of the tables therefore holds of the server's. */
  lemma {:induction false} TablesRefined(envs: Tables.Addr -> Env, cfg: Tables.Config, hs: seq<Happening>)
    ensures After(envs, cfg, hs).tables == Tables.After(cfg, TableRun(envs, cfg, hs))
  {
    if hs != [] {
      var before := hs[..|hs| - 1];
      var v, run := After(envs, cfg, before), TableRun(envs, cfg, before);
      var more := TableEvents(v, hs[|hs| - 1]);
      TablesRefined(envs, cfg, before);
      TablesStep(envs, cfg, v, hs[|hs| - 1]);
      if more == [] {
        assert run + more == run;
      } else {
        assert more == [more[0]];
        Tables.AfterNext(cfg, run, more[0]);
      }
    }
  }
}
