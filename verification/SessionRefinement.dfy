/**
  The session object refines the machines about which run-level properties are proved: whatever its
  methods are called with and in whatever order, its keys and phase are those of a run of
  `SessionRuns`, its reliability layer is that of a run of `ReliabilityRuns`, no control packet is handled
  twice under one envelope id, and a mirrored peer unwraps all its control datagrams in order.
 */
module SessionRefinement {
  import opened Bytes
  import opened Protocol
  import opened Replay
  import opened Keyring
  import opened ControlPlane
  import opened Reliability
  import opened SessionObject
  import opened ReliabilityRuns
  import opened ControlPath
  import Envelope
  import SessionRuns

  // ---------------------------------------------------------------------------------------------
  // Locked sections
  // ---------------------------------------------------------------------------------------------

  /** The places at which the server locks a session: a control packet, the rekey and retransmit timers,
      shutdown, the ping timer, a packet from the TUN device, and a data packet. */
  datatype Section =
    | Handle(p: ControlPacket, replayId: Option<u32>, i: Inputs)
    | Rekey(due: bool, ri: Inputs)
    | Retransmit(at: nat, timestamp: u32)
    | Shutdown(si: Inputs)
    | Ping
    | Outgoing(plaintext: ByteString)
    | Incoming(datagram: ByteString)

  /** The hard reset a session is created for. */
  datatype Hello = Hello(p: ControlPacket, replayId: Option<u32>, i: Inputs)

  /** What a session holds: keys and phase, the reliability layer, and the inbound envelope window. */
  datatype View = View(conn: Conn, layer: Reliable, window: Window)

  function ViewOf(o: Session): View
    reads o, o.tlsAuthReplay
  {
    View(o.State(), o.Layer(), o.tlsAuthReplay.Value())
  }

  /** The window's verdict on a control packet; without an envelope everything passes. */
  function Judge(window: Window, replayId: Option<u32>): (Window, bool) {
    match replayId case Some(id) => Check(window, id) case None => (window, true)
  }

  function SectionStep(env: Env, s: Setup, v: View, x: Section): View {
    match x
    case Handle(p, replayId, i) =>
      var (window, ok) := Judge(v.window, replayId);
      if !ok then v.(window := window)
      else View(ConnAfter(env, v.conn, p, i), DispatchOutcome(env, s.enveloped, v.conn, Booked(v.layer, p), p, i).0,
                window)
    case Rekey(due, i) =>
      v.(conn := TakeTimer(v.conn, due, i.random1, i.random2),
         layer := TimerOutcome(env, s.enveloped, v.conn, v.layer, due, i).0)
    case Retransmit(now, _) => v.(layer := Retransmitted(v.layer, s.enveloped, now, s.base))
    case Shutdown(i) =>
      v.(conn := TakeRestart(v.conn), layer := RestartOutcome(env, s.enveloped, v.conn, v.layer, i).0)
    case Ping => v.(conn := Step(env, v.conn, Send(true, PING_PAYLOAD)))
    case Outgoing(plaintext) => v.(conn := v.conn.(keys := SealNext(env.aead, v.conn.keys, env.peerId, plaintext).0))
    case Incoming(datagram) => v.(conn := v.conn.(keys := OpenNext(env.aead, v.conn.keys, datagram).0))
  }

  /** A session that has answered `hello`, after the sections `xs`. */
  function SessionAfter(env: Env, s: Setup, hello: Hello, xs: seq<Section>): View {
    if xs == [] then
      View(Start, HardResetOutcome(env, s.enveloped, Init, hello.p, hello.i).0, Judge(Fresh, hello.replayId).0)
    else SectionStep(env, s, SessionAfter(env, s, hello, xs[..|xs| - 1]), xs[|xs| - 1])
  }

  /** What a section wraps and sends on the control channel. */
  function Inners(env: Env, s: Setup, v: View, x: Section): seq<ByteString> {
    match x
    case Handle(p, replayId, i) =>
      if Judge(v.window, replayId).1 then
        EncodeAll(DispatchOutcome(env, s.enveloped, v.conn, Booked(v.layer, p), p, i).1)
      else []
    case Rekey(due, i) => EncodeAll(TimerOutcome(env, s.enveloped, v.conn, v.layer, due, i).1)
    case Retransmit(now, _) => Encodings(Retransmits(v.layer.unacked, now, s.base))
    case Shutdown(i) => EncodeAll(RestartOutcome(env, s.enveloped, v.conn, v.layer, i).1)
    case _ => []
  }

  function Stamp(x: Section): u32 {
    match x
    case Handle(_, _, i) => i.timestamp
    case Rekey(_, i) => i.timestamp
    case Retransmit(_, timestamp) => timestamp
    case Shutdown(i) => i.timestamp
    case _ => 0
  }

  /** The control datagrams of a section. */
  function Datagrams(w: Wrapping, env: Env, s: Setup, v: View, x: Section): seq<ByteString> {
    WrapEach(w, Inners(env, s, v, x), v.layer.envelopeId, Stamp(x))
  }

  function HelloInners(env: Env, s: Setup, hello: Hello): seq<ByteString> {
    EncodeAll(HardResetOutcome(env, s.enveloped, Init, hello.p, hello.i).1)
  }

  /** All that a session wraps and sends, from the answer to the hard reset on. */
  function RunInners(env: Env, s: Setup, hello: Hello, xs: seq<Section>): seq<ByteString> {
    if xs == [] then HelloInners(env, s, hello)
    else
      var before := xs[..|xs| - 1];
      RunInners(env, s, hello, before) + Inners(env, s, SessionAfter(env, s, hello, before), xs[|xs| - 1])
  }

  function RunDatagrams(w: Wrapping, env: Env, s: Setup, hello: Hello, xs: seq<Section>): seq<ByteString> {
    if xs == [] then WrapEach(w, HelloInners(env, s, hello), Init.envelopeId, hello.i.timestamp)
    else
      var before := xs[..|xs| - 1];
      RunDatagrams(w, env, s, hello, before)
      + Datagrams(w, env, s, SessionAfter(env, s, hello, before), xs[|xs| - 1])
  }

  /** Every method of the object performs its section, and returns its datagrams. */
  method Perform(o: Session, s: Setup, x: Section) returns (wires: seq<ByteString>)
    requires s.enveloped == Enveloped(o.wrapping)
    modifies o, o.tlsAuthReplay
    ensures ViewOf(o) == SectionStep(o.env, s, old(ViewOf(o)), x)
    ensures wires == Datagrams(o.wrapping, o.env, s, old(ViewOf(o)), x)
  {
    wires := [];
    match x {
      case Handle(p, replayId, i) => wires := PerformHandle(o, s, p, replayId, i);
      case Rekey(due, i) => wires := PerformRekey(o, s, due, i);
      case Retransmit(now, timestamp) => wires := o.RetransmitTick(now, s.base, timestamp);
      case Shutdown(i) => wires := PerformShutdown(o, s, i);
      case Ping => var _ := o.PingTick();
      case Outgoing(plaintext) => var _ := o.BuildDataPacket(plaintext);
      case Incoming(datagram) => var _ := o.DecryptAndForward(datagram);
    }
  }

  method PerformRekey(o: Session, s: Setup, due: bool, i: Inputs) returns (wires: seq<ByteString>)
    requires s.enveloped == Enveloped(o.wrapping)
    modifies o
    ensures ViewOf(o) == SectionStep(o.env, s, old(ViewOf(o)), Rekey(due, i))
    ensures wires == Datagrams(o.wrapping, o.env, s, old(ViewOf(o)), Rekey(due, i))
  {
    var ok;
    wires, ok := o.RekeyTick(due, i);
  }

  method PerformShutdown(o: Session, s: Setup, i: Inputs) returns (wires: seq<ByteString>)
    requires s.enveloped == Enveloped(o.wrapping)
    modifies o
    ensures ViewOf(o) == SectionStep(o.env, s, old(ViewOf(o)), Shutdown(i))
    ensures wires == Datagrams(o.wrapping, o.env, s, old(ViewOf(o)), Shutdown(i))
  {
    var ok;
    wires, ok := o.AnnounceRestart(i);
  }

  method PerformHandle(o: Session, s: Setup, p: ControlPacket, replayId: Option<u32>, i: Inputs)
    returns (wires: seq<ByteString>)
    requires s.enveloped == Enveloped(o.wrapping)
    modifies o, o.tlsAuthReplay
    ensures ViewOf(o) == SectionStep(o.env, s, old(ViewOf(o)), Handle(p, replayId, i))
    ensures wires == Datagrams(o.wrapping, o.env, s, old(ViewOf(o)), Handle(p, replayId, i))
  {
    var ok;
    wires, ok := o.HandleControlPacket(p, replayId, i);
  }

  /** A new session that answers the hard reset. */
  method Greet(env: Env, wrapping: Wrapping, s: Setup, hello: Hello) returns (o: Session, wires: seq<ByteString>)
    requires s.enveloped == Enveloped(wrapping)
    ensures fresh(o) && fresh(o.tlsAuthReplay) && o.env == env && o.wrapping == wrapping
    ensures ViewOf(o) == SessionAfter(env, s, hello, [])
    ensures wires == RunDatagrams(wrapping, env, s, hello, [])
  {
    o := new Session(env, wrapping);
    var ok;
    wires, ok := o.AnswerHardReset(hello.p, hello.replayId, hello.i);
  }

  lemma RunNext(w: Wrapping, env: Env, s: Setup, hello: Hello, xs: seq<Section>, n: nat)
    requires n < |xs|
    ensures var v := SessionAfter(env, s, hello, xs[..n]);
            && SessionAfter(env, s, hello, xs[..n + 1]) == SectionStep(env, s, v, xs[n])
            && RunDatagrams(w, env, s, hello, xs[..n + 1])
               == RunDatagrams(w, env, s, hello, xs[..n]) + Datagrams(w, env, s, v, xs[n])
  {
    assert xs[..n + 1][..n] == xs[..n];
  }

  method PerformAll(o: Session, s: Setup, hello: Hello, xs: seq<Section>, sent: seq<ByteString>)
    returns (wires: seq<ByteString>)
    requires s.enveloped == Enveloped(o.wrapping) && ViewOf(o) == SessionAfter(o.env, s, hello, [])
    requires sent == RunDatagrams(o.wrapping, o.env, s, hello, [])
    modifies o, o.tlsAuthReplay
    ensures ViewOf(o) == SessionAfter(o.env, s, hello, xs)
    ensures wires == RunDatagrams(o.wrapping, o.env, s, hello, xs)
  {
    wires := sent;
    var n := 0;
    while n < |xs|
      invariant 0 <= n <= |xs|
      invariant ViewOf(o) == SessionAfter(o.env, s, hello, xs[..n])
      invariant wires == RunDatagrams(o.wrapping, o.env, s, hello, xs[..n])
    {
      RunNext(o.wrapping, o.env, s, hello, xs, n);
      var more := Perform(o, s, xs[n]);
      wires := wires + more;
      n := n + 1;
    }
    assert xs[..n] == xs;
  }

  /** A session object that is created, answers the hard reset and goes through `xs` is in a state of
      both machines, and a mirrored peer unwraps what it has sent. */
  method RunSession(env: Env, wrapping: Wrapping, s: Setup, hello: Hello, xs: seq<Section>)
    returns (o: Session, wires: seq<ByteString>)
    requires s.enveloped == Enveloped(wrapping) && s.ids == Ids(env.serverSid, env.clientSid)
    ensures fresh(o) && fresh(o.tlsAuthReplay) && o.env == env && o.wrapping == wrapping
    ensures ViewOf(o) == SessionAfter(env, s, hello, xs)
    ensures o.State() == SessionRuns.After(env, Events(env, s, hello, xs)).conn
    ensures o.Layer() == ReliabilityRuns.After(s, Ops(env, s, hello, xs)).r
    ensures AllArrive(wrapping, wires, RunInners(env, s, hello, xs), 0)
  {
    o, wires := Greet(env, wrapping, s, hello);
    wires := PerformAll(o, s, hello, xs, wires);
    SessionRefines(env, s, hello, xs);
    RunArrives(wrapping, env, s, hello, xs, wires, RunInners(env, s, hello, xs));
  }

  // ---------------------------------------------------------------------------------------------
  // Runs of operations
  // ---------------------------------------------------------------------------------------------

  function ApplyAll(s: Setup, h: History, ops: seq<Op>): History
    decreases |ops|
  {
    if ops == [] then h else ApplyAll(s, Apply(s, h, ops[0]), ops[1..])
  }

  lemma {:induction false} ApplyAllConcat(s: Setup, h: History, a: seq<Op>, b: seq<Op>)
    ensures ApplyAll(s, h, a + b) == ApplyAll(s, ApplyAll(s, h, a), b)
    decreases |a|
  {
    if a == [] {
      assert a + b == b;
    } else {
      assert (a + b)[1..] == a[1..] + b;
      ApplyAllConcat(s, Apply(s, h, a[0]), a[1..], b);
    }
  }

  lemma ApplyOne(s: Setup, h: History, o: Op)
    ensures ApplyAll(s, h, [o]) == Apply(s, h, o)
  {
    assert [o][1..] == [];
  }

  /** A run goes on from where it is. */
  lemma {:induction false} AfterAll(s: Setup, ops: seq<Op>, more: seq<Op>)
    ensures ReliabilityRuns.After(s, ops + more) == ApplyAll(s, ReliabilityRuns.After(s, ops), more)
    decreases |more|
  {
    if more == [] {
      assert ops + more == ops;
    } else {
      var next := ops + [more[0]];
      assert next[..|ops|] == ops;
      assert ops + more == next + more[1..];
      AfterAll(s, next, more[1..]);
    }
  }

  // ---------------------------------------------------------------------------------------------
  // The operations of one section
  // ---------------------------------------------------------------------------------------------

  function FragmentOps(keyId: byte, chunks: seq<ByteString>, now: nat, accepts: nat): seq<Op>
    decreases |chunks|
  {
    if chunks == [] then []
    else
      var o := SendControl(keyId, chunks[0], now, accepts > 0);
      if accepts == 0 then [o] else [o] + FragmentOps(keyId, chunks[1..], now, accepts - 1)
  }

  lemma {:induction false} FragmentsAreOps(s: Setup, h: History, keyId: byte, chunks: seq<ByteString>, now: nat,
                                           accepts: nat)
    ensures ApplyAll(s, h, FragmentOps(keyId, chunks, now, accepts)).r
         == SendChunks(h.r, s.ids, keyId, chunks, s.enveloped, now, accepts).0
    decreases |chunks|
  {
    if chunks != [] {
      var o := SendControl(keyId, chunks[0], now, accepts > 0);
      var h' := Apply(s, h, o);
      assert h'.r == AfterFirst(h.r, s.ids, keyId, chunks[0], s.enveloped, now, accepts > 0);
      var ops := FragmentOps(keyId, chunks, now, accepts);
      if accepts == 0 {
        assert ops == [o] && ApplyAll(s, h', []) == h';
      } else {
        FragmentsAreOps(s, h', keyId, chunks[1..], now, accepts - 1);
        assert ops[1..] == FragmentOps(keyId, chunks[1..], now, accepts - 1);
      }
    }
  }

  function FlushOps(keyId: byte, out: ByteString, now: nat, accepts: nat): seq<Op> {
    if out != [] then FragmentOps(keyId, Chunks(out), now, accepts) else [SendAcks]
  }

  lemma FlushIsOps(s: Setup, h: History, keyId: byte, out: ByteString, now: nat, accepts: nat)
    ensures ApplyAll(s, h, FlushOps(keyId, out, now, accepts)).r
         == Flush(h.r, s.ids, keyId, out, s.enveloped, now, accepts).0
  {
    FragmentsAreOps(s, h, keyId, Chunks(out), now, accepts);
    ApplyOne(s, h, SendAcks);
  }

  function ResetOps(op: OpCode, keyId: byte, ack: Option<u32>, i: Inputs): seq<Op> {
    [SendReset(op, keyId, ack, i.now, i.accepts > 0)]
  }

  lemma ResetIsOps(env: Env, s: Setup, h: History, op: OpCode, keyId: byte, ack: Option<u32>, i: Inputs)
    requires s.ids == Ids(env.serverSid, env.clientSid)
    ensures ApplyAll(s, h, ResetOps(op, keyId, ack, i)).r == Reset(env, s.enveloped, h.r, op, keyId, ack, i).0
  {
    ApplyOne(s, h, SendReset(op, keyId, ack, i.now, i.accepts > 0));
  }

  function BookingOps(p: ControlPacket): seq<Op> {
    [Acks(p.acks)] + match p.packetId case Some(id) => [Note(id)] case None => []
  }

  lemma BookingIsOps(s: Setup, h: History, p: ControlPacket)
    ensures ApplyAll(s, h, BookingOps(p)).r == Booked(h.r, p)
  {
    ApplyAllConcat(s, h, [Acks(p.acks)], match p.packetId case Some(id) => [Note(id)] case None => []);
    ApplyOne(s, h, Acks(p.acks));
    if p.packetId.Some? {
      ApplyOne(s, Apply(s, h, Acks(p.acks)), Note(p.packetId.value));
    }
  }

  function ControlOps(env: Env, c: Conn, keyId: byte, i: Inputs): seq<Op> {
    if IsRekeyControl(c, keyId) then
      if DriveRekey(env, FedRekey(c, i.chunk, i.tlsUp)).1 then
        FragmentOps(c.track.value.keyId, Chunks(i.tlsOut), i.now, i.accepts)
      else []
    else
      var (c', verdict) := HandleMain(env, i.assign, c, i.chunk, i.tlsUp);
      if verdict == Quiet then FlushOps(ActiveKeyId(c'.keys), i.tlsOut, i.now, i.accepts) else []
  }

  function DispatchOps(env: Env, c: Conn, p: ControlPacket, i: Inputs): seq<Op> {
    match p.op
    case ControlV1 => ControlOps(env, c, p.keyId, i)
    case ControlSoftResetV1 =>
      if c.track.Some? || c.phase != Established then [] else ResetOps(ControlSoftResetV1, p.keyId, AckOf(p), i)
    case _ => []
  }

  lemma RekeyIsOps(env: Env, s: Setup, h: History, c: Conn, keyId: byte, i: Inputs)
    requires s.ids == Ids(env.serverSid, env.clientSid) && IsRekeyControl(c, keyId)
    ensures ApplyAll(s, h, ControlOps(env, c, keyId, i)).r == RekeyOutcome(env, s.enveloped, c, h.r, i).0
  {
    FragmentsAreOps(s, h, c.track.value.keyId, Chunks(i.tlsOut), i.now, i.accepts);
  }

  lemma MainIsOps(env: Env, s: Setup, h: History, c: Conn, keyId: byte, i: Inputs)
    requires s.ids == Ids(env.serverSid, env.clientSid) && !IsRekeyControl(c, keyId)
    ensures ApplyAll(s, h, ControlOps(env, c, keyId, i)).r == MainOutcome(env, s.enveloped, c, h.r, i).0
  {
    var (c', verdict) := HandleMain(env, i.assign, c, i.chunk, i.tlsUp);
    MainOutcomeIs(env, s.enveloped, c, h.r, i, c', verdict);
    FlushIsOps(s, h, ActiveKeyId(c'.keys), i.tlsOut, i.now, i.accepts);
  }

  lemma DispatchIsOps(env: Env, s: Setup, h: History, c: Conn, p: ControlPacket, i: Inputs)
    requires s.ids == Ids(env.serverSid, env.clientSid)
    ensures ApplyAll(s, h, DispatchOps(env, c, p, i)).r == DispatchOutcome(env, s.enveloped, c, h.r, p, i).0
  {
    match p.op
    case ControlV1 =>
      if IsRekeyControl(c, p.keyId) {
        RekeyIsOps(env, s, h, c, p.keyId, i);
      } else {
        MainIsOps(env, s, h, c, p.keyId, i);
      }
    case ControlSoftResetV1 => ResetIsOps(env, s, h, ControlSoftResetV1, p.keyId, AckOf(p), i);
    case _ =>
  }

  /** The operations a section performs on the reliability layer. */
  function OpsOf(env: Env, v: View, x: Section): seq<Op> {
    match x
    case Handle(p, replayId, i) =>
      if Judge(v.window, replayId).1 then BookingOps(p) + DispatchOps(env, v.conn, p, i) else []
    case Rekey(due, i) =>
      if v.conn.phase != Established || v.conn.track.Some? || !due then []
      else ResetOps(ControlSoftResetV1, NextKeyId(ActiveKeyId(v.conn.keys)), None, i)
    case Retransmit(now, _) => [Tick(now)]
    case Shutdown(i) =>
      if v.conn.phase != Established then []
      else FlushOps(ActiveKeyId(v.conn.keys), i.tlsOut, i.now, i.accepts)
    case _ => []
  }

  lemma HandlingIsOps(env: Env, s: Setup, h: History, c: Conn, p: ControlPacket, i: Inputs)
    requires s.ids == Ids(env.serverSid, env.clientSid)
    ensures ApplyAll(s, h, BookingOps(p) + DispatchOps(env, c, p, i)).r
         == DispatchOutcome(env, s.enveloped, c, Booked(h.r, p), p, i).0
  {
    BookingIsOps(s, h, p);
    ApplyAllConcat(s, h, BookingOps(p), DispatchOps(env, c, p, i));
    DispatchIsOps(env, s, ApplyAll(s, h, BookingOps(p)), c, p, i);
  }

  lemma SectionIsOps(env: Env, s: Setup, h: History, v: View, x: Section)
    requires s.ids == Ids(env.serverSid, env.clientSid) && v.layer == h.r
    ensures ApplyAll(s, h, OpsOf(env, v, x)).r == SectionStep(env, s, v, x).layer
  {
    match x
    case Handle(p, replayId, i) => HandlingIsOps(env, s, h, v.conn, p, i);
    case Rekey(due, i) => ResetIsOps(env, s, h, ControlSoftResetV1, NextKeyId(ActiveKeyId(v.conn.keys)), None, i);
    case Retransmit(now, _) => ApplyOne(s, h, Tick(now));
    case Shutdown(i) => FlushIsOps(s, h, ActiveKeyId(v.conn.keys), i.tlsOut, i.now, i.accepts);
    case _ =>
  }

  /** The event a control packet that passed the window is for the keys and phase, if any. */
  function PacketEvents(p: ControlPacket, i: Inputs): seq<Event> {
    match p.op
    case ControlV1 => [Control(p.keyId, i.chunk, i.tlsUp, i.assign, i.accepts >= |Chunks(i.tlsOut)|)]
    case ControlSoftResetV1 => [SoftReset(p.keyId, i.random1, i.random2)]
    case _ => []
  }

  function EventsOf(v: View, x: Section): seq<Event> {
    match x
    case Handle(p, replayId, i) => if Judge(v.window, replayId).1 then PacketEvents(p, i) else []
    case Rekey(due, i) => [RekeyTimer(due, i.random1, i.random2)]
    case Retransmit(_, _) => []
    case Shutdown(_) => [Restart]
    case Ping => [Send(true, PING_PAYLOAD)]
    case Outgoing(plaintext) => [Send(false, plaintext)]
    case Incoming(datagram) => [Receive(datagram)]
  }

  lemma SectionIsEvents(env: Env, s: Setup, v: View, x: Section)
    ensures |EventsOf(v, x)| <= 1
    ensures SectionStep(env, s, v, x).conn
         == if EventsOf(v, x) == [] then v.conn else Step(env, v.conn, EventsOf(v, x)[0])
  {}

  // ---------------------------------------------------------------------------------------------
  // Whole runs
  // ---------------------------------------------------------------------------------------------

  function Events(env: Env, s: Setup, hello: Hello, xs: seq<Section>): seq<Event> {
    if xs == [] then []
    else
      var before := xs[..|xs| - 1];
      Events(env, s, hello, before) + EventsOf(SessionAfter(env, s, hello, before), xs[|xs| - 1])
  }

  function Ops(env: Env, s: Setup, hello: Hello, xs: seq<Section>): seq<Op> {
    if xs == [] then ResetOps(ControlHardResetServerV2, 0, AckOf(hello.p), hello.i)
    else
      var before := xs[..|xs| - 1];
      Ops(env, s, hello, before) + OpsOf(env, SessionAfter(env, s, hello, before), xs[|xs| - 1])
  }

  /** Keys and phase follow a run of session events... */
  lemma {:induction false} RunsEvents(env: Env, s: Setup, hello: Hello, xs: seq<Section>)
    ensures SessionAfter(env, s, hello, xs).conn == SessionRuns.After(env, Events(env, s, hello, xs)).conn
  {
    if xs != [] {
      var before, x := xs[..|xs| - 1], xs[|xs| - 1];
      var v := SessionAfter(env, s, hello, before);
      RunsEvents(env, s, hello, before);
      SectionIsEvents(env, s, v, x);
      RunGoesOn(env, Events(env, s, hello, before), EventsOf(v, x));
    }
  }

  lemma RunGoesOn(env: Env, events: seq<Event>, more: seq<Event>)
    requires |more| <= 1
    ensures SessionRuns.After(env, events + more).conn
         == if more == [] then SessionRuns.After(env, events).conn
            else Step(env, SessionRuns.After(env, events).conn, more[0])
  {
    if more == [] {
      assert events + more == events;
    } else {
      assert more == [more[0]];
      SessionRuns.AfterNext(env, events, more[0]);
    }
  }

  /** ... and the reliability layer follows a run of its operations. */
  lemma {:induction false} RunsOps(env: Env, s: Setup, hello: Hello, xs: seq<Section>)
    requires s.ids == Ids(env.serverSid, env.clientSid)
    ensures SessionAfter(env, s, hello, xs).layer == ReliabilityRuns.After(s, Ops(env, s, hello, xs)).r
  {
    if xs == [] {
      ResetIsOps(env, s, Begin, ControlHardResetServerV2, 0, AckOf(hello.p), hello.i);
      AfterAll(s, [], Ops(env, s, hello, xs));
      assert [] + Ops(env, s, hello, xs) == Ops(env, s, hello, xs);
    } else {
      var before, x := xs[..|xs| - 1], xs[|xs| - 1];
      var v := SessionAfter(env, s, hello, before);
      RunsOps(env, s, hello, before);
      SectionIsOps(env, s, ReliabilityRuns.After(s, Ops(env, s, hello, before)), v, x);
      AfterAll(s, Ops(env, s, hello, before), OpsOf(env, v, x));
    }
  }

  /** So what is proved over all runs of the two machines holds of every session object. */
  lemma SessionRefines(env: Env, s: Setup, hello: Hello, xs: seq<Section>)
    requires s.ids == Ids(env.serverSid, env.clientSid)
    ensures SessionAfter(env, s, hello, xs).conn == SessionRuns.After(env, Events(env, s, hello, xs)).conn
    ensures SessionAfter(env, s, hello, xs).layer == ReliabilityRuns.After(s, Ops(env, s, hello, xs)).r
  {
    RunsEvents(env, s, hello, xs);
    RunsOps(env, s, hello, xs);
  }

  // ---------------------------------------------------------------------------------------------
  // Outbound datagrams
  // ---------------------------------------------------------------------------------------------

  lemma EncodedWrappable(ps: seq<ControlPacket>)
    ensures Wrappable(EncodeAll(ps))
  {}

  lemma QueueWrappable(s: Setup, ops: seq<Op>, now: nat)
    ensures Wrappable(Encodings(Retransmits(ReliabilityRuns.After(s, ops).r.unacked, now, s.base)))
  {
    var q := ReliabilityRuns.After(s, ops).r.unacked;
    QueueHoldsPackets(s, ops);
    RetransmitsAre(q, now, s.base);
    var due := Retransmits(q, now, s.base);
    forall b | b in Encodings(due)
      ensures |b| >= 9
    {
      var k :| 0 <= k < |due| && due[k].encoded == b;
      assert due[k] in due;
      var p :| p in SentLog(s, ops) && Files(due[k], p);
    }
  }

  lemma SectionWrappable(env: Env, s: Setup, v: View, x: Section, ops: seq<Op>)
    requires v.layer == ReliabilityRuns.After(s, ops).r
    ensures Wrappable(Inners(env, s, v, x))
  {
    match x
    case Handle(p, replayId, i) =>
      EncodedWrappable(DispatchOutcome(env, s.enveloped, v.conn, Booked(v.layer, p), p, i).1);
    case Rekey(due, i) => EncodedWrappable(TimerOutcome(env, s.enveloped, v.conn, v.layer, due, i).1);
    case Retransmit(now, _) => QueueWrappable(s, ops, now);
    case Shutdown(i) => EncodedWrappable(RestartOutcome(env, s.enveloped, v.conn, v.layer, i).1);
    case _ =>
  }

  /** How many envelope ids a history has used. */
  function Used(h: History): nat {
    |h.envelopes|
  }

  lemma UsesOne(s: Setup, h: History, o: Op)
    ensures Used(Apply(s, h, o)) == Used(h) + Wraps(s, h, o)
  {
    ApplyEnvelopes(s, h, o);
  }

  /** The ids used for `n` packets. */
  function Uses(s: Setup, n: nat): nat {
    if s.enveloped then n else 0
  }

  lemma {:induction false} FragmentsUse(s: Setup, h: History, keyId: byte, chunks: seq<ByteString>, now: nat,
                                        accepts: nat)
    ensures Used(ApplyAll(s, h, FragmentOps(keyId, chunks, now, accepts)))
         == Used(h) + Uses(s, |SendChunks(h.r, s.ids, keyId, chunks, s.enveloped, now, accepts).1|)
    decreases |chunks|
  {
    if chunks != [] {
      var o := SendControl(keyId, chunks[0], now, accepts > 0);
      var h' := Apply(s, h, o);
      UsesOne(s, h, o);
      assert h'.r == AfterFirst(h.r, s.ids, keyId, chunks[0], s.enveloped, now, accepts > 0);
      var ops := FragmentOps(keyId, chunks, now, accepts);
      if accepts == 0 {
        assert ops == [o];
        ApplyOne(s, h, o);
      } else {
        FragmentsUse(s, h', keyId, chunks[1..], now, accepts - 1);
        assert ops[0] == o && ops[1..] == FragmentOps(keyId, chunks[1..], now, accepts - 1);
      }
    }
  }

  lemma FlushUses(s: Setup, h: History, keyId: byte, out: ByteString, now: nat, accepts: nat)
    ensures Used(ApplyAll(s, h, FlushOps(keyId, out, now, accepts)))
         == Used(h) + Uses(s, |Flush(h.r, s.ids, keyId, out, s.enveloped, now, accepts).1|)
  {
    FragmentsUse(s, h, keyId, Chunks(out), now, accepts);
    ApplyOne(s, h, SendAcks);
    UsesOne(s, h, SendAcks);
  }

  lemma ResetUses(s: Setup, h: History, op: OpCode, keyId: byte, ack: Option<u32>, i: Inputs)
    ensures Used(ApplyAll(s, h, ResetOps(op, keyId, ack, i))) == Used(h) + Uses(s, 1)
  {
    var o := SendReset(op, keyId, ack, i.now, i.accepts > 0);
    ApplyOne(s, h, o);
    UsesOne(s, h, o);
  }

  lemma BookingUses(s: Setup, h: History, p: ControlPacket)
    ensures Used(ApplyAll(s, h, BookingOps(p))) == Used(h)
  {
    var note := match p.packetId case Some(id) => [Note(id)] case None => [];
    ApplyAllConcat(s, h, [Acks(p.acks)], note);
    ApplyOne(s, h, Acks(p.acks));
    UsesOne(s, h, Acks(p.acks));
    if p.packetId.Some? {
      var h1 := Apply(s, h, Acks(p.acks));
      ApplyOne(s, h1, Note(p.packetId.value));
      UsesOne(s, h1, Note(p.packetId.value));
    }
  }

  lemma ControlUses(env: Env, s: Setup, h: History, c: Conn, p: ControlPacket, i: Inputs)
    requires s.ids == Ids(env.serverSid, env.clientSid) && p.op == ControlV1
    ensures Used(ApplyAll(s, h, DispatchOps(env, c, p, i)))
         == Used(h) + Uses(s, |DispatchOutcome(env, s.enveloped, c, h.r, p, i).1|)
  {
    if IsRekeyControl(c, p.keyId) {
      FragmentsUse(s, h, c.track.value.keyId, Chunks(i.tlsOut), i.now, i.accepts);
    } else {
      var (c', verdict) := HandleMain(env, i.assign, c, i.chunk, i.tlsUp);
      MainOutcomeIs(env, s.enveloped, c, h.r, i, c', verdict);
      FlushUses(s, h, ActiveKeyId(c'.keys), i.tlsOut, i.now, i.accepts);
    }
  }

  lemma DispatchUses(env: Env, s: Setup, h: History, c: Conn, p: ControlPacket, i: Inputs)
    requires s.ids == Ids(env.serverSid, env.clientSid)
    ensures Used(ApplyAll(s, h, DispatchOps(env, c, p, i)))
         == Used(h) + Uses(s, |DispatchOutcome(env, s.enveloped, c, h.r, p, i).1|)
  {
    match p.op
    case ControlV1 => ControlUses(env, s, h, c, p, i);
    case ControlSoftResetV1 => ResetUses(s, h, ControlSoftResetV1, p.keyId, AckOf(p), i);
    case _ =>
  }

  lemma HandlingUses(env: Env, s: Setup, h: History, c: Conn, p: ControlPacket, i: Inputs)
    requires s.ids == Ids(env.serverSid, env.clientSid)
    ensures Used(ApplyAll(s, h, BookingOps(p) + DispatchOps(env, c, p, i)))
         == Used(h) + Uses(s, |DispatchOutcome(env, s.enveloped, c, Booked(h.r, p), p, i).1|)
  {
    BookingIsOps(s, h, p);
    BookingUses(s, h, p);
    ApplyAllConcat(s, h, BookingOps(p), DispatchOps(env, c, p, i));
    DispatchUses(env, s, ApplyAll(s, h, BookingOps(p)), c, p, i);
  }

  /** A section uses one envelope id for each datagram. */
  lemma SectionUses(env: Env, s: Setup, h: History, v: View, x: Section)
    requires s.ids == Ids(env.serverSid, env.clientSid) && v.layer == h.r
    ensures Used(ApplyAll(s, h, OpsOf(env, v, x))) == Used(h) + Uses(s, |Inners(env, s, v, x)|)
  {
    match x
    case Handle(p, replayId, i) => HandlingUses(env, s, h, v.conn, p, i);
    case Rekey(due, i) =>
      ResetUses(s, h, ControlSoftResetV1, NextKeyId(ActiveKeyId(v.conn.keys)), None, i);
    case Retransmit(now, _) =>
      ApplyOne(s, h, Tick(now));
      UsesOne(s, h, Tick(now));
    case Shutdown(i) => FlushUses(s, h, ActiveKeyId(v.conn.keys), i.tlsOut, i.now, i.accepts);
    case _ =>
  }

  lemma {:induction false} RunUses(env: Env, s: Setup, hello: Hello, xs: seq<Section>)
    requires s.ids == Ids(env.serverSid, env.clientSid)
    ensures Used(ReliabilityRuns.After(s, Ops(env, s, hello, xs))) == Uses(s, |RunInners(env, s, hello, xs)|)
  {
    if xs == [] {
      ResetUses(s, Begin, ControlHardResetServerV2, 0, AckOf(hello.p), hello.i);
      AfterAll(s, [], Ops(env, s, hello, xs));
      assert [] + Ops(env, s, hello, xs) == Ops(env, s, hello, xs);
    } else {
      var before, x := xs[..|xs| - 1], xs[|xs| - 1];
      var v, ops := SessionAfter(env, s, hello, before), Ops(env, s, hello, before);
      RunUses(env, s, hello, before);
      RunsOps(env, s, hello, before);
      SectionUses(env, s, ReliabilityRuns.After(s, ops), v, x);
      AfterAll(s, ops, OpsOf(env, v, x));
    }
  }

  lemma HelloArrives(w: Wrapping, env: Env, s: Setup, hello: Hello)
    ensures AllArrive(w, WrapEach(w, HelloInners(env, s, hello), Init.envelopeId, hello.i.timestamp),
                      HelloInners(env, s, hello), 0)
  {
    EncodedWrappable(HardResetOutcome(env, s.enveloped, Init, hello.p, hello.i).1);
    EachArrives(w, HelloInners(env, s, hello),
                WrapEach(w, HelloInners(env, s, hello), Init.envelopeId, hello.i.timestamp),
                Init.envelopeId, 0, hello.i.timestamp);
  }

  /** The session wraps the next datagram under the id that is one past those it has used. */
  lemma NextUnused(env: Env, s: Setup, hello: Hello, xs: seq<Section>)
    requires s.enveloped && s.ids == Ids(env.serverSid, env.clientSid)
    ensures SessionAfter(env, s, hello, xs).layer.envelopeId == EnvelopeId(|RunInners(env, s, hello, xs)|)
  {
    RunsOps(env, s, hello, xs);
    RunUses(env, s, hello, xs);
    RunEnvelopes(s, Ops(env, s, hello, xs));
  }

  lemma SectionArrives(w: Wrapping, env: Env, s: Setup, v: View, x: Section, m: nat)
    requires Wrappable(Inners(env, s, v, x)) && (Enveloped(w) ==> v.layer.envelopeId == EnvelopeId(m))
    ensures AllArrive(w, Datagrams(w, env, s, v, x), Inners(env, s, v, x), m)
  {
    EachArrives(w, Inners(env, s, v, x), Datagrams(w, env, s, v, x), v.layer.envelopeId, m, Stamp(x));
  }

  lemma NextWrappable(env: Env, s: Setup, hello: Hello, before: seq<Section>, v: View, x: Section)
    requires s.ids == Ids(env.serverSid, env.clientSid) && v == SessionAfter(env, s, hello, before)
    ensures Wrappable(Inners(env, s, v, x))
  {
    RunsOps(env, s, hello, before);
    SectionWrappable(env, s, v, x, Ops(env, s, hello, before));
  }

  lemma NextArrives(w: Wrapping, env: Env, s: Setup, hello: Hello, before: seq<Section>, v: View, x: Section, m: nat)
    requires s.enveloped == Enveloped(w) && s.ids == Ids(env.serverSid, env.clientSid)
    requires v == SessionAfter(env, s, hello, before) && m == |RunInners(env, s, hello, before)|
    ensures AllArrive(w, Datagrams(w, env, s, v, x), Inners(env, s, v, x), m)
  {
    if Enveloped(w) {
      NextUnused(env, s, hello, before);
    }
    NextWrappable(env, s, hello, before, v, x);
    SectionArrives(w, env, s, v, x, m);
  }

  /** What the last section of a run adds. */
  lemma LastArrives(w: Wrapping, env: Env, s: Setup, hello: Hello, xs: seq<Section>, before: seq<Section>)
    returns (more: seq<ByteString>, moreInners: seq<ByteString>)
    requires s.enveloped == Enveloped(w) && s.ids == Ids(env.serverSid, env.clientSid)
    requires xs != [] && before == xs[..|xs| - 1]
    ensures RunDatagrams(w, env, s, hello, xs) == RunDatagrams(w, env, s, hello, before) + more
    ensures RunInners(env, s, hello, xs) == RunInners(env, s, hello, before) + moreInners
    ensures AllArrive(w, more, moreInners, |RunInners(env, s, hello, before)|)
  {
    var v, x := SessionAfter(env, s, hello, before), xs[|xs| - 1];
    more, moreInners := Datagrams(w, env, s, v, x), Inners(env, s, v, x);
    NextArrives(w, env, s, hello, before, v, x, |RunInners(env, s, hello, before)|);
  }

  /** Over every run, a mirrored peer unwraps the datagrams of a session in order to what the session
      wrapped, under successive envelope ids from 1 on. */
  lemma {:induction false} RunArrives(w: Wrapping, env: Env, s: Setup, hello: Hello, xs: seq<Section>,
                                      wires: seq<ByteString>, inners: seq<ByteString>)
    requires s.enveloped == Enveloped(w) && s.ids == Ids(env.serverSid, env.clientSid)
    requires wires == RunDatagrams(w, env, s, hello, xs) && inners == RunInners(env, s, hello, xs)
    ensures AllArrive(w, wires, inners, 0)
  {
    if xs == [] {
      HelloArrives(w, env, s, hello);
    } else {
      var before := xs[..|xs| - 1];
      var wires0, inners0 := RunDatagrams(w, env, s, hello, before), RunInners(env, s, hello, before);
      RunArrives(w, env, s, hello, before, wires0, inners0);
      var more, moreInners := LastArrives(w, env, s, hello, xs, before);
      ArriveConcat(w, wires, inners, wires0, inners0, more, moreInners, 0, |inners0|);
    }
  }

  /** The peer finds the envelope ids `ids` on the datagrams, in order. */
  ghost predicate CarryIds(w: Wrapping, wires: seq<ByteString>, ids: seq<u32>) {
    && |wires| == |ids|
    && forall k: nat | k < |ids| :: Unwraps(w, wires[k]).Ok? && Unwraps(w, wires[k]).value.1 == Some(ids[k])
  }

  lemma ArrivedIds(w: Wrapping, wires: seq<ByteString>, inners: seq<ByteString>, ids: seq<u32>)
    requires Enveloped(w) && AllArrive(w, wires, inners, 0)
    requires |ids| == |wires| && forall k | 0 <= k < |ids| :: ids[k] == EnvelopeId(k)
    ensures CarryIds(w, wires, ids)
  {
    forall k: nat | k < |ids|
      ensures Unwraps(w, wires[k]).Ok? && Unwraps(w, wires[k]).value.1 == Some(ids[k])
    {
      assert Arrival(w)(wires[k], inners[k], 0 + k);
    }
  }

  /**
    So the envelope ids the peer sees are those of the run, and its replay window accepts all datagrams
    of the session, first copies and retransmissions alike, if and only if there are fewer than 2^32.
   */
  lemma PeerAcceptsAll(w: Wrapping, env: Env, s: Setup, hello: Hello, xs: seq<Section>,
                       wires: seq<ByteString>, ids: seq<u32>)
    requires s.enveloped == Enveloped(w) && Enveloped(w) && s.ids == Ids(env.serverSid, env.clientSid)
    requires wires == RunDatagrams(w, env, s, hello, xs)
    requires ids == ReliabilityRuns.After(s, Ops(env, s, hello, xs)).envelopes
    ensures CarryIds(w, wires, ids)
    ensures (forall k: nat | k < |ids| :: Accepts(ids, k)) <==> |wires| < U32_COUNT
  {
    RunArrives(w, env, s, hello, xs, wires, RunInners(env, s, hello, xs));
    RunUses(env, s, hello, xs);
    RunEnvelopes(s, Ops(env, s, hello, xs));
    ArrivedIds(w, wires, RunInners(env, s, hello, xs), ids);
    CountedAccepted(ids);
  }

  // ---------------------------------------------------------------------------------------------
  // Inbound envelope ids
  // ---------------------------------------------------------------------------------------------

  /** The envelope id under which a section hands a control packet on, if it does. */
  function HandledBy(window: Window, x: Section): seq<u32> {
    if x.Handle? && x.replayId.Some? && Judge(window, x.replayId).1 then [x.replayId.value] else []
  }

  /** The envelope ids under which control packets were handled, that of the hard reset included. */
  function HandledIds(env: Env, s: Setup, hello: Hello, xs: seq<Section>): seq<u32> {
    if xs == [] then (match hello.replayId case Some(id) => [id] case None => [])
    else
      var before := xs[..|xs| - 1];
      HandledIds(env, s, hello, before) + HandledBy(SessionAfter(env, s, hello, before).window, xs[|xs| - 1])
  }

  /** Id 0 is never accepted, but a hard reset is answered whatever its id. */
  function Nonzero(log: seq<u32>): set<u32> {
    set id | id in log && id != 0
  }

  ghost predicate WindowKnows(window: Window, log: seq<u32>) {
    Represents(window, Nonzero(log)) && Distinct(log)
  }

  lemma FirstKnown(hello: Hello, log: seq<u32>)
    requires log == match hello.replayId case Some(id) => [id] case None => []
    ensures WindowKnows(Judge(Fresh, hello.replayId).0, log)
  {
    FreshRepresents();
    if hello.replayId.Some? {
      var id := hello.replayId.value;
      CheckRefines(Fresh, {}, id);
      assert Nonzero([id]) == if Admits({}, id) then {} + {id} else {};
    } else {
      assert Nonzero([]) == {};
    }
  }

  lemma NextKnown(window: Window, log: seq<u32>, x: Section)
    requires WindowKnows(window, log)
    ensures WindowKnows(if x.Handle? then Judge(window, x.replayId).0 else window, log + HandledBy(window, x))
  {
    assert log + [] == log;
    if x.Handle? && x.replayId.Some? {
      var id := x.replayId.value;
      CheckRefines(window, Nonzero(log), id);
      if Judge(window, x.replayId).1 {
        assert Nonzero(log + [id]) == Nonzero(log) + {id};
        assert id !in log;
      }
    }
  }

  lemma SectionWindow(env: Env, s: Setup, v: View, x: Section)
    ensures SectionStep(env, s, v, x).window == if x.Handle? then Judge(v.window, x.replayId).0 else v.window
  {}

  lemma {:induction false} RunKnows(env: Env, s: Setup, hello: Hello, xs: seq<Section>)
    ensures WindowKnows(SessionAfter(env, s, hello, xs).window, HandledIds(env, s, hello, xs))
  {
    if xs == [] {
      FirstKnown(hello, HandledIds(env, s, hello, xs));
    } else {
      var before, x := xs[..|xs| - 1], xs[|xs| - 1];
      var v := SessionAfter(env, s, hello, before);
      RunKnows(env, s, hello, before);
      SectionWindow(env, s, v, x);
      NextKnown(v.window, HandledIds(env, s, hello, before), x);
    }
  }

  /** Over every run of a session no control packet is handled twice under one envelope id, and one
      that arrives is handled exactly if its id is nonzero, new, and less than 64 behind. */
  lemma EnvelopesHandledOnce(env: Env, s: Setup, hello: Hello, xs: seq<Section>, id: u32)
    ensures Distinct(HandledIds(env, s, hello, xs))
    ensures Judge(SessionAfter(env, s, hello, xs).window, Some(id)).1
        <==> Admits(Nonzero(HandledIds(env, s, hello, xs)), id)
  {
    RunKnows(env, s, hello, xs);
    CheckRefines(SessionAfter(env, s, hello, xs).window, Nonzero(HandledIds(env, s, hello, xs)), id);
  }

  // ---------------------------------------------------------------------------------------------
  // Sessions in which the ack count overflows its byte
  // ---------------------------------------------------------------------------------------------

  /** A control packet with an opcode the server ignores, apart from noting its id. */
  function Ignored(env: Env, id: u32): ControlPacket {
    ControlPacket(ControlWkcV1, 0, env.clientSid, [], None, Some(id), [])
  }

  /** Such packets arrive under the ids 0, 1, ..., `n` - 1. */
  function IgnoredRun(env: Env, i: Inputs, n: nat): seq<Section>
    requires n <= U32_COUNT
  {
    if n == 0 then [] else IgnoredRun(env, i, n - 1) + [Handle(Ignored(env, n - 1), None, i)]
  }

  /** `n` acks are pending, and nothing else is known of the session than its hard reset. */
  predicate AcksPending(v: View, n: nat) {
    && v.conn == Start && |v.layer.pending| == n
    && (forall id | id in v.layer.received :: id < n) && (n > 0 ==> 0 in v.layer.received)
  }

  lemma {:induction false} IgnoredPending(env: Env, s: Setup, hello: Hello, i: Inputs, n: nat)
    requires n <= U32_COUNT
    ensures AcksPending(SessionAfter(env, s, hello, IgnoredRun(env, i, n)), n)
  {
    if n > 0 {
      var xs := IgnoredRun(env, i, n);
      var v := SessionAfter(env, s, hello, IgnoredRun(env, i, n - 1));
      assert xs[..|xs| - 1] == IgnoredRun(env, i, n - 1);
      IgnoredPending(env, s, hello, i, n - 1);
      IgnoredStep(env, s, v, i, n - 1);
    }
  }

  lemma IgnoredStep(env: Env, s: Setup, v: View, i: Inputs, n: u32)
    requires AcksPending(v, n)
    ensures AcksPending(SectionStep(env, s, v, Handle(Ignored(env, n), None, i)), n + 1)
  {
    assert Booked(v.layer, Ignored(env, n)) == NoteReceived(v.layer, n) by {
      NothingAcked(v.layer.unacked);
    }
  }

  lemma {:induction false} NothingAcked(q: seq<Unacked>)
    ensures Unacknowledged(q, []) == q
  {
    UnknownAcksIgnored(q, []);
  }

  /** The packet with which a session answers a handshake record whose id it has seen before. */
  function Answer(env: Env, s: Setup, v: View, payload: ByteString, i: Inputs): seq<ControlPacket> {
    var p := ControlPacket(ControlV1, 0, env.clientSid, [], None, Some(0), payload);
    DispatchOutcome(env, s.enveloped, v.conn, Booked(v.layer, p), p, i).1
  }

  /** After `n` such packets, the next one the session sends reads back at the peer if and only if
      `n` is at most 255: the ack count is cast to a byte. */
  lemma AckCountOverflows(env: Env, s: Setup, hello: Hello, i: Inputs, n: nat, payload: ByteString)
    requires 0 < n <= U32_COUNT && 0 < |i.tlsOut| <= MAX_TLS_PAYLOAD && !i.tlsUp
    ensures var ps := Answer(env, s, SessionAfter(env, s, hello, IgnoredRun(env, i, n)), payload, i);
            |ps| == 1 && |ps[0].acks| == n && (Parse(Encode(ps[0])) == Ok(ps[0]) <==> n <= 255)
  {
    var v := SessionAfter(env, s, hello, IgnoredRun(env, i, n));
    IgnoredPending(env, s, hello, i, n);
    AnswerCarriesAcks(env, s, v, payload, i, n);
    ControlPacketRoundTrip(Answer(env, s, v, payload, i)[0]);
  }

  lemma AnswerCarriesAcks(env: Env, s: Setup, v: View, payload: ByteString, i: Inputs, n: nat)
    requires AcksPending(v, n) && n > 0 && 0 < |i.tlsOut| <= MAX_TLS_PAYLOAD && !i.tlsUp
    ensures var ps := Answer(env, s, v, payload, i);
            |ps| == 1 && |ps[0].acks| == n && (WellFormed(ps[0]) <==> n <= 255)
  {
    var p := ControlPacket(ControlV1, 0, env.clientSid, [], None, Some(0), payload);
    NothingAcked(v.layer.unacked);
    assert Booked(v.layer, p) == v.layer;
    var (c, verdict) := HandleMain(env, i.assign, v.conn, i.chunk, i.tlsUp);
    assert c == FeedMain(Start, i.chunk, false) && verdict == Quiet;
    FlushPackets(v.layer, Ids(env.serverSid, env.clientSid), 0, Chunks(i.tlsOut), s.enveloped, i.now, i.accepts);
    assert Chunks(i.tlsOut) == [i.tlsOut];
  }
}
