/**
  The session state machine: `drive_control_plane`, the rekey track and the control dispatch of
  src/server.rs, with the states of src/session.rs, as functions on values.

  TLS is a pair of byte queues per context: what the peer's records decrypt to arrives as a chunk,
  and what the server writes is appended to an outbox.  Whether the handshake is over, whether
  sends succeed and what address assignment answers are inputs.
 */
module ControlPlane {
  import opened Bytes
  import opened Crypto
  import opened ControlChannel
  import opened Keyring
  import Prf

  datatype Phase = WaitingHardReset | Handshaking | KeyExchange | PushPending | Established | Closed

  function Rank(p: Phase): nat {
    match p
    case WaitingHardReset => 0
    case Handshaking => 1
    case KeyExchange => 2
    case PushPending => 3
    case Established => 4
    case Closed => 5
  }

  /** The parts of a session that never change once it exists, and the primitives it calls. */
  datatype Env = Env(
    aead: Aead, md5: Prf.Hash, sha1: Prf.Hash,
    options: ByteString, peerInfo: ByteString,
    random1: ByteString, random2: ByteString,
    clientSid: u64, serverSid: u64, peerId: u32)

  datatype RekeyPhase = RekeyHandshaking | RekeyKeyExchange

  datatype RekeyTrack = RekeyTrack(
    keyId: byte, phase: RekeyPhase, inbox: ByteString, outbox: ByteString,
    random1: ByteString, random2: ByteString, keyMethodSent: bool)

  /** A message taken from the stream. */
  datatype Message = KeyMethod(km: ClientKeyMethod2) | Text(text: ByteString)

  /** `inbox` is what TLS has decrypted and nobody has read, `outbox` what was written to TLS. */
  datatype Conn = Conn(
    phase: Phase, inbox: ByteString, outbox: ByteString, handled: seq<Message>,
    keys: Keyring, track: Option<RekeyTrack>)

  const Start := Conn(Handshaking, [], [], [], EmptyKeyring, None)

  /** "PUSH_REQUEST", "EXIT" and "CC_EXIT" */
  const PUSH_REQUEST: ByteString := [0x50, 0x55, 0x53, 0x48, 0x5F, 0x52, 0x45, 0x51, 0x55, 0x45, 0x53, 0x54]
  const EXIT: ByteString := [0x45, 0x58, 0x49, 0x54]
  const CC_EXIT: ByteString := [0x43, 0x43, 0x5F, 0x45, 0x58, 0x49, 0x54]

  /** "RESTART,1" with its terminator */
  const RESTART: ByteString := [0x52, 0x45, 0x53, 0x54, 0x41, 0x52, 0x54, 0x2C, 0x31, 0x00]

  predicate IsExit(msg: ByteString) {
    msg == EXIT || CC_EXIT <= msg
  }

  /** The cipher both peers derive from one key-method-2 exchange. */
  function DeriveCipher(env: Env, km: ClientKeyMethod2, random1: ByteString, random2: ByteString): DataCipher {
    ServerCipher(Prf.KeyData(env.md5, env.sha1, Prf.KeyInputs(
      km.preMaster, km.random1, random1, km.random2, random2,
      ToBe(W64, env.clientSid), ToBe(W64, env.serverSid))))
  }

  function Reply(env: Env, random1: ByteString, random2: ByteString): ByteString {
    EncodeServer(ServerKeyMethod2(random1, random2, env.options, [], [], env.peerInfo))
  }

  // ---------------------------------------------------------------------------------------------
  // The main track
  // ---------------------------------------------------------------------------------------------

  datatype Verdict = Quiet | BadKeyMethod | AssignFailed

  /** A complete key-method-2 packet of `n` bytes has arrived. */
  function TakeKeyMethod(env: Env, c: Conn, km: ClientKeyMethod2, n: nat): Conn
    requires n <= |c.inbox|
  {
    c.(phase := PushPending,
       inbox := c.inbox[n..],
       outbox := c.outbox + Reply(env, env.random1, env.random2),
       handled := c.handled + [KeyMethod(km)],
       keys := InstallPrf(c.keys, 0, DeriveCipher(env, km, env.random1, env.random2)))
  }

  function TakeText(c: Conn, msg: ByteString, n: nat): Conn
    requires n <= |c.inbox|
  {
    c.(inbox := c.inbox[n..], handled := c.handled + [Text(msg)])
  }

  /** One turn of the loop in `drive_control_plane`: the new state, and a verdict if it returns. */
  function Turn(env: Env, assign: Result<ByteString>, c: Conn): (r: (Conn, Option<Verdict>))
    ensures r.1.None? ==> |r.0.inbox| < |c.inbox|
  {
    match c.phase
    case KeyExchange =>
      (match TryParse(c.inbox)
       case NeedMore => (c, Some(Quiet))
       case Malformed => (c, Some(BadKeyMethod))
       case Ready(km, n) => (TakeKeyMethod(env, c, km, n), None))
    case PushPending =>
      (match TryPopAscii(c.inbox)
       case NeedMore => (c, Some(Quiet))
       case Ready(msg, n) =>
         var c' := TakeText(c, msg, n);
         if msg != PUSH_REQUEST then (c', None)
         else
           match assign
           case Err => (c', Some(AssignFailed))
           case Ok(reply) => (c'.(phase := Established, outbox := c'.outbox + reply), None))
    case Established =>
      (match TryPopAscii(c.inbox)
       case NeedMore => (c, Some(Quiet))
       case Ready(msg, n) =>
         var c' := TakeText(c, msg, n);
         if IsExit(msg) then (c'.(phase := Closed), Some(Quiet)) else (c', None))
    case _ => (c, Some(Quiet))
  }

  /** `drive_control_plane`, with `assign` as the outcome of address assignment. */
  function Drive(env: Env, assign: Result<ByteString>, c: Conn): (Conn, Verdict)
    decreases |c.inbox|
  {
    var (c', v) := Turn(env, assign, c);
    match v
    case Some(verdict) => (c', verdict)
    case None => Drive(env, assign, c')
  }

  function WithInput(c: Conn, chunk: ByteString): Conn {
    c.(inbox := c.inbox + chunk)
  }

  /** A chunk of plaintext arrives on the main track and is driven. */
  function Feed(env: Env, assign: Result<ByteString>, c: Conn, chunk: ByteString): (Conn, Verdict) {
    Drive(env, assign, WithInput(c, chunk))
  }

  function FeedAll(env: Env, assign: Result<ByteString>, c: Conn, chunks: seq<ByteString>): (Conn, Verdict)
    requires chunks != []
    decreases |chunks|
  {
    if |chunks| == 1 then Feed(env, assign, c, chunks[0])
    else FeedAll(env, assign, Feed(env, assign, c, chunks[0]).0, chunks[1..])
  }

  // ---------------------------------------------------------------------------------------------
  // The rekey track
  // ---------------------------------------------------------------------------------------------

  function StartRekey(c: Conn, keyId: byte, random1: ByteString, random2: ByteString): Conn {
    c.(track := Some(RekeyTrack(keyId, RekeyHandshaking, [], [], random1, random2, false)))
  }

  /** The server's own choice of the next key id. */
  function NextKeyId(keyId: byte): byte {
    ((keyId + 1) % 256) % 8
  }

  /** Masking a wrapped byte to three bits: the key ids 0 to 7 in turn. */
  lemma NextKeyIdIs(keyId: byte)
    ensures NextKeyId(keyId) == (keyId + 1) % 8 < 8
  {}

  function FeedRekey(t: RekeyTrack, chunk: ByteString, tlsUp: bool): RekeyTrack {
    t.(inbox := t.inbox + chunk,
       phase := if t.phase == RekeyHandshaking && tlsUp then RekeyKeyExchange else t.phase)
  }

  function FedRekey(c: Conn, chunk: ByteString, tlsUp: bool): Conn
    requires c.track.Some?
  {
    c.(track := Some(FeedRekey(c.track.value, chunk, tlsUp)))
  }

  /** `drive_rekey_control_plane`: install the new slot and answer, once key-method-2 is complete. */
  function DriveRekey(env: Env, c: Conn): (Conn, bool) {
    if c.track.None? || c.track.value.phase != RekeyKeyExchange then (c, true)
    else
      var t := c.track.value;
      match TryParse(t.inbox)
      case NeedMore => (c, true)
      case Malformed => (c, false)
      case Ready(km, n) =>
        (c.(keys := Install(c.keys, t.keyId, DeriveCipher(env, km, t.random1, t.random2)),
            track := Some(t.(inbox := t.inbox[n..], keyMethodSent := true,
                             outbox := t.outbox + Reply(env, t.random1, t.random2)))),
         true)
  }

  /** The last phase of `handle_rekey_control`: switch to the new slot and drop the track. */
  function FinishRekey(c: Conn): Conn {
    if c.track.Some? && c.track.value.keyMethodSent then
      c.(keys := Promote(c.keys, c.track.value.keyId).0, track := None)
    else c
  }

  /** `handle_rekey_control`; `flushed` says whether the pending TLS bytes could be sent. */
  function HandleRekey(env: Env, c: Conn, chunk: ByteString, tlsUp: bool, flushed: bool): Conn {
    if c.track.None? then c
    else
      var (driven, ok) := DriveRekey(env, FedRekey(c, chunk, tlsUp));
      if !ok || !flushed then driven else FinishRekey(driven)
  }

  /** New plaintext on the main track; the end of the handshake moves the phase on. */
  function FeedMain(c: Conn, chunk: ByteString, tlsUp: bool): Conn {
    WithInput(c, chunk).(phase := if c.phase == Handshaking && tlsUp then KeyExchange else c.phase)
  }

  /** A P_CONTROL_V1 payload on the main track. */
  function HandleMain(env: Env, assign: Result<ByteString>, c: Conn, chunk: ByteString, tlsUp: bool): (Conn, Verdict) {
    Drive(env, assign, FeedMain(c, chunk, tlsUp))
  }

  /** A client's soft reset starts a rekey under the key id it names. */
  function TakeSoftReset(c: Conn, keyId: byte, random1: ByteString, random2: ByteString): Conn {
    if c.track.Some? || c.phase != Established then c else StartRekey(c, keyId, random1, random2)
  }

  /** The server's rekey timer. */
  function TakeTimer(c: Conn, due: bool, random1: ByteString, random2: ByteString): Conn {
    if c.phase != Established || c.track.Some? || !due then c
    else
      var activeKeyId := match ActiveSlot(c.keys) case Some(s) => s.keyId case None => 0;
      StartRekey(c, NextKeyId(activeKeyId), random1, random2)
  }

  /** On shutdown an established session is told to reconnect. */
  function TakeRestart(c: Conn): Conn {
    if c.phase == Established then c.(outbox := c.outbox + RESTART) else c
  }

  /** Everything that touches a session's keys and phase, in the order it happens to happen. */
  datatype Event =
    | Control(keyId: byte, chunk: ByteString, tlsUp: bool, assign: Result<ByteString>, flushed: bool)
    | SoftReset(resetKeyId: byte, resetRandom1: ByteString, resetRandom2: ByteString)
    | RekeyTimer(due: bool, timerRandom1: ByteString, timerRandom2: ByteString)
    | Send(ping: bool, plaintext: ByteString)
    | Receive(datagram: ByteString)
    | Restart

  predicate IsRekeyControl(c: Conn, keyId: byte) {
    c.track.Some? && c.track.value.keyId == keyId
  }

  /** Pings go out only in Established; packets from the TUN device need only an active slot. */
  predicate Sends(c: Conn, ping: bool) {
    ActiveSlot(c.keys).Some? && (ping ==> c.phase == Established)
  }

  function Step(env: Env, c: Conn, e: Event): Conn {
    match e
    case Control(keyId, chunk, tlsUp, assign, flushed) =>
      if IsRekeyControl(c, keyId) then HandleRekey(env, c, chunk, tlsUp, flushed)
      else HandleMain(env, assign, c, chunk, tlsUp).0
    case SoftReset(keyId, r1, r2) => TakeSoftReset(c, keyId, r1, r2)
    case RekeyTimer(due, r1, r2) => TakeTimer(c, due, r1, r2)
    case Send(ping, plaintext) =>
      if Sends(c, ping) then c.(keys := SealNext(env.aead, c.keys, env.peerId, plaintext).0) else c
    case Receive(datagram) => c.(keys := OpenNext(env.aead, c.keys, datagram).0)
    case Restart => TakeRestart(c)
  }

  // ---------------------------------------------------------------------------------------------
  // Independence of how the stream is cut
  // ---------------------------------------------------------------------------------------------

  lemma TakeKeyMethodExtends(env: Env, c: Conn, km: ClientKeyMethod2, n: nat, ext: ByteString)
    requires n <= |c.inbox|
    ensures TakeKeyMethod(env, WithInput(c, ext), km, n) == WithInput(TakeKeyMethod(env, c, km, n), ext)
  {
    assert (c.inbox + ext)[n..] == c.inbox[n..] + ext;
  }

  lemma TakeTextExtends(c: Conn, msg: ByteString, n: nat, ext: ByteString)
    requires n <= |c.inbox|
    ensures TakeText(WithInput(c, ext), msg, n) == WithInput(TakeText(c, msg, n), ext)
  {
    assert (c.inbox + ext)[n..] == c.inbox[n..] + ext;
  }

  /** The turn took a message off the buffer. */
  predicate TookMessage(c: Conn) {
    match c.phase
    case KeyExchange => TryParse(c.inbox).Ready?
    case PushPending => TryPopAscii(c.inbox).Ready?
    case Established => TryPopAscii(c.inbox).Ready?
    case _ => false
  }

  /** Such a turn is not affected by bytes that arrive later. */
  lemma TurnExtends(env: Env, assign: Result<ByteString>, c: Conn, ext: ByteString)
    requires TookMessage(c)
    ensures var (c', v) := Turn(env, assign, c);
            Turn(env, assign, WithInput(c, ext)) == (WithInput(c', ext), v)
  {
    if c.phase == KeyExchange {
      TryParseExtends(c.inbox, ext);
      var r := TryParse(c.inbox);
      TakeKeyMethodExtends(env, c, r.value, r.used, ext);
    } else {
      PopAsciiExtends(c.inbox, ext);
      var r := TryPopAscii(c.inbox);
      TakeTextExtends(c, r.value, r.used, ext);
    }
  }

  /** The state left by driving `c` is the one to which later input may simply be added. */
  lemma {:induction false} DriveResumes(env: Env, assign: Result<ByteString>, c: Conn, ext: ByteString)
    requires Drive(env, assign, c).1 != AssignFailed
    ensures Drive(env, assign, WithInput(c, ext)) == Drive(env, assign, WithInput(Drive(env, assign, c).0, ext))
    decreases |c.inbox|
  {
    var (c', v) := Turn(env, assign, c);
    if TookMessage(c) {
      TurnExtends(env, assign, c, ext);
      if v.None? {
        DriveResumes(env, assign, c', ext);
      }
    }
  }

  lemma {:induction false} AssignedNeverFails(env: Env, assign: Result<ByteString>, c: Conn)
    requires assign.Ok?
    ensures Drive(env, assign, c).1 != AssignFailed
    decreases |c.inbox|
  {
    var (c', v) := Turn(env, assign, c);
    if v.None? {
      AssignedNeverFails(env, assign, c');
    }
  }

  /**
    For every stream and every way of cutting it into chunks: when address assignment succeeds,
    feeding the chunks one by one ends in the same state - phase, leftover bytes, handled messages,
    queued replies, keys - and with the same verdict as feeding the stream at once.
   */
  lemma {:induction false} CutsDoNotMatter(env: Env, assign: Result<ByteString>, c: Conn, chunks: seq<ByteString>)
    requires assign.Ok? && chunks != []
    ensures FeedAll(env, assign, c, chunks) == Feed(env, assign, c, Concat(chunks))
    decreases |chunks|
  {
    if |chunks| == 1 {
      assert Concat(chunks) == chunks[0] + Concat(chunks[1..]) == chunks[0];
    } else {
      var first, rest := WithInput(c, chunks[0]), Concat(chunks[1..]);
      CutsDoNotMatter(env, assign, Drive(env, assign, first).0, chunks[1..]);
      CutOnce(env, assign, c, chunks[0], rest);
    }
  }

  lemma InputTwice(c: Conn, a: ByteString, b: ByteString)
    ensures WithInput(WithInput(c, a), b) == WithInput(c, a + b)
  {
    assert (c.inbox + a) + b == c.inbox + (a + b);
  }

  lemma CutOnce(env: Env, assign: Result<ByteString>, c: Conn, a: ByteString, b: ByteString)
    requires assign.Ok?
    ensures Feed(env, assign, Feed(env, assign, c, a).0, b) == Feed(env, assign, c, a + b)
  {
    InputTwice(c, a, b);
    AssignedNeverFails(env, assign, WithInput(c, a));
    DriveResumes(env, assign, WithInput(c, a), b);
  }

  lemma {:induction false} FailedStaysPending(env: Env, assign: Result<ByteString>, c: Conn)
    requires Drive(env, assign, c).1 == AssignFailed
    ensures Drive(env, assign, c).0.phase == PushPending
    decreases |c.inbox|
  {
    var (c', v) := Turn(env, assign, c);
    if v.None? {
      FailedStaysPending(env, assign, c');
    }
  }

  lemma {:induction false} FailureIgnoresLaterInput(env: Env, assign: Result<ByteString>, c: Conn, ext: ByteString)
    requires Drive(env, assign, c).1 == AssignFailed
    ensures Drive(env, assign, WithInput(c, ext)) == (WithInput(Drive(env, assign, c).0, ext), AssignFailed)
    decreases |c.inbox|
  {
    var (c', v) := Turn(env, assign, c);
    TurnExtends(env, assign, c, ext);
    if v.None? {
      FailureIgnoresLaterInput(env, assign, c', ext);
    }
  }

  lemma {:induction false} DriveShrinks(env: Env, assign: Result<ByteString>, c: Conn)
    ensures |Drive(env, assign, c).0.inbox| <= |c.inbox|
    decreases |c.inbox|
  {
    var (c', v) := Turn(env, assign, c);
    if v.None? {
      DriveShrinks(env, assign, c');
    }
  }

  /** What stands behind the first complete PUSH_REQUEST in the bytes of a session that is not
      established yet; nothing if there is none. */
  function BehindPush(phase: Phase, buf: ByteString): Option<ByteString>
    decreases |buf|
  {
    match phase
    case KeyExchange =>
      (match TryParse(buf) case Ready(_, n) => BehindPush(PushPending, buf[n..]) case _ => None)
    case PushPending =>
      (match TryPopAscii(buf)
       case Ready(msg, n) => if msg == PUSH_REQUEST then Some(buf[n..]) else BehindPush(PushPending, buf[n..])
       case _ => None)
    case _ => None
  }

  /** With assignment failing, the loop fails exactly at the first PUSH_REQUEST and leaves what is
      behind it. */
  lemma {:induction false} FailsAtPush(env: Env, c: Conn)
    ensures Drive(env, Err, c).1 == AssignFailed <==> BehindPush(c.phase, c.inbox).Some?
    ensures BehindPush(c.phase, c.inbox).Some? ==> Drive(env, Err, c).0.inbox == BehindPush(c.phase, c.inbox).value
    decreases |c.inbox|
  {
    var (c', v) := Turn(env, Err, c);
    if v.None? {
      FailsAtPush(env, c');
      if c.phase == Established {
        EstablishedNeverFails(env, c');
      }
    }
  }

  lemma {:induction false} EstablishedNeverFails(env: Env, c: Conn)
    requires c.phase == Established
    ensures Drive(env, Err, c).1 != AssignFailed
    decreases |c.inbox|
  {
    var (c', v) := Turn(env, Err, c);
    if v.None? {
      EstablishedNeverFails(env, c');
    }
  }

  /**
    In general a cut leaves the state unchanged exactly when assignment succeeds, or the first part
    holds no complete PUSH_REQUEST, or no complete message follows it.  (A failed assignment returns
    from the loop with the rest of the buffer unread; only the next input reads on.)
   */
  lemma CutMattersExactly(env: Env, assign: Result<ByteString>, c: Conn, a: ByteString, b: ByteString)
    ensures Feed(env, assign, Feed(env, assign, c, a).0, b).0 == Feed(env, assign, c, a + b).0
        <==> assign.Ok? || BehindPush(c.phase, c.inbox + a).None? || 0 !in BehindPush(c.phase, c.inbox + a).value + b
  {
    var first := WithInput(c, a);
    var (mid, v) := Drive(env, assign, first);
    InputTwice(c, a, b);
    if assign.Ok? {
      AssignedNeverFails(env, assign, first);
      DriveResumes(env, assign, first, b);
    } else {
      FailsAtPush(env, first);
      if v != AssignFailed {
        DriveResumes(env, assign, first, b);
      } else {
        FailureIgnoresLaterInput(env, assign, first, b);
        FailedStaysPending(env, assign, first);
        StuckExactly(env, WithInput(mid, b));
      }
    }
  }

  /** Where a failed assignment stopped, the next input reads on exactly if there is a message. */
  lemma StuckExactly(env: Env, c: Conn)
    requires c.phase == PushPending
    ensures Drive(env, Err, c).0 == c <==> 0 !in c.inbox
  {
    if 0 in c.inbox {
      var (c', v) := Turn(env, Err, c);
      assert |c'.inbox| < |c.inbox|;
      DriveShrinks(env, Err, c');
    }
  }

  // ---------------------------------------------------------------------------------------------
  // What driving achieves
  // ---------------------------------------------------------------------------------------------

  /** When the loop returns without an error, no complete message is left unread, unless the session
      is closed or still handshaking. */
  lemma {:induction false} DriveDrains(env: Env, assign: Result<ByteString>, c: Conn)
    ensures var (c', v) := Drive(env, assign, c);
            v == Quiet ==> !TookMessage(c')
    decreases |c.inbox|
  {
    var (c', v) := Turn(env, assign, c);
    if v.None? {
      DriveDrains(env, assign, c');
    }
  }

  lemma DriveKeyMethod(env: Env, assign: Result<ByteString>, c: Conn, km: ClientKeyMethod2, rest: ByteString)
    requires c.phase == KeyExchange && Fields(km) && Fit(Strings(km)) && c.inbox == ClientLayout(km) + rest
    ensures Drive(env, assign, c)
         == Drive(env, assign, TakeKeyMethod(env, c.(inbox := rest), km, 0))
  {
    ClientRoundTrip(km, rest);
    assert c.inbox[|ClientLayout(km)|..] == rest;
    assert rest[0..] == rest;
  }

  /** One text message in front of the buffer. */
  lemma DriveText(env: Env, assign: Result<ByteString>, c: Conn, msg: ByteString, rest: ByteString)
    requires c.phase == PushPending || c.phase == Established
    requires 0 !in msg && c.inbox == msg + [0] + rest
    ensures var c' := c.(inbox := rest, handled := c.handled + [Text(msg)]);
            Drive(env, assign, c)
              == if c.phase == Established then
                   (if IsExit(msg) then (c'.(phase := Closed), Quiet) else Drive(env, assign, c'))
                 else if msg != PUSH_REQUEST then Drive(env, assign, c')
                 else if assign.Err? then (c', AssignFailed)
                 else Drive(env, assign, c'.(phase := Established, outbox := c'.outbox + assign.value))
  {
    AsciiRoundTrip(msg, rest);
    assert c.inbox[|msg| + 1..] == rest;
  }

  /** The session at the end of a handshake. */
  function Greeted(env: Env, km: ClientKeyMethod2, phase: Phase, inbox: ByteString, outbox: ByteString,
                   texts: seq<Message>): Conn {
    Conn(phase, inbox, outbox, [KeyMethod(km)] + texts,
         InstallPrf(EmptyKeyring, 0, DeriveCipher(env, km, env.random1, env.random2)), None)
  }

  lemma FirstAnswer(env: Env, km: ClientKeyMethod2, rest: ByteString)
    ensures TakeKeyMethod(env, Start.(phase := KeyExchange, inbox := rest), km, 0)
         == Greeted(env, km, PushPending, rest, Reply(env, env.random1, env.random2), [])
  {
    assert rest[0..] == rest;
    assert [] + Reply(env, env.random1, env.random2) == Reply(env, env.random1, env.random2);
  }

  lemma SecondAnswer(env: Env, push: ByteString, km: ClientKeyMethod2, outbox: ByteString)
    ensures Drive(env, Ok(push), Greeted(env, km, PushPending, PUSH_REQUEST + [0] + [], outbox, []))
         == (Greeted(env, km, Established, [], outbox + push, [Text(PUSH_REQUEST)]), Quiet)
  {
    var c := Greeted(env, km, PushPending, PUSH_REQUEST + [0] + [], outbox, []);
    DriveText(env, Ok(push), c, PUSH_REQUEST, []);
    var done := Greeted(env, km, Established, [], outbox + push, [Text(PUSH_REQUEST)]);
    assert [KeyMethod(km)] + [] + [Text(PUSH_REQUEST)] == [KeyMethod(km)] + [Text(PUSH_REQUEST)];
    assert c.(phase := Established, inbox := [], outbox := outbox + push,
              handled := c.handled + [Text(PUSH_REQUEST)]) == done;
    assert Turn(env, Ok(push), done) == (done, Some(Quiet));
  }

  /**
    A whole handshake, however the stream is cut: key-method-2 and PUSH_REQUEST take a session from
    KeyExchange to Established, with the derived key active and both answers queued in order.
   */
  lemma HandshakeEstablishes(env: Env, push: ByteString, km: ClientKeyMethod2, chunks: seq<ByteString>)
    requires Fields(km) && Fit(Strings(km)) && chunks != []
    requires Concat(chunks) == ClientLayout(km) + (PUSH_REQUEST + [0])
    ensures FeedAll(env, Ok(push), Start.(phase := KeyExchange), chunks)
         == (Greeted(env, km, Established, [], Reply(env, env.random1, env.random2) + push, [Text(PUSH_REQUEST)]),
             Quiet)
  {
    var c := Start.(phase := KeyExchange);
    var rest := PUSH_REQUEST + [0] + [];
    assert rest == PUSH_REQUEST + [0];
    CutsDoNotMatter(env, Ok(push), c, chunks);
    var fed := WithInput(c, Concat(chunks));
    assert fed == Start.(phase := KeyExchange, inbox := ClientLayout(km) + rest);
    DriveKeyMethod(env, Ok(push), fed, km, rest);
    FirstAnswer(env, km, rest);
    SecondAnswer(env, push, km, Reply(env, env.random1, env.random2));
  }

  lemma InstallThenPromote(k: Keyring, keyId: byte, cipher: DataCipher)
    requires ActiveSlot(k).Some? && ActiveSlot(k).value.keyId != keyId
    ensures var k' := Promote(Install(k, keyId, cipher), keyId).0;
            ActiveSlot(k') == Some(NewSlot(k, keyId, cipher)) && k'.slots[1 - k'.active] == ActiveSlot(k)
  {}

  /**
    A whole rekey: once the client's key-method-2 is complete and our answer is sent, the session
    sends on the newly derived key, and the key it sent on before stays in the other slot.
   */
  lemma RekeyCompletes(env: Env, c: Conn, chunk: ByteString)
    requires c.track.Some? && ActiveSlot(c.keys).Some? && ActiveSlot(c.keys).value.keyId != c.track.value.keyId
    ensures match TryParse(c.track.value.inbox + chunk)
            case Ready(km, _) =>
              var t := c.track.value;
              Switched(c, HandleRekey(env, c, chunk, true, true), DeriveCipher(env, km, t.random1, t.random2))
            case _ => true
  {
    var t := c.track.value;
    var fed := FedRekey(c, chunk, true);
    assert fed.track.value.phase == RekeyKeyExchange && fed.track.value.inbox == t.inbox + chunk;
    if TryParse(t.inbox + chunk).Ready? {
      var km := TryParse(t.inbox + chunk).value;
      var cipher := DeriveCipher(env, km, t.random1, t.random2);
      var driven := DriveRekey(env, fed).0;
      assert HandleRekey(env, c, chunk, true, true) == FinishRekey(driven);
      FinishSwitches(c, driven, cipher);
    }
  }

  /** `c'` is `c` after its rekey: a new generation with `cipher` is active, the old one still held. */
  predicate Switched(c: Conn, c': Conn, cipher: DataCipher)
    requires c.track.Some?
  {
    && c'.track.None? && c'.phase == c.phase
    && ActiveSlot(c'.keys) == Some(NewSlot(c.keys, c.track.value.keyId, cipher))
    && c'.keys.slots[1 - c'.keys.active] == ActiveSlot(c.keys)
  }

  lemma FinishSwitches(c: Conn, driven: Conn, cipher: DataCipher)
    requires c.track.Some? && ActiveSlot(c.keys).Some? && ActiveSlot(c.keys).value.keyId != c.track.value.keyId
    requires driven.track.Some? && driven.track.value.keyMethodSent && driven.track.value.keyId == c.track.value.keyId
    requires driven.phase == c.phase && driven.keys == Install(c.keys, c.track.value.keyId, cipher)
    ensures Switched(c, FinishRekey(driven), cipher)
  {
    InstallThenPromote(c.keys, c.track.value.keyId, cipher);
  }

  /**
    Key agreement: a client that derives the key data byte by byte from what it sent and the randoms it
    reads from the reply, and cuts the key block its own way, has the mirror image of the server's cipher.
   */
  lemma KeyAgreement(env: Env, km: ClientKeyMethod2, random1: ByteString, random2: ByteString)
    requires |random1| == |random2| == 32
    ensures |Reply(env, random1, random2)| >= 69
    ensures ClientView(env, km, Reply(env, random1, random2)) == Mirror(DeriveCipher(env, km, random1, random2))
  {
    var k := Prf.KeyInputs(km.preMaster, km.random1, random1, km.random2, random2,
                           ToBe(W64, env.clientSid), ToBe(W64, env.serverSid));
    ServerRandomsReadBack(ServerKeyMethod2(random1, random2, env.options, [], [], env.peerInfo));
    Prf.KeyDataIsBytes(env.md5, env.sha1, k);
    ClientMirrorsServer(Prf.KeyData(env.md5, env.sha1, k));
  }

  /** The client's cipher, from its own packet and the server's reply. */
  function ClientView(env: Env, km: ClientKeyMethod2, reply: ByteString): DataCipher
    requires |reply| >= 69
  {
    ClientCipher(Prf.KeyDataBytes(
      env.md5, env.sha1, km.preMaster, km.random1, reply[5..37], km.random2, reply[37..69],
      ToBe(W64, env.clientSid), ToBe(W64, env.serverSid)))
  }

  /** The strings a client reads from the reply: the options, no user name, no password, the peer info. */
  lemma ReplyReadsBack(env: Env, random1: ByteString, random2: ByteString)
    requires |random1| == |random2| == 32
    ensures var reply := Reply(env, random1, random2);
            ReadStrings(reply, 69, 4) == Some(([env.options, [], [], env.peerInfo], |reply|)) <==>
              |env.options| <= 65534 && |env.peerInfo| <= 65534
  {
    var km := ServerKeyMethod2(random1, random2, env.options, [], [], env.peerInfo);
    ServerStringsReadBack(km, []);
    assert EncodeServer(km) + [] == EncodeServer(km);
    var strings := [env.options, [], [], env.peerInfo];
    assert ServerStrings(km) == strings;
    assert Fit(strings) <==> |env.options| <= 65534 && |env.peerInfo| <= 65534 by {
      assert strings[0] in strings && strings[3] in strings;
    }
  }

  // ---------------------------------------------------------------------------------------------
  // What the messages say
  // ---------------------------------------------------------------------------------------------

  /** The texts with which a client leaves. */
  predicate IsGoodbye(msg: ByteString) {
    msg == Ascii("EXIT") || (|msg| >= 7 && msg[..7] == Ascii("CC_EXIT"))
  }

  lemma ExitTexts(msg: ByteString)
    ensures IsExit(msg) <==> IsGoodbye(msg)
  {
    assert EXIT == Ascii("EXIT") && CC_EXIT == Ascii("CC_EXIT");
    assert CC_EXIT <= msg <==> |msg| >= 7 && msg[..7] == CC_EXIT;
  }

  /** A complete message in the buffer is a goodbye. */
  predicate HasGoodbye(buf: ByteString)
    decreases |buf|
  {
    match TryPopAscii(buf)
    case Ready(msg, n) => IsGoodbye(msg) || HasGoodbye(buf[n..])
    case _ => false
  }

  /** An established session is closed exactly by a complete goodbye. */
  lemma {:induction false} ClosesExactly(env: Env, assign: Result<ByteString>, c: Conn)
    requires c.phase == Established
    ensures Drive(env, assign, c).0.phase == Closed <==> HasGoodbye(c.inbox)
    decreases |c.inbox|
  {
    var r := TryPopAscii(c.inbox);
    if r.Ready? {
      ExitTexts(r.value);
      if !IsExit(r.value) {
        ClosesExactly(env, assign, TakeText(c, r.value, r.used));
      }
    }
  }

  /** A session that waits for a push request is established by exactly that text. */
  lemma PushEstablishes(env: Env, assign: Result<ByteString>, c: Conn, msg: ByteString)
    requires c.phase == PushPending && 0 !in msg && c.inbox == msg + [0]
    ensures Drive(env, assign, c).0.phase == Established <==> msg == Ascii("PUSH_REQUEST") && assign.Ok?
    ensures Drive(env, assign, c).1 == AssignFailed <==> msg == Ascii("PUSH_REQUEST") && assign.Err?
  {
    assert PUSH_REQUEST == Ascii("PUSH_REQUEST");
    assert c.inbox == msg + [0] + [];
    DriveText(env, assign, c, msg, []);
    var c' := c.(inbox := [], handled := c.handled + [Text(msg)]);
    assert Drive(env, assign, c') == (c', Quiet);
  }

  lemma RestartText(c: Conn)
    ensures TakeRestart(c)
         == if c.phase == Established then c.(outbox := c.outbox + (Ascii("RESTART,1") + [0])) else c
  {
    assert RESTART == Ascii("RESTART,1") + [0];
  }

  /** A packet that is not key-method-2 is refused, and nothing changes. */
  lemma RefusesExactly(env: Env, assign: Result<ByteString>, c: Conn)
    requires c.phase == KeyExchange
    ensures Turn(env, assign, c).1 == Some(BadKeyMethod) <==>
              |c.inbox| >= 117 && !(c.inbox[..4] == [0, 0, 0, 0] && c.inbox[4] == 2)
    ensures Turn(env, assign, c).1 == Some(BadKeyMethod) ==> Drive(env, assign, c) == (c, BadKeyMethod)
  {
    MalformedExactly(c.inbox);
  }

  /** Nothing is read before the TLS handshake is over. */
  lemma WaitsForTls(env: Env, assign: Result<ByteString>, c: Conn, chunk: ByteString)
    requires c.phase == Handshaking
    ensures HandleMain(env, assign, c, chunk, false) == (WithInput(c, chunk), Quiet)
    ensures HandleMain(env, assign, c, chunk, true) == Drive(env, assign, WithInput(c, chunk).(phase := KeyExchange))
  {}

  /** A complete key-method-2 on the rekey track is answered with the track's own randoms, whether or not
      the answer can be sent; until it is, the track stays. */
  lemma RekeyAnswers(env: Env, c: Conn, chunk: ByteString)
    requires c.track.Some? && TryParse(c.track.value.inbox + chunk).Ready?
    ensures var t, r := c.track.value, TryParse(c.track.value.inbox + chunk);
            var c' := HandleRekey(env, c, chunk, true, false);
            && c'.keys == Install(c.keys, t.keyId, DeriveCipher(env, r.value, t.random1, t.random2))
            && c'.track == Some(RekeyTrack(t.keyId, RekeyKeyExchange, (t.inbox + chunk)[r.used..],
                                           t.outbox + Reply(env, t.random1, t.random2), t.random1, t.random2, true))
  {
    var fed := FedRekey(c, chunk, true);
    assert fed.track.value.phase == RekeyKeyExchange && fed.track.value.inbox == c.track.value.inbox + chunk;
  }
}
