/**
  What every interleaving of handshake messages, rekeys from either side, sends and receives keeps
  true of a session.
 */
module SessionRuns {
  import opened Bytes
  import opened Crypto
  import opened Replay
  import opened Keyring
  import opened ControlPlane
  import opened ControlChannel
  import DataPlane

  /** One use of a packet id under a key generation. */
  datatype Use = Use(gen: nat, id: u32)

  /** A session with its history: counter values handed to the cipher, ids accepted from the peer,
      and the generations that became active. */
  datatype Run = Run(conn: Conn, seals: seq<Use>, opens: seq<Use>, promotions: seq<nat>)

  const Begin := Run(Start, [], [], [])

  function SealedBy(c: Conn, e: Event): seq<Use> {
    if e.Send? && Sends(c, e.ping) then
      var slot := ActiveSlot(c.keys).value;
      [Use(slot.gen, slot.pidOut)]
    else []
  }

  function OpenedBy(env: Env, c: Conn, e: Event): seq<Use> {
    if e.Receive? && OpenNext(env.aead, c.keys, e.datagram).1.Ok? then
      var (i, id, _) := Authenticate(env.aead, c.keys, e.datagram).value;
      [Use(c.keys.slots[i].value.gen, id)]
    else []
  }

  /** A generation becomes active when the first slot is installed and when a rekey is finished. */
  function PromotedBy(c: Conn, c': Conn): seq<nat> {
    if ActiveSlot(c'.keys).None? then []
    else if ActiveSlot(c.keys).None? || (c.track.Some? && c'.track.None?) then [ActiveSlot(c'.keys).value.gen]
    else []
  }

  function Advance(env: Env, r: Run, e: Event): Run {
    var c' := Step(env, r.conn, e);
    Run(c', r.seals + SealedBy(r.conn, e), r.opens + OpenedBy(env, r.conn, e), r.promotions + PromotedBy(r.conn, c'))
  }

  /** The session after a whole sequence of events. */
  function After(env: Env, events: seq<Event>): Run {
    if events == [] then Begin else Advance(env, After(env, events[..|events| - 1]), events[|events| - 1])
  }

  lemma AfterNext(env: Env, events: seq<Event>, e: Event)
    ensures After(env, events + [e]) == Advance(env, After(env, events), e)
  {
    assert (events + [e])[..|events|] == events;
  }

  // ---------------------------------------------------------------------------------------------
  // What one drive of the main track does to the keys
  // ---------------------------------------------------------------------------------------------

  /** `c'` is `c` with more messages handled: it may have gained its first slot, nothing else. */
  ghost predicate DrivenFrom(c: Conn, c': Conn) {
    && Rank(c.phase) <= Rank(c'.phase)
    && c'.track == c.track
    && (Rank(c.phase) >= Rank(PushPending) || Rank(c'.phase) < Rank(PushPending) ==> c'.keys == c.keys)
    && (Rank(c.phase) < Rank(PushPending) <= Rank(c'.phase) ==>
          exists cipher :: c'.keys == InstallPrf(c.keys, 0, cipher))
  }

  lemma {:induction false} DriveEffect(env: Env, assign: Result<ByteString>, c: Conn)
    requires c.phase != WaitingHardReset
    ensures DrivenFrom(c, Drive(env, assign, c).0)
    decreases |c.inbox|
  {
    var (c', v) := Turn(env, assign, c);
    TurnEffect(env, assign, c);
    if v.None? {
      DriveEffect(env, assign, c');
    }
  }

  lemma TurnEffect(env: Env, assign: Result<ByteString>, c: Conn)
    ensures DrivenFrom(c, Turn(env, assign, c).0)
    ensures Rank(Turn(env, assign, c).0.phase) < Rank(PushPending) ==> Turn(env, assign, c).0 == c
  {
    if c.phase == KeyExchange && TryParse(c.inbox).Ready? {
      var km := TryParse(c.inbox).value;
      assert TakeKeyMethod(env, c, km, TryParse(c.inbox).used).keys
          == InstallPrf(c.keys, 0, DeriveCipher(env, km, env.random1, env.random2));
    }
  }

  // ---------------------------------------------------------------------------------------------
  // The effect of one event
  // ---------------------------------------------------------------------------------------------

  datatype Effect =
    | Idle
    | FirstKeys(cipher: DataCipher)
    | Started(keyId: byte)
    | Rekeyed(installed: Option<DataCipher>, finished: bool)
    | Sealed
    | Opened

  function AfterInstall(k: Keyring, keyId: byte, installed: Option<DataCipher>): Keyring {
    match installed case Some(cipher) => Install(k, keyId, cipher) case None => k
  }

  predicate HasKeys(p: Phase) {
    Rank(p) >= Rank(PushPending)
  }

  ghost predicate Shows(env: Env, c: Conn, e: Event, c': Conn, f: Effect) {
    match f
    case Idle =>
      && c'.keys == c.keys && c'.track == c.track
      && Rank(c.phase) <= Rank(c'.phase) && HasKeys(c.phase) == HasKeys(c'.phase)
    case FirstKeys(cipher) =>
      && c'.keys == InstallPrf(c.keys, 0, cipher) && c'.track == c.track
      && Rank(c.phase) <= Rank(c'.phase) && !HasKeys(c.phase) && HasKeys(c'.phase)
    case Started(keyId) =>
      && c'.keys == c.keys && c'.phase == c.phase == Established && c.track.None?
      && c'.track.Some? && c'.track.value.keyId == keyId && !c'.track.value.keyMethodSent
      && (e.SoftReset? ==> keyId == e.resetKeyId)
      && (!e.SoftReset? && ActiveSlot(c.keys).Some? ==> keyId == NextKeyId(ActiveSlot(c.keys).value.keyId))
    case Rekeyed(installed, finished) =>
      && c.track.Some? && c'.phase == c.phase
      && var t := c.track.value;
         var k := AfterInstall(c.keys, t.keyId, installed);
         var sent := t.keyMethodSent || installed.Some?;
         if finished then sent && c'.track.None? && c'.keys == Promote(k, t.keyId).0
         else c'.keys == k && c'.track.Some? && c'.track.value.keyId == t.keyId && c'.track.value.keyMethodSent == sent
    case Sealed =>
      e.Send? && Sends(c, e.ping) && c' == c.(keys := SealNext(env.aead, c.keys, env.peerId, e.plaintext).0)
    case Opened =>
      e.Receive? && c' == c.(keys := OpenNext(env.aead, c.keys, e.datagram).0)
  }

  /** What `drive_rekey_control_plane` may do. */
  lemma DriveRekeyEffect(env: Env, c: Conn) returns (installed: Option<DataCipher>)
    requires c.track.Some?
    ensures var (c', ok) := DriveRekey(env, c);
            var t := c.track.value;
            && c'.phase == c.phase && c'.keys == AfterInstall(c.keys, t.keyId, installed)
            && c'.track.Some? && c'.track.value.keyId == t.keyId
            && c'.track.value.keyMethodSent == (t.keyMethodSent || installed.Some?)
  {
    var t := c.track.value;
    if t.phase == RekeyKeyExchange && TryParse(t.inbox).Ready? {
      installed := Some(DeriveCipher(env, TryParse(t.inbox).value, t.random1, t.random2));
    } else {
      installed := None;
    }
  }

  lemma RekeyEffect(env: Env, c: Conn, chunk: ByteString, tlsUp: bool, flushed: bool, e: Event) returns (f: Effect)
    requires c.track.Some?
    ensures f.Rekeyed? && Shows(env, c, e, HandleRekey(env, c, chunk, tlsUp, flushed), f)
  {
    var fed := FedRekey(c, chunk, tlsUp);
    var installed := DriveRekeyEffect(env, fed);
    var (driven, ok) := DriveRekey(env, fed);
    f := Rekeyed(installed, ok && flushed && driven.track.value.keyMethodSent);
    assert HandleRekey(env, c, chunk, tlsUp, flushed) == if ok && flushed then FinishRekey(driven) else driven;
  }

  lemma DrivenShows(env: Env, c: Conn, e: Event, ready: Conn, c': Conn) returns (f: Effect)
    requires DrivenFrom(ready, c')
    requires ready.keys == c.keys && ready.track == c.track
    requires Rank(c.phase) <= Rank(ready.phase) && HasKeys(ready.phase) == HasKeys(c.phase)
    ensures (f.Idle? || f.FirstKeys?) && Shows(env, c, e, c', f)
  {
    if HasKeys(c.phase) == HasKeys(c'.phase) {
      f := Idle;
    } else {
      var cipher :| c'.keys == InstallPrf(c.keys, 0, cipher);
      f := FirstKeys(cipher);
    }
  }

  lemma MainEffect(env: Env, assign: Result<ByteString>, c: Conn, chunk: ByteString, tlsUp: bool, e: Event)
    returns (f: Effect)
    requires c.phase != WaitingHardReset
    ensures (f.Idle? || f.FirstKeys?) && Shows(env, c, e, HandleMain(env, assign, c, chunk, tlsUp).0, f)
  {
    var ready := FeedMain(c, chunk, tlsUp);
    DriveEffect(env, assign, ready);
    f := DrivenShows(env, c, e, ready, Drive(env, assign, ready).0);
  }

  lemma StepEffect(env: Env, c: Conn, e: Event) returns (f: Effect)
    requires c.phase != WaitingHardReset
    ensures Shows(env, c, e, Step(env, c, e), f)
    ensures e.Send? && Sends(c, e.ping) ==> f.Sealed?
    ensures e.Receive? ==> f.Opened?
    ensures !e.Send? ==> !f.Sealed?
    ensures !e.Receive? ==> !f.Opened?
  {
    match e
    case Control(keyId, chunk, tlsUp, assign, flushed) =>
      if IsRekeyControl(c, keyId) {
        f := RekeyEffect(env, c, chunk, tlsUp, flushed, e);
      } else {
        f := MainEffect(env, assign, c, chunk, tlsUp, e);
      }
    case SoftReset(keyId, r1, r2) =>
      f := if c.track.Some? || c.phase != Established then Idle else Started(keyId);
    case RekeyTimer(due, r1, r2) =>
      var activeKeyId := match ActiveSlot(c.keys) case Some(s) => s.keyId case None => 0;
      f := if c.phase != Established || c.track.Some? || !due then Idle else Started(NextKeyId(activeKeyId));
    case Send(ping, plaintext) =>
      f := if Sends(c, ping) then Sealed else Idle;
    case Receive(datagram) =>
      f := Opened;
    case Restart =>
      f := Idle;
  }

  // ---------------------------------------------------------------------------------------------
  // The invariant of every run
  // ---------------------------------------------------------------------------------------------

  predicate OtherSlotIs(k: Keyring, keyId: byte, gen: nat) {
    var other := k.slots[1 - k.active];
    other.Some? && other.value.keyId == keyId && other.value.gen == gen
  }

  /** Generations in use are older than the installation counter and differ from each other. */
  predicate GensValid(k: Keyring) {
    && (forall i: SlotIndex :: k.slots[i].Some? ==> k.slots[i].value.gen < k.gens)
    && (k.slots[0].Some? && k.slots[1].Some? ==> k.slots[0].value.gen != k.slots[1].value.gen)
  }

  /** An installed slot waits to be promoted. */
  predicate Pending(c: Conn) {
    c.track.Some? && c.track.value.keyMethodSent
  }

  predicate Valid(c: Conn) {
    && c.phase != WaitingHardReset
    && (HasKeys(c.phase) <==> ActiveSlot(c.keys).Some?)
    && (ActiveSlot(c.keys).None? ==> c.keys == EmptyKeyring)
    && GensValid(c.keys)
    && (c.track.Some? ==> c.phase == Established || c.phase == Closed)
    && (Pending(c) ==> c.keys.gens > 0 && OtherSlotIs(c.keys, c.track.value.keyId, c.keys.gens - 1))
  }

  /** Sealing and opening change counters and windows, never which keys are where. */
  predicate SameSlot(s: Option<KeySlot>, t: Option<KeySlot>) {
    && s.Some? == t.Some?
    && (s.Some? ==> s.value.keyId == t.value.keyId && s.value.gen == t.value.gen && s.value.cipher == t.value.cipher)
  }

  predicate SameSlots(k: Keyring, l: Keyring) {
    SameSlot(k.slots[0], l.slots[0]) && SameSlot(k.slots[1], l.slots[1]) && k.active == l.active && k.gens == l.gens
  }

  lemma SealKeepsSlots(a: Aead, k: Keyring, peerId: u32, plaintext: ByteString)
    ensures SameSlots(k, SealNext(a, k, peerId, plaintext).0)
  {}

  lemma OpenKeepsSlots(a: Aead, k: Keyring, datagram: ByteString)
    ensures SameSlots(k, OpenNext(a, k, datagram).0)
  {}

  lemma SameSlotsValid(c: Conn, k: Keyring)
    requires Valid(c) && SameSlots(c.keys, k) && ActiveSlot(c.keys).Some?
    ensures Valid(c.(keys := k))
  {}

  lemma OpenOnEmpty(a: Aead, datagram: ByteString)
    ensures OpenNext(a, EmptyKeyring, datagram).0 == EmptyKeyring
  {}

  lemma InstallValid(c: Conn, cipher: DataCipher)
    requires Valid(c) && c.track.Some?
    ensures var t := c.track.value;
            var k := Install(c.keys, t.keyId, cipher);
            GensValid(k) && OtherSlotIs(k, t.keyId, k.gens - 1) && ActiveSlot(k) == ActiveSlot(c.keys)
  {}

  lemma PromoteValid(k: Keyring, keyId: byte)
    requires GensValid(k) && ActiveSlot(k).Some?
    ensures GensValid(Promote(k, keyId).0) && ActiveSlot(Promote(k, keyId).0).Some?
  {}

  lemma RekeyedValid(env: Env, c: Conn, e: Event, c': Conn, installed: Option<DataCipher>, finished: bool)
    requires Valid(c) && Shows(env, c, e, c', Rekeyed(installed, finished))
    ensures Valid(c')
  {
    var k := AfterInstall(c.keys, c.track.value.keyId, installed);
    if installed.Some? {
      InstallValid(c, installed.value);
    }
    if finished {
      PromoteValid(k, c.track.value.keyId);
    }
  }

  lemma EffectValid(env: Env, c: Conn, e: Event, c': Conn, f: Effect)
    requires Valid(c) && Shows(env, c, e, c', f)
    ensures Valid(c') && Rank(c.phase) <= Rank(c'.phase)
  {
    match f
    case Idle =>
    case FirstKeys(cipher) =>
    case Started(keyId) =>
    case Rekeyed(installed, finished) => RekeyedValid(env, c, e, c', installed, finished);
    case Sealed =>
      SealKeepsSlots(env.aead, c.keys, env.peerId, e.plaintext);
      SameSlotsValid(c, c'.keys);
    case Opened =>
      OpenKeepsSlots(env.aead, c.keys, e.datagram);
      if ActiveSlot(c.keys).Some? {
        SameSlotsValid(c, c'.keys);
      } else {
        OpenOnEmpty(env.aead, e.datagram);
      }
  }

  lemma StepValid(env: Env, c: Conn, e: Event)
    requires Valid(c)
    ensures Valid(Step(env, c, e))
    ensures Rank(c.phase) <= Rank(Step(env, c, e).phase)
  {
    var f := StepEffect(env, c, e);
    EffectValid(env, c, e, Step(env, c, e), f);
  }

  /** Key-method-2 is the first message handled, every later one is text, and keys exist from then on. */
  predicate Exchanged(c: Conn) {
    && (HasKeys(c.phase) <==> c.handled != [])
    && forall i: nat | i < |c.handled| :: c.handled[i].KeyMethod? <==> i == 0
  }

  lemma TurnExchanged(env: Env, assign: Result<ByteString>, c: Conn)
    requires Exchanged(c)
    ensures Exchanged(Turn(env, assign, c).0)
  {}

  lemma {:induction false} DriveExchanged(env: Env, assign: Result<ByteString>, c: Conn)
    requires Exchanged(c)
    ensures Exchanged(Drive(env, assign, c).0)
    decreases |c.inbox|
  {
    var (c', v) := Turn(env, assign, c);
    TurnExchanged(env, assign, c);
    if v.None? {
      DriveExchanged(env, assign, c');
    }
  }

  lemma StepExchanged(env: Env, c: Conn, e: Event)
    requires Exchanged(c)
    ensures Exchanged(Step(env, c, e))
  {
    if e.Control? && !IsRekeyControl(c, e.keyId) {
      DriveExchanged(env, e.assign, FeedMain(c, e.chunk, e.tlsUp));
    }
  }

  lemma ExchangedOnce(c: Conn)
    requires Exchanged(c)
    ensures HasKeys(c.phase) <==> exists km :: KeyMethod(km) in c.handled
  {
    if c.handled != [] {
      assert KeyMethod(c.handled[0].km) in c.handled;
    }
  }

  /**
    Every reachable session: the phase only moves forward, there is an active key slot exactly once
    key-method-2 was processed, which it is once and before anything else, and a rekey track exists
    only in Established or Closed.
   */
  lemma {:induction false} RunValid(env: Env, events: seq<Event>)
    ensures Valid(After(env, events).conn) && Exchanged(After(env, events).conn)
    ensures ActiveSlot(After(env, events).conn.keys).Some?
        <==> exists km :: KeyMethod(km) in After(env, events).conn.handled
    ensures events != [] ==> Rank(After(env, events[..|events| - 1]).conn.phase) <= Rank(After(env, events).conn.phase)
  {
    if events != [] {
      var n := |events| - 1;
      RunValid(env, events[..n]);
      StepValid(env, After(env, events[..n]).conn, events[n]);
      StepExchanged(env, After(env, events[..n]).conn, events[n]);
    }
    ExchangedOnce(After(env, events).conn);
  }

  /** Whatever happens, the slot that is active before an event is still in place after it. */
  lemma ActiveSlotSurvives(env: Env, c: Conn, e: Event)
    requires Valid(c) && ActiveSlot(c.keys).Some?
    ensures SameSlot(c.keys.slots[c.keys.active], Step(env, c, e).keys.slots[c.keys.active])
  {
    var f := StepEffect(env, c, e);
    EffectKeepsActive(env, c, e, Step(env, c, e), f);
  }

  lemma EffectKeepsActive(env: Env, c: Conn, e: Event, c': Conn, f: Effect)
    requires Valid(c) && ActiveSlot(c.keys).Some? && Shows(env, c, e, c', f)
    ensures SameSlot(c.keys.slots[c.keys.active], c'.keys.slots[c.keys.active])
  {
    match f
    case Sealed => SealKeepsSlots(env.aead, c.keys, env.peerId, e.plaintext);
    case Opened => OpenKeepsSlots(env.aead, c.keys, e.datagram);
    case _ =>
  }

  // ---------------------------------------------------------------------------------------------
  // Nonces: no (generation, packet id) pair is used twice
  // ---------------------------------------------------------------------------------------------

  function Count(log: seq<Use>, gen: nat): nat {
    if log == [] then 0
    else Count(log[..|log| - 1], gen) + if log[|log| - 1].gen == gen then 1 else 0
  }

  lemma CountAppend(log: seq<Use>, u: Use, gen: nat)
    ensures Count(log + [u], gen) == Count(log, gen) + if u.gen == gen then 1 else 0
  {
    assert (log + [u])[..|log|] == log;
  }

  lemma {:induction false} CountUnused(log: seq<Use>, gen: nat)
    requires forall u | u in log :: u.gen != gen
    ensures Count(log, gen) == 0
  {
    if log != [] {
      assert forall u | u in log[..|log| - 1] :: u in log;
      assert log[|log| - 1] in log;
      CountUnused(log[..|log| - 1], gen);
    }
  }

  lemma {:induction false} CountMonotone(log: seq<Use>, gen: nat, i: nat, j: nat)
    requires i <= j <= |log|
    ensures Count(log[..i], gen) <= Count(log[..j], gen)
    ensures i < j && log[i].gen == gen ==> Count(log[..i], gen) < Count(log[..j], gen)
    decreases j
  {
    if i < j {
      assert log[..j][..j - 1] == log[..j - 1];
      CountMonotone(log, gen, i, j - 1);
    }
  }

  /** The log entry of a generation that has `k` of its entries before it. */
  lemma {:induction false} FindNth(log: seq<Use>, gen: nat, k: nat) returns (i: nat)
    requires k < Count(log, gen)
    ensures i < |log| && log[i].gen == gen && Count(log[..i], gen) == k
  {
    var n := |log| - 1;
    if k < Count(log[..n], gen) {
      i := FindNth(log[..n], gen, k);
      assert log[..n][..i] == log[..i];
    } else {
      i := n;
    }
  }

  /** The id of the `n`th use of a generation, counting from 0. */
  function NthId(n: nat): u32 {
    (1 + n) % 0x1_0000_0000
  }

  lemma NthIdNext(n: nat)
    ensures NthId(n + 1) == NextU32(NthId(n))
  {
    WrapAdd(1 + n, 1);
  }

  lemma NthIdDiffers(m: nat, n: nat)
    requires m < n < U32_COUNT
    ensures NthId(m) != NthId(n)
  {}

  predicate InOrder(log: seq<Use>) {
    forall i: nat | i < |log| :: log[i].id == NthId(Count(log[..i], log[i].gen))
  }

  predicate CounterMatches(slot: Option<KeySlot>, log: seq<Use>) {
    slot.Some? ==> slot.value.pidOut == NthId(Count(log, slot.value.gen))
  }

  predicate OldGens(k: Keyring, log: seq<Use>) {
    forall u | u in log :: u.gen < k.gens
  }

  predicate NonceInv(k: Keyring, log: seq<Use>) {
    && OldGens(k, log) && InOrder(log)
    && CounterMatches(k.slots[0], log) && CounterMatches(k.slots[1], log)
  }

  lemma NewSlotMatches(k: Keyring, keyId: byte, cipher: DataCipher, log: seq<Use>)
    requires OldGens(k, log)
    ensures CounterMatches(Some(NewSlot(k, keyId, cipher)), log)
  {
    CountUnused(log, k.gens);
  }

  lemma InOrderAppend(log: seq<Use>, gen: nat)
    requires InOrder(log)
    ensures InOrder(log + [Use(gen, NthId(Count(log, gen)))])
  {
    var log' := log + [Use(gen, NthId(Count(log, gen)))];
    forall i: nat | i < |log'|
      ensures log'[i].id == NthId(Count(log'[..i], log'[i].gen))
    {
      assert log'[..i] == if i < |log| then log[..i] else log;
    }
  }

  lemma SealEffect(a: Aead, k: Keyring, peerId: u32, plaintext: ByteString)
    requires ActiveSlot(k).Some?
    ensures var slot := ActiveSlot(k).value;
            SealNext(a, k, peerId, plaintext).0
              == k.(slots := k.slots[k.active := Some(slot.(pidOut := NextU32(slot.pidOut)))])
  {}

  lemma SealKeepsNonces(a: Aead, k: Keyring, peerId: u32, plaintext: ByteString, log: seq<Use>)
    requires GensValid(k) && NonceInv(k, log) && ActiveSlot(k).Some?
    ensures var slot := ActiveSlot(k).value;
            NonceInv(SealNext(a, k, peerId, plaintext).0, log + [Use(slot.gen, slot.pidOut)])
  {
    var slot := ActiveSlot(k).value;
    var u := Use(slot.gen, slot.pidOut);
    SealEffect(a, k, peerId, plaintext);
    CounterMoves(k, k.slots[k.active := Some(slot.(pidOut := NextU32(slot.pidOut)))], log, u);
    InOrderAppend(log, slot.gen);
  }

  /** The counter of the slot that sealed moves on; the other slot's count stays. */
  lemma CounterMoves(k: Keyring, slots: Slots, log: seq<Use>, u: Use)
    requires GensValid(k) && ActiveSlot(k).Some?
    requires CounterMatches(k.slots[0], log) && CounterMatches(k.slots[1], log)
    requires var slot := ActiveSlot(k).value;
             u.gen == slot.gen && slots == k.slots[k.active := Some(slot.(pidOut := NextU32(slot.pidOut)))]
    ensures CounterMatches(slots[0], log + [u]) && CounterMatches(slots[1], log + [u])
  {
    CountAppend(log, u, u.gen);
    NthIdNext(Count(log, u.gen));
    var other := k.slots[1 - k.active];
    if other.Some? {
      CountAppend(log, u, other.value.gen);
    }
  }

  lemma OpenKeepsNonces(a: Aead, k: Keyring, datagram: ByteString, log: seq<Use>)
    requires NonceInv(k, log)
    ensures NonceInv(OpenNext(a, k, datagram).0, log)
  {}

  lemma EffectKeepsNonces(env: Env, c: Conn, e: Event, c': Conn, f: Effect, log: seq<Use>)
    requires Valid(c) && Shows(env, c, e, c', f) && !f.Sealed? && NonceInv(c.keys, log)
    ensures NonceInv(c'.keys, log)
  {
    match f
    case FirstKeys(cipher) => NewSlotMatches(c.keys, 0, cipher, log);
    case Rekeyed(installed, finished) =>
      if installed.Some? {
        NewSlotMatches(c.keys, c.track.value.keyId, installed.value, log);
      }
    case Opened => OpenKeepsNonces(env.aead, c.keys, e.datagram, log);
    case _ =>
  }

  lemma {:induction false} RunNonces(env: Env, events: seq<Event>)
    ensures NonceInv(After(env, events).conn.keys, After(env, events).seals)
  {
    if events != [] {
      var n := |events| - 1;
      var r, e := After(env, events[..n]), events[n];
      RunNonces(env, events[..n]);
      RunValid(env, events[..n]);
      var f := StepEffect(env, r.conn, e);
      if f.Sealed? {
        SealKeepsNonces(env.aead, r.conn.keys, env.peerId, e.plaintext, r.seals);
      } else {
        assert SealedBy(r.conn, e) == [];
        EffectKeepsNonces(env, r.conn, e, Step(env, r.conn, e), f, r.seals);
        assert r.seals + [] == r.seals;
      }
    }
  }

  lemma OverfullRepeats(log: seq<Use>, gen: nat)
    requires InOrder(log) && Count(log, gen) > U32_COUNT
    ensures !Distinct(log)
  {
    var i := FindNth(log, gen, 0);
    var j := FindNth(log, gen, U32_COUNT);
    assert log[i].id == NthId(0) == NthId(U32_COUNT) == log[j].id;
    assert i != j;
  }

  lemma UsesDiffer(log: seq<Use>, i: nat, j: nat)
    requires InOrder(log) && i < j < |log|
    requires Count(log, log[i].gen) <= U32_COUNT
    ensures log[i] != log[j]
  {
    var gen := log[i].gen;
    if log[j].gen == gen {
      CountMonotone(log, gen, i, j);
      CountMonotone(log, gen, j, |log|);
      assert log[..|log|] == log;
      NthIdDiffers(Count(log[..i], gen), Count(log[..j], gen));
    }
  }

  lemma InOrderDistinct(log: seq<Use>)
    requires InOrder(log)
    ensures Distinct(log) <==> forall gen :: Count(log, gen) <= U32_COUNT
  {
    if gen :| Count(log, gen) > U32_COUNT {
      OverfullRepeats(log, gen);
    } else {
      forall i, j | 0 <= i < j < |log|
        ensures log[i] != log[j]
      {
        UsesDiffer(log, i, j);
      }
    }
  }

  /**
    Over every run, no pair of key generation and packet id is handed to the cipher twice if and
    only if no generation is asked to seal more than 2^32 packets.
   */
  lemma NonceUniqueness(env: Env, events: seq<Event>)
    ensures var log := After(env, events).seals;
            Distinct(log) <==> forall gen :: Count(log, gen) <= U32_COUNT
  {
    RunNonces(env, events);
    InOrderDistinct(After(env, events).seals);
  }

  /** A nonce as it is handed to the cipher: the key generation, the packet id and the implicit IV. */
  datatype NonceUse = NonceUse(gen: nat, id: u32, iv: ByteString)

  function NonceBytes(u: NonceUse): ByteString {
    Nonce(u.id, u.iv)
  }

  function NoncesBy(c: Conn, e: Event): seq<NonceUse> {
    if e.Send? && Sends(c, e.ping) then
      var slot := ActiveSlot(c.keys).value;
      [NonceUse(slot.gen, slot.pidOut, slot.cipher.encIv)]
    else []
  }

  /** The nonces built over a run, in order. */
  function NonceLog(env: Env, events: seq<Event>): seq<NonceUse> {
    if events == [] then []
    else
      var before := events[..|events| - 1];
      NonceLog(env, before) + NoncesBy(After(env, before).conn, events[|events| - 1])
  }

  /** The log is what the cipher is given: a packet sent is encrypted under the nonce logged for it. */
  lemma SentUnderLogged(env: Env, c: Conn, e: Event, w: ByteString)
    requires e.Send? && Sends(c, e.ping) && env.peerId < 0x100_0000
    requires SealNext(env.aead, c.keys, env.peerId, e.plaintext).1 == Ok(w)
    ensures |w| >= 24 && |NoncesBy(c, e)| == 1
    ensures w[24..] + w[8..24] == env.aead.encrypt(c.keys.slots[c.keys.active].value.cipher.encKey,
                                                   NonceBytes(NoncesBy(c, e)[0]), w[..8], e.plaintext)
  {
    var slot := ActiveSlot(c.keys).value;
    var n := SealedWire(env.aead, c.keys, env.peerId, e.plaintext, w);
    NonceIs(slot.pidOut, slot.cipher.encIv);
    NoncesDiffer(n, NonceBytes(NoncesBy(c, e)[0]), slot.pidOut, slot.pidOut, slot.cipher.encIv);
  }

  predicate IvMatches(slot: Option<KeySlot>, log: seq<NonceUse>) {
    slot.Some? ==> forall u | u in log && u.gen == slot.value.gen :: u.iv == slot.value.cipher.encIv
  }

  /** A generation has one IV, which its slot still holds, and the ids are those of the seal log. */
  ghost predicate IvInv(k: Keyring, log: seq<NonceUse>, seals: seq<Use>) {
    && |log| == |seals| && (forall i | 0 <= i < |log| :: seals[i] == Use(log[i].gen, log[i].id))
    && (forall u, v | u in log && v in log && u.gen == v.gen :: u.iv == v.iv)
    && (forall u | u in log :: u.gen < k.gens && |u.iv| == IMPLICIT_IV_SIZE)
    && IvMatches(k.slots[0], log) && IvMatches(k.slots[1], log)
  }

  lemma SealKeepsIvs(k: Keyring, k': Keyring, log: seq<NonceUse>, seals: seq<Use>)
    requires GensValid(k) && ActiveSlot(k).Some? && IvInv(k, log, seals) && SameSlots(k, k')
    ensures var slot := ActiveSlot(k).value;
            IvInv(k', log + [NonceUse(slot.gen, slot.pidOut, slot.cipher.encIv)], seals + [Use(slot.gen, slot.pidOut)])
  {
    var slot := ActiveSlot(k).value;
    var log' := log + [NonceUse(slot.gen, slot.pidOut, slot.cipher.encIv)];
    assert forall u :: u in log' <==> u in log || u == NonceUse(slot.gen, slot.pidOut, slot.cipher.encIv);
    assert IvMatches(k.slots[k.active], log);
  }

  lemma EffectKeepsIvs(env: Env, c: Conn, e: Event, c': Conn, f: Effect, log: seq<NonceUse>, seals: seq<Use>)
    requires Valid(c) && Shows(env, c, e, c', f) && !f.Sealed? && IvInv(c.keys, log, seals)
    ensures IvInv(c'.keys, log, seals)
  {
    match f
    case Opened => OpenKeepsSlots(env.aead, c.keys, e.datagram);
    case _ =>
  }

  lemma {:induction false} RunIvs(env: Env, events: seq<Event>)
    ensures IvInv(After(env, events).conn.keys, NonceLog(env, events), After(env, events).seals)
  {
    if events != [] {
      var n := |events| - 1;
      var r, e, log := After(env, events[..n]), events[n], NonceLog(env, events[..n]);
      RunIvs(env, events[..n]);
      RunValid(env, events[..n]);
      var f := StepEffect(env, r.conn, e);
      if f.Sealed? {
        SealKeepsSlots(env.aead, r.conn.keys, env.peerId, e.plaintext);
        SealKeepsIvs(r.conn.keys, Step(env, r.conn, e).keys, log, r.seals);
      } else {
        assert SealedBy(r.conn, e) == [] && NoncesBy(r.conn, e) == [];
        EffectKeepsIvs(env, r.conn, e, Step(env, r.conn, e), f, log, r.seals);
        assert r.seals + [] == r.seals && log + [] == log;
      }
    }
  }

  /** No nonce is used twice under one generation. */
  ghost predicate NoncesDistinct(log: seq<NonceUse>) {
    forall i, j | 0 <= i < j < |log| && log[i].gen == log[j].gen :: NonceBytes(log[i]) != NonceBytes(log[j])
  }

  lemma NoncesFollowIds(k: Keyring, log: seq<NonceUse>, seals: seq<Use>)
    requires IvInv(k, log, seals)
    ensures NoncesDistinct(log) <==> Distinct(seals)
  {
    forall i, j | 0 <= i < j < |log| && log[i].gen == log[j].gen
      ensures NonceBytes(log[i]) == NonceBytes(log[j]) <==> seals[i] == seals[j]
    {
      var u, v := log[i], log[j];
      assert u in log && v in log;
      NonceIs(u.id, u.iv);
      NonceIs(v.id, v.iv);
      NoncesDiffer(NonceBytes(u), NonceBytes(v), u.id, v.id, u.iv);
    }
    if NoncesDistinct(log) {
      forall i, j | 0 <= i < j < |seals|
        ensures seals[i] != seals[j]
      {
        if log[i].gen == log[j].gen {
          assert NonceBytes(log[i]) != NonceBytes(log[j]);
        }
      }
    }
  }

  /**
    The same for the 12 bytes handed to the cipher: over every run no two packets of one key generation
    are given the same nonce, if and only if no generation is asked to seal more than 2^32 packets.
   */
  lemma NonceBytesUnique(env: Env, events: seq<Event>)
    ensures NoncesDistinct(NonceLog(env, events)) <==> forall gen :: Count(After(env, events).seals, gen) <= U32_COUNT
  {
    RunIvs(env, events);
    NoncesFollowIds(After(env, events).conn.keys, NonceLog(env, events), After(env, events).seals);
    NonceUniqueness(env, events);
  }

  // ---------------------------------------------------------------------------------------------
  // Replays: no packet is accepted twice, across rekeys as well
  // ---------------------------------------------------------------------------------------------

  /** The ids of a generation in a log. */
  ghost function Ids(log: seq<Use>, gen: nat): set<u32> {
    set u | u in log && u.gen == gen :: u.id
  }

  ghost predicate WindowMatches(slot: Option<KeySlot>, log: seq<Use>) {
    slot.Some? ==> Represents(slot.value.replay, Ids(log, slot.value.gen))
  }

  ghost predicate ReplayInv(k: Keyring, log: seq<Use>) {
    OldGens(k, log) && Distinct(log) && WindowMatches(k.slots[0], log) && WindowMatches(k.slots[1], log)
  }

  lemma IdsAppend(log: seq<Use>, u: Use, gen: nat)
    ensures Ids(log + [u], gen) == Ids(log, gen) + if u.gen == gen then {u.id} else {}
  {
    assert forall v :: v in log + [u] <==> v in log || v == u;
  }

  lemma DistinctAppend(log: seq<Use>, u: Use)
    requires Distinct(log) && u.id !in Ids(log, u.gen)
    ensures Distinct(log + [u])
  {
    assert forall v | v in log :: v != u;
  }

  lemma NewWindowMatches(k: Keyring, keyId: byte, cipher: DataCipher, log: seq<Use>)
    requires OldGens(k, log)
    ensures WindowMatches(Some(NewSlot(k, keyId, cipher)), log)
  {
    assert Ids(log, k.gens) == {};
    FreshRepresents();
  }

  /** In every state of a run the window's verdict is the reference verdict over the whole history
      of the generation. */
  lemma OpenVerdict(a: Aead, k: Keyring, datagram: ByteString, log: seq<Use>)
    requires ReplayInv(k, log) && Authenticate(a, k, datagram).Some?
    ensures var (i, id, plaintext) := Authenticate(a, k, datagram).value;
            OpenNext(a, k, datagram).1
              == if Admits(Ids(log, k.slots[i].value.gen), id) then Ok(plaintext) else Err
  {
    var (i, id, plaintext) := Authenticate(a, k, datagram).value;
    var slot := k.slots[i].value;
    assert WindowMatches(k.slots[i], log);
    CheckRefines(slot.replay, Ids(log, slot.gen), id);
  }

  lemma OpenKeepsReplayInv(a: Aead, k: Keyring, datagram: ByteString, log: seq<Use>)
    requires GensValid(k) && ReplayInv(k, log) && Authenticate(a, k, datagram).Some?
    ensures var (i, id, _) := Authenticate(a, k, datagram).value;
            ReplayInv(OpenNext(a, k, datagram).0,
                      if OpenNext(a, k, datagram).1.Ok? then log + [Use(k.slots[i].value.gen, id)] else log)
  {
    var (i, id, plaintext) := Authenticate(a, k, datagram).value;
    OpenEffect(a, k, datagram);
    WindowMoves(k, i, id, log);
  }

  /** A slot whose window has taken a verdict on `id`. */
  lemma WindowTakes(slot: KeySlot, id: u32, log: seq<Use>)
    requires WindowMatches(Some(slot), log)
    ensures Check(slot.replay, id).1 ==> id !in Ids(log, slot.gen)
    ensures WindowMatches(Some(slot.(replay := Check(slot.replay, id).0)),
                          if Check(slot.replay, id).1 then log + [Use(slot.gen, id)] else log)
  {
    CheckRefines(slot.replay, Ids(log, slot.gen), id);
    IdsAppend(log, Use(slot.gen, id), slot.gen);
  }

  /** A slot of another generation is not concerned. */
  lemma WindowStays(slot: Option<KeySlot>, u: Use, log: seq<Use>)
    requires WindowMatches(slot, log) && (slot.Some? ==> slot.value.gen != u.gen)
    ensures WindowMatches(slot, log + [u])
  {
    if slot.Some? {
      IdsAppend(log, u, slot.value.gen);
      assert Ids(log + [u], slot.value.gen) == Ids(log, slot.value.gen);
    }
  }

  lemma WindowMoves(k: Keyring, i: SlotIndex, id: u32, log: seq<Use>)
    requires GensValid(k) && ReplayInv(k, log) && k.slots[i].Some?
    ensures var slot := k.slots[i].value;
            var (window, ok) := Check(slot.replay, id);
            ReplayInv(k.(slots := k.slots[i := Some(slot.(replay := window))]),
                      if ok then log + [Use(slot.gen, id)] else log)
  {
    var slot := k.slots[i].value;
    var u := Use(slot.gen, id);
    WindowTakes(slot, id, log);
    if Check(slot.replay, id).1 {
      DistinctAppend(log, u);
      WindowStays(k.slots[1 - i], u, log);
    }
  }

  lemma OpenEffect(a: Aead, k: Keyring, datagram: ByteString)
    requires Authenticate(a, k, datagram).Some?
    ensures var (i, id, plaintext) := Authenticate(a, k, datagram).value;
            var slot := k.slots[i].value;
            && OpenNext(a, k, datagram).0 == k.(slots := k.slots[i := Some(slot.(replay := Check(slot.replay, id).0))])
            && OpenNext(a, k, datagram).1 == if Check(slot.replay, id).1 then Ok(plaintext) else Err
  {}

  lemma EffectKeepsReplayInv(env: Env, c: Conn, e: Event, c': Conn, f: Effect, log: seq<Use>)
    requires Valid(c) && Shows(env, c, e, c', f) && !f.Opened? && ReplayInv(c.keys, log)
    ensures ReplayInv(c'.keys, log)
  {
    match f
    case FirstKeys(cipher) => NewWindowMatches(c.keys, 0, cipher, log);
    case Rekeyed(installed, finished) =>
      if installed.Some? {
        NewWindowMatches(c.keys, c.track.value.keyId, installed.value, log);
      }
    case Sealed => SealEffect(env.aead, c.keys, env.peerId, e.plaintext);
    case _ =>
  }

  lemma {:induction false} RunReplays(env: Env, events: seq<Event>)
    ensures ReplayInv(After(env, events).conn.keys, After(env, events).opens)
  {
    if events != [] {
      var n := |events| - 1;
      var r, e := After(env, events[..n]), events[n];
      RunReplays(env, events[..n]);
      RunValid(env, events[..n]);
      var f := StepEffect(env, r.conn, e);
      if f.Opened? {
        if Authenticate(env.aead, r.conn.keys, e.datagram).Some? {
          OpenKeepsReplayInv(env.aead, r.conn.keys, e.datagram, r.opens);
        }
      } else {
        assert OpenedBy(env, r.conn, e) == [];
        EffectKeepsReplayInv(env, r.conn, e, Step(env, r.conn, e), f, r.opens);
      }
      assert r.opens + [] == r.opens;
    }
  }

  /** Over every run, no packet id of any key generation is accepted twice, whatever datagrams
      arrive and however often keys are rolled. */
  lemma NoReplayAccepted(env: Env, events: seq<Event>)
    ensures Distinct(After(env, events).opens)
  {
    RunReplays(env, events);
  }

  /** And nothing is refused without reason: an authentic datagram is accepted exactly when its id
      is nonzero, was not accepted before in its generation, and is less than 64 behind. */
  lemma AcceptanceExact(env: Env, events: seq<Event>, datagram: ByteString)
    ensures var k := After(env, events).conn.keys;
            OpenNext(env.aead, k, datagram).1
              == match Authenticate(env.aead, k, datagram)
                 case None => Err
                 case Some((i, id, plaintext)) =>
                   if Admits(Ids(After(env, events).opens, k.slots[i].value.gen), id) then Ok(plaintext) else Err
  {
    RunReplays(env, events);
    if Authenticate(env.aead, After(env, events).conn.keys, datagram).Some? {
      OpenVerdict(env.aead, After(env, events).conn.keys, datagram, After(env, events).opens);
    }
  }

  // ---------------------------------------------------------------------------------------------
  // Rekeys
  // ---------------------------------------------------------------------------------------------

  lemma MainKeepsTrack(env: Env, assign: Result<ByteString>, c: Conn, chunk: ByteString, tlsUp: bool)
    requires c.phase != WaitingHardReset
    ensures HandleMain(env, assign, c, chunk, tlsUp).0.track == c.track
  {
    DriveEffect(env, assign, FeedMain(c, chunk, tlsUp));
  }

  /** A rekey starts exactly on a soft reset or when the timer is due, in Established and with none under
      way; under the key id the client names, or under the next of the eight. */
  lemma RekeyStartsExactly(env: Env, c: Conn, e: Event)
    requires c.phase != WaitingHardReset && c.track.None?
    ensures var t := Step(env, c, e).track;
            && (t.Some? <==> c.phase == Established && (e.SoftReset? || (e.RekeyTimer? && e.due)))
            && (t.Some? && e.SoftReset? ==>
                  t.value == RekeyTrack(e.resetKeyId, RekeyHandshaking, [], [], e.resetRandom1, e.resetRandom2, false))
            && (t.Some? && e.RekeyTimer? ==>
                  var keyId := match c.keys.slots[c.keys.active] case Some(s) => (s.keyId + 1) % 8 case None => 1;
                  t.value == RekeyTrack(keyId, RekeyHandshaking, [], [], e.timerRandom1, e.timerRandom2, false))
  {
    if e.Control? {
      MainKeepsTrack(env, e.assign, c, e.chunk, e.tlsUp);
    } else if e.RekeyTimer? {
      NextKeyIdIs(match ActiveSlot(c.keys) case Some(s) => s.keyId case None => 0);
    }
  }

  /** A rekey is over exactly when a control packet for it arrives, all TLS output could be sent, and
      key-method-2 has been answered, now or before; a malformed one stops it. */
  lemma RekeyFinishesExactly(env: Env, c: Conn, e: Event)
    requires c.phase != WaitingHardReset && c.track.Some?
    ensures Step(env, c, e).track.None? <==>
              && e.Control? && e.keyId == c.track.value.keyId && e.flushed
              && var t := c.track.value;
                 var ready := t.phase == RekeyKeyExchange || e.tlsUp;
                 var r := TryParse(t.inbox + e.chunk);
                 if ready && r.Malformed? then false else t.keyMethodSent || (ready && r.Ready?)
  {
    if e.Control? && !IsRekeyControl(c, e.keyId) {
      MainKeepsTrack(env, e.assign, c, e.chunk, e.tlsUp);
    } else if e.Control? {
      FinishesWhen(env, c, e.chunk, e.tlsUp, e.flushed);
    }
  }

  lemma FinishesWhen(env: Env, c: Conn, chunk: ByteString, tlsUp: bool, flushed: bool)
    requires c.track.Some?
    ensures HandleRekey(env, c, chunk, tlsUp, flushed).track.None? <==>
              && flushed
              && var t := c.track.value;
                 var ready := t.phase == RekeyKeyExchange || tlsUp;
                 var r := TryParse(t.inbox + chunk);
                 if ready && r.Malformed? then false else t.keyMethodSent || (ready && r.Ready?)
  {
    var fed := FedRekey(c, chunk, tlsUp);
    var driven := DriveRekey(env, fed).0;
    assert fed.track.value.inbox == c.track.value.inbox + chunk;
    assert driven.track.Some?;
  }

  /** A send uses the active slot's counter and nothing else; pings only in Established. */
  lemma SendsExactly(env: Env, c: Conn, ping: bool, plaintext: ByteString)
    ensures var c' := Step(env, c, Send(ping, plaintext));
            var slot := c.keys.slots[c.keys.active];
            if slot.Some? && (!ping || c.phase == Established) then
              c' == c.(keys := c.keys.(slots := c.keys.slots[c.keys.active :=
                         Some(slot.value.(pidOut := (slot.value.pidOut + 1) % 0x1_0000_0000))]))
            else c' == c
  {}

  /** A soft reset names one of the eight key ids the wire can carry (the parser yields no other), and
      when it starts a rekey it names another than the one in use. */
  predicate Allowed(c: Conn, e: Event) {
    e.SoftReset? ==>
      && e.resetKeyId < KEY_IDS
      && (c.phase == Established && c.track.None? && ActiveSlot(c.keys).Some? ==>
            e.resetKeyId != ActiveSlot(c.keys).value.keyId)
  }

  ghost predicate Disciplined(env: Env, events: seq<Event>) {
    forall n: nat | n < |events| :: Allowed(After(env, events[..n]).conn, events[n])
  }

  /** The two slots can be told apart on the wire, and so can the one being negotiated. */
  predicate Separate(c: Conn) {
    && (c.keys.slots[0].Some? && c.keys.slots[1].Some? ==> c.keys.slots[0].value.keyId != c.keys.slots[1].value.keyId)
    && (c.track.Some? && ActiveSlot(c.keys).Some? ==> c.track.value.keyId != ActiveSlot(c.keys).value.keyId)
  }

  /** The active slot is the last generation promoted; unless a newer one already waits in the other
      slot, that one still holds the generation before it. */
  predicate Lineage(c: Conn, promotions: seq<nat>) {
    var n := |promotions|;
    var other := c.keys.slots[1 - c.keys.active];
    && (n == 0 <==> ActiveSlot(c.keys).None?)
    && (n > 0 ==> ActiveSlot(c.keys).value.gen == promotions[n - 1])
    && (n == 1 && !Pending(c) ==> other.None?)
    && (n > 1 && !Pending(c) ==> other.Some? && other.value.gen == promotions[n - 2])
  }

  const KEY_IDS: nat := 8

  /** Every key id in use fits the three bits it has on the wire. */
  predicate Narrow(c: Conn) {
    && (forall i: SlotIndex | c.keys.slots[i].Some? :: c.keys.slots[i].value.keyId < KEY_IDS)
    && (c.track.Some? ==> c.track.value.keyId < KEY_IDS)
  }

  lemma EffectKeepsNarrow(env: Env, c: Conn, e: Event, c': Conn, f: Effect)
    requires Valid(c) && Shows(env, c, e, c', f) && Allowed(c, e) && Narrow(c)
    ensures Narrow(c')
  {
    match f
    case Sealed => SealKeepsSlots(env.aead, c.keys, env.peerId, e.plaintext);
    case Opened => OpenKeepsSlots(env.aead, c.keys, e.datagram);
    case _ =>
  }

  lemma {:induction false} RunNarrow(env: Env, events: seq<Event>)
    requires Disciplined(env, events)
    ensures Narrow(After(env, events).conn)
  {
    if events != [] {
      var n := |events| - 1;
      var r, e := After(env, events[..n]), events[n];
      DisciplinedPrefix(env, events);
      RunNarrow(env, events[..n]);
      RunValid(env, events[..n]);
      var f := StepEffect(env, r.conn, e);
      EffectKeepsNarrow(env, r.conn, e, Step(env, r.conn, e), f);
    }
  }

  lemma SameSlotsLineage(c: Conn, k: Keyring, promotions: seq<nat>)
    requires SameSlots(c.keys, k) && Separate(c) && Lineage(c, promotions)
    ensures Separate(c.(keys := k)) && Lineage(c.(keys := k), promotions)
  {}

  /** A finished rekey switches to the slot that was installed last and keeps the old one. */
  lemma FinishPromotesInstalled(c: Conn, k: Keyring)
    requires c.track.Some? && ActiveSlot(k).Some? && c.track.value.keyId != ActiveSlot(k).value.keyId
    requires k.gens > 0 && OtherSlotIs(k, c.track.value.keyId, k.gens - 1)
    ensures var k' := Promote(k, c.track.value.keyId).0;
            && k'.active == 1 - k.active && k'.slots == k.slots
            && ActiveSlot(k').value.gen == k.gens - 1
  {}

  /** `c'` is `c` after a rekey: the newest generation, under the track's key id, is active, and the one
      that was active is in the other slot. */
  predicate SwitchedTo(c: Conn, c': Conn) {
    && c.track.Some? && c'.track.None? && ActiveSlot(c.keys).Some? && ActiveSlot(c'.keys).Some? && c'.keys.gens > 0
    && ActiveSlot(c'.keys).value.keyId == c.track.value.keyId && ActiveSlot(c'.keys).value.gen == c'.keys.gens - 1
    && c'.keys.slots[1 - c'.keys.active] == ActiveSlot(c.keys) && ActiveSlot(c.keys).value.gen < c'.keys.gens - 1
  }

  lemma FinishSwitchesTo(env: Env, c: Conn, e: Event, c': Conn, installed: Option<DataCipher>)
    requires Valid(c) && Separate(c) && Shows(env, c, e, c', Rekeyed(installed, true))
    ensures SwitchedTo(c, c')
  {
    var k := AfterInstall(c.keys, c.track.value.keyId, installed);
    if installed.Some? {
      InstallValid(c, installed.value);
    }
    assert ActiveSlot(k) == ActiveSlot(c.keys) && GensValid(k);
    FinishPromotesInstalled(c, k);
  }

  lemma SwitchedLineage(c: Conn, c': Conn, promotions: seq<nat>)
    requires SwitchedTo(c, c') && Separate(c) && Lineage(c, promotions)
    ensures Separate(c') && Lineage(c', promotions + PromotedBy(c, c'))
  {
    assert PromotedBy(c, c') == [c'.keys.gens - 1];
  }

  /** A rekey under way may put a new key into the slot that is not active. */
  lemma WaitingLineage(env: Env, c: Conn, e: Event, c': Conn, installed: Option<DataCipher>, promotions: seq<nat>)
    requires Valid(c) && Shows(env, c, e, c', Rekeyed(installed, false))
    requires Separate(c) && Lineage(c, promotions)
    ensures Separate(c') && Lineage(c', promotions + PromotedBy(c, c'))
  {
    if installed.Some? {
      InstallValid(c, installed.value);
    }
    assert PromotedBy(c, c') == [] && promotions + [] == promotions;
  }

  lemma EffectKeepsLineage(env: Env, c: Conn, e: Event, c': Conn, f: Effect, promotions: seq<nat>)
    requires Valid(c) && Shows(env, c, e, c', f) && Allowed(c, e)
    requires Separate(c) && Lineage(c, promotions)
    ensures Separate(c') && Lineage(c', promotions + PromotedBy(c, c'))
  {
    match f
    case Idle =>
      assert PromotedBy(c, c') == [] && promotions + [] == promotions;
    case FirstKeys(cipher) =>
    case Started(keyId) =>
      assert PromotedBy(c, c') == [] && promotions + [] == promotions;
    case Rekeyed(installed, finished) =>
      if finished {
        FinishSwitchesTo(env, c, e, c', installed);
        SwitchedLineage(c, c', promotions);
      } else {
        WaitingLineage(env, c, e, c', installed, promotions);
      }
    case Sealed =>
      SealKeepsSlots(env.aead, c.keys, env.peerId, e.plaintext);
      SameSlotsLineage(c, c'.keys, promotions);
      assert PromotedBy(c, c') == [] && promotions + [] == promotions;
    case Opened =>
      OpenKeepsSlots(env.aead, c.keys, e.datagram);
      SameSlotsLineage(c, c'.keys, promotions);
      assert PromotedBy(c, c') == [] && promotions + [] == promotions;
  }

  lemma {:induction false} RunLineage(env: Env, events: seq<Event>)
    requires Disciplined(env, events)
    ensures Separate(After(env, events).conn)
    ensures Lineage(After(env, events).conn, After(env, events).promotions)
  {
    if events != [] {
      var n := |events| - 1;
      var r, e := After(env, events[..n]), events[n];
      DisciplinedPrefix(env, events);
      RunLineage(env, events[..n]);
      RunValid(env, events[..n]);
      var f := StepEffect(env, r.conn, e);
      EffectKeepsLineage(env, r.conn, e, Step(env, r.conn, e), f, r.promotions);
    }
  }

  /** Each slot is found by its own key id; the active slot is the latest generation promoted; and
      unless a newer key waits in the other slot, that one is the generation promoted before it. */
  ghost predicate KeysSafe(r: Run) {
    var k := r.conn.keys;
    var n := |r.promotions|;
    && (forall i: SlotIndex | k.slots[i].Some? :: Position(k, k.slots[i].value.keyId) == Some(i))
    && (n > 0 ==> ActiveSlot(k).Some? && ActiveSlot(k).value.gen == r.promotions[n - 1])
    && (n > 1 && !Pending(r.conn) ==>
          k.slots[1 - k.active].Some? && k.slots[1 - k.active].value.gen == r.promotions[n - 2])
  }

  lemma LineageIsSafe(r: Run)
    requires Separate(r.conn) && Lineage(r.conn, r.promotions)
    ensures KeysSafe(r)
  {}

  /** Rekey safety over every run in which clients keep to the key-id discipline. */
  lemma RekeySafety(env: Env, events: seq<Event>)
    requires Disciplined(env, events)
    ensures KeysSafe(After(env, events))
  {
    RunLineage(env, events);
    LineageIsSafe(After(env, events));
  }

  /** A packet sealed on the other side of a slot authenticates on that slot. */
  lemma MirroredAuthenticates(a: Aead, k: Keyring, i: SlotIndex, s: KeySlot, peerId: u32, pid: u32,
                              plaintext: ByteString, wire: ByteString)
    requires k.slots[i].Some? && Position(k, k.slots[i].value.keyId) == Some(i) && k.slots[i].value.keyId < KEY_IDS
    requires s.keyId == k.slots[i].value.keyId && s.cipher == Mirror(k.slots[i].value.cipher)
    requires peerId < 0x100_0000 && DataPlane.Wire(a, s, peerId, pid, plaintext) == Ok(wire)
    ensures Authenticate(a, k, wire) == Some((i, pid, plaintext))
  {
    var sender := Keyring([Some(s), None], 0, 1);
    assert DataPlane.Mirrored(sender, k, i);
    DataPlane.WireAuthenticates(a, sender, k, i, peerId, pid, plaintext, wire);
  }

  /** The verdict on a packet of generation `gen`, in a session with history. */
  ghost predicate DeliveredExactly(a: Aead, r: Run, gen: nat, pid: u32, plaintext: ByteString, wire: ByteString) {
    OpenNext(a, r.conn.keys, wire).1 == if Admits(Ids(r.opens, gen), pid) then Ok(plaintext) else Err
  }

  /** `s` is the other side of the key slot `t`. */
  predicate Opposite(s: KeySlot, t: Option<KeySlot>) {
    t.Some? && s.keyId == t.value.keyId && s.cipher == Mirror(t.value.cipher)
  }

  /** What a disciplined run keeps, as far as received packets are concerned. */
  ghost predicate SafeRun(r: Run) {
    KeysSafe(r) && Narrow(r.conn) && ReplayInv(r.conn.keys, r.opens)
  }

  lemma RunIsSafe(env: Env, events: seq<Event>)
    requires Disciplined(env, events)
    ensures SafeRun(After(env, events))
  {
    RekeySafety(env, events);
    RunNarrow(env, events);
    RunReplays(env, events);
  }

  lemma SlotOpens(a: Aead, r: Run, i: SlotIndex, s: KeySlot, peerId: u32, pid: u32, plaintext: ByteString,
                  wire: ByteString)
    requires SafeRun(r) && Opposite(s, r.conn.keys.slots[i])
    requires peerId < 0x100_0000 && DataPlane.Wire(a, s, peerId, pid, plaintext) == Ok(wire)
    ensures DeliveredExactly(a, r, r.conn.keys.slots[i].value.gen, pid, plaintext, wire)
  {
    MirroredAuthenticates(a, r.conn.keys, i, s, peerId, pid, plaintext, wire);
    OpenVerdict(a, r.conn.keys, wire, r.opens);
  }

  /**
    On the wire: in every disciplined run, a packet that the client seals under any key the session
    still holds finds that key, and is delivered exactly if the window of its generation admits its id.
   */
  lemma HeldKeyOpens(env: Env, events: seq<Event>, r: Run, i: SlotIndex, s: KeySlot,
                     pid: u32, plaintext: ByteString, wire: ByteString)
    requires Disciplined(env, events) && r == After(env, events) && Opposite(s, r.conn.keys.slots[i])
    requires env.peerId < 0x100_0000 && DataPlane.Wire(env.aead, s, env.peerId, pid, plaintext) == Ok(wire)
    ensures DeliveredExactly(env.aead, r, r.conn.keys.slots[i].value.gen, pid, plaintext, wire)
  {
    RunIsSafe(env, events);
    SlotOpens(env.aead, r, i, s, env.peerId, pid, plaintext, wire);
  }

  /** The slot that is not active, and the generation promoted before the last. */
  function OtherSlot(r: Run): Option<KeySlot> {
    r.conn.keys.slots[1 - r.conn.keys.active]
  }

  lemma PreviousIsOther(r: Run)
    requires KeysSafe(r) && |r.promotions| > 1 && !Pending(r.conn)
    ensures OtherSlot(r).Some? && OtherSlot(r).value.gen == r.promotions[|r.promotions| - 2]
  {}

  lemma PreviousIsHeld(env: Env, events: seq<Event>, r: Run)
    requires Disciplined(env, events) && r == After(env, events) && |r.promotions| > 1 && !Pending(r.conn)
    ensures OtherSlot(r).Some? && OtherSlot(r).value.gen == r.promotions[|r.promotions| - 2]
  {
    RekeySafety(env, events);
    PreviousIsOther(r);
  }

  lemma PreviousOpens(a: Aead, r: Run, s: KeySlot, peerId: u32, pid: u32, plaintext: ByteString, wire: ByteString)
    requires SafeRun(r) && |r.promotions| > 1 && !Pending(r.conn) && Opposite(s, OtherSlot(r))
    requires peerId < 0x100_0000 && DataPlane.Wire(a, s, peerId, pid, plaintext) == Ok(wire)
    ensures DeliveredExactly(a, r, r.promotions[|r.promotions| - 2], pid, plaintext, wire)
  {
    SlotOpens(a, r, 1 - r.conn.keys.active, s, peerId, pid, plaintext, wire);
  }

  /** So packets of the previous generation, which `PreviousIsHeld` finds in the other slot, are still
      received after a rekey, until the next key is installed. */
  lemma PreviousKeyOpens(env: Env, events: seq<Event>, r: Run, s: KeySlot,
                         pid: u32, plaintext: ByteString, wire: ByteString)
    requires Disciplined(env, events) && r == After(env, events) && |r.promotions| > 1 && !Pending(r.conn)
    requires Opposite(s, OtherSlot(r))
    requires env.peerId < 0x100_0000 && DataPlane.Wire(env.aead, s, env.peerId, pid, plaintext) == Ok(wire)
    ensures DeliveredExactly(env.aead, r, r.promotions[|r.promotions| - 2], pid, plaintext, wire)
  {
    RunIsSafe(env, events);
    PreviousOpens(env.aead, r, s, env.peerId, pid, plaintext, wire);
  }

  /** And whatever event comes next, the end of a rekey included, packets already in flight under the
      key that is active now are received after it. */
  lemma InFlightSurvives(env: Env, events: seq<Event>, e: Event, r: Run, r': Run, s: KeySlot,
                         pid: u32, plaintext: ByteString, wire: ByteString)
    requires Disciplined(env, events + [e]) && r == After(env, events) && r' == After(env, events + [e])
    requires Opposite(s, ActiveSlot(r.conn.keys))
    requires env.peerId < 0x100_0000 && DataPlane.Wire(env.aead, s, env.peerId, pid, plaintext) == Ok(wire)
    ensures DeliveredExactly(env.aead, r', ActiveSlot(r.conn.keys).value.gen, pid, plaintext, wire)
  {
    ActiveSlotStays(env, events, e, r, r');
    RunIsSafe(env, events + [e]);
    SlotOpens(env.aead, r', r.conn.keys.active, s, env.peerId, pid, plaintext, wire);
  }

  lemma ActiveSlotStays(env: Env, events: seq<Event>, e: Event, r: Run, r': Run)
    requires r == After(env, events) && r' == After(env, events + [e]) && ActiveSlot(r.conn.keys).Some?
    ensures SameSlot(ActiveSlot(r.conn.keys), r'.conn.keys.slots[r.conn.keys.active])
  {
    RunValid(env, events);
    AfterNext(env, events, e);
    ActiveSlotSurvives(env, r.conn, e);
  }

  ghost predicate Increasing(p: seq<nat>) {
    forall i, j | 0 <= i < j < |p| :: p[i] < p[j]
  }

  lemma IncreasingAppend(p: seq<nat>, q: seq<nat>)
    requires Increasing(p) && |q| <= 1 && (p != [] && q != [] ==> p[|p| - 1] < q[0])
    ensures Increasing(p + q)
  {}

  /** If an event took `c` to `c'` and finished a rekey, the newest installed generation is active and
      the one that was active is in the other slot. */
  predicate FinishedSoundly(c: Conn, c': Conn) {
    c.track.Some? && c'.track.None? ==>
      && ActiveSlot(c'.keys).Some? && ActiveSlot(c'.keys).value.gen == c'.keys.gens - 1
      && SameSlot(c'.keys.slots[1 - c'.keys.active], ActiveSlot(c.keys))
  }

  lemma FinishEffect(env: Env, c: Conn, e: Event, c': Conn, f: Effect)
    requires Valid(c) && Separate(c) && Shows(env, c, e, c', f)
    ensures FinishedSoundly(c, c')
  {
    if f.Rekeyed? && f.finished {
      FinishSwitchesTo(env, c, e, c', f.installed);
    }
  }

  lemma FinishedRekeyPromotesNewest(env: Env, events: seq<Event>, e: Event)
    requires Disciplined(env, events)
    ensures FinishedSoundly(After(env, events).conn, Step(env, After(env, events).conn, e))
  {
    var c := After(env, events).conn;
    RunLineage(env, events);
    RunValid(env, events);
    var f := StepEffect(env, c, e);
    FinishEffect(env, c, e, Step(env, c, e), f);
  }

  /** Generations are promoted in the order in which they were installed. */
  lemma {:induction false} PromotionsIncrease(env: Env, events: seq<Event>)
    requires Disciplined(env, events)
    ensures Increasing(After(env, events).promotions)
  {
    if events != [] {
      var n := |events| - 1;
      var r, e := After(env, events[..n]), events[n];
      DisciplinedPrefix(env, events);
      PromotionsIncrease(env, events[..n]);
      RunLineage(env, events[..n]);
      RunValid(env, events[..n]);
      var f := StepEffect(env, r.conn, e);
      NextPromotion(env, r.conn, e, Step(env, r.conn, e), f);
      IncreasingAppend(r.promotions, PromotedBy(r.conn, Step(env, r.conn, e)));
    }
  }

  lemma DisciplinedPrefix(env: Env, events: seq<Event>)
    requires Disciplined(env, events) && events != []
    ensures var n := |events| - 1;
            Disciplined(env, events[..n]) && Allowed(After(env, events[..n]).conn, events[n])
  {
    var n := |events| - 1;
    assert forall m: nat | m < n :: events[..n][..m] == events[..m];
  }

  lemma NextPromotion(env: Env, c: Conn, e: Event, c': Conn, f: Effect)
    requires Valid(c) && Shows(env, c, e, c', f) && Separate(c)
    ensures |PromotedBy(c, c')| <= 1
    ensures ActiveSlot(c.keys).Some? && PromotedBy(c, c') != [] ==> ActiveSlot(c.keys).value.gen < PromotedBy(c, c')[0]
  {
    if f.Rekeyed? && f.finished {
      FinishSwitchesTo(env, c, e, c', f.installed);
    }
  }

  // ---------------------------------------------------------------------------------------------
  // Runs in which the code falls short
  // ---------------------------------------------------------------------------------------------

  /** The control packet that carries a whole handshake. */
  function Greeting(km: ClientKeyMethod2, push: ByteString): Event {
    Control(0, ClientLayout(km) + (PUSH_REQUEST + [0]), true, Ok(push), true)
  }

  lemma AfterOne(env: Env, e: Event)
    ensures After(env, [e]).conn == Step(env, Start, e)
  {
    assert [] + [e] == [e];
    AfterNext(env, [], e);
  }

  lemma AfterTwo(env: Env, e1: Event, e2: Event)
    ensures After(env, [e1, e2]).conn == Step(env, Step(env, Start, e1), e2)
  {
    assert [e1] + [e2] == [e1, e2];
    AfterNext(env, [e1], e2);
    AfterOne(env, e1);
  }

  lemma AfterThree(env: Env, e1: Event, e2: Event, e3: Event)
    ensures After(env, [e1, e2, e3]).conn == Step(env, Step(env, Step(env, Start, e1), e2), e3)
  {
    assert [e1, e2] + [e3] == [e1, e2, e3];
    AfterNext(env, [e1, e2], e3);
    AfterTwo(env, e1, e2);
  }

  lemma GreetingEstablishes(env: Env, km: ClientKeyMethod2, push: ByteString)
    requires Fields(km) && Fit(Strings(km))
    ensures Step(env, Start, Greeting(km, push))
         == Greeted(env, km, Established, [], Reply(env, env.random1, env.random2) + push, [Text(PUSH_REQUEST)])
  {
    var chunk := ClientLayout(km) + (PUSH_REQUEST + [0]);
    assert Concat([chunk]) == chunk;
    HandshakeEstablishes(env, push, km, [chunk]);
    assert FeedMain(Start, chunk, true) == WithInput(Start.(phase := KeyExchange), chunk);
  }

  /** What a finished rekey under the key id in use leaves: one more key, and the old one active. */
  predicate OldKeyStays(c: Conn, c': Conn) {
    c'.track.None? && c'.keys.gens == c.keys.gens + 1 && ActiveSlot(c'.keys) == ActiveSlot(c.keys)
  }

  lemma ReusedKeyIdPromotes(c: Conn, driven: Conn, cipher: DataCipher)
    requires c.keys.active == 0 && Holds(c.keys.slots[0], 0)
    requires driven.track.Some? && driven.track.value.keyMethodSent && driven.track.value.keyId == 0
    requires driven.keys == Install(c.keys, 0, cipher)
    ensures OldKeyStays(c, FinishRekey(driven))
  {}

  lemma ReusedKeyIdFinishes(env: Env, c: Conn, chunk: ByteString)
    requires c.track.Some? && c.track.value.keyId == 0 && TryParse(c.track.value.inbox + chunk).Ready?
    requires c.keys.active == 0 && Holds(c.keys.slots[0], 0)
    ensures OldKeyStays(c, HandleRekey(env, c, chunk, true, true))
  {
    var t := c.track.value;
    var fed := FedRekey(c, chunk, true);
    assert fed.track.value.phase == RekeyKeyExchange && fed.track.value.inbox == t.inbox + chunk;
    var driven := DriveRekey(env, fed).0;
    assert HandleRekey(env, c, chunk, true, true) == FinishRekey(driven);
    ReusedKeyIdPromotes(c, driven, DeriveCipher(env, TryParse(t.inbox + chunk).value, t.random1, t.random2));
  }

  lemma ReusedKeyIdSteps(env: Env, c: Conn, e2: Event, e3: Event)
    requires c.phase == Established && c.track.None? && c.keys.active == 0 && Holds(c.keys.slots[0], 0)
    requires e2.SoftReset? && e2.resetKeyId == 0
    requires e3.Control? && e3.keyId == 0 && TryParse(e3.chunk).Ready? && e3.tlsUp && e3.flushed
    ensures OldKeyStays(c, Step(env, Step(env, c, e2), e3))
  {
    var c2 := Step(env, c, e2);
    assert c2 == StartRekey(c, 0, e2.resetRandom1, e2.resetRandom2);
    assert [] + e3.chunk == e3.chunk;
    ReusedKeyIdFinishes(env, c2, e3.chunk);
  }

  lemma ReusedKeyIdEnds(env: Env, c: Conn, e1: Event, e2: Event, e3: Event)
    requires c == Step(env, Start, e1)
    requires c.phase == Established && c.track.None? && c.keys.active == 0 && Holds(c.keys.slots[0], 0)
    requires e2.SoftReset? && e2.resetKeyId == 0
    requires e3.Control? && e3.keyId == 0 && TryParse(e3.chunk).Ready? && e3.tlsUp && e3.flushed
    ensures OldKeyStays(c, After(env, [e1, e2, e3]).conn)
  {
    AfterThree(env, e1, e2, e3);
    ReusedKeyIdSteps(env, c, e2, e3);
  }

  lemma GreetedKeys(env: Env, km: ClientKeyMethod2, outbox: ByteString, texts: seq<Message>)
    ensures var k := Greeted(env, km, Established, [], outbox, texts).keys;
            k.active == 0 && Holds(k.slots[0], 0) && k.slots[0].value.gen == 0 && k.gens == 1
  {}

  /**
    The key-id discipline is needed: a client that completes a handshake, asks for a rekey under key
    id 0 and completes it is left with the first generation active while the second waits in vain.
   */
  lemma ReusedKeyIdExample(env: Env, km: ClientKeyMethod2, km2: ClientKeyMethod2, push: ByteString,
                           random1: ByteString, random2: ByteString)
    requires Fields(km) && Fit(Strings(km)) && Fields(km2) && Fit(Strings(km2))
    ensures var c := After(env, [Greeting(km, push), SoftReset(0, random1, random2),
                                 Control(0, ClientLayout(km2), true, Ok(push), true)]).conn;
            c.track.None? && c.keys.gens == 2 && ActiveSlot(c.keys).Some? && ActiveSlot(c.keys).value.gen == 0
  {
    var e1, e2 := Greeting(km, push), SoftReset(0, random1, random2);
    var e3 := Control(0, ClientLayout(km2), true, Ok(push), true);
    var c := Step(env, Start, e1);
    GreetingEstablishes(env, km, push);
    GreetedKeys(env, km, Reply(env, env.random1, env.random2) + push, [Text(PUSH_REQUEST)]);
    ClientRoundTrip(km2, []);
    assert ClientLayout(km2) + [] == ClientLayout(km2);
    ReusedKeyIdEnds(env, c, e1, e2, e3);
  }

  lemma FirstMessagePending(env: Env, km: ClientKeyMethod2)
    requires Fields(km) && Fit(Strings(km))
    ensures HandleMain(env, Err, Start, ClientLayout(km), true).0
         == Greeted(env, km, PushPending, [], Reply(env, env.random1, env.random2), [])
  {
    var c := FeedMain(Start, ClientLayout(km), true);
    assert c == Start.(phase := KeyExchange, inbox := ClientLayout(km)) && c.inbox == ClientLayout(km) + [];
    DriveKeyMethod(env, Err, c, km, []);
    FirstAnswer(env, km, []);
    NothingToPop(env, km);
  }

  lemma NothingToPop(env: Env, km: ClientKeyMethod2)
    ensures var c := Greeted(env, km, PushPending, [], Reply(env, env.random1, env.random2), []);
            Drive(env, Err, c) == (c, Quiet)
  {}

  lemma PushesCutDiffer(env: Env, c: Conn, push: ByteString)
    requires c.phase == PushPending && c.inbox == [] && push == PUSH_REQUEST + [0]
    ensures HandleMain(env, Err, HandleMain(env, Err, c, push, true).0, push, true).0
         != HandleMain(env, Err, c, push + push, true).0
  {
    AsciiRoundTrip(PUSH_REQUEST, []);
    assert c.inbox + push == PUSH_REQUEST + [0] + [];
    assert push[12] == 0;
    CutMattersExactly(env, Err, c, push, push);
    DriveText(env, Err, WithInput(c, push), PUSH_REQUEST, []);
  }

  lemma PushesCutDifferAfter(env: Env, c: Conn, push: ByteString, e: Event, both: Event)
    requires c.phase == PushPending && c.inbox == [] && c.track.None? && push == PUSH_REQUEST + [0]
    requires e == Control(0, push, true, Err, true) && both == Control(0, push + push, true, Err, true)
    ensures Step(env, Step(env, c, e), e) != Step(env, c, both)
  {
    DriveEffect(env, Err, FeedMain(c, push, true));
    PushesCutDiffer(env, c, push);
  }

  /**
    How the stream is cut does matter when assignment fails: after key-method-2, two push requests in
    one control packet and the same two in two control packets leave the session in different states.
   */
  lemma FailedAssignmentCutExample(env: Env, km: ClientKeyMethod2)
    requires Fields(km) && Fit(Strings(km))
    ensures var first, push := Control(0, ClientLayout(km), true, Err, true), PUSH_REQUEST + [0];
            After(env, [first, Control(0, push, true, Err, true), Control(0, push, true, Err, true)]).conn
              != After(env, [first, Control(0, push + push, true, Err, true)]).conn
  {
    var first, push := Control(0, ClientLayout(km), true, Err, true), PUSH_REQUEST + [0];
    var e, both := Control(0, push, true, Err, true), Control(0, push + push, true, Err, true);
    AfterThree(env, first, e, e);
    AfterTwo(env, first, both);
    FirstMessagePending(env, km);
    PushesCutDifferAfter(env, Step(env, Start, first), push, e, both);
  }
}
