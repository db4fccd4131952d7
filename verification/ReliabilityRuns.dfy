/** What every run of the control channel's reliability layer keeps true. */
module ReliabilityRuns {
  import opened Bytes
  import opened Bits
  import opened Protocol
  import opened Reliability
  import Replay

  /** One locked section as this layer sees it; `sent` says whether the transport took the packet. */
  datatype Op =
    | Note(noted: u32)
    | Acks(acks: seq<u32>)
    | SendControl(keyId: byte, payload: ByteString, now: nat, sent: bool)
    | SendReset(op: OpCode, resetKeyId: byte, ack: Option<u32>, resetNow: nat, resetSent: bool)
    | SendAcks
    | Tick(tickNow: nat)

  /** Fixed during a run: the session ids, whether there is an envelope, and the base timeout. */
  datatype Setup = Setup(ids: Ids, enveloped: bool, base: nat)

  /**
    The layer with its history: packets ever recorded, those taken off the queue by an ack or given
    up on, when each was put on the wire, acks handed to outgoing packets, and envelope ids used.
   */
  datatype History = History(
    r: Reliable,
    allocs: nat,
    recorded: seq<u32>,
    acked: set<u32>,
    abandoned: set<u32>,
    times: map<u32, seq<nat>>,
    drained: seq<u32>,
    envelopes: seq<u32>)

  const Begin := History(Init, 0, [], {}, {}, map[], [], [])

  function QueueIds(q: seq<Unacked>): set<u32> {
    set u | u in q :: u.id
  }

  function Spent(q: seq<Unacked>): set<u32> {
    set u | u in q && u.attempts >= MAX_ATTEMPTS :: u.id
  }

  function DueIds(q: seq<Unacked>, now: nat, base: nat): set<u32> {
    set u | u in q && u.attempts < MAX_ATTEMPTS && Due(u, now, base) :: u.id
  }

  /** `n` envelope ids from `id` on. */
  function EnvelopeRun(id: u32, n: nat): (r: seq<u32>)
    ensures |r| == n
    decreases n
  {
    if n == 0 then [] else [id] + EnvelopeRun(NextEnvelopeId(id), n - 1)
  }

  function EnvelopeAfter(id: u32, n: nat): u32
    decreases n
  {
    if n == 0 then id else EnvelopeAfter(NextEnvelopeId(id), n - 1)
  }

  /** How many packets the operation wraps. */
  function Wraps(s: Setup, h: History, o: Op): nat {
    if !s.enveloped then 0
    else
      match o
      case SendControl(_, _, _, _) => 1
      case SendReset(_, _, _, _, _) => 1
      case SendAcks => if h.r.pending == [] then 0 else 1
      case Tick(now) => |Retransmits(h.r.unacked, now, s.base)|
      case _ => 0
  }

  function Recorded(h: History, p: ControlPacket, r: Reliable, now: nat, sent: bool): History
    requires p.packetId.Some?
  {
    var id := p.packetId.value;
    if sent then h.(r := r, allocs := h.allocs + 1, recorded := h.recorded + [id], times := h.times[id := [now]])
    else h.(r := r, allocs := h.allocs + 1)
  }

  function Apply(s: Setup, h: History, o: Op): History {
    var h' := h.(envelopes := h.envelopes + EnvelopeRun(h.r.envelopeId, Wraps(s, h, o)));
    match o
    case Note(id) => h'.(r := NoteReceived(h.r, id))
    case Acks(acks) => AfterAcks(h', acks)
    case SendControl(keyId, payload, now, sent) =>
      var (r, p) := MakeControl(h.r, s.ids, keyId, payload);
      Recorded(h'.(drained := h.drained + h.r.pending), p, SendTracked(r, p, s.enveloped, now, sent), now, sent)
    case SendReset(op, keyId, ack, now, sent) =>
      var (r, p) := MakeReset(h.r, s.ids, op, keyId, ack);
      Recorded(h', p, SendTracked(r, p, s.enveloped, now, sent), now, sent)
    case SendAcks =>
      if h.r.pending == [] then h'
      else
        h'.(r := (if s.enveloped then UseEnvelopeId(h.r) else h.r).(pending := []),
            drained := h.drained + h.r.pending)
    case Tick(now) =>
      var due := DueIds(h.r.unacked, now, s.base);
      h'.(r := h.r.(unacked := AfterTick(h.r.unacked, now, s.base),
                    envelopeId := EnvelopeAfter(h.r.envelopeId, Wraps(s, h, o))),
          abandoned := h.abandoned + Spent(h.r.unacked),
          times := map id | id in h.times :: if id in due then h.times[id] + [now] else h.times[id])
  }

  function After(s: Setup, ops: seq<Op>): History {
    if ops == [] then Begin else Apply(s, After(s, ops[..|ops| - 1]), ops[|ops| - 1])
  }

  // ---------------------------------------------------------------------------------------------
  // Queues
  // ---------------------------------------------------------------------------------------------

  predicate Sorted(q: seq<Unacked>) {
    forall i, j | 0 <= i < j < |q| :: q[i].id < q[j].id
  }

  lemma {:induction false} UnacknowledgedIs(q: seq<Unacked>, acks: seq<u32>)
    ensures forall u :: u in Unacknowledged(q, acks) <==> u in q && u.id !in acks
    ensures Sorted(q) ==> Sorted(Unacknowledged(q, acks))
  {
    if q != [] {
      var rest := Unacknowledged(q[1..], acks);
      UnacknowledgedIs(q[1..], acks);
      InCons(q);
      SortedTail(q);
      SortedCons(q, rest);
      assert forall u :: u in [q[0]] + rest <==> u == q[0] || u in rest;
    }
  }

  lemma InCons(q: seq<Unacked>)
    requires q != []
    ensures forall u :: u in q <==> u == q[0] || u in q[1..]
  {
    assert q == [q[0]] + q[1..];
  }

  lemma {:induction false} AliveIs(q: seq<Unacked>)
    ensures forall u :: u in Alive(q) <==> u in q && u.attempts < MAX_ATTEMPTS
    ensures Sorted(q) ==> Sorted(Alive(q))
  {
    if q != [] {
      var rest := Alive(q[1..]);
      AliveIs(q[1..]);
      InCons(q);
      SortedTail(q);
      SortedCons(q, rest);
      assert forall u :: u in [q[0]] + rest <==> u == q[0] || u in rest;
    }
  }

  lemma SortedTail(q: seq<Unacked>)
    requires q != []
    ensures Sorted(q) ==> Sorted(q[1..]) && forall u | u in q[1..] :: q[0].id < u.id
  {}

  lemma SortedCons(q: seq<Unacked>, rest: seq<Unacked>)
    requires q != [] && forall u | u in rest :: u in q[1..]
    ensures Sorted(q) && Sorted(rest) ==> Sorted([q[0]] + rest)
  {
    SortedTail(q);
  }

  lemma SortedUnique(q: seq<Unacked>, u: Unacked, v: Unacked)
    requires Sorted(q) && u in q && v in q && u.id == v.id
    ensures u == v
  {
    var i :| 0 <= i < |q| && q[i] == u;
    var j :| 0 <= j < |q| && q[j] == v;
    assert !(i < j) && !(j < i);
  }

  lemma BumpedIs(q: seq<Unacked>, now: nat, base: nat)
    ensures QueueIds(Bumped(q, now, base)) == QueueIds(q)
    ensures Sorted(q) ==> Sorted(Bumped(q, now, base))
  {
    var b := Bumped(q, now, base);
    forall u | u in q
      ensures u.id in QueueIds(b)
    {
      var i :| 0 <= i < |q| && q[i] == u;
      assert b[i] in b && b[i].id == u.id;
    }
    forall v | v in b
      ensures v.id in QueueIds(q)
    {
      var i :| 0 <= i < |b| && b[i] == v;
      assert q[i] in q && q[i].id == v.id;
    }
  }

  // ---------------------------------------------------------------------------------------------
  // Conservation: every recorded packet is queued, acknowledged or abandoned
  // ---------------------------------------------------------------------------------------------

  predicate InExactlyOne(id: u32, a: set<u32>, b: set<u32>, c: set<u32>) {
    || (id in a && id !in b && id !in c)
    || (id !in a && id in b && id !in c)
    || (id !in a && id !in b && id in c)
  }

  ghost predicate Conserved(h: History) {
    && (forall id | id in h.recorded :: InExactlyOne(id, QueueIds(h.r.unacked), h.acked, h.abandoned))
    && (forall id | id in QueueIds(h.r.unacked) + h.acked + h.abandoned :: id in h.recorded)
    && (forall id | id in h.recorded :: id < h.allocs)
    && (forall i, j | 0 <= i < j < |h.recorded| :: h.recorded[i] < h.recorded[j])
    && Sorted(h.r.unacked)
    && h.r.nextId == h.allocs % 0x1_0000_0000
  }

  lemma QueueIdsAppend(q: seq<Unacked>, u: Unacked)
    ensures QueueIds(q + [u]) == QueueIds(q) + {u.id}
  {
    assert forall v :: v in q + [u] <==> v in q || v == u;
  }

  lemma SortedAppend(q: seq<Unacked>, u: Unacked)
    requires Sorted(q) && forall id | id in QueueIds(q) :: id < u.id
    ensures Sorted(q + [u])
  {
    forall i | 0 <= i < |q|
      ensures q[i].id < u.id
    {
      assert q[i].id in QueueIds(q);
    }
  }

  lemma AscendingAppend(a: seq<u32>, x: u32)
    requires (forall i, j | 0 <= i < j < |a| :: a[i] < a[j]) && forall y | y in a :: y < x
    ensures forall i, j | 0 <= i < j < |a + [x]| :: (a + [x])[i] < (a + [x])[j]
  {
    forall i, j | 0 <= i < j < |a + [x]|
      ensures (a + [x])[i] < (a + [x])[j]
    {
      assert (a + [x])[i] in a;
    }
  }

  /** `id` is new, and joins the queue. */
  lemma JoinsQueue(h: History, h': History, id: u32)
    requires Conserved(h) && id == h.allocs
    requires QueueIds(h'.r.unacked) == QueueIds(h.r.unacked) + {id}
    requires forall x :: x in h'.recorded <==> x in h.recorded || x == id
    requires h'.acked == h.acked && h'.abandoned == h.abandoned
    ensures forall x | x in h'.recorded :: InExactlyOne(x, QueueIds(h'.r.unacked), h'.acked, h'.abandoned)
    ensures forall x | x in QueueIds(h'.r.unacked) + h'.acked + h'.abandoned :: x in h'.recorded
  {
    assert id !in h.recorded;
    assert id !in h.acked + h.abandoned;
  }

  lemma RecordSentConserves(h: History, h': History, u: Unacked)
    requires Conserved(h) && h.allocs < U32_COUNT && u.id == h.allocs
    requires h'.r.unacked == h.r.unacked + [u] && h'.r.nextId == NextU32(h.r.nextId)
    requires h'.allocs == h.allocs + 1 && h'.recorded == h.recorded + [u.id]
    requires h'.acked == h.acked && h'.abandoned == h.abandoned
    ensures Conserved(h')
  {
    QueueIdsAppend(h.r.unacked, u);
    SortedAppend(h.r.unacked, u);
    AscendingAppend(h.recorded, u.id);
    assert forall x :: x in h'.recorded <==> x in h.recorded || x == u.id;
    JoinsQueue(h, h', u.id);
    NextAllocation(h.allocs);
  }

  lemma NextAllocation(n: nat)
    requires n < U32_COUNT
    ensures NextU32(n % 0x1_0000_0000) == (n + 1) % 0x1_0000_0000
  {}

  /** The queue entry of a packet with id `id` that was just sent. */
  predicate Enters(u: Unacked, id: u32, now: nat) {
    u.id == id && u.sentAt == now && u.attempts == 1
  }

  lemma RecordConserves(h: History, r: Reliable, p: ControlPacket, u: Unacked, now: nat, sent: bool)
    requires Conserved(h) && h.allocs < U32_COUNT && p.packetId == Some(h.r.nextId) && Enters(u, h.r.nextId, now)
    requires r.nextId == NextU32(h.r.nextId) && r.unacked == h.r.unacked + if sent then [u] else []
    ensures Conserved(Recorded(h, p, r, now, sent))
  {
    if sent {
      RecordSentConserves(h, Recorded(h, p, r, now, sent), u);
    } else {
      assert r.unacked == h.r.unacked;
      NextAllocation(h.allocs);
    }
  }

  function AfterAcks(h: History, acks: seq<u32>): History {
    h.(r := h.r.(unacked := Unacknowledged(h.r.unacked, acks)),
       acked := h.acked + set id | id in QueueIds(h.r.unacked) && id in acks)
  }

  lemma AcksConserve(h: History, acks: seq<u32>)
    requires Conserved(h)
    ensures Conserved(AfterAcks(h, acks))
  {
    UnacknowledgedIs(h.r.unacked, acks);
    var q' := Unacknowledged(h.r.unacked, acks);
    assert forall id :: id in QueueIds(q') <==> id in QueueIds(h.r.unacked) && id !in acks;
  }

  lemma TickQueueIds(q: seq<Unacked>, now: nat, base: nat)
    requires Sorted(q)
    ensures Sorted(AfterTick(q, now, base))
    ensures forall id :: id in QueueIds(AfterTick(q, now, base)) <==> id in QueueIds(q) && id !in Spent(q)
  {
    AliveIs(q);
    BumpedIs(Alive(q), now, base);
    forall id
      ensures id in QueueIds(Alive(q)) <==> id in QueueIds(q) && id !in Spent(q)
    {
      if id in QueueIds(Alive(q)) {
        var u :| u in Alive(q) && u.id == id;
        assert u in q;
        if v :| v in q && v.attempts >= MAX_ATTEMPTS && v.id == id {
          SortedUnique(q, u, v);
        }
      }
      if id in QueueIds(q) && id !in Spent(q) {
        var u :| u in q && u.id == id;
        assert u in Alive(q);
      }
    }
  }

  lemma TickConserves(s: Setup, h: History, now: nat)
    requires Conserved(h)
    ensures Conserved(Apply(s, h, Tick(now)))
  {
    TickQueueIds(h.r.unacked, now, s.base);
  }

  predicate Allocates(o: Op) {
    o.SendControl? || o.SendReset?
  }

  /** The two histories agree in all that is not about acks and envelopes. */
  predicate SameQueue(h: History, h': History) {
    && h'.r.unacked == h.r.unacked && h'.r.nextId == h.r.nextId && h'.allocs == h.allocs && h'.recorded == h.recorded
    && h'.acked == h.acked && h'.abandoned == h.abandoned && h'.times == h.times
  }

  lemma SameQueueConserved(h: History, h': History)
    requires Conserved(h) && SameQueue(h, h')
    ensures Conserved(h')
  {}

  /** The packet an allocating operation builds, and the layer once it is built. */
  function Built(s: Setup, r: Reliable, o: Op): (Reliable, ControlPacket)
    requires Allocates(o)
  {
    match o
    case SendControl(keyId, payload, _, _) => MakeControl(r, s.ids, keyId, payload)
    case SendReset(op, keyId, ack, _, _) => MakeReset(r, s.ids, op, keyId, ack)
  }

  function SentAt(o: Op): nat
    requires Allocates(o)
  {
    if o.SendControl? then o.now else o.resetNow
  }

  predicate WasSent(o: Op)
    requires Allocates(o)
  {
    if o.SendControl? then o.sent else o.resetSent
  }

  lemma BuiltFields(s: Setup, r: Reliable, o: Op)
    requires Allocates(o)
    ensures var (r1, p) := Built(s, r, o);
            && p.packetId == Some(r.nextId)
            && var r2 := SendTracked(r1, p, s.enveloped, SentAt(o), WasSent(o));
               && r2.nextId == NextU32(r.nextId)
               && r2.unacked == r.unacked + if WasSent(o) then [Entry(p, SentAt(o))] else []
  {
    assert r.unacked + [] == r.unacked;
  }

  /** An allocating operation records the packet it builds; acks and envelope ids are booked before. */
  lemma AllocationRecords(s: Setup, h: History, o: Op) returns (h1: History, r: Reliable, p: ControlPacket, u: Unacked)
    requires Allocates(o)
    ensures SameQueue(h, h1) && p.packetId == Some(h.r.nextId) && Enters(u, h.r.nextId, SentAt(o))
    ensures r.nextId == NextU32(h.r.nextId) && r.unacked == h.r.unacked + if WasSent(o) then [u] else []
    ensures Apply(s, h, o) == Recorded(h1, p, r, SentAt(o), WasSent(o))
  {
    var (r1, p1) := Built(s, h.r, o);
    BuiltFields(s, h.r, o);
    p, u := p1, Entry(p1, SentAt(o));
    r := SendTracked(r1, p, s.enveloped, SentAt(o), WasSent(o));
    h1 := h.(envelopes := h.envelopes + EnvelopeRun(h.r.envelopeId, Wraps(s, h, o)));
    if o.SendControl? {
      h1 := h1.(drained := h.drained + h.r.pending);
    }
  }

  lemma AllocationConserves(s: Setup, h: History, o: Op)
    requires Conserved(h) && Allocates(o) && h.allocs < U32_COUNT
    ensures Conserved(Apply(s, h, o))
  {
    var h1, r, p, u := AllocationRecords(s, h, o);
    SameQueueConserved(h, h1);
    RecordConserves(h1, r, p, u, SentAt(o), WasSent(o));
  }

  lemma ApplyConserves(s: Setup, h: History, o: Op)
    requires Conserved(h) && (Allocates(o) ==> h.allocs < U32_COUNT)
    ensures Conserved(Apply(s, h, o))
  {
    if Allocates(o) {
      AllocationConserves(s, h, o);
    } else if o.Acks? {
      AcksConserve(h, o.acks);
      SameQueueConserved(AfterAcks(h, o.acks), Apply(s, h, o));
    } else if o.Tick? {
      TickConserves(s, h, o.tickNow);
    } else {
      SameQueueConserved(h, Apply(s, h, o));
    }
  }

  lemma AllocatedGrows(s: Setup, h: History, o: Op)
    ensures Apply(s, h, o).allocs == h.allocs + if Allocates(o) then 1 else 0
  {}

  /**
    Over every run that allocates at most 2^32 ids, each recorded packet is in exactly one of the
    unacked queue, the acknowledged and the abandoned packets; ids in the queue strictly increase
    and were all handed out.
   */
  lemma {:induction false} UnackedConservation(s: Setup, ops: seq<Op>)
    requires After(s, ops).allocs <= U32_COUNT
    ensures Conserved(After(s, ops))
  {
    if ops != [] {
      var n := |ops| - 1;
      AllocatedGrows(s, After(s, ops[..n]), ops[n]);
      UnackedConservation(s, ops[..n]);
      ApplyConserves(s, After(s, ops[..n]), ops[n]);
    }
  }

  /** Acks for ids that are not queued change nothing. */
  lemma {:induction false} UnknownAcksIgnored(q: seq<Unacked>, acks: seq<u32>)
    requires forall id | id in acks :: id !in QueueIds(q)
    ensures Unacknowledged(q, acks) == q
  {
    if q != [] {
      assert q[0].id in QueueIds(q);
      assert forall u | u in q[1..] :: u in q;
      UnknownAcksIgnored(q[1..], acks);
    }
  }

  // ---------------------------------------------------------------------------------------------
  // Backoff: how often and how soon a packet is put on the wire
  // ---------------------------------------------------------------------------------------------

  /** Each gap is at least twice as long as the one before, starting from the base timeout. */
  ghost predicate Spaced(ts: seq<nat>, base: nat) {
    forall k: nat | k + 1 < |ts| :: ts[k + 1] >= ts[k] + base * Pow2(k)
  }

  predicate InStep(u: Unacked, times: map<u32, seq<nat>>) {
    && u.id in times && |times[u.id]| == u.attempts && u.attempts >= 1
    && times[u.id][u.attempts - 1] == u.sentAt
  }

  ghost predicate Timed(h: History, base: nat) {
    && (forall id | id in h.recorded ::
          id in h.times && 1 <= |h.times[id]| <= MAX_ATTEMPTS && Spaced(h.times[id], base))
    && (forall u | u in h.r.unacked :: InStep(u, h.times))
    && (forall id | id in h.abandoned :: id in h.times && |h.times[id]| == MAX_ATTEMPTS)
  }

  lemma {:induction false} SpacedSum(ts: seq<nat>, base: nat, k: nat)
    requires Spaced(ts, base) && k < |ts|
    ensures ts[k] >= ts[0] + (Pow2(k) - 1) * base
  {
    if k > 0 {
      SpacedSum(ts, base, k - 1);
      NextGap(Pow2(k - 1), base);
    }
  }

  lemma NextGap(p: nat, base: nat)
    ensures (2 * p - 1) * base == (p - 1) * base + base * p
  {}

  /** The next transmission of an entry that is due comes late enough. */
  lemma ResendSpaced(ts: seq<nat>, u: Unacked, now: nat, base: nat)
    requires base > 0 && Spaced(ts, base) && |ts| == u.attempts < MAX_ATTEMPTS && u.attempts >= 1
    requires ts[u.attempts - 1] == u.sentAt && Due(u, now, base)
    ensures Spaced(ts + [now], base)
  {
    var m := u.attempts - 1;
    assert Backoff(u, base) == base * Pow2(m);
    PositiveBackoff(base, m);
    assert now >= u.sentAt + base * Pow2(m);
    var ts' := ts + [now];
    forall k: nat | k + 1 < |ts'|
      ensures ts'[k + 1] >= ts'[k] + base * Pow2(k)
    {
      if k + 1 < |ts| {
        assert ts[k + 1] >= ts[k] + base * Pow2(k);
      }
    }
  }

  lemma PositiveBackoff(base: nat, m: nat)
    requires base > 0
    ensures base * Pow2(m) > 0
  {}

  function TimesAfterTick(q: seq<Unacked>, times: map<u32, seq<nat>>, now: nat, base: nat): map<u32, seq<nat>> {
    var due := DueIds(q, now, base);
    map id | id in times :: if id in due then times[id] + [now] else times[id]
  }

  lemma DueIsUnique(q: seq<Unacked>, u: Unacked, now: nat, base: nat)
    requires Sorted(q) && u in q && u.attempts < MAX_ATTEMPTS
    ensures u.id in DueIds(q, now, base) <==> Due(u, now, base)
  {
    if u.id in DueIds(q, now, base) {
      var v :| v in q && v.attempts < MAX_ATTEMPTS && Due(v, now, base) && v.id == u.id;
      SortedUnique(q, u, v);
    }
  }

  lemma SpentNotDue(q: seq<Unacked>, u: Unacked, now: nat, base: nat)
    requires Sorted(q) && u in q && u.attempts >= MAX_ATTEMPTS
    ensures u.id !in DueIds(q, now, base)
  {
    forall v | v in q && v.attempts < MAX_ATTEMPTS
      ensures v.id != u.id
    {
      if v.id == u.id {
        SortedUnique(q, u, v);
      }
    }
  }

  lemma BumpInStep(q: seq<Unacked>, times: map<u32, seq<nat>>, now: nat, base: nat, u: Unacked)
    requires Sorted(q) && u in q && InStep(u, times) && u.attempts < MAX_ATTEMPTS
    ensures InStep(if Due(u, now, base) then Resent(u, now) else u, TimesAfterTick(q, times, now, base))
  {
    DueIsUnique(q, u, now, base);
  }

  lemma TickInStep(q: seq<Unacked>, times: map<u32, seq<nat>>, now: nat, base: nat, v: Unacked)
    requires Sorted(q) && (forall u | u in q :: InStep(u, times))
    requires v in AfterTick(q, now, base)
    ensures InStep(v, TimesAfterTick(q, times, now, base))
  {
    AliveIs(q);
    var alive := Alive(q);
    var b := Bumped(alive, now, base);
    var i :| 0 <= i < |b| && b[i] == v;
    assert alive[i] in alive;
    BumpInStep(q, times, now, base, alive[i]);
  }

  lemma TickSpaced(q: seq<Unacked>, times: map<u32, seq<nat>>, now: nat, base: nat, id: u32)
    requires base > 0 && (forall u | u in q :: InStep(u, times))
    requires id in times && 1 <= |times[id]| <= MAX_ATTEMPTS && Spaced(times[id], base)
    ensures var ts := TimesAfterTick(q, times, now, base)[id]; 1 <= |ts| <= MAX_ATTEMPTS && Spaced(ts, base)
  {
    if id in DueIds(q, now, base) {
      var u :| u in q && u.attempts < MAX_ATTEMPTS && Due(u, now, base) && u.id == id;
      assert InStep(u, times);
      ResendSpaced(times[id], u, now, base);
    }
  }

  lemma TickTimed(s: Setup, h: History, now: nat)
    requires s.base > 0 && Conserved(h) && Timed(h, s.base)
    ensures Timed(Apply(s, h, Tick(now)), s.base)
  {
    var h' := Apply(s, h, Tick(now));
    assert h'.times == TimesAfterTick(h.r.unacked, h.times, now, s.base);
    forall v | v in h'.r.unacked
      ensures InStep(v, h'.times)
    {
      TickInStep(h.r.unacked, h.times, now, s.base, v);
    }
    forall id | id in h'.recorded
      ensures id in h'.times && 1 <= |h'.times[id]| <= MAX_ATTEMPTS && Spaced(h'.times[id], s.base)
    {
      TickSpaced(h.r.unacked, h.times, now, s.base, id);
    }
    forall id | id in h'.abandoned
      ensures id in h'.times && |h'.times[id]| == MAX_ATTEMPTS
    {
      TickAbandons(h, now, s.base, id);
    }
  }

  /** Packets are given up on only after their sixth transmission, and then never sent again. */
  lemma TickAbandons(h: History, now: nat, base: nat, id: u32)
    requires Conserved(h) && Timed(h, base) && id in h.abandoned + Spent(h.r.unacked)
    ensures id in h.times && |TimesAfterTick(h.r.unacked, h.times, now, base)[id]| == MAX_ATTEMPTS
  {
    if id in h.abandoned {
      assert id in h.recorded && id !in QueueIds(h.r.unacked);
    } else {
      var u :| u in h.r.unacked && u.attempts >= MAX_ATTEMPTS && u.id == id;
      assert InStep(u, h.times) && u.id in QueueIds(h.r.unacked) && id in h.recorded;
      SpentNotDue(h.r.unacked, u, now, base);
    }
  }

  lemma RecordTimed(h: History, r: Reliable, p: ControlPacket, u: Unacked, now: nat, sent: bool, base: nat)
    requires Conserved(h) && Timed(h, base) && h.allocs < U32_COUNT
    requires p.packetId == Some(h.r.nextId) && Enters(u, h.r.nextId, now)
    requires r.unacked == h.r.unacked + if sent then [u] else []
    ensures Timed(Recorded(h, p, r, now, sent), base)
  {
    var h' := Recorded(h, p, r, now, sent);
    if sent {
      forall v | v in h'.r.unacked
        ensures InStep(v, h'.times)
      {
        if v in h.r.unacked {
          assert v.id in QueueIds(h.r.unacked) && InStep(v, h.times);
        }
      }
    } else {
      assert r.unacked == h.r.unacked;
    }
  }

  lemma SameQueueTimed(h: History, h': History, base: nat)
    requires Timed(h, base) && SameQueue(h, h')
    ensures Timed(h', base)
  {}

  lemma AcksTimed(h: History, acks: seq<u32>, base: nat)
    requires Timed(h, base)
    ensures Timed(AfterAcks(h, acks), base)
  {
    UnacknowledgedIs(h.r.unacked, acks);
  }

  lemma AllocationTimed(s: Setup, h: History, o: Op)
    requires Conserved(h) && Timed(h, s.base) && Allocates(o) && h.allocs < U32_COUNT
    ensures Timed(Apply(s, h, o), s.base)
  {
    var h1, r, p, u := AllocationRecords(s, h, o);
    SameQueueConserved(h, h1);
    SameQueueTimed(h, h1, s.base);
    RecordTimed(h1, r, p, u, SentAt(o), WasSent(o), s.base);
  }

  lemma ApplyTimed(s: Setup, h: History, o: Op)
    requires s.base > 0 && Conserved(h) && Timed(h, s.base) && (Allocates(o) ==> h.allocs < U32_COUNT)
    ensures Timed(Apply(s, h, o), s.base)
  {
    if Allocates(o) {
      AllocationTimed(s, h, o);
    } else if o.Acks? {
      AcksTimed(h, o.acks, s.base);
      SameQueueTimed(AfterAcks(h, o.acks), Apply(s, h, o), s.base);
    } else if o.Tick? {
      TickTimed(s, h, o.tickNow);
    } else {
      SameQueueTimed(h, Apply(s, h, o), s.base);
    }
  }

  lemma {:induction false} RunTimed(s: Setup, ops: seq<Op>)
    requires s.base > 0 && After(s, ops).allocs <= U32_COUNT
    ensures Timed(After(s, ops), s.base)
  {
    if ops != [] {
      var n := |ops| - 1;
      AllocatedGrows(s, After(s, ops[..n]), ops[n]);
      RunTimed(s, ops[..n]);
      UnackedConservation(s, ops[..n]);
      ApplyTimed(s, After(s, ops[..n]), ops[n]);
    }
  }

  /**
    Over every run, each recorded packet is put on the wire at least once and at most 6 times, and
    its transmission number `k + 1` comes at least `(2^k - 1) * base` after the first.  The clock
    need not be monotone.
   */
  lemma BackoffBound(s: Setup, ops: seq<Op>, id: u32)
    requires s.base > 0 && After(s, ops).allocs <= U32_COUNT && id in After(s, ops).recorded
    ensures id in After(s, ops).times && BackedOff(After(s, ops).times[id], s.base)
  {
    RunTimed(s, ops);
    SpacedIsBackedOff(After(s, ops).times[id], s.base);
  }

  /** Abandoned packets were put on the wire exactly 6 times. */
  lemma AbandonedAfterSix(s: Setup, ops: seq<Op>, id: u32)
    requires s.base > 0 && After(s, ops).allocs <= U32_COUNT && id in After(s, ops).abandoned
    ensures id in After(s, ops).times && |After(s, ops).times[id]| == 6
  {
    RunTimed(s, ops);
  }

  /** The retransmission rule, from the history alone: a queued packet sent `k` times so far is sent
      again at a tick exactly when `k < 6` and `2^(k-1) * base` has passed since the last time. */
  lemma ResendRule(s: Setup, ops: seq<Op>, now: nat, id: u32)
    requires s.base > 0 && After(s, ops).allocs <= U32_COUNT && id in QueueIds(After(s, ops).r.unacked)
    ensures var h := After(s, ops);
            && id in h.times && |h.times[id]| >= 1
            && Apply(s, h, Tick(now)).times[id] == NextTimes(h.times[id], now, s.base)
  {
    RunTimed(s, ops);
    UnackedConservation(s, ops);
    ResendRuleAt(After(s, ops), now, s.base, id);
  }

  function NextTimes(ts: seq<nat>, now: nat, base: nat): seq<nat>
    requires |ts| >= 1
  {
    var k := |ts|;
    if k < 6 && now >= ts[k - 1] + base * Pow2(k - 1) then ts + [now] else ts
  }

  lemma ResendRuleAt(h: History, now: nat, base: nat, id: u32)
    requires base > 0 && Conserved(h) && Timed(h, base) && id in QueueIds(h.r.unacked)
    ensures id in h.times && |h.times[id]| >= 1
    ensures TimesAfterTick(h.r.unacked, h.times, now, base)[id] == NextTimes(h.times[id], now, base)
  {
    var u :| u in h.r.unacked && u.id == id;
    assert InStep(u, h.times);
    assert |h.times[id]| <= MAX_ATTEMPTS by { assert id in h.recorded; }
    if u.attempts < MAX_ATTEMPTS {
      DueIsUnique(h.r.unacked, u, now, base);
      PositiveBackoff(base, u.attempts - 1);
    } else {
      SpentNotDue(h.r.unacked, u, now, base);
    }
  }

  ghost predicate BackedOff(ts: seq<nat>, base: nat) {
    && 1 <= |ts| <= 6
    && forall k: nat | k < |ts| :: ts[k] >= ts[0] + (Pow2(k) - 1) * base
  }

  lemma SpacedIsBackedOff(ts: seq<nat>, base: nat)
    requires Spaced(ts, base) && 1 <= |ts| <= MAX_ATTEMPTS
    ensures BackedOff(ts, base)
  {
    forall k: nat | k < |ts|
      ensures ts[k] >= ts[0] + (Pow2(k) - 1) * base
    {
      SpacedSum(ts, base, k);
    }
  }

  // ---------------------------------------------------------------------------------------------
  // Acknowledged and abandoned packets stay so
  // ---------------------------------------------------------------------------------------------

  /** `id` is settled in `h`, and in `h'` as well, with no transmission in between. */
  ghost predicate StaysSettled(h: History, h': History, id: u32) {
    && (id in h.acked ==> id in h'.acked) && (id in h.abandoned ==> id in h'.abandoned)
    && id in h.times && id in h'.times && h'.times[id] == h.times[id]
  }

  lemma SettledNotQueued(h: History, base: nat, id: u32)
    requires Conserved(h) && Timed(h, base) && id in h.acked + h.abandoned
    ensures id in h.recorded && id in h.times && id !in QueueIds(h.r.unacked) && id < h.allocs
  {
    assert id in h.recorded;
  }

  lemma NotQueuedNotDue(q: seq<Unacked>, now: nat, base: nat, id: u32)
    requires id !in QueueIds(q)
    ensures id !in DueIds(q, now, base)
  {}

  lemma SettledStep(s: Setup, h: History, o: Op, id: u32)
    requires Conserved(h) && Timed(h, s.base) && (Allocates(o) ==> h.allocs < U32_COUNT)
    requires id in h.acked + h.abandoned
    ensures StaysSettled(h, Apply(s, h, o), id)
  {
    SettledNotQueued(h, s.base, id);
    match o
    case Tick(now) => NotQueuedNotDue(h.r.unacked, now, s.base, id);
    case _ =>
  }

  /** Whatever happens later in a run, a packet that was acknowledged or given up on stays that, and is
      never put on the wire again. */
  lemma {:induction false} SettledStays(s: Setup, ops: seq<Op>, n: nat, id: u32)
    requires s.base > 0 && n <= |ops| && After(s, ops).allocs <= U32_COUNT
    requires id in After(s, ops[..n]).acked + After(s, ops[..n]).abandoned
    ensures StaysSettled(After(s, ops[..n]), After(s, ops), id)
  {
    if n == |ops| {
      assert ops[..n] == ops;
      RunTimed(s, ops);
      UnackedConservation(s, ops);
      SettledNotQueued(After(s, ops), s.base, id);
    } else {
      var m := |ops| - 1;
      assert ops[..m][..n] == ops[..n];
      AllocatedGrows(s, After(s, ops[..m]), ops[m]);
      SettledStays(s, ops[..m], n, id);
      RunTimed(s, ops[..m]);
      UnackedConservation(s, ops[..m]);
      SettledStep(s, After(s, ops[..m]), ops[m], id);
    }
  }

  // ---------------------------------------------------------------------------------------------
  // What the queue holds
  // ---------------------------------------------------------------------------------------------

  /** `u` is the encoding of `p`, filed under the id that `p` carries. */
  predicate Files(u: Unacked, p: ControlPacket) {
    u.encoded == Encode(p) && p.packetId == Some(u.id)
  }

  /** The packet that an operation builds and hands to the transport for the first time. */
  function SentBy(s: Setup, r: Reliable, o: Op): seq<ControlPacket> {
    if Allocates(o) && WasSent(o) then [Built(s, r, o).1] else []
  }

  /** The tracked packets of a run, in the order in which they were first sent. */
  function SentLog(s: Setup, ops: seq<Op>): seq<ControlPacket> {
    if ops == [] then []
    else
      var before := ops[..|ops| - 1];
      SentLog(s, before) + SentBy(s, After(s, before).r, ops[|ops| - 1])
  }

  ghost predicate HoldsPackets(q: seq<Unacked>, log: seq<ControlPacket>) {
    forall u | u in q :: exists p :: p in log && Files(u, p)
  }

  lemma {:induction false} DueOnesAre(q: seq<Unacked>, now: nat, base: nat)
    ensures forall u | u in DueOnes(q, now, base) :: u in q
  {
    if q != [] {
      DueOnesAre(q[1..], now, base);
    }
  }

  lemma RetransmitsAre(q: seq<Unacked>, now: nat, base: nat)
    ensures forall u | u in Retransmits(q, now, base) :: u in q
  {
    DueOnesAre(Alive(q), now, base);
    AliveIs(q);
  }

  /** Bumping an entry leaves its id and its bytes. */
  lemma BumpedFrom(q: seq<Unacked>, now: nat, base: nat, v: Unacked) returns (u: Unacked)
    requires v in Bumped(q, now, base)
    ensures u in q && u.id == v.id && u.encoded == v.encoded
  {
    var b := Bumped(q, now, base);
    var i :| 0 <= i < |b| && b[i] == v;
    u := q[i];
  }

  lemma TickHolds(q: seq<Unacked>, now: nat, base: nat, log: seq<ControlPacket>)
    requires HoldsPackets(q, log)
    ensures HoldsPackets(AfterTick(q, now, base), log)
  {
    AliveIs(q);
    forall v | v in AfterTick(q, now, base)
      ensures exists p :: p in log && Files(v, p)
    {
      var u := BumpedFrom(Alive(q), now, base, v);
      var p :| p in log && Files(u, p);
      assert Files(v, p);
    }
  }

  lemma SentHolds(q: seq<Unacked>, u: Unacked, p: ControlPacket, log: seq<ControlPacket>)
    requires HoldsPackets(q, log) && Files(u, p)
    ensures HoldsPackets(q + [u], log + [p])
  {
    forall v | v in q + [u]
      ensures exists p' :: p' in log + [p] && Files(v, p')
    {
      if v in q {
        var p' :| p' in log && Files(v, p');
        assert p' in log + [p];
      } else {
        assert p in log + [p];
      }
    }
  }

  lemma AllocationHolds(s: Setup, h: History, o: Op, log: seq<ControlPacket>)
    requires Allocates(o) && HoldsPackets(h.r.unacked, log)
    ensures HoldsPackets(Apply(s, h, o).r.unacked, log + SentBy(s, h.r, o))
  {
    var p := Built(s, h.r, o).1;
    BuiltFields(s, h.r, o);
    if WasSent(o) {
      SentHolds(h.r.unacked, Entry(p, SentAt(o)), p, log);
    } else {
      assert log + [] == log && h.r.unacked + [] == h.r.unacked;
    }
  }

  lemma ApplyHolds(s: Setup, h: History, o: Op, log: seq<ControlPacket>)
    requires HoldsPackets(h.r.unacked, log)
    ensures HoldsPackets(Apply(s, h, o).r.unacked, log + SentBy(s, h.r, o))
  {
    if Allocates(o) {
      AllocationHolds(s, h, o, log);
    } else {
      assert log + [] == log;
      if o.Acks? {
        UnacknowledgedIs(h.r.unacked, o.acks);
      } else if o.Tick? {
        TickHolds(h.r.unacked, o.tickNow, s.base, log);
      }
    }
  }

  /** Over every run, each queue entry is the encoding of a packet that was sent under its id. */
  lemma {:induction false} QueueHoldsPackets(s: Setup, ops: seq<Op>)
    ensures HoldsPackets(After(s, ops).r.unacked, SentLog(s, ops))
  {
    if ops != [] {
      var n := |ops| - 1;
      QueueHoldsPackets(s, ops[..n]);
      ApplyHolds(s, After(s, ops[..n]), ops[n], SentLog(s, ops[..n]));
    }
  }

  /** The packet last sent under each id. */
  function ById(log: seq<ControlPacket>): map<u32, ControlPacket> {
    if log == [] then map[]
    else
      var p := log[|log| - 1];
      var m := ById(log[..|log| - 1]);
      match p.packetId case Some(id) => m[id := p] case None => m
  }

  function SentPackets(s: Setup, ops: seq<Op>): map<u32, ControlPacket> {
    ById(SentLog(s, ops))
  }

  /** The log carries the ids `ids`, in order. */
  ghost predicate Carries(log: seq<ControlPacket>, ids: seq<u32>) {
    |log| == |ids| && forall i | 0 <= i < |ids| :: log[i].packetId == Some(ids[i])
  }

  lemma {:induction false} ByIdFinds(log: seq<ControlPacket>, ids: seq<u32>, p: ControlPacket)
    requires Carries(log, ids) && Distinct(ids) && p in log
    ensures p.packetId.Some? && p.packetId.value in ById(log) && ById(log)[p.packetId.value] == p
  {
    var n := |log| - 1;
    var i :| 0 <= i < |log| && log[i] == p;
    if i < n {
      assert log[..n][i] == p;
      ByIdFinds(log[..n], ids[..n], p);
      assert ids[i] != ids[n];
    }
  }

  lemma SentIsRecorded(s: Setup, h: History, o: Op)
    ensures Carries(SentBy(s, h.r, o), if Allocates(o) && WasSent(o) then [h.r.nextId] else [])
    ensures Apply(s, h, o).recorded == h.recorded + if Allocates(o) && WasSent(o) then [h.r.nextId] else []
  {
    assert h.recorded + [] == h.recorded;
    if Allocates(o) {
      BuiltFields(s, h.r, o);
    }
  }

  lemma {:induction false} LogIsRecorded(s: Setup, ops: seq<Op>)
    ensures Carries(SentLog(s, ops), After(s, ops).recorded)
  {
    if ops != [] {
      var n := |ops| - 1;
      LogIsRecorded(s, ops[..n]);
      SentIsRecorded(s, After(s, ops[..n]), ops[n]);
    }
  }

  /** Within 2^32 ids only one packet is ever sent under an id, so every queue entry is the encoding of
      the packet sent under its id. */
  lemma QueueHoldsSent(s: Setup, ops: seq<Op>, u: Unacked)
    requires After(s, ops).allocs <= U32_COUNT && u in After(s, ops).r.unacked
    ensures u.id in SentPackets(s, ops) && Files(u, SentPackets(s, ops)[u.id])
  {
    QueueHoldsPackets(s, ops);
    var p :| p in SentLog(s, ops) && Files(u, p);
    LogIsRecorded(s, ops);
    UnackedConservation(s, ops);
    ByIdFinds(SentLog(s, ops), After(s, ops).recorded, p);
  }

  // ---------------------------------------------------------------------------------------------
  // Acks: each received id is handed to exactly one packet
  // ---------------------------------------------------------------------------------------------

  ghost predicate AcksBooked(h: History) {
    var all := h.drained + h.r.pending;
    Distinct(all) && forall id :: id in all <==> id in h.r.received
  }

  lemma NoteBooked(h: History, id: u32)
    requires AcksBooked(h)
    ensures AcksBooked(h.(r := NoteReceived(h.r, id)))
  {
    if id !in h.r.received {
      var all := h.drained + h.r.pending;
      assert h.drained + (h.r.pending + [id]) == all + [id];
      assert forall x :: x in all + [id] <==> x in all || x == id;
    }
  }

  lemma DrainBooked(h: History, h': History)
    requires AcksBooked(h)
    requires h'.drained == h.drained + h.r.pending && h'.r.pending == [] && h'.r.received == h.r.received
    ensures AcksBooked(h')
  {
    assert h'.drained + h'.r.pending == h.drained + h.r.pending;
  }

  lemma ApplyBooked(s: Setup, h: History, o: Op)
    requires AcksBooked(h)
    ensures AcksBooked(Apply(s, h, o))
  {
    match o
    case Note(id) => NoteBooked(h, id);
    case SendControl(keyId, payload, now, sent) => DrainBooked(h, Apply(s, h, o));
    case SendAcks =>
      if h.r.pending != [] {
        DrainBooked(h, Apply(s, h, o));
      }
    case _ =>
  }

  /** Over every run, the acks handed to outgoing packets followed by those still pending list every
      received id exactly once. */
  lemma {:induction false} AckBookkeeping(s: Setup, ops: seq<Op>)
    ensures AcksBooked(After(s, ops))
  {
    if ops != [] {
      var n := |ops| - 1;
      AckBookkeeping(s, ops[..n]);
      ApplyBooked(s, After(s, ops[..n]), ops[n]);
    }
  }

  /** The ids 0, 1, ..., `n` - 1 arrive, and nothing is sent meanwhile. */
  function Notes(n: nat): seq<Op>
    requires n <= U32_COUNT
  {
    if n == 0 then [] else Notes(n - 1) + [Note(n - 1)]
  }

  lemma {:induction false} NotesPending(s: Setup, n: nat)
    requires n <= U32_COUNT
    ensures var r := After(s, Notes(n)).r;
            |r.pending| == n && r.unacked == [] && r.nextId == 0 && forall id | id in r.received :: id < n
  {
    if n > 0 {
      NotesPending(s, n - 1);
      assert Notes(n)[..|Notes(n)| - 1] == Notes(n - 1);
    }
  }

  /** The packet built for `o` after `ops` is queued for retransmission and reads back at the peer. */
  ghost predicate SurvivesTheWire(s: Setup, ops: seq<Op>, o: Op)
    requires o.SendControl?
  {
    var p := MakeControl(After(s, ops).r, s.ids, o.keyId, o.payload).1;
    After(s, ops + [o]).r.unacked == [Unacked(0, Encode(p), o.now, 1)] && Parse(Encode(p)) == Ok(p)
  }

  lemma NextReadsBack(r: Reliable, ids: Ids, keyId: byte, payload: ByteString, p: ControlPacket)
    requires keyId < 8 && p == MakeControl(r, ids, keyId, payload).1
    ensures Parse(Encode(p)) == Ok(p) <==> |r.pending| <= 255
  {
    BuildersWellFormed(r, ids, ControlV1, keyId, None, payload);
    ControlPacketRoundTrip(p);
  }

  lemma FirstQueued(s: Setup, h: History, o: Op)
    requires o.SendControl? && o.sent && h.r.unacked == [] && h.r.nextId == 0
    ensures var p := MakeControl(h.r, s.ids, o.keyId, o.payload).1;
            Apply(s, h, o).r.unacked == [Unacked(0, Encode(p), o.now, 1)]
  {}

  /** Runs in which the ack count overflows its byte: the packet sent after `n` ids were received
      reads back at the peer if and only if `n` is at most 255. */
  lemma AcksFitExactly(s: Setup, n: nat, keyId: byte, payload: ByteString, now: nat)
    requires n <= U32_COUNT && keyId < 8
    ensures SurvivesTheWire(s, Notes(n), SendControl(keyId, payload, now, true)) <==> n <= 255
  {
    var o, h := SendControl(keyId, payload, now, true), After(s, Notes(n));
    NotesPending(s, n);
    NextReadsBack(h.r, s.ids, keyId, payload, MakeControl(h.r, s.ids, keyId, payload).1);
    FirstQueued(s, h, o);
    assert (Notes(n) + [o])[..|Notes(n)|] == Notes(n);
  }

  // ---------------------------------------------------------------------------------------------
  // Envelope ids
  // ---------------------------------------------------------------------------------------------

  /** The `n`th envelope id of a session, counting from 0: 1, 2, ..., 2^32 - 1, 1, ... */
  function EnvelopeId(n: nat): u32 {
    n % 0xFFFF_FFFF + 1
  }

  lemma EnvelopeIdNext(n: nat)
    ensures NextEnvelopeId(EnvelopeId(n)) == EnvelopeId(n + 1)
  {}

  lemma {:induction false} EnvelopeRunIs(m: nat, n: nat)
    ensures |EnvelopeRun(EnvelopeId(m), n)| == n
    ensures forall i | 0 <= i < n :: EnvelopeRun(EnvelopeId(m), n)[i] == EnvelopeId(m + i)
    ensures EnvelopeAfter(EnvelopeId(m), n) == EnvelopeId(m + n)
    decreases n
  {
    if n > 0 {
      EnvelopeIdNext(m);
      EnvelopeRunIs(m + 1, n - 1);
    }
  }

  ghost predicate EnvelopesInOrder(h: History) {
    && h.r.envelopeId == EnvelopeId(|h.envelopes|)
    && forall i | 0 <= i < |h.envelopes| :: h.envelopes[i] == EnvelopeId(i)
  }

  lemma ApplyEnvelopes(s: Setup, h: History, o: Op)
    ensures Apply(s, h, o).envelopes == h.envelopes + EnvelopeRun(h.r.envelopeId, Wraps(s, h, o))
    ensures Apply(s, h, o).r.envelopeId == EnvelopeAfter(h.r.envelopeId, Wraps(s, h, o))
  {
    assert EnvelopeAfter(h.r.envelopeId, 1) == NextEnvelopeId(h.r.envelopeId);
  }

  lemma EnvelopesGoOn(h: History, h': History, n: nat)
    requires EnvelopesInOrder(h)
    requires h'.envelopes == h.envelopes + EnvelopeRun(h.r.envelopeId, n)
    requires h'.r.envelopeId == EnvelopeAfter(h.r.envelopeId, n)
    ensures EnvelopesInOrder(h')
  {
    EnvelopeRunIs(|h.envelopes|, n);
  }

  lemma {:induction false} RunEnvelopes(s: Setup, ops: seq<Op>)
    ensures EnvelopesInOrder(After(s, ops))
  {
    if ops != [] {
      var n := |ops| - 1;
      var h, o := After(s, ops[..n]), ops[n];
      RunEnvelopes(s, ops[..n]);
      ApplyEnvelopes(s, h, o);
      EnvelopesGoOn(h, Apply(s, h, o), Wraps(s, h, o));
    }
  }

  /**
    Over every run - first sends, pure acks, resets and re-wrapped retransmits alike - a peer whose
    replay window sees the envelopes in order accepts every one of them if and only if there were
    at most 2^32 - 1.
   */
  lemma FreshEnvelopeIds(s: Setup, ops: seq<Op>)
    ensures var ids := After(s, ops).envelopes;
            (forall i: nat | i < |ids| :: Replay.Accepts(ids, i)) <==> |ids| < U32_COUNT
  {
    RunEnvelopes(s, ops);
    CountedAccepted(After(s, ops).envelopes);
  }

  lemma CountedAccepted(ids: seq<u32>)
    requires forall i | 0 <= i < |ids| :: ids[i] == EnvelopeId(i)
    ensures (forall i: nat | i < |ids| :: Replay.Accepts(ids, i)) <==> |ids| < U32_COUNT
  {
    if |ids| < U32_COUNT {
      assert forall k | 0 <= k < |ids| :: ids[k] == k + 1;
      forall i: nat | i < |ids|
        ensures Replay.Accepts(ids, i)
      {
        Replay.IncreasingAllAccepted(ids, i);
      }
    } else {
      var last: nat := U32_COUNT - 1;
      assert ids[0] == ids[last] == 1;
      if Replay.Accepts(ids, 0) && Replay.Accepts(ids, last) {
        Replay.AtMostOnce(ids, 0, last);
      }
    }
  }
}
