/**
  Messages inside the TLS stream, src/control_channel.rs: the binary key-method-2 exchange and
  NUL-terminated text.  Strings are their bytes; lossy UTF-8 decoding is taken to be the identity.
 */
module ControlChannel {
  import opened Bytes

  const FIXED_LEN: nat := 117
  const MAX_STRING: nat := 65534
  const STRING_COUNT: nat := 4
  const ZEROS: ByteString := [0, 0, 0, 0]
  const KEY_METHOD_2: byte := 2

  /** What a parser says of a buffer that is still filling up. */
  datatype Pop<+T> =
    | Ready(value: T, used: nat)
    | NeedMore
    | Malformed

  datatype ClientKeyMethod2 = ClientKeyMethod2(
    preMaster: ByteString, random1: ByteString, random2: ByteString,
    options: ByteString, username: ByteString, password: ByteString, peerInfo: ByteString)

  // ---------------------------------------------------------------------------------------------
  // Length-prefixed strings
  // ---------------------------------------------------------------------------------------------

  function StripNul(s: ByteString): ByteString {
    if s != [] && s[|s| - 1] == 0 then s[..|s| - 1] else s
  }

  /** The string at `off` and the offset after it, or nothing if the buffer is too short. */
  function ReadLp(buf: ByteString, off: nat): (r: Option<(ByteString, nat)>)
    ensures r.Some? ==> off + 2 <= r.value.1 <= |buf|
  {
    if |buf| < off + 2 then None
    else
      var len := U16(buf[off..off + 2]);
      if |buf| < off + 2 + len then None
      else Some((StripNul(buf[off + 2..off + 2 + len]), off + 2 + len))
  }

  /** The length is cast to 16 bits. */
  function WriteLp(s: ByteString): (r: ByteString)
    ensures |r| == |s| + 3
  {
    ToBe(W16, |s| + 1) + s + [0]
  }

  /** `n` strings in a row. */
  function ReadStrings(buf: ByteString, off: nat, n: nat): (r: Option<(seq<ByteString>, nat)>)
    ensures r.Some? ==> |r.value.0| == n && off <= r.value.1 && (n > 0 ==> r.value.1 <= |buf|)
    decreases n
  {
    if n == 0 then Some(([], off))
    else
      match ReadLp(buf, off)
      case None => None
      case Some(first) =>
        match ReadStrings(buf, first.1, n - 1)
        case None => None
        case Some(rest) => Some(([first.0] + rest.0, rest.1))
  }

  function WriteStrings(strings: seq<ByteString>): ByteString {
    if strings == [] then [] else WriteLp(strings[0]) + WriteStrings(strings[1..])
  }

  lemma ReadLpExtends(buf: ByteString, off: nat, ext: ByteString)
    requires ReadLp(buf, off).Some?
    ensures ReadLp(buf + ext, off) == ReadLp(buf, off)
  {
    assert (buf + ext)[off..off + 2] == buf[off..off + 2];
    var end := ReadLp(buf, off).value.1;
    assert (buf + ext)[off + 2..end] == buf[off + 2..end];
  }

  lemma ReadLpNeedsAll(buf: ByteString, off: nat, k: nat)
    requires ReadLp(buf, off).Some? && k < ReadLp(buf, off).value.1
    ensures ReadLp(buf[..k], off) == None
  {
    if k >= off + 2 {
      assert buf[..k][off..off + 2] == buf[off..off + 2];
    }
  }

  lemma {:induction false} ReadStringsExtends(buf: ByteString, off: nat, n: nat, ext: ByteString)
    requires ReadStrings(buf, off, n).Some?
    ensures ReadStrings(buf + ext, off, n) == ReadStrings(buf, off, n)
    decreases n
  {
    if n > 0 {
      ReadLpExtends(buf, off, ext);
      ReadStringsExtends(buf, ReadLp(buf, off).value.1, n - 1, ext);
    }
  }

  lemma {:induction false} ReadStringsNeedsAll(buf: ByteString, off: nat, n: nat, k: nat)
    requires ReadStrings(buf, off, n).Some? && off <= k < ReadStrings(buf, off, n).value.1
    ensures ReadStrings(buf[..k], off, n) == None
    decreases n
  {
    var next := ReadLp(buf, off).value.1;
    if k < next {
      ReadLpNeedsAll(buf, off, k);
    } else {
      assert buf == buf[..k] + buf[k..];
      if ReadLp(buf[..k], off).Some? {
        ReadLpExtends(buf[..k], off, buf[k..]);
        ReadStringsNeedsAll(buf, next, n - 1, k);
      }
    }
  }

  lemma LpLength(buf: ByteString, off: nat, s: ByteString)
    requires off + |s| + 3 <= |buf| && buf[off..off + |s| + 3] == WriteLp(s)
    ensures U16(buf[off..off + 2]) == (|s| + 1) % 0x1_0000
    ensures buf[off + 2..off + 2 + (|s| + 1)] == s + [0]
  {
    var slice := buf[off..off + |s| + 3];
    assert buf[off..off + 2] == slice[..2] == ToBe(W16, |s| + 1);
    assert buf[off + 2..off + 2 + (|s| + 1)] == slice[2..] == s + [0];
    U16OfWide(|s| + 1);
  }

  lemma ReadLpIs(buf: ByteString, off: nat, len: nat)
    requires off + 2 + len <= |buf| && U16(buf[off..off + 2]) == len
    ensures ReadLp(buf, off) == Some((StripNul(buf[off + 2..off + 2 + len]), off + 2 + len))
  {}

  /** A written string that stands at `off` reads back exactly when its length fits the 16-bit field. */
  lemma LpAt(buf: ByteString, off: nat, s: ByteString)
    requires off + |s| + 3 <= |buf| && buf[off..off + |s| + 3] == WriteLp(s)
    ensures |s| <= MAX_STRING ==> ReadLp(buf, off) == Some((s, off + |s| + 3))
    ensures |s| > MAX_STRING ==> ReadLp(buf, off).None? || ReadLp(buf, off).value.0 != s
  {
    LpLength(buf, off, s);
    var len := (|s| + 1) % 0x1_0000;
    ReadLpIs(buf, off, len);
    if |s| <= MAX_STRING {
      assert StripNul(s + [0]) == s;
    } else {
      assert len < |s|;
    }
  }

  /** What stands between the length and the end, without one closing NUL if there is one. */
  predicate IsTextOf(s: ByteString, raw: ByteString) {
    raw == s + [0] || (raw == s && (s == [] || s[|s| - 1] != 0))
  }

  lemma StripNulIs(s: ByteString, raw: ByteString)
    ensures StripNul(raw) == s <==> IsTextOf(s, raw)
  {
    if raw != [] && raw[|raw| - 1] == 0 {
      assert raw == raw[..|raw| - 1] + [0];
    }
  }

  /** By offsets, for any buffer: a string is read exactly if its two length bytes and that many more are
      there, with or without a closing NUL. */
  lemma LpReadsExactly(buf: ByteString, off: nat, s: ByteString, end: nat)
    ensures ReadLp(buf, off) == Some((s, end)) <==>
              && off + 2 <= end <= |buf| && end - off - 2 == 256 * (buf[off] as int) + buf[off + 1]
              && IsTextOf(s, buf[off + 2..end])
  {
    if off + 2 <= |buf| {
      TwoByteValue(buf[off..off + 2]);
      if off + 2 <= end <= |buf| {
        StripNulIs(s, buf[off + 2..end]);
      }
    }
  }

  lemma LpRoundTrip(head: ByteString, s: ByteString, rest: ByteString)
    ensures ReadLp(head + WriteLp(s) + rest, |head|) == Some((s, |head| + |s| + 3)) <==> |s| <= MAX_STRING
    ensures |s| > MAX_STRING ==>
              match ReadLp(head + WriteLp(s) + rest, |head|) case Some(r) => r.0 != s case None => true
  {
    var buf := head + WriteLp(s) + rest;
    assert buf[|head|..|head| + |s| + 3] == WriteLp(s);
    LpAt(buf, |head|, s);
  }

  lemma ReadStringsCons(buf: ByteString, off: nat, n: nat, s: ByteString, tail: seq<ByteString>, end: nat)
    requires n == |tail| + 1
    ensures ReadStrings(buf, off, n) == Some(([s] + tail, end))
        <==> (&& ReadLp(buf, off).Some? && ReadLp(buf, off).value.0 == s
              && ReadStrings(buf, ReadLp(buf, off).value.1, n - 1) == Some((tail, end)))
  {
    if ReadStrings(buf, off, n).Some? {
      var t := ReadStrings(buf, ReadLp(buf, off).value.1, n - 1).value.0;
      assert ReadStrings(buf, off, n).value.0[1..] == t && ([s] + tail)[1..] == tail;
    }
  }

  predicate Fit(strings: seq<ByteString>) {
    forall s | s in strings :: |s| <= MAX_STRING
  }

  lemma FitCons(s: ByteString, tail: seq<ByteString>)
    ensures Fit([s] + tail) <==> |s| <= MAX_STRING && Fit(tail)
  {
    assert forall t :: t in [s] + tail <==> t == s || t in tail;
  }

  lemma Assoc(a: ByteString, b: ByteString, c: ByteString)
    ensures (a + b) + c == a + (b + c)
  {}

  /** One string read, the others as given by `next`. */
  lemma StringsStep(buf: ByteString, off: nat, strings: seq<ByteString>, end: nat, next: nat)
    requires strings != []
    requires |strings[0]| <= MAX_STRING ==>
               && ReadLp(buf, off) == Some((strings[0], next))
               && (ReadStrings(buf, next, |strings| - 1) == Some((strings[1..], end)) <==> Fit(strings[1..]))
    requires |strings[0]| > MAX_STRING ==> ReadLp(buf, off).None? || ReadLp(buf, off).value.0 != strings[0]
    ensures ReadStrings(buf, off, |strings|) == Some((strings, end)) <==> Fit(strings)
  {
    assert strings == [strings[0]] + strings[1..];
    ReadStringsCons(buf, off, |strings|, strings[0], strings[1..], end);
    FitCons(strings[0], strings[1..]);
  }

  lemma WriteStringsCons(strings: seq<ByteString>)
    requires strings != []
    ensures WriteStrings(strings) == WriteLp(strings[0]) + WriteStrings(strings[1..])
  {}

  /** The written strings stand in `buf` one after the other, from `off` to `end`. */
  ghost predicate LaidOut(buf: ByteString, off: nat, strings: seq<ByteString>, end: nat)
    decreases |strings|
  {
    if strings == [] then off == end
    else
      var next := off + |strings[0]| + 3;
      next <= |buf| && buf[off..next] == WriteLp(strings[0]) && LaidOut(buf, next, strings[1..], end)
  }

  lemma LaidOutStep(buf: ByteString, off: nat, strings: seq<ByteString>, end: nat, next: nat, n: nat)
    requires strings != [] && n + 1 == |strings|
    requires next == off + |strings[0]| + 3 && next <= |buf| && buf[off..next] == WriteLp(strings[0])
    requires ReadStrings(buf, next, n) == Some((strings[1..], end)) <==> Fit(strings[1..])
    ensures ReadStrings(buf, off, |strings|) == Some((strings, end)) <==> Fit(strings)
  {
    LpAt(buf, off, strings[0]);
    StringsStep(buf, off, strings, end, next);
  }

  lemma {:induction false} LaidOutReads(buf: ByteString, off: nat, strings: seq<ByteString>, end: nat)
    requires LaidOut(buf, off, strings, end)
    ensures ReadStrings(buf, off, |strings|) == Some((strings, end)) <==> Fit(strings)
    decreases |strings|
  {
    if strings != [] {
      var next := off + |strings[0]| + 3;
      LaidOutReads(buf, next, strings[1..], end);
      LaidOutStep(buf, off, strings, end, next, |strings[1..]|);
    }
  }

  lemma SliceOf(buf: ByteString, head: ByteString, part: ByteString, rest: ByteString)
    requires buf == head + (part + rest)
    ensures |head| + |part| <= |buf| && buf[|head|..|head| + |part|] == part
    ensures buf == (head + part) + rest
  {}

  lemma {:induction false} WrittenLaidOut(buf: ByteString, head: ByteString, strings: seq<ByteString>, rest: ByteString)
    requires buf == head + (WriteStrings(strings) + rest)
    ensures LaidOut(buf, |head|, strings, |head| + |WriteStrings(strings)|)
    decreases |strings|
  {
    if strings != [] {
      var first, later := WriteLp(strings[0]), WriteStrings(strings[1..]);
      WriteStringsCons(strings);
      Assoc(first, later, rest);
      SliceOf(buf, head, first, later + rest);
      WrittenLaidOut(buf, head + first, strings[1..], rest);
    }
  }

  /** Written strings read back, whatever stands before and after them, exactly when they fit. */
  lemma StringsRoundTrip(head: ByteString, strings: seq<ByteString>, rest: ByteString, n: nat, end: nat)
    requires n == |strings| && end == |head| + |WriteStrings(strings)|
    ensures ReadStrings(head + (WriteStrings(strings) + rest), |head|, n) == Some((strings, end)) <==> Fit(strings)
  {
    var buf := head + (WriteStrings(strings) + rest);
    WrittenLaidOut(buf, head, strings, rest);
    LaidOutReads(buf, |head|, strings, end);
  }

  // ---------------------------------------------------------------------------------------------
  // The client's key-method-2 packet
  // ---------------------------------------------------------------------------------------------

  /** The packet whose fixed part starts `buf` and whose strings are `s`. */
  function Assemble(buf: ByteString, s: seq<ByteString>): ClientKeyMethod2
    requires |buf| >= FIXED_LEN && |s| == STRING_COUNT
  {
    ClientKeyMethod2(buf[5..53], buf[53..85], buf[85..117], s[0], s[1], s[2], s[3])
  }

  function TryParse(buf: ByteString): (r: Pop<ClientKeyMethod2>)
    ensures r.Ready? ==> FIXED_LEN <= r.used <= |buf|
  {
    if |buf| < FIXED_LEN then NeedMore
    else if buf[0..4] != ZEROS || buf[4] != KEY_METHOD_2 then Malformed
    else
      match ReadStrings(buf, FIXED_LEN, STRING_COUNT)
      case None => NeedMore
      case Some((s, end)) => Ready(Assemble(buf, s), end)
  }

  lemma AssembleExtends(buf: ByteString, ext: ByteString, s: seq<ByteString>)
    requires |buf| >= FIXED_LEN && |s| == STRING_COUNT
    ensures (buf + ext)[0..4] == buf[0..4] && (buf + ext)[4] == buf[4]
    ensures Assemble(buf + ext, s) == Assemble(buf, s)
  {}

  /** Once a verdict other than NeedMore is reached, later bytes cannot change it. */
  lemma TryParseExtends(buf: ByteString, ext: ByteString)
    requires !TryParse(buf).NeedMore?
    ensures TryParse(buf + ext) == TryParse(buf)
  {
    AssembleExtends(buf, ext, [[], [], [], []]);
    if TryParse(buf).Ready? {
      ReadStringsExtends(buf, FIXED_LEN, STRING_COUNT, ext);
      AssembleExtends(buf, ext, ReadStrings(buf, FIXED_LEN, STRING_COUNT).value.0);
    }
  }

  /** The parser never answers early: every strict prefix of a complete packet needs more bytes. */
  lemma TryParseNeedsAll(buf: ByteString, k: nat)
    requires TryParse(buf).Ready? && k < TryParse(buf).used
    ensures TryParse(buf[..k]) == NeedMore
  {
    if k >= FIXED_LEN {
      assert buf[..k][0..4] == buf[0..4] && buf[..k][4] == buf[4];
      ReadStringsNeedsAll(buf, FIXED_LEN, STRING_COUNT, k);
    }
  }

  predicate Fields(km: ClientKeyMethod2) {
    |km.preMaster| == 48 && |km.random1| == 32 && |km.random2| == 32
  }

  function Strings(km: ClientKeyMethod2): seq<ByteString> {
    [km.options, km.username, km.password, km.peerInfo]
  }

  function ClientHead(km: ClientKeyMethod2): (h: ByteString)
    ensures Fields(km) ==> |h| == FIXED_LEN
  {
    ZEROS + [KEY_METHOD_2] + km.preMaster + km.random1 + km.random2
  }

  /** The layout the client sends. */
  function ClientLayout(km: ClientKeyMethod2): ByteString {
    ClientHead(km) + WriteStrings(Strings(km))
  }

  lemma HeadAssembles(km: ClientKeyMethod2)
    requires Fields(km)
    ensures ClientHead(km)[0..4] == ZEROS && ClientHead(km)[4] == KEY_METHOD_2
    ensures Assemble(ClientHead(km), Strings(km)) == km
  {}

  /** Whatever follows it in the stream, a printed packet parses to itself, consuming exactly its
      own bytes, if and only if all four strings fit their length fields. */
  lemma ClientRoundTrip(km: ClientKeyMethod2, rest: ByteString)
    requires Fields(km)
    ensures TryParse(ClientLayout(km) + rest) == Ready(km, |ClientLayout(km)|)
        <==> Fit(Strings(km))
  {
    HeadAssembles(km);
    LayoutRoundTrip(ClientHead(km), Strings(km), rest);
  }

  lemma LayoutRoundTrip(head: ByteString, strings: seq<ByteString>, rest: ByteString)
    requires |head| == FIXED_LEN && head[0..4] == ZEROS && head[4] == KEY_METHOD_2 && |strings| == STRING_COUNT
    ensures TryParse(head + WriteStrings(strings) + rest)
              == Ready(Assemble(head, strings), |head| + |WriteStrings(strings)|)
        <==> Fit(strings)
  {
    var after, end := WriteStrings(strings) + rest, |head| + |WriteStrings(strings)|;
    Assoc(head, WriteStrings(strings), rest);
    StringsRoundTrip(head, strings, rest, STRING_COUNT, end);
    ParseAfterHead(head, after, strings, end);
  }

  lemma ParseAfterHead(head: ByteString, after: ByteString, strings: seq<ByteString>, end: nat)
    requires |head| == FIXED_LEN && head[0..4] == ZEROS && head[4] == KEY_METHOD_2 && |strings| == STRING_COUNT
    ensures TryParse(head + after) == Ready(Assemble(head, strings), end)
        <==> ReadStrings(head + after, FIXED_LEN, STRING_COUNT) == Some((strings, end))
  {
    AssembleExtends(head, after, strings);
    TryParseByStrings(head + after, strings, end);
  }

  lemma TryParseByStrings(buf: ByteString, s: seq<ByteString>, end: nat)
    requires |buf| >= FIXED_LEN && buf[0..4] == ZEROS && buf[4] == KEY_METHOD_2 && |s| == STRING_COUNT
    ensures TryParse(buf) == Ready(Assemble(buf, s), end)
        <==> ReadStrings(buf, FIXED_LEN, STRING_COUNT) == Some((s, end))
  {
    var r := ReadStrings(buf, FIXED_LEN, STRING_COUNT);
    if r.Some? {
      AssembleInjective(buf, r.value.0, s);
    }
  }

  lemma AssembleInjective(buf: ByteString, s: seq<ByteString>, t: seq<ByteString>)
    requires |buf| >= FIXED_LEN && |s| == |t| == STRING_COUNT
    ensures Assemble(buf, s) == Assemble(buf, t) <==> s == t
  {}

  // ---------------------------------------------------------------------------------------------
  // The server's reply, and text messages
  // ---------------------------------------------------------------------------------------------

  datatype ServerKeyMethod2 = ServerKeyMethod2(
    random1: ByteString, random2: ByteString,
    options: ByteString, username: ByteString, password: ByteString, peerInfo: ByteString)

  function ServerHead(km: ServerKeyMethod2): (h: ByteString)
    ensures |km.random1| == |km.random2| == 32 ==> |h| == 69
  {
    ZEROS + [KEY_METHOD_2] + km.random1 + km.random2
  }

  function ServerStrings(km: ServerKeyMethod2): seq<ByteString> {
    [km.options, km.username, km.password, km.peerInfo]
  }

  function EncodeServer(km: ServerKeyMethod2): ByteString {
    ServerHead(km) + WriteStrings(ServerStrings(km))
  }

  /** The reply starts with the method, the two randoms in order, and then its strings. */
  lemma ServerRandomsReadBack(km: ServerKeyMethod2)
    requires |km.random1| == |km.random2| == 32
    ensures |EncodeServer(km)| >= 69
    ensures EncodeServer(km)[0..4] == ZEROS && EncodeServer(km)[4] == KEY_METHOD_2
    ensures EncodeServer(km)[5..37] == km.random1 && EncodeServer(km)[37..69] == km.random2
  {}

  /** A peer that reads the reply by the same string rule recovers its four strings, again exactly
      when they fit. */
  lemma ServerStringsReadBack(km: ServerKeyMethod2, rest: ByteString)
    requires |km.random1| == |km.random2| == 32
    ensures var strings := [km.options, km.username, km.password, km.peerInfo];
            ReadStrings(EncodeServer(km) + rest, 69, STRING_COUNT) == Some((strings, |EncodeServer(km)|)) <==>
              Fit(strings)
  {
    Assoc(ServerHead(km), WriteStrings(ServerStrings(km)), rest);
    StringsRoundTrip(ServerHead(km), ServerStrings(km), rest, STRING_COUNT, |EncodeServer(km)|);
  }

  /** By offsets: where a complete packet carries its fields, and the order of its strings. */
  lemma ParsedFields(buf: ByteString, km: ClientKeyMethod2, n: nat)
    ensures TryParse(buf) == Ready(km, n) <==>
              && |buf| >= 117 && buf[..4] == [0, 0, 0, 0] && buf[4] == 2
              && km.preMaster == buf[5..53] && km.random1 == buf[53..85] && km.random2 == buf[85..117]
              && ReadStrings(buf, 117, STRING_COUNT)
                 == Some(([km.options, km.username, km.password, km.peerInfo], n))
  {
    if |buf| >= 117 {
      assert buf[0..4] == buf[..4];
      var r := ReadStrings(buf, 117, STRING_COUNT);
      if r.Some? {
        var s := r.value.0;
        assert s == [s[0], s[1], s[2], s[3]];
      }
    }
  }

  /** The parser refuses exactly a complete fixed part that does not start with four zeros and a 2. */
  lemma MalformedExactly(buf: ByteString)
    ensures TryParse(buf).Malformed? <==> |buf| >= 117 && !(buf[..4] == [0, 0, 0, 0] && buf[4] == 2)
  {
    if |buf| >= 117 {
      assert buf[0..4] == buf[..4];
    }
  }

  function FirstNul(buf: ByteString): (r: Option<nat>)
    ensures match r
            case Some(i) => i < |buf| && buf[i] == 0 && 0 !in buf[..i]
            case None => 0 !in buf
  {
    if buf == [] then None
    else if buf[0] == 0 then Some(0)
    else
      match FirstNul(buf[1..])
      case Some(i) => assert buf[..i + 1] == [buf[0]] + buf[1..][..i]; Some(i + 1)
      case None => assert buf == [buf[0]] + buf[1..]; None
  }

  function TryPopAscii(buf: ByteString): (r: Pop<ByteString>)
    ensures !r.Malformed?
    ensures r.Ready? ==> 0 < r.used <= |buf|
  {
    match FirstNul(buf)
    case Some(i) => Ready(buf[..i], i + 1)
    case None => NeedMore
  }

  /** A NUL-free message followed by its terminator and anything else pops as itself. */
  lemma AsciiRoundTrip(msg: ByteString, rest: ByteString)
    requires 0 !in msg
    ensures TryPopAscii(msg + [0] + rest) == Ready(msg, |msg| + 1)
  {
    var buf := msg + [0] + rest;
    assert buf[|msg|] == 0;
    assert buf[..|msg|] == msg;
  }

  lemma PopAsciiExtends(buf: ByteString, ext: ByteString)
    requires TryPopAscii(buf).Ready?
    ensures TryPopAscii(buf + ext) == TryPopAscii(buf)
  {
    var i := FirstNul(buf).value;
    var j := FirstNul(buf + ext);
    assert (buf + ext)[i] == 0;
    assert j.Some?;
    assert (buf + ext)[..i] == buf[..i];
  }

  // ---------------------------------------------------------------------------------------------
  // The same operations as the source performs them
  // ---------------------------------------------------------------------------------------------

  /** `read_lp_string`: advances the offset only when a whole string is there. */
  method ReadLpString(buf: ByteString, off: nat) returns (s: Option<ByteString>, off': nat)
    ensures match ReadLp(buf, off)
            case None => s == None && off' == off
            case Some(r) => s == Some(r.0) && off' == r.1
  {
    s, off' := None, off;
    if |buf| < off + 2 {
      return;
    }
    var len := U16(buf[off..off + 2]);
    if |buf| < off + 2 + len {
      return;
    }
    var start := off + 2;
    var end := start + len;
    off' := end;
    if len == 0 {
      s := Some([]);
      return;
    }
    var bytes := buf[start..end];
    var text := if bytes[|bytes| - 1] == 0 then bytes[..|bytes| - 1] else bytes;
    s := Some(text);
  }

  /** Four reads in a row. */
  function ReadFour(buf: ByteString, off: nat): Option<(seq<ByteString>, nat)> {
    match ReadLp(buf, off)
    case None => None
    case Some(a) =>
      match ReadLp(buf, a.1)
      case None => None
      case Some(b) =>
        match ReadLp(buf, b.1)
        case None => None
        case Some(c) => match ReadLp(buf, c.1) case None => None case Some(d) => Some(([a.0, b.0, c.0, d.0], d.1))
  }

  lemma ReadStringsStep(buf: ByteString, off: nat, n: nat, k: nat)
    requires n == k + 1
    ensures ReadStrings(buf, off, n) ==
      match ReadLp(buf, off)
      case None => None
      case Some(first) =>
        match ReadStrings(buf, first.1, k)
        case None => None
        case Some(rest) => Some(([first.0] + rest.0, rest.1))
  {}

  lemma ReadFourIs(buf: ByteString, off: nat, n4: nat, n3: nat, n2: nat, n1: nat)
    requires n4 == n3 + 1 && n3 == n2 + 1 && n2 == n1 + 1 && n1 == 1
    ensures ReadStrings(buf, off, n4) == ReadFour(buf, off)
  {
    ReadStringsStep(buf, off, n4, n3);
    var a := ReadLp(buf, off);
    if a.Some? {
      ReadStringsStep(buf, a.value.1, n3, n2);
      var b := ReadLp(buf, a.value.1);
      if b.Some? {
        ReadStringsStep(buf, b.value.1, n2, n1);
        var c := ReadLp(buf, b.value.1);
        if c.Some? {
          ReadStringsStep(buf, c.value.1, n1, 0);
          var d := ReadLp(buf, c.value.1);
          if d.Some? {
            OneByOne(a.value.0, b.value.0, c.value.0, d.value.0);
          }
        }
      }
    }
  }

  lemma OneByOne(a: ByteString, b: ByteString, c: ByteString, d: ByteString)
    ensures [a] + ([b] + ([c] + ([d] + []))) == [a, b, c, d]
  {}

  method TryParsePacket(buf: ByteString) returns (r: Pop<ClientKeyMethod2>)
    ensures r == TryParse(buf)
  {
    if |buf| < FIXED_LEN {
      return NeedMore;
    }
    if buf[0..4] != ZEROS {
      return Malformed;
    }
    if buf[4] != KEY_METHOD_2 {
      return Malformed;
    }
    ReadFourIs(buf, FIXED_LEN, STRING_COUNT, 3, 2, 1);
    var off := FIXED_LEN;
    var options, username, password, peerInfo;
    options, off := ReadLpString(buf, off);
    if options == None {
      return NeedMore;
    }
    username, off := ReadLpString(buf, off);
    if username == None {
      return NeedMore;
    }
    password, off := ReadLpString(buf, off);
    if password == None {
      return NeedMore;
    }
    peerInfo, off := ReadLpString(buf, off);
    if peerInfo == None {
      return NeedMore;
    }
    return Ready(ClientKeyMethod2(buf[5..53], buf[53..85], buf[85..117],
                                  options.value, username.value, password.value, peerInfo.value), off);
  }

  method WriteLpString(out: ByteString, s: ByteString) returns (out': ByteString)
    ensures out' == out + WriteLp(s)
  {
    var len := |s| + 1;
    out' := out + ToBe(W16, len);
    out' := out' + s;
    out' := out' + [0];
  }

  lemma FourStrings(head: ByteString, a: ByteString, b: ByteString, c: ByteString, d: ByteString)
    ensures head + WriteStrings([a, b, c, d]) == head + WriteLp(a) + WriteLp(b) + WriteLp(c) + WriteLp(d)
  {
    var wa, wb, wc, wd := WriteLp(a), WriteLp(b), WriteLp(c), WriteLp(d);
    assert WriteStrings([d]) == wd by { WriteStringsCons([d]); assert [d][1..] == []; }
    assert WriteStrings([c, d]) == wc + wd by { WriteStringsCons([c, d]); assert [c, d][1..] == [d]; }
    assert WriteStrings([b, c, d]) == wb + (wc + wd) by {
      WriteStringsCons([b, c, d]);
      assert [b, c, d][1..] == [c, d];
    }
    assert WriteStrings([a, b, c, d]) == wa + (wb + (wc + wd)) by {
      WriteStringsCons([a, b, c, d]);
      assert [a, b, c, d][1..] == [b, c, d];
    }
    FiveParts(head, wa, wb, wc, wd);
  }

  lemma FiveParts(h: ByteString, a: ByteString, b: ByteString, c: ByteString, d: ByteString)
    ensures h + (a + (b + (c + d))) == h + a + b + c + d
  {}

  /** `ServerKeyMethod2::encode` */
  method EncodeServerPacket(km: ServerKeyMethod2) returns (out: ByteString)
    ensures out == EncodeServer(km)
  {
    out := ZEROS;
    out := out + [KEY_METHOD_2];
    out := out + km.random1;
    out := out + km.random2;
    FourStrings(out, km.options, km.username, km.password, km.peerInfo);
    out := WriteLpString(out, km.options);
    out := WriteLpString(out, km.username);
    out := WriteLpString(out, km.password);
    out := WriteLpString(out, km.peerInfo);
  }
}
