/** From a datagram to the notification packet, and from the packet to what the subscriber reads. */
module Notification {
  import opened Bytes
  import opened Framing

  const NOTIFICATION_ACTION: Octet := Oct(4)

  const INT := 0
  const SHORT_REAL := 1
  const FLOAT := 2
  const STRING := 3

  const TOPIC_SIZE := 50
  const MAX_STRING := 1500
  const MAX_DATAGRAM := 1552
  const ORIGIN_SIZE := 20

  /** Offset of the value inside a notification: topic and its terminator, type, port, address. */
  const VALUE_AT := 72

  /** The sender's port and address as the packet carries them. */
  type Origin = s: seq<Octet> | |s| == ORIGIN_SIZE witness Zeros(ORIGIN_SIZE)

  datatype Value =
    | IntValue(negative: bool, magnitude: nat)
    | ShortReal(hundredths: nat)
    | Float(negative: bool, magnitude: nat, exponent: nat)
    | Text(text: seq<Octet>)

  datatype Notice = Notice(topic: seq<Octet>, origin: seq<Octet>, kind: nat, value: Value)

  /** The receive buffer after a datagram arrives in a cleared buffer. */
  function Arrived(d: seq<Octet>): (b: seq<Octet>)
    requires |d| <= MAX_DATAGRAM
    ensures |b| == MAX_LEN
  {
    d + Zeros(MAX_LEN - |d|)
  }

  predicate KnownType(b: seq<Octet>) {
    |b| == MAX_LEN && b[TOPIC_SIZE] as int <= STRING
  }

  /** How many bytes are copied for a type: a sign and a number, a number, a sign, a number and an
      exponent, or the longest string and a terminator. */
  function CopiedWidth(kind: nat): (n: nat)
    ensures 2 <= n <= MAX_STRING + 1
  {
    if kind == INT then 5 else if kind == SHORT_REAL then 2 else if kind == FLOAT then 6 else MAX_STRING + 1
  }

  /** The value bytes the broker forwards: fixed widths, or the string up to and with its terminator. */
  function ValueBytes(b: seq<Octet>): (v: seq<Octet>)
    requires KnownType(b)
    ensures |v| <= MAX_STRING + 1
  {
    var at := TOPIC_SIZE + 1;
    var kind := b[TOPIC_SIZE] as int;
    if kind == STRING then CString(b[at..at + MAX_STRING]) + [NUL] else b[at..at + CopiedWidth(kind)]
  }

  function NotificationFrame(b: seq<Octet>, origin: Origin): (f: Frame)
    requires KnownType(b)
    ensures WellFormed(f) && |f.payload| == VALUE_AT + |ValueBytes(b)|
  {
    Frame(NOTIFICATION_ACTION, b[..TOPIC_SIZE] + [NUL] + [b[TOPIC_SIZE]] + origin + ValueBytes(b))
  }

  predicate EnoughFor(kind: nat, payload: seq<Octet>) {
    && (kind == INT ==> |payload| >= 5)
    && (kind == SHORT_REAL ==> |payload| >= 2)
    && (kind == FLOAT ==> |payload| >= 6)
  }

  /** The value at the start of `payload`, by type. */
  function ReadValue(kind: nat, payload: seq<Octet>): Value
    requires EnoughFor(kind, payload)
  {
    if kind == INT then IntValue(payload[0] == Oct(1), BeNat(payload[1..5]))
    else if kind == SHORT_REAL then ShortReal(BeNat(payload[..2]))
    else if kind == FLOAT then Float(payload[0] == Oct(1), BeNat(payload[1..5]), payload[5] as int)
    else Text(CString(payload))
  }

  /** What the datagram in `b` says. */
  function Meaning(b: seq<Octet>, origin: Origin): Notice
    requires KnownType(b)
  {
    var kind := b[TOPIC_SIZE] as int;
    var at := TOPIC_SIZE + 1;
    Notice(CString(b[..TOPIC_SIZE]), origin, kind, ReadValue(kind, b[at..at + MAX_STRING]))
  }

  /** What the subscriber finds in its receive buffer, at the packet's fixed offsets. */
  function Decode(r: seq<Octet>): Notice
    requires |r| == MAX_LEN
  {
    var n := r[HEADER_SIZE..];
    Notice(CString(n), n[52..VALUE_AT], n[51] as int, ReadValue(n[51] as int, n[VALUE_AT..]))
  }

  /** A value read from the forwarded bytes, followed by anything, is the value in the datagram. */
  lemma ValueSurvives(b: seq<Octet>, stale: seq<Octet>)
    requires KnownType(b)
    ensures var kind := b[TOPIC_SIZE] as int; var at := TOPIC_SIZE + 1;
            && EnoughFor(kind, ValueBytes(b) + stale)
            && ReadValue(kind, ValueBytes(b) + stale) == ReadValue(kind, b[at..at + MAX_STRING])
  {
    var kind := b[TOPIC_SIZE] as int;
    var field := b[TOPIC_SIZE + 1..TOPIC_SIZE + 1 + MAX_STRING];
    var sent := ValueBytes(b) + stale;
    if kind == STRING {
      CStringOfField(CString(field), stale);
      CStringIs(CString(field), []);
      assert CString(field) + [] == CString(field);
    } else if kind == SHORT_REAL {
      assert ValueBytes(b) == field[..2];
      assert sent[..2] == field[..2];
    } else {
      assert ValueBytes(b) == field[..if kind == INT then 5 else 6];
      assert sent[1..5] == field[1..5];
    }
  }

  /** Where the fields of a notification are. */
  lemma Layout(b: seq<Octet>, origin: Origin, stale: seq<Octet>)
    requires KnownType(b)
    ensures var n := NotificationFrame(b, origin).payload + stale;
            && n[..TOPIC_SIZE + 1] == b[..TOPIC_SIZE] + [NUL] && n[51] == b[TOPIC_SIZE]
            && n[52..VALUE_AT] == origin && n[VALUE_AT..] == ValueBytes(b) + stale
  {}

  /** Encode, lay over any stale buffer, decode: nothing of the datagram is lost or changed. */
  lemma DecodeEncode(b: seq<Octet>, origin: Origin, stale: seq<Octet>)
    requires KnownType(b) && |Serialize(NotificationFrame(b, origin))| + |stale| == MAX_LEN
    ensures Decode(Serialize(NotificationFrame(b, origin)) + stale) == Meaning(b, origin)
  {
    var f := NotificationFrame(b, origin);
    var n := f.payload + stale;
    assert (Serialize(f) + stale)[HEADER_SIZE..] == n;
    Layout(b, origin, stale);
    assert n == n[..TOPIC_SIZE + 1] + n[TOPIC_SIZE + 1..];
    CStringOfField(b[..TOPIC_SIZE], n[TOPIC_SIZE + 1..]);
    ValueSurvives(b, stale);
  }

  /** A string of up to 1500 bytes, terminated or not, arrives as its longest terminator-free prefix,
      and the packet counts that prefix plus one terminator. */
  lemma StringDatagram(d: seq<Octet>, origin: Origin)
    requires TOPIC_SIZE < |d| <= MAX_DATAGRAM && d[TOPIC_SIZE] as int == STRING
    ensures var text := d[TOPIC_SIZE + 1..if |d| <= TOPIC_SIZE + 1 + MAX_STRING then |d| else TOPIC_SIZE + 1 + MAX_STRING];
            && KnownType(Arrived(d))
            && Meaning(Arrived(d), origin).value == Text(CString(text))
            && |NotificationFrame(Arrived(d), origin).payload| == VALUE_AT + |CString(text)| + 1
  {
    var b := Arrived(d);
    var at := TOPIC_SIZE + 1;
    var field := b[at..at + MAX_STRING];
    var text := d[at..if |d| <= at + MAX_STRING then |d| else at + MAX_STRING];
    var tail := field[|text|..];
    assert field == text + tail;
    if tail == [] {
      assert field == text;
    } else {
      assert tail[0] == NUL;
      assert field == text + [NUL] + tail[1..];
      CStringOfField(text, tail[1..]);
    }
  }

  // ---------------------------------------------------------------------------
  // Datagrams as publishers write them

  /** A value within the widths of its type. */
  predicate InRange(v: Value) {
    match v
    case IntValue(_, magnitude) => magnitude < Pow256(4)
    case ShortReal(hundredths) => hundredths < Pow256(2)
    case Float(_, magnitude, exponent) => magnitude < Pow256(4) && exponent < 256
    case Text(text) => |text| <= MAX_STRING && NUL !in text
  }

  function KindOf(v: Value): (kind: nat)
    ensures kind <= STRING
  {
    match v
    case IntValue(_, _) => INT
    case ShortReal(_) => SHORT_REAL
    case Float(_, _, _) => FLOAT
    case Text(_) => STRING
  }

  function SignOctet(negative: bool): Octet {
    if negative then Oct(1) else Oct(0)
  }

  /** Sign octets before magnitudes, numbers in network order, text as it is. */
  function Written(v: Value): (s: seq<Octet>)
    requires InRange(v)
    ensures |s| <= MAX_STRING
  {
    match v
    case IntValue(negative, magnitude) => [SignOctet(negative)] + BeBytes(magnitude, 4)
    case ShortReal(hundredths) => BeBytes(hundredths, 2)
    case Float(negative, magnitude, exponent) => [SignOctet(negative)] + BeBytes(magnitude, 4) + [Oct(exponent)]
    case Text(text) => text
  }

  /** A publisher's datagram: the topic padded to its field, the type, the value. */
  function DatagramOf(topic: seq<Octet>, v: Value): (d: seq<Octet>)
    requires |topic| <= TOPIC_SIZE && InRange(v)
    ensures |d| <= MAX_DATAGRAM
  {
    topic + Zeros(TOPIC_SIZE - |topic|) + [Oct(KindOf(v))] + Written(v)
  }

  /** A written value, followed by terminators, reads as that value. */
  lemma WrittenReads(v: Value, n: nat)
    requires InRange(v) && |Written(v)| + n >= 6
    ensures EnoughFor(KindOf(v), Written(v) + Zeros(n)) && ReadValue(KindOf(v), Written(v) + Zeros(n)) == v
  {
    var s := Written(v) + Zeros(n);
    match v {
      case IntValue(_, magnitude) =>
        assert s[1..5] == BeBytes(magnitude, 4);
        BeRoundTrip(magnitude, BeBytes(magnitude, 4));
      case ShortReal(hundredths) =>
        assert s[..2] == BeBytes(hundredths, 2);
        BeRoundTrip(hundredths, BeBytes(hundredths, 2));
      case Float(_, magnitude, _) =>
        assert s[1..5] == BeBytes(magnitude, 4);
        BeRoundTrip(magnitude, BeBytes(magnitude, 4));
      case Text(text) =>
        CStringIs(text, Zeros(n));
    }
  }

  lemma DatagramLayout(field: seq<Octet>, kind: Octet, value: seq<Octet>)
    requires |field| == TOPIC_SIZE && |value| <= MAX_STRING
    ensures var b := Arrived(field + [kind] + value); var at := TOPIC_SIZE + 1;
            && b[..TOPIC_SIZE] == field && b[TOPIC_SIZE] == kind
            && b[at..at + MAX_STRING] == value + Zeros(MAX_STRING - |value|)
  {
    var b := Arrived(field + [kind] + value);
    var tail := value + Zeros(MAX_LEN - TOPIC_SIZE - 1 - |value|);
    assert b == field + [kind] + tail;
    assert b[TOPIC_SIZE + 1..] == tail;
    assert b[TOPIC_SIZE + 1..TOPIC_SIZE + 1 + MAX_STRING] == tail[..MAX_STRING];
    assert tail[..MAX_STRING] == value + Zeros(MAX_STRING - |value|);
  }

  /** Whatever is published is what the datagram means: topic, type and value. */
  lemma PublishedIsMeant(topic: seq<Octet>, v: Value, origin: Origin)
    requires |topic| <= TOPIC_SIZE && NUL !in topic && InRange(v)
    ensures KnownType(Arrived(DatagramOf(topic, v)))
    ensures Meaning(Arrived(DatagramOf(topic, v)), origin) == Notice(topic, origin, KindOf(v), v)
  {
    CStringIs(topic, Zeros(TOPIC_SIZE - |topic|));
    DatagramLayout(topic + Zeros(TOPIC_SIZE - |topic|), Oct(KindOf(v)), Written(v));
    WrittenReads(v, MAX_STRING - |Written(v)|);
  }

  /** The packet carries the value as it was written, and one terminator after a string; its header counts
      72 bytes more. */
  lemma ForwardedAsWritten(topic: seq<Octet>, v: Value, origin: Origin)
    requires |topic| <= TOPIC_SIZE && NUL !in topic && InRange(v)
    ensures KnownType(Arrived(DatagramOf(topic, v)))
    ensures var n := NotificationFrame(Arrived(DatagramOf(topic, v)), origin).payload;
            var ending := if v.Text? then [NUL] else [];
            |n| == 72 + |Written(v)| + |ending| && n[72..] == Written(v) + ending
  {
    var b := Arrived(DatagramOf(topic, v));
    DatagramLayout(topic + Zeros(TOPIC_SIZE - |topic|), Oct(KindOf(v)), Written(v));
    var field := b[TOPIC_SIZE + 1..TOPIC_SIZE + 1 + MAX_STRING];
    if v.Text? {
      CStringIs(v.text, Zeros(MAX_STRING - |v.text|));
    } else {
      assert ValueBytes(b) == field[..|Written(v)|];
      assert Written(v) + [] == Written(v);
    }
    Layout(b, origin, []);
    var n := NotificationFrame(b, origin).payload;
    assert n + [] == n && ValueBytes(b) + [] == ValueBytes(b);
  }

  lemma ValueWidths(b: seq<Octet>)
    requires KnownType(b)
    ensures var kind := b[50] as int;
            && (kind == 0 ==> ValueBytes(b) == b[51..56]) && (kind == 1 ==> ValueBytes(b) == b[51..53])
            && (kind == 2 ==> ValueBytes(b) == b[51..57]) && (kind == 3 ==> ValueBytes(b) == CString(b[51..1551]) + [NUL])
  {}

  lemma PayloadFields(b: seq<Octet>, origin: Origin)
    requires KnownType(b)
    ensures var n := NotificationFrame(b, origin).payload;
            && n[..50] == b[..50] && n[50] == NUL && n[51] == b[50] && n[52..72] == origin && n[72..] == ValueBytes(b)
  {
    var n := NotificationFrame(b, origin).payload;
    Layout(b, origin, []);
    assert n + [] == n && ValueBytes(b) + [] == ValueBytes(b);
    assert n[..51][..50] == n[..50] && n[..51][50] == n[50];
  }

  lemma SliceOfSlice(b: seq<Octet>, i: nat, n: nat, j: nat, k: nat)
    requires j <= k && i + k <= n <= |b|
    ensures b[i..n][j..k] == b[i + j..i + k]
  {
    var s, t := b[i..n][j..k], b[i + j..i + k];
    assert |s| == |t| && forall m :: 0 <= m < |s| ==> s[m] == t[m];
  }

  /** The bytes of a notification, offset by offset. */
  lemma NotificationBytes(b: seq<Octet>, origin: Origin)
    requires KnownType(b)
    ensures var s := Serialize(NotificationFrame(b, origin)); var kind := b[50] as int;
            && s[0] as int == 4
            && |s| - 5 == s[1] as int + 256 * s[2] as int + 65536 * s[3] as int + 16777216 * s[4] as int
            && s[5..55] == b[..50] && s[55] as int == 0 && s[56] == b[50] && s[57..77] == origin
            && (kind == 0 ==> |s| == 82 && s[77..] == b[51..56])
            && (kind == 1 ==> |s| == 79 && s[77..] == b[51..53])
            && (kind == 2 ==> |s| == 83 && s[77..] == b[51..57])
            && (kind == 3 ==> s[77..] == CString(b[51..1551]) + [NUL])
  {
    var f := NotificationFrame(b, origin);
    var s, n := Serialize(f), f.payload;
    FrameBytes(f);
    PayloadFields(b, origin);
    ValueWidths(b);
    SliceOfSlice(s, 5, |s|, 0, 50);
    SliceOfSlice(s, 5, |s|, 52, 72);
    SliceOfSlice(s, 5, |s|, 72, |n|);
    assert s[5..|s|] == n && n[0..50] == n[..50] && n[72..|n|] == n[72..];
    assert s[55] == n[50] && s[56] == n[51];
  }

  /** The fields of a datagram, octet by octet: the first octet of a number is its most significant, and
      only the sign octet 1 is a minus. */
  lemma MeaningOctets(b: seq<Octet>, origin: Origin)
    requires KnownType(b)
    ensures var n := Meaning(b, origin); var kind := b[50] as int;
            var word := 16777216 * b[52] as int + 65536 * b[53] as int + 256 * b[54] as int + b[55] as int;
            && n.topic == CString(b[..50]) && n.origin == origin && n.kind == kind
            && (kind == 0 ==> n.value == IntValue(b[51] as int == 1, word))
            && (kind == 1 ==> n.value == ShortReal(256 * b[51] as int + b[52] as int))
            && (kind == 2 ==> n.value == Float(b[51] as int == 1, word, b[56] as int))
            && (kind == 3 ==> n.value == Text(CString(b[51..1551])))
  {
    var field := b[51..1551];
    SliceOfSlice(b, 51, 1551, 1, 5);
    SliceOfSlice(b, 51, 1551, 0, 2);
    assert field[..2] == field[0..2] && field[5] == b[56];
    BeNatOfFour(b[52..56]);
    BeNatOfTwo(b[51..53]);
  }

  /** Every datagram means a value that could have been written. */
  lemma MeaningInRange(b: seq<Octet>, origin: Origin)
    requires KnownType(b)
    ensures InRange(Meaning(b, origin).value)
  {
    var field := b[TOPIC_SIZE + 1..TOPIC_SIZE + 1 + MAX_STRING];
    BeRoundTrip(0, field[1..5]);
    BeRoundTrip(0, field[..2]);
  }

  // ---------------------------------------------------------------------------
  // The code

  /** `s` with `bytes` laid over it at `at`. */
  function Spliced(s: seq<Octet>, at: nat, bytes: seq<Octet>): (r: seq<Octet>)
    requires at + |bytes| <= |s|
    ensures |r| == |s|
  {
    s[..at] + bytes + s[at + |bytes|..]
  }

  lemma SplicedAt(s: seq<Octet>, at: nat, bytes: seq<Octet>)
    requires at + |bytes| <= |s|
    ensures Spliced(s, at, bytes)[at..at + |bytes|] == bytes
  {}

  lemma SplicedElsewhere(s: seq<Octet>, at: nat, bytes: seq<Octet>, i: nat, j: nat)
    requires at + |bytes| <= |s| && i <= j <= |s| && (j <= at || at + |bytes| <= i)
    ensures Spliced(s, at, bytes)[i..j] == s[i..j]
  {}

  lemma SplicedTwice(s: seq<Octet>, at: nat, a: seq<Octet>, b: seq<Octet>)
    requires at + |a| + |b| <= |s|
    ensures Spliced(Spliced(s, at, a), at + |a|, b) == Spliced(s, at, a + b)
  {
    var t := Spliced(s, at, a);
    assert t[..at + |a|] == s[..at] + a;
    assert t[at + |a| + |b|..] == s[at + |a + b|..];
  }

  /** memcpy */
  method Copy(dst: array<Octet>, at: nat, bytes: seq<Octet>)
    requires at + |bytes| <= dst.Length
    modifies dst
    ensures dst[..] == Spliced(old(dst[..]), at, bytes)
  {
    forall i | 0 <= i < |bytes| {
      dst[at + i] := bytes[i];
    }
  }

  /** Forces a terminator after a string field and measures it. */
  method CutString(packet: array<Octet>, to: nat) returns (len: nat)
    requires packet.Length == to + MAX_STRING + 1
    modifies packet
    ensures len <= MAX_STRING + 1 && packet[to..to + len] == CString(old(packet[to..to + MAX_STRING])) + [NUL]
    ensures packet[..to] == old(packet[..to])
  {
    ghost var field := packet[to..to + MAX_STRING];
    packet[to + MAX_STRING] := NUL;
    var value := packet[to..];
    assert value == field + [NUL] + [];
    CStringOfField(field, []);
    len := |CString(value)| + 1;
    assert value[..len] == CString(field) + [NUL];
  }

  lemma CopiedValue(p: seq<Octet>, b: seq<Octet>, to: nat, len: nat)
    requires |b| == MAX_LEN && len <= MAX_STRING + 1 && |p| == to + MAX_STRING + 1
    ensures var at := TOPIC_SIZE + 1; var r := Spliced(p, to, b[at..at + len]);
            && r[..to] == p[..to] && r[to..to + len] == b[at..at + len]
            && (len == MAX_STRING + 1 ==> r[to..to + MAX_STRING] == b[at..at + MAX_STRING])
  {
    var at := TOPIC_SIZE + 1;
    var bytes := b[at..at + len];
    var r := Spliced(p, to, bytes);
    SplicedAt(p, to, bytes);
    SplicedElsewhere(p, to, bytes, 0, to);
    if len == MAX_STRING + 1 {
      assert r[to..to + len][..MAX_STRING] == r[to..to + MAX_STRING];
      assert bytes[..MAX_STRING] == b[at..at + MAX_STRING];
    }
  }

  /** The memcpy of the value, by type. */
  method CopyWidth(buff: array<Octet>, packet: array<Octet>, to: nat, len: nat)
    requires buff.Length == MAX_LEN && len <= MAX_STRING + 1
    requires packet != buff && packet.Length == to + MAX_STRING + 1
    modifies packet
    ensures packet[..to] == old(packet[..to])
    ensures packet[to..to + len] == buff[TOPIC_SIZE + 1..TOPIC_SIZE + 1 + len]
    ensures len == MAX_STRING + 1 ==>
      packet[to..to + MAX_STRING] == buff[TOPIC_SIZE + 1..TOPIC_SIZE + 1 + MAX_STRING]
  {
    var at := TOPIC_SIZE + 1;
    ghost var p, b := packet[..], buff[..];
    assert p[..to] == packet[..to] && b[at..at + len] == buff[at..at + len];
    assert b[at..at + MAX_STRING] == buff[at..at + MAX_STRING];
    CopiedValue(p, b, to, len);
    Copy(packet, to, buff[at..at + len]);
    assert packet[..][..to] == packet[..to] && packet[..][to..to + len] == packet[to..to + len];
    assert packet[..][to..to + MAX_STRING] == packet[to..to + MAX_STRING];
  }

  /** The value part of parse_udp_packet: copy by type, then cut a string at its terminator. */
  method CopyValue(buff: array<Octet>, packet: array<Octet>, to: nat) returns (len: nat)
    requires KnownType(buff[..]) && packet != buff && packet.Length == to + MAX_STRING + 1
    modifies packet
    ensures len == |ValueBytes(buff[..])| && packet[to..to + len] == ValueBytes(buff[..])
    ensures packet[..to] == old(packet[..to])
  {
    var at := TOPIC_SIZE + 1;
    var kind := buff[TOPIC_SIZE] as int;
    len := CopiedWidth(kind);
    ghost var b := buff[..];
    assert b[at..at + len] == buff[at..at + len] && b[at..at + MAX_STRING] == buff[at..at + MAX_STRING];
    CopyWidth(buff, packet, to, len);
    if kind == STRING {
      len := CutString(packet, to);
    }
    assert buff[..] == b && packet[to..to + len] == ValueBytes(b);
  }

  /** The topic, with a terminator forced after it, and the type. */
  method CopyTopic(buff: array<Octet>, packet: array<Octet>)
    requires buff.Length == MAX_LEN && packet != buff && packet.Length >= HEADER_SIZE + VALUE_AT
    modifies packet
    ensures packet[..] == Spliced(old(packet[..]), HEADER_SIZE, buff[..TOPIC_SIZE] + [NUL] + [buff[TOPIC_SIZE]])
  {
    ghost var p := packet[..];
    Copy(packet, HEADER_SIZE, buff[..TOPIC_SIZE]);
    Copy(packet, HEADER_SIZE + TOPIC_SIZE, [NUL]);
    SplicedTwice(p, HEADER_SIZE, buff[..TOPIC_SIZE], [NUL]);
    Copy(packet, HEADER_SIZE + TOPIC_SIZE + 1, [buff[TOPIC_SIZE]]);
    SplicedTwice(p, HEADER_SIZE, buff[..TOPIC_SIZE] + [NUL], [buff[TOPIC_SIZE]]);
  }

  /** The four regions make up the packet. */
  lemma Assembled(p: seq<Octet>, b: seq<Octet>, origin: Origin)
    requires KnownType(b) && |p| == HEADER_SIZE + VALUE_AT + MAX_STRING + 1
    requires p[..HEADER_SIZE] == [NOTIFICATION_ACTION] + Le32(VALUE_AT + |ValueBytes(b)|)
    requires p[HEADER_SIZE..HEADER_SIZE + 52] == b[..TOPIC_SIZE] + [NUL] + [b[TOPIC_SIZE]]
    requires p[HEADER_SIZE + 52..HEADER_SIZE + VALUE_AT] == origin
    requires p[HEADER_SIZE + VALUE_AT..HEADER_SIZE + VALUE_AT + |ValueBytes(b)|] == ValueBytes(b)
    ensures var bytes := Serialize(NotificationFrame(b, origin));
            |bytes| <= |p| && p[..|bytes|] == bytes
  {
    var i, j, k := HEADER_SIZE, HEADER_SIZE + 52, HEADER_SIZE + VALUE_AT;
    var n := k + |ValueBytes(b)|;
    assert p[..n] == p[..i] + (p[i..j] + p[j..k] + p[k..n]);
  }

  /** The sender's address and the header go in last and leave the other fields alone. */
  lemma FilledLast(p: seq<Octet>, header: seq<Octet>, origin: Origin, n: nat)
    requires |header| == HEADER_SIZE && HEADER_SIZE + VALUE_AT <= n <= |p|
    ensures var r := Spliced(Spliced(p, HEADER_SIZE + 52, origin), 0, header);
            && r[..HEADER_SIZE] == header && r[HEADER_SIZE..HEADER_SIZE + 52] == p[HEADER_SIZE..HEADER_SIZE + 52]
            && r[HEADER_SIZE + 52..HEADER_SIZE + VALUE_AT] == origin
            && r[HEADER_SIZE + VALUE_AT..n] == p[HEADER_SIZE + VALUE_AT..n]
  {
    var q := Spliced(p, HEADER_SIZE + 52, origin);
    SplicedAt(p, HEADER_SIZE + 52, origin);
    SplicedElsewhere(p, HEADER_SIZE + 52, origin, HEADER_SIZE, HEADER_SIZE + 52);
    SplicedElsewhere(p, HEADER_SIZE + 52, origin, HEADER_SIZE + VALUE_AT, n);
    SplicedAt(q, 0, header);
    SplicedElsewhere(q, 0, header, HEADER_SIZE, HEADER_SIZE + 52);
    SplicedElsewhere(q, 0, header, HEADER_SIZE + 52, HEADER_SIZE + VALUE_AT);
    SplicedElsewhere(q, 0, header, HEADER_SIZE + VALUE_AT, n);
  }

  lemma SlicePrefix(s: seq<Octet>, t: seq<Octet>, i: nat, j: nat, n: nat)
    requires i <= j <= n <= |s| && n <= |t| && s[..n] == t[..n]
    ensures s[i..j] == t[i..j]
  {
    assert s[..n][i..j] == s[i..j] && t[..n][i..j] == t[i..j];
  }

  /** parse_udp_packet up to the send: fills the packet field by field from the receive buffer. */
  method BuildNotification(buff: array<Octet>, origin: Origin) returns (packet: array<Octet>)
    requires KnownType(buff[..])
    ensures fresh(packet) && packet.Length == HEADER_SIZE + VALUE_AT + MAX_STRING + 1
    ensures var bytes := Serialize(NotificationFrame(buff[..], origin));
            |bytes| <= packet.Length && packet[..|bytes|] == bytes
  {
    var to := HEADER_SIZE + VALUE_AT;
    packet := new Octet[to + MAX_STRING + 1];
    ghost var b, p0 := buff[..], packet[..];
    ghost var field := b[..TOPIC_SIZE] + [NUL] + [b[TOPIC_SIZE]];
    CopyTopic(buff, packet);
    SplicedAt(p0, HEADER_SIZE, field);
    ghost var p1 := packet[..];
    var len := CopyValue(buff, packet, to);
    ghost var p2 := packet[..];
    SlicePrefix(p2, p1, HEADER_SIZE, HEADER_SIZE + 52, to);
    var header := [NOTIFICATION_ACTION] + Le32(VALUE_AT + len);
    Copy(packet, HEADER_SIZE + 52, origin);
    Copy(packet, 0, header);
    FilledLast(p2, header, origin, to + len);
    Assembled(packet[..], b, origin);
  }

  /** Sends the packet in a buffer over a stream and receives it, under any splitting, into another
      buffer that holds anything. */
  method Carry(packet: array<Octet>, ghost f: Frame, buffer: array<Octet>) returns (n: nat)
    requires WellFormed(f) && buffer.Length == MAX_LEN && packet != buffer
    requires |Serialize(f)| <= packet.Length && packet[..|Serialize(f)|] == Serialize(f)
    modifies buffer
    ensures n == |Serialize(f)| && buffer[..] == Serialize(f) + old(buffer[n..])
  {
    ghost var bytes := Serialize(f);
    assert packet[..] == bytes + packet[|bytes|..];
    FrameRoundTrip(f, packet[|bytes|..]);
    var sender := new Socket([]);
    var sent := SendTcpPacket(sender, packet);
    var receiver := new Socket(sender.outgoing);
    assert receiver.incoming == bytes + [];
    FrameRoundTrip(f, []);
    n := RecvTcpPacket(receiver, buffer);
    assert buffer[..] == buffer[..n] + buffer[n..];
  }

  /** One datagram all the way: built, sent and received under any splitting into a buffer that holds
      anything, and decoded. */
  method Deliver(buff: array<Octet>, origin: Origin, stale: array<Octet>) returns (notice: Notice)
    requires KnownType(buff[..]) && stale.Length == MAX_LEN && buff != stale
    modifies stale
    ensures notice == Meaning(buff[..], origin)
  {
    var packet := BuildNotification(buff, origin);
    ghost var f := NotificationFrame(buff[..], origin);
    var n := Carry(packet, f, stale);
    DecodeEncode(buff[..], origin, stale[n..]);
    notice := Decode(stale[..]);
  }
}
