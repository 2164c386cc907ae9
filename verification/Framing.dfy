/** The length-prefixed packets of the protocol, and the two loops that move them over a byte stream. */
module Framing {
  import opened Bytes

  const HEADER_SIZE := 5
  const MAX_LEN := 4096

  /** A packet: the header's action and the payload its length announces. */
  datatype Frame = Frame(action: Octet, payload: seq<Octet>)

  predicate WellFormed(f: Frame) {
    HEADER_SIZE + |f.payload| <= MAX_LEN
  }

  predicate AllWellFormed(fs: seq<Frame>) {
    forall i :: 0 <= i < |fs| ==> WellFormed(fs[i])
  }

  /** The packed bytes of a packet. */
  function Serialize(f: Frame): (s: seq<Octet>)
    requires WellFormed(f)
    ensures |s| == HEADER_SIZE + |f.payload|
  {
    [f.action] + Le32(|f.payload|) + f.payload
  }

  /** The bytes of several packets, back to back. */
  function Wire(fs: seq<Frame>): seq<Octet>
    requires AllWellFormed(fs)
  {
    if fs == [] then [] else Serialize(fs[0]) + Wire(fs[1..])
  }

  /** The payload length the header at the start of `s` announces. */
  function HeaderLen(s: seq<Octet>): int
    requires |s| >= HEADER_SIZE
  {
    LeInt(s[1..HEADER_SIZE])
  }

  /** `s` starts with a packet that fits in a buffer of `capacity` bytes. */
  predicate StartsWithPacket(s: seq<Octet>, capacity: nat) {
    && HEADER_SIZE <= |s|
    && 0 <= HeaderLen(s)
    && HEADER_SIZE + HeaderLen(s) <= |s|
    && HEADER_SIZE + HeaderLen(s) <= capacity
  }

  function PacketSize(s: seq<Octet>): (n: nat)
    requires StartsWithPacket(s, MAX_LEN)
    ensures n <= |s|
  {
    HEADER_SIZE + HeaderLen(s)
  }

  /** The packet at the start of `s`. */
  function FirstFrame(s: seq<Octet>): Frame
    requires StartsWithPacket(s, MAX_LEN)
  {
    Frame(s[0], s[HEADER_SIZE..PacketSize(s)])
  }

  /** Reading back a packet returns it and stops exactly at its last byte, whatever follows. */
  lemma FrameRoundTrip(f: Frame, rest: seq<Octet>)
    requires WellFormed(f)
    ensures var s := Serialize(f) + rest;
            && StartsWithPacket(s, MAX_LEN) && PacketSize(s) == |Serialize(f)|
            && FirstFrame(s) == f && s[PacketSize(s)..] == rest
  {
    var s := Serialize(f) + rest;
    assert s[1..HEADER_SIZE] == Le32(|f.payload|);
    LeRoundTrip(|f.payload|);
    assert s[HEADER_SIZE..HEADER_SIZE + |f.payload|] == f.payload;
    assert s[|Serialize(f)|..] == rest;
  }

  /** The bytes of a packet, offset by offset. */
  lemma FrameBytes(f: Frame)
    requires WellFormed(f)
    ensures var s := Serialize(f);
            && s[0] == f.action && s[5..] == f.payload && |s| == 5 + |f.payload|
            && |s| - 5 == s[1] as int + 256 * s[2] as int + 65536 * s[3] as int + 16777216 * s[4] as int
  {
    LeRoundTrip(|f.payload|);
    assert Serialize(f)[1..5] == Le32(|f.payload|);
  }

  /** Where a packet's two parts are. */
  lemma FrameParts(f: Frame, rest: seq<Octet>)
    requires WellFormed(f)
    ensures var s := Serialize(f) + rest; s[0] == f.action && s[HEADER_SIZE..] == f.payload + rest
  {}

  /** A stream of packets is determined by its bytes. */
  lemma {:induction false} WireInjective(fs: seq<Frame>, gs: seq<Frame>)
    requires AllWellFormed(fs) && AllWellFormed(gs) && Wire(fs) == Wire(gs)
    ensures fs == gs
  {
    if fs != [] && gs != [] {
      FrameRoundTrip(fs[0], Wire(fs[1..]));
      FrameRoundTrip(gs[0], Wire(gs[1..]));
      WireInjective(fs[1..], gs[1..]);
      assert fs == [fs[0]] + fs[1..] && gs == [gs[0]] + gs[1..];
    }
  }

  lemma {:induction false} WireConcat(fs: seq<Frame>, gs: seq<Frame>)
    requires AllWellFormed(fs) && AllWellFormed(gs)
    ensures Wire(fs + gs) == Wire(fs) + Wire(gs)
  {
    if fs == [] {
      assert fs + gs == gs;
    } else {
      assert (fs + gs)[1..] == fs[1..] + gs;
      WireConcat(fs[1..], gs);
    }
  }

  // ---------------------------------------------------------------------------
  // Sockets and the two loops

  /** One end of a connection.  `incoming` holds the bytes the peer writes, in order; a call moves
      any positive number of them, and waits rather than return none. */
  class Socket {
    var incoming: seq<Octet>
    var outgoing: seq<Octet>

    constructor (bytes: seq<Octet>)
      ensures incoming == bytes && outgoing == []
    {
      incoming, outgoing := bytes, [];
    }

    method Recv(buffer: array<Octet>, at: nat, n: nat) returns (k: nat)
      requires 1 <= n && at + n <= buffer.Length
      requires incoming != []
      modifies this`incoming, buffer
      ensures 1 <= k <= n && k <= |old(incoming)|
      ensures incoming == old(incoming)[k..]
      ensures buffer[..] == old(buffer[..at]) + old(incoming)[..k] + old(buffer[at + k..])
    {
      k :| 1 <= k <= n && k <= |incoming|;
      forall i | 0 <= i < k {
        buffer[at + i] := incoming[i];
      }
      incoming := incoming[k..];
    }

    method Send(buffer: array<Octet>, at: nat, n: nat) returns (k: nat)
      requires 1 <= n && at + n <= buffer.Length
      modifies this`outgoing
      ensures 1 <= k <= n
      ensures outgoing == old(outgoing) + buffer[at..at + k]
    {
      k :| 1 <= k <= n;
      outgoing := outgoing + buffer[at..at + k];
    }
  }

  /** Two adjacent chunks laid into a buffer are one chunk. */
  lemma Splice(b: seq<Octet>, was: seq<Octet>, at: nat, r: nat, k: nat, b': seq<Octet>, b'': seq<Octet>)
    requires at + r + k <= |b| && r + k <= |was|
    requires b' == b[..at] + was[..r] + b[at + r..]
    requires b'' == b'[..at + r] + was[r..][..k] + b'[at + r + k..]
    ensures b'' == b[..at] + was[..r + k] + b[at + r + k..] && was[r..][k..] == was[r + k..]
  {
    assert was[..r + k] == was[..r] + was[r..][..k];
    assert b'[..at + r] == b[..at] + was[..r];
    assert b'[at + r + k..] == b[at + r + k..];
  }

  /** One receive loop: exactly `n` bytes, however the calls split them. */
  method RecvExactly(sock: Socket, buffer: array<Octet>, at: nat, n: nat)
    requires at + n <= buffer.Length && n <= |sock.incoming|
    modifies sock`incoming, buffer
    ensures buffer[..] == old(buffer[..at]) + old(sock.incoming)[..n] + old(buffer[at + n..])
    ensures sock.incoming == old(sock.incoming)[n..]
  {
    ghost var b, was := buffer[..], sock.incoming;
    var received, remaining := 0, n;
    while remaining != 0
      invariant 0 <= received <= n && received + remaining == n
      invariant sock.incoming == was[received..]
      invariant buffer[..] == b[..at] + was[..received] + b[at + received..]
      decreases remaining
    {
      ghost var now := buffer[..];
      var k := sock.Recv(buffer, at + received, remaining);
      Splice(b, was, at, received, k, now, buffer[..]);
      received := received + k;
      remaining := remaining - k;
    }
  }

  /** recv_tcp_packet: takes one packet off the stream, byte for byte, and nothing of the next one. */
  method RecvTcpPacket(sock: Socket, buffer: array<Octet>) returns (n: nat)
    requires buffer.Length == MAX_LEN && StartsWithPacket(sock.incoming, buffer.Length)
    modifies sock`incoming, buffer
    ensures n == PacketSize(old(sock.incoming))
    ensures buffer[..n] == old(sock.incoming)[..n]
    ensures buffer[n..] == old(buffer[n..])
    ensures sock.incoming == old(sock.incoming)[n..]
  {
    ghost var was, stale := sock.incoming, buffer[..];
    RecvExactly(sock, buffer, 0, HEADER_SIZE);
    assert buffer[1..HEADER_SIZE] == was[1..HEADER_SIZE];
    var len := HeaderLen(buffer[..]);
    RecvExactly(sock, buffer, HEADER_SIZE, len);
    n := HEADER_SIZE + len;
    assert was[HEADER_SIZE..][..len] == was[HEADER_SIZE..n] && was[HEADER_SIZE..][len..] == was[n..];
    assert was[..n] == was[..HEADER_SIZE] + was[HEADER_SIZE..n];
    assert stale[HEADER_SIZE..][len..] == stale[n..];
  }

  /** send_tcp_packet: puts the whole packet in the buffer on the stream, however the calls split it. */
  method SendTcpPacket(sock: Socket, buffer: array<Octet>) returns (n: nat)
    requires StartsWithPacket(buffer[..], MAX_LEN)
    modifies sock`outgoing
    ensures n == PacketSize(buffer[..])
    ensures sock.outgoing == old(sock.outgoing) + buffer[..n]
  {
    n := HEADER_SIZE + HeaderLen(buffer[..]);
    var sent, remaining := 0, n;
    while remaining != 0
      invariant 0 <= sent <= n && sent + remaining == n
      invariant sock.outgoing == old(sock.outgoing) + buffer[..sent]
      decreases remaining
    {
      var k := sock.Send(buffer, sent, remaining);
      assert buffer[..sent + k] == buffer[..sent] + buffer[sent..sent + k];
      sent := sent + k;
      remaining := remaining - k;
    }
  }

  // ---------------------------------------------------------------------------
  // Whole streams

  /** Lays a packet out at the start of the buffer and sends it. */
  method SendFrame(sock: Socket, buffer: array<Octet>, f: Frame)
    requires WellFormed(f) && buffer.Length == MAX_LEN
    modifies sock`outgoing, buffer
    ensures sock.outgoing == old(sock.outgoing) + Serialize(f)
  {
    var bytes := Serialize(f);
    forall j | 0 <= j < |bytes| {
      buffer[j] := bytes[j];
    }
    assert buffer[..] == bytes + buffer[|bytes|..];
    FrameRoundTrip(f, buffer[|bytes|..]);
    var n := SendTcpPacket(sock, buffer);
    assert buffer[..n] == bytes;
  }

  lemma WireAt(fs: seq<Frame>, i: nat)
    requires AllWellFormed(fs) && i < |fs|
    ensures Wire(fs[i..]) == Serialize(fs[i]) + Wire(fs[i + 1..])
  {
    assert fs[i..][1..] == fs[i + 1..];
  }

  /** Sends packets one after the other through one reused buffer. */
  method SendAll(sock: Socket, fs: seq<Frame>)
    requires AllWellFormed(fs)
    modifies sock`outgoing
    ensures sock.outgoing == old(sock.outgoing) + Wire(fs)
  {
    var buffer := new Octet[MAX_LEN];
    for i := 0 to |fs|
      invariant sock.outgoing == old(sock.outgoing) + Wire(fs[..i])
    {
      SendFrame(sock, buffer, fs[i]);
      WireConcat(fs[..i], [fs[i]]);
      assert fs[..i + 1] == fs[..i] + [fs[i]] && Wire([fs[i]]) == Serialize(fs[i]);
    }
    assert fs[..|fs|] == fs;
  }

  /** Successive receives return exactly the packets that were sent, in order, and leave what follows. */
  method ReceiveAll(sock: Socket, buffer: array<Octet>, ghost fs: seq<Frame>, count: nat, ghost rest: seq<Octet>)
    returns (got: seq<Frame>)
    requires AllWellFormed(fs) && count == |fs| && buffer.Length == MAX_LEN
    requires sock.incoming == Wire(fs) + rest
    modifies sock`incoming, buffer
    ensures got == fs && sock.incoming == rest
  {
    got := [];
    for i := 0 to count
      invariant got == fs[..i]
      invariant sock.incoming == Wire(fs[i..]) + rest
    {
      ghost var after := Wire(fs[i + 1..]) + rest;
      assert fs[i..][1..] == fs[i + 1..];
      assert sock.incoming == Serialize(fs[i]) + after;
      FrameRoundTrip(fs[i], after);
      ghost var was := sock.incoming;
      var n := RecvTcpPacket(sock, buffer);
      assert buffer[HEADER_SIZE..n] == was[HEADER_SIZE..n] by {
        assert buffer[..n][HEADER_SIZE..] == was[..n][HEADER_SIZE..];
      }
      assert buffer[..n][0] == was[..n][0];
      got := got + [Frame(buffer[0], buffer[HEADER_SIZE..n])];
    }
    assert fs[..|fs|] == fs;
  }

  /** Send any packets, receive them on the other side: the same packets, for every splitting of both. */
  method Transfer(fs: seq<Frame>, stale: array<Octet>) returns (got: seq<Frame>)
    requires AllWellFormed(fs) && stale.Length == MAX_LEN
    modifies stale
    ensures got == fs
  {
    var sender := new Socket([]);
    SendAll(sender, fs);
    var receiver := new Socket(sender.outgoing);
    assert Wire(fs) + [] == Wire(fs);
    got := ReceiveAll(receiver, stale, fs, |fs|, []);
  }
}
