/** The subscriber program's loop: what it shows and what it sends. */
module SubscriberClient {
  import opened Wrappers
  import opened Bytes
  import opened Framing
  import opened Notification
  import opened BrokerState
  import opened Commands

  const SHUTDOWN_INTRUDER: Octet := Oct(5)

  function PacketFrame(p: Packet): (f: Frame)
    ensures WellFormed(f)
  {
    match p
    case Notify(pub) => NotificationFrame(pub.buff, pub.origin)
    case ShutdownClose => Frame(SHUTDOWN_CLOSE, [])
    case ShutdownIntruder => Frame(SHUTDOWN_INTRUDER, [])
  }

  /** The bytes of the packets that carry nothing, and the kind of the one that does. */
  lemma PacketBytes(p: Packet)
    ensures var s := Serialize(PacketFrame(p));
            && (p.ShutdownClose? ==> s == [Oct(2), NUL, NUL, NUL, NUL])
            && (p.ShutdownIntruder? ==> s == [Oct(5), NUL, NUL, NUL, NUL])
            && (p.Notify? ==> s == Serialize(NotificationFrame(p.pub.buff, p.pub.origin)) && s[0] as int == 4)
  {}

  function PacketFrames(ps: seq<Packet>): (fs: seq<Frame>)
    ensures |fs| == |ps| && AllWellFormed(fs) && forall i :: 0 <= i < |ps| ==> fs[i] == PacketFrame(ps[i])
  {
    seq(|ps|, i requires 0 <= i < |ps| => PacketFrame(ps[i]))
  }

  /** The bytes of packets written one after the other. */
  function PacketWire(ps: seq<Packet>): seq<Octet> {
    Wire(PacketFrames(ps))
  }

  lemma PacketWireStep(ps: seq<Packet>)
    requires ps != []
    ensures PacketWire(ps) == Serialize(PacketFrame(ps[0])) + PacketWire(ps[1..])
  {
    assert PacketFrames(ps)[1..] == PacketFrames(ps[1..]);
  }

  // ---------------------------------------------------------------------------
  // What a session shows and sends

  /** One turn of the loop: a line on stdin, or a packet on the connection. */
  datatype Turn = Typed(line: seq<Octet>) | Incoming

  predicate AllTypable(turns: seq<Turn>) {
    forall i :: 0 <= i < |turns| && turns[i].Typed? ==> Typable(turns[i].line)
  }

  /** How many packets the turns take. */
  function Packets(turns: seq<Turn>): nat {
    if turns == [] then 0 else (if turns[0].Incoming? then 1 else 0) + Packets(turns[1..])
  }

  /** What one packet shows: the meaning of its datagram, or nothing. */
  function Shown(p: Packet): seq<Notice> {
    if p.Notify? then [Meaning(p.pub.buff, p.pub.origin)] else []
  }

  predicate Exits(line: seq<Octet>) {
    Command(line) == Some(Close)
  }

  /** The program ends on the exit command and on a packet that is not a notification. */
  predicate Leaves(turn: Turn, ps: seq<Packet>)
    requires turn.Incoming? ==> ps != []
  {
    if turn.Incoming? then !ps[0].Notify? else Exits(turn.line)
  }

  function TurnShows(turn: Turn, ps: seq<Packet>): seq<Notice>
    requires turn.Incoming? ==> ps != []
  {
    if turn.Incoming? then Shown(ps[0]) else []
  }

  function TurnSends(turn: Turn): (ms: seq<Message>)
    requires turn.Typed? ==> Typable(turn.line)
    ensures AllSendable(ms)
  {
    if turn.Typed? then Issued(turn.line) else []
  }

  function Remaining(turn: Turn, ps: seq<Packet>): seq<Packet>
    requires turn.Incoming? ==> ps != []
  {
    if turn.Incoming? then ps[1..] else ps
  }

  /** What a session shows. */
  function SessionShows(turns: seq<Turn>, ps: seq<Packet>): seq<Notice>
    requires Packets(turns) <= |ps|
    decreases |turns|
  {
    if turns == [] then []
    else
      TurnShows(turns[0], ps)
      + if Leaves(turns[0], ps) then [] else SessionShows(turns[1..], Remaining(turns[0], ps))
  }

  /** What a session sends. */
  function SessionSends(turns: seq<Turn>, ps: seq<Packet>): (ms: seq<Message>)
    requires AllTypable(turns) && Packets(turns) <= |ps|
    ensures AllSendable(ms)
    decreases |turns|
  {
    if turns == [] then []
    else
      TurnSends(turns[0])
      + if Leaves(turns[0], ps) then [] else SessionSends(turns[1..], Remaining(turns[0], ps))
  }

  /** The notices in a stream of packets, up to the packet that ends the program. */
  function Notices(ps: seq<Packet>): seq<Notice> {
    if ps == [] || !ps[0].Notify? then []
    else [Meaning(ps[0].pub.buff, ps[0].pub.origin)] + Notices(ps[1..])
  }

  /** Every notification counts, in its place, up to the packet that ends the program. */
  lemma {:induction false} NoticesAre(ps: seq<Packet>)
    ensures var n := |Notices(ps)|;
            && n <= |ps| && (n < |ps| ==> !ps[n].Notify?)
            && forall i :: 0 <= i < n ==> ps[i].Notify? && Notices(ps)[i] == Meaning(ps[i].pub.buff, ps[i].pub.origin)
  {
    if ps != [] && ps[0].Notify? {
      NoticesAre(ps[1..]);
    }
  }

  function Min(a: nat, b: nat): nat {
    if a <= b then a else b
  }

  /** The notices in the first `n` packets are the first `n` notices. */
  lemma {:induction false} NoticesPrefix(ps: seq<Packet>, n: nat)
    requires n <= |ps|
    ensures Notices(ps[..n]) == Notices(ps)[..Min(n, |Notices(ps)|)]
  {
    if n > 0 && ps[0].Notify? {
      var head, rest := [Meaning(ps[0].pub.buff, ps[0].pub.origin)], Notices(ps[1..]);
      assert ps[..n][1..] == ps[1..][..n - 1];
      NoticesPrefix(ps[1..], n - 1);
      assert (head + rest)[..1 + Min(n - 1, |rest|)] == head + rest[..Min(n - 1, |rest|)];
    }
  }

  /** The commands typed, up to the one that ends the program. */
  function CommandsOf(turns: seq<Turn>): seq<Message>
    requires AllTypable(turns)
  {
    if turns == [] then []
    else if turns[0].Typed? && Exits(turns[0].line) then [Close]
    else TurnSends(turns[0]) + CommandsOf(turns[1..])
  }

  /** What each turn asks for, read off the characters typed. */
  predicate Script(turns: seq<Turn>, asked: seq<Option<Message>>) {
    && |turns| == |asked|
    && forall i :: 0 <= i < |turns| ==> if turns[i].Typed? then Says(turns[i].line, asked[i]) else asked[i] == None
  }

  /** The messages asked for, up to and with the first goodbye. */
  function UpToExit(asked: seq<Option<Message>>): seq<Message> {
    if asked == [] then []
    else if asked[0] == None then UpToExit(asked[1..])
    else if asked[0] == Some(Close) then [Close]
    else [asked[0].value] + UpToExit(asked[1..])
  }

  /** The commands typed are those the lines say. */
  lemma {:induction false} CommandsAreSaid(turns: seq<Turn>, asked: seq<Option<Message>>)
    requires AllTypable(turns) && Script(turns, asked)
    ensures CommandsOf(turns) == UpToExit(asked)
  {
    if turns != [] {
      CommandsAreSaid(turns[1..], asked[1..]);
      if turns[0].Typed? {
        CommandExactly(turns[0].line, asked[0]);
        IssuedExactly(turns[0].line, asked[0]);
      }
    }
  }

  /** No line typed begins with the word exit. */
  predicate NoExit(turns: seq<Turn>) {
    forall i :: 0 <= i < |turns| && turns[i].Typed? ==> !("exit" <= turns[i].line)
  }

  lemma Longer<T>(a: seq<T>, b: seq<T>, c: seq<T>)
    ensures b <= c ==> a + b <= a + c
    ensures (a + b) + c == a + (b + c)
  {}

  lemma {:induction false} ShowsBeginning(turns: seq<Turn>, ps: seq<Packet>)
    requires Packets(turns) <= |ps|
    ensures SessionShows(turns, ps) <= Notices(ps)
    decreases |turns|
  {
    if turns != [] && !Leaves(turns[0], ps) {
      ShowsBeginning(turns[1..], Remaining(turns[0], ps));
      if turns[0].Incoming? {
        Longer(Shown(ps[0]), SessionShows(turns[1..], ps[1..]), Notices(ps[1..]));
        assert Shown(ps[0]) == [Meaning(ps[0].pub.buff, ps[0].pub.origin)];
      }
    }
  }

  lemma {:induction false} SendsBeginning(turns: seq<Turn>, ps: seq<Packet>)
    requires AllTypable(turns) && Packets(turns) <= |ps|
    ensures SessionSends(turns, ps) <= CommandsOf(turns)
    ensures (forall i :: 0 <= i < Packets(turns) ==> ps[i].Notify?) ==> SessionSends(turns, ps) == CommandsOf(turns)
    decreases |turns|
  {
    if turns != [] && !Leaves(turns[0], ps) {
      SendsBeginning(turns[1..], Remaining(turns[0], ps));
      Longer(TurnSends(turns[0]), SessionSends(turns[1..], Remaining(turns[0], ps)), CommandsOf(turns[1..]));
    }
  }

  lemma {:induction false} ShowsAll(turns: seq<Turn>, ps: seq<Packet>)
    requires NoExit(turns) && Packets(turns) <= |ps|
    ensures SessionShows(turns, ps) == Notices(ps[..Packets(turns)])
    decreases |turns|
  {
    if turns != [] {
      var n := Packets(turns);
      if turns[0].Incoming? {
        assert ps[..n][1..] == ps[1..][..n - 1] && ps[..n][0] == ps[0];
      } else {
        var exit := "exit";
        assert exit[0] == 'e';
        CommandExactly(turns[0].line, Some(Close));
      }
      if !Leaves(turns[0], ps) {
        ShowsAll(turns[1..], Remaining(turns[0], ps));
      }
    }
  }

  /** Nothing after the turn that ends the program matters. */
  lemma {:induction false} SessionEnds(a: seq<Turn>, t: Turn, b: seq<Turn>, ps: seq<Packet>)
    requires AllTypable(a + [t] + b) && AllTypable(a + [t])
    requires Packets(a + [t] + b) <= |ps| && Packets(a + [t]) <= |ps| && Packets(a) <= |ps|
    requires t.Incoming? ==> Packets(a) < |ps|
    requires Leaves(t, ps[Packets(a)..])
    ensures SessionShows(a + [t] + b, ps) == SessionShows(a + [t], ps)
    ensures SessionSends(a + [t] + b, ps) == SessionSends(a + [t], ps)
    decreases |a|
  {
    var all, some := a + [t] + b, a + [t];
    if a == [] {
      assert all[0] == some[0] == t && ps[0..] == ps;
    } else {
      assert all[0] == some[0] == a[0];
      assert all[1..] == a[1..] + [t] + b && some[1..] == a[1..] + [t];
      if !Leaves(a[0], ps) {
        var rest := Remaining(a[0], ps);
        assert rest[Packets(a[1..])..] == ps[Packets(a)..];
        SessionEnds(a[1..], t, b, rest);
      }
    }
  }

  /** However typing and packets interleave, what is shown is a beginning of the notices in the stream and
      what is sent a beginning of the commands typed; if no packet taken ends the session all commands are
      sent, and if no exit is typed every notice in the packets taken is shown. */
  lemma SessionIsFaithful(turns: seq<Turn>, ps: seq<Packet>)
    requires AllTypable(turns) && Packets(turns) <= |ps|
    ensures SessionShows(turns, ps) <= Notices(ps)
    ensures SessionSends(turns, ps) <= CommandsOf(turns)
    ensures (forall i :: 0 <= i < Packets(turns) ==> ps[i].Notify?) ==> SessionSends(turns, ps) == CommandsOf(turns)
    ensures NoExit(turns) ==> SessionShows(turns, ps) == Notices(ps[..Packets(turns)])
  {
    ShowsBeginning(turns, ps);
    SendsBeginning(turns, ps);
    if NoExit(turns) {
      ShowsAll(turns, ps);
    }
  }

  // ---------------------------------------------------------------------------
  // The code

  /** The connection's branch: a notification is shown, anything else ends the program. */
  method ReceivePacket(sock: Socket, buff: array<Octet>, ghost p: Packet, ghost rest: seq<Octet>)
    returns (leave: bool, shown: seq<Notice>)
    requires buff.Length == MAX_LEN && sock.incoming == Serialize(PacketFrame(p)) + rest
    modifies sock`incoming, buff
    ensures sock.incoming == rest && leave == !p.Notify? && shown == Shown(p)
  {
    ghost var bytes := Serialize(PacketFrame(p));
    FrameRoundTrip(PacketFrame(p), rest);
    var size := RecvTcpPacket(sock, buff);
    assert buff[..] == bytes + buff[size..];
    assert buff[0] == PacketFrame(p).action;
    if buff[0] == SHUTDOWN_INTRUDER || buff[0] == SHUTDOWN_CLOSE {
      return true, [];
    }
    DecodeEncode(p.pub.buff, p.pub.origin, buff[size..]);
    return false, [Decode(buff[..])];
  }

  /** One turn of run_subscriber, with the buffer cleared first. */
  method TakeTurn(sock: Socket, buff: array<Octet>, turn: Turn, ghost ps: seq<Packet>)
    returns (leave: bool, shown: seq<Notice>)
    requires buff.Length == MAX_LEN && sock.incoming == PacketWire(ps)
    requires if turn.Typed? then Typable(turn.line) else ps != []
    modifies sock, buff
    ensures leave == Leaves(turn, ps) && shown == TurnShows(turn, ps)
    ensures sock.incoming == PacketWire(Remaining(turn, ps))
    ensures sock.outgoing == old(sock.outgoing) + MessageWire(TurnSends(turn))
  {
    forall i | 0 <= i < buff.Length {
      buff[i] := NUL;
    }
    match turn {
      case Typed(line) =>
        var m := ParseStdinCommand(buff, sock, line);
        leave, shown := m == Some(Close), [];
      case Incoming =>
        PacketWireStep(ps);
        leave, shown := ReceivePacket(sock, buff, ps[0], PacketWire(ps[1..]));
        assert MessageWire(TurnSends(turn)) == [];
    }
  }

  lemma SendMore(base: seq<Octet>, sent: seq<Message>, more: seq<Message>)
    requires AllSendable(sent) && AllSendable(more)
    ensures AllSendable(sent + more)
    ensures base + MessageWire(sent) + MessageWire(more) == base + MessageWire(sent + more)
  {
    MessageWireConcat(sent, more);
    Longer(base, MessageWire(sent), MessageWire(more));
  }

  /** One turn, with what it sends added to all that was sent. */
  method TakeNextTurn(sock: Socket, buff: array<Octet>, turn: Turn, ghost ps: seq<Packet>,
                      ghost base: seq<Octet>, ghost sent: seq<Message>)
    returns (leave: bool, shown: seq<Notice>)
    requires buff.Length == MAX_LEN && sock.incoming == PacketWire(ps)
    requires if turn.Typed? then Typable(turn.line) else ps != []
    requires AllSendable(sent) && sock.outgoing == base + MessageWire(sent)
    modifies sock, buff
    ensures leave == Leaves(turn, ps) && shown == TurnShows(turn, ps)
    ensures sock.incoming == PacketWire(Remaining(turn, ps))
    ensures AllSendable(sent + TurnSends(turn)) && sock.outgoing == base + MessageWire(sent + TurnSends(turn))
  {
    SendMore(base, sent, TurnSends(turn));
    leave, shown := TakeTurn(sock, buff, turn, ps);
  }

  /** What a session has done so far and what it has to do make up the session. */
  predicate Underway(turns: seq<Turn>, ps: seq<Packet>, todo: seq<Turn>, rest: seq<Packet>,
                     shown: seq<Notice>, sent: seq<Message>)
  {
    && AllTypable(turns) && Packets(turns) <= |ps| && AllTypable(todo) && Packets(todo) <= |rest|
    && shown + SessionShows(todo, rest) == SessionShows(turns, ps)
    && sent + SessionSends(todo, rest) == SessionSends(turns, ps)
  }

  lemma UnderwayStep(turns: seq<Turn>, ps: seq<Packet>, todo: seq<Turn>, rest: seq<Packet>,
                     shown: seq<Notice>, sent: seq<Message>)
    requires Underway(turns, ps, todo, rest, shown, sent) && todo != []
    ensures todo[0].Incoming? ==> rest != []
    ensures Leaves(todo[0], rest) ==>
      shown + TurnShows(todo[0], rest) == SessionShows(turns, ps) && sent + TurnSends(todo[0]) == SessionSends(turns, ps)
    ensures !Leaves(todo[0], rest) ==>
      Underway(turns, ps, todo[1..], Remaining(todo[0], rest), shown + TurnShows(todo[0], rest), sent + TurnSends(todo[0]))
  {
    if !Leaves(todo[0], rest) {
      Longer(shown, TurnShows(todo[0], rest), SessionShows(todo[1..], Remaining(todo[0], rest)));
      Longer(sent, TurnSends(todo[0]), SessionSends(todo[1..], Remaining(todo[0], rest)));
    }
  }

  /** run_subscriber: the session shows and sends exactly what its turns say, for every splitting of the
      bytes in both directions. */
  method RunSubscriber(sock: Socket, buff: array<Octet>, turns: seq<Turn>, ghost ps: seq<Packet>)
    returns (shown: seq<Notice>)
    requires AllTypable(turns) && Packets(turns) <= |ps|
    requires buff.Length == MAX_LEN && sock.incoming == PacketWire(ps)
    modifies sock, buff
    ensures shown == SessionShows(turns, ps)
    ensures sock.outgoing == old(sock.outgoing) + MessageWire(SessionSends(turns, ps))
  {
    shown := [];
    ghost var rest, sent, base := ps, [], sock.outgoing;
    var todo := turns;
    while todo != []
      invariant AllSendable(sent) && Underway(turns, ps, todo, rest, shown, sent)
      invariant sock.incoming == PacketWire(rest) && sock.outgoing == base + MessageWire(sent)
      decreases |todo|
    {
      UnderwayStep(turns, ps, todo, rest, shown, sent);
      var turn := todo[0];
      var leave, more := TakeNextTurn(sock, buff, turn, rest, base, sent);
      shown := shown + more;
      sent := sent + TurnSends(turn);
      if leave {
        return;
      }
      rest := Remaining(turn, rest);
      todo := todo[1..];
    }
    assert shown + [] == shown && sent + [] == sent;
  }
}
