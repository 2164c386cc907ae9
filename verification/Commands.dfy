/** Typed commands to packets on the subscriber's side, packets back to messages on the broker's side. */
module Commands {
  import opened Wrappers
  import opened Bytes
  import opened Framing
  import opened Notification
  import opened BrokerState

  const CONNECT_ACTION: Octet := Oct(1)
  const SHUTDOWN_CLOSE: Octet := Oct(2)
  const SUBSCRIBE_ACTION: Octet := Oct(3)
  const UNSUBSCRIBE_ACTION: Octet := Oct(6)

  // ---------------------------------------------------------------------------
  // Typed commands

  predicate Space(c: char) {
    c == ' ' || '\t' <= c <= '\r'
  }

  function SkipSpaces(s: string): string {
    if s != "" && Space(s[0]) then SkipSpaces(s[1..]) else s
  }

  function Word(s: string): string {
    if s == "" || Space(s[0]) then "" else [s[0]] + Word(s[1..])
  }

  /** What sscanf with %s finds in the line past the first `n` characters; nothing if the line ends before. */
  function Argument(line: string, n: nat): string {
    if n <= |line| then Word(SkipSpaces(line[n..])) else ""
  }

  /** parse_stdin_command: the message a typed line turns into, if it is a command. */
  function Command(line: string): Option<Message> {
    if "exit" <= line then Some(Close)
    else if "subscribe" <= line then Some(Subscribe(Argument(line, 10)))
    else if "unsubscribe" <= line then Some(Unsubscribe(Argument(line, 12)))
    else None
  }

  predicate OneWord(s: string) {
    s != "" && forall i :: 0 <= i < |s| ==> !Space(s[i])
  }

  lemma {:induction false} WordIsTaken(s: string, rest: string)
    requires forall i :: 0 <= i < |s| ==> !Space(s[i])
    requires rest == "" || Space(rest[0])
    ensures Word(s + rest) == s
  {
    if s == "" {
      assert s + rest == rest;
    } else {
      assert (s + rest)[1..] == s[1..] + rest;
      WordIsTaken(s[1..], rest);
    }
  }

  lemma {:induction false} SpacesAreSkipped(gap: string, s: string)
    requires (forall i :: 0 <= i < |gap| ==> Space(gap[i])) && (s == "" || !Space(s[0]))
    ensures SkipSpaces(gap + s) == s
  {
    if gap == "" {
      assert gap + s == s;
    } else {
      assert (gap + s)[1..] == gap[1..] + s;
      SpacesAreSkipped(gap[1..], s);
    }
  }

  lemma ArgumentIsFound(head: string, gap: string, topic: string, rest: string)
    requires OneWord(topic) && (forall i :: 0 <= i < |gap| ==> Space(gap[i])) && (rest == "" || Space(rest[0]))
    ensures Argument(head + gap + topic + rest, |head|) == topic
  {
    var line := head + gap + topic + rest;
    assert line[|head|..] == gap + (topic + rest);
    SpacesAreSkipped(gap, topic + rest);
    WordIsTaken(topic, rest);
  }

  /** Typing a command, with any further spacing and anything after the topic, yields that command. */
  lemma TypedCommands(gap: string, topic: string, rest: string)
    requires OneWord(topic) && (forall i :: 0 <= i < |gap| ==> Space(gap[i])) && (rest == "" || Space(rest[0]))
    ensures Command("subscribe " + gap + topic + rest) == Some(Subscribe(topic))
    ensures Command("unsubscribe " + gap + topic + rest) == Some(Unsubscribe(topic))
    ensures Command("exit" + rest) == Some(Close)
  {
    var on, off := "subscribe " + gap + topic + rest, "unsubscribe " + gap + topic + rest;
    ArgumentIsFound("subscribe ", gap, topic, rest);
    ArgumentIsFound("unsubscribe ", gap, topic, rest);
    assert on[0] == 's' && on[..9] == "subscribe";
    assert off[0] == 'u' && off[..11] == "unsubscribe";
    assert ("exit" + rest)[..4] == "exit";
    var exit, sub := "exit", "subscribe";
    assert exit[0] == 'e' && sub[0] == 's';
  }

  // ---------------------------------------------------------------------------
  // What a line says, by its characters alone

  /** The characters %s stops at. */
  predicate Blank(c: char) {
    c in " \t\n\U{0B}\U{0C}\r"
  }

  /** What follows a command's name: one character of any kind, blanks up to `i`, and the topic up to `j`,
      where the next blank or the end is. */
  predicate NamedAt(text: string, topic: string, i: nat, j: nat) {
    && 1 <= i <= j <= |text| && text[i..j] == topic
    && (forall k :: 1 <= k < i ==> Blank(text[k])) && (forall k :: i <= k < j ==> !Blank(text[k]))
    && (j < |text| ==> i < j && Blank(text[j]))
  }

  predicate Names(text: string, topic: string) {
    if text == "" then topic == "" else exists i: nat, j: nat :: i <= j <= |text| && NamedAt(text, topic, i, j)
  }

  /** `line` asks for `m`, or for nothing. */
  predicate Says(line: string, m: Option<Message>) {
    match m
    case None => !("exit" <= line) && !("subscribe" <= line) && !("unsubscribe" <= line)
    case Some(Close) => "exit" <= line
    case Some(Subscribe(topic)) => "subscribe" <= line && Names(line[9..], topic)
    case Some(Unsubscribe(topic)) => "unsubscribe" <= line && Names(line[11..], topic)
    case Some(Other) => false
  }

  lemma {:induction false} SkipSpacesIs(s: string)
    ensures var n := |s| - |SkipSpaces(s)|;
            && 0 <= n && SkipSpaces(s) == s[n..] && (forall k :: 0 <= k < n ==> Space(s[k]))
            && (n < |s| ==> !Space(s[n]))
  {
    if s != "" && Space(s[0]) {
      SkipSpacesIs(s[1..]);
    }
  }

  lemma {:induction false} WordIs(s: string)
    ensures var n := |Word(s)|;
            && n <= |s| && Word(s) == s[..n] && (forall k :: 0 <= k < n ==> !Space(s[k])) && (n < |s| ==> Space(s[n]))
  {
    if s != "" && !Space(s[0]) {
      WordIs(s[1..]);
    }
  }

  lemma SpaceIsBlank()
    ensures forall c :: Space(c) <==> Blank(c)
  {
    var blanks := " \t\n\U{0B}\U{0C}\r";
    assert blanks[0] == ' ' && blanks[1] == '\t' && blanks[2] == '\n' && blanks[3] == '\U{0B}'
        && blanks[4] == '\U{0C}' && blanks[5] == '\r';
  }

  lemma NamedIsRead(text: string, topic: string, i: nat, j: nat)
    requires NamedAt(text, topic, i, j)
    ensures Word(SkipSpaces(text[1..])) == topic
  {
    SpaceIsBlank();
    var gap, rest := text[1..i], text[j..];
    assert text[1..] == gap + (topic + rest);
    assert topic != "" ==> topic[0] == text[i];
    SpacesAreSkipped(gap, topic + rest);
    WordIsTaken(topic, rest);
  }

  lemma ReadIsNamed(text: string)
    requires text != ""
    ensures Names(text, Word(SkipSpaces(text[1..])))
  {
    SpaceIsBlank();
    var s := SkipSpaces(text[1..]);
    SkipSpacesIs(text[1..]);
    WordIs(s);
    var i := |text| - |s|;
    var j := i + |Word(s)|;
    assert s == text[i..] && text[i..j] == Word(s);
    assert NamedAt(text, Word(s), i, j);
  }

  lemma NamesExactly(text: string, topic: string)
    ensures Names(text, topic) <==> topic == if text == "" then "" else Word(SkipSpaces(text[1..]))
  {
    if text != "" {
      ReadIsNamed(text);
      if i: nat, j: nat :| i <= j <= |text| && NamedAt(text, topic, i, j) {
        NamedIsRead(text, topic, i, j);
      }
    }
  }

  /** The command found in a line is what the line says, and a line says one thing only. */
  lemma CommandExactly(line: string, m: Option<Message>)
    ensures Says(line, m) <==> Command(line) == m
  {
    var exit, on, off := "exit", "subscribe", "unsubscribe";
    assert exit[0] == 'e' && on[0] == 's' && off[0] == 'u';
    assert exit <= line ==> line[0] == 'e';
    assert on <= line ==> line[0] == 's';
    assert off <= line ==> line[0] == 'u';
    if on <= line {
      assert |line| > 9 ==> line[9..][1..] == line[10..];
      if m.Some? && m.value.Subscribe? {
        NamesExactly(line[9..], m.value.topic);
      }
    } else if off <= line {
      assert |line| > 11 ==> line[11..][1..] == line[12..];
      if m.Some? && m.value.Unsubscribe? {
        NamesExactly(line[11..], m.value.topic);
      }
    }
  }

  // ---------------------------------------------------------------------------
  // The line in the buffer

  /** What the code finds in its buffer: the command's name at the start, its argument at a fixed offset. */
  function CommandIn(r: seq<Octet>): Option<Message>
    requires |r| == MAX_LEN
  {
    var text: string := r;
    if "exit" <= text then Some(Close)
    else if "subscribe" <= text then Some(Subscribe(Word(SkipSpaces(CString(r[10..])))))
    else if "unsubscribe" <= text then Some(Unsubscribe(Word(SkipSpaces(CString(r[12..])))))
    else None
  }

  /** A word is at the start of the buffer exactly when the line starts with it. */
  lemma WordAtStart(word: string, line: seq<Octet>, rest: seq<Octet>)
    requires NUL !in word
    ensures word <= line + [NUL] + rest <==> word <= line
  {
    var r := line + [NUL] + rest;
    assert r[|line|] == NUL && forall i :: 0 <= i < |word| ==> word[i] in word;
    if word <= r && |word| <= |line| {
      assert word == r[..|word|] == line[..|word|];
    }
  }

  /** Past its first `n` characters the line reads as it is, and as nothing just past its end. */
  lemma TailOfLine(line: seq<Octet>, rest: seq<Octet>, n: nat)
    requires NUL !in line && n <= |line| + 1
    ensures var r := line + [NUL] + [NUL] + rest;
            CString(r[n..]) == if n <= |line| then line[n..] else []
  {
    var r := line + [NUL] + [NUL] + rest;
    if n <= |line| {
      assert r[n..] == line[n..] + ([NUL] + [NUL] + rest);
      CStringIs(line[n..], [NUL] + [NUL] + rest);
    } else {
      assert r[n..] == [] + ([NUL] + rest);
      CStringIs([], [NUL] + rest);
    }
  }

  /** Reading the buffer is reading the line, whatever the buffer holds after it. */
  lemma CommandInBuffer(line: seq<Octet>, rest: seq<Octet>)
    requires NUL !in line && |line| + 2 + |rest| == MAX_LEN
    ensures CommandIn(line + [NUL] + [NUL] + rest) == Command(line)
  {
    var r := line + [NUL] + [NUL] + rest;
    assert r == line + [NUL] + ([NUL] + rest);
    WordAtStart("exit", line, [NUL] + rest);
    WordAtStart("subscribe", line, [NUL] + rest);
    WordAtStart("unsubscribe", line, [NUL] + rest);
    if "exit" <= line {
    } else if "subscribe" <= line {
      TailOfLine(line, rest, 10);
    } else if "unsubscribe" <= line {
      TailOfLine(line, rest, 12);
    }
  }

  // ---------------------------------------------------------------------------
  // Messages as packets

  /** A topic that fits the payload and can end in a terminator. */
  predicate Sendable(topic: string) {
    |topic| <= TOPIC_SIZE && forall i :: 0 <= i < |topic| ==> 0 < topic[i] as int < 256
  }

  predicate SendableMessage(m: Message) {
    match m
    case Subscribe(topic) => Sendable(topic)
    case Unsubscribe(topic) => Sendable(topic)
    case Close => true
    case Other => false
  }

  function Packed(topic: string): seq<Octet>
    requires Sendable(topic)
  {
    seq(|topic|, i requires 0 <= i < |topic| => topic[i]) + [NUL]
  }

  lemma PackedReads(text: string, stale: seq<Octet>)
    requires Sendable(text)
    ensures CString(Packed(text) + stale) == text
  {
    var octets := Packed(text)[..|text|];
    assert octets == text;
    assert Packed(text) + stale == octets + ([NUL] + stale);
    CStringIs(octets, [NUL] + stale);
  }

  /** The packet subscribe, unsubscribe and handle_shutdown build. */
  function MessageFrame(m: Message): (f: Frame)
    requires SendableMessage(m)
    ensures WellFormed(f)
  {
    match m
    case Subscribe(topic) => Frame(SUBSCRIBE_ACTION, Packed(topic))
    case Unsubscribe(topic) => Frame(UNSUBSCRIBE_ACTION, Packed(topic))
    case Close => Frame(SHUTDOWN_CLOSE, [])
  }

  /** What parse_tcp_client_message makes of its buffer. */
  function ReadMessage(r: seq<Octet>): Message
    requires |r| >= HEADER_SIZE
  {
    var text: string := CString(r[HEADER_SIZE..]);
    if r[0] == SUBSCRIBE_ACTION then Subscribe(text)
    else if r[0] == UNSUBSCRIBE_ACTION then Unsubscribe(text)
    else if r[0] == SHUTDOWN_CLOSE then Close
    else Other
  }

  /** The bytes of a message, offset by offset: its kind, its length, and the topic with its terminator. */
  lemma MessageBytes(m: Message)
    requires SendableMessage(m)
    ensures var s := Serialize(MessageFrame(m));
            && s[0] as int == (match m case Close => 2 case Subscribe(_) => 3 case _ => 6)
            && |s| - 5 == s[1] as int + 256 * s[2] as int + 65536 * s[3] as int + 16777216 * s[4] as int
            && s[5..] == if m.Close? then [] else m.topic + [NUL]
  {
    FrameBytes(MessageFrame(m));
  }

  lemma PackedRoundTrip(action: Octet, text: string, stale: seq<Octet>)
    requires Sendable(text)
    ensures var r := Serialize(Frame(action, Packed(text))) + stale;
            r[0] == action && CString(r[HEADER_SIZE..]) == text
  {
    FrameParts(Frame(action, Packed(text)), stale);
    PackedReads(text, stale);
  }

  /** Whatever the buffer held before, the broker reads the message that was sent. */
  lemma MessageRoundTrip(m: Message, stale: seq<Octet>)
    requires SendableMessage(m)
    ensures ReadMessage(Serialize(MessageFrame(m)) + stale) == m
  {
    match m {
      case Subscribe(topic) => PackedRoundTrip(SUBSCRIBE_ACTION, topic, stale);
      case Unsubscribe(topic) => PackedRoundTrip(UNSUBSCRIBE_ACTION, topic, stale);
      case Close => FrameParts(MessageFrame(m), stale);
    }
  }

  /** The packet connect_to_server builds. */
  function ConnectFrame(id: string): (f: Frame)
    requires Sendable(id)
    ensures WellFormed(f)
  {
    Frame(CONNECT_ACTION, Packed(id))
  }

  /** The bytes that announce an ID. */
  lemma ConnectBytes(id: string)
    requires Sendable(id)
    ensures var s := Serialize(ConnectFrame(id));
            && s[0] as int == 1 && s[5..] == id + [NUL]
            && |s| - 5 == s[1] as int + 256 * s[2] as int + 65536 * s[3] as int + 16777216 * s[4] as int
  {
    FrameBytes(ConnectFrame(id));
  }

  /** The ID the broker finds in its buffer is the one announced, whatever the buffer held before; and
      on an established connection the same packet would ask for nothing. */
  lemma ConnectRoundTrip(id: string, stale: seq<Octet>)
    requires Sendable(id)
    ensures var r := Serialize(ConnectFrame(id)) + stale; CString(r[HEADER_SIZE..]) == id && ReadMessage(r) == Other
  {
    PackedRoundTrip(CONNECT_ACTION, id, stale);
  }

  predicate AllSendable(ms: seq<Message>) {
    forall i :: 0 <= i < |ms| ==> SendableMessage(ms[i])
  }

  function MessageFrames(ms: seq<Message>): (fs: seq<Frame>)
    requires AllSendable(ms)
    ensures |fs| == |ms| && AllWellFormed(fs) && forall i :: 0 <= i < |ms| ==> fs[i] == MessageFrame(ms[i])
  {
    seq(|ms|, i requires 0 <= i < |ms| => MessageFrame(ms[i]))
  }

  /** The bytes of messages sent one after the other. */
  function MessageWire(ms: seq<Message>): seq<Octet>
    requires AllSendable(ms)
  {
    Wire(MessageFrames(ms))
  }

  lemma MessageWireConcat(a: seq<Message>, b: seq<Message>)
    requires AllSendable(a) && AllSendable(b)
    ensures MessageWire(a + b) == MessageWire(a) + MessageWire(b)
  {
    assert MessageFrames(a + b) == MessageFrames(a) + MessageFrames(b);
    WireConcat(MessageFrames(a), MessageFrames(b));
  }

  lemma MessageWireOne(m: Message)
    requires SendableMessage(m)
    ensures MessageWire([m]) == Serialize(MessageFrame(m))
  {
    var fs := MessageFrames([m]);
    assert fs[1..] == [];
    assert Wire(fs) == Serialize(fs[0]) + [];
  }

  // ---------------------------------------------------------------------------
  // Sending a command

  /** A topic taken from a C string can be sent, provided it is short enough. */
  lemma ArgumentSendable(line: seq<Octet>, n: nat)
    requires NUL !in line && |Argument(line, n)| <= TOPIC_SIZE
    ensures Sendable(Argument(line, n))
  {
    if n <= |line| {
      var rest: string := line[n..];
      SkipSpacesIs(rest);
      WordIs(SkipSpaces(rest));
    }
  }

  /** A line as typed, without its newline: it fits the line buffer, and its topic the topic buffer. */
  predicate Typable(line: seq<Octet>) {
    && |line| + 1 < 256 && NUL !in line
    && var m := Command(line); m.Some? && !m.value.Close? ==> |m.value.topic| <= TOPIC_SIZE
  }

  lemma CommandSendable(line: seq<Octet>)
    requires Typable(line)
    ensures Command(line).Some? ==> SendableMessage(Command(line).value)
  {
    var m := Command(line);
    if m.Some? && m.value.Subscribe? {
      ArgumentSendable(line, 10);
    } else if m.Some? && m.value.Unsubscribe? {
      ArgumentSendable(line, 12);
    }
  }

  /** What a line makes the program send. */
  function Issued(line: seq<Octet>): (ms: seq<Message>)
    requires Typable(line)
    ensures AllSendable(ms)
  {
    CommandSendable(line);
    if Command(line).Some? then [Command(line).value] else []
  }

  /** A line sends the message it says, or nothing if it says none. */
  lemma IssuedExactly(line: seq<Octet>, m: Option<Message>)
    requires Typable(line) && Says(line, m)
    ensures Issued(line) == if m.Some? then [m.value] else []
  {
    CommandExactly(line, m);
  }

  /** The three commands as a user types them, and any other line. */
  lemma TypedIsIssued(line: seq<Octet>, gap: string, topic: string, rest: string)
    requires Typable(line) && OneWord(topic)
    requires (forall i :: 0 <= i < |gap| ==> Space(gap[i])) && (rest == "" || Space(rest[0]))
    ensures line == "subscribe " + gap + topic + rest ==> Issued(line) == [Subscribe(topic)]
    ensures line == "unsubscribe " + gap + topic + rest ==> Issued(line) == [Unsubscribe(topic)]
    ensures line == "exit" + rest ==> Issued(line) == [Close]
    ensures !("exit" <= line) && !("subscribe" <= line) && !("unsubscribe" <= line) ==> Issued(line) == []
  {
    TypedCommands(gap, topic, rest);
  }

  /** fgets, and the newline replaced by a terminator. */
  method ReadLine(buff: array<Octet>, line: seq<Octet>)
    requires buff.Length == MAX_LEN && Typable(line)
    modifies buff
    ensures buff[..] == line + [NUL] + [NUL] + old(buff[|line| + 2..])
  {
    var newline: Octet := '\n';
    Copy(buff, 0, line + [newline] + [NUL]);
    ghost var after := old(buff[|line| + 2..]);
    assert buff[..] == (line + [newline]) + ([NUL] + after);
    CStringIs(line + [newline], [NUL] + after);
    var n := |CString(buff[..])|;
    buff[n - 1] := NUL;
  }

  /** parse_stdin_command with its three handlers: the line is read into the buffer and parsed there, the
      same buffer is cleared and refilled with the packet, and the packet is sent; a wrong command sends
      nothing. */
  method ParseStdinCommand(buff: array<Octet>, sock: Socket, line: seq<Octet>) returns (m: Option<Message>)
    requires buff.Length == MAX_LEN && Typable(line)
    modifies buff, sock`outgoing
    ensures Says(line, m) && m == Command(line)
    ensures m.None? ==> sock.outgoing == old(sock.outgoing)
    ensures m.Some? ==> SendableMessage(m.value) && sock.outgoing == old(sock.outgoing) + Serialize(MessageFrame(m.value))
    ensures sock.outgoing == old(sock.outgoing) + MessageWire(Issued(line))
  {
    ReadLine(buff, line);
    CommandInBuffer(line, buff[|line| + 2..]);
    m := CommandIn(buff[..]);
    CommandExactly(line, m);
    if m.Some? {
      CommandSendable(line);
      MessageWireOne(m.value);
      forall i | 0 <= i < buff.Length {
        buff[i] := NUL;
      }
      SendFrame(sock, buff, MessageFrame(m.value));
    }
  }

  // ---------------------------------------------------------------------------
  // Receiving commands

  /** One packet of the broker's side of a connection. */
  method ReceiveMessage(sock: Socket, buff: array<Octet>, ghost m: Message, ghost rest: seq<Octet>) returns (got: Message)
    requires SendableMessage(m) && buff.Length == MAX_LEN && sock.incoming == Serialize(MessageFrame(m)) + rest
    modifies sock`incoming, buff
    ensures got == m && sock.incoming == rest
  {
    FrameRoundTrip(MessageFrame(m), rest);
    var size := RecvTcpPacket(sock, buff);
    assert buff[..] == Serialize(MessageFrame(m)) + buff[size..];
    MessageRoundTrip(m, buff[size..]);
    got := ReadMessage(buff[..]);
  }

  /** The broker's side of a connection: however the bytes are split, successive packets give back the
      subscriber's messages, in order, through one buffer that is never cleared in between. */
  method ReceiveMessages(sock: Socket, buff: array<Octet>, n: nat, ghost ms: seq<Message>) returns (got: seq<Message>)
    requires AllSendable(ms) && n == |ms| && buff.Length == MAX_LEN && sock.incoming == MessageWire(ms)
    modifies sock`incoming, buff
    ensures got == ms && sock.incoming == []
  {
    got := [];
    ghost var fs := MessageFrames(ms);
    for i := 0 to n
      invariant got == ms[..i]
      invariant sock.incoming == Wire(fs[i..])
    {
      WireAt(fs, i);
      var m := ReceiveMessage(sock, buff, ms[i], Wire(fs[i + 1..]));
      got := got + [m];
    }
  }
}
