/** The broker as a state machine: its two tables, the connections it serves, and one function per
    thing that can happen to it. */
module BrokerState {
  import opened Bytes
  import opened Notification
  import TopicPattern

  type Fd = int

  /** A record of the subscriber table. */
  datatype Subscriber = Subscriber(fd: Fd, id: string, topics: seq<string>, online: bool)

  /** An entry of the polled array; `ready` is what the last poll reported. */
  datatype PollFd = PollFd(fd: Fd, ready: bool)

  /** What a subscriber's packet asks for. */
  datatype Message = Subscribe(topic: string) | Unsubscribe(topic: string) | Close | Other

  /** A datagram as the broker holds it, with its sender. */
  type Datagram = b: seq<Octet> | KnownType(b) witness Zeros(4096)
  datatype Publication = Publication(buff: Datagram, origin: Origin)

  /** What the broker writes to a connection. */
  datatype Packet = Notify(pub: Publication) | ShutdownClose | ShutdownIntruder

  /** A connection: the ID it announced, every message its subscriber has sent, how many of those the
      broker has read, and every packet the broker has written to it. */
  datatype Conn = Conn(id: string, sent: seq<Message>, read: nat, out: seq<Packet>)

  /** The operating system's side: open descriptors, and all connections in the order of their accept. */
  datatype Net = Net(open: map<Fd, nat>, conns: seq<Conn>)

  /** The inputs the broker consumes, kept as a history. */
  datatype Input = Connected(c: nat, id: string) | Read(c: nat, msg: Message) | Published(pub: Publication) | Exit

  /** `Halted` is the exit on a failed check, `Stopped` the one on the exit command. */
  datatype Status = Running | Halted | Stopped

  datatype State = State(subs: seq<Subscriber>, polled: seq<PollFd>, net: Net, log: seq<Input>, status: Status)

  /** The first three polled descriptors are stdin, the listener and the datagram socket. */
  const BASE := 3

  function TopicOf(pub: Publication): string {
    CString(pub.buff[..TOPIC_SIZE])
  }

  /** The topic matched is the one the subscriber will find in the packet, and the one the datagram means. */
  lemma TopicIsMeant(pub: Publication)
    ensures TopicOf(pub) == CString(NotificationFrame(pub.buff, pub.origin).payload)
    ensures TopicOf(pub) == Meaning(pub.buff, pub.origin).topic
  {
    var n := NotificationFrame(pub.buff, pub.origin).payload;
    Layout(pub.buff, pub.origin, []);
    assert n + [] == n && n == n[..TOPIC_SIZE + 1] + n[TOPIC_SIZE + 1..];
    CStringOfField(pub.buff[..TOPIC_SIZE], n[TOPIC_SIZE + 1..]);
  }

  /** A datagram written for a topic is matched under that topic. */
  lemma TopicOfPublished(topic: seq<Octet>, v: Value, origin: Origin)
    requires |topic| <= TOPIC_SIZE && NUL !in topic && InRange(v)
    ensures KnownType(Arrived(DatagramOf(topic, v)))
    ensures TopicOf(Publication(Arrived(DatagramOf(topic, v)), origin)) == topic
  {
    PublishedIsMeant(topic, v, origin);
    TopicIsMeant(Publication(Arrived(DatagramOf(topic, v)), origin));
  }

  // ---------------------------------------------------------------------------
  // Searching

  /** Index of the first occurrence, or the length when there is none. */
  function IndexOf<T(==)>(s: seq<T>, x: T): (i: nat)
    ensures i <= |s| && x !in s[..i]
    ensures i < |s| ==> s[i] == x
    ensures i < |s| <==> x in s
  {
    if s == [] || s[0] == x then 0
    else
      var i := 1 + IndexOf(s[1..], x);
      assert s[..i] == [s[0]] + s[1..][..i - 1];
      i
  }

  lemma IndexOfIs<T>(s: seq<T>, x: T, i: nat)
    requires i <= |s| && (forall j :: 0 <= j < i ==> s[j] != x) && (i < |s| ==> s[i] == x)
    ensures IndexOf(s, x) == i
  {
    var k := IndexOf(s, x);
    assert forall j :: 0 <= j < k ==> s[..k][j] != x;
  }

  function Ids(subs: seq<Subscriber>): (r: seq<string>)
    ensures |r| == |subs| && forall i :: 0 <= i < |subs| ==> r[i] == subs[i].id
  {
    seq(|subs|, i requires 0 <= i < |subs| => subs[i].id)
  }

  function SubFds(subs: seq<Subscriber>): (r: seq<Fd>)
    ensures |r| == |subs| && forall i :: 0 <= i < |subs| ==> r[i] == subs[i].fd
  {
    seq(|subs|, i requires 0 <= i < |subs| => subs[i].fd)
  }

  function PollFds(polled: seq<PollFd>): (r: seq<Fd>)
    ensures |r| == |polled| && forall i :: 0 <= i < |polled| ==> r[i] == polled[i].fd
  {
    seq(|polled|, i requires 0 <= i < |polled| => polled[i].fd)
  }

  function RemoveAt<T>(s: seq<T>, i: nat): (r: seq<T>)
    requires i < |s|
    ensures |r| == |s| - 1
  {
    s[..i] + s[i + 1..]
  }

  // ---------------------------------------------------------------------------
  // Writing to connections

  predicate IsOpen(net: Net, fd: Fd) {
    fd in net.open && net.open[fd] < |net.conns|
  }

  /** A packet written to a descriptor; one that is not open swallows it. */
  function Write(net: Net, fd: Fd, p: Packet): (r: Net)
    ensures r.open == net.open && |r.conns| == |net.conns|
  {
    if IsOpen(net, fd) then
      var c := net.open[fd];
      net.(conns := net.conns[c := net.conns[c].(out := net.conns[c].out + [p])])
    else net
  }

  function WriteAll(net: Net, fds: seq<Fd>, p: Packet): (r: Net)
    decreases |fds|
    ensures r.open == net.open && |r.conns| == |net.conns|
  {
    if fds == [] then net else WriteAll(Write(net, fds[0], p), fds[1..], p)
  }

  function CloseFd(net: Net, fd: Fd): Net {
    net.(open := net.open - {fd})
  }

  /** shutdown_server's loop: say goodbye on each descriptor and close it. */
  function CloseAll(net: Net, fds: seq<Fd>): Net
    decreases |fds|
  {
    if fds == [] then net
    else CloseAll(CloseFd(Write(net, fds[0], ShutdownClose), fds[0]), fds[1..])
  }

  // ---------------------------------------------------------------------------
  // Connecting

  /** check_and_add_new_sub: the new table, and whether the connection is accepted. */
  function CheckAndAdd(subs: seq<Subscriber>, fd: Fd, id: string): (seq<Subscriber>, bool) {
    var i := IndexOf(Ids(subs), id);
    if i == |subs| then (subs + [Subscriber(fd, id, [], true)], true)
    else if subs[i].online then (subs, false)
    else (subs[i := subs[i].(fd := fd, online := true)], true)
  }

  function Opened(net: Net, fd: Fd, id: string): Net {
    Net(net.open[fd := |net.conns|], net.conns + [Conn(id, [], 0, [])])
  }

  function Accept(s: State, fd: Fd, id: string): State {
    var net := Opened(s.net, fd, id);
    var log := s.log + [Connected(|s.net.conns|, id)];
    var (subs, accepted) := CheckAndAdd(s.subs, fd, id);
    if accepted then s.(subs := subs, polled := s.polled + [PollFd(fd, false)], net := net, log := log)
    else s.(net := Write(net, fd, ShutdownIntruder), log := log)
  }

  // ---------------------------------------------------------------------------
  // Publishing

  predicate Interested(topics: seq<string>, topic: string) {
    exists k :: 0 <= k < |topics| && TopicPattern.MatchesTopic(topic, topics[k])
  }

  /** Every held pattern counts, wherever it stands, and nothing else does. */
  lemma InterestAddsUp(a: seq<string>, b: seq<string>, p: string, topic: string)
    ensures Interested(a + b, topic) <==> Interested(a, topic) || Interested(b, topic)
    ensures !Interested([], topic)
    ensures Interested([p], topic) <==> TopicPattern.MatchesTopic(topic, p)
  {
    var all := a + b;
    assert forall k :: 0 <= k < |a| ==> all[k] == a[k];
    assert forall k :: 0 <= k < |b| ==> all[|a| + k] == b[k];
    assert TopicPattern.MatchesTopic(topic, p) ==> TopicPattern.MatchesTopic(topic, [p][0]);
  }

  /** get_subs_by_topic, as the descriptors it leads to. */
  function Recipients(subs: seq<Subscriber>, topic: string): seq<Fd> {
    if subs == [] then []
    else
      (if Interested(subs[0].topics, topic) && subs[0].online then [subs[0].fd] else [])
      + Recipients(subs[1..], topic)
  }

  function Publish(s: State, pub: Publication): State {
    s.(net := WriteAll(s.net, Recipients(s.subs, TopicOf(pub)), Notify(pub)), log := s.log + [Published(pub)])
  }

  // ---------------------------------------------------------------------------
  // Serving clients

  predicate Readable(net: Net, fd: Fd) {
    IsOpen(net, fd) && net.conns[net.open[fd]].read < |net.conns[net.open[fd]].sent|
  }

  function NextMessage(net: Net, fd: Fd): Message
    requires Readable(net, fd)
  {
    var conn := net.conns[net.open[fd]];
    conn.sent[conn.read]
  }

  /** recv_tcp_packet on `fd`, as one message taken off its connection. */
  function TakeMessage(s: State, fd: Fd): State
    requires Readable(s.net, fd)
  {
    var c := s.net.open[fd];
    var conn := s.net.conns[c];
    s.(net := s.net.(conns := s.net.conns[c := conn.(read := conn.read + 1)]),
       log := s.log + [Read(c, conn.sent[conn.read])])
  }

  function Halt(s: State): State {
    s.(status := Halted)
  }

  function HandleSubscribe(s: State, fd: Fd, topic: string): State {
    var i := IndexOf(SubFds(s.subs), fd);
    if i == |s.subs| then Halt(s)
    else s.(subs := s.subs[i := s.subs[i].(topics := s.subs[i].topics + [topic])])
  }

  function HandleUnsubscribe(s: State, fd: Fd, topic: string): State {
    var i := IndexOf(SubFds(s.subs), fd);
    if i == |s.subs| then Halt(s)
    else
      var k := IndexOf(s.subs[i].topics, topic);
      if k == |s.subs[i].topics| then Halt(s)
      else s.(subs := s.subs[i := s.subs[i].(topics := RemoveAt(s.subs[i].topics, k))])
  }

  function HandleShutdown(s: State, fd: Fd): State {
    var i := IndexOf(SubFds(s.subs), fd);
    if i == |s.subs| then Halt(s)
    else
      var t := s.(net := CloseFd(s.net, fd), subs := s.subs[i := s.subs[i].(online := false)]);
      var k := IndexOf(PollFds(s.polled), fd);
      if k == |s.polled| then Halt(t) else t.(polled := RemoveAt(s.polled, k))
  }

  /** parse_tcp_client_message */
  function Handle(s: State, fd: Fd): (r: State)
    requires Readable(s.net, fd)
    ensures |r.polled| <= |s.polled|
  {
    var t := TakeMessage(s, fd);
    match NextMessage(s.net, fd)
    case Subscribe(topic) => HandleSubscribe(t, fd, topic)
    case Unsubscribe(topic) => HandleUnsubscribe(t, fd, topic)
    case Close => HandleShutdown(t, fd)
    case Other => t
  }

  /** Handling touches connections and history only by taking the message. */
  lemma HandleTakes(s: State, fd: Fd)
    requires Readable(s.net, fd)
    ensures Handle(s, fd).net.conns == TakeMessage(s, fd).net.conns && Handle(s, fd).log == TakeMessage(s, fd).log
  {}

  /** What poll reports when no base descriptor is ready. */
  function Poll(s: State): State {
    s.(polled := seq(|s.polled|, i requires 0 <= i < |s.polled| =>
      PollFd(s.polled[i].fd, i >= BASE && Readable(s.net, s.polled[i].fd))))
  }

  /** One turn of the client loop. */
  function Visit(s: State, i: nat): (r: State)
    requires i < |s.polled|
    ensures |r.polled| <= |s.polled|
  {
    var fd := s.polled[i].fd;
    if s.polled[i].ready && Readable(s.net, fd) then Handle(s, fd) else s
  }

  /** The client loop from index `i` on, over the array it may shorten as it goes. */
  function Serve(s: State, i: nat): State
    decreases |s.polled| - i
  {
    if s.status != Running || i >= |s.polled| then s else Serve(Visit(s, i), i + 1)
  }

  // ---------------------------------------------------------------------------
  // Steps and runs

  datatype Event =
    | NewConnection(fd: Fd, id: string)  // the listener is ready: accept returns fd, the packet carries id
    | Arrival(c: nat, msg: Message)      // a subscriber's message reaches the broker's host
    | NewDatagram(pub: Publication)      // the datagram socket is ready
    | Clients                            // only client descriptors are ready
    | ExitCommand                        // stdin is ready

  function Arrive(s: State, c: nat, msg: Message): State {
    if c < |s.net.conns| then
      s.(net := s.net.(conns := s.net.conns[c := s.net.conns[c].(sent := s.net.conns[c].sent + [msg])]))
    else s
  }

  function ShutdownServer(s: State): State {
    s.(net := CloseAll(s.net, PollFds(s.polled[if |s.polled| < BASE then |s.polled| else BASE..])),
       log := s.log + [Exit], status := Stopped)
  }

  function Step(s: State, e: Event): State {
    if s.status != Running then s
    else
      match e
      case NewConnection(fd, id) => Accept(s, fd, id)
      case Arrival(c, msg) => Arrive(s, c, msg)
      case NewDatagram(pub) => Publish(s, pub)
      case Clients => Serve(Poll(s), BASE)
      case ExitCommand => ShutdownServer(s)
  }

  function Exec(s: State, es: seq<Event>): State {
    if es == [] then s else Step(Exec(s, es[..|es| - 1]), es[|es| - 1])
  }

  /** The state once push_basic_fds has run: three distinct descriptors and nobody connected. */
  predicate Initial(s: State) {
    && s.subs == [] && s.net == Net(map[], []) && s.log == [] && s.status == Running
    && |s.polled| == BASE
    && forall i, j :: 0 <= i < j < BASE ==> s.polled[i].fd != s.polled[j].fd
  }

  /** accept returns a descriptor that is not in use. */
  predicate Unused(s: State, fd: Fd) {
    fd !in s.net.open && forall i :: 0 <= i < BASE && i < |s.polled| ==> s.polled[i].fd != fd
  }

  /** The connection is refused, or no record before the one that takes it carries its descriptor. */
  predicate Exclusive(s: State, fd: Fd, id: string) {
    var i := IndexOf(Ids(s.subs), id);
    (i < |s.subs| && s.subs[i].online) || forall j :: 0 <= j < i ==> s.subs[j].fd != fd
  }

  /** No record of another ID still carries the descriptor. */
  predicate Fresh(s: State, fd: Fd, id: string) {
    forall i :: 0 <= i < |s.subs| && s.subs[i].fd == fd ==> s.subs[i].id == id
  }

  /** What the operating system guarantees. */
  predicate LegalEvent(s: State, e: Event) {
    s.status == Running && e.NewConnection? ==> Unused(s, e.fd)
  }

  predicate ExclusiveEvent(s: State, e: Event) {
    LegalEvent(s, e) && (s.status == Running && e.NewConnection? ==> Exclusive(s, e.fd, e.id))
  }

  predicate FreshEvent(s: State, e: Event) {
    LegalEvent(s, e) && (s.status == Running && e.NewConnection? ==> Fresh(s, e.fd, e.id))
  }

  predicate LegalRun(s: State, es: seq<Event>) {
    es == [] || (LegalRun(s, es[..|es| - 1]) && LegalEvent(Exec(s, es[..|es| - 1]), es[|es| - 1]))
  }

  predicate ExclusiveRun(s: State, es: seq<Event>) {
    es == [] || (ExclusiveRun(s, es[..|es| - 1]) && ExclusiveEvent(Exec(s, es[..|es| - 1]), es[|es| - 1]))
  }

  predicate FreshRun(s: State, es: seq<Event>) {
    es == [] || (FreshRun(s, es[..|es| - 1]) && FreshEvent(Exec(s, es[..|es| - 1]), es[|es| - 1]))
  }
}
