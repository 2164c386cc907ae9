/** Whole runs: the directory replayed from the history is the broker's state, and what every
    connection was sent and has been read from it is what the history says. */
module History {
  import opened BrokerState
  import opened BrokerInvariant
  import opened Directory
  import opened Refinement

  /** Each connection's messages were read in order, and it was written exactly what it is entitled to. */
  predicate Recorded(net: Net, log: seq<Input>) {
    forall c :: 0 <= c < |net.conns| ==>
      && net.conns[c].read <= |net.conns[c].sent|
      && ReadsOf(log, c) == net.conns[c].sent[..net.conns[c].read]
      && net.conns[c].out == Expected(log, c)
  }

  /** The history is clean, but for a last input that ended the run: an unsubscribe that missed, on
      which the broker halts, or the exit command. */
  predicate Ends(s: State) {
    if s.status == Running then Clean(s.log)
    else
      && s.log != [] && Clean(s.log[..|s.log| - 1])
      && (s.status == Halted ==> Missing(Replay(s.log[..|s.log| - 1]), s.log[|s.log| - 1]))
      && (s.status == Stopped ==> s.log[|s.log| - 1] == Exit)
  }

  ghost predicate Good(s: State) {
    Inv(s) && Refines(s, Replay(s.log)) && Recorded(s.net, s.log) && Ends(s) && s.status != Stopped
  }

  lemma Snoc(log: seq<Input>, x: Input)
    ensures Replay(log + [x]) == Apply(Replay(log), x)
    ensures forall c :: Expected(log + [x], c) == Expected(log, c) + Emitted(Replay(log), x, c)
    ensures forall c :: ReadsOf(log + [x], c) == ReadsOf(log, c) + if x.Read? && x.c == c then [x.msg] else []
    ensures Outside(log + [x]) == Outside(log) + if x.Read? then [] else [x]
  {
    assert (log + [x])[..|log|] == log;
  }

  lemma SnocClean(log: seq<Input>, x: Input)
    requires Clean(log) && !x.Exit?
    requires x.Read? ==> Live(Replay(log), x.c)
    requires x.Connected? ==> x.c !in Replay(log).owner
    ensures if Missing(Replay(log), x) then
              log + [x] != [] && Clean((log + [x])[..|log|]) && Missing(Replay((log + [x])[..|log|]), (log + [x])[|log|])
            else Clean(log + [x])
  {
    assert (log + [x])[..|log|] == log;
  }

  /** Connections past the known ones have no history yet. */
  lemma {:induction false} UnknownConnection(log: seq<Input>, c: nat)
    requires Clean(log) && c !in Replay(log).owner
    ensures ReadsOf(log, c) == [] && Expected(log, c) == []
  {
    if log != [] {
      UnknownConnection(log[..|log| - 1], c);
    }
  }

  // ---------------------------------------------------------------------------
  // Each kind of step

  /** The new connection, at the end of the list, and what it has been told. */
  lemma AcceptConns(s: State, fd: Fd, id: string)
    ensures var r := Accept(s, fd, id);
            && r.log == s.log + [Connected(|s.net.conns|, id)]
            && r.net.conns == s.net.conns + [Conn(id, [], 0, if CheckAndAdd(s.subs, fd, id).1 then [] else [ShutdownIntruder])]
  {
    assert [] + [ShutdownIntruder] == [ShutdownIntruder];
  }

  lemma AcceptRecorded(s: State, b: Book, fd: Fd, id: string)
    requires Recorded(s.net, s.log) && b == Replay(s.log) && Clean(s.log) && |s.net.conns| !in b.owner
    requires CheckAndAdd(s.subs, fd, id).1 <==> !IsOnline(b, id)
    ensures Recorded(Accept(s, fd, id).net, Accept(s, fd, id).log)
  {
    var c := |s.net.conns|;
    AcceptConns(s, fd, id);
    Snoc(s.log, Connected(c, id));
    UnknownConnection(s.log, c);
  }

  lemma AcceptGood(s: State, fd: Fd, id: string)
    requires Good(s) && s.status == Running && Unused(s, fd) && Exclusive(s, fd, id)
    ensures Good(Accept(s, fd, id))
  {
    var x := Connected(|s.net.conns|, id);
    AcceptKeepsInv(s, fd, id);
    AcceptRefines(s, Replay(s.log), fd, id);
    AcceptRecorded(s, Replay(s.log), fd, id);
    Snoc(s.log, x);
    SnocClean(s.log, x);
  }

  /** Reading one message moves the record of its connection along by that message. */
  lemma TakeRecorded(s: State, fd: Fd)
    requires Recorded(s.net, s.log) && SoundNet(s.net) && Readable(s.net, fd)
    ensures Recorded(TakeMessage(s, fd).net, TakeMessage(s, fd).log)
  {
    var c := s.net.open[fd];
    var conn := s.net.conns[c];
    Snoc(s.log, Read(c, NextMessage(s.net, fd)));
    assert conn.sent[..conn.read + 1] == conn.sent[..conn.read] + [conn.sent[conn.read]];
  }

  lemma HandleGood(s: State, fd: Fd)
    requires Good(s) && s.status == Running && PolledClient(s.polled, fd) && Readable(s.net, fd)
    ensures Good(Handle(s, fd))
  {
    var x := Read(s.net.open[fd], NextMessage(s.net, fd));
    HandleKeepsInv(s, fd);
    HandleRefines(s, Replay(s.log), fd);
    TakeRecorded(s, fd);
    HandleTakes(s, fd);
    Snoc(s.log, x);
    SnocClean(s.log, x);
  }

  lemma VisitGood(s: State, i: nat)
    requires Good(s) && s.status == Running && BASE <= i < |s.polled|
    ensures Good(Visit(s, i))
  {
    var fd := s.polled[i].fd;
    assert PolledClient(s.polled, fd);
    if s.polled[i].ready && Readable(s.net, fd) {
      HandleGood(s, fd);
    }
  }

  lemma ServeGood(s: State, i: nat)
    requires Good(s) && i >= BASE
    ensures Good(Serve(s, i))
  {
    forall t, k | Good(t) && t.status == Running && BASE <= k < |t.polled|
      ensures Good(Visit(t, k))
    {
      VisitGood(t, k);
    }
    ServeInduction(t => Good(t), s, i);
  }

  lemma PublishGood(s: State, pub: Publication)
    requires Good(s) && s.status == Running
    ensures Good(Publish(s, pub))
  {
    var b := Replay(s.log);
    var r := Publish(s, pub);
    WriteAllKeeps(s.subs, s.polled, s.net, Recipients(s.subs, TopicOf(pub)), Notify(pub));
    Snoc(s.log, Published(pub));
    SnocClean(s.log, Published(pub));
    forall c | 0 <= c < |s.net.conns|
      ensures r.net.conns[c] == s.net.conns[c].(out := Expected(r.log, c))
    {
      PublishOut(s, b, pub, c);
    }
  }

  lemma ArriveRecorded(net: Net, log: seq<Input>, c: nat, msg: Message)
    requires Recorded(net, log) && c < |net.conns|
    ensures Recorded(net.(conns := net.conns[c := net.conns[c].(sent := net.conns[c].sent + [msg])]), log)
  {
    var conn := net.conns[c];
    assert (conn.sent + [msg])[..conn.read] == conn.sent[..conn.read];
  }

  lemma ArriveInv(s: State, c: nat, msg: Message)
    requires Inv(s)
    ensures Inv(Arrive(s, c, msg))
  {}

  lemma ArriveRefines(s: State, b: Book, c: nat, msg: Message)
    requires Refines(s, b)
    ensures Refines(Arrive(s, c, msg), b)
  {}

  lemma ArriveGood(s: State, c: nat, msg: Message)
    requires Good(s)
    ensures Good(Arrive(s, c, msg))
  {
    ArriveInv(s, c, msg);
    ArriveRefines(s, Replay(s.log), c, msg);
    if c < |s.net.conns| {
      ArriveRecorded(s.net, s.log, c, msg);
    }
  }

  lemma {:induction false} ExitSize(net: Net, fds: seq<Fd>)
    ensures |CloseAll(net, fds).conns| == |net.conns|
    decreases |fds|
  {
    if fds != [] {
      ExitSize(CloseFd(Write(net, fds[0], ShutdownClose), fds[0]), fds[1..]);
    }
  }

  lemma ExitRecorded(s: State)
    requires Good(s) && s.status == Running
    ensures Recorded(ShutdownServer(s).net, ShutdownServer(s).log) && Ends(ShutdownServer(s))
  {
    var r := ShutdownServer(s);
    Snoc(s.log, Exit);
    assert r.log[..|s.log|] == s.log;
    ExitSize(s.net, PollFds(s.polled[BASE..]));
    forall c | 0 <= c < |s.net.conns|
      ensures r.net.conns[c] == s.net.conns[c].(out := Expected(r.log, c))
    {
      ExitOut(s, Replay(s.log), c);
    }
  }

  lemma StepGood(s: State, e: Event)
    requires Good(s) && ExclusiveEvent(s, e)
    ensures Recorded(Step(s, e).net, Step(s, e).log) && Ends(Step(s, e))
    ensures Step(s, e).status != Stopped ==> Good(Step(s, e))
  {
    if s.status == Running {
      match e {
        case NewConnection(fd, id) => AcceptGood(s, fd, id);
        case Arrival(c, msg) => ArriveGood(s, c, msg);
        case NewDatagram(pub) => PublishGood(s, pub);
        case Clients =>
          PollKeepsInv(s);
          ServeGood(Poll(s), BASE);
        case ExitCommand => ExitRecorded(s);
      }
    }
  }

  // ---------------------------------------------------------------------------
  // Runs

  lemma {:induction false} RunGood(s: State, es: seq<Event>)
    requires Good(s) && ExclusiveRun(s, es)
    ensures Recorded(Exec(s, es).net, Exec(s, es).log) && Ends(Exec(s, es))
    ensures Exec(s, es).status != Stopped ==> Good(Exec(s, es))
  {
    if es != [] {
      var before := Exec(s, es[..|es| - 1]);
      RunGood(s, es[..|es| - 1]);
      if before.status != Stopped {
        StepGood(before, es[|es| - 1]);
      }
    }
  }

  lemma InitialGood(s: State)
    requires Initial(s)
    ensures Good(s)
  {
    InitialInv(s);
  }

  /** In every exclusive run, until the exit, the record vector, the polled array and the descriptors
      are the directory that the history of inputs determines. */
  lemma RunRefinesDirectory(init: State, es: seq<Event>)
    requires Initial(init) && ExclusiveRun(init, es)
    ensures var s := Exec(init, es);
            s.status != Stopped ==> Inv(s) && Refines(s, Replay(s.log))
  {
    InitialGood(init);
    RunGood(init, es);
  }

  /** In every exclusive run each connection is written exactly what the history entitles it to: every
      publication made while it was live and its account held a matching pattern, once, in order, and
      nothing from the times it was not; and its messages are read in the order they were sent. */
  lemma RunDelivery(init: State, es: seq<Event>)
    requires Initial(init) && ExclusiveRun(init, es)
    ensures var s := Exec(init, es); Recorded(s.net, s.log) && Ends(s)
  {
    InitialGood(init);
    RunGood(init, es);
  }

  /** In every exclusive run the broker has halted exactly when the last thing it read was an unsubscribe
      from a topic its account did not hold. */
  lemma RunHaltsOnMiss(init: State, es: seq<Event>)
    requires Initial(init) && ExclusiveRun(init, es)
    ensures var s := Exec(init, es);
            s.status != Stopped ==>
              (s.status == Halted <==>
                s.log != [] && Missing(Replay(s.log[..|s.log| - 1]), s.log[|s.log| - 1]))
  {
    InitialGood(init);
    RunGood(init, es);
  }

  /** Connection `c` is the one of some online record. */
  predicate Serves(s: State, c: nat) {
    exists j :: 0 <= j < |s.subs| && s.subs[j].online && s.subs[j].fd in s.net.open && s.net.open[s.subs[j].fd] == c
  }

  lemma LiveServes(s: State, b: Book, c: nat)
    requires Inv(s) && Refines(s, b)
    ensures Live(b, c) <==> Serves(s, c)
  {
    LiveIsOnline(s, b, c);
  }

  lemma ExitFrom(s: State, c: nat)
    requires Good(s) && s.status == Running && c < |s.net.conns|
    ensures |ShutdownServer(s).net.conns| == |s.net.conns|
    ensures ShutdownServer(s).net.conns[c].out == s.net.conns[c].out + if Serves(s, c) then [ShutdownClose] else []
  {
    ExitOut(s, Replay(s.log), c);
    LiveServes(s, Replay(s.log), c);
  }

  lemma ExitCloses(s: State, fd: Fd)
    requires |s.polled| >= BASE
    ensures fd in ShutdownServer(s).net.open <==> fd in s.net.open && !PolledClient(s.polled, fd)
  {
    CloseAllCloses(s.net, PollFds(s.polled[BASE..]), fd);
    PolledClients(s.polled, fd);
  }

  /** The exit command, after any exclusive run: one goodbye on the connection of each online record, nothing
      on any other connection; and the polled clients' descriptors are closed, and no other. */
  lemma RunExit(init: State, es: seq<Event>, c: nat)
    requires Initial(init) && ExclusiveRun(init, es) && Exec(init, es).status == Running
    requires c < |Exec(init, es).net.conns|
    ensures var s := Exec(init, es); var r := Step(s, ExitCommand);
            && |r.net.conns| == |s.net.conns|
            && r.net.conns[c].out == s.net.conns[c].out + (if Serves(s, c) then [ShutdownClose] else [])
            && forall fd :: fd in r.net.open <==> fd in s.net.open && !PolledClient(s.polled, fd)
  {
    InitialGood(init);
    RunGood(init, es);
    var s := Exec(init, es);
    ExitFrom(s, c);
    forall fd
      ensures fd in ShutdownServer(s).net.open <==> fd in s.net.open && !PolledClient(s.polled, fd)
    {
      ExitCloses(s, fd);
    }
  }

  // ---------------------------------------------------------------------------
  // The history is the run's

  /** The input an event is to a broker in state `s`; client messages are inputs only once read. */
  function InputOf(s: State, e: Event): seq<Input> {
    if s.status != Running then []
    else
      match e
      case NewConnection(fd, id) => [Connected(|s.net.conns|, id)]
      case NewDatagram(pub) => [Published(pub)]
      case ExitCommand => [Exit]
      case _ => []
  }

  /** The inputs of a run, up to the point where the broker ends. */
  function InputsOf(s: State, es: seq<Event>): seq<Input> {
    if es == [] then [] else InputsOf(s, es[..|es| - 1]) + InputOf(Exec(s, es[..|es| - 1]), es[|es| - 1])
  }

  lemma VisitOutside(s: State, i: nat)
    requires i < |s.polled|
    ensures Outside(Visit(s, i).log) == Outside(s.log)
  {
    var fd := s.polled[i].fd;
    if s.polled[i].ready && Readable(s.net, fd) {
      HandleTakes(s, fd);
      Snoc(s.log, Read(s.net.open[fd], NextMessage(s.net, fd)));
    }
  }

  lemma ServeOutside(s: State)
    ensures Outside(Serve(s, BASE).log) == Outside(s.log)
  {
    var outside := Outside(s.log);
    forall t: State, k: nat | Outside(t.log) == outside && t.status == Running && BASE <= k < |t.polled|
      ensures Outside(Visit(t, k).log) == outside
    {
      VisitOutside(t, k);
    }
    ServeInduction((t: State) => Outside(t.log) == outside, s, BASE);
  }

  lemma StepOutside(s: State, e: Event)
    ensures Outside(Step(s, e).log) == Outside(s.log) + InputOf(s, e)
  {
    if s.status == Running {
      match e {
        case NewConnection(fd, id) => Snoc(s.log, Connected(|s.net.conns|, id));
        case Arrival(c, msg) =>
        case NewDatagram(pub) => Snoc(s.log, Published(pub));
        case Clients => ServeOutside(Poll(s));
        case ExitCommand => Snoc(s.log, Exit);
      }
    }
  }

  /** Connections, datagrams and the exit stand in the history exactly as the run brought them. */
  lemma {:induction false} HistoryIsTheRun(s: State, es: seq<Event>)
    ensures Outside(Exec(s, es).log) == Outside(s.log) + InputsOf(s, es)
  {
    if es != [] {
      HistoryIsTheRun(s, es[..|es| - 1]);
      StepOutside(Exec(s, es[..|es| - 1]), es[|es| - 1]);
    }
  }
}
