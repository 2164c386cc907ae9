/** Broker run, wire and subscriber put together, in both directions. */
module EndToEnd {
  import opened Wrappers
  import opened Bytes
  import opened Framing
  import opened Notification
  import opened BrokerState
  import opened BrokerInvariant
  import opened Directory
  import opened History
  import opened Accounting
  import opened Commands
  import opened SubscriberClient
  import TopicPattern

  // ---------------------------------------------------------------------------
  // From the broker to the subscriber

  /** What connection `c` is entitled to see, straight from the history: the meaning of every publication
      made while it was live and its account held a pattern matching the topic, in order. */
  function Entitled(log: seq<Input>, c: nat): seq<Notice> {
    if log == [] then []
    else
      var front, last := log[..|log| - 1], log[|log| - 1];
      Entitled(front, c)
      + if last.Published? && Receives(Replay(front), c, last.pub) then [Meaning(last.pub.buff, last.pub.origin)] else []
  }

  /** The publication at position `k` of the history is for connection `c` and means `n`. */
  predicate PublishedFor(log: seq<Input>, k: nat, c: nat, n: Notice) {
    && k < |log| && log[k].Published? && n == Meaning(log[k].pub.buff, log[k].pub.origin)
    && var b := Replay(log[..k]);
       Live(b, c) && exists p :: p in b.accounts[b.owner[c]].topics && TopicPattern.MatchesTopic(n.topic, p)
  }

  lemma PublishedEarlier(log: seq<Input>, k: nat, c: nat, n: Notice)
    requires log != [] && k < |log| - 1
    ensures PublishedFor(log, k, c, n) <==> PublishedFor(log[..|log| - 1], k, c, n)
  {
    assert log[..|log| - 1][..k] == log[..k];
  }

  /** Some publication in the history is for connection `c` and means `n`. */
  predicate PublishedIn(log: seq<Input>, c: nat, n: Notice) {
    exists k :: 0 <= k < |log| && PublishedFor(log, k, c, n)
  }

  lemma PublishedStep(log: seq<Input>, c: nat, n: Notice)
    requires log != []
    ensures PublishedIn(log, c, n) <==> PublishedIn(log[..|log| - 1], c, n) || PublishedFor(log, |log| - 1, c, n)
  {
    var front := log[..|log| - 1];
    if k :| 0 <= k < |log| && PublishedFor(log, k, c, n) {
      if k < |front| {
        PublishedEarlier(log, k, c, n);
      }
    }
    if k :| 0 <= k < |front| && PublishedFor(front, k, c, n) {
      PublishedEarlier(log, k, c, n);
    }
  }

  lemma EntitledStep(log: seq<Input>, c: nat, n: Notice)
    requires log != []
    ensures n in Entitled(log, c) <==> n in Entitled(log[..|log| - 1], c) || PublishedFor(log, |log| - 1, c, n)
  {}

  /** A notice is among those exactly when it was published, at some point when the connection was live and
      its account held a pattern that matches the notice's topic. */
  lemma {:induction false} EntitledExactly(log: seq<Input>, c: nat, n: Notice)
    ensures n in Entitled(log, c) <==> PublishedIn(log, c, n)
  {
    if log != [] {
      EntitledExactly(log[..|log| - 1], c, n);
      PublishedStep(log, c, n);
      EntitledStep(log, c, n);
    }
  }

  /** A datagram written from a topic and a value is seen, as exactly that topic and value, by the live
      connections whose account holds a match for the topic. */
  lemma EntitledToWritten(log: seq<Input>, c: nat, topic: seq<Octet>, v: Value, origin: Origin)
    requires |topic| <= TOPIC_SIZE && NUL !in topic && InRange(v)
    ensures KnownType(Arrived(DatagramOf(topic, v)))
    ensures var b := Replay(log);
            Entitled(log + [Published(Publication(Arrived(DatagramOf(topic, v)), origin))], c) == Entitled(log, c)
            + if Live(b, c) && HoldsMatch(b.accounts[b.owner[c]].topics, topic)
              then [Notice(topic, origin, KindOf(v), v)] else []
  {
    PublishedIsMeant(topic, v, origin);
    var x := Published(Publication(Arrived(DatagramOf(topic, v)), origin));
    assert (log + [x])[..|log|] == log;
  }

  predicate AllNotify(ps: seq<Packet>) {
    forall i :: 0 <= i < |ps| ==> ps[i].Notify?
  }

  lemma {:induction false} NoticesSnoc(ps: seq<Packet>, p: Packet)
    requires AllNotify(ps)
    ensures Notices(ps + [p]) == Notices(ps) + if p.Notify? then [Meaning(p.pub.buff, p.pub.origin)] else []
  {
    if ps == [] {
      assert (ps + [p])[1..] == [];
    } else {
      assert (ps + [p])[1..] == ps[1..] + [p];
      NoticesSnoc(ps[1..], p);
    }
  }

  lemma NothingSent(log: seq<Input>, c: nat)
    requires log != [] && Emitted(Replay(log[..|log| - 1]), log[|log| - 1], c) == []
    ensures Expected(log, c) == Expected(log[..|log| - 1], c) && Entitled(log, c) == Entitled(log[..|log| - 1], c)
  {}

  /** As long as the broker runs, a connection that was not refused has been sent notifications only. */
  lemma {:induction false} ExpectedNotices(log: seq<Input>, c: nat)
    requires Clean(log)
    ensures if RefusedIn(log, c) then Entitled(log, c) == []
            else AllNotify(Expected(log, c)) && Notices(Expected(log, c)) == Entitled(log, c)
  {
    if log != [] {
      var front, last := log[..|log| - 1], log[|log| - 1];
      var b := Replay(front);
      ExpectedNotices(front, c);
      if RefusedIn(front, c) {
        RefusedForever(front, c);
      } else if RefusedIn(log, c) {
        UnknownConnection(front, c);
      } else if last.Published? && Receives(b, c, last.pub) {
        NoticesSnoc(Expected(front, c), Notify(last.pub));
      } else {
        NothingSent(log, c);
      }
    }
  }

  lemma EntitledWhileRunning(log: seq<Input>, c: nat)
    requires Clean(log)
    ensures Notices(Expected(log, c)) == Entitled(log, c)
  {
    ExpectedNotices(log, c);
    if RefusedIn(log, c) {
      RefusedForever(log, c);
    }
  }

  /** The goodbye at the exit adds no notice. */
  lemma EntitledAfterExit(log: seq<Input>, c: nat)
    requires log != [] && Clean(log[..|log| - 1]) && log[|log| - 1] == Exit
    ensures Notices(Expected(log, c)) == Entitled(log, c)
  {
    var front := log[..|log| - 1];
    EntitledWhileRunning(front, c);
    ExpectedNotices(front, c);
    if Live(Replay(front), c) {
      if RefusedIn(front, c) {
        RefusedForever(front, c);
      }
      NoticesSnoc(Expected(front, c), ShutdownClose);
    } else {
      NothingSent(log, c);
    }
  }

  /** However the run ended, the notices in what a connection was sent are those it is entitled to. */
  lemma EntitledIsSent(s: State, c: nat)
    requires Ends(s)
    ensures Notices(Expected(s.log, c)) == Entitled(s.log, c)
  {
    if s.status == Running {
      EntitledWhileRunning(s.log, c);
    } else if s.status == Halted {
      EntitledWhileRunning(s.log[..|s.log| - 1], c);
      NothingSent(s.log, c);
    } else {
      EntitledAfterExit(s.log, c);
    }
  }

  /** For every exclusive run and every connection, the bytes written to it can be read as packets in one
      way only: as the packets the history entitles it to. */
  lemma BytesDetermineDelivery(init: State, es: seq<Event>, c: nat, fs: seq<Frame>)
    requires Initial(init) && ExclusiveRun(init, es) && c < |Exec(init, es).net.conns| && AllWellFormed(fs)
    requires Wire(fs) == PacketWire(Exec(init, es).net.conns[c].out)
    ensures fs == PacketFrames(Expected(Exec(init, es).log, c))
  {
    RunDelivery(init, es);
    WireInjective(fs, PacketFrames(Exec(init, es).net.conns[c].out));
  }

  /** What a session shows of the packets `ps`, when the notices in them are `all`. */
  lemma SessionShowsOf(turns: seq<Turn>, ps: seq<Packet>, all: seq<Notice>)
    requires AllTypable(turns) && Packets(turns) <= |ps| && Notices(ps) == all
    ensures SessionShows(turns, ps) <= all
    ensures NoExit(turns) ==> SessionShows(turns, ps) == all[..Min(Packets(turns), |all|)]
    ensures NoExit(turns) && Packets(turns) == |ps| ==> SessionShows(turns, ps) == all
  {
    SessionIsFaithful(turns, ps);
    NoticesPrefix(ps, Packets(turns));
    assert ps[..|ps|] == ps;
  }

  /** For every exclusive run and every connection, the subscriber program at its other end shows a beginning
      of what the history entitles it to, however its user's typing interleaves and however the bytes are
      split; and if no exit is typed, as much of it as there were packets taken. */
  method SubscriberSees(init: State, es: seq<Event>, c: nat, turns: seq<Turn>, stale: array<Octet>)
    returns (shown: seq<Notice>)
    requires Initial(init) && ExclusiveRun(init, es) && c < |Exec(init, es).net.conns| && stale.Length == MAX_LEN
    requires AllTypable(turns) && Packets(turns) <= |Exec(init, es).net.conns[c].out|
    modifies stale
    ensures shown <= Entitled(Exec(init, es).log, c)
    ensures NoExit(turns) ==>
      var all := Entitled(Exec(init, es).log, c);
      && shown == all[..Min(Packets(turns), |all|)]
      && (Packets(turns) == |Exec(init, es).net.conns[c].out| ==> shown == all)
  {
    var ps := Exec(init, es).net.conns[c].out;
    RunDelivery(init, es);
    var broker := new Socket([]);
    SendAll(broker, PacketFrames(ps));
    var client := new Socket(broker.outgoing);
    shown := RunSubscriber(client, stale, turns, ps);
    EntitledIsSent(Exec(init, es), c);
    SessionShowsOf(turns, ps, Entitled(Exec(init, es).log, c));
  }

  // ---------------------------------------------------------------------------
  // From the subscriber to the broker

  function Arrivals(c: nat, ms: seq<Message>): seq<Event> {
    if ms == [] then [] else [Arrival(c, ms[0])] + Arrivals(c, ms[1..])
  }

  /** `s` with more messages sent on connection `c`. */
  function SentMore(s: State, c: nat, ms: seq<Message>): State
    requires c < |s.net.conns|
  {
    var conn := s.net.conns[c];
    s.(net := s.net.(conns := s.net.conns[c := conn.(sent := conn.sent + ms)]))
  }

  lemma SentOneMore(s: State, c: nat, m: Message, ms: seq<Message>)
    requires c < |s.net.conns|
    ensures SentMore(s, c, []) == s && SentMore(Arrive(s, c, m), c, ms) == SentMore(s, c, [m] + ms)
  {
    var conn := s.net.conns[c];
    assert conn.sent + [] == conn.sent && conn.sent + [m] + ms == conn.sent + ([m] + ms);
    assert s.net.conns[c := conn] == s.net.conns;
  }

  lemma OneArrival(init: State, es: seq<Event>, c: nat, m: Message)
    requires ExclusiveRun(init, es) && Exec(init, es).status == Running
    ensures ExclusiveRun(init, es + [Arrival(c, m)])
    ensures Exec(init, es + [Arrival(c, m)]) == Arrive(Exec(init, es), c, m)
  {
    assert (es + [Arrival(c, m)])[..|es|] == es;
  }

  /** Messages reaching the host only lengthen what their connection has sent. */
  lemma {:induction false} ArrivalsOnlySend(init: State, es: seq<Event>, c: nat, ms: seq<Message>)
    requires ExclusiveRun(init, es) && Exec(init, es).status == Running && c < |Exec(init, es).net.conns|
    ensures ExclusiveRun(init, es + Arrivals(c, ms))
    ensures Exec(init, es + Arrivals(c, ms)) == SentMore(Exec(init, es), c, ms)
    decreases |ms|
  {
    if ms == [] {
      assert es + Arrivals(c, ms) == es;
      SentOneMore(Exec(init, es), c, Close, []);
    } else {
      var e := Arrival(c, ms[0]);
      OneArrival(init, es, c, ms[0]);
      ArrivalsOnlySend(init, es + [e], c, ms[1..]);
      Longer(es, [e], Arrivals(c, ms[1..]));
      SentOneMore(Exec(init, es), c, ms[0], ms[1..]);
      assert [ms[0]] + ms[1..] == ms;
    }
  }

  lemma ArrivedBecomeTopics(init: State, es: seq<Event>, i: nat, ms: seq<Message>)
    requires Initial(init) && ExclusiveRun(init, es) && Exec(init, es).status == Running
    requires i < |Exec(init, es).subs| && Exec(init, es).subs[i].online
    ensures IsOpen(Exec(init, es).net, Exec(init, es).subs[i].fd)
    ensures var s := Exec(init, es); var c := s.net.open[s.subs[i].fd];
            var r := Exec(init, es + Arrivals(c, ms));
            && r.subs == s.subs && c < |r.net.conns| && r.net.conns[c].read <= |r.net.conns[c].sent|
            && ApplyAll(r.subs[i].topics, r.net.conns[c].sent[r.net.conns[c].read..])
            == ApplyAll(TopicsAtConnect(s.log, c), s.net.conns[c].sent + ms)
  {
    RunConsistency(init, es, i);
    var s := Exec(init, es);
    var c := s.net.open[s.subs[i].fd];
    ArrivalsOnlySend(init, es, c, ms);
    RunConsistency(init, es + Arrivals(c, ms), i);
  }

  /** Lines typed at a subscriber's terminal, turned into packets, sent and received under any splitting,
      and read by the broker, are the commands the lines say, up to the exit. */
  method TypeLines(turns: seq<Turn>, ghost asked: seq<Option<Message>>, clientBuff: array<Octet>, serverBuff: array<Octet>)
    returns (heard: seq<Message>)
    requires AllTypable(turns) && Packets(turns) == 0 && Script(turns, asked)
    requires clientBuff.Length == MAX_LEN && serverBuff.Length == MAX_LEN
    modifies clientBuff, serverBuff
    ensures heard == UpToExit(asked)
  {
    var client := new Socket([]);
    var shown := RunSubscriber(client, clientBuff, turns, []);
    SessionIsFaithful(turns, []);
    CommandsAreSaid(turns, asked);
    var sent := CommandsOf(turns);
    var server := new Socket(client.outgoing);
    heard := ReceiveMessages(server, serverBuff, |sent|, sent);
  }

  /** The lines typed at one end are the topic list at the other: after any exclusive run, when the commands
      typed on an online subscriber's connection have reached the broker's host, the broker's topic list
      with what it has yet to read applied is the list at connect time with everything sent before and
      every command typed applied. */
  method LinesBecomeTopics(init: State, es: seq<Event>, i: nat, turns: seq<Turn>, ghost asked: seq<Option<Message>>,
                           clientBuff: array<Octet>, serverBuff: array<Octet>)
    returns (heard: seq<Message>)
    requires Initial(init) && ExclusiveRun(init, es) && Exec(init, es).status == Running
    requires i < |Exec(init, es).subs| && Exec(init, es).subs[i].online
    requires AllTypable(turns) && Packets(turns) == 0 && Script(turns, asked)
    requires clientBuff.Length == MAX_LEN && serverBuff.Length == MAX_LEN
    modifies clientBuff, serverBuff
    ensures heard == UpToExit(asked)
    ensures IsOpen(Exec(init, es).net, Exec(init, es).subs[i].fd)
    ensures var s := Exec(init, es); var c := s.net.open[s.subs[i].fd];
            var r := Exec(init, es + Arrivals(c, heard));
            && r.subs == s.subs && c < |r.net.conns| && r.net.conns[c].read <= |r.net.conns[c].sent|
            && ApplyAll(r.subs[i].topics, r.net.conns[c].sent[r.net.conns[c].read..])
            == ApplyAll(TopicsAtConnect(s.log, c), s.net.conns[c].sent + UpToExit(asked))
  {
    heard := TypeLines(turns, asked, clientBuff, serverBuff);
    ArrivedBecomeTopics(init, es, i, heard);
  }
}
