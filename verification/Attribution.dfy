/** Whose message is it?  Offline records keep their old descriptor, and the broker takes the first
    record that carries the descriptor a message came in on. */
module Attribution {
  import opened BrokerState
  import opened BrokerInvariant
  import opened Directory
  import TopicPattern

  // ---------------------------------------------------------------------------
  // One message: the exact condition

  lemma FirstCarrierIsFound(subs: seq<Subscriber>, i: nat)
    requires i < |subs|
    ensures FirstCarrier(subs, i) <==> IndexOf(SubFds(subs), subs[i].fd) == i
    ensures IndexOf(SubFds(subs), subs[i].fd) <= i
  {
    var fds := SubFds(subs);
    var k := IndexOf(fds, subs[i].fd);
    assert fds[i] in fds;
    assert forall j :: 0 <= j < k ==> fds[..k][j] != subs[i].fd;
    if FirstCarrier(subs, i) {
      IndexOfIs(fds, subs[i].fd, i);
    }
  }

  /** A subscription arriving on a record's descriptor reaches that record, and no other, exactly when no
      earlier record carries the same descriptor. */
  lemma SubscribeAttributedExactly(s: State, i: nat, topic: string)
    requires i < |s.subs|
    ensures HandleSubscribe(s, s.subs[i].fd, topic).subs == s.subs[i := s.subs[i].(topics := s.subs[i].topics + [topic])]
       <==> FirstCarrier(s.subs, i)
  {
    FirstCarrierIsFound(s.subs, i);
    var k := IndexOf(SubFds(s.subs), s.subs[i].fd);
    var r := HandleSubscribe(s, s.subs[i].fd, topic);
    assert |r.subs[k].topics| == |s.subs[k].topics| + 1;
  }

  /** An unsubscription takes the topic from that record, and from no other, under the same condition;
      otherwise the earlier record loses the topic or the broker halts. */
  lemma UnsubscribeAttributedExactly(s: State, i: nat, topic: string)
    requires i < |s.subs| && topic in s.subs[i].topics
    ensures HandleUnsubscribe(s, s.subs[i].fd, topic).subs
         == s.subs[i := s.subs[i].(topics := RemoveFirst(s.subs[i].topics, topic))]
       <==> FirstCarrier(s.subs, i)
  {
    FirstCarrierIsFound(s.subs, i);
    var r := HandleUnsubscribe(s, s.subs[i].fd, topic);
    assert |RemoveFirst(s.subs[i].topics, topic)| == |s.subs[i].topics| - 1;
    assert !FirstCarrier(s.subs, i) ==> r.subs[i] == s.subs[i];
  }

  /** A goodbye takes that record offline, and changes no other, under the same condition. */
  lemma CloseAttributedExactly(s: State, i: nat)
    requires i < |s.subs| && s.subs[i].online
    ensures HandleShutdown(s, s.subs[i].fd).subs == s.subs[i := s.subs[i].(online := false)]
       <==> FirstCarrier(s.subs, i)
  {
    FirstCarrierIsFound(s.subs, i);
    var r := HandleShutdown(s, s.subs[i].fd);
    assert !FirstCarrier(s.subs, i) ==> r.subs[i] == s.subs[i];
  }

  // ---------------------------------------------------------------------------
  // Whole runs: the exact condition

  /** A connection accepted on a descriptor that an earlier record carries leaves a record nobody finds. */
  lemma SharedDescriptorHides(s: State, fd: Fd, id: string)
    requires !Exclusive(s, fd, id)
    ensures !FirstCarriers(Accept(s, fd, id).subs)
  {
    var i := IndexOf(Ids(s.subs), id);
    var subs := Accept(s, fd, id).subs;
    var j :| 0 <= j < i && s.subs[j].fd == fd;
    assert subs[i].online && subs[i].fd == fd && subs[j].fd == fd;
    assert !FirstCarrier(subs, i);
  }

  lemma {:induction false} ExclusiveFirstCarriers(init: State, es: seq<Event>)
    requires Initial(init) && ExclusiveRun(init, es)
    ensures FirstCarriers(Exec(init, es).subs)
  {
    InitialInv(init);
    if Exec(init, es).status != Stopped {
      RunKeepsInv(init, es);
    } else {
      ExclusiveFirstCarriers(init, es[..|es| - 1]);
      OnlyExitStops(Exec(init, es[..|es| - 1]), es[|es| - 1]);
    }
  }

  lemma {:induction false} ExclusivePrefix(init: State, es: seq<Event>, k: nat)
    requires ExclusiveRun(init, es) && k <= |es|
    ensures ExclusiveRun(init, es[..k])
  {
    if k < |es| {
      ExclusivePrefix(init, es[..|es| - 1], k);
      assert es[..|es| - 1][..k] == es[..k];
    } else {
      assert es[..k] == es;
    }
  }

  /** At every point of the run, a message on any online record's descriptor would go to that record. */
  predicate AlwaysAttributes(init: State, es: seq<Event>) {
    forall k :: 0 <= k <= |es| ==> FirstCarriers(Exec(init, es[..k]).subs)
  }

  lemma {:induction false} AttributingRunIsExclusive(init: State, es: seq<Event>)
    requires LegalRun(init, es) && AlwaysAttributes(init, es)
    ensures ExclusiveRun(init, es)
  {
    if es != [] {
      var front, last := es[..|es| - 1], es[|es| - 1];
      forall k | 0 <= k <= |front|
        ensures FirstCarriers(Exec(init, front[..k]).subs)
      {
        assert front[..k] == es[..k];
      }
      AttributingRunIsExclusive(init, front);
      var before := Exec(init, front);
      assert es[..|es|] == es;
      if before.status == Running && last.NewConnection? && !Exclusive(before, last.fd, last.id) {
        SharedDescriptorHides(before, last.fd, last.id);
      }
    }
  }

  /** Over every legal run: all messages are attributed right at every point if and only if each connection
      accepted was given a descriptor that no record before its own carries. */
  lemma RunAttributesExactly(init: State, es: seq<Event>)
    requires Initial(init) && LegalRun(init, es)
    ensures ExclusiveRun(init, es) <==> AlwaysAttributes(init, es)
  {
    if ExclusiveRun(init, es) {
      forall k | 0 <= k <= |es|
        ensures FirstCarriers(Exec(init, es[..k]).subs)
      {
        ExclusivePrefix(init, es, k);
        ExclusiveFirstCarriers(init, es[..k]);
      }
    } else if AlwaysAttributes(init, es) {
      AttributingRunIsExclusive(init, es);
    }
  }

  lemma FreshIsExclusive(s: State, fd: Fd, id: string)
    requires Fresh(s, fd, id)
    ensures Exclusive(s, fd, id)
  {
    var i := IndexOf(Ids(s.subs), id);
    assert forall j :: 0 <= j < i ==> Ids(s.subs)[..i][j] != id;
  }

  /** It is enough that accept never returns a descriptor stored in the record of another ID. */
  lemma {:induction false} FreshRunIsExclusive(init: State, es: seq<Event>)
    requires FreshRun(init, es)
    ensures ExclusiveRun(init, es)
  {
    if es != [] {
      var before, last := Exec(init, es[..|es| - 1]), es[|es| - 1];
      FreshRunIsExclusive(init, es[..|es| - 1]);
      if before.status == Running && last.NewConnection? {
        FreshIsExclusive(before, last.fd, last.id);
      }
    }
  }

  // ---------------------------------------------------------------------------
  // What stays true when descriptors are reused

  /** Every polled client's descriptor is carried by an online record, though perhaps not by the first. */
  predicate Carried(s: State) {
    forall i :: BASE <= i < |s.polled| ==> OnlineFd(s.subs, s.polled[i].fd)
  }

  /** The last input was an unsubscribe from a topic missing in the record that the descriptor leads to. */
  predicate Missed(s: State) {
    && s.log != [] && s.log[|s.log| - 1].Read? && s.log[|s.log| - 1].msg.Unsubscribe?
    && exists fd :: PolledClient(s.polled, fd) && fd in s.net.open && s.net.open[fd] == s.log[|s.log| - 1].c
         && IndexOf(SubFds(s.subs), fd) < |s.subs|
         && s.log[|s.log| - 1].msg.topic !in s.subs[IndexOf(SubFds(s.subs), fd)].topics
  }

  predicate Accountable(s: State) {
    (s.status == Running ==> PollSound(s) && Carried(s)) && (s.status == Halted ==> Missed(s))
  }

  /** Records that keep their descriptors and stay online carry what they carried. */
  lemma SameRecordsCarry(subs: seq<Subscriber>, more: seq<Subscriber>, fd: Fd)
    requires OnlineFd(subs, fd) && |subs| <= |more|
    requires forall j :: 0 <= j < |subs| && subs[j].online ==> more[j].fd == subs[j].fd && more[j].online
    ensures OnlineFd(more, fd)
  {
    var j :| 0 <= j < |subs| && subs[j].fd == fd && subs[j].online;
    assert more[j].fd == fd && more[j].online;
  }

  lemma AcceptCarried(s: State, fd: Fd, id: string)
    requires Carried(s)
    ensures Carried(Accept(s, fd, id))
  {
    var r := Accept(s, fd, id);
    var j := IndexOf(Ids(s.subs), id);
    forall i | BASE <= i < |r.polled|
      ensures OnlineFd(r.subs, r.polled[i].fd)
    {
      if i < |s.polled| {
        SameRecordsCarry(s.subs, r.subs, s.polled[i].fd);
      } else {
        assert r.subs[j].fd == fd && r.subs[j].online;
      }
    }
  }

  /** The record the descriptor of a polled client leads to. */
  lemma CarrierFound(s: State, fd: Fd)
    requires Carried(s) && PolledClient(s.polled, fd)
    ensures IndexOf(SubFds(s.subs), fd) < |s.subs|
  {
    var j :| 0 <= j < |s.subs| && s.subs[j].fd == fd && s.subs[j].online;
    assert SubFds(s.subs)[j] == fd;
  }

  /** A message from a polled client halts the broker exactly when it is an unsubscribe from a topic that the
      record found lacks: a lookup by descriptor never fails. */
  lemma HandleHaltsExactly(s: State, i: nat)
    requires PollSound(s) && Carried(s) && s.status == Running && BASE <= i < |s.polled| && Readable(s.net, s.polled[i].fd)
    ensures var fd := s.polled[i].fd; var msg, j := NextMessage(s.net, fd), IndexOf(SubFds(s.subs), fd);
            && j < |s.subs|
            && (Handle(s, fd).status == Halted <==> msg.Unsubscribe? && msg.topic !in s.subs[j].topics)
  {
    CarrierFound(s, s.polled[i].fd);
    TheIndex(PollFds(s.polled), i);
  }

  lemma CloseCarried(s: State, i: nat)
    requires PollSound(s) && Carried(s) && BASE <= i < |s.polled|
    ensures Carried(HandleShutdown(s, s.polled[i].fd))
  {
    var fd := s.polled[i].fd;
    var j := IndexOf(SubFds(s.subs), fd);
    CarrierFound(s, fd);
    TheIndex(PollFds(s.polled), i);
    ShutdownIs(s, fd, i, j);
    DropPolled(s.subs, s.polled, j, i);
  }

  lemma HandleCarried(s: State, i: nat)
    requires PollSound(s) && Carried(s) && s.status == Running && BASE <= i < |s.polled| && Readable(s.net, s.polled[i].fd)
    ensures Carried(Handle(s, s.polled[i].fd))
  {
    var fd := s.polled[i].fd;
    var r := Handle(s, fd);
    CarrierFound(s, fd);
    if NextMessage(s.net, fd) == Close {
      CloseCarried(TakeMessage(s, fd), i);
    } else {
      forall k | BASE <= k < |r.polled|
        ensures OnlineFd(r.subs, r.polled[k].fd)
      {
        SameRecordsCarry(s.subs, r.subs, s.polled[k].fd);
      }
    }
  }

  lemma HandleAccountable(s: State, i: nat)
    requires PollSound(s) && Carried(s) && s.status == Running && BASE <= i < |s.polled| && Readable(s.net, s.polled[i].fd)
    ensures Accountable(Handle(s, s.polled[i].fd))
  {
    var fd := s.polled[i].fd;
    var r := Handle(s, fd);
    HandleHaltsExactly(s, i);
    HandleKeepsSound(s, i);
    HandleCarried(s, i);
    if r.status == Halted {
      assert r.subs == s.subs && r.polled == s.polled && r.log == TakeMessage(s, fd).log;
      assert PolledClient(r.polled, fd);
    }
  }

  lemma VisitAccountable(s: State, i: nat)
    requires Accountable(s) && s.status == Running && BASE <= i < |s.polled|
    ensures Accountable(Visit(s, i))
  {
    if s.polled[i].ready && Readable(s.net, s.polled[i].fd) {
      HandleAccountable(s, i);
    }
  }

  lemma StepAccountable(s: State, e: Event)
    requires Accountable(s) && LegalEvent(s, e)
    ensures Accountable(Step(s, e))
  {
    StepKeepsSound(s, e);
    if s.status == Running {
      match e {
        case NewConnection(fd, id) => AcceptCarried(s, fd, id);
        case Arrival(c, msg) =>
        case NewDatagram(pub) =>
        case Clients =>
          PollKeepsSound(s);
          forall t, k | Accountable(t) && t.status == Running && BASE <= k < |t.polled|
            ensures Accountable(Visit(t, k))
          {
            VisitAccountable(t, k);
          }
          ServeInduction(Accountable, Poll(s), BASE);
        case ExitCommand =>
      }
    }
  }

  /** In every legal run, descriptors reused or not, every polled client's descriptor leads to a record, and
      the broker halts only on an unsubscribe from a topic that record lacks. */
  lemma {:induction false} RunHaltsOnlyOnMiss(init: State, es: seq<Event>)
    requires Initial(init) && LegalRun(init, es)
    ensures Accountable(Exec(init, es))
  {
    if es == [] {
      InitialInv(init);
    } else {
      RunHaltsOnlyOnMiss(init, es[..|es| - 1]);
      StepAccountable(Exec(init, es[..|es| - 1]), es[|es| - 1]);
    }
  }

  // ---------------------------------------------------------------------------
  // Legal runs that go wrong

  /** A legal run that ends in `s`. */
  predicate Reaches(init: State, es: seq<Event>, s: State) {
    LegalRun(init, es) && Exec(init, es) == s
  }

  lemma Then(init: State, es: seq<Event>, s: State, e: Event)
    requires Reaches(init, es, s) && LegalEvent(s, e)
    ensures Reaches(init, es + [e], Step(s, e))
    ensures ExclusiveRun(init, es + [e]) ==> ExclusiveRun(init, es) && ExclusiveEvent(s, e)
  {
    assert (es + [e])[..|es|] == es;
  }

  predicate LowBase(polled: seq<PollFd>) {
    |polled| >= BASE && forall i :: 0 <= i < BASE ==> polled[i].fd < 5
  }

  /** Nobody is connected, after `n` connections. */
  predicate Quiet(s: State, n: nat) {
    s.status == Running && |s.polled| == BASE && LowBase(s.polled) && s.net.open == map[] && |s.net.conns| == n
  }

  /** The `n`-th connection is the only one, on `fd`, with nothing unread. */
  predicate Alone(s: State, n: nat, fd: Fd) {
    && s.status == Running && |s.polled| == BASE + 1 && LowBase(s.polled) && s.polled[BASE].fd == fd >= 5
    && 1 <= n == |s.net.conns| && s.net.open == map[fd := n - 1]
    && s.net.conns[n - 1].read == |s.net.conns[n - 1].sent|
  }

  lemma JoinsAlone(s: State, n: nat, fd: Fd, id: string)
    requires Quiet(s, n) && fd >= 5 && CheckAndAdd(s.subs, fd, id).1
    ensures var r := Step(s, NewConnection(fd, id));
            && Unused(s, fd) && Alone(r, n + 1, fd) && r.subs == CheckAndAdd(s.subs, fd, id).0
            && r.net.conns == s.net.conns + [Conn(id, [], 0, [])]
  {}

  /** A round in which a single client is polled and says one thing. */
  lemma SingleClientRound(s: State)
    requires s.status == Running && |s.polled| == BASE + 1 && Readable(s.net, s.polled[BASE].fd)
    ensures Step(s, Clients) == Handle(Poll(s), s.polled[BASE].fd)
  {
    var t := Poll(s);
    var r := Visit(t, BASE);
    assert Serve(t, BASE) == Serve(r, BASE + 1) == r;
  }

  /** The lone client's message is the one handled next. */
  lemma HeardAlone(s: State, n: nat, fd: Fd, m: Message)
    requires Alone(s, n, fd)
    ensures var t := Step(s, Arrival(n - 1, m));
            && Readable(t.net, fd) && NextMessage(t.net, fd) == m && t.subs == s.subs
            && Step(t, Clients) == Handle(Poll(t), fd)
            && |t.net.conns| == n && t.net.open == s.net.open && t.polled == s.polled
  {
    SingleClientRound(Step(s, Arrival(n - 1, m)));
  }

  lemma SubscribesAlone(s: State, n: nat, fd: Fd, topic: string, k: nat)
    requires Alone(s, n, fd) && k == IndexOf(SubFds(s.subs), fd) < |s.subs|
    ensures var r := Step(Step(s, Arrival(n - 1, Subscribe(topic))), Clients);
            Alone(r, n, fd) && r.subs == s.subs[k := s.subs[k].(topics := s.subs[k].topics + [topic])]
  {
    HeardAlone(s, n, fd, Subscribe(topic));
  }

  lemma ClosesAlone(s: State, n: nat, fd: Fd, k: nat)
    requires Alone(s, n, fd) && k == IndexOf(SubFds(s.subs), fd) < |s.subs|
    ensures var r := Step(Step(s, Arrival(n - 1, Close)), Clients);
            Quiet(r, n) && r.subs == s.subs[k := s.subs[k].(online := false)]
  {
    HeardAlone(s, n, fd, Close);
    var t := Poll(Step(s, Arrival(n - 1, Close)));
    IndexOfIs(PollFds(t.polled), fd, BASE);
    var r := Handle(t, fd);
    assert r.polled == t.polled[..BASE];
    assert r.net.open == map[];
  }

  lemma ThenJoins(init: State, es: seq<Event>, s: State, n: nat, fd: Fd, id: string) returns (es': seq<Event>, r: State)
    requires Reaches(init, es, s) && Quiet(s, n) && fd >= 5 && CheckAndAdd(s.subs, fd, id).1
    ensures Reaches(init, es', r) && Alone(r, n + 1, fd) && r.subs == CheckAndAdd(s.subs, fd, id).0
    ensures r.net.conns == s.net.conns + [Conn(id, [], 0, [])]
    ensures ExclusiveRun(init, es') ==> ExclusiveRun(init, es) && Exclusive(s, fd, id)
  {
    JoinsAlone(s, n, fd, id);
    Then(init, es, s, NewConnection(fd, id));
    es', r := es + [NewConnection(fd, id)], Step(s, NewConnection(fd, id));
  }

  lemma ThenSubscribes(init: State, es: seq<Event>, s: State, n: nat, fd: Fd, topic: string, k: nat)
    returns (es': seq<Event>, r: State)
    requires Reaches(init, es, s) && Alone(s, n, fd) && k < |s.subs| && s.subs[k].fd == fd && FirstCarrier(s.subs, k)
    ensures Reaches(init, es', r) && Alone(r, n, fd)
    ensures r.subs == s.subs[k := s.subs[k].(topics := s.subs[k].topics + [topic])]
    ensures ExclusiveRun(init, es') ==> ExclusiveRun(init, es)
  {
    FirstCarrierIsFound(s.subs, k);
    SubscribesAlone(s, n, fd, topic, k);
    var e := Arrival(n - 1, Subscribe(topic));
    Then(init, es, s, e);
    Then(init, es + [e], Step(s, e), Clients);
    es', r := es + [e] + [Clients], Step(Step(s, e), Clients);
  }

  lemma ThenCloses(init: State, es: seq<Event>, s: State, n: nat, fd: Fd, k: nat) returns (es': seq<Event>, r: State)
    requires Reaches(init, es, s) && Alone(s, n, fd) && k < |s.subs| && s.subs[k].fd == fd && FirstCarrier(s.subs, k)
    ensures Reaches(init, es', r) && Quiet(r, n) && r.subs == s.subs[k := s.subs[k].(online := false)]
    ensures ExclusiveRun(init, es') ==> ExclusiveRun(init, es)
  {
    FirstCarrierIsFound(s.subs, k);
    ClosesAlone(s, n, fd, k);
    var e := Arrival(n - 1, Close);
    Then(init, es, s, e);
    Then(init, es + [e], Step(s, e), Clients);
    es', r := es + [e] + [Clients], Step(Step(s, e), Clients);
  }

  /** A connects and leaves: its record remains, offline, with its old descriptor. */
  lemma AComesAndGoes(init: State) returns (es: seq<Event>, s: State)
    requires Initial(init) && LowBase(init.polled)
    ensures Reaches(init, es, s) && Quiet(s, 1) && s.subs == [Subscriber(5, "A", [], false)]
  {
    es, s := ThenJoins(init, [], init, 0, 5, "A");
    es, s := ThenCloses(init, es, s, 1, 5, 0);
  }

  lemma NamesDiffer()
    ensures "A" != "B" && "A" != "C" && "B" != "C"
  {
    assert "A"[0] != "B"[0] && "A"[0] != "C"[0] && "B"[0] != "C"[0];
  }

  /** B is given A's old descriptor, as the operating system may: B's subscription then lands in the record
      of A, which is offline, and B never hears of it. */
  lemma ReuseMisleads(init: State) returns (es: seq<Event>)
    requires Initial(init) && LowBase(init.polled)
    ensures LegalRun(init, es) && !ExclusiveRun(init, es) && Exec(init, es).status == Running
    ensures Exec(init, es).subs == [Subscriber(5, "A", ["x"], false), Subscriber(5, "B", [], true)]
  {
    NamesDiffer();
    var s;
    es, s := AComesAndGoes(init);
    IndexOfIs(Ids(s.subs), "B", 1);
    assert !Exclusive(s, 5, "B");
    es, s := ThenJoins(init, es, s, 1, 5, "B");
    es, s := ThenSubscribes(init, es, s, 2, 5, "x", 0);
    assert [] + ["x"] == ["x"];
  }

  /** After A, B connects on another descriptor, subscribes and leaves. */
  lemma BSubscribesAndLeaves(init: State) returns (es: seq<Event>, s: State)
    requires Initial(init) && LowBase(init.polled)
    ensures Reaches(init, es, s) && Quiet(s, 2)
    ensures s.subs == [Subscriber(5, "A", [], false), Subscriber(6, "B", ["x"], false)]
  {
    NamesDiffer();
    es, s := AComesAndGoes(init);
    IndexOfIs(Ids(s.subs), "B", 1);
    es, s := ThenJoins(init, es, s, 1, 6, "B");
    es, s := ThenSubscribes(init, es, s, 2, 6, "x", 1);
    assert [] + ["x"] == ["x"];
    es, s := ThenCloses(init, es, s, 2, 6, 1);
  }

  /** B comes back on A's old descriptor and leaves: the goodbye is A's, so B stays online on a descriptor
      that is closed. */
  lemma BStaysBehind(init: State) returns (es: seq<Event>, s: State)
    requires Initial(init) && LowBase(init.polled)
    ensures Reaches(init, es, s) && Quiet(s, 3) && !ExclusiveRun(init, es)
    ensures s.subs == [Subscriber(5, "A", [], false), Subscriber(5, "B", ["x"], true)]
  {
    NamesDiffer();
    es, s := BSubscribesAndLeaves(init);
    IndexOfIs(Ids(s.subs), "B", 1);
    assert !Exclusive(s, 5, "B");
    es, s := ThenJoins(init, es, s, 2, 5, "B");
    es, s := ThenCloses(init, es, s, 3, 5, 0);
  }

  lemma XMatchesX()
    ensures TopicPattern.MatchesTopic("x", "x")
  {
    var x := "x";
    TopicPattern.MatchIsGlob(x, x);
    assert x[1..] == "" && TopicPattern.Glob("", "");
  }

  /** Of A, who is offline, B, who holds x, and C, who may hold x: who is written to. */
  lemma RecipientsOfThree(subs: seq<Subscriber>, topic: string)
    requires TopicPattern.MatchesTopic(topic, "x") && |subs| == 3 && !subs[0].online
    requires subs[1] == Subscriber(5, "B", ["x"], true)
    requires subs[2] == Subscriber(5, "C", [], true) || subs[2] == Subscriber(5, "C", ["x"], true)
    ensures Recipients(subs, topic) == if subs[2].topics == [] then [5] else [5, 5]
  {
    assert Interested(["x"], topic) by { assert TopicPattern.MatchesTopic(topic, ["x"][0]); }
    assert subs[2..][1..] == [];
    assert Recipients(subs[2..], topic) == if subs[2].topics == [] then [] else [5];
    assert subs[1..][1..] == subs[2..];
    assert Recipients(subs[1..], topic) == [5] + Recipients(subs[2..], topic);
  }

  lemma MisdeliveredTo(s: State, pub: Publication)
    requires TopicPattern.MatchesTopic(TopicOf(pub), "x") && s.net.open == map[5 := 3] && |s.net.conns| == 4
    requires s.net.conns[3] == Conn("C", [], 0, [])
    requires s.subs == [Subscriber(5, "A", [], false), Subscriber(5, "B", ["x"], true), Subscriber(5, "C", [], true)]
    ensures Publish(s, pub).net.conns[3] == Conn("C", [], 0, [Notify(pub)]) && |Publish(s, pub).net.conns| == 4
  {
    RecipientsOfThree(s.subs, TopicOf(pub));
    var fds := [5];
    assert fds[1..] == [];
    assert WriteAll(s.net, fds, Notify(pub)) == Write(s.net, 5, Notify(pub));
    assert [] + [Notify(pub)] == [Notify(pub)];
  }

  /** And when C connects, on the same descriptor once more, it is written what B subscribed to, although C
      has asked for nothing. */
  lemma ReuseMisdelivers(init: State, pub: Publication) returns (es: seq<Event>)
    requires Initial(init) && LowBase(init.polled) && TopicOf(pub) == "x"
    ensures LegalRun(init, es) && !ExclusiveRun(init, es) && Exec(init, es).status == Running
    ensures var s := Exec(init, es);
            && |s.subs| == 3 && s.subs[2] == Subscriber(5, "C", [], true)
            && |s.net.conns| == 4 && s.net.conns[3] == Conn("C", [], 0, [Notify(pub)])
  {
    NamesDiffer();
    var s;
    es, s := BStaysBehind(init);
    IndexOfIs(Ids(s.subs), "C", 2);
    es, s := ThenJoins(init, es, s, 3, 5, "C");
    Then(init, es, s, NewDatagram(pub));
    es := es + [NewDatagram(pub)];
    XMatchesX();
    MisdeliveredTo(s, pub);
  }

  lemma WrittenTwice(s: State, pub: Publication)
    requires TopicPattern.MatchesTopic(TopicOf(pub), "x") && s.net.open == map[5 := 4] && |s.net.conns| == 5
    requires s.net.conns[4] == Conn("C", [], 0, []) && |s.subs| == 3 && !s.subs[0].online
    requires s.subs[1] == Subscriber(5, "B", ["x"], true) && s.subs[2] == Subscriber(5, "C", ["x"], true)
    ensures Publish(s, pub).net.conns[4] == Conn("C", [], 0, [Notify(pub), Notify(pub)]) && |Publish(s, pub).net.conns| == 5
  {
    RecipientsOfThree(s.subs, TopicOf(pub));
    var p := Notify(pub);
    var fds := [5, 5];
    var once := Write(s.net, 5, p);
    assert fds[1..] == [5] && [5][1..] == [];
    assert WriteAll(s.net, fds, p) == WriteAll(once, [5], p) == Write(once, 5, p);
    assert [] + [p] == [p] && [p] + [p] == [p, p];
  }

  /** Had C subscribed to the same in an earlier session, it would be written the same notification twice. */
  lemma ReuseDuplicates(init: State, pub: Publication) returns (es: seq<Event>)
    requires Initial(init) && LowBase(init.polled) && TopicOf(pub) == "x"
    ensures LegalRun(init, es) && !ExclusiveRun(init, es) && Exec(init, es).status == Running
    ensures var s := Exec(init, es);
            && |s.subs| == 3 && s.subs[2] == Subscriber(5, "C", ["x"], true)
            && |s.net.conns| == 5 && s.net.conns[4] == Conn("C", [], 0, [Notify(pub), Notify(pub)])
  {
    NamesDiffer();
    var s;
    es, s := BStaysBehind(init);
    IndexOfIs(Ids(s.subs), "C", 2);
    es, s := ThenJoins(init, es, s, 3, 7, "C");
    es, s := ThenSubscribes(init, es, s, 4, 7, "x", 2);
    assert [] + ["x"] == ["x"];
    es, s := ThenCloses(init, es, s, 4, 7, 2);
    IndexOfIs(Ids(s.subs), "C", 2);
    es, s := ThenJoins(init, es, s, 4, 5, "C");
    Then(init, es, s, NewDatagram(pub));
    es := es + [NewDatagram(pub)];
    XMatchesX();
    WrittenTwice(s, pub);
  }
}
