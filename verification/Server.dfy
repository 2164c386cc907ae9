/** The broker's code: its global tables, updated in place.  Every method is held to the state machine. */
module Server {
  import opened BrokerState
  import opened BrokerInvariant
  import TopicPattern

  const BACKLOG_MAX := 64

  /** Every entry from `i` on that poll reported ready has a message waiting. */
  predicate Reported(s: State, i: nat) {
    forall k :: i <= k < |s.polled| && s.polled[k].ready ==> Readable(s.net, s.polled[k].fd)
  }

  /** An entry still to come, in the array as it was before entry `i` was handled. */
  lemma LaterEntry(before: seq<PollFd>, after: seq<PollFd>, i: nat, k: nat) returns (k': nat)
    requires Distinct(PollFds(before)) && i < |before| && i < k < |after|
    requires after == before || after == RemoveAt(before, i)
    ensures i < k' < |before| && after[k] == before[k'] && before[k'].fd != before[i].fd
  {
    k' := if after == before then k else k + 1;
    assert PollFds(before)[i] != PollFds(before)[k'];
  }

  /** Handling one client takes nothing away from those still to come. */
  lemma ReportedLater(s: State, i: nat)
    requires PollSound(s) && BASE <= i < |s.polled| && s.polled[i].ready && Reported(s, i)
    ensures Reported(Handle(s, s.polled[i].fd), i + 1)
  {
    var fd := s.polled[i].fd;
    var r := Handle(s, fd);
    HandleKeepsSound(s, i);
    forall k | i + 1 <= k < |r.polled| && r.polled[k].ready
      ensures Readable(r.net, r.polled[k].fd)
    {
      var k' := LaterEntry(s.polled, r.polled, i, k);
      HandleOthers(s, fd, s.polled[k'].fd);
    }
  }

  lemma CloseAllStep(net: Net, fds: seq<Fd>, i: nat)
    requires i < |fds|
    ensures CloseAll(net, fds[i..]) == CloseAll(CloseFd(Write(net, fds[i], ShutdownClose), fds[i]), fds[i + 1..])
  {
    assert fds[i..][1..] == fds[i + 1..];
  }

  lemma WriteAllStep(net: Net, fds: seq<Fd>, i: nat, p: Packet)
    requires i < |fds|
    ensures WriteAll(net, fds[i..], p) == WriteAll(Write(net, fds[i], p), fds[i + 1..], p)
  {
    assert fds[i..][1..] == fds[i + 1..];
  }

  lemma {:induction false} LegalPrefix(s: State, es: seq<Event>, k: nat)
    requires LegalRun(s, es) && k < |es|
    ensures LegalEvent(Exec(s, es[..k]), es[k])
  {
    if k < |es| - 1 {
      LegalPrefix(s, es[..|es| - 1], k);
      assert es[..|es| - 1][..k] == es[..k];
    }
  }

  lemma NextEvent(s: State, es: seq<Event>, i: nat)
    requires LegalRun(s, es) && i < |es|
    ensures LegalEvent(Exec(s, es[..i]), es[i]) && Exec(s, es[..i + 1]) == Step(Exec(s, es[..i]), es[i])
  {
    LegalPrefix(s, es, i);
    assert es[..i + 1][..i] == es[..i];
  }

  lemma RecipientsStep(subs: seq<Subscriber>, topic: string, i: nat)
    requires i < |subs|
    ensures Recipients(subs[i..], topic) ==
      (if Interested(subs[i].topics, topic) && subs[i].online then [subs[i].fd] else []) + Recipients(subs[i + 1..], topic)
  {
    assert subs[i..][1..] == subs[i + 1..];
  }

  lemma FdsGrow(subs: seq<Subscriber>, sub: Subscriber, rest: seq<Fd>)
    ensures SubFds(subs + [sub]) + rest == SubFds(subs) + ([sub.fd] + rest)
  {
    assert SubFds(subs + [sub]) == SubFds(subs) + [sub.fd];
  }

  class Broker {
    var subs: seq<Subscriber>
    var fds: array<PollFd>
    var count: nat
    var net: Net
    var status: Status
    ghost var log: seq<Input>

    ghost predicate Valid()
      reads this
    {
      0 < fds.Length && count <= fds.Length
    }

    /** The state these fields hold. */
    ghost function View(): State
      reads this, fds
      requires Valid()
    {
      State(subs, fds[..count], net, log, status)
    }

    /** push_basic_fds */
    constructor (stdin: Fd, listener: Fd, udp: Fd)
      requires stdin != listener && stdin != udp && listener != udp
      ensures Valid() && fresh(fds) && Initial(View())
      ensures PollFds(View().polled) == [stdin, listener, udp]
    {
      subs, net, status, log := [], Net(map[], []), Running, [];
      var a := new PollFd[BACKLOG_MAX];
      a[0], a[1], a[2] := PollFd(stdin, false), PollFd(listener, false), PollFd(udp, false);
      fds, count := a, BASE;
    }

    /** add_new_pollfd_struc, with the array doubled when it is full. */
    method AddNewPollFd(fd: Fd)
      requires Valid()
      modifies this`fds, this`count, fds
      ensures Valid() && (fds == old(fds) || fresh(fds))
      ensures View() == old(View()).(polled := old(View()).polled + [PollFd(fd, false)])
    {
      if count == fds.Length {
        var more := new PollFd[2 * fds.Length];
        forall i | 0 <= i < fds.Length {
          more[i] := fds[i];
        }
        assert more[..count] == fds[..count];
        fds := more;
      }
      fds[count] := PollFd(fd, false);
      count := count + 1;
    }

    /** check_and_add_new_sub */
    method CheckAndAddNewSub(fd: Fd, id: string) returns (accepted: bool)
      modifies this`subs
      ensures (subs, accepted) == CheckAndAdd(old(subs), fd, id)
    {
      var i := 0;
      while i < |subs|
        invariant i <= |subs| && subs == old(subs)
        invariant forall j :: 0 <= j < i ==> subs[j].id != id
      {
        if subs[i].id == id {
          IndexOfIs(Ids(subs), id, i);
          if !subs[i].online {
            subs := subs[i := subs[i].(fd := fd, online := true)];
            return true;
          } else {
            return false;
          }
        }
        i := i + 1;
      }
      IndexOfIs(Ids(subs), id, i);
      subs := subs + [Subscriber(fd, id, [], true)];
      return true;
    }

    /** The listener's branch: accept, receive the ID, register or refuse. */
    method AcceptConnection(fd: Fd, id: string)
      requires Valid()
      modifies this, fds
      ensures Valid() && (fds == old(fds) || fresh(fds))
      ensures View() == Accept(old(View()), fd, id)
    {
      log := log + [Connected(|net.conns|, id)];
      net := Opened(net, fd, id);
      var accepted := CheckAndAddNewSub(fd, id);
      if !accepted {
        net := Write(net, fd, ShutdownIntruder);
        return;
      }
      AddNewPollFd(fd);
    }

    /** sub_is_interesed_in_topic */
    method SubIsInterested(topics: seq<string>, topic: string) returns (interested: bool)
      ensures interested <==> exists k :: 0 <= k < |topics| && TopicPattern.MatchesTopic(topic, topics[k])
      ensures interested <==> Interested(topics, topic)
    {
      var i := 0;
      while i < |topics|
        invariant i <= |topics| && forall k :: 0 <= k < i ==> !TopicPattern.MatchesTopic(topic, topics[k])
      {
        if TopicPattern.MatchesTopic(topic, topics[i]) {
          return true;
        }
        i := i + 1;
      }
      return false;
    }

    /** get_subs_by_topic */
    method GetSubsByTopic(topic: string) returns (interested: seq<Subscriber>)
      ensures SubFds(interested) == Recipients(subs, topic)
    {
      interested := [];
      var i := 0;
      while i < |subs|
        invariant i <= |subs| && SubFds(interested) + Recipients(subs[i..], topic) == Recipients(subs, topic)
      {
        var wants := SubIsInterested(subs[i].topics, topic);
        RecipientsStep(subs, topic, i);
        if wants && subs[i].online {
          FdsGrow(interested, subs[i], Recipients(subs[i + 1..], topic));
          interested := interested + [subs[i]];
        }
        i := i + 1;
      }
    }

    /** One packet to each of the subscribers found. */
    method WriteToAll(interested: seq<Subscriber>, p: Packet)
      modifies this`net
      ensures net == WriteAll(old(net), SubFds(interested), p)
    {
      ghost var start, all := net, SubFds(interested);
      var i := 0;
      while i < |interested|
        invariant i <= |interested| && WriteAll(net, all[i..], p) == WriteAll(start, all, p)
      {
        WriteAllStep(net, all, i, p);
        net := Write(net, interested[i].fd, p);
        i := i + 1;
      }
      assert all[i..] == [];
    }

    /** send_packet_to_subscribers */
    method SendPacketToSubscribers(pub: Publication)
      requires Valid()
      modifies this`net, this`log
      ensures Valid() && View() == Publish(old(View()), pub)
    {
      var interested := GetSubsByTopic(TopicOf(pub));
      WriteToAll(interested, Notify(pub));
      log := log + [Published(pub)];
    }

    /** get_subscriber_by_fd; the table's length stands for "none". */
    method GetSubscriberByFd(fd: Fd) returns (i: nat)
      ensures i == IndexOf(SubFds(subs), fd)
    {
      i := 0;
      while i < |subs|
        invariant i <= |subs| && forall j :: 0 <= j < i ==> subs[j].fd != fd
      {
        if subs[i].fd == fd {
          break;
        }
        i := i + 1;
      }
      IndexOfIs(SubFds(subs), fd, i);
    }

    /** get_poll_struc_by_fd; the count stands for "none". */
    method GetPollStrucByFd(fd: Fd) returns (i: nat)
      requires Valid()
      ensures i == IndexOf(PollFds(fds[..count]), fd)
    {
      i := 0;
      while i < count
        invariant i <= count && forall j :: 0 <= j < i ==> fds[j].fd != fd
      {
        if fds[i].fd == fd {
          break;
        }
        i := i + 1;
      }
      IndexOfIs(PollFds(fds[..count]), fd, i);
    }

    /** The shift that closes the gap at `idx`. */
    method RemovePollFd(idx: nat)
      requires Valid() && idx < count
      modifies this`count, fds
      ensures Valid() && View() == old(View()).(polled := RemoveAt(old(View()).polled, idx))
    {
      ghost var was := fds[..count];
      var i := idx;
      while i < count - 1
        invariant Valid() && count == old(count) && idx <= i <= count - 1
        invariant forall j :: 0 <= j < idx ==> fds[j] == was[j]
        invariant forall j :: idx <= j < i ==> fds[j] == was[j + 1]
        invariant forall j :: i <= j < count ==> fds[j] == was[j]
      {
        fds[i] := fds[i + 1];
        i := i + 1;
      }
      fds[count - 1] := PollFd(0, false);
      count := count - 1;
      assert fds[..count] == RemoveAt(was, idx);
    }

    /** handle_shutdown_sub */
    method HandleShutdownSub(fd: Fd)
      requires Valid()
      modifies this`subs, this`count, this`net, this`status, fds
      ensures Valid() && View() == HandleShutdown(old(View()), fd)
    {
      var i := GetSubscriberByFd(fd);
      if i == |subs| {
        status := Halted;
        return;
      }
      net := CloseFd(net, subs[i].fd);
      subs := subs[i := subs[i].(online := false)];
      var idx := GetPollStrucByFd(fd);
      if idx == count {
        status := Halted;
        return;
      }
      RemovePollFd(idx);
    }

    /** handle_subscribe */
    method AddTopic(fd: Fd, topic: string)
      requires Valid()
      modifies this`subs, this`status
      ensures Valid() && View() == HandleSubscribe(old(View()), fd, topic)
    {
      var i := GetSubscriberByFd(fd);
      if i == |subs| {
        status := Halted;
        return;
      }
      subs := subs[i := subs[i].(topics := subs[i].topics + [topic])];
    }

    /** handle_unsubscribe */
    method RemoveTopic(fd: Fd, topic: string)
      requires Valid()
      modifies this`subs, this`status
      ensures Valid() && View() == HandleUnsubscribe(old(View()), fd, topic)
    {
      var i := GetSubscriberByFd(fd);
      if i == |subs| {
        status := Halted;
        return;
      }
      var topics := subs[i].topics;
      var k := IndexOf(topics, topic);
      if k == |topics| {
        status := Halted;
        return;
      }
      subs := subs[i := subs[i].(topics := topics[..k] + topics[k + 1..])];
    }

    /** parse_tcp_client_message */
    method ParseTcpClientMessage(fd: Fd)
      requires Valid() && Readable(net, fd)
      modifies this`subs, this`count, this`net, this`status, this`log, fds
      ensures Valid() && View() == Handle(old(View()), fd)
    {
      var c := net.open[fd];
      var conn := net.conns[c];
      var msg := conn.sent[conn.read];
      log := log + [Read(c, msg)];
      net := net.(conns := net.conns[c := conn.(read := conn.read + 1)]);
      match msg {
        case Subscribe(topic) => AddTopic(fd, topic);
        case Unsubscribe(topic) => RemoveTopic(fd, topic);
        case Close => HandleShutdownSub(fd);
        case Other =>
      }
    }

    /** What poll leaves in the array when only clients are ready. */
    method PollClients()
      requires Valid()
      modifies fds
      ensures Valid() && View() == Poll(old(View()))
    {
      var i := 0;
      while i < count
        invariant i <= count
        invariant forall j :: 0 <= j < i ==> fds[j] == PollFd(old(fds[j].fd), j >= BASE && Readable(net, old(fds[j].fd)))
        invariant forall j :: i <= j < count ==> fds[j] == old(fds[j])
      {
        fds[i] := PollFd(fds[i].fd, i >= BASE && Readable(net, fds[i].fd));
        i := i + 1;
      }
      assert fds[..count] == Poll(old(View())).polled;
    }

    /** One turn of the client loop. */
    method ServeClient(i: nat)
      requires Valid() && BASE <= i < count && PollSound(View()) && Reported(View(), i)
      modifies this`subs, this`count, this`net, this`status, this`log, fds
      ensures Valid() && View() == Visit(old(View()), i)
      ensures status == Running ==> PollSound(View()) && Reported(View(), i + 1)
    {
      ghost var before := View();
      assert before.polled[i] == fds[i];
      if fds[i].ready {
        ReportedLater(before, i);
        HandleKeepsSound(before, i);
        ParseTcpClientMessage(fds[i].fd);
      }
    }

    /** The client loop, over the array that handling a message may shorten. */
    method ServeClients()
      requires Valid() && PollSound(View()) && Reported(View(), BASE) && status == Running
      modifies this`subs, this`count, this`net, this`status, this`log, fds
      ensures Valid() && View() == Serve(old(View()), BASE)
      ensures status == Running ==> PollSound(View())
    {
      ghost var start := View();
      var i := BASE;
      while i < count && status == Running
        invariant Valid() && BASE <= i
        invariant Serve(View(), i) == Serve(start, BASE)
        invariant status == Running ==> PollSound(View()) && Reported(View(), i)
        decreases count - i
      {
        ServeClient(i);
        i := i + 1;
      }
    }

    /** shutdown_server */
    method Shutdown()
      requires Valid() && count >= BASE
      modifies this`net, this`status, this`log
      ensures Valid() && View() == ShutdownServer(old(View()))
    {
      ghost var all := PollFds(fds[..count][BASE..]);
      var i := BASE;
      while i < count
        invariant log == old(log) && status == old(status)
        invariant BASE <= i <= count && CloseAll(net, all[i - BASE..]) == CloseAll(old(net), all)
      {
        assert fds[..count][BASE..][i - BASE] == fds[i];
        CloseAllStep(net, all, i - BASE);
        net := CloseFd(Write(net, fds[i].fd, ShutdownClose), fds[i].fd);
        i := i + 1;
      }
      assert all[i - BASE..] == [];
      log := log + [Exit];
      status := Stopped;
    }

    /** A message reaches the host; the broker does nothing yet. */
    method Deliver(c: nat, msg: Message)
      requires Valid()
      modifies this`net
      ensures Valid() && View() == Arrive(old(View()), c, msg)
    {
      if c < |net.conns| {
        net := net.(conns := net.conns[c := net.conns[c].(sent := net.conns[c].sent + [msg])]);
      }
    }

    /** One turn of the main loop. */
    method React(e: Event)
      requires Valid() && status == Running && PollSound(View()) && LegalEvent(View(), e)
      modifies this, fds
      ensures Valid() && (fds == old(fds) || fresh(fds))
      ensures View() == Step(old(View()), e)
      ensures status == Running ==> PollSound(View())
    {
      ghost var before := View();
      match e {
        case NewConnection(fd, id) =>
          AcceptKeepsSound(before, fd, id);
          AcceptConnection(fd, id);
        case Arrival(c, msg) =>
          Deliver(c, msg);
        case NewDatagram(pub) =>
          WriteAllKeepsSound(before, Recipients(subs, TopicOf(pub)), Notify(pub));
          SendPacketToSubscribers(pub);
        case Clients =>
          PollKeepsSound(before);
          PollClients();
          ServeClients();
        case ExitCommand =>
          Shutdown();
      }
    }

    /** start_server, for as long as the events given: the code goes through exactly the states of the
        state machine, in every run the operating system allows. */
    method Run(es: seq<Event>)
      requires Valid() && Initial(View()) && LegalRun(View(), es)
      modifies this, fds
      ensures Valid() && View() == Exec(old(View()), es)
    {
      ghost var init := View();
      var i := 0;
      while i < |es|
        invariant i <= |es| && Valid() && (fds == old(fds) || fresh(fds))
        invariant View() == Exec(init, es[..i])
        invariant status == Running ==> PollSound(View())
      {
        NextEvent(init, es, i);
        if status == Running {
          React(es[i]);
        }
        i := i + 1;
      }
      assert es[..|es|] == es;
    }
  }
}
