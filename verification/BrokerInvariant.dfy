/** What every step keeps: the subscriber table, the polled array and the open descriptors agree. */
module BrokerInvariant {
  import opened BrokerState

  predicate Distinct<T(==)>(s: seq<T>) {
    forall i, j :: 0 <= i < j < |s| ==> s[i] != s[j]
  }

  predicate OnlineFd(subs: seq<Subscriber>, fd: Fd) {
    exists j :: 0 <= j < |subs| && subs[j].fd == fd && subs[j].online
  }

  predicate PolledClient(polled: seq<PollFd>, fd: Fd) {
    exists i :: BASE <= i < |polled| && polled[i].fd == fd
  }

  /** No earlier record carries record `i`'s descriptor. */
  predicate FirstCarrier(subs: seq<Subscriber>, i: nat)
    requires i < |subs|
  {
    forall j :: 0 <= j < i ==> subs[j].fd != subs[i].fd
  }

  /** The lookup by descriptor finds every online record. */
  predicate FirstCarriers(subs: seq<Subscriber>) {
    forall i :: 0 <= i < |subs| && subs[i].online ==> FirstCarrier(subs, i)
  }

  /** IDs are unique, online records are found by their descriptor, and the polled clients are exactly the
      online records' descriptors. */
  predicate Tables(subs: seq<Subscriber>, polled: seq<PollFd>) {
    && Distinct(Ids(subs)) && FirstCarriers(subs)
    && |polled| >= BASE && Distinct(PollFds(polled))
    && (forall i :: BASE <= i < |polled| ==> OnlineFd(subs, polled[i].fd))
    && (forall j :: 0 <= j < |subs| && subs[j].online ==> PolledClient(polled, subs[j].fd))
  }

  predicate SoundNet(net: Net) {
    && (forall f :: f in net.open ==> net.open[f] < |net.conns|)
    && (forall f, g :: f in net.open && g in net.open && net.open[f] == net.open[g] ==> f == g)
    && (forall c :: 0 <= c < |net.conns| ==> net.conns[c].read <= |net.conns[c].sent|)
  }

  /** Every online record's descriptor is open, on a connection that announced the record's ID. */
  predicate Sessions(subs: seq<Subscriber>, net: Net) {
    forall j :: 0 <= j < |subs| && subs[j].online ==>
      IsOpen(net, subs[j].fd) && net.conns[net.open[subs[j].fd]].id == subs[j].id
  }

  predicate BaseClosed(polled: seq<PollFd>, net: Net) {
    forall i :: 0 <= i < BASE && i < |polled| ==> polled[i].fd !in net.open
  }

  predicate Inv(s: State) {
    Tables(s.subs, s.polled) && SoundNet(s.net) && Sessions(s.subs, s.net) && BaseClosed(s.polled, s.net)
  }

  /** Without duplicates the first occurrence is the only one. */
  lemma TheIndex<T>(s: seq<T>, i: nat)
    requires Distinct(s) && i < |s|
    ensures IndexOf(s, s[i]) == i
  {
    assert s[i] in s;
  }

  /** Online records have descriptors of their own. */
  lemma OnlineApart(subs: seq<Subscriber>, i: nat, j: nat)
    requires FirstCarriers(subs) && i < |subs| && j < |subs| && i != j && subs[i].online && subs[j].online
    ensures subs[i].fd != subs[j].fd
  {
    assert FirstCarrier(subs, if i < j then j else i);
  }

  // ---------------------------------------------------------------------------
  // Accepting

  lemma OpenedKeeps(s: State, fd: Fd, id: string)
    requires Inv(s) && Unused(s, fd)
    ensures var net := Opened(s.net, fd, id);
            SoundNet(net) && Sessions(s.subs, net) && BaseClosed(s.polled, net)
            && IsOpen(net, fd) && net.conns[net.open[fd]].id == id
  {}

  lemma WriteKeeps(subs: seq<Subscriber>, polled: seq<PollFd>, net: Net, fd: Fd, p: Packet)
    requires SoundNet(net) && Sessions(subs, net) && BaseClosed(polled, net)
    ensures var r := Write(net, fd, p); SoundNet(r) && Sessions(subs, r) && BaseClosed(polled, r)
  {}

  lemma PolledGrows(subs: seq<Subscriber>, polled: seq<PollFd>, fd: Fd)
    requires forall j :: 0 <= j < |subs| && subs[j].online ==> subs[j].fd == fd || PolledClient(polled, subs[j].fd)
    requires |polled| >= BASE
    ensures forall j :: 0 <= j < |subs| && subs[j].online ==> PolledClient(polled + [PollFd(fd, false)], subs[j].fd)
  {
    var more := polled + [PollFd(fd, false)];
    forall j | 0 <= j < |subs| && subs[j].online
      ensures PolledClient(more, subs[j].fd)
    {
      if subs[j].fd == fd {
        assert more[|polled|].fd == fd;
      } else {
        var i :| BASE <= i < |polled| && polled[i].fd == subs[j].fd;
        assert more[i].fd == subs[j].fd;
      }
    }
  }

  /** No polled entry carries an unused descriptor. */
  lemma UnusedIsUnpolled(s: State, fd: Fd)
    requires Inv(s) && Unused(s, fd)
    ensures forall i :: 0 <= i < |s.polled| ==> s.polled[i].fd != fd
  {}

  lemma AcceptFirstCarriers(s: State, fd: Fd, id: string)
    requires FirstCarriers(s.subs) && Sessions(s.subs, s.net) && Unused(s, fd)
    requires Exclusive(s, fd, id) && CheckAndAdd(s.subs, fd, id).1
    ensures FirstCarriers(CheckAndAdd(s.subs, fd, id).0)
  {
    var subs := CheckAndAdd(s.subs, fd, id).0;
    var i := IndexOf(Ids(s.subs), id);
    forall k | 0 <= k < |subs| && subs[k].online
      ensures FirstCarrier(subs, k)
    {
      if k != i {
        assert FirstCarrier(s.subs, k);
      }
    }
  }

  lemma AcceptTables(s: State, fd: Fd, id: string)
    requires Inv(s) && Unused(s, fd) && Exclusive(s, fd, id) && CheckAndAdd(s.subs, fd, id).1
    ensures Tables(CheckAndAdd(s.subs, fd, id).0, s.polled + [PollFd(fd, false)])
  {
    var subs, polled := CheckAndAdd(s.subs, fd, id).0, s.polled + [PollFd(fd, false)];
    var i := IndexOf(Ids(s.subs), id);
    UnusedIsUnpolled(s, fd);
    assert Distinct(PollFds(polled));
    assert forall j :: 0 <= j < |s.subs| && s.subs[j].id == id ==> j == i by {
      assert forall j :: 0 <= j < |s.subs| ==> Ids(s.subs)[j] == s.subs[j].id;
    }
    assert Distinct(Ids(subs));
    AcceptFirstCarriers(s, fd, id);
    PolledGrows(subs, s.polled, fd);
    assert subs[if i == |s.subs| then |s.subs| else i] == subs[i];
    forall k | BASE <= k < |polled|
      ensures OnlineFd(subs, polled[k].fd)
    {
      if k == |s.polled| {
        assert subs[i].fd == fd && subs[i].online;
      } else {
        var j :| 0 <= j < |s.subs| && s.subs[j].fd == s.polled[k].fd && s.subs[j].online;
        assert subs[j] == s.subs[j];
      }
    }
  }

  lemma AcceptKeepsInv(s: State, fd: Fd, id: string)
    requires Inv(s) && Unused(s, fd) && Exclusive(s, fd, id)
    ensures Inv(Accept(s, fd, id))
  {
    OpenedKeeps(s, fd, id);
    if CheckAndAdd(s.subs, fd, id).1 {
      AcceptTables(s, fd, id);
    } else {
      WriteKeeps(s.subs, s.polled, Opened(s.net, fd, id), fd, ShutdownIntruder);
    }
  }

  // ---------------------------------------------------------------------------
  // Serving

  /** Going offline or changing topics does not hide an online record. */
  lemma SameFdsSameCarriers(subs: seq<Subscriber>, less: seq<Subscriber>)
    requires FirstCarriers(subs) && |less| == |subs|
    requires forall i :: 0 <= i < |subs| ==> less[i].fd == subs[i].fd && (less[i].online ==> subs[i].online)
    ensures FirstCarriers(less)
  {
    forall i | 0 <= i < |less| && less[i].online
      ensures FirstCarrier(less, i)
    {
      assert FirstCarrier(subs, i);
    }
  }

  /** Changing one record's topics leaves the tables in agreement. */
  lemma TopicsDoNotMatter(subs: seq<Subscriber>, polled: seq<PollFd>, net: Net, i: nat, topics: seq<string>)
    requires Tables(subs, polled) && Sessions(subs, net) && i < |subs|
    ensures var more := subs[i := subs[i].(topics := topics)]; Tables(more, polled) && Sessions(more, net)
  {
    var more := subs[i := subs[i].(topics := topics)];
    assert Ids(more) == Ids(subs);
    SameFdsSameCarriers(subs, more);
    forall k | BASE <= k < |polled|
      ensures OnlineFd(more, polled[k].fd)
    {
      var j :| 0 <= j < |subs| && subs[j].fd == polled[k].fd && subs[j].online;
      assert more[j].fd == polled[k].fd && more[j].online;
    }
  }

  lemma DropPolled(subs: seq<Subscriber>, polled: seq<PollFd>, j: nat, i: nat)
    requires Distinct(PollFds(polled)) && j < |subs| && BASE <= i < |polled| && polled[i].fd == subs[j].fd
    requires forall k :: BASE <= k < |polled| ==> OnlineFd(subs, polled[k].fd)
    ensures var less, kept := subs[j := subs[j].(online := false)], RemoveAt(polled, i);
            Distinct(PollFds(kept)) && forall k :: BASE <= k < |kept| ==> OnlineFd(less, kept[k].fd)
  {
    var less, kept := subs[j := subs[j].(online := false)], RemoveAt(polled, i);
    assert PollFds(kept) == RemoveAt(PollFds(polled), i);
    forall k | BASE <= k < |kept|
      ensures OnlineFd(less, kept[k].fd)
    {
      var k' := if k < i then k else k + 1;
      var m :| 0 <= m < |subs| && subs[m].fd == polled[k'].fd && subs[m].online;
      assert PollFds(polled)[k'] != PollFds(polled)[i];
      assert less[m] == subs[m];
    }
  }

  lemma DropOnline(subs: seq<Subscriber>, polled: seq<PollFd>, j: nat, i: nat)
    requires FirstCarriers(subs) && j < |subs| && subs[j].online && BASE <= i < |polled| && polled[i].fd == subs[j].fd
    requires forall m :: 0 <= m < |subs| && subs[m].online ==> PolledClient(polled, subs[m].fd)
    ensures var less, kept := subs[j := subs[j].(online := false)], RemoveAt(polled, i);
            forall m :: 0 <= m < |less| && less[m].online ==> PolledClient(kept, less[m].fd)
  {
    var less, kept := subs[j := subs[j].(online := false)], RemoveAt(polled, i);
    forall m | 0 <= m < |less| && less[m].online
      ensures PolledClient(kept, less[m].fd)
    {
      var k :| BASE <= k < |polled| && polled[k].fd == subs[m].fd;
      OnlineApart(subs, m, j);
      assert kept[if k < i then k else k - 1] == polled[k];
    }
  }

  /** Removing a record from the online ones and its entry from the array. */
  lemma DropTables(subs: seq<Subscriber>, polled: seq<PollFd>, j: nat, i: nat)
    requires Tables(subs, polled) && j < |subs| && subs[j].online && BASE <= i < |polled| && polled[i].fd == subs[j].fd
    ensures Tables(subs[j := subs[j].(online := false)], RemoveAt(polled, i))
  {
    var less := subs[j := subs[j].(online := false)];
    assert Ids(less) == Ids(subs);
    SameFdsSameCarriers(subs, less);
    DropPolled(subs, polled, j, i);
    DropOnline(subs, polled, j, i);
  }

  lemma CloseKeeps(subs: seq<Subscriber>, polled: seq<PollFd>, net: Net, j: nat)
    requires FirstCarriers(subs) && j < |subs| && subs[j].online
    requires SoundNet(net) && Sessions(subs, net) && BaseClosed(polled, net)
    ensures var r := CloseFd(net, subs[j].fd);
            SoundNet(r) && Sessions(subs[j := subs[j].(online := false)], r) && BaseClosed(polled, r)
  {
    forall m | 0 <= m < |subs| && m != j && subs[m].online
      ensures subs[m].fd != subs[j].fd
    {
      OnlineApart(subs, m, j);
    }
  }

  /** A polled client's one entry and one record. */
  lemma ClientAt(subs: seq<Subscriber>, polled: seq<PollFd>, fd: Fd) returns (i: nat, j: nat)
    requires Tables(subs, polled) && PolledClient(polled, fd)
    ensures BASE <= i < |polled| && polled[i].fd == fd && IndexOf(PollFds(polled), fd) == i
    ensures j < |subs| && subs[j].fd == fd && subs[j].online && IndexOf(SubFds(subs), fd) == j
  {
    i :| BASE <= i < |polled| && polled[i].fd == fd;
    j :| 0 <= j < |subs| && subs[j].fd == fd && subs[j].online;
    TheIndex(PollFds(polled), i);
    assert FirstCarrier(subs, j);
    IndexOfIs(SubFds(subs), fd, j);
  }

  lemma ShutdownIs(s: State, fd: Fd, i: nat, j: nat)
    requires i == IndexOf(PollFds(s.polled), fd) < |s.polled| && j == IndexOf(SubFds(s.subs), fd) < |s.subs|
    ensures HandleShutdown(s, fd) ==
      s.(net := CloseFd(s.net, fd), subs := s.subs[j := s.subs[j].(online := false)], polled := RemoveAt(s.polled, i))
  {}

  lemma ShutdownKeepsInv(s: State, fd: Fd)
    requires Inv(s) && PolledClient(s.polled, fd)
    ensures var r := HandleShutdown(s, fd);
            Inv(r) && r.status == s.status && r.polled == RemoveAt(s.polled, IndexOf(PollFds(s.polled), fd))
  {
    var i, j := ClientAt(s.subs, s.polled, fd);
    ShutdownIs(s, fd, i, j);
    DropTables(s.subs, s.polled, j, i);
    CloseKeeps(s.subs, RemoveAt(s.polled, i), s.net, j);
  }

  lemma HandleKeepsInv(s: State, fd: Fd)
    requires Inv(s) && PolledClient(s.polled, fd) && Readable(s.net, fd)
    ensures Inv(Handle(s, fd))
    ensures NextMessage(s.net, fd) == Close ==> Handle(s, fd).status == s.status
    ensures Handle(s, fd).polled ==
      if NextMessage(s.net, fd) == Close then RemoveAt(s.polled, IndexOf(PollFds(s.polled), fd)) else s.polled
  {
    var t := TakeMessage(s, fd);
    assert Inv(t);
    var i := IndexOf(SubFds(t.subs), fd);
    match NextMessage(s.net, fd) {
      case Subscribe(topic) =>
        if i < |t.subs| {
          TopicsDoNotMatter(t.subs, t.polled, t.net, i, t.subs[i].topics + [topic]);
        }
      case Unsubscribe(topic) =>
        if i < |t.subs| {
          var k := IndexOf(t.subs[i].topics, topic);
          if k < |t.subs[i].topics| {
            TopicsDoNotMatter(t.subs, t.polled, t.net, i, RemoveAt(t.subs[i].topics, k));
          }
        }
      case Close =>
        ShutdownKeepsInv(t, fd);
      case Other =>
    }
  }

  predicate SameConn(n: Net, r: Net, fd: Fd) {
    IsOpen(n, fd) && IsOpen(r, fd) && r.open[fd] == n.open[fd] && r.conns[r.open[fd]] == n.conns[n.open[fd]]
  }

  /** Handling one descriptor leaves the connections of the others as they were. */
  lemma HandleOthers(u: State, fd: Fd, g: Fd)
    requires SoundNet(u.net) && Readable(u.net, fd) && g != fd && IsOpen(u.net, g)
    ensures SameConn(u.net, Handle(u, fd).net, g)
  {}

  lemma PollKeepsInv(s: State)
    requires Inv(s)
    ensures Inv(Poll(s)) && PollFds(Poll(s).polled) == PollFds(s.polled)
  {
    var t := Poll(s);
    assert PollFds(t.polled) == PollFds(s.polled);
    forall j | 0 <= j < |s.subs| && s.subs[j].online
      ensures PolledClient(t.polled, s.subs[j].fd)
    {
      var i :| BASE <= i < |s.polled| && s.polled[i].fd == s.subs[j].fd;
      assert t.polled[i].fd == s.subs[j].fd;
    }
    assert forall i :: 0 <= i < |t.polled| ==> t.polled[i].fd == s.polled[i].fd;
  }

  lemma VisitKeepsInv(s: State, i: nat)
    requires Inv(s) && BASE <= i < |s.polled|
    ensures Inv(Visit(s, i))
  {
    var fd := s.polled[i].fd;
    assert PolledClient(s.polled, fd);
    if s.polled[i].ready && Readable(s.net, fd) {
      HandleKeepsInv(s, fd);
    }
  }

  /** A relation between state and index that every turn of the client loop keeps holds when it ends. */
  lemma {:induction false} ServeIndexInduction(P: (State, nat) -> bool, s: State, i: nat) returns (j: nat)
    requires P(s, i) && i >= BASE
    requires forall t, k: nat :: P(t, k) && t.status == Running && BASE <= k < |t.polled| ==> P(Visit(t, k), k + 1)
    ensures P(Serve(s, i), j) && (Serve(s, i).status == Running ==> j >= |Serve(s, i).polled|)
    decreases |s.polled| - i
  {
    if s.status == Running && i < |s.polled| {
      j := ServeIndexInduction(P, Visit(s, i), i + 1);
    } else {
      j := i;
    }
  }

  /** What every turn of the client loop keeps, the whole loop keeps. */
  lemma ServeInduction(P: State -> bool, s: State, i: nat)
    requires P(s) && i >= BASE
    requires forall t, k :: P(t) && t.status == Running && BASE <= k < |t.polled| ==> P(Visit(t, k))
    ensures P(Serve(s, i))
  {
    var j := ServeIndexInduction((t: State, k: nat) => P(t), s, i);
  }

  lemma ServeKeepsInv(s: State, i: nat)
    requires Inv(s) && i >= BASE
    ensures Inv(Serve(s, i))
  {
    forall t, k | Inv(t) && t.status == Running && BASE <= k < |t.polled|
      ensures Inv(Visit(t, k))
    {
      VisitKeepsInv(t, k);
    }
    ServeInduction(Inv, s, i);
  }

  // ---------------------------------------------------------------------------
  // Publishing, arrivals, steps and runs

  lemma {:induction false} WriteAllKeeps(subs: seq<Subscriber>, polled: seq<PollFd>, net: Net, fds: seq<Fd>, p: Packet)
    requires SoundNet(net) && Sessions(subs, net) && BaseClosed(polled, net)
    ensures var r := WriteAll(net, fds, p); SoundNet(r) && Sessions(subs, r) && BaseClosed(polled, r)
    decreases |fds|
  {
    if fds != [] {
      WriteKeeps(subs, polled, net, fds[0], p);
      WriteAllKeeps(subs, polled, Write(net, fds[0], p), fds[1..], p);
    }
  }

  /** Every step but the exit keeps the invariant. */
  lemma StepKeepsInv(s: State, e: Event)
    requires Inv(s) && ExclusiveEvent(s, e) && Step(s, e).status != Stopped
    ensures Inv(Step(s, e))
  {
    if s.status == Running {
      match e {
        case NewConnection(fd, id) => AcceptKeepsInv(s, fd, id);
        case Arrival(c, msg) =>
        case NewDatagram(pub) => WriteAllKeeps(s.subs, s.polled, s.net, Recipients(s.subs, TopicOf(pub)), Notify(pub));
        case Clients =>
          PollKeepsInv(s);
          ServeKeepsInv(Poll(s), BASE);
        case ExitCommand =>
      }
    }
  }

  /** In every exclusive run, up to the exit, the tables agree. */
  lemma {:induction false} RunKeepsInv(s: State, es: seq<Event>)
    requires Inv(s) && ExclusiveRun(s, es) && Exec(s, es).status != Stopped
    ensures Inv(Exec(s, es))
  {
    if es != [] {
      RunKeepsInv(s, es[..|es| - 1]);
      StepKeepsInv(Exec(s, es[..|es| - 1]), es[|es| - 1]);
    }
  }

  lemma InitialInv(s: State)
    requires Initial(s)
    ensures Inv(s)
  {}

  /** A run stops only on the exit command. */
  lemma OnlyExitStops(s: State, e: Event)
    requires Step(s, e).status == Stopped
    ensures Step(s, e) == if s.status == Running then ShutdownServer(s) else s
  {
    if s.status == Running && e.Clients? {
      ServeInduction((t: State) => t.status != Stopped, Poll(s), BASE);
    }
  }

  // ---------------------------------------------------------------------------
  // What holds with no assumption on reused descriptors

  /** The polled descriptors are distinct, and the clients among them are open. */
  predicate PollSound(s: State) {
    && |s.polled| >= BASE && Distinct(PollFds(s.polled)) && SoundNet(s.net) && BaseClosed(s.polled, s.net)
    && forall i :: BASE <= i < |s.polled| ==> s.polled[i].fd in s.net.open
  }

  lemma InvIsPollSound(s: State)
    requires Inv(s)
    ensures PollSound(s)
  {}

  lemma RemoveKeepsSound(polled: seq<PollFd>, net: Net, i: nat)
    requires BASE <= i < |polled| && Distinct(PollFds(polled)) && SoundNet(net) && BaseClosed(polled, net)
    requires forall k :: BASE <= k < |polled| ==> polled[k].fd in net.open
    ensures var kept, r := RemoveAt(polled, i), CloseFd(net, polled[i].fd);
            && Distinct(PollFds(kept)) && SoundNet(r) && BaseClosed(kept, r)
            && forall k :: BASE <= k < |kept| ==> kept[k].fd in r.open
  {
    var kept := RemoveAt(polled, i);
    assert PollFds(kept) == RemoveAt(PollFds(polled), i);
    forall k | BASE <= k < |kept|
      ensures kept[k].fd in net.open && kept[k].fd != polled[i].fd
    {
      var k' := if k < i then k else k + 1;
      assert PollFds(polled)[k'] != PollFds(polled)[i];
    }
  }

  /** What handling the entry at `i` does to the array, if the broker goes on. */
  lemma HandlePolled(s: State, i: nat)
    requires Distinct(PollFds(s.polled)) && i < |s.polled| && Readable(s.net, s.polled[i].fd)
    ensures var r, close := Handle(s, s.polled[i].fd), NextMessage(s.net, s.polled[i].fd) == Close;
            && (r.polled == s.polled || r.polled == RemoveAt(s.polled, i))
            && (r.status == Running ==>
                  && r.polled == (if close then RemoveAt(s.polled, i) else s.polled)
                  && r.net.open == if close then s.net.open - {s.polled[i].fd} else s.net.open)
  {
    TheIndex(PollFds(s.polled), i);
  }

  lemma HandleKeepsSound(s: State, i: nat)
    requires PollSound(s) && BASE <= i < |s.polled| && Readable(s.net, s.polled[i].fd)
    ensures var r := Handle(s, s.polled[i].fd);
            && (r.polled == s.polled || r.polled == RemoveAt(s.polled, i))
            && (r.status == Running ==>
                  PollSound(r) &&
                  r.polled == if NextMessage(s.net, s.polled[i].fd) == Close then RemoveAt(s.polled, i) else s.polled)
  {
    var fd := s.polled[i].fd;
    var t := TakeMessage(s, fd);
    assert SoundNet(t.net);
    HandlePolled(s, i);
    HandleTakes(s, fd);
    RemoveKeepsSound(t.polled, t.net, i);
  }

  lemma PollKeepsSound(s: State)
    requires PollSound(s)
    ensures PollSound(Poll(s))
  {
    assert PollFds(Poll(s).polled) == PollFds(s.polled);
  }

  lemma AcceptKeepsSound(s: State, fd: Fd, id: string)
    requires PollSound(s) && Unused(s, fd)
    ensures PollSound(Accept(s, fd, id))
  {
    var net := Opened(s.net, fd, id);
    assert SoundNet(net) && BaseClosed(s.polled, net);
    assert forall i :: 0 <= i < |s.polled| ==> PollFds(s.polled)[i] != fd;
    assert PollFds(s.polled + [PollFd(fd, false)]) == PollFds(s.polled) + [fd];
  }

  lemma WriteAllKeepsSound(s: State, fds: seq<Fd>, p: Packet)
    requires PollSound(s)
    ensures PollSound(s.(net := WriteAll(s.net, fds, p)))
  {
    WriteAllKeeps([], s.polled, s.net, fds, p);
  }

  lemma VisitKeepsSound(s: State, i: nat)
    requires PollSound(s) && BASE <= i < |s.polled|
    ensures Visit(s, i).status == Running ==> PollSound(Visit(s, i))
  {
    var fd := s.polled[i].fd;
    if s.polled[i].ready && Readable(s.net, fd) {
      HandleKeepsSound(s, i);
    }
  }

  lemma StepKeepsSound(s: State, e: Event)
    requires LegalEvent(s, e) && (s.status == Running ==> PollSound(s))
    ensures Step(s, e).status == Running ==> PollSound(Step(s, e))
  {
    if s.status == Running {
      match e {
        case NewConnection(fd, id) => AcceptKeepsSound(s, fd, id);
        case Arrival(c, msg) =>
        case NewDatagram(pub) => WriteAllKeepsSound(s, Recipients(s.subs, TopicOf(pub)), Notify(pub));
        case Clients =>
          PollKeepsSound(s);
          forall t: State, k: nat | (t.status == Running ==> PollSound(t)) && t.status == Running && BASE <= k < |t.polled|
            ensures Visit(t, k).status == Running ==> PollSound(Visit(t, k))
          {
            VisitKeepsSound(t, k);
          }
          ServeInduction((t: State) => t.status == Running ==> PollSound(t), Poll(s), BASE);
        case ExitCommand =>
      }
    }
  }

  /** In every run the operating system allows, reused descriptors or not, the polled clients are distinct
      and open. */
  lemma {:induction false} RunKeepsSound(s: State, es: seq<Event>)
    requires PollSound(s) && LegalRun(s, es)
    ensures Exec(s, es).status == Running ==> PollSound(Exec(s, es))
  {
    if es != [] {
      RunKeepsSound(s, es[..|es| - 1]);
      StepKeepsSound(Exec(s, es[..|es| - 1]), es[|es| - 1]);
    }
  }
}
