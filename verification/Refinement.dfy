/** The record table, the polled array and the descriptors together are the directory of accounts. */
module Refinement {
  import opened BrokerState
  import opened BrokerInvariant
  import opened Directory

  function SessionOf(open: map<Fd, nat>, sub: Subscriber): Session {
    if sub.online && sub.fd in open then Online(open[sub.fd]) else Offline
  }

  function AccountOf(open: map<Fd, nat>, sub: Subscriber): Account {
    Account(SessionOf(open, sub), sub.topics)
  }

  /** The accounts are the records, one for one. */
  predicate Accounts(subs: seq<Subscriber>, open: map<Fd, nat>, accounts: map<string, Account>) {
    && (forall i :: 0 <= i < |subs| ==> subs[i].id in accounts && accounts[subs[i].id] == AccountOf(open, subs[i]))
    && (forall id :: id in accounts ==> id in Ids(subs))
  }

  /** Connections are owned by the ID they announced. */
  ghost predicate Owners(conns: seq<Conn>, owner: map<nat, string>) {
    && (forall c: nat :: c in owner <==> c < |conns|)
    && (forall c: nat :: c < |conns| ==> owner[c] == conns[c].id)
  }

  ghost predicate Refines(s: State, b: Book) {
    Accounts(s.subs, s.net.open, b.accounts) && Owners(s.net.conns, b.owner)
  }

  /** A connection is live exactly when some online record's descriptor leads to it. */
  lemma LiveIsOnline(s: State, b: Book, c: nat)
    requires Inv(s) && Refines(s, b)
    ensures Live(b, c) <==>
      exists j :: 0 <= j < |s.subs| && s.subs[j].online && s.net.open[s.subs[j].fd] == c
  {
    if Live(b, c) {
      var j := IndexOf(Ids(s.subs), b.owner[c]);
      assert s.subs[j].id == b.owner[c];
      assert s.subs[j].online && s.net.open[s.subs[j].fd] == c;
    }
    if j :| 0 <= j < |s.subs| && s.subs[j].online && s.net.open[s.subs[j].fd] == c {
      assert b.owner[c] == s.subs[j].id;
    }
  }

  /** Replacing one record is replacing one account. */
  lemma SetRecord(subs: seq<Subscriber>, open: map<Fd, nat>, accounts: map<string, Account>,
                  j: nat, sub: Subscriber, open': map<Fd, nat>)
    requires Distinct(Ids(subs)) && Accounts(subs, open, accounts) && j < |subs| && sub.id == subs[j].id
    requires forall k :: 0 <= k < |subs| && k != j ==> SessionOf(open', subs[k]) == SessionOf(open, subs[k])
    ensures Accounts(subs[j := sub], open', accounts[sub.id := AccountOf(open', sub)])
  {
    assert Ids(subs[j := sub]) == Ids(subs);
    assert forall k :: 0 <= k < |subs| && k != j ==> Ids(subs)[k] != Ids(subs)[j];
  }

  lemma AddRecord(subs: seq<Subscriber>, open: map<Fd, nat>, accounts: map<string, Account>,
                  sub: Subscriber, open': map<Fd, nat>)
    requires Accounts(subs, open, accounts) && sub.id !in Ids(subs)
    requires forall k :: 0 <= k < |subs| ==> SessionOf(open', subs[k]) == SessionOf(open, subs[k])
    ensures Accounts(subs + [sub], open', accounts[sub.id := AccountOf(open', sub)])
  {
    assert Ids(subs + [sub]) == Ids(subs) + [sub.id];
  }

  lemma OwnersGrow(conns: seq<Conn>, owner: map<nat, string>, id: string)
    requires Owners(conns, owner)
    ensures Owners(conns + [Conn(id, [], 0, [])], owner[|conns| := id])
  {}

  lemma WriteOwners(net: Net, fd: Fd, p: Packet, owner: map<nat, string>)
    requires Owners(net.conns, owner)
    ensures Owners(Write(net, fd, p).conns, owner)
  {}

  lemma AcceptRefines(s: State, b: Book, fd: Fd, id: string)
    requires Inv(s) && Refines(s, b) && Unused(s, fd)
    ensures Refines(Accept(s, fd, id), Apply(b, Connected(|s.net.conns|, id)))
    ensures CheckAndAdd(s.subs, fd, id).1 <==> !IsOnline(b, id)
    ensures Accept(s, fd, id).net.open == s.net.open[fd := |s.net.conns|]
  {
    var net := Opened(s.net, fd, id);
    var i := IndexOf(Ids(s.subs), id);
    OwnersGrow(s.net.conns, b.owner, id);
    WriteOwners(net, fd, ShutdownIntruder, b.owner[|s.net.conns| := id]);
    assert forall k :: 0 <= k < |s.subs| ==> SessionOf(net.open, s.subs[k]) == SessionOf(s.net.open, s.subs[k]);
    if i == |s.subs| {
      AddRecord(s.subs, s.net.open, b.accounts, Subscriber(fd, id, [], true), net.open);
    } else {
      assert s.subs[i].id == id;
      if !s.subs[i].online {
        SetRecord(s.subs, s.net.open, b.accounts, i, s.subs[i].(fd := fd, online := true), net.open);
      }
    }
  }

  /** What handling a message does to the table and to the open descriptors, given where the
      descriptor's record and entry are. */
  lemma HandleEffect(s: State, fd: Fd, j: nat)
    requires Readable(s.net, fd) && j == IndexOf(SubFds(s.subs), fd) < |s.subs| && s.subs[j].online
    requires IndexOf(PollFds(s.polled), fd) < |s.polled|
    ensures var msg, r := NextMessage(s.net, fd), Handle(s, fd);
            && r.subs == s.subs[j := s.subs[j].(topics := ApplyToTopics(s.subs[j].topics, msg), online := msg != Close)]
            && r.net.open == (if msg == Close then s.net.open - {fd} else s.net.open)
            && r.net.conns == TakeMessage(s, fd).net.conns
            && r.status == if msg.Unsubscribe? && msg.topic !in s.subs[j].topics then Halted else s.status
  {
    assert s.subs[j := s.subs[j]] == s.subs;
  }

  /** The account of record `j` follows the message handled for it. */
  lemma HandleAccounts(s: State, b: Book, fd: Fd, j: nat)
    requires Readable(s.net, fd) && j == IndexOf(SubFds(s.subs), fd) < |s.subs| && s.subs[j].online
    requires IndexOf(PollFds(s.polled), fd) < |s.polled|
    requires Distinct(Ids(s.subs)) && FirstCarriers(s.subs) && Accounts(s.subs, s.net.open, b.accounts)
    ensures var msg, id, r := NextMessage(s.net, fd), s.subs[j].id, Handle(s, fd);
            && b.accounts[id] == Account(Online(s.net.open[fd]), s.subs[j].topics)
            && Accounts(r.subs, r.net.open, b.accounts[id := ApplyToAccount(b.accounts[id], msg)])
  {
    var r := Handle(s, fd);
    HandleEffect(s, fd, j);
    forall k | 0 <= k < |s.subs| && k != j
      ensures SessionOf(r.net.open, s.subs[k]) == SessionOf(s.net.open, s.subs[k])
    {
      if s.subs[k].online {
        OnlineApart(s.subs, k, j);
      }
    }
    SetRecord(s.subs, s.net.open, b.accounts, j, r.subs[j], r.net.open);
  }

  lemma TakeOwners(s: State, fd: Fd, owner: map<nat, string>)
    requires Readable(s.net, fd) && Owners(s.net.conns, owner)
    ensures Owners(TakeMessage(s, fd).net.conns, owner)
  {}

  /** The message read from a polled client goes to the account that owns the connection. */
  lemma HandleRefines(s: State, b: Book, fd: Fd)
    requires Inv(s) && Refines(s, b) && PolledClient(s.polled, fd) && Readable(s.net, fd)
    ensures var c, msg, r := s.net.open[fd], NextMessage(s.net, fd), Handle(s, fd);
            && Live(b, c) && Refines(r, Apply(b, Read(c, msg)))
            && r.net.open == (if msg == Close then s.net.open - {fd} else s.net.open)
            && r.status == if Missing(b, Read(c, msg)) then Halted else s.status
  {
    var c := s.net.open[fd];
    var i, j := ClientAt(s.subs, s.polled, fd);
    HandleAccounts(s, b, fd, j);
    HandleEffect(s, fd, j);
    assert b.owner[c] == s.subs[j].id;
    TakeOwners(s, fd, b.owner);
  }

  // ---------------------------------------------------------------------------
  // Writes

  /** The net with only what was written changed. */
  predicate OnlyOut(net: Net, r: Net) {
    && |r.conns| == |net.conns|
    && forall c :: 0 <= c < |net.conns| ==> r.conns[c] == net.conns[c].(out := r.conns[c].out)
  }

  /** One packet to each of several descriptors reaches each of their connections once and no other. */
  lemma {:induction false} WriteAllOut(net: Net, fds: seq<Fd>, p: Packet, c: nat)
    requires SoundNet(net) && Distinct(fds) && c < |net.conns|
    ensures OnlyOut(net, WriteAll(net, fds, p))
    ensures WriteAll(net, fds, p).conns[c].out ==
      net.conns[c].out + if exists f :: f in fds && f in net.open && net.open[f] == c then [p] else []
    decreases |fds|
  {
    if fds == [] {
    } else {
      var f := fds[0];
      var mid := Write(net, f, p);
      assert SoundNet(mid);
      WriteAllOut(mid, fds[1..], p, c);
      assert fds == [f] + fds[1..];
      assert f !in fds[1..];
      if f in net.open && net.open[f] == c {
        assert !exists g :: g in fds[1..] && g in net.open && net.open[g] == c;
      } else {
        assert mid.conns[c] == net.conns[c];
      }
    }
  }

  /** The goodbye loop writes once to each of the descriptors' connections and to no other. */
  lemma {:induction false} CloseAllOut(net: Net, fds: seq<Fd>, c: nat)
    requires SoundNet(net) && Distinct(fds) && c < |net.conns|
    ensures OnlyOut(net, CloseAll(net, fds))
    ensures CloseAll(net, fds).conns[c].out ==
      net.conns[c].out + if exists f :: f in fds && f in net.open && net.open[f] == c then [ShutdownClose] else []
    decreases |fds|
  {
    if fds == [] {
    } else {
      var f := fds[0];
      var mid := CloseFd(Write(net, f, ShutdownClose), f);
      assert SoundNet(mid);
      CloseAllOut(mid, fds[1..], c);
      assert fds == [f] + fds[1..];
      assert f !in fds[1..];
      if f in net.open && net.open[f] == c {
        assert !exists g :: g in fds[1..] && g in mid.open && mid.open[g] == c;
      } else {
        assert mid.conns[c] == net.conns[c];
        assert forall g :: g in fds[1..] && g in net.open ==> g in mid.open && mid.open[g] == net.open[g];
      }
    }
  }

  /** The goodbye loop closes its descriptors and no other. */
  lemma {:induction false} CloseAllCloses(net: Net, fds: seq<Fd>, f: Fd)
    ensures f in CloseAll(net, fds).open <==> f in net.open && f !in fds
    decreases |fds|
  {
    if fds != [] {
      CloseAllCloses(CloseFd(Write(net, fds[0], ShutdownClose), fds[0]), fds[1..], f);
      assert fds == [fds[0]] + fds[1..];
    }
  }

  predicate Wants(sub: Subscriber, topic: string) {
    sub.online && HoldsMatch(sub.topics, topic)
  }

  lemma {:induction false} RecipientsAre(subs: seq<Subscriber>, topic: string, f: Fd)
    ensures f in Recipients(subs, topic) <==> exists j :: 0 <= j < |subs| && subs[j].fd == f && Wants(subs[j], topic)
  {
    if subs != [] {
      var rest := subs[1..];
      RecipientsAre(rest, topic, f);
      InterestedIs(subs[0].topics, topic);
      if j :| 0 <= j < |subs| && subs[j].fd == f && Wants(subs[j], topic) {
        assert j > 0 ==> rest[j - 1] == subs[j];
      }
      if j :| 0 <= j < |rest| && rest[j].fd == f && Wants(rest[j], topic) {
        assert subs[j + 1] == rest[j];
      }
    }
  }

  lemma {:induction false} RecipientsDistinct(subs: seq<Subscriber>, topic: string)
    requires FirstCarriers(subs)
    ensures Distinct(Recipients(subs, topic))
  {
    if subs != [] {
      var rest := subs[1..];
      var tail := Recipients(rest, topic);
      forall j | 0 <= j < |rest| && rest[j].online
        ensures FirstCarrier(rest, j) && rest[j].fd != subs[0].fd
      {
        assert FirstCarrier(subs, j + 1);
        assert forall m :: 0 <= m < j ==> rest[m].fd == subs[m + 1].fd;
      }
      RecipientsDistinct(rest, topic);
      RecipientsAre(rest, topic, subs[0].fd);
      assert forall k :: 0 <= k < |tail| ==> tail[k] in tail;
    }
  }

  /** A publication reaches exactly the live connections whose account is interested, once each. */
  lemma PublishOut(s: State, b: Book, pub: Publication, c: nat)
    requires Inv(s) && Refines(s, b) && c < |s.net.conns|
    ensures OnlyOut(s.net, Publish(s, pub).net)
    ensures Publish(s, pub).net.conns[c].out == s.net.conns[c].out + Emitted(b, Published(pub), c)
  {
    var topic := TopicOf(pub);
    var fds := Recipients(s.subs, topic);
    TopicIsMeant(pub);
    RecipientsDistinct(s.subs, topic);
    WriteAllOut(s.net, fds, Notify(pub), c);
    LiveIsOnline(s, b, c);
    forall f
      ensures f in fds <==> exists j :: 0 <= j < |s.subs| && s.subs[j].fd == f && Wants(s.subs[j], topic)
    {
      RecipientsAre(s.subs, topic, f);
    }
    if Live(b, c) {
      var j :| 0 <= j < |s.subs| && s.subs[j].online && s.net.open[s.subs[j].fd] == c;
      var f := s.subs[j].fd;
      assert b.accounts[b.owner[c]].topics == s.subs[j].topics;
      assert f in fds <==> Wants(s.subs[j], topic) by {
        forall k | 0 <= k < |s.subs| && k != j && s.subs[k].online
          ensures s.subs[k].fd != f
        {
          OnlineApart(s.subs, k, j);
        }
      }
    }
  }

  /** The descriptors the goodbye loop visits are the polled clients'. */
  lemma PolledClients(polled: seq<PollFd>, f: Fd)
    requires |polled| >= BASE
    ensures f in PollFds(polled[BASE..]) <==> PolledClient(polled, f)
  {
    var fds := PollFds(polled[BASE..]);
    if f in fds {
      var i :| 0 <= i < |fds| && fds[i] == f;
      assert polled[i + BASE].fd == f;
    }
    if PolledClient(polled, f) {
      var i :| BASE <= i < |polled| && polled[i].fd == f;
      assert fds[i - BASE] == f;
    }
  }

  lemma PolledDistinct(polled: seq<PollFd>)
    requires |polled| >= BASE && Distinct(PollFds(polled))
    ensures Distinct(PollFds(polled[BASE..]))
  {
    assert PollFds(polled[BASE..]) == PollFds(polled)[BASE..];
  }

  /** A connection is that of a polled client exactly when it is that of an online record. */
  lemma PolledIsLive(s: State, b: Book, c: nat)
    requires Inv(s) && Refines(s, b)
    ensures Live(b, c) <==> exists f :: PolledClient(s.polled, f) && f in s.net.open && s.net.open[f] == c
  {
    LiveIsOnline(s, b, c);
    if f :| PolledClient(s.polled, f) && f in s.net.open && s.net.open[f] == c {
      var i, j := ClientAt(s.subs, s.polled, f);
      assert s.subs[j].online && s.net.open[s.subs[j].fd] == c;
    }
  }

  /** The exit says goodbye exactly once on each live connection and nothing on any other. */
  lemma ExitOut(s: State, b: Book, c: nat)
    requires Inv(s) && Refines(s, b) && c < |s.net.conns|
    ensures OnlyOut(s.net, ShutdownServer(s).net)
    ensures ShutdownServer(s).net.conns[c].out == s.net.conns[c].out + Emitted(b, Exit, c)
  {
    var fds := PollFds(s.polled[BASE..]);
    PolledDistinct(s.polled);
    CloseAllOut(s.net, fds, c);
    PolledIsLive(s, b, c);
    forall f
      ensures f in fds <==> PolledClient(s.polled, f)
    {
      PolledClients(s.polled, f);
    }
  }
}
