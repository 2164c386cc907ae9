/** What a history adds up to: conserved subscription counts, subscriber and broker in agreement,
    refused connections that stay refused. */
module Accounting {
  import opened BrokerState
  import opened BrokerInvariant
  import opened Directory
  import opened Refinement
  import opened History

  // ---------------------------------------------------------------------------
  // Conservation

  /** How often `msg` was read from connections announced with `id`, over all its sessions. */
  function Tally(log: seq<Input>, id: string, msg: Message): nat {
    if log == [] then 0
    else
      var front, last := log[..|log| - 1], log[|log| - 1];
      var owner := Replay(front).owner;
      Tally(front, id, msg) + if last.Read? && last.msg == msg && last.c in owner && owner[last.c] == id then 1 else 0
  }

  lemma CountRemoved(topics: seq<string>, topic: string, p: string)
    requires topic in topics
    ensures multiset(RemoveFirst(topics, topic))[p] == multiset(topics)[p] - if p == topic then 1 else 0
  {
    var k := IndexOf(topics, topic);
    assert topics == topics[..k] + [topic] + topics[k + 1..];
  }

  lemma ApplyCount(b: Book, input: Input, id: string, p: string)
    requires input.Read? && Live(b, input.c) && !Missing(b, input)
    ensures var gained := if b.owner[input.c] == id && input.msg == Subscribe(p) then 1 else 0;
            var lost := if b.owner[input.c] == id && input.msg == Unsubscribe(p) then 1 else 0;
            multiset(TopicsFor(Apply(b, input), id))[p] == multiset(TopicsFor(b, id))[p] + gained - lost
  {
    if b.owner[input.c] == id && input.msg.Unsubscribe? {
      CountRemoved(TopicsFor(b, id), input.msg.topic, p);
    }
  }

  /** An account holds a pattern as often as it was subscribed to it, less the times it was unsubscribed,
      across all sessions of its ID and whatever the other accounts did. */
  lemma {:induction false} Conservation(log: seq<Input>, id: string, p: string)
    requires Clean(log)
    ensures multiset(TopicsFor(Replay(log), id))[p] + Tally(log, id, Unsubscribe(p)) == Tally(log, id, Subscribe(p))
  {
    if log != [] {
      var front, last := log[..|log| - 1], log[|log| - 1];
      Conservation(front, id, p);
      if last.Read? {
        ApplyCount(Replay(front), last, id, p);
      }
    }
  }

  /** The history without the input that ended the run, if one did. */
  function Settled(s: State): seq<Input>
    requires s.status == Running || s.log != []
  {
    if s.status == Running then s.log else s.log[..|s.log| - 1]
  }

  predicate Balanced(s: State, i: nat, p: string)
    requires i < |s.subs|
  {
    && (s.status == Running || s.log != [])
    && multiset(s.subs[i].topics)[p]
       == Tally(Settled(s), s.subs[i].id, Subscribe(p)) - Tally(Settled(s), s.subs[i].id, Unsubscribe(p))
  }

  lemma MissKeepsTopics(b: Book, input: Input, id: string)
    requires Missing(b, input)
    ensures TopicsFor(Apply(b, input), id) == TopicsFor(b, id)
  {}

  lemma GoodIsBalanced(s: State, i: nat, p: string)
    requires Good(s) && i < |s.subs|
    ensures Balanced(s, i, p)
  {
    Conservation(Settled(s), s.subs[i].id, p);
    if s.status == Halted {
      MissKeepsTopics(Replay(Settled(s)), s.log[|s.log| - 1], s.subs[i].id);
    }
  }

  /** Conservation in every state of every exclusive run, ended or not, for every record and pattern. */
  lemma {:induction false} RunConservation(init: State, es: seq<Event>, i: nat, p: string)
    requires Initial(init) && ExclusiveRun(init, es) && i < |Exec(init, es).subs|
    ensures Balanced(Exec(init, es), i, p)
  {
    InitialGood(init);
    if Exec(init, es).status != Stopped {
      RunGood(init, es);
      GoodIsBalanced(Exec(init, es), i, p);
    } else {
      var before := Exec(init, es[..|es| - 1]);
      OnlyExitStops(before, es[|es| - 1]);
      if before.status == Running {
        assert (before.log + [Exit])[..|before.log|] == before.log;
      }
      RunConservation(init, es[..|es| - 1], i, p);
    }
  }

  /** An unsubscribe halts the broker exactly when its ID's balance for the topic is zero. */
  lemma UnsubscribeHaltsExactly(s: State, fd: Fd, topic: string)
    requires Good(s) && s.status == Running && PolledClient(s.polled, fd)
    requires Readable(s.net, fd) && NextMessage(s.net, fd) == Unsubscribe(topic)
    ensures var id := s.net.conns[s.net.open[fd]].id;
            Handle(s, fd).status == Halted <==> Tally(s.log, id, Subscribe(topic)) == Tally(s.log, id, Unsubscribe(topic))
  {
    var b := Replay(s.log);
    var id := s.net.conns[s.net.open[fd]].id;
    HandleRefines(s, b, fd);
    Conservation(s.log, id, topic);
    assert topic in TopicsFor(b, id) <==> multiset(TopicsFor(b, id))[topic] > 0;
  }

  // ---------------------------------------------------------------------------
  // Subscriber and broker agree

  function ApplyAll(topics: seq<string>, msgs: seq<Message>): seq<string> {
    if msgs == [] then topics else ApplyToTopics(ApplyAll(topics, msgs[..|msgs| - 1]), msgs[|msgs| - 1])
  }

  lemma {:induction false} ApplyAllConcat(topics: seq<string>, a: seq<Message>, b: seq<Message>)
    ensures ApplyAll(topics, a + b) == ApplyAll(ApplyAll(topics, a), b)
  {
    if b == [] {
      assert a + b == a;
    } else {
      ApplyAllConcat(topics, a, b[..|b| - 1]);
      assert (a + b)[..|a + b| - 1] == a + b[..|b| - 1];
    }
  }

  /** The topics the account held when connection `c` was accepted. */
  function TopicsAtConnect(log: seq<Input>, c: nat): seq<string> {
    if log == [] then []
    else
      var front, last := log[..|log| - 1], log[|log| - 1];
      if last.Connected? && last.c == c then TopicsFor(Replay(front), last.id) else TopicsAtConnect(front, c)
  }

  /** A session belongs to a known connection of the same ID. */
  lemma {:induction false} SessionIsOwned(log: seq<Input>, id: string)
    requires Clean(log) && IsOnline(Replay(log), id)
    ensures var c := Replay(log).accounts[id].session.c; c in Replay(log).owner && Replay(log).owner[c] == id
  {
    var front, last := log[..|log| - 1], log[|log| - 1];
    if IsOnline(Replay(front), id) {
      SessionIsOwned(front, id);
    }
  }

  /** The session's topics are those at its start with the messages read since applied. */
  lemma {:induction false} SessionTopics(log: seq<Input>, c: nat)
    requires Clean(log) && Live(Replay(log), c)
    ensures TopicsFor(Replay(log), Replay(log).owner[c]) == ApplyAll(TopicsAtConnect(log, c), ReadsOf(log, c))
  {
    var front, last := log[..|log| - 1], log[|log| - 1];
    var b := Replay(front);
    if last.Connected? && last.c == c {
      UnknownConnection(front, c);
      if IsOnline(b, last.id) {
        SessionIsOwned(front, last.id);
      }
    } else {
      assert Live(b, c);
      SessionTopics(front, c);
      var msgs := ReadsOf(front, c);
      if last.Read? && last.c == c {
        assert (msgs + [last.msg])[..|msgs|] == msgs;
      } else {
        assert msgs + [] == msgs;
        assert TopicsFor(Replay(log), b.owner[c]) == TopicsFor(b, b.owner[c]);
      }
    }
  }

  /** Messages read and messages unread, one after the other, are all the messages sent. */
  lemma ReadThenUnread(log: seq<Input>, c: nat, sent: seq<Message>, read: nat)
    requires Clean(log) && Live(Replay(log), c) && read <= |sent| && ReadsOf(log, c) == sent[..read]
    ensures ApplyAll(TopicsFor(Replay(log), Replay(log).owner[c]), sent[read..]) == ApplyAll(TopicsAtConnect(log, c), sent)
  {
    SessionTopics(log, c);
    ApplyAllConcat(TopicsAtConnect(log, c), sent[..read], sent[read..]);
    assert sent == sent[..read] + sent[read..];
  }

  /** The connection of an online record is live, for the record's account. */
  lemma OnlineIsLive(s: State, b: Book, i: nat)
    requires Inv(s) && Refines(s, b) && i < |s.subs| && s.subs[i].online
    ensures IsOpen(s.net, s.subs[i].fd)
    ensures var c := s.net.open[s.subs[i].fd];
            && s.net.conns[c].id == s.subs[i].id && Live(b, c)
            && b.owner[c] == s.subs[i].id && TopicsFor(b, b.owner[c]) == s.subs[i].topics
  {}

  lemma SessionAgrees(s: State, i: nat)
    requires Good(s) && s.status == Running && i < |s.subs| && s.subs[i].online
    ensures IsOpen(s.net, s.subs[i].fd)
    ensures var c := s.net.open[s.subs[i].fd]; var conn := s.net.conns[c];
            && conn.id == s.subs[i].id && conn.read <= |conn.sent|
            && ApplyAll(s.subs[i].topics, conn.sent[conn.read..]) == ApplyAll(TopicsAtConnect(s.log, c), conn.sent)
  {
    OnlineIsLive(s, Replay(s.log), i);
    var c := s.net.open[s.subs[i].fd];
    ReadThenUnread(s.log, c, s.net.conns[c].sent, s.net.conns[c].read);
  }

  /** In every exclusive run, for every accepted live connection, the unread messages take the broker's
      topic list to exactly what its subscriber asked for since it connected. */
  lemma RunConsistency(init: State, es: seq<Event>, i: nat)
    requires Initial(init) && ExclusiveRun(init, es) && Exec(init, es).status == Running
    requires i < |Exec(init, es).subs| && Exec(init, es).subs[i].online
    ensures var s := Exec(init, es); IsOpen(s.net, s.subs[i].fd)
    ensures var s := Exec(init, es);
            var c := s.net.open[s.subs[i].fd]; var conn := s.net.conns[c];
            && conn.id == s.subs[i].id && conn.read <= |conn.sent|
            && ApplyAll(s.subs[i].topics, conn.sent[conn.read..]) == ApplyAll(TopicsAtConnect(s.log, c), conn.sent)
  {
    InitialGood(init);
    RunGood(init, es);
    SessionAgrees(Exec(init, es), i);
  }

  // ---------------------------------------------------------------------------
  // Refused connections

  lemma OneSessionPerId(s: State, i: nat, k: nat)
    requires Inv(s) && BASE <= i < |s.polled| && BASE <= k < |s.polled| && i != k
    ensures var f, g := s.polled[i].fd, s.polled[k].fd;
            IsOpen(s.net, f) && IsOpen(s.net, g) && s.net.conns[s.net.open[f]].id != s.net.conns[s.net.open[g]].id
  {
    var f, g := s.polled[i].fd, s.polled[k].fd;
    assert PollFds(s.polled)[i] == f && PollFds(s.polled)[k] == g && f != g;
    var a :| 0 <= a < |s.subs| && s.subs[a].fd == f && s.subs[a].online;
    var b :| 0 <= b < |s.subs| && s.subs[b].fd == g && s.subs[b].online;
    assert Ids(s.subs)[a] != Ids(s.subs)[b];
  }

  /** In every exclusive run, at most one polled connection carries any one ID. */
  lemma RunOneSessionPerId(init: State, es: seq<Event>, i: nat, k: nat)
    requires Initial(init) && ExclusiveRun(init, es) && Exec(init, es).status != Stopped
    requires BASE <= i < |Exec(init, es).polled| && BASE <= k < |Exec(init, es).polled| && i != k
    ensures var s := Exec(init, es); var f, g := s.polled[i].fd, s.polled[k].fd;
            IsOpen(s.net, f) && IsOpen(s.net, g) && s.net.conns[s.net.open[f]].id != s.net.conns[s.net.open[g]].id
  {
    InitialInv(init);
    RunKeepsInv(init, es);
    OneSessionPerId(Exec(init, es), i, k);
  }

  /** Connection `c` arrived while its ID was online. */
  predicate RefusedIn(log: seq<Input>, c: nat) {
    log != [] &&
    var front, last := log[..|log| - 1], log[|log| - 1];
    RefusedIn(front, c) || (last.Connected? && last.c == c && IsOnline(Replay(front), last.id))
  }

  lemma {:induction false} RefusedIsKnown(log: seq<Input>, c: nat)
    requires RefusedIn(log, c)
    ensures c in Replay(log).owner
  {
    if RefusedIn(log[..|log| - 1], c) {
      RefusedIsKnown(log[..|log| - 1], c);
    }
  }

  lemma {:induction false} RefusedForever(log: seq<Input>, c: nat)
    requires Clean(log) && RefusedIn(log, c)
    ensures !Live(Replay(log), c) && ReadsOf(log, c) == [] && Expected(log, c) == [ShutdownIntruder]
  {
    var front, last := log[..|log| - 1], log[|log| - 1];
    if RefusedIn(front, c) {
      RefusedForever(front, c);
      RefusedIsKnown(front, c);
    } else {
      UnknownConnection(front, c);
      SessionIsOwned(front, last.id);
    }
  }

  lemma {:induction false} RefusedStays(log: seq<Input>, more: seq<Input>, c: nat)
    requires log <= more && RefusedIn(log, c)
    ensures RefusedIn(more, c)
  {
    if log != more {
      RefusedStays(log, more[..|more| - 1], c);
    } else {
      assert log == more;
    }
  }

  /** The history and the list of connections only grow. */
  predicate Extends(s: State, t: State) {
    s.log <= t.log && |s.net.conns| <= |t.net.conns|
  }

  lemma StepExtends(s: State, e: Event)
    ensures Extends(s, Step(s, e))
  {
    if s.status == Running && e.Clients? {
      forall t, k | Extends(s, t) && t.status == Running && BASE <= k < |t.polled|
        ensures Extends(s, Visit(t, k))
      {
        var fd := t.polled[k].fd;
        if t.polled[k].ready && Readable(t.net, fd) {
          HandleTakes(t, fd);
        }
      }
      ServeInduction(t => Extends(s, t), Poll(s), BASE);
    } else if s.status == Running && e.ExitCommand? {
      ExitSize(s.net, PollFds(s.polled[if |s.polled| < BASE then |s.polled| else BASE..]));
    }
  }

  lemma {:induction false} RunExtends(s: State, es: seq<Event>, k: nat)
    requires ExclusiveRun(s, es) && k <= |es|
    ensures ExclusiveRun(s, es[..k]) && Extends(Exec(s, es[..k]), Exec(s, es))
    ensures k < |es| ==> ExclusiveEvent(Exec(s, es[..k]), es[k])
  {
    if k < |es| {
      var front := es[..|es| - 1];
      RunExtends(s, front, k);
      assert front[..k] == es[..k];
      StepExtends(Exec(s, front), es[|es| - 1]);
    } else {
      assert es[..k] == es;
    }
  }

  predicate OnlineId(s: State, id: string) {
    exists i :: 0 <= i < |s.subs| && s.subs[i].id == id && s.subs[i].online
  }

  lemma RefusedAtEnd(s: State, c: nat)
    requires Ends(s) && RefusedIn(s.log, c)
    ensures Expected(s.log, c) == [ShutdownIntruder] && ReadsOf(s.log, c) == []
  {
    if s.status == Running {
      RefusedForever(s.log, c);
    } else {
      var front, last := s.log[..|s.log| - 1], s.log[|s.log| - 1];
      assert !last.Connected?;
      RefusedForever(front, c);
    }
  }

  lemma RefusedOnArrival(s: State, fd: Fd, id: string)
    requires Good(s) && s.status == Running && OnlineId(s, id)
    ensures RefusedIn(Accept(s, fd, id).log, |s.net.conns|)
  {
    var x := Connected(|s.net.conns|, id);
    assert IsOnline(Replay(s.log), id);
    assert (s.log + [x])[..|s.log|] == s.log;
  }

  lemma RefusedOnStep(init: State, es: seq<Event>, k: nat)
    requires Initial(init) && ExclusiveRun(init, es) && k < |es| && es[k].NewConnection?
    requires Exec(init, es[..k]).status == Running && OnlineId(Exec(init, es[..k]), es[k].id)
    ensures var after, c := Exec(init, es[..k + 1]), |Exec(init, es[..k]).net.conns|;
            RefusedIn(after.log, c) && c < |after.net.conns|
  {
    InitialGood(init);
    RunExtends(init, es, k);
    RunGood(init, es[..k]);
    assert es[..k + 1][..k] == es[..k];
    RefusedOnArrival(Exec(init, es[..k]), es[k].fd, es[k].id);
  }

  /** In every exclusive run, a connection that announces an ID already online is told to go, never receives
      anything else, and none of its messages is ever read. */
  lemma RunRefused(init: State, es: seq<Event>, k: nat)
    requires Initial(init) && ExclusiveRun(init, es)
    requires k < |es| && es[k].NewConnection?
    requires Exec(init, es[..k]).status == Running && OnlineId(Exec(init, es[..k]), es[k].id)
    ensures var s, c := Exec(init, es), |Exec(init, es[..k]).net.conns|;
            c < |s.net.conns| && s.net.conns[c].out == [ShutdownIntruder] && s.net.conns[c].read == 0
  {
    var s, c := Exec(init, es), |Exec(init, es[..k]).net.conns|;
    RefusedOnStep(init, es, k);
    RunExtends(init, es, k + 1);
    RefusedStays(Exec(init, es[..k + 1]).log, s.log, c);
    RunDelivery(init, es);
    RefusedAtEnd(s, c);
  }
}
