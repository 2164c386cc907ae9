/** The client loop shortens the array it walks.  Seen from the array as polled, it visits each entry
    except the one right after each entry it removes; and no waiting client is passed over for long. */
module Rounds {
  import opened BrokerState
  import opened BrokerInvariant

  // ---------------------------------------------------------------------------
  // One round, described on the array as it was polled

  /** Entry `k` was reported ready. */
  predicate Due(t: State, k: nat)
    requires k < |t.polled|
  {
    t.polled[k].ready && Readable(t.net, t.polled[k].fd)
  }

  /** Entry `k` would ask to be closed. */
  predicate Closes(t: State, k: nat)
    requires k < |t.polled|
  {
    Due(t, k) && NextMessage(t.net, t.polled[k].fd) == Close
  }

  /** The loop looks at entry `k`: it does unless it has just removed the entry before. */
  predicate Visited(t: State, k: nat)
    requires k < |t.polled|
  {
    k <= BASE || !(Visited(t, k - 1) && Closes(t, k - 1))
  }

  function ReadOf(t: State, k: nat): Input
    requires k < |t.polled| && Due(t, k)
  {
    Read(t.net.open[t.polled[k].fd], NextMessage(t.net, t.polled[k].fd))
  }

  /** The messages read from entry `k` on, in array order: those of the visited entries that are due. */
  function Reads(t: State, k: nat): seq<Input>
    decreases |t.polled| - k
  {
    if k >= |t.polled| then []
    else (if Visited(t, k) && Due(t, k) then [ReadOf(t, k)] else []) + Reads(t, k + 1)
  }

  /** The entries left in the array from `k` on. */
  function Kept(t: State, k: nat): seq<PollFd>
    decreases |t.polled| - k
  {
    if k >= |t.polled| then []
    else (if Visited(t, k) && Closes(t, k) then [] else [t.polled[k]]) + Kept(t, k + 1)
  }

  lemma {:induction false} KeptHas(t: State, k: nat, m: nat)
    requires k <= m < |t.polled| && !(Visited(t, m) && Closes(t, m))
    ensures t.polled[m] in Kept(t, k)
    decreases m - k
  {
    if k < m {
      KeptHas(t, k + 1, m);
    }
  }

  /** `u`, at loop index `i`, still holds the entries of `t` from `k` on, their connections untouched. */
  predicate Ahead(t: State, u: State, i: nat, k: nat) {
    && BASE <= i <= |u.polled| && BASE <= k <= |t.polled| && u.polled[i..] == t.polled[k..]
    && (forall m :: k <= m < |t.polled| ==> SameConn(t.net, u.net, t.polled[m].fd))
    && (k < |t.polled| ==> Visited(t, k))
  }

  /** What is done and what the walk still holds add up to the whole walk. */
  predicate Accounted(t: State, u: State, i: nat, k: nat) {
    && i <= |u.polled| && BASE <= |t.polled|
    && u.log + Reads(t, k) == t.log + Reads(t, BASE)
    && u.polled[..i] + Kept(t, k) == t.polled[..BASE] + Kept(t, BASE)
  }

  /** Handling the entry at `i` leaves the connections of the later entries as they were. */
  lemma HandleLater(t: State, u: State, i: nat, k: nat)
    requires PollSound(u) && k < |t.polled| && Ahead(t, u, i, k) && Readable(u.net, t.polled[k].fd)
    ensures forall m :: k < m < |t.polled| ==> SameConn(t.net, Handle(u, t.polled[k].fd).net, t.polled[m].fd)
  {
    var fd := t.polled[k].fd;
    forall m | k < m < |t.polled|
      ensures SameConn(t.net, Handle(u, fd).net, t.polled[m].fd)
    {
      assert u.polled[i..][0] == t.polled[k..][0] && u.polled[i..][m - k] == t.polled[k..][m - k];
      assert PollFds(u.polled)[i] != PollFds(u.polled)[i + (m - k)];
      HandleOthers(u, fd, t.polled[m].fd);
    }
  }

  /** One entry further on both sides. */
  lemma NextAhead(a: seq<PollFd>, b: seq<PollFd>, i: nat, k: nat)
    requires i <= |a| && k < |b| && a[i..] == b[k..]
    ensures i < |a| && a[i + 1..] == b[k + 1..] && a[..i + 1] == a[..i] + [b[k]]
  {
    assert |a[i..]| == |b[k..]|;
    assert a[i..][0] == b[k..][0];
    assert a[i + 1..] == a[i..][1..] && b[k..][1..] == b[k + 1..];
  }

  lemma Regroup<T>(a: seq<T>, x: T, b: seq<T>)
    ensures (a + [x]) + b == a + ([x] + b)
  {}

  /** A turn that handles nothing. */
  lemma TurnIdle(t: State, u: State, i: nat, k: nat)
    requires k < |t.polled| && Ahead(t, u, i, k) && Accounted(t, u, i, k) && !Due(t, k)
    ensures Ahead(t, u, i + 1, k + 1) && Accounted(t, u, i + 1, k + 1)
  {
    NextAhead(u.polled, t.polled, i, k);
    assert Reads(t, k) == Reads(t, k + 1) && Kept(t, k) == [t.polled[k]] + Kept(t, k + 1);
    Regroup(u.polled[..i], t.polled[k], Kept(t, k + 1));
  }

  /** A turn that handles a message and keeps the entry. */
  lemma TurnHandled(t: State, u: State, v: State, i: nat, k: nat)
    requires k < |t.polled| && Ahead(t, u, i, k) && Accounted(t, u, i, k) && Due(t, k) && !Closes(t, k)
    requires v.polled == u.polled && v.log == u.log + [ReadOf(t, k)]
    requires forall m :: k < m < |t.polled| ==> SameConn(t.net, v.net, t.polled[m].fd)
    ensures Ahead(t, v, i + 1, k + 1) && Accounted(t, v, i + 1, k + 1)
  {
    NextAhead(u.polled, t.polled, i, k);
    assert Reads(t, k) == [ReadOf(t, k)] + Reads(t, k + 1) && Kept(t, k) == [t.polled[k]] + Kept(t, k + 1);
    Regroup(u.polled[..i], t.polled[k], Kept(t, k + 1));
    Regroup(u.log, ReadOf(t, k), Reads(t, k + 1));
  }

  lemma RemovalSkipsOne(t: State, k: nat)
    requires BASE <= k && k + 1 < |t.polled| && Visited(t, k) && Closes(t, k)
    ensures Reads(t, k) == [ReadOf(t, k)] + Reads(t, k + 2)
    ensures Kept(t, k) == [t.polled[k + 1]] + Kept(t, k + 2)
    ensures k + 2 < |t.polled| ==> Visited(t, k + 2)
  {
    assert !Visited(t, k + 1);
    assert Reads(t, k + 1) == Reads(t, k + 2);
  }

  /** Without entry `i`, the entries from the one after the next on. */
  lemma RemovedAhead(a: seq<PollFd>, b: seq<PollFd>, i: nat, k: nat)
    requires i <= |a| && k + 1 < |b| && a[i..] == b[k..]
    ensures i + 1 < |a| && RemoveAt(a, i)[i + 1..] == b[k + 2..] && RemoveAt(a, i)[..i + 1] == a[..i] + [b[k + 1]]
  {
    assert |a[i..]| == |b[k..]|;
    assert a[i..][1] == b[k..][1];
    assert RemoveAt(a, i)[i + 1..] == a[i..][2..] && b[k..][2..] == b[k + 2..];
  }

  lemma RemovedAccounted(t: State, u: State, v: State, i: nat, k: nat)
    requires i < |v.polled| && Accounted(t, u, i, k) && k + 1 < |t.polled| && Due(t, k)
    requires v.log == u.log + [ReadOf(t, k)] && Reads(t, k) == [ReadOf(t, k)] + Reads(t, k + 2)
    requires v.polled[..i + 1] == u.polled[..i] + [t.polled[k + 1]] && Kept(t, k) == [t.polled[k + 1]] + Kept(t, k + 2)
    ensures Accounted(t, v, i + 1, k + 2)
  {
    Regroup(u.log, ReadOf(t, k), Reads(t, k + 2));
    Regroup(u.polled[..i], t.polled[k + 1], Kept(t, k + 2));
  }

  /** A turn that removes the entry, and so passes over the next one. */
  lemma TurnRemoved(t: State, u: State, v: State, i: nat, k: nat)
    requires k + 1 < |t.polled| && Ahead(t, u, i, k) && Accounted(t, u, i, k) && Closes(t, k)
    requires i < |u.polled| && v.polled == RemoveAt(u.polled, i) && v.log == u.log + [ReadOf(t, k)]
    requires forall m :: k < m < |t.polled| ==> SameConn(t.net, v.net, t.polled[m].fd)
    ensures Ahead(t, v, i + 1, k + 2) && Accounted(t, v, i + 1, k + 2)
  {
    RemovedAhead(u.polled, t.polled, i, k);
    RemovalSkipsOne(t, k);
    RemovedAccounted(t, u, v, i, k);
  }

  /** A turn that removes the last entry. */
  lemma TurnRemovedLast(t: State, u: State, v: State, i: nat, k: nat)
    requires k + 1 == |t.polled| && Ahead(t, u, i, k) && Accounted(t, u, i, k) && Closes(t, k)
    requires v.polled == RemoveAt(u.polled, i) && v.log == u.log + [ReadOf(t, k)]
    ensures Ahead(t, v, i, k + 1) && Accounted(t, v, i, k + 1)
  {
    assert v.polled == u.polled[..i];
    assert Reads(t, k) == [ReadOf(t, k)] && Kept(t, k) == [];
  }

  /** The loop at index `i`, or past the end, has come to entry `k`. */
  predicate At(t: State, u: State, i: nat, k: nat) {
    if i <= |u.polled| then Ahead(t, u, i, k) && Accounted(t, u, i, k)
    else k == |t.polled| && Ahead(t, u, |u.polled|, k) && Accounted(t, u, |u.polled|, k)
  }

  /** The walk's relation between the state, the loop index and the array as polled; a round cut short has
      read the beginning of it. */
  predicate OnWalk(t: State, u: State, i: nat) {
    if u.status != Running then u.log <= t.log + Reads(t, BASE)
    else PollSound(u) && i >= BASE && exists k :: BASE <= k <= |t.polled| && At(t, u, i, k)
  }

  /** The entry under the loop's hand is the walk's entry, with the same message waiting. */
  lemma SameEntry(t: State, u: State, i: nat, k: nat)
    requires k < |t.polled| && Ahead(t, u, i, k)
    ensures i < |u.polled| && u.polled[i] == t.polled[k]
    ensures Readable(u.net, t.polled[k].fd) == Readable(t.net, t.polled[k].fd)
    ensures Due(t, k) ==> NextMessage(u.net, t.polled[k].fd) == NextMessage(t.net, t.polled[k].fd)
    ensures Due(t, k) ==> u.net.open[t.polled[k].fd] == t.net.open[t.polled[k].fd]
  {
    assert u.polled[i..][0] == t.polled[k..][0];
  }

  lemma HandleTurn(t: State, u: State, i: nat, k: nat)
    requires PollSound(u) && k < |t.polled| && Ahead(t, u, i, k) && Due(t, k)
    ensures i < |u.polled|
    ensures var v := Visit(u, i);
            && v.log == u.log + [ReadOf(t, k)]
            && (v.status == Running ==>
                  PollSound(v) && v.polled == if Closes(t, k) then RemoveAt(u.polled, i) else u.polled)
            && forall m :: k < m < |t.polled| ==> SameConn(t.net, v.net, t.polled[m].fd)
  {
    SameEntry(t, u, i, k);
    var fd := u.polled[i].fd;
    assert Visit(u, i) == Handle(u, fd);
    HandleKeepsSound(u, i);
    HandleLater(t, u, i, k);
    HandleTakes(u, fd);
  }

  lemma DueTurnOnWalk(t: State, u: State, i: nat, k: nat)
    requires PollSound(u) && k < |t.polled| && Ahead(t, u, i, k) && Accounted(t, u, i, k) && Due(t, k)
    ensures i < |u.polled| && OnWalk(t, Visit(u, i), i + 1)
  {
    HandleTurn(t, u, i, k);
    var v := Visit(u, i);
    if v.status != Running {
      Regroup(u.log, ReadOf(t, k), Reads(t, k + 1));
    } else if !Closes(t, k) {
      TurnHandled(t, u, v, i, k);
      assert At(t, v, i + 1, k + 1);
    } else if k + 1 < |t.polled| {
      TurnRemoved(t, u, v, i, k);
      assert At(t, v, i + 1, k + 2);
    } else {
      assert |u.polled[i..]| == |t.polled[k..]|;
      TurnRemovedLast(t, u, v, i, k);
      assert At(t, v, i + 1, k + 1);
    }
  }

  lemma TurnOnWalk(t: State, u: State, i: nat)
    requires OnWalk(t, u, i) && u.status == Running && BASE <= i < |u.polled|
    ensures OnWalk(t, Visit(u, i), i + 1)
  {
    var k :| BASE <= k <= |t.polled| && At(t, u, i, k);
    assert |u.polled[i..]| == |t.polled[k..]|;
    if Due(t, k) {
      DueTurnOnWalk(t, u, i, k);
    } else {
      SameEntry(t, u, i, k);
      TurnIdle(t, u, i, k);
      assert Visit(u, i) == u && At(t, u, i + 1, k + 1);
    }
  }

  /** At the poll, the whole walk lies ahead. */
  lemma WalkStarts(s: State)
    requires PollSound(s) && s.status == Running
    ensures OnWalk(Poll(s), Poll(s), BASE)
  {
    var t := Poll(s);
    PollKeepsSound(s);
    assert At(t, t, BASE, BASE);
  }

  lemma WalkHolds(t: State) returns (j: nat)
    requires OnWalk(t, t, BASE)
    ensures OnWalk(t, Serve(t, BASE), j) && (Serve(t, BASE).status == Running ==> j >= |Serve(t, BASE).polled|)
  {
    forall u, i: nat | OnWalk(t, u, i) && u.status == Running && BASE <= i < |u.polled|
      ensures OnWalk(t, Visit(u, i), i + 1)
    {
      TurnOnWalk(t, u, i);
    }
    j := ServeIndexInduction((u: State, i: nat) => OnWalk(t, u, i), t, BASE);
  }

  lemma WalkDone(t: State, r: State, k: nat)
    requires Ahead(t, r, |r.polled|, k) && Accounted(t, r, |r.polled|, k)
    ensures r.log == t.log + Reads(t, BASE) && r.polled == t.polled[..BASE] + Kept(t, BASE)
  {
    assert |t.polled[k..]| == 0;
    assert r.log + [] == r.log && r.polled[..|r.polled|] + [] == r.polled;
  }

  lemma WalkEnds(t: State, r: State, j: nat)
    requires OnWalk(t, r, j) && (r.status == Running ==> j >= |r.polled|)
    ensures r.log <= t.log + Reads(t, BASE)
    ensures r.status == Running ==> r.log == t.log + Reads(t, BASE) && r.polled == t.polled[..BASE] + Kept(t, BASE)
  {
    if r.status == Running {
      var k :| BASE <= k <= |t.polled| && At(t, r, j, k);
      WalkDone(t, r, k);
    }
  }

  /** One client round, from any state of a legal run: the messages read are those of the visited ready
      entries, in array order, and the entries left are those not removed.  A round cut short by a halt
      reads a prefix of them. */
  lemma RoundIsWalk(s: State)
    requires PollSound(s) && s.status == Running
    ensures var t, r := Poll(s), Step(s, Clients);
            && r.log <= s.log + Reads(t, BASE)
            && (r.status == Running ==> r.log == s.log + Reads(t, BASE) && r.polled == t.polled[..BASE] + Kept(t, BASE))
  {
    WalkStarts(s);
    var j := WalkHolds(Poll(s));
    WalkEnds(Poll(s), Serve(Poll(s), BASE), j);
  }

  lemma {:induction false} ReadsHas(t: State, k: nat, m: nat)
    requires k <= m < |t.polled| && Visited(t, m) && Due(t, m)
    ensures ReadOf(t, m) in Reads(t, k)
    decreases m - k
  {
    if k < m {
      ReadsHas(t, k + 1, m);
    }
  }

  /** Who is passed over: a ready client is served unless the entry right before it was removed in the
      same round, and then it keeps its place in the array; the first ready client is always served. */
  lemma PassedOver(t: State, k: nat)
    requires BASE <= k < |t.polled| && Due(t, k)
    ensures !Visited(t, k) ==>
      && k > BASE && Visited(t, k - 1) && Closes(t, k - 1)
      && t.polled[k] in Kept(t, BASE)
    ensures Visited(t, k) ==> ReadOf(t, k) in Reads(t, BASE)
    ensures (forall m: nat :: BASE <= m < k ==> !Due(t, m)) ==> Visited(t, k)
  {
    if Visited(t, k) {
      ReadsHas(t, BASE, k);
    } else {
      KeptHas(t, BASE, k);
    }
  }

  /** A message read from entry `k` on is that of some entry from `k` on. */
  lemma {:induction false} ReadsAre(t: State, k: nat, x: Input) returns (m: nat)
    requires x in Reads(t, k)
    ensures k <= m < |t.polled| && Visited(t, m) && Due(t, m) && x == ReadOf(t, m)
    decreases |t.polled| - k
  {
    if Visited(t, k) && Due(t, k) && x == ReadOf(t, k) {
      m := k;
    } else {
      m := ReadsAre(t, k + 1, x);
    }
  }

  /** No connection is read from twice in one round. */
  lemma {:induction false} ReadsDistinct(t: State, k: nat)
    requires PollSound(t) && k >= BASE
    ensures forall x :: x in Reads(t, k) ==> x.Read?
    ensures forall a, b :: 0 <= a < b < |Reads(t, k)| ==> Reads(t, k)[a].c != Reads(t, k)[b].c
    decreases |t.polled| - k
  {
    if k < |t.polled| {
      ReadsDistinct(t, k + 1);
      var rest := Reads(t, k + 1);
      if Visited(t, k) && Due(t, k) {
        forall b | 0 <= b < |rest|
          ensures rest[b].c != ReadOf(t, k).c
        {
          var m := ReadsAre(t, k + 1, rest[b]);
          assert PollFds(t.polled)[k] != PollFds(t.polled)[m];
        }
      }
    }
  }

  // ---------------------------------------------------------------------------
  // Bounded skipping

  /** Connection `c` has an unread message and its descriptor is polled at index `p`. */
  predicate Waiting(s: State, c: nat, fd: Fd, p: nat) {
    && BASE <= p < |s.polled| && s.polled[p].fd == fd && fd in s.net.open && s.net.open[fd] == c
    && c < |s.net.conns| && s.net.conns[c].read < |s.net.conns[c].sent|
  }

  /** How many messages have been read from connection `c`. */
  function ReadCount(s: State, c: nat): nat {
    if c < |s.net.conns| then s.net.conns[c].read else 0
  }

  lemma VisitReads(s: State, i: nat, c: nat)
    requires i < |s.polled|
    ensures ReadCount(Visit(s, i), c) >= ReadCount(s, c)
  {}

  lemma ServeReads(s: State, i: nat, c: nat)
    requires i >= BASE
    ensures ReadCount(Serve(s, i), c) >= ReadCount(s, c)
  {
    var n := ReadCount(s, c);
    forall t, k | ReadCount(t, c) >= n && t.status == Running && BASE <= k < |t.polled|
      ensures ReadCount(Visit(t, k), c) >= n
    {
      VisitReads(t, k, c);
    }
    ServeInduction(t => ReadCount(t, c) >= n, s, i);
  }

  /** Handling another client keeps a waiting one waiting. */
  lemma HandleElsewhere(s: State, g: Fd, c: nat, fd: Fd)
    requires SoundNet(s.net) && Readable(s.net, g) && g != fd && Readable(s.net, fd) && s.net.open[fd] == c
    ensures var r := Handle(s, g); Readable(r.net, fd) && r.net.open[fd] == c && ReadCount(r, c) == ReadCount(s, c)
  {
    HandleOthers(s, g, fd);
  }

  /** Where an entry is after another one was removed. */
  lemma EntryAfterRemoval(polled: seq<PollFd>, i: nat, p: nat)
    requires BASE <= i < |polled| && BASE <= p < |polled| && i != p
    ensures RemoveAt(polled, i)[if i < p then p - 1 else p] == polled[p]
  {}

  /** A turn of the loop at another index keeps a waiting client waiting, one place earlier if the
      entry removed was before it. */
  lemma VisitElsewhere(s: State, i: nat, c: nat, fd: Fd, p: nat)
    requires PollSound(s) && BASE <= i < |s.polled| && Waiting(s, c, fd, p) && i != p
    ensures var r := Visit(s, i);
            && ReadCount(r, c) == ReadCount(s, c)
            && (r.polled == s.polled || r.polled == RemoveAt(s.polled, i))
            && Waiting(r, c, fd, if i < p && |r.polled| < |s.polled| then p - 1 else p)
  {
    var g := s.polled[i].fd;
    EntryAfterRemoval(s.polled, i, p);
    if s.polled[i].ready && Readable(s.net, g) {
      assert Visit(s, i) == Handle(s, g);
      assert PollFds(s.polled)[i] != PollFds(s.polled)[p];
      HandleElsewhere(s, g, c, fd);
      HandleKeepsSound(s, i);
    } else {
      assert Visit(s, i) == s;
    }
  }

  /** A turn of the loop at a waiting client reads from it. */
  lemma VisitServes(s: State, i: nat, c: nat, fd: Fd)
    requires Waiting(s, c, fd, i) && s.polled[i].ready
    ensures ReadCount(Visit(s, i), c) > ReadCount(s, c)
  {}

  /** A client that was ready at index `p` has been read from, or is still ahead of the loop, or was
      passed over and has moved up. */
  predicate ServedOrAhead(s: State, i: nat, c: nat, fd: Fd, p: nat, n: nat) {
    || ReadCount(s, c) > n
    || ((s.status == Running ==> PollSound(s)) && ReadCount(s, c) == n &&
        exists q: nat :: q <= p && Waiting(s, c, fd, q) && (if q < i then q < p else s.polled[q].ready))
  }

  lemma VisitAhead(s: State, i: nat, c: nat, fd: Fd, p: nat, n: nat, q: nat)
    requires PollSound(s) && BASE <= i < |s.polled| && ReadCount(s, c) == n
    requires q <= p && Waiting(s, c, fd, q) && (if q < i then q < p else s.polled[q].ready)
    ensures ServedOrAhead(Visit(s, i), i + 1, c, fd, p, n)
  {
    var r := Visit(s, i);
    VisitKeepsSound(s, i);
    if q == i {
      VisitServes(s, i, c, fd);
    } else {
      VisitElsewhere(s, i, c, fd, q);
      var q' := if i < q && |r.polled| < |s.polled| then q - 1 else q;
      EntryAfterRemoval(s.polled, i, q);
      assert Waiting(r, c, fd, q');
    }
  }

  lemma VisitServedOrAhead(s: State, i: nat, c: nat, fd: Fd, p: nat, n: nat)
    requires ServedOrAhead(s, i, c, fd, p, n) && s.status == Running && BASE <= i < |s.polled|
    ensures ServedOrAhead(Visit(s, i), i + 1, c, fd, p, n)
  {
    VisitReads(s, i, c);
    if ReadCount(s, c) == n {
      var q: nat :| q <= p && Waiting(s, c, fd, q) && (if q < i then q < p else s.polled[q].ready);
      VisitAhead(s, i, c, fd, p, n, q);
    }
  }

  lemma AheadAtStart(s: State, c: nat, fd: Fd, p: nat)
    requires PollSound(s) && Waiting(s, c, fd, p) && s.polled[p].ready
    ensures ServedOrAhead(s, BASE, c, fd, p, ReadCount(s, c))
  {}

  lemma ServedOrAheadAtEnd(r: State, j: nat, c: nat, fd: Fd, p: nat, n: nat)
    requires ServedOrAhead(r, j, c, fd, p, n) && j >= |r.polled|
    ensures ReadCount(r, c) > n || exists q: nat :: q < p && Waiting(r, c, fd, q)
  {}

  /** In one round a ready client is read from, or moves closer to the front. */
  lemma ServedOrCloser(s: State, c: nat, fd: Fd, p: nat)
    requires PollSound(s) && Waiting(s, c, fd, p) && s.polled[p].ready && Serve(s, BASE).status == Running
    ensures ReadCount(Serve(s, BASE), c) > ReadCount(s, c) || exists q: nat :: q < p && Waiting(Serve(s, BASE), c, fd, q)
  {
    var n := ReadCount(s, c);
    AheadAtStart(s, c, fd, p);
    forall t, i: nat | ServedOrAhead(t, i, c, fd, p, n) && t.status == Running && BASE <= i < |t.polled|
      ensures ServedOrAhead(Visit(t, i), i + 1, c, fd, p, n)
    {
      VisitServedOrAhead(t, i, c, fd, p, n);
    }
    var j := ServeIndexInduction((t: State, i: nat) => ServedOrAhead(t, i, c, fd, p, n), s, BASE);
    ServedOrAheadAtEnd(Serve(s, BASE), j, c, fd, p, n);
  }

  function ClientRounds(es: seq<Event>): nat {
    if es == [] then 0 else ClientRounds(es[..|es| - 1]) + if es[|es| - 1].Clients? then 1 else 0
  }

  lemma {:induction false} WriteAllReads(net: Net, fds: seq<Fd>, p: Packet, c: nat)
    requires c < |net.conns|
    ensures var r := WriteAll(net, fds, p).conns[c]; r.read == net.conns[c].read && r.sent == net.conns[c].sent
    decreases |fds|
  {
    if fds != [] {
      WriteAllReads(Write(net, fds[0], p), fds[1..], p, c);
    }
  }

  /** Steps other than a client round leave a waiting client where it is. */
  lemma OtherStepsWait(s: State, e: Event, c: nat, fd: Fd, p: nat)
    requires s.status == Running && PollSound(s) && LegalEvent(s, e) && Waiting(s, c, fd, p) && !e.Clients? && Step(s, e).status == Running
    ensures Waiting(Step(s, e), c, fd, p) && ReadCount(Step(s, e), c) == ReadCount(s, c)
  {
    if e.NewDatagram? {
      WriteAllReads(s.net, Recipients(s.subs, TopicOf(e.pub)), Notify(e.pub), c);
    }
  }

  /** Connection `c` has been read from since `n` messages, or waits at an index of at most `p`. */
  predicate ServedOrWaiting(s: State, c: nat, fd: Fd, p: int, n: nat) {
    ReadCount(s, c) > n || (ReadCount(s, c) == n && exists q: nat :: q <= p && Waiting(s, c, fd, q))
  }

  lemma StepReads(s: State, e: Event, c: nat)
    requires c < |s.net.conns|
    ensures Step(s, e).status != Stopped ==> ReadCount(Step(s, e), c) >= ReadCount(s, c)
  {
    if s.status == Running {
      if e.NewDatagram? {
        WriteAllReads(s.net, Recipients(s.subs, TopicOf(e.pub)), Notify(e.pub), c);
      } else if e.Clients? {
        ServeReads(Poll(s), BASE, c);
      }
    }
  }

  lemma StepMovesUp(s: State, e: Event, c: nat, fd: Fd, p: int, n: nat)
    requires s.status == Running && PollSound(s) && LegalEvent(s, e) && ServedOrWaiting(s, c, fd, p, n) && Step(s, e).status == Running
    ensures ServedOrWaiting(Step(s, e), c, fd, if e.Clients? then p - 1 else p, n)
  {
    StepReads(s, e, c);
    if ReadCount(s, c) == n {
      var q: nat :| q <= p && Waiting(s, c, fd, q);
      if e.Clients? {
        PollKeepsSound(s);
        ServedOrCloser(Poll(s), c, fd, q);
      } else {
        OtherStepsWait(s, e, c, fd, q);
      }
    }
  }

  lemma {:induction false} WaitingMovesUp(s: State, es: seq<Event>, c: nat, fd: Fd, p: nat)
    requires PollSound(s) && LegalRun(s, es) && Waiting(s, c, fd, p) && Exec(s, es).status == Running
    ensures ServedOrWaiting(Exec(s, es), c, fd, p - ClientRounds(es), ReadCount(s, c))
  {
    if es != [] {
      var front := es[..|es| - 1];
      WaitingMovesUp(s, front, c, fd, p);
      RunKeepsSound(s, front);
      StepMovesUp(Exec(s, front), es[|es| - 1], c, fd, p - ClientRounds(front), ReadCount(s, c));
    }
  }

  lemma BoundedSkippingFrom(s: State, es: seq<Event>, c: nat, fd: Fd, p: nat)
    requires PollSound(s) && LegalRun(s, es) && Waiting(s, c, fd, p) && Exec(s, es).status == Running
    requires ClientRounds(es) >= p - 2
    ensures ReadCount(Exec(s, es), c) > ReadCount(s, c)
  {
    WaitingMovesUp(s, es, c, fd, p);
  }

  /** Running one stretch of events after another. */
  lemma {:induction false} RunConcat(s: State, a: seq<Event>, b: seq<Event>)
    requires LegalRun(s, a + b)
    ensures Exec(s, a + b) == Exec(Exec(s, a), b) && LegalRun(s, a) && LegalRun(Exec(s, a), b)
    decreases |b|
  {
    if b == [] {
      assert a + b == a;
    } else {
      assert (a + b)[..|a + b| - 1] == a + b[..|b| - 1];
      RunConcat(s, a, b[..|b| - 1]);
    }
  }

  /** In every legal run, descriptors reused or not: a client with an unread message at poll index `p` is
      read from within `p - 2` client rounds, whatever else happens in between, while the broker runs. */
  lemma BoundedSkipping(init: State, past: seq<Event>, es: seq<Event>, c: nat, fd: Fd, p: nat)
    requires Initial(init) && LegalRun(init, past + es)
    requires Waiting(Exec(init, past), c, fd, p) && Exec(init, past).status == Running
    requires ClientRounds(es) >= p - 2 && Exec(init, past + es).status == Running
    ensures ReadCount(Exec(init, past + es), c) > ReadCount(Exec(init, past), c)
  {
    RunConcat(init, past, es);
    InitialInv(init);
    InvIsPollSound(init);
    RunKeepsSound(init, past);
    BoundedSkippingFrom(Exec(init, past), es, c, fd, p);
  }
}
