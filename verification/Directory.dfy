/** The broker without descriptors: a map from IDs to accounts, driven by the history of inputs, and
    what that history entitles each connection to receive. */
module Directory {
  import opened Notification
  import opened BrokerState
  import opened TopicPattern

  datatype Session = Offline | Online(c: nat)

  datatype Account = Account(session: Session, topics: seq<string>)

  /** Accounts by ID, and the ID each connection announced. */
  datatype Book = Book(accounts: map<string, Account>, owner: map<nat, string>)

  function TopicsFor(b: Book, id: string): seq<string> {
    if id in b.accounts then b.accounts[id].topics else []
  }

  predicate IsOnline(b: Book, id: string) {
    id in b.accounts && b.accounts[id].session.Online?
  }

  /** The connection currently carries its owner's session. */
  predicate Live(b: Book, c: nat) {
    c in b.owner && b.owner[c] in b.accounts && b.accounts[b.owner[c]].session == Online(c)
  }

  function RemoveFirst(topics: seq<string>, topic: string): seq<string> {
    if topic in topics then RemoveAt(topics, IndexOf(topics, topic)) else topics
  }

  /** The first equal topic goes, the others keep their order; a list without the topic stays as it is. */
  lemma RemoveFirstIs(before: seq<string>, topic: string, after: seq<string>)
    requires topic !in before
    ensures RemoveFirst(before + [topic] + after, topic) == before + after
    ensures RemoveFirst(before, topic) == before
  {
    var topics, k := before + [topic] + after, |before|;
    forall j | 0 <= j < k
      ensures topics[j] != topic
    {
      assert topics[j] == before[j];
    }
    IndexOfIs(topics, topic, k);
    assert topics[..k] == before && topics[k + 1..] == after;
  }

  function ApplyToTopics(topics: seq<string>, msg: Message): seq<string> {
    match msg
    case Subscribe(topic) => topics + [topic]
    case Unsubscribe(topic) => RemoveFirst(topics, topic)
    case _ => topics
  }

  function ApplyToAccount(a: Account, msg: Message): Account {
    Account(if msg == Close then Offline else a.session, ApplyToTopics(a.topics, msg))
  }

  function Apply(b: Book, input: Input): Book {
    match input
    case Connected(c, id) =>
      var owner := b.owner[c := id];
      if IsOnline(b, id) then Book(b.accounts, owner)
      else Book(b.accounts[id := Account(Online(c), TopicsFor(b, id))], owner)
    case Read(c, msg) =>
      if Live(b, c) then b.(accounts := b.accounts[b.owner[c] := ApplyToAccount(b.accounts[b.owner[c]], msg)]) else b
    case _ => b
  }

  function Replay(log: seq<Input>): Book {
    if log == [] then Book(map[], map[]) else Apply(Replay(log[..|log| - 1]), log[|log| - 1])
  }

  /** Some pattern in the list matches. */
  predicate HoldsMatch(topics: seq<string>, topic: string) {
    exists p :: p in topics && MatchesTopic(topic, p)
  }

  /** Connection `c` is to see the publication: it is live, and its account holds a pattern that matches the
      topic the datagram means. */
  predicate Receives(b: Book, c: nat, pub: Publication) {
    Live(b, c) && HoldsMatch(b.accounts[b.owner[c]].topics, Meaning(pub.buff, pub.origin).topic)
  }

  /** What one input makes the broker write to connection `c`. */
  function Emitted(b: Book, input: Input, c: nat): seq<Packet> {
    match input
    case Connected(c', id) => if c' == c && IsOnline(b, id) then [ShutdownIntruder] else []
    case Read(_, _) => []
    case Published(pub) => if Receives(b, c, pub) then [Notify(pub)] else []
    case Exit => if Live(b, c) then [ShutdownClose] else []
  }

  /** Everything the history entitles connection `c` to, in order. */
  function Expected(log: seq<Input>, c: nat): seq<Packet> {
    if log == [] then []
    else Expected(log[..|log| - 1], c) + Emitted(Replay(log[..|log| - 1]), log[|log| - 1], c)
  }

  /** The messages read from connection `c`, in order. */
  function ReadsOf(log: seq<Input>, c: nat): seq<Message> {
    if log == [] then []
    else
      var last := log[|log| - 1];
      ReadsOf(log[..|log| - 1], c) + if last.Read? && last.c == c then [last.msg] else []
  }

  /** The inputs other than client messages, in order. */
  function Outside(log: seq<Input>): seq<Input> {
    if log == [] then []
    else
      var last := log[|log| - 1];
      Outside(log[..|log| - 1]) + if last.Read? then [] else [last]
  }

  /** An unsubscribe from a topic the account does not hold. */
  predicate Missing(b: Book, input: Input) {
    input.Read? && input.msg.Unsubscribe? && Live(b, input.c)
    && input.msg.topic !in b.accounts[b.owner[input.c]].topics
  }

  /** A history in which every message came over a live connection, no unsubscribe missed, and
      no connection number came twice. */
  predicate Clean(log: seq<Input>) {
    log == [] ||
    var front, last := log[..|log| - 1], log[|log| - 1];
    && Clean(front)
    && (last.Read? ==> Live(Replay(front), last.c) && !Missing(Replay(front), last))
    && (last.Connected? ==> last.c !in Replay(front).owner)
    && !last.Exit?
  }

  /** The search through a held list finds a match exactly when there is one. */
  lemma InterestedIs(topics: seq<string>, topic: string)
    ensures Interested(topics, topic) <==> HoldsMatch(topics, topic)
  {
    if k :| 0 <= k < |topics| && MatchesTopic(topic, topics[k]) {
      assert topics[k] in topics;
    }
    if p :| p in topics && MatchesTopic(topic, p) {
      var k :| 0 <= k < |topics| && topics[k] == p;
      assert MatchesTopic(topic, topics[k]);
    }
  }

  /** A `+` pattern held beside its `*` version changes no delivery. */
  lemma WidenedBeside(topics: seq<string>, p: string, q: string, topic: string)
    requires q in topics && Plain(p) && Widens(p, q) && NoLineTerminator(topic)
    ensures Interested(topics + [p], topic) <==> Interested(topics, topic)
  {
    InterestAddsUp(topics, [p], p, topic);
    InterestedIs(topics, topic);
    if MatchesTopic(topic, p) {
      WideningMatch(p, q, topic);
    }
  }
}
