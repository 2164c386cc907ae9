# A verified model of the topic broker

The broker accepts TCP subscribers, receives UDP datagrams, and forwards each datagram as a
notification to the subscribers whose patterns match its topic. This project models the broker, its
subscribers and the protocol between them, and proves what they do over whole runs.

| file | contents |
|---|---|
| `Regex.dfy`, `TopicPattern.dfy`, `TopicLevels.dfy` | the pattern rewrite, the regular expression it yields, and the level-by-level meaning |
| `Bytes.dfy`, `Framing.dfy` | integers and C strings in memory; length-prefixed packets over a byte stream; the send and receive loops |
| `Notification.dfy` | datagram to notification packet and back |
| `Numbers.dfy`, `ErrorBounds.dfy`, `Printing.dfy` | 32-bit wrap-around, rounding to binary32, digits printed through floating point |
| `BrokerState.dfy` | the broker as a state machine, one function per thing the code does |
| `BrokerInvariant.dfy` | what every step keeps |
| `Directory.dfy`, `Refinement.dfy`, `History.dfy` | the broker without descriptors, the proof that the code's tables are that, and the whole-run theorems |
| `Accounting.dfy`, `Rounds.dfy`, `Attribution.dfy` | conservation and agreement, the client loop, whose message is whose |
| `Server.dfy` | the broker's code: global tables and array updated in place, held to the state machine |
| `Commands.dfy`, `Subscriber.dfy` | typed lines to packets to messages; the subscriber program's loop |
| `EndToEnd.dfy` | everything put together, in both directions |

How the model is set up:

- A state holds the subscriber vector, the polled array, the open descriptors with their connections,
  and a history of the inputs consumed (connections, messages read, datagrams, the exit). An event is one
  turn of the main loop, or a message reaching the host. A run is a sequence of events.
- `Directory` is the specification: a map from IDs to accounts, driven by the history alone. It knows
  nothing of descriptors, arrays or search order. The whole-run theorems compare the code's state and
  everything it has written with that directory.
- A *legal* run (`LegalRun`) is one the operating system allows: `accept` returns a descriptor that is not
  open. Offline records keep their old descriptor, and the lookup takes the first record that carries one,
  so a message can go to the wrong record. An *exclusive* run (`ExclusiveRun`) is a legal one in which every
  connection accepted got a descriptor that no record before its own carries. That is exactly what correct
  attribution takes: `RunAttributesExactly` proves the equivalence over all legal runs, and the whole-run
  theorems about accounts rest on it. A run in which `accept` never returns a descriptor stored in another
  ID's record is exclusive (`FreshRunIsExclusive`). The results about the polled array and the client loop
  hold in every legal run.
- `ReuseMisleads`, `ReuseMisdelivers` and `ReuseDuplicates` are legal runs that are not exclusive and go wrong.
- A failed check (`DIE`) is the terminal status `Halted`. The exit that any input on stdin triggers is `Stopped`.
- `send` and `recv` move any positive number of bytes up to what was asked.
- Octets are characters below 256, as C's `char` is used here.

Three places where the code and its intent differ, and what the model does:

- `notification.payload` has 1500 bytes (strucs.h:49) but 1501 are written; the packet here has room for
  1501, as `udp_packet` does.
- Growing the polled array passes a count without the element size (server.cpp:22); the model doubles it.
- An offline record keeps its descriptor (server.cpp:280-282). This one is modelled as it is.

And four results the intent would not suggest:

- widening `+` to `*` loses topics that contain a line terminator, exactly those (`WideningIsLosslessExactly`);
- the client loop passes over the entry after each one it removes (`RoundIsWalk`, `PassedOver`);
- a failed lookup by descriptor never happens, even when descriptors are reused (`RunHaltsOnlyOnMiss`): what goes
  wrong is the record found, not that none is;
- a FLOAT whose magnitude needs more than 24 bits is printed rounded (`FloatDigits`).

## Model

| member | source | states |
|---|---|---|
| TopicPattern.PassesAreSimultaneous | server.cpp:143-150 | for every pattern the two substitution passes equal one simultaneous character-by-character translation, in either order, although the first replacement text contains `+` |
| TopicPattern.ParseTranslated | server.cpp:143-154 | for every plain pattern the text that is compiled parses to one term per pattern character and the final anchor |
| TopicPattern.MatchIsGlob | server.cpp:141-158 | for every plain pattern and every topic, acceptance by the compiled expression is the wildcard meaning: `+` a non-empty slash-free run, `*` a run without line terminators |
| TopicLevels.MatchIsLevelMatch | server.cpp:139-158 | for every plain pattern whose wildcards fill whole levels, and every topic, acceptance is the level-by-level match: `+` exactly one non-empty level, `*` one or more levels, a literal the equal level; both directions |
| TopicLevels.LevelMeaningExactly | server.cpp:139-158 | for every plain pattern: acceptance is the level-by-level match on all topics if and only if every wildcard fills its whole level |
| TopicPattern.StarMatches | server.cpp:148-150 | `*` alone accepts exactly the topics without line feed and carriage return |
| TopicPattern.PlusMatches | server.cpp:143-145 | `+` alone accepts exactly the non-empty topics without slash |
| TopicPattern.TextMatches | server.cpp:152-157 | a pattern of letters, digits, `_`, `-`, blank and `/` accepts itself and nothing else |
| TopicLevels.GlobIsLevelMatch | server.cpp:141-158 | the same equivalence between the character-level meaning of a joined pattern and the match of its levels |
| TopicPattern.WideningIsLosslessExactly | server.cpp:143-157 | replacing any `+` by `*` never loses a topic, whatever the pattern, if and only if the topic has no line terminator |
| Directory.WidenedBeside | server.cpp:160-166 | holding a `+` pattern beside its `*` version changes no delivery |
| Directory.InterestedIs | server.cpp:160-166 | the search through a held list succeeds if and only if some pattern in it matches |
| BrokerState.InterestAddsUp | server.cpp:160-166 | interest in a joined list is interest in either part, an empty list has none, a single pattern is its own match |
| BrokerState.TopicIsMeant | server.cpp:182-185 | the topic matched is the C string at the start of the packet that is sent, and the one the datagram means |
| BrokerState.TopicOfPublished | server.cpp:195-198 | a datagram written for a topic of up to 50 octets is matched under exactly that topic |
| Framing.FrameRoundTrip | common.cpp:23-53 | a serialized packet followed by anything reads back as itself and ends exactly at its last byte |
| Framing.WireInjective | common.cpp:23-74 | a stream of packets is determined by its bytes |
| Framing.FrameBytes | strucs.h:23-26 | byte 0 is the action, bytes 1 to 4 the payload's length with the least significant first, the payload starts at byte 5 |
| Framing.RecvTcpPacket | common.cpp:23-53 | for every splitting by recv: exactly the first packet of the stream lands in the buffer, the rest of the buffer and of the stream is untouched, and the loops end |
| Framing.SendTcpPacket | common.cpp:55-74 | for every splitting by send: exactly the packet in the buffer is appended to the stream |
| Framing.ReceiveAll | common.cpp:23-53 | successive receives return exactly the sequence of packets sent and leave what follows |
| Framing.Transfer | common.cpp:23-74 | any sequence of packets survives sending and receiving, for every splitting of both |
| Bytes.LeRoundTrip | strucs.h:23-26 | the header's length field reads back the length written, least significant octet first |
| Bytes.BeRoundTrip | subscriber.cpp:158-171 | network-order octets and the number they hold determine each other |
| Bytes.BeNatOfFour | subscriber.cpp:158 | four network-order octets are the number whose most significant octet comes first, below 2^32 |
| Bytes.CStringIs | server.cpp:228-236 | a C string is the longest terminator-free prefix |
| Notification.BuildNotification | server.cpp:191-247 | filling the packet field by field yields the serialized notification for the datagram in the buffer |
| Notification.CopyValue | server.cpp:203-237 | the copy by type, with a string cut after its first terminator, yields the value bytes of the notification and leaves the rest of the packet alone |
| Notification.NotificationBytes | strucs.h:44-50 | the bytes of a notification at their offsets: topic at 5, terminator at 55, type at 56, sender at 57, value at 77; 82, 79 and 83 bytes in all for the three numeric types, and a string followed by one terminator |
| Notification.ForwardedAsWritten | server.cpp:203-247 | for every topic and value the packet carries the value exactly as written, plus a terminator after a string, and announces 72 bytes more than that |
| Notification.DecodeEncode | subscriber.cpp:149-185 | what the subscriber decodes, over any stale buffer content, is what the datagram meant |
| Notification.MeaningOctets | subscriber.cpp:155-183 | which octets of a datagram make up its value: most significant first, and a minus only for the sign octet 1 |
| Notification.MeaningInRange | subscriber.cpp:155-183 | every datagram of a known type means a value that could have been written |
| Notification.StringDatagram | server.cpp:220-237 | a string of up to 1500 bytes, terminated or not, arrives as its longest terminator-free prefix, and the packet counts that plus one |
| Notification.PublishedIsMeant | server.cpp:195-226 | a datagram written from a topic and a value of any of the four types means exactly that topic, type and value |
| Notification.Deliver | server.cpp:191-251 | one datagram built, sent, received under any splitting and decoded means the same at both ends |
| Numbers.IntShownExactly | subscriber.cpp:156-161 | the integer printed is the 32-bit value congruent to the signed magnitude, and equals it if and only if that fits in 32 bits |
| Numbers.ToBinary32Representable | subscriber.cpp:173 | the conversion's result has at most 24 significant bits |
| Numbers.ToBinary32IsNearest | subscriber.cpp:173 | no integer with 24 significant bits is nearer than the conversion's result |
| Numbers.ToBinary32TiesToEven | subscriber.cpp:173 | halfway cases go to the even neighbour |
| Numbers.ToBinary32ExactlyWhen | subscriber.cpp:173 | conversion to binary32 loses nothing if and only if the magnitude is a multiple of its spacing, hence up to 2^24 |
| Numbers.FirstInexact | subscriber.cpp:173 | 2^24 + 1 is printed as 2^24 |
| Printing.FloatDigits | subscriber.cpp:169-178 | with pow good to 2^-52 and a correctly rounded division, the digits printed for every 32-bit magnitude and every exponent are those of the rounded magnitude behind a minus sign exactly when the sign byte asks for one, on zero as well, and the exact ones if and only if the magnitude is a multiple of its spacing |
| Printing.ShortRealDigits | subscriber.cpp:163-167 | every 16-bit count of hundredths is printed exactly despite single precision |
| BrokerState.IndexOf | server.cpp:255-272 | the first occurrence, and the length if and only if there is none |
| BrokerInvariant.AcceptKeepsInv | server.cpp:95-128 | connecting, reconnecting and refusing keep IDs unique, online records found by their descriptor, and the two tables in agreement |
| BrokerInvariant.HandleKeepsInv | server.cpp:276-342 | so does every client message; a goodbye removes exactly its own entry |
| BrokerInvariant.StepKeepsInv | server.cpp:381-433 | every step but the exit keeps: unique IDs, online records found by their descriptor, polled clients duplicate-free and equal to the online records' descriptors, each open on a connection of that ID |
| BrokerInvariant.RunKeepsInv | server.cpp:381-433 | the same in every exclusive run |
| BrokerInvariant.RunKeepsSound | server.cpp:385-431 | in every legal run, descriptors reused or not, the polled clients are distinct and open |
| Refinement.AcceptRefines | server.cpp:100-128 | a connection is accepted if and only if its ID is not online in the directory, and the tables follow the directory; accepted or refused, its descriptor stays open |
| Refinement.HandleRefines | server.cpp:297-342 | a message read from a polled client is applied to the account that owns the connection and to no other; a goodbye closes its own descriptor and nothing else is closed; the broker halts exactly on an unsubscribe from a topic that account lacks |
| Refinement.PublishOut | server.cpp:168-189 | a publication is written once to exactly the live connections whose account holds a pattern matching the topic the datagram means |
| Refinement.RecipientsAre | server.cpp:168-178 | the chosen descriptors are exactly those of online records with a matching pattern |
| Refinement.ExitOut | server.cpp:350-364 | the exit says goodbye once on exactly the live connections |
| History.RunRefinesDirectory | server.cpp:100-128 | in every exclusive run the vector, the array and the descriptors are the map from ID to session and topic list that the history determines |
| History.RunDelivery | server.cpp:160-189 | in every exclusive run every connection has been written exactly the publications made while it was live and its account held a match, in order, once each, nothing from other times; and its messages were read in the order sent |
| History.HistoryIsTheRun | server.cpp:381-433 | connections, datagrams and the exit stand in the history exactly as the run brought them, in order |
| History.RunHaltsOnMiss | server.cpp:309-319 | in every exclusive run the broker has halted if and only if the last thing it read was an unsubscribe from a topic not held |
| History.RunExit | server.cpp:344-379 | after any exclusive run the exit sends SHUTDOWN_CLOSE exactly once to each online subscriber and nothing to anyone else, and closes exactly the polled clients' descriptors |
| Accounting.Conservation | server.cpp:297-319 | an account holds a pattern exactly as often as it was subscribed less the times it was unsubscribed, across sessions and unaffected by others |
| Accounting.RunConservation | server.cpp:297-319 | the same for every record in every state of every exclusive run, running, halted or stopped, counting all inputs but the one that ended it |
| Accounting.UnsubscribeHaltsExactly | server.cpp:316-318 | an unsubscribe halts the broker if and only if that balance is zero |
| Directory.RemoveFirstIs | server.cpp:316-318 | the first equal topic is removed and the others keep their order; a list without it is unchanged |
| Accounting.RunConsistency | subscriber.cpp:92-132 | in every exclusive run, for every accepted live connection, applying the unread messages to the broker's topic list gives the list at connect time with all the subscriber's commands applied |
| Accounting.RunRefused | server.cpp:112-118 | in every exclusive run a connection announcing an ID already online is written SHUTDOWN_INTRUDER and nothing else ever, and none of its messages is ever read |
| Accounting.RunOneSessionPerId | server.cpp:405-411 | in every exclusive run at most one polled connection carries any one ID |
| Rounds.RoundIsWalk | server.cpp:425-431 | in one client round of any legal run the messages read are, in array order, those of the ready entries except each that directly follows a removed one, and exactly the removed entries leave the array; a round cut short by a halt reads a beginning of them |
| Rounds.ReadsDistinct | server.cpp:426-430 | no connection is read from twice in one round |
| Rounds.PassedOver | server.cpp:426-430 | a ready client left out directly followed a removed entry and keeps its place; the first ready client is always served |
| Rounds.BoundedSkipping | server.cpp:426-430 | in every legal run, descriptors reused or not, a client with an unread message at poll index p is read from within p - 2 client rounds, whatever else happens in between, while the broker runs |
| Attribution.SubscribeAttributedExactly | server.cpp:297-305 | a subscription on a record's descriptor reaches that record alone if and only if no earlier record carries the same descriptor |
| Attribution.UnsubscribeAttributedExactly | server.cpp:309-319 | an unsubscription from a topic the record holds takes it from that record alone under the same condition |
| Attribution.CloseAttributedExactly | server.cpp:276-282 | a goodbye takes that record offline and changes no other under the same condition |
| Attribution.RunAttributesExactly | server.cpp:255-262 | over every legal run: at every point every online record is the one found by its descriptor, if and only if every connection accepted got a descriptor that no record before its own carries |
| Attribution.FreshRunIsExclusive | server.cpp:255-262 | never being given a descriptor stored in another ID's record is enough |
| Attribution.HandleHaltsExactly | server.cpp:276-319 | descriptors reused or not: the lookup for a polled client always finds a record, and its message halts the broker if and only if it is an unsubscribe from a topic that record lacks |
| Attribution.RunHaltsOnlyOnMiss | server.cpp:276-319 | in every legal run the other checks never fail: the broker halts only on an unsubscribe from a topic missing in the record found |
| Attribution.ReuseMisleads | server.cpp:280-304 | a legal run in which the subscription of B lands in the record of A, which is offline |
| Attribution.ReuseMisdelivers | server.cpp:276-293 | a legal run in which C, who has subscribed to nothing, is written a notification meant for B |
| Attribution.ReuseDuplicates | server.cpp:182-189 | a legal run in which one connection is written the same notification twice |
| Server.Broker.constructor | server.cpp:40-47 | the initial state of the state machine |
| Server.Broker.AddNewPollFd | server.cpp:20-32 | one entry appended, nothing else changed, whether or not the array grew |
| Server.Broker.CheckAndAddNewSub | server.cpp:100-128 | the loop decides and updates as the state machine does |
| Server.Broker.AcceptConnection | server.cpp:395-414 | the listener's branch is the state machine's accept |
| Server.Broker.SubIsInterested | server.cpp:160-166 | true if and only if some held pattern matches |
| Server.Broker.GetSubsByTopic | server.cpp:170-178 | exactly the recipients, in table order |
| Server.Broker.SendPacketToSubscribers | server.cpp:182-189 | one write to each recipient |
| Server.Broker.GetSubscriberByFd | server.cpp:255-262 | the first record that carries the descriptor |
| Server.Broker.GetPollStrucByFd | server.cpp:266-272 | the first entry that carries the descriptor |
| Server.Broker.RemovePollFd | server.cpp:285-291 | the shift removes exactly one entry and keeps the order of the others |
| Server.Broker.HandleShutdownSub | server.cpp:276-293 | the record goes offline, the descriptor is closed, its entry removed |
| Server.Broker.AddTopic | server.cpp:297-305 | the topic is appended to the first record that carries the descriptor |
| Server.Broker.RemoveTopic | server.cpp:309-319 | the first equal topic is erased, or the broker halts |
| Server.Broker.ParseTcpClientMessage | server.cpp:323-342 | one message read and dispatched |
| Server.Broker.ServeClients | server.cpp:425-431 | the loop over the array it shortens is the state machine's round |
| Server.Broker.Shutdown | server.cpp:350-379 | a goodbye on, and the closing of, every polled client |
| Server.Broker.Run | server.cpp:381-433 | the code goes through exactly the states of the state machine in every legal run |
| Commands.TypedCommands | subscriber.cpp:134-147 | a typed command with any further spacing and anything after the topic yields that command |
| Commands.CommandExactly | subscriber.cpp:134-147 | for every line and every command: the code finds that command, or none, if and only if the characters of the line say so (its first word, the one character skipped, blanks, and the topic up to the next blank or the end) |
| Commands.IssuedExactly | subscriber.cpp:92-147 | what a line sends is the message it says, and nothing if it says none |
| Commands.TypedIsIssued | subscriber.cpp:92-147 | `subscribe`, `unsubscribe` and `exit` as typed send Subscribe, Unsubscribe and the goodbye; a line starting with none of the three words sends nothing |
| Commands.CommandInBuffer | subscriber.cpp:92-147 | what the code finds at fixed offsets of its buffer is the command in the line, whatever the buffer holds after it |
| Commands.ParseStdinCommand | subscriber.cpp:78-147 | the line is read and its newline removed, the command returned is the one the line says, the buffer that holds it is reused for the packet, and exactly that packet is sent; a wrong command sends nothing |
| Commands.MessageRoundTrip | server.cpp:297-316 | whatever the buffer held before, the broker reads the message that was sent |
| Commands.MessageBytes | subscriber.cpp:78-131 | the bytes of a message at their offsets: action 3, 6 or 2, the length, and the topic with its one terminator |
| Commands.ConnectBytes | subscriber.cpp:54-68 | the bytes that announce an ID: action 1, the length, the ID with its terminator |
| Commands.ConnectRoundTrip | subscriber.cpp:54-68 | the ID the broker finds is the one announced, whatever the buffer held before |
| Commands.ReceiveMessages | server.cpp:323-342 | successive packets give back the subscriber's messages in order, through a buffer never cleared in between |
| SubscriberClient.RunSubscriber | subscriber.cpp:187-219 | a session of lines typed and packets received, in any order, shows and sends exactly what its turns say, for every splitting of the bytes both ways, and ends at the exit command or the first shutdown |
| SubscriberClient.SessionIsFaithful | subscriber.cpp:187-219 | however typing and packets interleave, what is shown is a beginning of the notices in the stream and what is sent a beginning of the commands typed; all commands are sent unless a packet taken ends the session, and without an exit typed every notice in the packets taken is shown |
| SubscriberClient.SessionEnds | subscriber.cpp:70-90 | nothing after the exit command or after the first packet that is not a notification is shown or sent |
| SubscriberClient.NoticesAre | subscriber.cpp:196-216 | the notices in a stream are, position by position, the meanings of its datagrams, up to the first packet that is not a notification |
| SubscriberClient.CommandsAreSaid | subscriber.cpp:134-147 | the commands of a session are what its lines say, wrong lines left out, up to the first exit |
| SubscriberClient.PacketBytes | server.cpp:130-137 | the two shutdown packets are the five bytes 2 0 0 0 0 and 5 0 0 0 0; a notification starts with 4 |
| EndToEnd.BytesDetermineDelivery | common.cpp:55-74 | for every exclusive run and every connection, the bytes written to it read as packets in one way only: the packets the history entitles it to |
| EndToEnd.EntitledExactly | server.cpp:160-189 | a notice is owed to a connection if and only if a datagram with that meaning was published while the connection was live and its account held a pattern matching the notice's topic |
| EndToEnd.EntitledToWritten | server.cpp:191-251 | a datagram written from a topic and a value adds exactly that topic and value to what each live connection with a match for the topic is owed, and nothing to any other |
| EndToEnd.EntitledIsSent | server.cpp:160-189 | running, halted or stopped, the notices in what a connection was sent are exactly those it is owed, in order |
| EndToEnd.SubscriberSees | server.cpp:191-251 | for every exclusive run and every connection, the subscriber at its other end shows a beginning of the notices the history owes it, for every splitting of the bytes; unless an exit is typed, exactly as many as it has taken packets, and all of them once it has taken every packet |
| EndToEnd.TypeLines | subscriber.cpp:92-147 | lines typed, turned into packets, sent and received under any splitting and read by the broker are what the characters of the lines say, up to the exit |
| EndToEnd.LinesBecomeTopics | subscriber.cpp:92-132 | after any exclusive run, what the lines typed at an online subscriber say is, once the broker has read what reached it, in the topic list it holds for that subscriber: the list at connect time with every command applied |

## Left out

- Socket creation, binding, listening, socket options, addresses and argument parsing.
- Errors and end of stream from send and recv: the results are held in an unsigned type, so the checks never fire (common.cpp:31-32).
- A write to a descriptor that is not open has no effect in the model; it happens only in runs that are not exclusive.
- The sender's address and port inside a notification are opaque bytes (server.cpp:240-242).
- Datagram types other than 0 to 3, for which the length is never set (server.cpp:205-224).
- IDs longer than 3 and topics longer than 50 characters, which overrun their buffers; the state machine itself holds for any string.
- TopicPattern.MatchesTopic: pattern text outside the modelled grammar counts as no match; the library's own rules, or its exception, would decide. `.`, `^` and `$` typed in a pattern are within the grammar and keep their regular-expression meaning.
- The decimal text of printed numbers: the results are about digits and their number of places.
- The internals of pow, printf and the regular-expression library, for which error bounds and a denotation stand.
- Memory allocation and freeing, log lines, and the sample publishers and test driver.
- fgets at end of input, and lines of 256 characters or more.
