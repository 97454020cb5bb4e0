# octopusMQ: a verified model of its publish/subscribe core

octopusMQ bridges MQTT brokers. Each configured adapter runs a broker on its own worker thread;
what a client publishes is delivered to the adapter's own subscribers and pushed to one shared
queue, which a control thread drains into every other adapter whose scope includes the topic.
This project models that core in Dafny and proves what it keeps, for every input and every run.

| module | models |
|---|---|
| `Text`, `Topics`, `TopicLaws` | the topic filter language: tokenizers, comparison, what a match means, the distance to section 4.7 of MQTT 3.1.1 |
| `Scopes` | precompiled adapter scopes |
| `Mqtt`, `Publications` | the values on the wire, and what a PUBLISH becomes for each subscription on the v3, v5 and injected paths |
| `Subscriptions`, `Container` | the three-index subscription container, on values and as an object updated in place |
| `Brokers` | a broker's handlers and the shared queue, as objects updated in place |
| `Machine` | the running system: N workers, the control thread and all locks, one step per access to shared state |
| `Locks`, `Sessions`, `Logs`, `History` | the invariants of that system, kept by every step |
| `Guarantees`, `Drains`, `Progress`, `Handlers`, `Requests` | what follows for every state of every run |
| `Settings`, `Addresses` | the incremental binding check; printing and parsing addresses |

Handlers, loops and containers that the program updates in place are methods and classes, each
proved against a specification function; the lemmas are about those functions. The running system
uses the same functions (`Copies`, `Emplaced`, `Without`, `Includes`) one step at a time, so that
handlers of different adapters, the drain and the two phases of a close interleave freely.

## Where the code and its standard differ

The model follows the code; each difference has its exact condition and a concrete input.

- A filter `a/#` does not match its parent `a`, and topics that start with `$` get no special
  treatment. The filters that are treated as section 4.7 asks are those that start with no wildcard
  and do not end in `#`, and `/#` (`TopicLaws.ConformanceCondition`, `TopicLaws.GapWitnesses`).
- `compare_topics` evaluates `filter[i]` one past the end when every filter level matched and the
  topic is longer, as for `a` and `a/b` (`TopicLaws.PastEndWitness`). The model guards the read and
  answers "no match"; `Topics.CompareTopics`, `Topics.MatchesFilter` and `Scopes.IncludesTopic`
  report in `pastEnd` exactly the inputs for which the guard is needed, and
  `TopicLaws.PastEndCondition` says which filters have such a topic.
- A repeated subscription keeps the stored options, and of two entries of one packet the first
  (`Brokers.SubscribeCondition`); an UNSUBSCRIBE erases the filter for every connection
  (`Brokers.UnsubscribeCondition`).
- A text of seven characters without a colon, such as `0.0.0.0`, is parsed neither as an address nor
  as a port (`Addresses.BareAddress`, `Addresses.BarePort`).
- A port of seven or more digits can be cut by the print buffer (`Addresses.RoundTripIffFits`,
  `Addresses.SevenDigitPortIsCut`).

## Model

| member | source | states |
|---|---|---|
| Topics.TokenizeTopicFilter | src/network/message.cpp:75-108 | the loop returns exactly the levels between slashes, or nothing when the filter is empty, a `#` level is not last, or a wildcard shares its level |
| Topics.TokenizeTopic | src/network/message.cpp:110-134 | the loop returns exactly the levels of a nonempty topic without wildcards, and nothing otherwise |
| Topics.LoneWildcard | src/network/message.cpp:82-86 | the shortcut for `#` and `+` gives what the general loop would give |
| Topics.FilterRoundTrip | src/network/message.cpp:75-108 | joining the tokens of an accepted filter restores it; tokenizing the nonempty join of any well-formed list restores the list |
| Topics.TopicRoundTrip | src/network/message.cpp:110-134 | the same two directions for topics |
| Topics.AcceptanceByCharacter | src/network/message.cpp:80-107 | a filter is accepted iff it is nonempty, every `+` fills a whole level and any `#` fills the whole last level |
| Topics.ValidTopicFilter | src/network/message.cpp:167-173 | the check, with its shortcuts, answers exactly that character-level condition |
| Topics.CompareTopics | src/network/message.cpp:136-149 | the loop decides the recursive matching relation, and reads past the filter exactly when all its levels agree and the topic is longer |
| Topics.MatchesFilter | src/network/message.cpp:175-183 | the string-level match: `#` matches anything; otherwise both strings must be valid and their levels match. It reads past the filter exactly when, on such strings, the filter's levels all agree and the topic has more |
| TopicLaws.MatcherSoundAndComplete | src/network/message.cpp:136-183 | for an accepted filter other than `#`, a topic matches iff it is the filter with each `+` replaced by one plain level and a final `#` by one or more |
| TopicLaws.StandardGap | src/network/message.cpp:136-149 | the relation of sections 4.7.1.2 and 4.7.1.3 of MQTT 3.1.1 is the code's relation or, exclusively, "the topic is the parent of a filter ending in `#`" |
| TopicLaws.ConformanceCondition | src/network/message.cpp:136-183 | a filter is treated as section 4.7 asks on every topic, `$` topics included, iff it starts with no wildcard and ends in `#` only as `/#` |
| TopicLaws.TopicConformance | src/network/message.cpp:138-148 | one topic at a time: away from excluded `$` topics the code and section 4.7 agree iff the topic is not just the parent of a filter ending in `#` |
| TopicLaws.GapWitnesses | src/network/message.cpp:137-138 | `a/#` against `a` and `#` against `$S` are the two kinds of difference |
| TopicLaws.PastEndIsNoMatch | src/network/message.cpp:147 | when the read is past the end there is no `#` in the filter and neither the code's intent nor the standard has a match |
| TopicLaws.PastEndCondition | src/network/message.cpp:147 | some topic makes a filter's comparison read past its end iff the filter has no `#` |
| TopicLaws.PastEndWitness | src/network/message.cpp:147 | matching `a` against `a/b` reads past the end |
| Scopes.FromList | src/network/message.cpp:62-73 | construction throws iff an invalid filter precedes the first `#`, naming it; otherwise, for every string, the compiled scope includes it iff some configured filter matches it, despite the early break |
| Scopes.FromString | src/network/message.cpp:51-60 | the one-filter constructor: throws iff the filter is invalid, otherwise includes exactly what the filter matches |
| Scopes.IncludesTopic | src/network/message.cpp:151-165 | the early-exit loop answers whether some compiled filter matches, and reads past a filter exactly when one that agrees with the start of the topic stands before the first match |
| Mqtt.OptionsRoundTrip | src/threads/mqtt/broker.cpp:57 | publish options survive the byte they are stored in while queued |
| Mqtt.BitPositions | src/threads/mqtt/broker.cpp:57 | the byte has DUP in bit 3, the quality of service in bits 2 and 1 and RETAIN in bit 0, and is read so whatever the bits above (section 3.3.1 of MQTT 5.0) |
| Mqtt.SubscriptionIsAsAsked | src/threads/mqtt/broker.hpp:85-98 | a record has its entry's filter and quality of service; Retain As Published and No Local are the entry's own under v5 and off under v3 |
| Subscriptions.LessIsLexicographic | src/threads/mqtt/broker.hpp:104-106 | filters compare lexicographically: at the first difference the first has ended or has the smaller character |
| Subscriptions.OperationRefinesMap | src/threads/mqtt/broker.hpp:101-117 | each container operation keeps any of the three orders and the uniqueness of (connection, filter), and acts as on one map with that key |
| Subscriptions.ViewsRefineOneMap | src/threads/mqtt/broker.hpp:101-117 | after any run of operations each of the three views is ordered (the topic view by lexicographically ascending filters), unique and holds exactly the records of the one map |
| Subscriptions.RecordIsEarliestInsertion | src/threads/mqtt/broker.hpp:110-117 | a key has a record iff it was inserted and not erased since, and the record is that of the earliest such insertion |
| Container.SubscriptionContainer.Emplace | src/threads/mqtt/broker.cpp:243-244 | insert-if-absent on all three indexes at once; on the topic index filters ascend lexicographically and a new record comes after those of its own filter; a present key leaves everything unchanged |
| Container.SubscriptionContainer.EraseTopic | src/threads/mqtt/broker.cpp:261 | the equal range on the topic index goes from all three indexes, whichever connection made it; other records and their order stay |
| Container.SubscriptionContainer.EraseConnection | src/threads/mqtt/broker.cpp:43-45 | the equal range on the connection index goes from all three indexes; other records and their order stay |
| Container.EqualRange | src/threads/mqtt/broker.cpp:43-45 | on an ordered index the selected records are exactly one contiguous range, and cutting it out removes them and nothing else |
| Container.NeighbourDecides | src/threads/mqtt/broker.hpp:110-117 | on the unique index a clash can only be the record just below the upper bound |
| Publications.FanoutExactlyOnce | src/threads/mqtt/broker.cpp:211-222 | each loop sends exactly one delivery per subscription it is for, in topic-index order, at the lower quality of service |
| Publications.FanoutInFilterOrder | src/threads/mqtt/broker.cpp:210-212 | over the topic index the deliveries come in the lexicographic order of the filters they went through |
| Publications.RemoteEqualsLocal | src/threads/mqtt/broker.cpp:440-463 | injecting the queued form delivers what the origin's own handler would, apart from the No Local skip |
| Publications.VersionsAgree | src/threads/mqtt/broker.cpp:352-367 | on v3-made subscriptions the v5 handler sends what the v3 handler sends, apart from properties |
| Brokers.LookupsOnlyAdd | src/threads/mqtt/broker.cpp:458 | metadata lookups for the log keep every entry and add one exactly for each recipient without one |
| Brokers.Broker.Connect | src/threads/mqtt/broker.cpp:145-150 | the connection is registered and its client id and version recorded; the address stays |
| Brokers.Broker.DropSubscriptions | src/threads/mqtt/broker.cpp:41-45 | second phase: all and only the connection's subscriptions go |
| Brokers.Broker.CloseConnection | src/threads/mqtt/broker.cpp:37-46 | both phases leave nothing of the connection and everything of the others; closing again changes nothing |
| Brokers.Broker.HandleError | src/threads/mqtt/broker.cpp:115-127 | closes a registered connection and changes nothing for an unregistered one |
| Brokers.Broker.Subscribe | src/threads/mqtt/broker.cpp:373-401 | one code per entry in order, a failure (invalid filter under v5) exactly at filters with a misplaced wildcard; stored records keep their options, every other valid filter gets one record with the quality of service, Retain As Published and No Local of its first entry, and nothing else changes |
| Brokers.Broker.Unsubscribe | src/threads/mqtt/broker.cpp:254-267 | exactly the records of the listed filters go, for every connection |
| Brokers.UnsubscribeCondition | src/threads/mqtt/broker.cpp:261 | section 3.10.4 of MQTT 3.1.1 is met iff no other connection has a record for a listed filter |
| Brokers.SubscribeCondition | src/threads/mqtt/broker.cpp:236-247 | a whole SUBSCRIBE meets section 3.8.4 of MQTT 3.1.1 iff, for every valid filter listed, the record that stays (the stored one, or the first entry's) is the one the last entry asks for |
| Brokers.SubscriptionGapWitnesses | src/threads/mqtt/broker.cpp:244-261 | concrete records for each difference, a filter listed twice in one packet included |
| Brokers.Broker.PublishV3 | src/threads/mqtt/broker.cpp:200-226 | the deliveries are the v3 fan-out over the topic index, whose filters ascend lexicographically, then exactly one item is pushed; subscriptions stay |
| Brokers.Broker.PublishV5 | src/threads/mqtt/broker.cpp:340-371 | the deliveries are the v5 fan-out over that index, with No Local and Retain As Published, then exactly one item is pushed |
| Brokers.Broker.InjectPublish | src/threads/mqtt/broker.cpp:435-464 | the deliveries are the fan-out of the queued message over that index, and nothing is pushed |
| Brokers.MessageQueue.WaitAndPop | src/network/adapter.cpp:112-121 | the front item is taken, or the queue is empty and unchanged |
| Brokers.MessageQueue.RouteItem | src/network/adapter.cpp:129-133 | an adapter whose settings are not the item's and whose scope includes the topic sends the item's fan-out; every other adapter is left as it was |
| Brokers.MessageQueue.WaitAndPopAll | src/network/adapter.cpp:123-138 | the drain ends with an empty queue, returns the length it found, and each adapter has sent, in queue order, the fan-outs of the items it admits |
| Locks.MutualExclusion | src/network/adapter.cpp:105-138 | in every reachable state no lock has two holders |
| Locks.WorkerLockOrder | src/threads/mqtt/broker.cpp:209-224 | a worker takes a lock only above every lock it holds, in the order queue, subscriptions, log |
| Locks.ControlLockOrder | src/network/adapter.cpp:123-138 | so does the control thread while it drains and injects |
| Locks.DeadlockFreedom | src/network/adapter.cpp:123-138 | in every reachable state, from every unfinished thread the chain of lock holders ends within three hops in a thread that can step |
| Sessions.NextKeepsSessions | src/threads/mqtt/broker.cpp:37-46 | every step keeps the lifecycle invariant, whatever is between the two phases of a close |
| History.NextKeepsHistory | src/threads/control.cpp:120-133 | every step of every thread keeps the queue, loop and delivery-log invariants of all adapters |
| Guarantees.QueueRefinement | src/network/adapter.cpp:123-138 | in every state, mid-drain too, pushes = dispatched ++ queue; an item is among the injections of an adapter iff another adapter pushed it, the scope includes its topic, and it is dispatched or begun there; injections are in order and once each |
| Guarantees.PushesArePublications | src/threads/mqtt/broker.cpp:224 | what an adapter has pushed is exactly its clients' publications in order, but the one in flight: injection never pushes, so nothing loops |
| Guarantees.DeliveryLogIsFanouts | src/threads/mqtt/broker.cpp:209-223 | under any interleaving the delivery log is the concatenation of whole fan-outs in lock order and the part the running loop has reached |
| Guarantees.EveryDeliveryIsFaithful | src/threads/mqtt/broker.cpp:352-367 | every delivery of every run carries a real publication that matches its subscription, with its topic, contents, properties, lower quality of service and permitted retain flag, and in scope when it is from another adapter |
| Guarantees.NothingIsLost | src/threads/mqtt/broker.cpp:352-367 | every record that a loop has passed and its publication is for has its delivery in the log, whatever ran beside the loop |
| Guarantees.NoLocal | src/threads/mqtt/broker.cpp:354 | over every run no client receives its own publication through a record with No Local (section 3.8.3.1 of MQTT 5.0) |
| Requests.StoredAsAsked | src/threads/mqtt/broker.cpp:384-396 | over every run a stored record carries the options of an entry of a SUBSCRIBE that its own client sent |
| Requests.NoLocalAsAsked | src/threads/mqtt/broker.cpp:354-393 | a client whose every entry for a filter was sent under v5 with No Local never receives its own publication through that filter |
| Guarantees.PublisherOrder | src/threads/mqtt/broker.cpp:209-224 | over every run what one publisher sends through one subscription is a subsequence of what it published, without repetition (section 4.6 of MQTT 3.1.1) |
| Guarantees.StoredSubscriptionsAreLive | src/threads/mqtt/broker.cpp:38-46 | every stored subscription's connection is registered or is the one being closed, registered connections have metadata, closed ones have no subscription; filters ascend along the topic index |
| Guarantees.StoreIsHistory | src/threads/mqtt/broker.cpp:238-261 | at every point of every run the topic index is the result of the store operations so far, in the order they took the mutex |
| Guarantees.StoredSubscriptionsAreEarliest | src/threads/mqtt/broker.cpp:244 | at every point of every run a subscription is stored iff it was the earliest insertion of its key since the key was last erased |
| Guarantees.SilenceAfterClose | src/threads/mqtt/broker.cpp:37-46 | once a close has finished no later step delivers to the connection, whatever was being injected when it began |
| Handlers.HandlerEffect | src/threads/mqtt/broker.cpp:92-417 | over every run, when a worker is idle again after an event, the adapter is as its handler alone would leave it, whatever the other threads did meanwhile, but for what is sent: the sessions, the store after exactly the entries or filters of the packet, and a metadata entry of a closed connection only if something was sent to it since |
| Handlers.PublicationReaches | src/threads/mqtt/broker.cpp:209-223 | when the handler of a PUBLISH has returned, every record stored when it came in and that it is for has its delivery |
| Handlers.PublicationIsPushed | src/threads/mqtt/broker.cpp:224 | and its item is in the push history |
| Handlers.EndOfSession | src/threads/mqtt/broker.cpp:108-166 | over every run, once the worker is idle after a DISCONNECT, a close, or an error on a registered connection, the connection is closed and unregistered, no record of it is stored, and nothing was sent to it since that handler returned |
| Guarantees.SettledDelivery | src/network/adapter.cpp:128-135 | when all is quiet every publication has had one loop at its origin, and its item is among the injections of another adapter, in order and once, iff the scope there includes its topic |
| Drains.DrainTakesWholeQueue | src/network/adapter.cpp:124-137 | between taking and releasing the queue mutex exactly the items found are dispatched, none is pushed, and the queue ends empty |
| Drains.DrainMakesProgress | src/network/adapter.cpp:128-135 | during a drain every control step leaves less to do in a well-founded order and no other thread adds work |
| Progress.ProductiveStepsLessen | src/threads/control.cpp:120-133 | every step of every thread, but looking into an empty queue, leaves less to do in a well-founded order over the whole system |
| Progress.EveryRunCanSettle | src/threads/control.cpp:120-133 | from every state of every run, unless it was asked to stop, productive steps alone lead to a state with no handler running and the queue empty; one can be taken until then |
| Progress.StopIsServed | src/threads/control.cpp:120-133 | from every state with the stop flag set the control thread can end, without a new event; without the flag it has not ended |
| Progress.NobodyIsStuck | src/network/adapter.cpp:123-138 | the thread at the end of the chain of lock holders takes a step that changes the state |
| Settings.CollisionLaws | src/network/adapter.cpp:87-92 | colliding bindings are symmetric and, because of loopback, not transitive |
| Settings.CollisionRules | src/network/adapter.cpp:87-92 | bindings on different ports never collide; on one port equal addresses do, 127.0.0.1 does with every address, and two different addresses do not when neither is 127.0.0.1 |
| Settings.IncrementalIsPairwise | src/core/settings.cpp:16-24 | "no adapter collides with an earlier one" is "no two adapters collide" |
| Settings.AdapterPool.CheckBindings | src/core/settings.cpp:16-24 | finds the first earlier adapter that the last one collides with, if any |
| Settings.AdapterPool.Parse | src/core/settings.cpp:26-35 | succeeds iff the list is nonempty and no two adapters collide; otherwise fails at the first adapter that collides with an earlier one |
| Addresses.Address.AddressString | src/network/network.cpp:40-54 | every branch of the parser, with the fields left as they were when the port conversion throws |
| Addresses.Address.ToString | src/network/network.cpp:60-73 | the bytes left in the fixed buffer read back as the full text, or as its first 22 characters when it does not fit |
| Addresses.QuadRoundTrip | src/network/network.cpp:32-38 | parsing a printed dotted quad gives the address back |
| Addresses.QuadOfOctets | src/network/network.cpp:60-68 | the first octet printed is the lowest byte of the word, the last the highest |
| Addresses.BareAddress | src/network/network.cpp:47-49 | a bare address is parsed with the null port, unless it is seven characters long: then neither field is assigned |
| Addresses.BarePort | src/network/network.cpp:50-53 | a bare port of up to six characters is parsed with the null address; seven characters assign nothing, more are taken for an address |
| Addresses.EmptyPort | src/network/network.cpp:43-46 | an address and a colon are parsed with the null port |
| Addresses.EmptyAddress | src/network/network.cpp:43-46 | a colon and a port are parsed with the null address |
| Addresses.ToIpInverse | src/network/network.cpp:32-38 | a text parses to a given real address iff it is what is printed for it; to the null address iff it is that one printed or no dotted quad |
| Addresses.RoundTripIffFits | src/network/network.cpp:40-73 | for every address and port, parsing the printed text restores both iff the full text and its terminator fit the buffer |
| Addresses.SixDigitPortsFit | src/network/network.cpp:18 | every port below one million fits behind every address and round-trips |
| Addresses.SevenDigitPortIsCut | src/network/network.cpp:61-69 | 255.255.255.255 with port 1000000 does not round-trip |

## Assumptions about the server library

mqtt_cpp is not part of this model. `Machine.Allowed` states what is assumed of it: an endpoint is
accepted once and by one server, CONNECT comes first and fixes the protocol version, and no packet
follows the end of a session; close and error reports may come at any time after the accept. A call
of `publish` on a connection appends to a delivery log and does not call a handler back.

## Left out

- Sockets, boost::asio, TLS and WebSocket servers, and packet encoding: outside the repository's own code.
- Acknowledgement handlers (puback, pubrec, pubrel, pubcomp, pingreq): they log and reply only.
- Wills, sessions and stored retained messages: the program does not implement them.
- Log formatting and the text of log lines: only the log mutex and the metadata lookups made for the log are modelled.
- Exceptions out of handlers, such as a failing `remote_endpoint` on a socket that is already gone, and the control loop's handler for them.
- The signal handler that sets the stop flag: here the flag is set by a step of its own that takes no lock. The handler first writes to the log, so a signal that lands while its thread holds the log mutex would wait for itself; the deadlock theorem does not cover it.
- Adapter start and shutdown, daemonizing and the command line: the model starts with running adapters and ends the control loop by its stop flag.
- The control loop and the worker threads as loops: they are the transition system `Machine`, on values, so that all interleavings are covered; the handlers' own loops are methods in `Brokers`.
- The wait on the condition variable: a wait that finds the queue empty may end by timeout or wait again, chosen freely; time itself is not modelled.
- Data races: `_connections` and `_meta` are touched without a lock, and each such access is one atomic step here.
- The v3 and v5 subscribe, unsubscribe, connect and disconnect handlers: one method each, with the version as a parameter, because they differ only in the record constructor and the reply codes.
- The balanced trees of the container's indexes: each index is an ordered sequence, searched linearly, into which records go at the upper bound.
- Scopes and messages as objects: they are values, since the program never changes one after it is built; their setters and the message constructors that `share` does not use are absent.
- JSON fields, adapter factories, adapter names and interface discovery: configuration look-ups with nothing to prove beyond the binding check.
- `inet_pton` and `inet_ntop`: modelled as the plain dotted-quad grammar without leading zeros, for a little-endian machine.
- The DDS peer and the MQTT client: empty in the repository.
- "The metadata holds exactly the registered connections": false, since an error before CONNECT leaves an entry and a lookup can recreate one during a close; the inclusion that does hold is proved.
