# rtsper in Dafny

rtsper relays one RTSP publisher per topic to many subscribers. This project models the parts of it that keep
state and proves what they promise over whole runs.

| file | models |
|---|---|
| `Registry.dfy` | topics, subscribers, publisher counter, gauges, grace timers, cancellation: the manager as functions on values, its invariants over every sequence of calls |
| `Sessions.dfy` | the session handler on top of the manager: every manager call and every map access of a handler is a step, and the steps of all sessions, timers and shutdowns interleave |
| `Subscriptions.dfy` | which subscriber entries are left, and what the subscriber gauge shows, after any run of the handler; what is left when all sessions have closed |
| `Relay.dfy` | the objects themselves (`Topic`, `Manager`, `SubscriberSession`, `ServerHandler`), updated in place and proved to compute the functions of `Registry.dfy` and `Sessions.dfy` |
| `DropOldest.dfy`, `Subsequence.dfy`, `Channel.dfy` | the bounded drop-oldest queue: three-step send, channel ring, order and conservation of packets |
| `Pipeline.dfy` | one topic's packet path from publisher to subscribers, with every channel operation and lock acquisition a step |
| `Isolation.dfy` | subscribers of a topic do not disturb each other: a queue is a replay of the subscriber's own events, and the dispatcher waits for nobody |
| `Cluster.dfy`, `Text.dfy` | node lists, drain flags, rendezvous owner |
| `Routing.dfy` | what the proxy listener does with a connection, and where connections end in a cluster |
| `Federation.dfy` | a whole cluster of handlers: at most one publisher per topic |
| `Peek.dfy` | peeking a request header and giving the bytes back |
| `UdpAllocator.dfy` | the UDP port pair allocator |

How to read it. A state machine is a function `Step` that leaves the state alone when a step is not possible, and
a theorem about "every run" quantifies over all sequences of events. The 64-bit hash, the outcome of a bind, the
sizes of network reads and URL parsing are parameters, so the theorems hold for all of them. Sessions and sockets
carry a serial number that the source does not have, to tell two with the same id or port apart; the session
phases of `Sessions.dfy`, the fields `places` and `orphaned` of `World`, and the ledger of `Subscriptions.dfy` record
the run and steer nothing.

What is assumed about the libraries: the RTSP library runs the handlers of one session one after the other, and
lets a session announce only once and never both announce and play (RFC 2326, appendix A.2); it may PLAY again.
A timer callback runs as one step, and only if the timer is still armed. The peek reads through a buffer of 4096 bytes,
the default of Go's bufio.Reader: a read gets the room that is left, and a full buffer without a newline is taken out
as a piece of the line.

## What turned out not to hold

The model keeps the code as it is; these are stated with the exact condition under which the good case holds.

- Unregistering a publisher decrements counter and gauge even if nothing was removed: `UnregisterKeepsCountIff`.
- A subscriber id registered twice leaves the subscriber gauge too high for good: `GaugeIsTotalIffNoOverwrite`,
  `RegisteringTwiceLeaksGauge`. At the level of the handler a session that PLAYs the same topic twice does this:
  `SameTopicLeaksGauge`, and as a run from the start `PlayingOneTopicTwiceLeaksGauge`.
- A session that PLAYs a second topic leaves its entry in the first one when it closes, and the gauge counts it:
  `SecondTopicLeavesEntry`, and as a run from the start `PlayingTwoTopicsLeavesEntry`. After all sessions have closed,
  exactly those entries are left whose topic has neither closed since the session moved on nor been played again under
  its id, and the gauge is zero exactly if there are none and no PLAY met an entry of its own id:
  `Subscriptions.Quiescence`.
- A topic closed by its grace timer never carries packets again, although publishers and subscribers are still
  accepted: `ClosedIsForever`, `SubscriberRefusedIff`, `Relay.Topic.Publish`.
- Bytes that the header peek has read ahead are lost, and so is an incomplete line at the deadline: `LosslessIff`,
  `IncompleteFirstLineIsLost`. Under every schedule of reads nothing is lost exactly if the peek takes all that came
  before the deadline, or stops at 8192 bytes or more after a line whose length is a multiple of 4096.
- A release handle called twice frees the pair of its new holder: `ReleaseKeepsInvIff`.
- Closing a topic between a publisher's closed check and its send makes the send hit a closed channel:
  `PanicsIffClosedMidPublish`, `ClosedMidPublishPanics`, `CloseMidPublishIsReachable`.
- Nodes that list the same members in different orders disagree when two live members tie:
  `AgreementIffNoTie`, `TiedTopicIsPassedForever`.
- A connection kept local because nobody owns the topic is then refused by announce and setup:
  `KeptIsServedUnlessAllDrain`.
- The comment at `PublishPacket` says it returns false if the topic is missing or closed; it also does when the
  queue has no capacity (`Relay.Manager.PublishPacket`). The documented `SubscriberQueueSize` is not used by the
  handler, which always takes 256.

## Model

| member | source | states |
|---|---|---|
| Sessions.EveryRunKeepsInv | pkg/rtspsrv/server.go:195-336 | in every interleaving of handler steps, timers and shutdowns, both layers stay consistent: publishers and sessions point at each other, the maps say what each session did, streams belong to topics, and all manager invariants hold |
| Sessions.CounterCountsPublishingSessions | pkg/topic/topic.go:100-155 | topics with a publisher and publishing sessions are in bijection; counter and gauge are their number and stay within a positive MaxPublishers |
| Sessions.MarkedSessionsArePublishers | pkg/rtspsrv/server.go:219-225 | between its own handler calls, whatever others are doing, a session is marked publisher of a topic exactly if the topic's publisher has its id |
| Sessions.UnregisterKeepsManager | pkg/rtspsrv/server.go:319-336 | a session that the maps call a publisher is one, so the unchecked decrement of the manager is right |
| Sessions.LookupReadsThePhase | pkg/rtspsrv/server.go:319-329 | the empty string is a sound "unmapped": a mapped session never reads it, whatever it published or played |
| Sessions.AttachOverwritesNothing | pkg/rtspsrv/server.go:218-220 | attaching a stream never replaces an open one |
| Sessions.PacketsReachTheOwnTopic | pkg/rtspsrv/server.go:237-248 | packets of a publishing session always go to the topic whose publisher it is |
| Sessions.AbandonedTopicEnds | pkg/rtspsrv/server.go:319-336 | the publishing session closes and the grace timer fires: the session is in no map, the topic is closed without publisher and stream, publisher and subscribers are cancelled |
| Sessions.ShutdownReachesPlayers | pkg/topic/topic.go:77-83 | a shutdown closes each listed topic and cancels its subscribers, and leaves the sessions and their maps alone |
| Sessions.TopicsAreOwned | pkg/rtspsrv/server.go:200-210 | a node only ever has topics that it owns, under names the pattern allows |
| Sessions.AnnouncePublishesIff | pkg/rtspsrv/server.go:195-227 | announcing "/name" makes the session the publisher of `name`, with a new stream and entries in both maps, exactly if this node owns the topic, the name is valid, the limit leaves room and the topic has no publisher; otherwise nothing changes |
| Sessions.PlaySubscribesIff | pkg/rtspsrv/server.go:301-317 | playing "/name" makes the session a subscriber of `name` exactly if the topic exists and has room; otherwise nothing changes |
| Sessions.NameCharsAreWritten | pkg/rtspsrv/server.go:50 | the characters that the pattern allows, written out |
| Text.TrimSlashFindsName | pkg/rtspsrv/server.go:196 | "/name" and a bare name without a slash in front both name `name` |
| Subscriptions.Quiescence | pkg/rtspsrv/server.go:301-336 | once all sessions have closed: maps empty, no publisher or stream anywhere, counter and gauge zero; no subscriber left exactly if every topic that a session moved away from has closed since or was played again under its id; subscriber gauge zero exactly if besides no PLAY met an entry of its own id |
| Subscriptions.QuiescenceWhenPlayedOnce | pkg/rtspsrv/server.go:301-336 | if no session plays while it plays already, everything including the subscriber gauge is zero at the end |
| Subscriptions.EveryRunKeepsLedger | pkg/rtspsrv/server.go:301-336 | in every run the entries in the subscriber maps are those that a ledger of accepted plays, closed topics and closed sessions lists |
| Subscriptions.SecondTopicLeavesEntry | pkg/rtspsrv/server.go:307-314 | from any state, a session that plays a second topic and closes leaves its entry in the first, and the gauge unchanged |
| Subscriptions.SameTopicLeaksGauge | pkg/rtspsrv/server.go:307-314 | from any state, a session that plays its topic again and closes takes one entry away, and the gauge stays |
| Subscriptions.PlayingTwoTopicsLeavesEntry | pkg/rtspsrv/server.go:301-336 | a run after which a session that is gone still has an entry in an open topic |
| Subscriptions.PlayingOneTopicTwiceLeaksGauge | pkg/rtspsrv/server.go:301-336 | a run after which there is no subscriber and the gauge shows one |
| Subscriptions.EntriesAreThoseListed | pkg/rtspsrv/server.go:301-336 | a topic has an entry under an id exactly if a session of that id plays it and it has not closed since, or one left the entry behind; whoever plays an open topic has one; the gauge is the number of entries exactly if no PLAY met an entry of its own id |
| Sessions.PublishersMatchTopics | pkg/topic/topic.go:100-123 | as many sessions publish as topics have a publisher |
| Registry.EveryManagerRunKeepsInv | pkg/topic/topic.go:76-185 | gauge, limit, cancellation, timer and channel-close invariants hold after any manager calls in any order |
| Registry.PublisherRefusedIff | pkg/topic/topic.go:100-112 | a publisher is refused exactly at the limit or when the topic has one |
| Registry.SubscriberRefusedIff | pkg/topic/topic.go:158-171 | a subscriber is refused exactly when the topic was never published or is full |
| Registry.RegisterPublisherKeepsCount | pkg/topic/topic.go:100-123 | an accepted publisher is one more topic with a publisher, within the limit |
| Registry.UnregisterKeepsCountIff | pkg/topic/topic.go:145-155 | the decrement keeps the counter right exactly if the topic has a publisher or does not exist |
| Registry.GaugeIsTotalIffNoOverwrite | pkg/topic/topic.go:158-185 | after any calls the gauge is the sum of the map sizes plus the overwritten registrations, equal to the sum exactly if there were none; no map exceeds max(0, limit) |
| Registry.RegisteringTwiceLeaksGauge | pkg/topic/topic.go:358-374 | registering an id twice and dropping it once leaves the gauge one too high |
| Registry.NobodyIsForgotten | pkg/topic/topic.go:329-406 | with fresh ids, a registered session that cannot be found any more was cancelled, and none in an open topic was |
| Registry.ArmedTimers | pkg/topic/topic.go:303-347 | an armed timer's topic has no publisher and no other timer; an open topic without publisher has one |
| Registry.PublishedTopicSurvives | pkg/topic/topic.go:100-186 | a call ends the publisher's hold on an open topic exactly if it unregisters that publisher or is a shutdown that lists the topic |
| Registry.PublishedTopicStaysOpen | pkg/topic/topic.go:303-347 | while its publisher stays, only a shutdown closes a topic, whatever timers fire |
| Registry.ReconnectKeepsSubscribers | pkg/topic/topic.go:303-312 | a publisher that comes back in time finds all subscribers, and no timer takes them afterwards |
| Registry.FiringClosesTheTopic | pkg/topic/topic.go:345-406 | a firing timer closes its topic, empties it, cancels its subscribers and touches no other topic |
| Registry.ClosedIsForever | pkg/topic/topic.go:377-406 | a closed topic stays closed over any run, its inbound channel closed exactly once |
| Registry.ShutdownClosesAsListed | pkg/topic/topic.go:77-83 | shutdown closes each open topic once, in any order, and keeps its publisher |
| Registry.TopicIsPublished | pkg/topic/topic.go:100-139 | below the limit, the calls that register a first publisher and set a stream leave an open topic with that publisher and stream, no subscriber and no timer |
| Registry.TopicIsLeftAndCloses | pkg/topic/topic.go:145-155 | the call that unregisters the publisher cancels it, takes the stream away and arms the timer; that timer firing closes an open topic's channel once, clears and cancels its subscribers, and leaves a closed one as it is |
| Registry.ShutdownEndsTheRun | pkg/topic/topic.go:77-83 | a shutdown at the end of any run leaves each listed topic closed, emptied if it was open |
| Registry.ShutdownCancelsEveryone | pkg/topic/topic.go:77-83 | shutdown cancels the publisher and every subscriber of every open topic |
| Registry.UnregisterSubscriberKeepsInv | pkg/topic/topic.go:174-185 | the gauge goes down only for a subscriber that was there |
| Relay.Topic.SetPublisher | pkg/topic/topic.go:303-312 | new fields and world are those of the specification: publisher set, grace timer stopped |
| Relay.Topic.RemovePublisher | pkg/topic/topic.go:329-347 | cancels, closes the stream and arms a timer, or does nothing without a publisher |
| Relay.Topic.AddSubscriber | pkg/topic/topic.go:358-362 | the entry under the id is the new subscriber |
| Relay.Topic.RemoveSubscriber | pkg/topic/topic.go:365-374 | the entry is cancelled and gone, if there was one |
| Relay.Topic.Close | pkg/topic/topic.go:377-406 | cancels everyone, corrects the gauge, closes the channel and empties the map, once |
| Relay.Topic.Publish | pkg/topic/topic.go:215-240 | one whole offer to the inbound queue of an open topic; the queue keeps the newest packets |
| Relay.Topic.FanOut | pkg/topic/topic.go:275-293 | every subscriber's queue takes one whole offer, in whatever order the map is walked |
| Relay.Topic.Dispatch | pkg/topic/topic.go:271-295 | when the inbound queue is drained every subscriber is left the newest packets that fit |
| Relay.SubscriberSession.Enqueue | pkg/topic/topic.go:451-468 | the queue keeps the newest packets that fit; false exactly if it cannot hold any |
| Relay.SubscriberSession.Dequeue | pkg/topic/topic.go:471-478 | gives the oldest packet or nothing |
| Relay.Manager.RegisterPublisher | pkg/topic/topic.go:100-123 | computes the specified state or the specified error with nothing changed; a new topic has an empty queue of the configured size |
| Relay.Manager.SetTopicStream | pkg/topic/topic.go:126-132 | sets the stream of an existing topic |
| Sessions.StreamFoundIffPublished | pkg/topic/topic.go:135-142 | in every run GetTopicStream finds a stream exactly while some session publishes the topic and has attached one; it is open and is found under no other name |
| Relay.Manager.UnregisterPublisher | pkg/topic/topic.go:145-155 | computes the specified state |
| Relay.Manager.RegisterSubscriber | pkg/topic/topic.go:158-171 | computes the specified state or the specified error with nothing changed; an accepted session is the entry under its id |
| Relay.Manager.UnregisterSubscriber | pkg/topic/topic.go:174-185 | computes the specified state, comparing map sizes as the source does |
| Relay.Manager.Shutdown | pkg/topic/topic.go:77-83 | closes every topic once, in the order the map gives them |
| Relay.Manager.TimerFires | pkg/topic/topic.go:346 | closes the timer's topic if the timer is still armed |
| Relay.Manager.PublishPacket | pkg/topic/topic.go:204-241 | true exactly if the topic exists, is open and the configured queue size is positive; the packet then is in the topic's queue; asks for nothing but the wiring that every method of the manager keeps from its construction on |
| Relay.Manager.TopicIsWired | pkg/topic/topic.go:258-268 | the wiring of all topics gives each topic queues that are in order and share no memory |
| Relay.Manager.DispatchTopic | pkg/topic/topic.go:271-295 | a topic's dispatcher leaves every subscriber the newest packets that fit and keeps the wiring of all topics |
| Relay.ServerHandler.OnAnnounce | pkg/rtspsrv/server.go:195-227 | is the three announce steps in a row; 503 exactly if another node owns the topic, 200 exactly if besides the name is valid and a publisher is admitted, else 400 |
| Relay.ServerHandler.OwnedIsOwnership | pkg/rtspsrv/server.go:200-206 | the test made there is whether the cluster's owner of the topic, in the sense of the highest hash, is this node |
| Relay.ServerHandler.OnPlay | pkg/rtspsrv/server.go:301-317 | is the two play steps in a row; 200 exactly if the topic exists and has room, else 503; an accepted session starts with an empty queue of 256 packets |
| Relay.ServerHandler.OnSessionClose | pkg/rtspsrv/server.go:319-336 | is the two close steps in a row; the session is gone |
| Relay.ServerHandler.OnSetup | pkg/rtspsrv/server.go:270-299 | which of the four answers is given, by ownership, transport and stream |
| Relay.ServerHandler.OnPacketRTP | pkg/rtspsrv/server.go:237-268 | the packet is offered to the session's topic while that has a stream, and to no other; asks for nothing but the wiring that the other handlers keep |
| DropOldest.EveryInterleavingKeepsInv | pkg/topic/topic.go:224-240 | however the three send steps and receives interleave: within capacity, in order, nothing twice, every packet accounted for, and the second try always finds room |
| DropOldest.RefusedIffNoCapacity | pkg/topic/topic.go:451-468 | a finished offer is refused exactly if the capacity is zero |
| DropOldest.OfferEvictsAtMostOne | pkg/topic/topic.go:451-468 | one offer throws out at most one packet |
| DropOldest.TwoSendersCanRefuse | pkg/topic/topic.go:224-240 | with a second sender the last try can fail: why one producer is needed |
| DropOldest.ThreeStepsAreAnOffer | pkg/topic/topic.go:451-468 | uninterrupted, the three steps keep the newest packets that fit |
| DropOldest.OffersKeepTheNewest | pkg/topic/topic.go:451-468 | n offers without a receive leave exactly the last packets that fit |
| DropOldest.WholeOffersHoldNewest | pkg/topic/topic.go:451-478 | with uninterrupted offers the queue holds the newest packets offered, none missing between them |
| DropOldest.PerformingIsARun | pkg/topic/topic.go:451-478 | whole offers and receives are runs of the queue's single steps |
| DropOldest.EvictedIsOutnumbered | pkg/topic/topic.go:455-461 | a packet is thrown out only when `cap` newer ones have been offered, and those are then the queue |
| Pipeline.EveryRunKeepsPipe | pkg/topic/topic.go:204-295 | every step of publisher, dispatcher and subscribers keeps the bookkeeping of both stages |
| Pipeline.SubscriberSeesASelection | pkg/topic/topic.go:271-295 | what a subscriber dequeued plus its queue is an in-order, duplicate-free selection of what was dispatched since it joined, that of what was published, and so the first of the last |
| Pipeline.PacketsAreConserved | pkg/topic/topic.go:204-295 | on both stages every published packet is dispatched or dequeued, queued, evicted, refused or in flight; with capacity none is refused |
| Pipeline.OfferedIsPublished | pkg/topic/topic.go:215-226 | over any run the inbound channel is offered exactly the packets that the publisher checked and sent, told from the events |
| Pipeline.PublishedPacketIsQueued | pkg/topic/topic.go:204-241 | in every reachable state with the topic open and no publish under way, publishing a packet puts it behind the newest ones that still fit, and does nothing else |
| Pipeline.OldestPacketIsDispatched | pkg/topic/topic.go:271-275 | a dispatcher at rest takes the oldest packet queued and dispatches it |
| Pipeline.DequeuesHandOutInOrder | pkg/topic/topic.go:471-478 | n dequeues hand out the n oldest packets of a subscriber's queue in order |
| Isolation.QueueIsReplayOfOwnEvents | pkg/topic/topic.go:271-295 | in every run a subscriber is there exactly if its own joining and leaving and the closing say so, and its queue and what it was handed are a function of its capacity, the packets dispatched since it joined and the moments of its own dequeues |
| Isolation.FanOutIsolation | pkg/topic/topic.go:271-295 | two runs with the same packets dispatched since one subscriber joined, the same capacity and the same moments of its own dequeues leave it the same queue and the same packets received, whatever the others do and in whatever order the map is walked |
| Isolation.FanOutIsNeverStuck | pkg/topic/topic.go:275-293 | in the middle of a fan-out the dispatcher always has a step to take, however full the queues are |
| Isolation.FanStepMakesProgress | pkg/topic/topic.go:275-293 | every step of a fan-out brings it nearer to its end |
| Isolation.FanOutFinishes | pkg/topic/topic.go:275-293 | from every point of every run the dispatcher alone finishes its fan-out in a bounded number of steps and has then offered every packet to every subscriber |
| Isolation.FanOutIgnoresOrder | pkg/topic/topic.go:276-292 | in whatever order the map is walked, the fan-out leaves each queue in the same state |
| Isolation.FanOutIsAnOfferToEach | pkg/topic/topic.go:275-293 | which is that of one whole offer to each subscriber |
| Isolation.PacketGetsThrough | pkg/topic/topic.go:204-295 | in every run in which the topic is open and idle, publishing a packet and letting the dispatcher work puts it last into every subscriber's queue that can hold one |
| Pipeline.PanicsIffClosedMidPublish | pkg/topic/topic.go:215-240 | a run ends in a send on a closed channel exactly if the topic closes between a publisher's check and its send and that publisher goes on |
| Pipeline.NoPanicUnlessClosedMidPublish | pkg/topic/topic.go:215-240 | a send hits a closed channel only if the topic closed between check and send |
| Pipeline.ClosedMidPublishPanics | pkg/topic/topic.go:215-240 | and then the publisher's next send does hit it |
| Pipeline.CloseMidPublishIsReachable | pkg/topic/topic.go:215-225 | such a close is possible |
| Channel.Channel.TrySend | pkg/topic/topic.go:224-227 | a non-blocking send appends exactly if there is room |
| Channel.Channel.TryReceive | pkg/topic/topic.go:229-232 | a non-blocking receive takes the oldest element, if any |
| Cluster.Cluster.NewFromCSV | pkg/cluster/cluster.go:21-48 | the members are the trimmed non-empty names in order; fails exactly if there are none; self defaults to the first |
| Cluster.NodeListRoundTrip | pkg/cluster/cluster.go:26-34 | writing proper names as a list and reading it back gives them |
| Cluster.MembersAreTrimmedParts | pkg/cluster/cluster.go:26-34 | the members are exactly the non-blank parts of the list, trimmed |
| Text.JoinInvertsSplit | pkg/cluster/cluster.go:26 | splitting a list loses nothing |
| Text.TrimSpaceCutsBlanks | pkg/cluster/cluster.go:28 | trimming cuts off blanks at both ends and nothing else |
| Text.SpacesAreThese | pkg/cluster/cluster.go:28 | the blanks, written out |
| Cluster.MembersAreProperNames | pkg/cluster/cluster.go:26-34 | every member read is trimmed, non-empty and without comma |
| Cluster.Cluster.Owner | pkg/cluster/cluster.go:55-70 | the loop finds the first of the members that are not draining whose hash of name, bar and topic is highest |
| Cluster.OwnerIsFirstBestLiveNode | pkg/cluster/cluster.go:55-70 | the folded owner is that node, by a definition that does not fold |
| Cluster.OwnerIsUnique | pkg/cluster/cluster.go:55-70 | the definition names one owner |
| Cluster.HigherHashWins | pkg/cluster/cluster.go:62-67 | a node is not the owner if a live member has a higher hash with the topic |
| Cluster.NoOwnerIffAllDrain | pkg/cluster/cluster.go:55-70 | the owner is "" exactly if all members drain, and otherwise a live member |
| Cluster.DrainingOthersKeepsOwner | pkg/cluster/cluster.go:58-61 | draining more nodes moves only the topics they own |
| Cluster.UndrainingMovesOnlyToNode | pkg/cluster/cluster.go:81-85 | bringing a node back moves topics only to it |
| Cluster.InsertingMovesOnlyToNode | pkg/cluster/cluster.go:58-68 | inserting a node anywhere moves topics only to it, ties included |
| Cluster.DrainThenUndrainRestores | pkg/cluster/cluster.go:81-94 | draining a node that did not drain and bringing it back restores every owner, and it owns nothing in between |
| Cluster.SameNamesSameOwner | pkg/cluster/cluster.go:55-70 | permuted or duplicated lists give the same owner without a tie at the top |
| Cluster.AgreementIffNoTie | pkg/cluster/cluster.go:64-67 | all listings of the same members agree exactly if the best live score is not tied |
| Cluster.Cluster.SetDraining | pkg/cluster/cluster.go:81-85 | sets the flag of a member, ignores others |
| Cluster.Cluster.IsDraining | pkg/cluster/cluster.go:88-93 | whether the node is among those left out of owner selection |
| Routing.RequestNamesItsTopic | pkg/rtspsrv/proxy_listener.go:54-74 | a well-formed request, with a path or an absolute URL, is routed by the topic it names |
| Routing.RequestForSlashName | pkg/rtspsrv/proxy_listener.go:54-74 | a request for "/name" is routed by `name` |
| Routing.SecondWordNamesTopic | pkg/rtspsrv/proxy_listener.go:60-74 | whatever the first line is, its second word names the topic; without one there is none |
| Routing.FirstLineIsTrimmed | pkg/rtspsrv/proxy_listener.go:54-59 | the first line ends at the first newline or with the bytes, and blanks around it do not count |
| Routing.ProxyListener.Accept | pkg/rtspsrv/proxy_listener.go:23-107 | keeps a connection exactly if empty, unclustered, unowned or its own, else forwards to the owner, as the routing of the whole cluster has it; either way the next reader sees the same bytes |
| Routing.KeptOrSentToOwner | pkg/rtspsrv/proxy_listener.go:76-91 | a node keeps what it owns and what nobody owns, and sends everything else to the node with the highest hash |
| Routing.AtMostOneHop | pkg/rtspsrv/proxy_listener.go:76-91 | with agreeing members a connection is forwarded at most once and ends at the owner wherever it starts |
| Routing.EveryConnectionArrives | pkg/rtspsrv/proxy_listener.go:76-91 | from every node some trip arrives |
| Routing.DistinctScoresRouteOnce | pkg/rtspsrv/proxy_listener.go:76-91 | both, when no two members score the same for the topic |
| Routing.NextNodeReadsSameTopic | pkg/rtspsrv/proxy_listener.go:54-74 | from the bytes passed on to it the next node reads the same topic, however they are cut, or no line in time |
| Routing.JourneyIsTrip | pkg/rtspsrv/proxy_listener.go:30-107 | the journey of a connection's bytes from node to node is a trip for the topic its first node read |
| Routing.JourneyEndsAtOwner | pkg/rtspsrv/proxy_listener.go:30-107 | with agreeing members it is at most one hop, and the node that keeps it owns the topic of the request line, unless nobody does or the line did not come in time |
| Routing.KeptIsServedUnlessAllDrain | pkg/rtspsrv/server.go:200-206 | a kept connection is refused for ownership exactly if all members drain |
| Routing.TiedTopicIsPassedForever | pkg/rtspsrv/proxy_listener.go:76-91 | with a tie and different list orders a connection is passed on without end |
| Federation.OnePublisherInTheCluster | pkg/rtspsrv/server.go:200-217 | where nodes work out one owner, only that node ever has a publisher for the topic |
| Federation.SharedListGivesOnePublisher | pkg/rtspsrv/server.go:200-217 | with one list and one drain set no two nodes publish a topic, ties or not, in any run |
| Federation.AgreedListsGiveOnePublisher | pkg/rtspsrv/server.go:200-217 | the same for permuted or duplicated lists without a tie: the one publishing node is the owner that every node works out |
| Federation.AnnouncedAtTheOwner | pkg/rtspsrv/server.go:195-227 | an announce of an admitted topic gives it a publisher on the node where it arrives exactly if that node works itself out as owner |
| Federation.NodeRunsAlone | pkg/rtspsrv/server.go:164-173 | a node's state depends on its own events only |
| Peek.PeekHeader | pkg/rtspsrv/proxy_listener.go:30-46 | the loop's buffer depends on the bytes only, not on how reads cut them; and how far it has read the connection, with reads that fill what room the 4096-byte buffer has |
| Peek.PeekFindsFirstHeaderEnd | pkg/rtspsrv/proxy_listener.go:35-44 | no earlier CRLFCRLF, last line begun below 8192 bytes, and one of the three reasons to stop |
| Peek.HeaderEndsWithEmptyLine | pkg/rtspsrv/proxy_listener.go:41 | a header ends where CRLFCRLF does |
| Peek.PeekIsUnique | pkg/rtspsrv/proxy_listener.go:35-44 | those conditions determine the buffer |
| Peek.Reader.ReadLine | pkg/rtspsrv/proxy_listener.go:36-39 | the next whole line, or failure once nothing more comes in time |
| Peek.BufferedConn.Read | pkg/rtspsrv/buffered_conn.go:15-22 | hands out the next bytes of buffer and then connection, and makes progress |
| Peek.BufferedConn.ReadAll | pkg/rtspsrv/buffered_conn.go:15-22 | any sequence of read sizes gives the stream from the front without a hole |
| Peek.Handover | pkg/rtspsrv/proxy_listener.go:31-53 | the local server reads exactly the peeked bytes followed by what is left in the connection |
| Peek.DeliveredMissesTheGap | pkg/rtspsrv/proxy_listener.go:32-53 | what is missing is exactly the read-ahead gap |
| Peek.LosslessIff | pkg/rtspsrv/proxy_listener.go:31-53 | no schedule of reads loses bytes exactly if the peek takes all that came before the deadline, or stops at the limit after a line that fills the reader's buffer a whole number of times; said on the bytes |
| Peek.SomeScheduleLoses | pkg/rtspsrv/proxy_listener.go:31-53 | otherwise cutting the stream byte by byte, with one byte more at the end of the peek, loses that byte |
| Peek.OneHeaderAtATimeIsLossless | pkg/rtspsrv/proxy_listener.go:31-53 | a client that sends one header and waits loses nothing |
| Peek.IncompleteFirstLineIsLost | pkg/rtspsrv/proxy_listener.go:36-39 | a first line incomplete at the deadline never reaches the server |
| UdpAllocator.Allocator.NewAllocator | pkg/udpalloc/allocator.go:23-31 | fails exactly for an invalid range; rounds the start up to even |
| UdpAllocator.Allocator.ReservePair | pkg/udpalloc/allocator.go:35-76 | the loop computes the specified scan |
| UdpAllocator.Allocator.ReleasePair | pkg/udpalloc/allocator.go:61-72 | closes and forgets what is at the two ports |
| UdpAllocator.Allocator.GetConn | pkg/udpalloc/allocator.go:80-85 | a socket exactly for a port of a pair still held; it is the one open socket on that port |
| UdpAllocator.ReserveIsFirstFit | pkg/udpalloc/allocator.go:38-75 | the least even free and bindable base; failure exactly if there is none |
| UdpAllocator.ReserveOverwritesNothing | pkg/udpalloc/allocator.go:54-56 | the pair is stored in two empty places, with no socket open on either port |
| UdpAllocator.EveryRunKeepsInv | pkg/udpalloc/allocator.go:35-76 | with each handle called at most once, the map is the disjoint union of the live pairs and the open sockets are those in the map, after any run of reserves, releases and failed binds |
| UdpAllocator.EveryRunFromTheStart | pkg/udpalloc/allocator.go:23-76 | the same for every run of a new allocator |
| UdpAllocator.ReleaseKeepsInvIff | pkg/udpalloc/allocator.go:61-72 | a release keeps that exactly if the handle is new or its pair has no new holder |
| UdpAllocator.SecondCallFreesSomeoneElse | pkg/udpalloc/allocator.go:61-72 | a run in which a second call takes the pair of another holder |
| UdpAllocator.CapacityIsExact | pkg/udpalloc/allocator.go:38-75 | when every bind succeeds, n calls give the first min(n, capacity) pairs in order and no more |

## Left out

- Pipeline.Step: an inbound channel of capacity 0 refuses every packet; a send that meets a dispatcher already waiting in its receive is not modelled.
- Pipeline.SubscriberSeesASelection: a subscriber that has left is no longer followed, although its owner could still drain its queue.
- Relay.Topic.Dispatch: returns when the queue is empty instead of waiting for the next packet.
- Relay.Manager.RegisterSubscriber: keeps the wiring only for a session with a queue of its own, as every session made by the handler has.
- Routing.ProxyListener.Accept: one round of the accept loop; a failed dial, after which the source answers 503 and accepts the next connection, is not modelled.
- Relay.ServerHandler.OnAnnounce: the method runs without interruption; interruptions between its steps are in Sessions.
- Registry.Fire: a callback that has already started when its timer is stopped is not modelled; the source ignores the result of Stop there.
- Registry.Close: takes effect at once; publishing at the same time is in Pipeline.
- UdpAllocator.Allocator.ReservePair: the reservation metrics, one of which is never decremented, are not modelled.
- Peek.Conn.Read: errors are a failure without a kind, and a read of a non-empty buffer never returns zero bytes.
- Routing.TopicOf: characters stand for bytes, so names that are not valid UTF-8 are treated character by character.
- OnDescribe, OnRecord, status reporting and the session-open callbacks: they only read or log.
- Marshalling of RTP packets, writing to the library's server stream and the packet metrics that two layers count: library calls and wrappers.
- Dialling the owner and the two copying goroutines: I/O.
- Command-line and configuration merging, UDP validation, JSON durations, logging, the admin handlers.
- Changing drain flags while publishers are connected: the source does not move them, and the cluster theorems keep the flags fixed.
