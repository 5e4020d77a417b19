/**
 What Manager and Topic do to topics, subscribers, counters, streams and timers (pkg/topic/topic.go), as
 functions on values. The classes in Relay.dfy are proved to compute these functions.

 Each manager operation, Topic.Close and a timer callback is one step. Sessions carry a serial number so
 that two sessions with one id differ; a timer is a number that is armed until it fires or is stopped.
 */
module Registry {

  import opened Option

  datatype Session = Session(id: string, serial: nat)

  datatype TopicState = TopicState(publisher: Option<Session>, stream: Option<nat>,
                                   subscribers: map<string, Session>, closed: bool, graceTimer: Option<nat>)

  datatype Config = Config(maxPublishers: int, maxSubscribersPerTopic: int, publisherQueueSize: nat)

  datatype Error = MaxPublishers | TopicHasPublisher | TopicMaxSubscribers | NoActivePublisher

  /** Where a session was registered. */
  datatype Place = AsPublisher(topic: string) | AsSubscriber(topic: string, id: string)

  /**
   Everything a step touches outside the topics: the two gauges, the contexts cancelled, the streams open,
   the timers armed and for which topic, and how often each topic's inbound channel was closed.
   The last two record the run: where each session was registered, and which were overwritten in a map.
   */
  datatype World = World(activePublishers: int, activeSubscribers: int, cancelled: set<nat>,
                         openStreams: set<nat>, armed: map<nat, string>, nextTimer: nat,
                         channelCloses: multiset<string>, places: map<nat, Place>, orphaned: set<nat>)

  datatype State = State(cfg: Config, topics: map<string, TopicState>, publisherCount: int, world: World)

  // ---------- Topic operations ----------

  const NEW_TOPIC := TopicState(None, None, map[], false, None)

  function Stopped(w: World, timer: Option<nat>): World {
    if timer.Some? then w.(armed := w.armed - {timer.value}) else w
  }

  function SetPublisher(w: World, t: TopicState, pub: Session): (World, TopicState) {
    (Stopped(w, t.graceTimer), t.(publisher := Some(pub), graceTimer := None))
  }

  function RemovePublisher(w: World, name: string, t: TopicState): (World, TopicState) {
    if t.publisher.None? then (w, t)
    else
      (w.(cancelled := w.cancelled + {t.publisher.value.serial},
       openStreams := if t.stream.Some? then w.openStreams - {t.stream.value} else w.openStreams,
       armed := w.armed[w.nextTimer := name],
       nextTimer := w.nextTimer + 1),
       t.(publisher := None, stream := None, graceTimer := Some(w.nextTimer)))
  }

  function AddSubscriber(w: World, t: TopicState, sub: Session): (World, TopicState) {
    (if sub.id in t.subscribers then w.(orphaned := w.orphaned + {t.subscribers[sub.id].serial}) else w,
     t.(subscribers := t.subscribers[sub.id := sub]))
  }

  function RemoveSubscriber(w: World, t: TopicState, id: string): (World, TopicState) {
    if id !in t.subscribers then (w, t)
    else
      (w.(cancelled := w.cancelled + {t.subscribers[id].serial}), t.(subscribers := t.subscribers - {id}))
  }

  function SerialsOf(subs: map<string, Session>): set<nat> {
    set id | id in subs :: subs[id].serial
  }

  function CloseTopic(w: World, name: string, t: TopicState): (World, TopicState) {
    if t.closed then (w, t)
    else
      (w.(cancelled := w.cancelled + (if t.publisher.Some? then {t.publisher.value.serial} else {})
                       + SerialsOf(t.subscribers),
       activeSubscribers := w.activeSubscribers - |t.subscribers|,
       channelCloses := w.channelCloses + multiset{name}),
       t.(closed := true, subscribers := map[]))
  }

  // ---------- Manager operations ----------

  function Init(cfg: Config): State {
    State(cfg, map[], 0, World(0, 0, {}, {}, map[], 0, multiset{}, map[], {}))
  }

  function With(m: State, name: string, wt: (World, TopicState)): State {
    m.(topics := m.topics[name := wt.1], world := wt.0)
  }

  /** One more publisher or subscriber, at its place. */
  function CountPublisher(w: World, serial: nat, place: Place): World {
    w.(activePublishers := w.activePublishers + 1, places := w.places[serial := place])
  }

  function CountSubscriber(w: World, serial: nat, place: Place): World {
    w.(activeSubscribers := w.activeSubscribers + 1, places := w.places[serial := place])
  }

  function UncountPublisher(w: World): World {
    w.(activePublishers := w.activePublishers - 1)
  }

  function UncountSubscriber(w: World): World {
    w.(activeSubscribers := w.activeSubscribers - 1)
  }

  function RegisterPublisher(m: State, name: string, pub: Session): Result<State, Error> {
    if m.cfg.maxPublishers > 0 && m.publisherCount >= m.cfg.maxPublishers then Err(MaxPublishers)
    else if name in m.topics && m.topics[name].publisher.Some? then Err(TopicHasPublisher)
    else
      var t := if name in m.topics then m.topics[name] else NEW_TOPIC;
      var m' := With(m, name, SetPublisher(m.world, t, pub));
      Ok(m'.(publisherCount := m.publisherCount + 1, world := CountPublisher(m'.world, pub.serial, AsPublisher(name))))
  }

  /** The state after a registration: a refused one changes nothing. */
  function After(m: State, r: Result<State, Error>): State {
    if r.Ok? then r.value else m
  }

  function ErrorOf(r: Result<State, Error>): Option<Error> {
    if r.Ok? then None else Some(r.error)
  }

  function SetTopicStream(m: State, name: string, stream: nat): State {
    if name in m.topics then m.(topics := m.topics[name := m.topics[name].(stream := Some(stream))]) else m
  }

  function UnregisterPublisher(m: State, name: string): State {
    if name !in m.topics then m
    else
      var m' := With(m, name, RemovePublisher(m.world, name, m.topics[name]));
      m'.(publisherCount := if m.publisherCount > 0 then m.publisherCount - 1 else m.publisherCount,
      world := UncountPublisher(m'.world))
  }

  function RegisterSubscriber(m: State, name: string, sub: Session): Result<State, Error> {
    if name !in m.topics then Err(NoActivePublisher)
    else if |m.topics[name].subscribers| >= m.cfg.maxSubscribersPerTopic then Err(TopicMaxSubscribers)
    else
      var m' := With(m, name, AddSubscriber(m.world, m.topics[name], sub));
      Ok(m'.(world := CountSubscriber(m'.world, sub.serial, AsSubscriber(name, sub.id))))
  }

  function UnregisterSubscriber(m: State, name: string, id: string): State {
    if name !in m.topics then m
    else
      var prev := |m.topics[name].subscribers|;
      var m' := With(m, name, RemoveSubscriber(m.world, m.topics[name], id));
      if |m'.topics[name].subscribers| < prev then
        m'.(world := UncountSubscriber(m'.world))
      else m'
  }

  function Close(m: State, name: string): State {
    if name in m.topics then With(m, name, CloseTopic(m.world, name, m.topics[name])) else m
  }

  /** The callback of a timer that is still armed. */
  function Fire(m: State, timer: nat): State {
    if timer in m.world.armed then
      Close(m.(world := m.world.(armed := m.world.armed - {timer})), m.world.armed[timer])
    else m
  }

  /** Shutdown closes the topics in whatever order the map gives them. */
  function Shutdown(m: State, order: seq<string>): State {
    if order == [] then m else Close(Shutdown(m, order[..|order| - 1]), order[|order| - 1])
  }

  // ---------- The operations field by field ----------

  function TopicOrNew(m: State, name: string): TopicState {
    if name in m.topics then m.topics[name] else NEW_TOPIC
  }

  /** A publisher is refused at the limit or when there is one; otherwise it takes its place in the topic. */
  lemma RegisterPublisherFields(m: State, name: string, pub: Session)
    ensures
      var r := RegisterPublisher(m, name, pub);
      var (w, t) := SetPublisher(m.world, TopicOrNew(m, name), pub);
      if m.cfg.maxPublishers > 0 && m.publisherCount >= m.cfg.maxPublishers then r == Err(MaxPublishers)
      else if TopicOrNew(m, name).publisher.Some? then r == Err(TopicHasPublisher)
      else r == Ok(State(m.cfg, m.topics[name := t], m.publisherCount + 1,
                         CountPublisher(w, pub.serial, AsPublisher(name))))
  {
  }

  /** Counter and gauge go down whether or not there was a publisher; the counter stops at zero. */
  lemma UnregisterPublisherFields(m: State, name: string)
    requires name in m.topics
    ensures
      var (w, t) := RemovePublisher(m.world, name, m.topics[name]);
      UnregisterPublisher(m, name)
      == State(m.cfg, m.topics[name := t], if m.publisherCount > 0 then m.publisherCount - 1 else m.publisherCount,
               UncountPublisher(w))
  {
  }

  lemma RegisterSubscriberFields(m: State, name: string, sub: Session)
    requires name in m.topics
    ensures
      var r := RegisterSubscriber(m, name, sub);
      var (w, t) := AddSubscriber(m.world, m.topics[name], sub);
      if |m.topics[name].subscribers| >= m.cfg.maxSubscribersPerTopic then r == Err(TopicMaxSubscribers)
      else r == Ok(State(m.cfg, m.topics[name := t], m.publisherCount,
                         CountSubscriber(w, sub.serial, AsSubscriber(name, sub.id))))
  {
  }

  /** The gauge goes down exactly when the subscriber was there. */
  lemma UnregisterSubscriberFields(m: State, name: string, id: string)
    requires name in m.topics
    ensures
      var (w, t) := RemoveSubscriber(m.world, m.topics[name], id);
      UnregisterSubscriber(m, name, id)
      == State(m.cfg, m.topics[name := t], m.publisherCount,
               if id in m.topics[name].subscribers then UncountSubscriber(w) else w)
  {
    if id in m.topics[name].subscribers {
      MapSizeAfterRemove(m.topics[name].subscribers, id);
    }
  }

  lemma OneSubscriberLess(w: World, t: TopicState, id: string)
    ensures |RemoveSubscriber(w, t, id).1.subscribers| == |t.subscribers| - if id in t.subscribers then 1 else 0
  {
    if id in t.subscribers {
      MapSizeAfterRemove(t.subscribers, id);
    }
  }

  lemma CloseTopicFields(w: World, name: string, t: TopicState)
    requires !t.closed
    ensures
      var (w', t') := CloseTopic(w, name, t);
      && t' == Closing(t)
      && w' == w.(cancelled := w.cancelled + ClosedOut(t), activeSubscribers := w.activeSubscribers - |t.subscribers|,
                  channelCloses := w.channelCloses + multiset{name})
  {
    var pub := if t.publisher.Some? then {t.publisher.value.serial} else {};
    UnionIsAssociative(w.cancelled, pub, SerialsOf(t.subscribers));
  }

  lemma UnionIsAssociative(a: set<nat>, b: set<nat>, c: set<nat>)
    ensures a + b + c == a + (b + c)
  {
  }

  // ---------- Subscribers: limit and gauge ----------

  ghost function AnyTopic(topics: map<string, TopicState>): (n: string)
    requires topics != map[]
    ensures n in topics
  {
    var n :| n in topics; n
  }

  /** The subscribers of all topics together. */
  ghost function Total(topics: map<string, TopicState>): nat {
    if topics == map[] then 0
    else
      var n := AnyTopic(topics);
      |topics[n].subscribers| + Total(topics - {n})
  }

  lemma RemovalsCommute(topics: map<string, TopicState>, k: string, n: string)
    ensures topics - {k} - {n} == topics - {n} - {k}
  {
  }

  lemma {:induction false} TotalWithout(topics: map<string, TopicState>, n: string)
    requires n in topics
    ensures Total(topics) == |topics[n].subscribers| + Total(topics - {n})
  {
    var k := AnyTopic(topics);
    if k != n {
      var rest, others := topics - {k}, topics - {n};
      TotalWithout(rest, n);
      TotalWithout(others, k);
      RemovalsCommute(topics, k, n);
    }
  }

  lemma UpdateIsForgotten(topics: map<string, TopicState>, n: string, t: TopicState)
    ensures topics[n := t] - {n} == topics - {n}
    ensures n !in topics ==> topics - {n} == topics
  {
  }

  lemma TotalUpdate(topics: map<string, TopicState>, n: string, t: TopicState)
    ensures Total(topics[n := t]) == Total(topics) + |t.subscribers|
                                     - (if n in topics then |topics[n].subscribers| else 0)
  {
    var topics' := topics[n := t];
    TotalWithout(topics', n);
    UpdateIsForgotten(topics, n, t);
    if n in topics {
      TotalWithout(topics, n);
    }
  }

  /** The gauge counts the subscribers in all maps and the registrations that overwrote one. */
  ghost predicate GaugeInv(topics: map<string, TopicState>, gauge: int, orphaned: set<nat>) {
    gauge == Total(topics) + |orphaned|
  }

  function Limit(max: int): int {
    if max > 0 then max else 0
  }

  ghost predicate LimitInv(topics: map<string, TopicState>, max: int) {
    forall n :: n in topics ==> |topics[n].subscribers| <= Limit(max)
  }

  // ---------- Sessions: who is found where, and who is cancelled ----------

  function At(topics: map<string, TopicState>, p: Place): Option<Session> {
    if p.topic !in topics then None
    else
      match p
      case AsPublisher(n) => topics[n].publisher
      case AsSubscriber(n, id) =>
        if id in topics[n].subscribers then Some(topics[n].subscribers[id]) else None
  }

  ghost predicate SessionInv(topics: map<string, TopicState>, places: map<nat, Place>, cancelled: set<nat>,
                             orphaned: set<nat>) {
    // Whoever is found in a topic was registered there. A subscriber found is not cancelled; a publisher is
    // cancelled only if its topic was closed.
    && (forall p :: At(topics, p).Some? ==>
          var s := At(topics, p).value;
          && s.serial in places && places[s.serial] == p
          && (p.AsSubscriber? ==> s.id == p.id)
          && (p.AsSubscriber? || !topics[p.topic].closed ==> s.serial !in cancelled))
    // Whoever is not found any more was cancelled, unless another session took its place in the map.
    && (forall q :: q in places ==> Found(topics, q, places[q]) || q in cancelled || q in orphaned)
    && (forall q :: q in orphaned ==> q in places && !Found(topics, q, places[q]) && q !in cancelled)
    && cancelled <= places.Keys
  }

  predicate Found(topics: map<string, TopicState>, serial: nat, p: Place) {
    At(topics, p).Some? && At(topics, p).value.serial == serial
  }

  // ---------- Timers and closing ----------

  ghost predicate TopicTimerInv(n: string, t: TopicState, armed: map<nat, string>, nextTimer: nat) {
    && (t.publisher.Some? ==> t.graceTimer.None?)
    && (t.graceTimer.Some? ==>
          && t.graceTimer.value < nextTimer
          && (t.graceTimer.value in armed ==> armed[t.graceTimer.value] == n))
    // An open topic without a publisher is waiting to be closed.
    && (t.publisher.None? && !t.closed ==> t.graceTimer.Some? && t.graceTimer.value in armed)
  }

  ghost predicate TimerInv(topics: map<string, TopicState>, armed: map<nat, string>, nextTimer: nat) {
    && (forall n :: n in topics ==> TopicTimerInv(n, topics[n], armed, nextTimer))
    && (forall g :: g in armed ==>
          g < nextTimer && armed[g] in topics && topics[armed[g]].graceTimer == Some(g))
  }

  ghost predicate CloseInv(topics: map<string, TopicState>, channelCloses: multiset<string>) {
    forall n :: channelCloses[n] == if n in topics && topics[n].closed then 1 else 0
  }

  /** Kept by every manager operation, whatever its caller does, as long as new sessions are new. */
  ghost predicate Inv(m: State) {
    && GaugeInv(m.topics, m.world.activeSubscribers, m.world.orphaned)
    && LimitInv(m.topics, m.cfg.maxSubscribersPerTopic)
    && SessionInv(m.topics, m.world.places, m.world.cancelled, m.world.orphaned)
    && TimerInv(m.topics, m.world.armed, m.world.nextTimer)
    && CloseInv(m.topics, m.world.channelCloses)
  }

  lemma InitInv(cfg: Config)
    ensures Inv(Init(cfg))
  {
  }

  // ---------- One topic changes: timers ----------

  lemma TimersAfterSetPublisher(topics: map<string, TopicState>, armed: map<nat, string>, next: nat,
                                name: string, t: TopicState)
    requires TimerInv(topics, armed, next) && t.publisher.Some? && t.graceTimer.None?
    ensures
      var timer := if name in topics then topics[name].graceTimer else None;
      TimerInv(topics[name := t], if timer.Some? then armed - {timer.value} else armed, next)
  {
  }

  lemma TimersAfterRemovePublisher(topics: map<string, TopicState>, armed: map<nat, string>, next: nat,
                                   name: string, t: TopicState)
    requires TimerInv(topics, armed, next) && name in topics && topics[name].publisher.Some?
    requires t.publisher.None? && t.graceTimer == Some(next)
    ensures TimerInv(topics[name := t], armed[next := name], next + 1)
  {
  }

  lemma TimersUnchanged(topics: map<string, TopicState>, armed: map<nat, string>, next: nat,
                        name: string, t: TopicState)
    requires TimerInv(topics, armed, next) && name in topics
    requires t.publisher == topics[name].publisher && t.graceTimer == topics[name].graceTimer
    requires topics[name].closed ==> t.closed
    ensures TimerInv(topics[name := t], armed, next)
  {
  }

  lemma TimersAfterFiring(topics: map<string, TopicState>, armed: map<nat, string>, next: nat,
                          g: nat, t: TopicState)
    requires TimerInv(topics, armed, next) && g in armed
    requires t.publisher == topics[armed[g]].publisher && t.graceTimer == topics[armed[g]].graceTimer && t.closed
    ensures TimerInv(topics[armed[g] := t], armed - {g}, next)
  {
  }

  // ---------- One topic changes: sessions ----------

  lemma SessionsUnchanged(topics: map<string, TopicState>, places: map<nat, Place>, cancelled: set<nat>,
                          orphaned: set<nat>, name: string, t: TopicState)
    requires SessionInv(topics, places, cancelled, orphaned) && name in topics
    requires t.publisher == topics[name].publisher && t.subscribers == topics[name].subscribers
    requires t.closed == topics[name].closed
    ensures SessionInv(topics[name := t], places, cancelled, orphaned)
  {
    assert forall p :: At(topics[name := t], p) == At(topics, p);
  }

  /** A new session appears at place p; a subscriber that was there is orphaned. */
  lemma SessionEnters(topics: map<string, TopicState>, places: map<nat, Place>, cancelled: set<nat>,
                      orphaned: set<nat>, topics': map<string, TopicState>, p: Place, s: Session)
    requires SessionInv(topics, places, cancelled, orphaned) && s.serial !in places
    requires forall q :: At(topics', q) == if q == p then Some(s) else At(topics, q)
    requires forall n :: n in topics ==> n in topics' && topics'[n].closed == topics[n].closed
    requires if p.AsSubscriber? then s.id == p.id else At(topics, p).None?
    ensures SessionInv(topics', places[s.serial := p], cancelled,
                       if At(topics, p).Some? then orphaned + {At(topics, p).value.serial} else orphaned)
    ensures At(topics, p).Some? ==> At(topics, p).value.serial !in orphaned
  {
    assert At(topics, p).Some? ==> Found(topics, At(topics, p).value.serial, p);
    forall q | At(topics, q).Some?
      ensures q.topic in topics && At(topics, q).value.serial != s.serial
    {
    }
  }

  /** The sessions at some places disappear and are cancelled. */
  lemma SessionsLeave(topics: map<string, TopicState>, places: map<nat, Place>, cancelled: set<nat>,
                      orphaned: set<nat>, topics': map<string, TopicState>, gone: set<nat>)
    requires SessionInv(topics, places, cancelled, orphaned)
    requires forall q :: At(topics', q) == At(topics, q)
                         || (At(topics', q).None? && At(topics, q).value.serial in gone)
    requires forall g :: g in gone ==> g in places && Found(topics, g, places[g])
    requires forall n :: n in topics ==> n in topics' && (topics[n].closed ==> topics'[n].closed)
    // Those who are cancelled and stay are the publishers of closed topics.
    requires forall q :: At(topics', q).Some? && At(topics', q).value.serial in gone ==>
                           q.AsPublisher? && topics'[q.topic].closed
    ensures SessionInv(topics', places, cancelled + gone, orphaned)
  {
    forall q | At(topics', q).Some?
      ensures q.topic in topics && At(topics, q) == At(topics', q)
    {
    }
  }

  // ---------- Operations ----------

  predicate NewSession(m: State, s: Session) {
    s.serial !in m.world.places
  }

  /** Gauge, limit and channel closes when one topic's subscribers change and it closes or not. */
  lemma CountsAfterPut(m: State, name: string, t: TopicState, gauge: int, orphaned: set<nat>, closes: multiset<string>)
    requires GaugeInv(m.topics, m.world.activeSubscribers, m.world.orphaned)
    requires LimitInv(m.topics, m.cfg.maxSubscribersPerTopic) && CloseInv(m.topics, m.world.channelCloses)
    requires |t.subscribers| <= Limit(m.cfg.maxSubscribersPerTopic)
    requires
      var before := if name in m.topics then m.topics[name] else NEW_TOPIC;
      && gauge - |orphaned| == m.world.activeSubscribers - |m.world.orphaned| + |t.subscribers| - |before.subscribers|
      && (before.closed ==> t.closed)
      && closes == if t.closed && !before.closed then m.world.channelCloses + multiset{name} else m.world.channelCloses
    ensures GaugeInv(m.topics[name := t], gauge, orphaned)
    ensures LimitInv(m.topics[name := t], m.cfg.maxSubscribersPerTopic)
    ensures CloseInv(m.topics[name := t], closes)
  {
    TotalUpdate(m.topics, name, t);
    ClosesAfterPut(m.topics, m.world.channelCloses, name, t);
  }

  lemma ClosesAfterPut(topics: map<string, TopicState>, closes: multiset<string>, name: string, t: TopicState)
    requires CloseInv(topics, closes)
    requires name in topics && topics[name].closed ==> t.closed
    ensures CloseInv(topics[name := t],
                     if t.closed && !(name in topics && topics[name].closed) then closes + multiset{name} else closes)
  {
  }

  lemma RegisterPublisherKeepsInv(m: State, name: string, pub: Session)
    requires Inv(m) && NewSession(m, pub) && RegisterPublisher(m, name, pub).Ok?
    ensures Inv(RegisterPublisher(m, name, pub).value)
  {
    var t := if name in m.topics then m.topics[name] else NEW_TOPIC;
    var t' := t.(publisher := Some(pub), graceTimer := None);
    var topics' := m.topics[name := t'];
    assert RegisterPublisher(m, name, pub).value.topics == topics';
    CountsAfterPut(m, name, t', m.world.activeSubscribers, m.world.orphaned, m.world.channelCloses);
    TimersAfterSetPublisher(m.topics, m.world.armed, m.world.nextTimer, name, t');
    PublisherEnters(m.topics, m.world.places, m.world.cancelled, m.world.orphaned, name, t', pub);
  }

  lemma PublisherEnters(topics: map<string, TopicState>, places: map<nat, Place>, cancelled: set<nat>,
                        orphaned: set<nat>, name: string, t': TopicState, pub: Session)
    requires SessionInv(topics, places, cancelled, orphaned) && pub.serial !in places
    requires name in topics ==> topics[name].publisher.None?
    requires t' == (if name in topics then topics[name] else NEW_TOPIC).(publisher := Some(pub), graceTimer := None)
    ensures SessionInv(topics[name := t'], places[pub.serial := AsPublisher(name)], cancelled, orphaned)
  {
    var topics' := topics[name := t'];
    forall q
      ensures At(topics', q) == if q == AsPublisher(name) then Some(pub) else At(topics, q)
    {
    }
    SessionEnters(topics, places, cancelled, orphaned, topics', AsPublisher(name), pub);
  }

  lemma SubscriberPlace(topics: map<string, TopicState>, name: string, t': TopicState, sub: Session)
    requires name in topics && t' == topics[name].(subscribers := topics[name].subscribers[sub.id := sub])
    ensures forall q ::
              At(topics[name := t'], q) == if q == AsSubscriber(name, sub.id) then Some(sub) else At(topics, q)
  {
    forall q
      ensures At(topics[name := t'], q) == if q == AsSubscriber(name, sub.id) then Some(sub) else At(topics, q)
    {
    }
  }

  lemma SubscriberEnters(topics: map<string, TopicState>, places: map<nat, Place>, cancelled: set<nat>,
                         orphaned: set<nat>, name: string, t': TopicState, sub: Session)
    returns (orphaned': set<nat>)
    requires SessionInv(topics, places, cancelled, orphaned) && sub.serial !in places
    requires name in topics && t' == topics[name].(subscribers := topics[name].subscribers[sub.id := sub])
    ensures orphaned' == if sub.id in topics[name].subscribers
                         then orphaned + {topics[name].subscribers[sub.id].serial} else orphaned
    ensures sub.id in topics[name].subscribers ==> |orphaned'| == |orphaned| + 1
    ensures SessionInv(topics[name := t'], places[sub.serial := AsSubscriber(name, sub.id)], cancelled, orphaned')
  {
    SubscriberPlace(topics, name, t', sub);
    assert At(topics, AsSubscriber(name, sub.id)).Some? <==> sub.id in topics[name].subscribers;
    SessionEnters(topics, places, cancelled, orphaned, topics[name := t'], AsSubscriber(name, sub.id), sub);
    orphaned' := if sub.id in topics[name].subscribers
                 then orphaned + {topics[name].subscribers[sub.id].serial} else orphaned;
  }

  lemma PublisherIsCancelled(topics: map<string, TopicState>, places: map<nat, Place>, cancelled: set<nat>,
                             orphaned: set<nat>, name: string, t': TopicState)
    requires SessionInv(topics, places, cancelled, orphaned)
    requires name in topics && topics[name].publisher.Some? && t'.publisher.None?
    requires t'.subscribers == topics[name].subscribers && t'.closed == topics[name].closed
    ensures SessionInv(topics[name := t'], places, cancelled + {topics[name].publisher.value.serial}, orphaned)
  {
    assert At(topics, AsPublisher(name)) == topics[name].publisher;
    SessionsLeave(topics, places, cancelled, orphaned, topics[name := t'], {topics[name].publisher.value.serial});
  }

  lemma SubscriberLeaves(topics: map<string, TopicState>, places: map<nat, Place>, cancelled: set<nat>,
                         orphaned: set<nat>, name: string, id: string)
    requires SessionInv(topics, places, cancelled, orphaned)
    requires name in topics && id in topics[name].subscribers
    ensures
      var t' := topics[name].(subscribers := topics[name].subscribers - {id});
      SessionInv(topics[name := t'], places, cancelled + {topics[name].subscribers[id].serial}, orphaned)
  {
    var t' := topics[name].(subscribers := topics[name].subscribers - {id});
    var gone := topics[name].subscribers[id].serial;
    assert At(topics, AsSubscriber(name, id)) == Some(topics[name].subscribers[id]);
    SessionsLeave(topics, places, cancelled, orphaned, topics[name := t'], {gone});
  }

  lemma SetTopicStreamKeepsInv(m: State, name: string, stream: nat)
    requires Inv(m)
    ensures Inv(SetTopicStream(m, name, stream))
  {
    if name in m.topics {
      var t' := m.topics[name].(stream := Some(stream));
      CountsAfterPut(m, name, t', m.world.activeSubscribers, m.world.orphaned, m.world.channelCloses);
      TimersUnchanged(m.topics, m.world.armed, m.world.nextTimer, name, t');
      SessionsUnchanged(m.topics, m.world.places, m.world.cancelled, m.world.orphaned, name, t');
    }
  }

  lemma UnregisterPublisherKeepsInv(m: State, name: string)
    requires Inv(m)
    ensures Inv(UnregisterPublisher(m, name))
  {
    if name in m.topics {
      UnregisterPublisherFields(m, name);
      var t := m.topics[name];
      if t.publisher.None? {
        assert m.topics[name := t] == m.topics;
      } else {
        var t' := t.(publisher := None, stream := None, graceTimer := Some(m.world.nextTimer));
        CountsAfterPut(m, name, t', m.world.activeSubscribers, m.world.orphaned, m.world.channelCloses);
        TimersAfterRemovePublisher(m.topics, m.world.armed, m.world.nextTimer, name, t');
        PublisherIsCancelled(m.topics, m.world.places, m.world.cancelled, m.world.orphaned, name, t');
      }
    }
  }

  lemma RegisterSubscriberKeepsInv(m: State, name: string, sub: Session)
    requires Inv(m) && NewSession(m, sub) && RegisterSubscriber(m, name, sub).Ok?
    ensures Inv(RegisterSubscriber(m, name, sub).value)
  {
    var t := m.topics[name];
    var t' := t.(subscribers := t.subscribers[sub.id := sub]);
    assert RegisterSubscriber(m, name, sub).value.topics == m.topics[name := t'];
    MapSizeAfterInsert(t.subscribers, sub.id, sub);
    var orphaned' := SubscriberEnters(m.topics, m.world.places, m.world.cancelled, m.world.orphaned, name, t', sub);
    CountsAfterPut(m, name, t', m.world.activeSubscribers + 1, orphaned', m.world.channelCloses);
    TimersUnchanged(m.topics, m.world.armed, m.world.nextTimer, name, t');
  }

  lemma MapSizeAfterInsert<K, V>(m: map<K, V>, k: K, v: V)
    ensures |m[k := v]| == |m| + if k in m then 0 else 1
  {
    assert m[k := v].Keys == m.Keys + {k};
    assert |m[k := v]| == |m[k := v].Keys| && |m| == |m.Keys|;
    if k in m {
      assert m.Keys + {k} == m.Keys;
    }
  }

  lemma MapSizeAfterRemove<K, V>(m: map<K, V>, k: K)
    requires k in m
    ensures |m - {k}| == |m| - 1
  {
    assert (m - {k}).Keys == m.Keys - {k};
  }

  lemma UnregisterSubscriberKeepsInv(m: State, name: string, id: string)
    requires Inv(m)
    ensures Inv(UnregisterSubscriber(m, name, id))
  {
    if name in m.topics && id in m.topics[name].subscribers {
      var m' := UnregisterSubscriber(m, name, id);
      var t := m.topics[name];
      var t' := t.(subscribers := t.subscribers - {id});
      MapSizeAfterRemove(t.subscribers, id);
      assert m'.topics == m.topics[name := t'];
      CountsAfterPut(m, name, t', m.world.activeSubscribers - 1, m.world.orphaned, m.world.channelCloses);
      TimersUnchanged(m.topics, m.world.armed, m.world.nextTimer, name, t');
      SubscriberLeaves(m.topics, m.world.places, m.world.cancelled, m.world.orphaned, name, id);
    } else {
      assert UnregisterSubscriber(m, name, id).topics == m.topics;
    }
  }

  function Closing(t: TopicState): TopicState {
    t.(closed := true, subscribers := map[])
  }

  function ClosedOut(t: TopicState): set<nat> {
    (if t.publisher.Some? then {t.publisher.value.serial} else {}) + SerialsOf(t.subscribers)
  }

  lemma ClosedOutAreFound(topics: map<string, TopicState>, places: map<nat, Place>, cancelled: set<nat>,
                          orphaned: set<nat>, name: string, g: nat)
    requires SessionInv(topics, places, cancelled, orphaned)
    requires name in topics && g in ClosedOut(topics[name])
    ensures g in places && Found(topics, g, places[g]) && places[g].topic == name
  {
    var t := topics[name];
    if g in SerialsOf(t.subscribers) {
      var id :| id in t.subscribers && t.subscribers[id].serial == g;
      assert At(topics, AsSubscriber(name, id)) == Some(t.subscribers[id]);
    } else {
      assert At(topics, AsPublisher(name)) == t.publisher;
    }
  }

  lemma SessionsAfterClosing(topics: map<string, TopicState>, places: map<nat, Place>, cancelled: set<nat>,
                             orphaned: set<nat>, name: string)
    requires SessionInv(topics, places, cancelled, orphaned) && name in topics
    ensures SessionInv(topics[name := Closing(topics[name])], places, cancelled + ClosedOut(topics[name]), orphaned)
  {
    var t := topics[name];
    var topics' := topics[name := Closing(t)];
    forall g | g in ClosedOut(t)
      ensures g in places && Found(topics, g, places[g]) && places[g].topic == name
    {
      ClosedOutAreFound(topics, places, cancelled, orphaned, name, g);
    }
    forall q
      ensures At(topics', q) == if q.AsSubscriber? && q.topic == name then None else At(topics, q)
    {
    }
    SessionsLeave(topics, places, cancelled, orphaned, topics', ClosedOut(t));
  }

  lemma ClosingKeepsInv(m: State, name: string)
    requires Inv(m) && name in m.topics && !m.topics[name].closed
    ensures Inv(Close(m, name))
  {
    var t, t' := m.topics[name], Closing(m.topics[name]);
    var m' := Close(m, name);
    assert m'.topics == m.topics[name := t'] && m'.world.cancelled == m.world.cancelled + ClosedOut(t);
    CountsAfterPut(m, name, t', m.world.activeSubscribers - |t.subscribers|, m.world.orphaned,
                   m.world.channelCloses + multiset{name});
    TimersUnchanged(m.topics, m.world.armed, m.world.nextTimer, name, t');
    SessionsAfterClosing(m.topics, m.world.places, m.world.cancelled, m.world.orphaned, name);
  }

  lemma CloseKeepsInv(m: State, name: string)
    requires Inv(m)
    ensures Inv(Close(m, name))
  {
    if name in m.topics && !m.topics[name].closed {
      ClosingKeepsInv(m, name);
    } else {
      assert Close(m, name).topics == m.topics;
    }
  }

  /** Firing a timer is closing its topic, seen from everything but the timers. */
  lemma FireIsClose(m: State, g: nat)
    requires g in m.world.armed
    ensures
      var closed := Close(m, m.world.armed[g]);
      Fire(m, g) == closed.(world := closed.world.(armed := m.world.armed - {g}))
  {
  }

  lemma FireKeepsInv(m: State, g: nat)
    requires Inv(m)
    ensures Inv(Fire(m, g))
  {
    if g in m.world.armed {
      var name := m.world.armed[g];
      var t := m.topics[name];
      CloseKeepsInv(m, name);
      FireIsClose(m, g);
      var t' := if t.closed then t else Closing(t);
      assert Close(m, name).topics == m.topics[name := t'];
      TimersAfterFiring(m.topics, m.world.armed, m.world.nextTimer, g, t');
    }
  }

  lemma {:induction false} ShutdownKeepsInv(m: State, order: seq<string>)
    requires Inv(m)
    ensures Inv(Shutdown(m, order))
  {
    if order != [] {
      ShutdownKeepsInv(m, order[..|order| - 1]);
      CloseKeepsInv(Shutdown(m, order[..|order| - 1]), order[|order| - 1]);
    }
  }

  // ---------- Publishers: the counter ----------

  function Published(topics: map<string, TopicState>): set<string> {
    set n | n in topics && topics[n].publisher.Some?
  }

  /** Counter and gauge are the number of topics with a publisher, which the limit bounds. */
  ghost predicate CountInv(m: State) {
    && m.publisherCount == m.world.activePublishers == |Published(m.topics)|
    && (m.cfg.maxPublishers > 0 ==> m.publisherCount <= m.cfg.maxPublishers)
  }

  lemma PublishedAfterPut(topics: map<string, TopicState>, name: string, t: TopicState)
    ensures Published(topics[name := t])
            == if t.publisher.Some? then Published(topics) + {name} else Published(topics) - {name}
  {
  }

  lemma RegisterPublisherKeepsCount(m: State, name: string, pub: Session)
    requires CountInv(m) && RegisterPublisher(m, name, pub).Ok?
    ensures CountInv(RegisterPublisher(m, name, pub).value)
    ensures Published(RegisterPublisher(m, name, pub).value.topics) == Published(m.topics) + {name}
    ensures name !in Published(m.topics)
  {
    var m' := RegisterPublisher(m, name, pub).value;
    PublishedAfterPut(m.topics, name, m'.topics[name]);
  }

  /** A publisher is refused exactly when as many topics as allowed have one, or the topic itself has one. */
  lemma PublisherRefusedIff(m: State, name: string, pub: Session)
    requires CountInv(m)
    ensures RegisterPublisher(m, name, pub).Err? <==>
              (m.cfg.maxPublishers > 0 && |Published(m.topics)| == m.cfg.maxPublishers) || name in Published(m.topics)
  {
  }

  /** A subscriber is refused exactly when the topic was never published or is full; a closed topic takes it. */
  lemma SubscriberRefusedIff(m: State, name: string, sub: Session)
    requires Inv(m)
    ensures RegisterSubscriber(m, name, sub).Err? <==>
              name !in m.topics || |m.topics[name].subscribers| == Limit(m.cfg.maxSubscribersPerTopic)
  {
    assert name in m.topics ==> |m.topics[name].subscribers| <= Limit(m.cfg.maxSubscribersPerTopic);
  }

  /**
   Unregistering decrements without looking whether anything was removed. The counter stays right exactly
   when the topic has a publisher or does not exist, and then it is positive whenever it is decremented.
   */
  lemma UnregisterKeepsCountIff(m: State, name: string)
    requires CountInv(m)
    ensures CountInv(UnregisterPublisher(m, name)) <==> (name in m.topics ==> m.topics[name].publisher.Some?)
    ensures name in Published(m.topics) ==> m.publisherCount > 0
  {
    if name in m.topics {
      var m' := UnregisterPublisher(m, name);
      PublishedAfterPut(m.topics, name, m'.topics[name]);
      if m.topics[name].publisher.Some? {
        assert name in Published(m.topics);
      } else {
        assert Published(m.topics) - {name} == Published(m.topics);
      }
    }
  }

  lemma {:induction false} ShutdownKeepsCount(m: State, order: seq<string>)
    requires CountInv(m)
    ensures CountInv(Shutdown(m, order))
  {
    if order != [] {
      ShutdownKeepsCount(m, order[..|order| - 1]);
      CloseKeepsCount(Shutdown(m, order[..|order| - 1]), order[|order| - 1]);
    }
  }

  lemma CloseKeepsCount(m: State, name: string)
    requires CountInv(m)
    ensures CountInv(Close(m, name))
  {
    if name in m.topics {
      PublishedAfterPut(m.topics, name, Close(m, name).topics[name]);
      assert Published(Close(m, name).topics) == Published(m.topics);
    }
  }

  // ---------- Whole runs of the manager ----------

  datatype Op =
    | AddPublisher(name: string, session: Session)
    | AttachStream(name: string, stream: nat)
    | DropPublisher(name: string)
    | AddSubscription(name: string, session: Session)
    | DropSubscription(name: string, id: string)
    | TimerFires(timer: nat)
    | ShutDown(order: seq<string>)

  /** One call; a refused registration changes nothing, and a session is registered only once. */
  function Apply(m: State, op: Op): State {
    match op
    case AddPublisher(name, s) =>
      if NewSession(m, s) then After(m, RegisterPublisher(m, name, s)) else m
    case AttachStream(name, stream) => SetTopicStream(m, name, stream)
    case DropPublisher(name) => UnregisterPublisher(m, name)
    case AddSubscription(name, s) =>
      if NewSession(m, s) then After(m, RegisterSubscriber(m, name, s)) else m
    case DropSubscription(name, id) => UnregisterSubscriber(m, name, id)
    case TimerFires(timer) => Fire(m, timer)
    case ShutDown(order) => Shutdown(m, order)
  }

  function ApplyAll(m: State, ops: seq<Op>): State
    decreases |ops|
  {
    if ops == [] then m else ApplyAll(Apply(m, ops[0]), ops[1..])
  }

  lemma ApplyKeepsInv(m: State, op: Op)
    requires Inv(m)
    ensures Inv(Apply(m, op))
  {
    match op
    case AddPublisher(name, s) =>
      if NewSession(m, s) && RegisterPublisher(m, name, s).Ok? { RegisterPublisherKeepsInv(m, name, s); }
    case AttachStream(name, stream) => SetTopicStreamKeepsInv(m, name, stream);
    case DropPublisher(name) => UnregisterPublisherKeepsInv(m, name);
    case AddSubscription(name, s) =>
      if NewSession(m, s) && RegisterSubscriber(m, name, s).Ok? { RegisterSubscriberKeepsInv(m, name, s); }
    case DropSubscription(name, id) => UnregisterSubscriberKeepsInv(m, name, id);
    case TimerFires(timer) => FireKeepsInv(m, timer);
    case ShutDown(order) => ShutdownKeepsInv(m, order);
  }

  /** Gauge, limit, cancellation, timers and channel closes are right after any calls in any order. */
  lemma {:induction false} EveryManagerRunKeepsInv(m: State, ops: seq<Op>)
    requires Inv(m)
    ensures Inv(ApplyAll(m, ops))
    decreases |ops|
  {
    if ops != [] {
      ApplyKeepsInv(m, ops[0]);
      EveryManagerRunKeepsInv(Apply(m, ops[0]), ops[1..]);
    }
  }

  /**
   A timer that can still fire belongs to a topic without publisher, and to no other timer's topic; an open topic
   without publisher has one.
   */
  lemma ArmedTimers(cfg: Config, ops: seq<Op>, g: nat)
    ensures
      var m := ApplyAll(Init(cfg), ops);
      g in m.world.armed ==>
        var n := m.world.armed[g];
        && n in m.topics && m.topics[n].publisher.None?
        && (forall h :: h in m.world.armed && m.world.armed[h] == n ==> h == g)
    ensures
      var m := ApplyAll(Init(cfg), ops);
      forall n :: n in m.topics && m.topics[n].publisher.None? && !m.topics[n].closed ==>
        exists h :: h in m.world.armed && m.world.armed[h] == n
  {
    InitInv(cfg);
    EveryManagerRunKeepsInv(Init(cfg), ops);
    var m := ApplyAll(Init(cfg), ops);
    if g in m.world.armed {
      assert TopicTimerInv(m.world.armed[g], m.topics[m.world.armed[g]], m.world.armed, m.world.nextTimer);
    }
    forall n | n in m.topics && m.topics[n].publisher.None? && !m.topics[n].closed
      ensures exists h :: h in m.world.armed && m.world.armed[h] == n
    {
      assert TopicTimerInv(n, m.topics[n], m.world.armed, m.world.nextTimer);
    }
  }

  /** A registered session that cannot be found any more was cancelled, if no id was ever registered twice. */
  lemma NobodyIsForgotten(cfg: Config, ops: seq<Op>, q: nat)
    ensures
      var m := ApplyAll(Init(cfg), ops);
      q in m.world.places && m.world.orphaned == {} ==>
        var p := m.world.places[q];
        && (Found(m.topics, q, p) || q in m.world.cancelled)
        && (Found(m.topics, q, p) && !m.topics[p.topic].closed ==> q !in m.world.cancelled)
  {
    InitInv(cfg);
    EveryManagerRunKeepsInv(Init(cfg), ops);
  }

  /** No topic exceeds its limit; the gauge is the number of subscribers exactly while no registration overwrote one. */
  lemma GaugeIsTotalIffNoOverwrite(cfg: Config, ops: seq<Op>)
    ensures
      var m := ApplyAll(Init(cfg), ops);
      && m.world.activeSubscribers == Total(m.topics) + |m.world.orphaned|
      && (m.world.activeSubscribers == Total(m.topics) <==> m.world.orphaned == {})
      && (forall n :: n in m.topics ==> |m.topics[n].subscribers| <= Limit(cfg.maxSubscribersPerTopic))
  {
    InitInv(cfg);
    EveryManagerRunKeepsInv(Init(cfg), ops);
    ConfigStays(Init(cfg), ops);
  }

  lemma {:induction false} ShutdownKeepsConfig(m: State, order: seq<string>)
    ensures Shutdown(m, order).cfg == m.cfg
  {
    if order != [] {
      ShutdownKeepsConfig(m, order[..|order| - 1]);
    }
  }

  lemma {:induction false} ConfigStays(m: State, ops: seq<Op>)
    ensures ApplyAll(m, ops).cfg == m.cfg
    decreases |ops|
  {
    if ops != [] {
      if ops[0].ShutDown? {
        ShutdownKeepsConfig(m, ops[0].order);
      }
      ConfigStays(Apply(m, ops[0]), ops[1..]);
    }
  }

  lemma RegisteredTwice(m: State, name: string, a: Session, b: Session)
    requires name in m.topics && a.id == b.id && a.id !in m.topics[name].subscribers
    requires |m.topics[name].subscribers| + 1 < m.cfg.maxSubscribersPerTopic
    requires NewSession(m, a) && NewSession(m, b) && a.serial != b.serial
    ensures
      var m' := Apply(Apply(m, AddSubscription(name, a)), AddSubscription(name, b));
      && m'.topics == m.topics[name := m.topics[name].(subscribers := m.topics[name].subscribers[b.id := b])]
      && m'.world.activeSubscribers == m.world.activeSubscribers + 2
      && m'.world.orphaned == m.world.orphaned + {a.serial}
  {
    var subs := m.topics[name].subscribers;
    MapSizeAfterInsert(subs, a.id, a);
    assert subs[a.id := a][b.id := b] == subs[b.id := b];
  }

  /** Why fresh ids matter: a subscriber registered twice and dropped once leaves the gauge one too high. */
  lemma RegisteringTwiceLeaksGauge(m: State, name: string, a: Session, b: Session)
    requires name in m.topics && a.id == b.id && a.id !in m.topics[name].subscribers
    requires |m.topics[name].subscribers| + 1 < m.cfg.maxSubscribersPerTopic
    requires NewSession(m, a) && NewSession(m, b) && a.serial != b.serial
    ensures
      var twice := Apply(Apply(m, AddSubscription(name, a)), AddSubscription(name, b));
      var m' := Apply(twice, DropSubscription(name, a.id));
      m'.topics == m.topics && m'.world.activeSubscribers == m.world.activeSubscribers + 1
  {
    RegisteredTwice(m, name, a, b);
    var subs := m.topics[name].subscribers;
    MapSizeAfterRemove(subs[b.id := b], a.id);
    assert subs[b.id := b] - {a.id} == subs;
  }

  lemma {:induction false} ShutdownClosesAsListed(m: State, order: seq<string>, name: string)
    requires name in m.topics
    ensures
      var m' := Shutdown(m, order);
      name in m'.topics
      && m'.topics[name] == if name in order && !m.topics[name].closed then Closing(m.topics[name]) else m.topics[name]
  {
    if order != [] {
      ShutdownClosesAsListed(m, order[..|order| - 1], name);
      assert order == order[..|order| - 1] + [order[|order| - 1]];
    }
  }

  lemma CancelledStaysCancelled(m: State, name: string, q: nat)
    requires q in m.world.cancelled
    ensures q in Close(m, name).world.cancelled
  {
  }

  /** Shutdown cancels the publisher and all subscribers of every open topic. */
  lemma {:induction false} ShutdownCancelsEveryone(m: State, order: seq<string>, name: string, q: nat)
    requires name in m.topics && !m.topics[name].closed && name in order
    requires q in SerialsOf(m.topics[name].subscribers)
             || (m.topics[name].publisher.Some? && m.topics[name].publisher.value.serial == q)
    ensures q in Shutdown(m, order).world.cancelled
  {
    var init, last := order[..|order| - 1], order[|order| - 1];
    assert order == init + [last];
    if name in init {
      ShutdownCancelsEveryone(m, init, name, q);
      CancelledStaysCancelled(Shutdown(m, init), last, q);
    } else {
      ShutdownClosesAsListed(m, init, name);
    }
  }

  lemma ClosedStaysClosed(m: State, op: Op, name: string)
    requires name in m.topics && m.topics[name].closed
    ensures name in Apply(m, op).topics && Apply(m, op).topics[name].closed
  {
    if op.ShutDown? {
      ShutdownClosesAsListed(m, op.order, name);
    }
  }

  /** Once closed, a topic stays closed, and its inbound channel has been closed exactly once, ever. */
  lemma {:induction false} ClosedIsForever(m: State, ops: seq<Op>, name: string)
    requires Inv(m) && name in m.topics && m.topics[name].closed
    ensures
      var m' := ApplyAll(m, ops);
      name in m'.topics && m'.topics[name].closed && m'.world.channelCloses[name] == 1
    decreases |ops|
  {
    if ops != [] {
      ClosedStaysClosed(m, ops[0], name);
      ApplyKeepsInv(m, ops[0]);
      ClosedIsForever(Apply(m, ops[0]), ops[1..], name);
    }
  }

  // ---------- Reconnecting within the grace period ----------

  /** The calls after which a published topic has lost its publisher or is closed. */
  predicate Leaves(op: Op, name: string) {
    op == DropPublisher(name) || (op.ShutDown? && name in op.order)
  }

  lemma FiringSparesPublishedTopics(m: State, g: nat, name: string)
    requires TimerInv(m.topics, m.world.armed, m.world.nextTimer)
    requires name in m.topics && m.topics[name].publisher.Some?
    ensures name in Fire(m, g).topics && Fire(m, g).topics[name] == m.topics[name]
  {
    assert TopicTimerInv(name, m.topics[name], m.world.armed, m.world.nextTimer);
    if g in m.world.armed {
      FireIsClose(m, g);
      assert m.world.armed[g] != name;
    }
  }

  /** A topic with a publisher stays open under it in every call but these two. */
  lemma PublishedTopicSurvives(m: State, op: Op, name: string)
    requires Inv(m) && name in m.topics && m.topics[name].publisher.Some? && !m.topics[name].closed
    ensures
      var m' := Apply(m, op);
      && name in m'.topics
      && (m'.topics[name].publisher == m.topics[name].publisher && !m'.topics[name].closed <==> !Leaves(op, name))
      && (!Leaves(op, name) && (op.AddSubscription? || op.DropSubscription? ==> op.name != name) ==>
            m'.topics[name].subscribers == m.topics[name].subscribers)
  {
    if op.TimerFires? {
      FiringSparesPublishedTopics(m, op.timer, name);
    } else if op.ShutDown? {
      ShutdownClosesAsListed(m, op.order, name);
    } else if !Leaves(op, name) {
      CallsSparePublishedTopics(m, op, name);
    }
  }

  lemma CallsSparePublishedTopics(m: State, op: Op, name: string)
    requires name in m.topics && m.topics[name].publisher.Some?
    requires !Leaves(op, name) && !op.TimerFires? && !op.ShutDown?
    ensures
      var m' := Apply(m, op);
      && name in m'.topics && m'.topics[name].publisher == m.topics[name].publisher
      && m'.topics[name].closed == m.topics[name].closed
      && ((op.AddSubscription? || op.DropSubscription? ==> op.name != name) ==>
            m'.topics[name].subscribers == m.topics[name].subscribers)
  {
  }

  /** While its publisher stays, nothing but a shutdown closes a topic or takes its subscribers away. */
  lemma {:induction false} PublishedTopicStaysOpen(m: State, ops: seq<Op>, name: string)
    requires Inv(m) && name in m.topics && m.topics[name].publisher.Some? && !m.topics[name].closed
    requires forall op :: op in ops ==> !Leaves(op, name)
    ensures
      var m' := ApplyAll(m, ops);
      && name in m'.topics && m'.topics[name].publisher == m.topics[name].publisher && !m'.topics[name].closed
      && ((forall op :: op in ops && (op.AddSubscription? || op.DropSubscription?) ==> op.name != name) ==>
            m'.topics[name].subscribers == m.topics[name].subscribers)
    decreases |ops|
  {
    if ops != [] {
      PublishedTopicSurvives(m, ops[0], name);
      ApplyKeepsInv(m, ops[0]);
      PublishedTopicStaysOpen(Apply(m, ops[0]), ops[1..], name);
    }
  }

  /** A publisher that comes back before the timer fires finds all subscribers, and no timer takes them any more. */
  lemma ReconnectKeepsSubscribers(m: State, name: string, pub: Session, ops: seq<Op>)
    requires Inv(m) && name in m.topics && !m.topics[name].closed
    requires NewSession(m, pub) && RegisterPublisher(m, name, pub).Ok?
    requires forall op :: op in ops ==> !Leaves(op, name)
    requires forall op :: op in ops && (op.AddSubscription? || op.DropSubscription?) ==> op.name != name
    ensures
      var m' := ApplyAll(RegisterPublisher(m, name, pub).value, ops);
      && name in m'.topics && !m'.topics[name].closed
      && m'.topics[name].subscribers == m.topics[name].subscribers
  {
    RegisterPublisherKeepsInv(m, name, pub);
    PublishedTopicStaysOpen(RegisterPublisher(m, name, pub).value, ops, name);
  }

  /** Without a publisher the timer closes the topic and cancels its subscribers; later publishers do not reopen it. */
  lemma FiringClosesTheTopic(m: State, g: nat)
    requires Inv(m) && g in m.world.armed
    ensures
      var n := m.world.armed[g];
      var m' := Fire(m, g);
      && m'.topics[n].closed && (!m.topics[n].closed ==> m'.topics[n].subscribers == map[])
      && (!m.topics[n].closed ==> SerialsOf(m.topics[n].subscribers) <= m'.world.cancelled)
      && m'.topics == m.topics[n := m'.topics[n]]
      && g !in m'.world.armed
  {
  }

  /** The first publisher of a topic, and its stream. */
  lemma TopicIsPublished(m: State, name: string, pub: Session, stream: nat)
    requires name !in m.topics && NewSession(m, pub)
    requires m.cfg.maxPublishers <= 0 || m.publisherCount < m.cfg.maxPublishers
    ensures
      var live := Apply(Apply(m, AddPublisher(name, pub)), AttachStream(name, stream));
      && live.topics == m.topics[name := TopicState(Some(pub), Some(stream), map[], false, None)]
      && live.world.nextTimer == m.world.nextTimer && live.world.armed == m.world.armed
  {
    RegisterPublisherFields(m, name, pub);
  }

  /** When its publisher leaves, the topic waits with a timer armed; the firing timer closes it if it is still open. */
  lemma TopicIsLeftAndCloses(m: State, name: string)
    requires name in m.topics && m.topics[name].publisher.Some?
    ensures
      var t := m.topics[name];
      var left := Apply(m, DropPublisher(name));
      var gone := Apply(left, TimerFires(m.world.nextTimer));
      && left.topics == m.topics[name := t.(publisher := None, stream := None, graceTimer := Some(m.world.nextTimer))]
      && left.world.armed == m.world.armed[m.world.nextTimer := name]
      && left.world.cancelled == m.world.cancelled + {t.publisher.value.serial}
      && gone.topics == left.topics[name := if t.closed then left.topics[name] else Closing(left.topics[name])]
      && gone.world.cancelled == left.world.cancelled + (if t.closed then {} else SerialsOf(t.subscribers))
      && m.world.nextTimer !in gone.world.armed
      && gone.world.channelCloses == m.world.channelCloses + (if t.closed then multiset{} else multiset{name})
  {
    UnregisterPublisherFields(m, name);
  }

  lemma {:induction false} LastCall(m: State, ops: seq<Op>, op: Op)
    ensures ApplyAll(m, ops + [op]) == Apply(ApplyAll(m, ops), op)
    decreases |ops|
  {
    if ops == [] {
      assert ops + [op] == [op];
    } else {
      assert (ops + [op])[1..] == ops[1..] + [op];
      LastCall(Apply(m, ops[0]), ops[1..], op);
    }
  }

  /** A run that ends with a shutdown leaves every listed topic closed and without subscribers, if it was open. */
  lemma ShutdownEndsTheRun(m: State, ops: seq<Op>, order: seq<string>, name: string)
    requires name in ApplyAll(m, ops).topics && name in order
    ensures
      var t := ApplyAll(m, ops).topics[name];
      var m' := ApplyAll(m, ops + [ShutDown(order)]);
      && name in m'.topics && m'.topics[name].closed
      && m'.topics[name] == if t.closed then t else t.(closed := true, subscribers := map[])
  {
    LastCall(m, ops, ShutDown(order));
    ShutdownClosesAsListed(ApplyAll(m, ops), order, name);
  }

}
