/**
 The session handler of pkg/rtspsrv/server.go on top of the manager, as a transition system.

 A handler call is not atomic: announcing registers the publisher, then attaches a stream, then writes the
 two session maps; closing reads and clears the maps, then unregisters. Each of these is a step here, and
 steps of different sessions, timer callbacks and shutdown interleave freely. The RTSP library runs the
 handlers of one session one after the other, and does not let a session announce after it announced or
 played, or play after it announced (the state machine of RFC 2326, appendix A.2); a session may PLAY again.

 A session is named by its address as the source prints it; an address may be used again after its session
 has closed.
 */
module Sessions {

  import opened Option
  import opened Text
  import opened Registry

  /** Whether this node owns a topic; always true without a cluster. */
  type Owned = string -> bool

  /** How far a session has come. The source keeps no such field: it is where the handlers of the session stand. */
  datatype Phase =
    | Opened                                  // nothing accepted yet
    | Registered(topic: string)               // announcing: publisher registered, no stream yet
    | Streaming(topic: string)                // announcing: stream attached, maps not written
    | Publishing(topic: string)
    | Joined(topic: string)                   // playing: subscriber registered, maps not written
    | Playing(topic: string)
    | Leaving(topic: string, isPub: bool)     // closing: maps cleared, not yet unregistered

  datatype Sys = Sys(m: Registry.State, sessTopic: map<string, string>, sessIsPub: map<string, bool>,
                     phase: map<string, Phase>, nextSerial: nat, nextStream: nat)

  datatype Event =
    | Open(id: string)
    | AnnounceRegister(id: string, path: string)
    | AnnounceStream(id: string)
    | AnnounceStore(id: string)
    | PlayRegister(id: string, path: string)
    | PlayStore(id: string)
    | CloseLookup(id: string)
    | CloseUnregister(id: string)
    | TimerFires(timer: nat)
    | ShutDown(order: seq<string>)

  predicate NameChar(c: char) {
    'A' <= c <= 'Z' || 'a' <= c <= 'z' || '0' <= c <= '9' || c == '_' || c == '-'
  }

  /** The pattern ^[A-Za-z0-9_-]+$. */
  predicate ValidName(name: string) {
    name != "" && forall c :: c in name ==> NameChar(c)
  }

  /** The pattern's characters, written out. */
  lemma NameCharsAreWritten(c: char)
    ensures NameChar(c) <==>
              (|| c in "ABCDEFGHIJKLMNOPQRSTUVWXYZ" || c in "abcdefghijklmnopqrstuvwxyz"
               || c in "0123456789" || c in "_-")
  {
  }

  function Start(cfg: Config): Sys {
    Sys(Registry.Init(cfg), map[], map[], map[], 0, 0)
  }

  /** A serial has been used, and the session that used it may have come further. */
  function Advanced(s: Sys, id: string, p: Option<Phase>): Sys {
    s.(nextSerial := s.nextSerial + 1, phase := if p.Some? then s.phase[id := p.value] else s.phase)
  }

  /** The manager has answered a registration as publisher. */
  function AnnouncedWith(s: Sys, id: string, name: string, r: Result<Registry.State, Error>): Sys {
    if r.Err? then Advanced(s, id, None) else Advanced(s.(m := r.value), id, Some(Registered(name)))
  }

  function AnnounceNamed(s: Sys, id: string, name: string): Sys {
    AnnouncedWith(s, id, name, RegisterPublisher(s.m, name, Session(id, s.nextSerial)))
  }

  function Announce(owned: Owned, s: Sys, id: string, path: string): Sys {
    var name := TrimSlash(path);
    if owned(name) && ValidName(name) then AnnounceNamed(s, id, name) else s
  }

  function AttachStream(s: Sys, id: string, name: string): Sys {
    var world := s.m.world.(openStreams := s.m.world.openStreams + {s.nextStream});
    s.(m := SetTopicStream(s.m.(world := world), name, s.nextStream), nextStream := s.nextStream + 1,
    phase := s.phase[id := Streaming(name)])
  }

  function Store(s: Sys, id: string, name: string, isPub: bool): Sys {
    s.(sessTopic := s.sessTopic[id := name], sessIsPub := s.sessIsPub[id := isPub],
    phase := s.phase[id := if isPub then Publishing(name) else Playing(name)])
  }

  /** The manager has answered a registration as subscriber. */
  function PlayedWith(s: Sys, id: string, name: string, r: Result<Registry.State, Error>): Sys {
    if r.Err? then Advanced(s, id, None) else Advanced(s.(m := r.value), id, Some(Joined(name)))
  }

  function PlayNamed(s: Sys, id: string, name: string): Sys {
    PlayedWith(s, id, name, RegisterSubscriber(s.m, name, Session(id, s.nextSerial)))
  }

  function Play(s: Sys, id: string, path: string): Sys {
    PlayNamed(s, id, TrimSlash(path))
  }

  /** A session that is not in the maps reads "" and false. */
  function Lookup(s: Sys, id: string): Sys {
    var name := if id in s.sessTopic then s.sessTopic[id] else "";
    var isPub := if id in s.sessIsPub then s.sessIsPub[id] else false;
    s.(sessTopic := s.sessTopic - {id}, sessIsPub := s.sessIsPub - {id},
    phase := if name == "" then s.phase - {id} else s.phase[id := Leaving(name, isPub)])
  }

  function Unregister(s: Sys, id: string, name: string, isPub: bool): Sys {
    s.(m := if isPub then UnregisterPublisher(s.m, name) else UnregisterSubscriber(s.m, name, id),
    phase := s.phase - {id})
  }

  /** One step; a step that is not possible in this state changes nothing. */
  function Step(owned: Owned, s: Sys, e: Event): Sys {
    match e
    case Open(id) => if id in s.phase then s else s.(phase := s.phase[id := Opened])
    case AnnounceRegister(id, path) =>
      if id in s.phase && s.phase[id].Opened? then Announce(owned, s, id, path) else s
    case AnnounceStream(id) =>
      if id in s.phase && s.phase[id].Registered? then AttachStream(s, id, s.phase[id].topic) else s
    case AnnounceStore(id) =>
      if id in s.phase && s.phase[id].Streaming? then Store(s, id, s.phase[id].topic, true) else s
    case PlayRegister(id, path) =>
      if id in s.phase && (s.phase[id].Opened? || s.phase[id].Playing?) then Play(s, id, path) else s
    case PlayStore(id) =>
      if id in s.phase && s.phase[id].Joined? then Store(s, id, s.phase[id].topic, false) else s
    case CloseLookup(id) =>
      if id in s.phase && (s.phase[id].Opened? || s.phase[id].Publishing? || s.phase[id].Playing?)
      then Lookup(s, id) else s
    case CloseUnregister(id) =>
      if id in s.phase && s.phase[id].Leaving? then Unregister(s, id, s.phase[id].topic, s.phase[id].isPub) else s
    case TimerFires(timer) => s.(m := Fire(s.m, timer))
    case ShutDown(order) => s.(m := Shutdown(s.m, order))
  }

  function Run(owned: Owned, s: Sys, es: seq<Event>): Sys
    decreases |es|
  {
    if es == [] then s else Run(owned, Step(owned, s, es[0]), es[1..])
  }

  lemma RunOfTwo(owned: Owned, s: Sys, e: Event, e': Event)
    ensures Run(owned, s, [e, e']) == Step(owned, Step(owned, s, e), e')
  {
    RunFrom(owned, s, e, [e'], Step(owned, s, e));
    RunFrom(owned, Step(owned, s, e), e', [], Step(owned, Step(owned, s, e), e'));
    assert [e] + [e'] == [e, e'] && [e'] + [] == [e'];
  }

  lemma RunFrom(owned: Owned, s: Sys, e: Event, es: seq<Event>, s1: Sys)
    requires s1 == Step(owned, s, e)
    ensures Run(owned, s, [e] + es) == Run(owned, s1, es)
  {
    assert ([e] + es)[1..] == es;
  }

  // The handlers' steps without anything in between.

  lemma AnnounceInOneGo(owned: Owned, s: Sys, id: string, path: string)
    requires id in s.phase && s.phase[id].Opened?
    ensures
      var announced := Announce(owned, s, id, path);
      Run(owned, s, [AnnounceRegister(id, path), AnnounceStream(id), AnnounceStore(id)])
      == if announced.phase[id].Registered?
         then Store(AttachStream(announced, id, TrimSlash(path)), id, TrimSlash(path), true)
         else announced
  {
    var announced := Announce(owned, s, id, path);
    RunFrom(owned, s, AnnounceRegister(id, path), [AnnounceStream(id), AnnounceStore(id)], announced);
    assert [AnnounceRegister(id, path)] + [AnnounceStream(id), AnnounceStore(id)]
        == [AnnounceRegister(id, path), AnnounceStream(id), AnnounceStore(id)];
    RunOfTwo(owned, announced, AnnounceStream(id), AnnounceStore(id));
  }

  lemma PlayInOneGo(owned: Owned, s: Sys, id: string, path: string)
    requires id in s.phase && (s.phase[id].Opened? || s.phase[id].Playing?)
    ensures
      var played := PlayNamed(s, id, TrimSlash(path));
      Run(owned, s, [PlayRegister(id, path), PlayStore(id)])
      == if played.phase[id].Joined? then Store(played, id, TrimSlash(path), false) else played
  {
    RunOfTwo(owned, s, PlayRegister(id, path), PlayStore(id));
  }

  lemma CloseInOneGo(owned: Owned, s: Sys, id: string)
    requires id in s.phase && (s.phase[id].Opened? || s.phase[id].Publishing? || s.phase[id].Playing?)
    ensures
      var looked := Lookup(s, id);
      Run(owned, s, [CloseLookup(id), CloseUnregister(id)])
      == if id in looked.phase then Unregister(looked, id, looked.phase[id].topic, looked.phase[id].isPub) else looked
  {
    RunOfTwo(owned, s, CloseLookup(id), CloseUnregister(id));
  }

  // What the handlers do with a path.

  /** The path names the topic: with a slash in front, or bare. */
  predicate Names(path: string, name: string) {
    path == "/" + name || (path == name && !("/" <= name))
  }

  /** The handlers read the topic that the path names, and no other. */
  lemma NamedTopic(path: string, name: string)
    ensures TrimSlash(path) == name <==> Names(path, name)
  {
    TrimSlashFindsName(name);
  }

  /** A publisher is admitted below the limit, to a topic that has none. */
  predicate Admits(m: Registry.State, name: string) {
    && (m.cfg.maxPublishers <= 0 || m.publisherCount < m.cfg.maxPublishers)
    && (name in m.topics ==> m.topics[name].publisher.None?)
  }

  predicate HasRoom(m: Registry.State, name: string) {
    name in m.topics && |m.topics[name].subscribers| < m.cfg.maxSubscribersPerTopic
  }

  /**
   Announcing a topic by its path makes the session its publisher, with a new stream and an entry in both maps, exactly
   if this node owns the topic, its name is valid, and a publisher is admitted; otherwise the session stays as it was.
   */
  lemma AnnouncePublishesIff(owned: Owned, s: Sys, id: string, path: string, name: string)
    requires id in s.phase && s.phase[id].Opened? && Names(path, name)
    ensures
      var s' := Run(owned, s, [AnnounceRegister(id, path), AnnounceStream(id), AnnounceStore(id)]);
      if owned(name) && ValidName(name) && Admits(s.m, name) then
        && s'.phase == s.phase[id := Publishing(name)]
        && s'.sessTopic == s.sessTopic[id := name] && s'.sessIsPub == s.sessIsPub[id := true]
        && name in s'.m.topics && s'.m.topics == s.m.topics[name := s'.m.topics[name]]
        && s'.m.topics[name].publisher == Some(Session(id, s.nextSerial))
        && s'.m.topics[name].stream == Some(s.nextStream) && s.nextStream in s'.m.world.openStreams
        && s'.m.publisherCount == s.m.publisherCount + 1
      else s'.phase == s.phase && s'.m == s.m && s'.sessTopic == s.sessTopic && s'.sessIsPub == s.sessIsPub
  {
    hide Run, Registry.RegisterPublisher;
    NamedTopic(path, name);
    AnnounceInOneGo(owned, s, id, path);
    RegisterPublisherFields(s.m, name, Session(id, s.nextSerial));
  }

  /**
   Playing a topic by its path makes the session its subscriber and enters it in both maps, exactly if the topic exists
   and has room; otherwise the session stays as it was.
   */
  lemma PlaySubscribesIff(owned: Owned, s: Sys, id: string, path: string, name: string)
    requires id in s.phase && (s.phase[id].Opened? || s.phase[id].Playing?) && Names(path, name)
    ensures
      var s' := Run(owned, s, [PlayRegister(id, path), PlayStore(id)]);
      if HasRoom(s.m, name) then
        && s'.phase == s.phase[id := Playing(name)]
        && s'.sessTopic == s.sessTopic[id := name] && s'.sessIsPub == s.sessIsPub[id := false]
        && name in s'.m.topics && s'.m.topics == s.m.topics[name := s'.m.topics[name]]
        && s'.m.topics[name].subscribers == s.m.topics[name].subscribers[id := Session(id, s.nextSerial)]
        && s'.m.world.activeSubscribers == s.m.world.activeSubscribers + 1
      else s'.phase == s.phase && s'.m == s.m && s'.sessTopic == s.sessTopic && s'.sessIsPub == s.sessIsPub
  {
    NamedTopic(path, name);
    PlayInOneGo(owned, s, id, path);
  }

  // ---------- Invariants across both layers ----------

  type Topics = map<string, TopicState>
  type Phases = map<string, Phase>

  function Get<V>(m: map<string, V>, k: string): Option<V> {
    if k in m then Some(m[k]) else None
  }

  /** The topic whose publisher this session is. */
  function Publishes(phase: Phases, id: string): Option<string> {
    if id !in phase then None
    else
      match phase[id]
      case Registered(n) => Some(n)
      case Streaming(n) => Some(n)
      case Publishing(n) => Some(n)
      case Leaving(n, isPub) => if isPub then Some(n) else None
      case _ => None
  }

  /** The topic whose subscriber this session is. */
  function Subscribes(phase: Phases, id: string): Option<string> {
    if id !in phase then None
    else
      match phase[id]
      case Joined(n) => Some(n)
      case Playing(n) => Some(n)
      case Leaving(n, isPub) => if isPub then None else Some(n)
      case _ => None
  }

  ghost predicate NamesInv(owned: Owned, topics: Topics) {
    forall n :: n in topics ==> ValidName(n) && owned(n)
  }

  /** Topics with a publisher and sessions that publish point at each other. */
  ghost predicate PublisherInv(topics: Topics, phase: Phases) {
    && (forall n :: n in topics && topics[n].publisher.Some? ==>
          Publishes(phase, topics[n].publisher.value.id) == Some(n))
    && (forall id :: Publishes(phase, id).Some? ==>
          var n := Publishes(phase, id).value;
          n in topics && topics[n].publisher.Some? && topics[n].publisher.value.id == id)
  }

  /** Every playing session is subscribed, as long as the topic has not been closed. */
  ghost predicate PlayerInv(topics: Topics, phase: Phases) {
    forall id :: Subscribes(phase, id).Some? ==>
      var n := Subscribes(phase, id).value;
      n in topics && (topics[n].closed || id in topics[n].subscribers)
  }

  predicate BeforeStream(phase: Phases, id: string) {
    id in phase && phase[id].Registered?
  }

  function StreamsOf(topics: Topics): set<nat> {
    set n | n in topics && topics[n].stream.Some? :: topics[n].stream.value
  }

  /**
   A topic has a stream from when its publisher attached one until it is unregistered. The open streams are
   those of the topics, one each.
   */
  ghost predicate StreamInv(topics: Topics, phase: Phases, open: set<nat>, nextStream: nat) {
    && (forall n :: n in topics ==>
          (topics[n].stream.Some? <==>
             topics[n].publisher.Some? && !BeforeStream(phase, topics[n].publisher.value.id)))
    && open == StreamsOf(topics)
    && (forall n, n' :: n in topics && n' in topics && topics[n].stream.Some? && topics[n].stream == topics[n'].stream
          ==> n == n')
    && (forall st :: st in open ==> st < nextStream)
  }

  /** What the two maps hold for a session, given its phase and the names of the topics. */
  ghost predicate EntryInv(name: Option<string>, isPub: Option<bool>, p: Option<Phase>, names: set<string>) {
    match p
    case None => name.None? && isPub.None?
    case Some(phase) =>
      match phase
      case Publishing(n) => name == Some(n) && isPub == Some(true) && n in names
      case Playing(n) => name == Some(n) && isPub == Some(false) && n in names
      case Joined(n) =>
        n in names
        && ((name.None? && isPub.None?) || (name.Some? && name.value in names && isPub == Some(false)))
      case Leaving(n, _) => name.None? && isPub.None? && n in names
      case _ => name.None? && isPub.None?
  }

  ghost predicate MapsInv(sessTopic: map<string, string>, sessIsPub: map<string, bool>, phase: Phases,
                          names: set<string>) {
    forall id :: EntryInv(Get(sessTopic, id), Get(sessIsPub, id), Get(phase, id), names)
  }

  ghost predicate SerialInv(places: map<nat, Place>, nextSerial: nat) {
    forall q :: q in places ==> q < nextSerial
  }

  ghost predicate ManagerInv(m: Registry.State, nextSerial: nat) {
    Registry.Inv(m) && CountInv(m) && SerialInv(m.world.places, nextSerial)
  }

  /** What ties sessions, maps and topics together. */
  ghost predicate LinkInv(owned: Owned, s: Sys) {
    && NamesInv(owned, s.m.topics)
    && PublisherInv(s.m.topics, s.phase)
    && PlayerInv(s.m.topics, s.phase)
    && StreamInv(s.m.topics, s.phase, s.m.world.openStreams, s.nextStream)
    && MapsInv(s.sessTopic, s.sessIsPub, s.phase, s.m.topics.Keys)
  }

  ghost predicate Inv(owned: Owned, s: Sys) {
    ManagerInv(s.m, s.nextSerial) && LinkInv(owned, s)
  }

  lemma StartInv(owned: Owned, cfg: Config)
    ensures Inv(owned, Start(cfg))
  {
    InitInv(cfg);
    assert Published(map[]) == {};
  }

  // ---------- One session changes its phase ----------

  /** The session's new phase; None when it is gone. */
  function SetPhase(phase: Phases, id: string, p: Option<Phase>): Phases {
    if p.Some? then phase[id := p.value] else phase - {id}
  }

  lemma PublishersAfterPhase(topics: Topics, phase: Phases, id: string, p: Option<Phase>)
    requires PublisherInv(topics, phase)
    requires Publishes(SetPhase(phase, id, p), id) == Publishes(phase, id)
    ensures PublisherInv(topics, SetPhase(phase, id, p))
  {
    assert forall i :: Publishes(SetPhase(phase, id, p), i) == Publishes(phase, i);
  }

  lemma PlayersAfterPhase(topics: Topics, phase: Phases, id: string, p: Option<Phase>)
    requires Subscribes(SetPhase(phase, id, p), id) == Subscribes(phase, id)
    ensures PlayerInv(topics, phase) ==> PlayerInv(topics, SetPhase(phase, id, p))
  {
    assert forall i :: Subscribes(SetPhase(phase, id, p), i) == Subscribes(phase, i);
  }

  lemma StreamsAfterPhase(topics: Topics, phase: Phases, open: set<nat>, next: nat, id: string, p: Option<Phase>)
    requires StreamInv(topics, phase, open, next)
    requires BeforeStream(SetPhase(phase, id, p), id) == BeforeStream(phase, id)
    ensures StreamInv(topics, SetPhase(phase, id, p), open, next)
  {
    assert forall i :: BeforeStream(SetPhase(phase, id, p), i) == BeforeStream(phase, i);
  }

  lemma MapsAfterPhase(sessTopic: map<string, string>, sessIsPub: map<string, bool>, phase: Phases, names: set<string>,
                       sessTopic': map<string, string>, sessIsPub': map<string, bool>, names': set<string>,
                       id: string, p: Option<Phase>)
    requires MapsInv(sessTopic, sessIsPub, phase, names) && names <= names'
    requires forall i :: i != id ==> Get(sessTopic', i) == Get(sessTopic, i) && Get(sessIsPub', i) == Get(sessIsPub, i)
    requires EntryInv(Get(sessTopic', id), Get(sessIsPub', id), p, names')
    ensures MapsInv(sessTopic', sessIsPub', SetPhase(phase, id, p), names')
  {
    forall i
      ensures EntryInv(Get(sessTopic', i), Get(sessIsPub', i), Get(SetPhase(phase, id, p), i), names')
    {
      assert EntryInv(Get(sessTopic, i), Get(sessIsPub, i), Get(phase, i), names);
      assert i != id ==> Get(SetPhase(phase, id, p), i) == Get(phase, i);
    }
  }

  /** A step that moves one session to a new phase that keeps what it publishes and subscribes, topics untouched. */
  lemma PhaseStepKeepsLink(owned: Owned, s: Sys, s': Sys, id: string, p: Option<Phase>)
    requires LinkInv(owned, s)
    requires s' == s.(sessTopic := s'.sessTopic, sessIsPub := s'.sessIsPub, phase := SetPhase(s.phase, id, p))
    requires Publishes(s'.phase, id) == Publishes(s.phase, id)
    requires Subscribes(s'.phase, id) == Subscribes(s.phase, id)
    requires BeforeStream(s'.phase, id) == BeforeStream(s.phase, id)
    requires forall i :: i != id ==>
               Get(s'.sessTopic, i) == Get(s.sessTopic, i) && Get(s'.sessIsPub, i) == Get(s.sessIsPub, i)
    requires EntryInv(Get(s'.sessTopic, id), Get(s'.sessIsPub, id), p, s.m.topics.Keys)
    ensures LinkInv(owned, s')
  {
    PublishersAfterPhase(s.m.topics, s.phase, id, p);
    StreamsAfterPhase(s.m.topics, s.phase, s.m.world.openStreams, s.nextStream, id, p);
    MapsAfterPhase(s.sessTopic, s.sessIsPub, s.phase, s.m.topics.Keys,
                   s'.sessTopic, s'.sessIsPub, s.m.topics.Keys, id, p);
    PlayersAfterPhase(s.m.topics, s.phase, id, p);
  }

  lemma OpenKeepsLink(owned: Owned, s: Sys, id: string)
    requires LinkInv(owned, s) && id !in s.phase
    ensures LinkInv(owned, Step(owned, s, Open(id)))
  {
    assert EntryInv(Get(s.sessTopic, id), Get(s.sessIsPub, id), Get(s.phase, id), s.m.topics.Keys);
    PhaseStepKeepsLink(owned, s, Step(owned, s, Open(id)), id, Some(Opened));
  }

  lemma StoreKeepsLink(owned: Owned, s: Sys, id: string, name: string, isPub: bool)
    requires LinkInv(owned, s) && id in s.phase && s.phase[id] == (if isPub then Streaming(name) else Joined(name))
    ensures LinkInv(owned, Store(s, id, name, isPub))
  {
    assert EntryInv(Get(s.sessTopic, id), Get(s.sessIsPub, id), Get(s.phase, id), s.m.topics.Keys);
    assert isPub ==> Publishes(s.phase, id) == Some(name);
    PhaseStepKeepsLink(owned, s, Store(s, id, name, isPub), id,
                       Some(if isPub then Publishing(name) else Playing(name)));
  }

  /** The sentinel is sound: a mapped session never reads "", because no topic has that name. */
  lemma LookupReadsThePhase(owned: Owned, s: Sys, id: string)
    requires LinkInv(owned, s) && id in s.phase
    requires s.phase[id].Opened? || s.phase[id].Publishing? || s.phase[id].Playing?
    ensures
      var p := s.phase[id];
      Lookup(s, id).phase
      == SetPhase(s.phase, id, if p.Opened? then None else Some(Leaving(p.topic, p.Publishing?)))
  {
    assert EntryInv(Get(s.sessTopic, id), Get(s.sessIsPub, id), Get(s.phase, id), s.m.topics.Keys);
    assert !ValidName("");
  }

  lemma LookupKeepsLink(owned: Owned, s: Sys, id: string)
    requires LinkInv(owned, s) && id in s.phase
    requires s.phase[id].Opened? || s.phase[id].Publishing? || s.phase[id].Playing?
    ensures LinkInv(owned, Lookup(s, id))
  {
    LookupReadsThePhase(owned, s, id);
    var p := s.phase[id];
    assert EntryInv(Get(s.sessTopic, id), Get(s.sessIsPub, id), Get(s.phase, id), s.m.topics.Keys);
    PhaseStepKeepsLink(owned, s, Lookup(s, id), id, if p.Opened? then None else Some(Leaving(p.topic, p.Publishing?)));
  }

  // ---------- One topic changes, and a session with it ----------

  /** The topics keep their publishers and streams; only a closed topic has lost subscribers. */
  ghost predicate OnlyLosesSubscribers(topics: Topics, topics': Topics) {
    && topics'.Keys == topics.Keys
    && forall n :: n in topics ==>
         && topics'[n].publisher == topics[n].publisher && topics'[n].stream == topics[n].stream
         && topics'[n].subscribers.Keys <= topics[n].subscribers.Keys
         && (topics[n].closed ==> topics'[n].closed)
         && (topics'[n].closed || topics'[n].subscribers == topics[n].subscribers)
  }

  lemma LosingSubscribersKeepsLink(owned: Owned, s: Sys, m: Registry.State)
    requires LinkInv(owned, s)
    requires OnlyLosesSubscribers(s.m.topics, m.topics) && m.world.openStreams == s.m.world.openStreams
    ensures LinkInv(owned, s.(m := m))
  {
    assert StreamsOf(m.topics) == StreamsOf(s.m.topics);
  }

  lemma ClosingOnlyLosesSubscribers(m: Registry.State, name: string)
    ensures OnlyLosesSubscribers(m.topics, Close(m, name).topics)
    ensures Close(m, name).world.openStreams == m.world.openStreams && Close(m, name).world.places == m.world.places
  {
  }

  lemma {:induction false} ShutdownOnlyLosesSubscribers(m: Registry.State, order: seq<string>)
    ensures OnlyLosesSubscribers(m.topics, Shutdown(m, order).topics)
    ensures Shutdown(m, order).world.openStreams == m.world.openStreams
    ensures Shutdown(m, order).world.places == m.world.places
  {
    if order != [] {
      ShutdownOnlyLosesSubscribers(m, order[..|order| - 1]);
      ClosingOnlyLosesSubscribers(Shutdown(m, order[..|order| - 1]), order[|order| - 1]);
    }
  }

  lemma TimerKeepsLink(owned: Owned, s: Sys, timer: nat)
    requires LinkInv(owned, s)
    ensures LinkInv(owned, s.(m := Fire(s.m, timer)))
  {
    if timer in s.m.world.armed {
      FireIsClose(s.m, timer);
      ClosingOnlyLosesSubscribers(s.m, s.m.world.armed[timer]);
      LosingSubscribersKeepsLink(owned, s, Fire(s.m, timer));
    }
  }

  lemma ShutdownKeepsLink(owned: Owned, s: Sys, order: seq<string>)
    requires LinkInv(owned, s)
    ensures LinkInv(owned, s.(m := Shutdown(s.m, order)))
  {
    ShutdownOnlyLosesSubscribers(s.m, order);
    LosingSubscribersKeepsLink(owned, s, Shutdown(s.m, order));
  }

  // Announcing: the session becomes the publisher of a topic that had none.

  lemma PublishersAfterAnnounce(topics: Topics, phase: Phases, name: string, t: TopicState, id: string)
    requires PublisherInv(topics, phase) && Publishes(phase, id).None?
    requires name in topics ==> topics[name].publisher.None?
    requires t.publisher.Some? && t.publisher.value.id == id
    ensures PublisherInv(topics[name := t], phase[id := Registered(name)])
  {
    var topics', phase' := topics[name := t], phase[id := Registered(name)];
    forall i
      ensures Publishes(phase', i) == if i == id then Some(name) else Publishes(phase, i)
    {
    }
    forall n | n in topics' && topics'[n].publisher.Some?
      ensures Publishes(phase', topics'[n].publisher.value.id) == Some(n)
    {
    }
  }

  lemma StreamsAfterAnnounce(topics: Topics, phase: Phases, open: set<nat>, next: nat, name: string, t: TopicState,
                             id: string)
    requires StreamInv(topics, phase, open, next) && PublisherInv(topics, phase) && Publishes(phase, id).None?
    requires name in topics ==> topics[name].publisher.None?
    requires t.publisher.Some? && t.publisher.value.id == id && t.stream.None?
    ensures StreamInv(topics[name := t], phase[id := Registered(name)], open, next)
  {
    var topics', phase' := topics[name := t], phase[id := Registered(name)];
    forall i
      ensures BeforeStream(phase', i) == (i == id || BeforeStream(phase, i))
    {
    }
    forall n | n in topics' && n != name && topics'[n].publisher.Some?
      ensures topics'[n].publisher.value.id != id
    {
      assert Publishes(phase, topics[n].publisher.value.id) == Some(n);
    }
    StreamsOfPut(topics, name, t);
  }

  lemma StreamsOfPut(topics: Topics, name: string, t: TopicState)
    requires name in topics && topics[name].stream.Some? ==>
               forall n :: n in topics && n != name ==> topics[n].stream != topics[name].stream
    ensures
      var others := if name in topics && topics[name].stream.Some?
                    then StreamsOf(topics) - {topics[name].stream.value} else StreamsOf(topics);
      StreamsOf(topics[name := t]) == if t.stream.Some? then others + {t.stream.value} else others
  {
    var topics' := topics[name := t];
    forall n | n in topics && n != name && topics[n].stream.Some?
      ensures topics[n].stream.value in StreamsOf(topics')
    {
      assert topics'[n].stream.value == topics[n].stream.value;
    }
    if t.stream.Some? {
      assert topics'[name].stream.value in StreamsOf(topics');
    }
  }

  lemma PlayersAfterAnnounce(topics: Topics, phase: Phases, name: string, t: TopicState, id: string)
    requires PlayerInv(topics, phase) && Subscribes(phase, id).None?
    requires name in topics ==> t.subscribers == topics[name].subscribers && t.closed == topics[name].closed
    ensures PlayerInv(topics[name := t], phase[id := Registered(name)])
  {
    var topics', phase' := topics[name := t], phase[id := Registered(name)];
    forall i
      ensures Subscribes(phase', i) == Subscribes(phase, i)
    {
    }
  }

  lemma AnnounceKeepsLink(owned: Owned, s: Sys, id: string, path: string)
    requires LinkInv(owned, s) && id in s.phase && s.phase[id].Opened?
    ensures LinkInv(owned, Announce(owned, s, id, path))
  {
    var name, pub := TrimSlash(path), Session(id, s.nextSerial);
    if owned(name) && ValidName(name) && RegisterPublisher(s.m, name, pub).Ok? {
      var m' := RegisterPublisher(s.m, name, pub).value;
      var t' := m'.topics[name];
      assert m'.topics == s.m.topics[name := t'];
      PublishersAfterAnnounce(s.m.topics, s.phase, name, t', id);
      StreamsAfterAnnounce(s.m.topics, s.phase, s.m.world.openStreams, s.nextStream, name, t', id);
      PlayersAfterAnnounce(s.m.topics, s.phase, name, t', id);
      assert EntryInv(Get(s.sessTopic, id), Get(s.sessIsPub, id), Get(s.phase, id), s.m.topics.Keys);
      MapsAfterPhase(s.sessTopic, s.sessIsPub, s.phase, s.m.topics.Keys,
                     s.sessTopic, s.sessIsPub, m'.topics.Keys, id, Some(Registered(name)));
    }
  }

  /** The stream attached by an announcing session never replaces another. */
  lemma AttachOverwritesNothing(owned: Owned, s: Sys, id: string)
    requires LinkInv(owned, s) && BeforeStream(s.phase, id)
    ensures
      var n := s.phase[id].topic;
      && n in s.m.topics && s.m.topics[n].stream.None?
      && s.m.topics[n].publisher.Some? && s.m.topics[n].publisher.value.id == id
  {
    assert Publishes(s.phase, id) == Some(s.phase[id].topic);
  }

  lemma StreamsAfterAttach(topics: Topics, phase: Phases, open: set<nat>, next: nat, name: string, id: string)
    requires StreamInv(topics, phase, open, next) && PublisherInv(topics, phase)
    requires Publishes(phase, id) == Some(name) && topics[name].stream.None?
    ensures StreamInv(topics[name := topics[name].(stream := Some(next))], phase[id := Streaming(name)],
                      open + {next}, next + 1)
  {
    var topics' := topics[name := topics[name].(stream := Some(next))];
    var phase' := phase[id := Streaming(name)];
    forall i
      ensures BeforeStream(phase', i) == (i != id && BeforeStream(phase, i))
    {
    }
    assert forall n :: n in topics && topics[n].stream.Some? ==> topics[n].stream.value in StreamsOf(topics);
    forall n | n in topics && n != name && topics[n].publisher.Some?
      ensures topics[n].publisher.value.id != id
    {
      assert Publishes(phase, topics[n].publisher.value.id) == Some(n);
    }
    StreamsOfPut(topics, name, topics'[name]);
  }

  lemma AttachKeepsLink(owned: Owned, s: Sys, id: string)
    requires LinkInv(owned, s) && BeforeStream(s.phase, id)
    ensures LinkInv(owned, AttachStream(s, id, s.phase[id].topic))
  {
    var name := s.phase[id].topic;
    AttachOverwritesNothing(owned, s, id);
    var t' := s.m.topics[name].(stream := Some(s.nextStream));
    var topics' := s.m.topics[name := t'];
    assert AttachStream(s, id, name).m.topics == topics' && topics'.Keys == s.m.topics.Keys;
    var p := Some(Streaming(name));
    PublishersAfterPhase(topics', s.phase, id, p);
    SameSubscribers(s.m.topics, s.phase, name, t');
    PlayersAfterPhase(topics', s.phase, id, p);
    StreamsAfterAttach(s.m.topics, s.phase, s.m.world.openStreams, s.nextStream, name, id);
    assert EntryInv(Get(s.sessTopic, id), Get(s.sessIsPub, id), Get(s.phase, id), s.m.topics.Keys);
    MapsAfterPhase(s.sessTopic, s.sessIsPub, s.phase, s.m.topics.Keys,
                   s.sessTopic, s.sessIsPub, s.m.topics.Keys, id, p);
  }

  lemma SameSubscribers(topics: Topics, phase: Phases, name: string, t: TopicState)
    requires name in topics && t.subscribers == topics[name].subscribers && t.closed == topics[name].closed
    ensures PlayerInv(topics, phase) ==> PlayerInv(topics[name := t], phase)
  {
    assert forall n :: n in topics ==> topics[name := t][n].subscribers == topics[n].subscribers;
  }

  // Playing: the session becomes a subscriber.

  lemma PlayersAfterPlay(topics: Topics, phase: Phases, name: string, sub: Session)
    requires PlayerInv(topics, phase) && name in topics
    ensures PlayerInv(topics[name := topics[name].(subscribers := topics[name].subscribers[sub.id := sub])],
                      phase[sub.id := Joined(name)])
  {
    var phase' := phase[sub.id := Joined(name)];
    forall i
      ensures Subscribes(phase', i) == if i == sub.id then Some(name) else Subscribes(phase, i)
    {
    }
  }

  lemma SamePublisherAndStream(topics: Topics, phase: Phases, open: set<nat>, next: nat, name: string, t: TopicState)
    requires PublisherInv(topics, phase) && StreamInv(topics, phase, open, next) && name in topics
    requires t.publisher == topics[name].publisher && t.stream == topics[name].stream
    ensures PublisherInv(topics[name := t], phase) && StreamInv(topics[name := t], phase, open, next)
  {
    assert forall n :: n in topics ==> topics[name := t][n].stream == topics[n].stream
                                       && topics[name := t][n].publisher == topics[n].publisher;
    assert StreamsOf(topics[name := t]) == StreamsOf(topics);
  }

  lemma PlayKeepsLink(owned: Owned, s: Sys, id: string, path: string)
    requires LinkInv(owned, s) && id in s.phase && (s.phase[id].Opened? || s.phase[id].Playing?)
    ensures LinkInv(owned, Play(s, id, path))
  {
    var name, sub := TrimSlash(path), Session(id, s.nextSerial);
    if RegisterSubscriber(s.m, name, sub).Ok? {
      var t' := s.m.topics[name].(subscribers := s.m.topics[name].subscribers[id := sub]);
      var topics' := s.m.topics[name := t'];
      assert Play(s, id, path).m.topics == topics' && topics'.Keys == s.m.topics.Keys;
      var p := Some(Joined(name));
      SamePublisherAndStream(s.m.topics, s.phase, s.m.world.openStreams, s.nextStream, name, t');
      PublishersAfterPhase(topics', s.phase, id, p);
      StreamsAfterPhase(topics', s.phase, s.m.world.openStreams, s.nextStream, id, p);
      PlayersAfterPlay(s.m.topics, s.phase, name, sub);
      assert EntryInv(Get(s.sessTopic, id), Get(s.sessIsPub, id), Get(s.phase, id), s.m.topics.Keys);
      MapsAfterPhase(s.sessTopic, s.sessIsPub, s.phase, s.m.topics.Keys,
                     s.sessTopic, s.sessIsPub, s.m.topics.Keys, id, p);
    }
  }

  // Closing: the session is unregistered and gone.

  lemma PublisherLeaves(topics: Topics, phase: Phases, open: set<nat>, next: nat, name: string, id: string,
                        t: TopicState)
    requires PublisherInv(topics, phase) && StreamInv(topics, phase, open, next)
    requires Publishes(phase, id) == Some(name) && !BeforeStream(phase, id)
    requires t.publisher.None? && t.stream.None?
    ensures PublisherInv(topics[name := t], phase - {id})
    ensures topics[name].stream.Some?
    ensures StreamInv(topics[name := t], phase - {id}, open - {topics[name].stream.value}, next)
  {
    var topics', phase' := topics[name := t], phase - {id};
    forall i
      ensures Publishes(phase', i) == if i == id then None else Publishes(phase, i)
      ensures BeforeStream(phase', i) == (i != id && BeforeStream(phase, i))
    {
    }
    forall n | n in topics && n != name && topics[n].publisher.Some?
      ensures topics[n].publisher.value.id != id
    {
      assert Publishes(phase, topics[n].publisher.value.id) == Some(n);
    }
    StreamsOfPut(topics, name, t);
  }

  lemma UnregisterPublisherKeepsLink(owned: Owned, s: Sys, id: string, name: string)
    requires LinkInv(owned, s) && id in s.phase && s.phase[id] == Leaving(name, true)
    ensures LinkInv(owned, Unregister(s, id, name, true))
  {
    assert Publishes(s.phase, id) == Some(name);
    var t' := s.m.topics[name].(publisher := None, stream := None, graceTimer := Some(s.m.world.nextTimer));
    var topics' := s.m.topics[name := t'];
    assert Unregister(s, id, name, true).m.topics == topics' && topics'.Keys == s.m.topics.Keys;
    PublisherLeaves(s.m.topics, s.phase, s.m.world.openStreams, s.nextStream, name, id, t');
    SameSubscribers(s.m.topics, s.phase, name, t');
    PlayersAfterPhase(topics', s.phase, id, None);
    assert EntryInv(Get(s.sessTopic, id), Get(s.sessIsPub, id), Get(s.phase, id), s.m.topics.Keys);
    MapsAfterPhase(s.sessTopic, s.sessIsPub, s.phase, s.m.topics.Keys,
                   s.sessTopic, s.sessIsPub, s.m.topics.Keys, id, None);
  }

  lemma PlayersAfterLeave(topics: Topics, phase: Phases, name: string, id: string)
    requires PlayerInv(topics, phase) && name in topics
    ensures PlayerInv(topics[name := topics[name].(subscribers := topics[name].subscribers - {id})], phase - {id})
  {
    forall i
      ensures Subscribes(phase - {id}, i) == if i == id then None else Subscribes(phase, i)
    {
    }
  }

  lemma UnregisterSubscriberTopics(m: Registry.State, name: string, id: string)
    requires name in m.topics
    ensures
      var m' := UnregisterSubscriber(m, name, id);
      && m'.topics == m.topics[name := m.topics[name].(subscribers := m.topics[name].subscribers - {id})]
      && m'.world.openStreams == m.world.openStreams
  {
    if id !in m.topics[name].subscribers {
      assert m.topics[name].subscribers - {id} == m.topics[name].subscribers;
    }
  }

  lemma UnregisterSubscriberKeepsLink(owned: Owned, s: Sys, id: string, name: string)
    requires LinkInv(owned, s) && id in s.phase && s.phase[id] == Leaving(name, false)
    ensures LinkInv(owned, Unregister(s, id, name, false))
  {
    assert EntryInv(Get(s.sessTopic, id), Get(s.sessIsPub, id), Get(s.phase, id), s.m.topics.Keys);
    var t' := s.m.topics[name].(subscribers := s.m.topics[name].subscribers - {id});
    var topics' := s.m.topics[name := t'];
    UnregisterSubscriberTopics(s.m, name, id);
    assert topics'.Keys == s.m.topics.Keys;
    SamePublisherAndStream(s.m.topics, s.phase, s.m.world.openStreams, s.nextStream, name, t');
    PublishersAfterPhase(topics', s.phase, id, None);
    StreamsAfterPhase(topics', s.phase, s.m.world.openStreams, s.nextStream, id, None);
    PlayersAfterLeave(s.m.topics, s.phase, name, id);
    MapsAfterPhase(s.sessTopic, s.sessIsPub, s.phase, s.m.topics.Keys,
                   s.sessTopic, s.sessIsPub, s.m.topics.Keys, id, None);
  }

  lemma StepKeepsLink(owned: Owned, s: Sys, e: Event)
    requires LinkInv(owned, s)
    ensures LinkInv(owned, Step(owned, s, e))
  {
    if Step(owned, s, e) != s {
      match e
      case Open(id) => OpenKeepsLink(owned, s, id);
      case AnnounceRegister(id, path) => AnnounceKeepsLink(owned, s, id, path);
      case AnnounceStream(id) => AttachKeepsLink(owned, s, id);
      case AnnounceStore(id) => StoreKeepsLink(owned, s, id, s.phase[id].topic, true);
      case PlayRegister(id, path) => PlayKeepsLink(owned, s, id, path);
      case PlayStore(id) => StoreKeepsLink(owned, s, id, s.phase[id].topic, false);
      case CloseLookup(id) => LookupKeepsLink(owned, s, id);
      case CloseUnregister(id) =>
        if s.phase[id].isPub {
          UnregisterPublisherKeepsLink(owned, s, id, s.phase[id].topic);
        } else {
          UnregisterSubscriberKeepsLink(owned, s, id, s.phase[id].topic);
        }
      case TimerFires(timer) => TimerKeepsLink(owned, s, timer);
      case ShutDown(order) => ShutdownKeepsLink(owned, s, order);
    }
  }

  // ---------- The manager's part ----------

  lemma AnnounceKeepsManager(owned: Owned, s: Sys, id: string, path: string)
    requires ManagerInv(s.m, s.nextSerial)
    ensures ManagerInv(Announce(owned, s, id, path).m, Announce(owned, s, id, path).nextSerial)
  {
    hide Registry.Inv, CountInv, TrimSlash;
    var name, pub := TrimSlash(path), Session(id, s.nextSerial);
    if owned(name) && ValidName(name) && RegisterPublisher(s.m, name, pub).Ok? {
      RegisterPublisherKeepsInv(s.m, name, pub);
      RegisterPublisherKeepsCount(s.m, name, pub);
    }
  }

  lemma AttachKeepsManager(s: Sys, id: string, name: string)
    requires ManagerInv(s.m, s.nextSerial)
    ensures ManagerInv(AttachStream(s, id, name).m, s.nextSerial)
  {
    var m0 := s.m.(world := s.m.world.(openStreams := s.m.world.openStreams + {s.nextStream}));
    assert Registry.Inv(m0) && CountInv(m0);
    SetTopicStreamKeepsInv(m0, name, s.nextStream);
    SetTopicStreamKeepsCount(m0, name, s.nextStream);
  }

  lemma SetTopicStreamKeepsCount(m: Registry.State, name: string, stream: nat)
    requires CountInv(m)
    ensures CountInv(SetTopicStream(m, name, stream))
  {
    if name in m.topics {
      PublishedAfterPut(m.topics, name, m.topics[name].(stream := Some(stream)));
      assert Published(SetTopicStream(m, name, stream).topics) == Published(m.topics);
    }
  }

  lemma PlayKeepsManager(s: Sys, id: string, path: string)
    requires ManagerInv(s.m, s.nextSerial) && id in s.phase
    ensures ManagerInv(Play(s, id, path).m, Play(s, id, path).nextSerial)
  {
    var name, sub := TrimSlash(path), Session(id, s.nextSerial);
    if RegisterSubscriber(s.m, name, sub).Ok? {
      var m' := RegisterSubscriber(s.m, name, sub).value;
      RegisterSubscriberKeepsInv(s.m, name, sub);
      RegisterSubscriberKeepsCount(s.m, name, sub);
      assert SerialInv(m'.world.places, s.nextSerial + 1);
    }
  }

  lemma RegisterSubscriberKeepsCount(m: Registry.State, name: string, sub: Session)
    requires CountInv(m) && RegisterSubscriber(m, name, sub).Ok?
    ensures CountInv(RegisterSubscriber(m, name, sub).value)
  {
    var m' := RegisterSubscriber(m, name, sub).value;
    PublishedAfterPut(m.topics, name, m'.topics[name]);
    assert Published(m'.topics) == Published(m.topics);
  }

  /** Only the handler's bookkeeping makes the decrement right: who is unregistered as a publisher is one. */
  lemma UnregisterKeepsManager(s: Sys, id: string)
    requires ManagerInv(s.m, s.nextSerial) && PublisherInv(s.m.topics, s.phase)
    requires id in s.phase && s.phase[id].Leaving?
    ensures ManagerInv(Unregister(s, id, s.phase[id].topic, s.phase[id].isPub).m, s.nextSerial)
  {
    var name := s.phase[id].topic;
    if s.phase[id].isPub {
      assert Publishes(s.phase, id) == Some(name);
      UnregisterPublisherKeepsManager(s.m, s.nextSerial, name);
    } else {
      UnregisterSubscriberKeepsManager(s.m, s.nextSerial, name, id);
    }
  }

  lemma UnregisterSubscriberKeepsManager(m: Registry.State, nextSerial: nat, name: string, id: string)
    requires ManagerInv(m, nextSerial)
    ensures ManagerInv(UnregisterSubscriber(m, name, id), nextSerial)
  {
    UnregisterSubscriberKeepsInv(m, name, id);
    UnregisterSubscriberKeepsCount(m, name, id);
  }

  lemma UnregisterPublisherKeepsManager(m: Registry.State, nextSerial: nat, name: string)
    requires ManagerInv(m, nextSerial) && name in m.topics && m.topics[name].publisher.Some?
    ensures ManagerInv(UnregisterPublisher(m, name), nextSerial)
  {
    UnregisterPublisherKeepsInv(m, name);
    UnregisterKeepsCountIff(m, name);
    UnregisterPublisherFields(m, name);
  }

  lemma UnregisterSubscriberKeepsCount(m: Registry.State, name: string, id: string)
    requires CountInv(m)
    ensures CountInv(UnregisterSubscriber(m, name, id))
  {
    var m' := UnregisterSubscriber(m, name, id);
    if name in m.topics {
      PublishedAfterPut(m.topics, name, m'.topics[name]);
      assert m'.topics == m.topics[name := m'.topics[name]];
      assert Published(m'.topics) == Published(m.topics);
    }
  }

  lemma TimerKeepsManager(m: Registry.State, nextSerial: nat, timer: nat)
    requires ManagerInv(m, nextSerial)
    ensures ManagerInv(Fire(m, timer), nextSerial)
  {
    FireKeepsInv(m, timer);
    if timer in m.world.armed {
      FireIsClose(m, timer);
      CloseKeepsCount(m, m.world.armed[timer]);
      ClosingOnlyLosesSubscribers(m, m.world.armed[timer]);
    }
  }

  lemma StepKeepsManager(owned: Owned, s: Sys, e: Event)
    requires Inv(owned, s)
    ensures ManagerInv(Step(owned, s, e).m, Step(owned, s, e).nextSerial)
  {
    if Step(owned, s, e).m != s.m || Step(owned, s, e).nextSerial != s.nextSerial {
      match e
      case AnnounceRegister(id, path) => AnnounceKeepsManager(owned, s, id, path);
      case AnnounceStream(id) => AttachKeepsManager(s, id, s.phase[id].topic);
      case PlayRegister(id, path) => PlayKeepsManager(s, id, path);
      case CloseUnregister(id) => UnregisterKeepsManager(s, id);
      case TimerFires(timer) => TimerKeepsManager(s.m, s.nextSerial, timer);
      case ShutDown(order) =>
        ShutdownKeepsInv(s.m, order);
        ShutdownKeepsCount(s.m, order);
        ShutdownOnlyLosesSubscribers(s.m, order);
      case _ =>
    }
  }

  /** Every interleaving of the handlers of any sessions, timers and shutdowns keeps the two layers consistent. */
  lemma {:induction false} EveryRunKeepsInv(owned: Owned, s: Sys, es: seq<Event>)
    requires Inv(owned, s)
    ensures Inv(owned, Run(owned, s, es))
    decreases |es|
  {
    if es != [] {
      StepKeepsManager(owned, s, es[0]);
      StepKeepsLink(owned, s, es[0]);
      EveryRunKeepsInv(owned, Step(owned, s, es[0]), es[1..]);
    }
  }

  lemma EveryReachableState(owned: Owned, cfg: Config, es: seq<Event>)
    ensures Inv(owned, Run(owned, Start(cfg), es))
  {
    StartInv(owned, cfg);
    EveryRunKeepsInv(owned, Start(cfg), es);
  }

  /** A node only ever has topics that it owns, under names that the pattern allows. */
  lemma TopicsAreOwned(owned: Owned, cfg: Config, es: seq<Event>, name: string)
    ensures name in Run(owned, Start(cfg), es).m.topics ==> owned(name) && ValidName(name)
  {
    EveryReachableState(owned, cfg, es);
  }

  // ---------- Publishers ----------

  /** The sessions that hold a topic, from being registered until being unregistered. */
  function Publishers(phase: Phases): set<string> {
    set id | id in phase && Publishes(phase, id).Some?
  }

  lemma {:induction false} InjectiveImageSize(a: set<string>, f: map<string, string>)
    requires a <= f.Keys
    requires forall x, y :: x in a && y in a && f[x] == f[y] ==> x == y
    ensures |set x | x in a :: f[x]| == |a|
  {
    if a != {} {
      var x :| x in a;
      var rest := a - {x};
      InjectiveImageSize(rest, f);
      assert (set y | y in a :: f[y]) == (set y | y in rest :: f[y]) + {f[x]};
    }
  }

  lemma PublishersMatchTopics(topics: Topics, phase: Phases)
    requires PublisherInv(topics, phase)
    ensures |Publishers(phase)| == |Published(topics)|
  {
    var holder := map n | n in Published(topics) :: topics[n].publisher.value.id;
    InjectiveImageSize(Published(topics), holder);
    assert Publishers(phase) == set n | n in Published(topics) :: holder[n] by {
      forall id | id in Publishers(phase)
        ensures id in set n | n in Published(topics) :: holder[n]
      {
        var n := Publishes(phase, id).value;
        assert n in Published(topics) && holder[n] == id;
      }
    }
  }

  /**
   After any events the topics with a publisher and the sessions that publish are in bijection; the counter
   and the gauge are their number, which never exceeds a positive limit.
   */
  lemma CounterCountsPublishingSessions(owned: Owned, cfg: Config, es: seq<Event>)
    ensures
      var s := Run(owned, Start(cfg), es);
      && PublisherInv(s.m.topics, s.phase)
      && s.m.publisherCount == s.m.world.activePublishers == |Publishers(s.phase)| == |Published(s.m.topics)|
      && (s.m.cfg.maxPublishers > 0 ==> |Publishers(s.phase)| <= s.m.cfg.maxPublishers)
  {
    EveryReachableState(owned, cfg, es);
    var s := Run(owned, Start(cfg), es);
    PublishersMatchTopics(s.m.topics, s.phase);
  }

  /** No handler of the session is in the middle of its work. */
  /**
   Between its own handler calls, whatever other sessions are doing, a session is marked as publisher of a topic
   exactly if that topic's publisher has its id.
   */
  lemma MarkedSessionsArePublishers(owned: Owned, cfg: Config, es: seq<Event>, id: string, name: string)
    ensures
      var s := Run(owned, Start(cfg), es);
      (id in s.phase ==> s.phase[id].Opened? || s.phase[id].Publishing? || s.phase[id].Playing?) ==>
        ((id in s.sessIsPub && s.sessIsPub[id] && id in s.sessTopic && s.sessTopic[id] == name)
         <==> (name in s.m.topics && s.m.topics[name].publisher.Some? && s.m.topics[name].publisher.value.id == id))
  {
    EveryReachableState(owned, cfg, es);
    var s := Run(owned, Start(cfg), es);
    assert EntryInv(Get(s.sessTopic, id), Get(s.sessIsPub, id), Get(s.phase, id), s.m.topics.Keys);
    if id in s.phase && s.phase[id].Publishing? {
      assert Publishes(s.phase, id) == Some(s.phase[id].topic);
    }
  }

  /** The topic to which OnPacketRTP sends a session's packets; None when it drops them. */
  function PacketTarget(s: Sys, id: string): Option<string> {
    var name := if id in s.sessTopic then s.sessTopic[id] else "";
    if name == "" || name !in s.m.topics || s.m.topics[name].stream.None? then None else Some(name)
  }

  /** A publishing session's packets always go to the topic it publishes, while it does. */
  lemma PacketsReachTheOwnTopic(owned: Owned, cfg: Config, es: seq<Event>, id: string)
    ensures
      var s := Run(owned, Start(cfg), es);
      id in s.phase && s.phase[id].Publishing? ==>
        && PacketTarget(s, id) == Some(s.phase[id].topic)
        && s.m.topics[s.phase[id].topic].publisher.Some?
        && s.m.topics[s.phase[id].topic].publisher.value.id == id
  {
    EveryReachableState(owned, cfg, es);
    var s := Run(owned, Start(cfg), es);
    if id in s.phase && s.phase[id].Publishing? {
      assert EntryInv(Get(s.sessTopic, id), Get(s.sessIsPub, id), Get(s.phase, id), s.m.topics.Keys);
      assert Publishes(s.phase, id) == Some(s.phase[id].topic);
      assert !ValidName("");
    }
  }

  // ---------- Streams ----------

  /** What GetTopicStream finds. */
  function StreamOf(m: Registry.State, name: string): Option<nat> {
    if name in m.topics then m.topics[name].stream else None
  }

  /**
   A topic's stream is found exactly while some session publishes the topic and is past attaching the stream. What
   is found is open, and it is found under no other name.
   */
  lemma StreamFoundIffPublished(owned: Owned, cfg: Config, es: seq<Event>, name: string)
    ensures
      var s := Run(owned, Start(cfg), es);
      && (StreamOf(s.m, name).Some? <==>
            exists id :: Publishes(s.phase, id) == Some(name) && !BeforeStream(s.phase, id))
      && (StreamOf(s.m, name).Some? ==>
            && StreamOf(s.m, name).value in s.m.world.openStreams
            && forall other :: StreamOf(s.m, other) == StreamOf(s.m, name) ==> other == name)
  {
    EveryReachableState(owned, cfg, es);
    var s := Run(owned, Start(cfg), es);
    if StreamOf(s.m, name).Some? {
      var id := s.m.topics[name].publisher.value.id;
      assert Publishes(s.phase, id) == Some(name) && !BeforeStream(s.phase, id);
    }
  }

  // ---------- The end of a topic, through both layers ----------

  /**
   The session that publishes an open topic closes and does not come back: when the grace timer fires the topic is
   closed, its stream too, and everyone registered at it is cancelled.
   */
  lemma AbandonedTopicEnds(owned: Owned, s: Sys, id: string, name: string)
    requires Inv(owned, s) && id in s.phase && s.phase[id] == Publishing(name)
    ensures
      name in s.m.topics && s.m.topics[name].publisher.Some?
      && var t := s.m.topics[name];
      var s' := Run(owned, s, [CloseLookup(id), CloseUnregister(id)] + [Event.TimerFires(s.m.world.nextTimer)]);
      && id !in s'.phase && id !in s'.sessTopic && id !in s'.sessIsPub
      && s'.m.topics.Keys == s.m.topics.Keys
      && s'.m.topics[name].closed && s'.m.topics[name].publisher.None? && s'.m.topics[name].stream.None?
      && t.publisher.value.serial in s'.m.world.cancelled
      && (!t.closed ==> s'.m.topics[name].subscribers == map[] && SerialsOf(t.subscribers) <= s'.m.world.cancelled)
  {
    hide Inv, Run, Registry.UnregisterPublisher, Fire;
    var es := [CloseLookup(id), CloseUnregister(id)];
    PublisherCloses(owned, s, id, name);
    LastStep(owned, s, es, Event.TimerFires(s.m.world.nextTimer));
    TopicIsLeftAndCloses(s.m, name);
    assert Apply(s.m, DropPublisher(name)) == UnregisterPublisher(s.m, name);
  }

  lemma PublisherCloses(owned: Owned, s: Sys, id: string, name: string)
    requires Inv(owned, s) && id in s.phase && s.phase[id] == Publishing(name)
    ensures name in s.m.topics && s.m.topics[name].publisher.Some?
    ensures Run(owned, s, [CloseLookup(id), CloseUnregister(id)])
            == s.(m := UnregisterPublisher(s.m, name), phase := s.phase - {id},
                  sessTopic := s.sessTopic - {id}, sessIsPub := s.sessIsPub - {id})
  {
    assert Publishes(s.phase, id) == Some(name);
    LookupReadsThePhase(owned, s, id);
    CloseInOneGo(owned, s, id);
    assert s.phase[id := Leaving(name, true)] - {id} == s.phase - {id};
  }

  /** A shutdown closes the topics listed and cancels who plays them; the sessions themselves stay. */
  lemma ShutdownReachesPlayers(owned: Owned, s: Sys, order: seq<string>, name: string)
    requires name in order && name in s.m.topics
    ensures
      var s' := Step(owned, s, Event.ShutDown(order));
      && s'.phase == s.phase && s'.sessTopic == s.sessTopic && s'.sessIsPub == s.sessIsPub
      && name in s'.m.topics && s'.m.topics[name].closed && s'.m.topics[name].publisher == s.m.topics[name].publisher
      && (!s.m.topics[name].closed ==> SerialsOf(s.m.topics[name].subscribers) <= s'.m.world.cancelled)
  {
    ShutdownClosesAsListed(s.m, order, name);
    if !s.m.topics[name].closed {
      forall q | q in SerialsOf(s.m.topics[name].subscribers)
        ensures q in Shutdown(s.m, order).world.cancelled
      {
        ShutdownCancelsEveryone(s.m, order, name, q);
      }
    }
  }

  lemma {:induction false} LastStep(owned: Owned, s: Sys, es: seq<Event>, e: Event)
    ensures Run(owned, s, es + [e]) == Step(owned, Run(owned, s, es), e)
    decreases |es|
  {
    if es == [] {
      assert es + [e] == [e];
    } else {
      assert (es + [e])[1..] == es[1..] + [e];
      LastStep(owned, Step(owned, s, es[0]), es[1..], e);
    }
  }

}
