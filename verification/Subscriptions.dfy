/**
 Which subscriber entries are left in the topics, and what the subscriber gauge shows, after any run of the session
 handler (pkg/rtspsrv/server.go: OnPlay, OnSessionClose; pkg/topic/topic.go: AddSubscriber, RemoveSubscriber, Close).

 A session may PLAY again. The handler then forgets the topic it played before: its entry there stays. This is told
 from the events alone, by a ledger that watches which plays are accepted and which topics close.
 */
module Subscriptions {

  import opened Option
  import opened Text
  import opened Registry
  import opened Sessions

  datatype Entry = Entry(topic: string, id: string)

  /**
   `attached`: the sessions whose topic has not closed since they joined it.
   `abandoned`: where a session that was attached has played on, and neither has the topic closed since nor has
   anybody of the same id played it again.
   `overwrote`: some play met an entry of the same id.
   */
  datatype Ledger = Ledger(attached: set<string>, abandoned: set<Entry>, overwrote: bool)

  const NEW_LEDGER := Ledger({}, {}, false)

  predicate Accepted(s: Sys, id: string, path: string) {
    && id in s.phase && (s.phase[id].Opened? || s.phase[id].Playing?)
    && RegisterSubscriber(s.m, TrimSlash(path), Session(id, s.nextSerial)).Ok?
  }

  /** The entries of attached sessions that play on are abandoned. */
  function LeftBehind(l: Ledger, phase: Phases, id: string): set<Entry>
    requires id in phase
  {
    if phase[id].Playing? && id in l.attached then l.abandoned + {Entry(phase[id].topic, id)} else l.abandoned
  }

  function AfterPlay(l: Ledger, phase: Phases, id: string, name: string): Ledger
    requires id in phase
  {
    var left := LeftBehind(l, phase, id);
    Ledger(l.attached + {id}, left - {Entry(name, id)}, l.overwrote || Entry(name, id) in left)
  }

  function AfterClose(l: Ledger, topics: Topics, phase: Phases, name: string): Ledger {
    if name !in topics || topics[name].closed then l
    else
      var stay := set id | id in l.attached && Subscribes(phase, id) != Some(name);
      var kept := set e | e in l.abandoned && e.topic != name;
      l.(attached := stay, abandoned := kept)
  }

  function AfterShutdown(l: Ledger, m: Registry.State, phase: Phases, order: seq<string>): Ledger {
    if order == [] then l
    else
      var init := order[..|order| - 1];
      AfterClose(AfterShutdown(l, m, phase, init), Shutdown(m, init).topics, phase, order[|order| - 1])
  }

  /** What the ledger notes of an event. */
  function Note(s: Sys, l: Ledger, e: Event): Ledger {
    match e
    case PlayRegister(id, path) => if Accepted(s, id, path) then AfterPlay(l, s.phase, id, TrimSlash(path)) else l
    case CloseUnregister(id) =>
      if id in s.phase && s.phase[id].Leaving? then l.(attached := l.attached - {id}) else l
    case TimerFires(timer) =>
      if timer in s.m.world.armed then AfterClose(l, s.m.topics, s.phase, s.m.world.armed[timer]) else l
    case ShutDown(order) => AfterShutdown(l, s.m, s.phase, order)
    case _ => l
  }

  function LedgerOf(owned: Owned, s: Sys, l: Ledger, es: seq<Event>): Ledger
    decreases |es|
  {
    if es == [] then l else LedgerOf(owned, Step(owned, s, es[0]), Note(s, l, es[0]), es[1..])
  }

  // ---------- The ledger is right ----------

  predicate HasEntry(topics: Topics, n: string, id: string) {
    n in topics && id in topics[n].subscribers
  }

  predicate Listed(phase: Phases, l: Ledger, n: string, id: string) {
    (Subscribes(phase, id) == Some(n) && id in l.attached) || Entry(n, id) in l.abandoned
  }

  ghost predicate LedgerInv(topics: Topics, phase: Phases, orphaned: set<nat>, l: Ledger) {
    && (forall n, id :: HasEntry(topics, n, id) <==> Listed(phase, l, n, id))
    && (forall id :: id in l.attached ==> Subscribes(phase, id).Some?)
    && (forall e :: e in l.abandoned ==> Subscribes(phase, e.id) != Some(e.topic))
    && (l.overwrote <==> orphaned != {})
  }

  ghost predicate LedgerFits(s: Sys, l: Ledger) {
    LedgerInv(s.m.topics, s.phase, s.m.world.orphaned, l)
  }

  /** Who subscribes, and what is in the maps, stays the same. */
  ghost predicate SameEntries(s: Sys, s': Sys) {
    && (forall n, id :: HasEntry(s'.m.topics, n, id) <==> HasEntry(s.m.topics, n, id))
    && (forall id :: Subscribes(s'.phase, id) == Subscribes(s.phase, id))
    && s'.m.world.orphaned == s.m.world.orphaned
  }

  lemma SameEntriesSameLedger(s: Sys, s': Sys, l: Ledger)
    requires LedgerFits(s, l) && SameEntries(s, s')
    ensures LedgerFits(s', l)
  {
    assert forall n, id :: Listed(s'.phase, l, n, id) == Listed(s.phase, l, n, id);
  }

  lemma EntriesAfterPlay(s: Sys, id: string, path: string, n: string, i: string)
    requires Accepted(s, id, path)
    ensures HasEntry(Play(s, id, path).m.topics, n, i)
            <==> HasEntry(s.m.topics, n, i) || (n == TrimSlash(path) && i == id)
  {
  }

  lemma ListedAfterPlay(phase: Phases, l: Ledger, id: string, name: string, n: string, i: string)
    requires id in phase && (phase[id].Opened? || phase[id].Playing?)
    ensures Listed(phase[id := Joined(name)], AfterPlay(l, phase, id, name), n, i)
            <==> Listed(phase, l, n, i) || (n == name && i == id)
  {
  }

  lemma PlayMeetsEntry(s: Sys, l: Ledger, id: string, path: string)
    requires LedgerFits(s, l) && Accepted(s, id, path)
    ensures Entry(TrimSlash(path), id) in LeftBehind(l, s.phase, id) <==> HasEntry(s.m.topics, TrimSlash(path), id)
  {
    assert HasEntry(s.m.topics, TrimSlash(path), id) <==> Listed(s.phase, l, TrimSlash(path), id);
  }

  lemma PlayKeepsLedger(s: Sys, l: Ledger, id: string, path: string)
    requires LedgerFits(s, l) && Accepted(s, id, path)
    ensures LedgerFits(Play(s, id, path), AfterPlay(l, s.phase, id, TrimSlash(path)))
  {
    var name := TrimSlash(path);
    var s', l' := Play(s, id, path), AfterPlay(l, s.phase, id, name);
    PlayMeetsEntry(s, l, id, path);
    forall n, i
      ensures HasEntry(s'.m.topics, n, i) <==> Listed(s'.phase, l', n, i)
    {
      EntriesAfterPlay(s, id, path, n, i);
      ListedAfterPlay(s.phase, l, id, name, n, i);
      assert HasEntry(s.m.topics, n, i) <==> Listed(s.phase, l, n, i);
    }
  }

  lemma CloseKeepsLedger(m: Registry.State, phase: Phases, l: Ledger, name: string)
    requires LedgerInv(m.topics, phase, m.world.orphaned, l)
    ensures LedgerInv(Close(m, name).topics, phase, Close(m, name).world.orphaned, AfterClose(l, m.topics, phase, name))
  {
    if name in m.topics && !m.topics[name].closed {
      var l' := AfterClose(l, m.topics, phase, name);
      forall n, i
        ensures HasEntry(Close(m, name).topics, n, i) <==> Listed(phase, l', n, i)
      {
        assert HasEntry(m.topics, n, i) <==> Listed(phase, l, n, i);
      }
    } else {
      assert Close(m, name).topics == m.topics;
    }
  }

  lemma {:induction false} ShutdownKeepsLedger(m: Registry.State, phase: Phases, l: Ledger, order: seq<string>)
    requires LedgerInv(m.topics, phase, m.world.orphaned, l)
    ensures
      var m' := Shutdown(m, order);
      LedgerInv(m'.topics, phase, m'.world.orphaned, AfterShutdown(l, m, phase, order))
  {
    if order != [] {
      var init := order[..|order| - 1];
      ShutdownKeepsLedger(m, phase, l, init);
      CloseKeepsLedger(Shutdown(m, init), phase, AfterShutdown(l, m, phase, init), order[|order| - 1]);
    }
  }

  lemma ListedAfterLeaving(phase: Phases, l: Ledger, id: string, name: string, n: string, i: string)
    requires Subscribes(phase, id) == Some(name) && Entry(name, id) !in l.abandoned
    ensures Listed(phase - {id}, l.(attached := l.attached - {id}), n, i)
            <==> Listed(phase, l, n, i) && !(n == name && i == id)
  {
  }

  lemma LeavingKeepsLedger(s: Sys, l: Ledger, id: string)
    requires LedgerFits(s, l) && id in s.phase && s.phase[id].Leaving? && !s.phase[id].isPub
    requires s.phase[id].topic in s.m.topics
    ensures LedgerFits(Unregister(s, id, s.phase[id].topic, false), l.(attached := l.attached - {id}))
  {
    var name := s.phase[id].topic;
    var s', l' := Unregister(s, id, name, false), l.(attached := l.attached - {id});
    UnregisterSubscriberTopics(s.m, name, id);
    forall n, i
      ensures HasEntry(s'.m.topics, n, i) <==> Listed(s'.phase, l', n, i)
    {
      ListedAfterLeaving(s.phase, l, id, name, n, i);
      assert HasEntry(s.m.topics, n, i) <==> Listed(s.phase, l, n, i);
    }
  }

  lemma LookupKeepsEntries(owned: Owned, s: Sys, id: string)
    requires LinkInv(owned, s) && id in s.phase
    requires s.phase[id].Opened? || s.phase[id].Publishing? || s.phase[id].Playing?
    ensures SameEntries(s, Lookup(s, id))
  {
    LookupReadsThePhase(owned, s, id);
  }

  lemma AnnounceKeepsEntries(owned: Owned, s: Sys, id: string, path: string)
    requires id in s.phase && s.phase[id].Opened?
    ensures SameEntries(s, Announce(owned, s, id, path))
  {
  }

  lemma PublisherStepsKeepEntries(s: Sys, id: string)
    requires id in s.phase
    ensures s.phase[id].Registered? ==> SameEntries(s, Sessions.AttachStream(s, id, s.phase[id].topic))
    ensures s.phase[id].Leaving? && s.phase[id].isPub ==> SameEntries(s, Unregister(s, id, s.phase[id].topic, true))
  {
  }

  /** All steps but accepted plays, subscribers that leave, timers and shutdowns. */
  lemma OtherStepsKeepEntries(owned: Owned, s: Sys, e: Event)
    requires LinkInv(owned, s)
    requires !e.PlayRegister? && !e.TimerFires? && !e.ShutDown?
    requires e.CloseUnregister? && e.id in s.phase && s.phase[e.id].Leaving? ==> s.phase[e.id].isPub
    ensures SameEntries(s, Step(owned, s, e))
  {
    if Step(owned, s, e) != s {
      match e
      case AnnounceRegister(id, path) => AnnounceKeepsEntries(owned, s, id, path);
      case AnnounceStream(id) => PublisherStepsKeepEntries(s, id);
      case CloseLookup(id) => LookupKeepsEntries(owned, s, id);
      case CloseUnregister(id) => PublisherStepsKeepEntries(s, id);
      case _ =>
    }
  }

  lemma StepKeepsLedger(owned: Owned, s: Sys, l: Ledger, e: Event)
    requires LinkInv(owned, s) && LedgerFits(s, l)
    ensures LedgerFits(Step(owned, s, e), Note(s, l, e))
  {
    if e.PlayRegister? {
      if Accepted(s, e.id, e.path) {
        PlayKeepsLedger(s, l, e.id, e.path);
      }
    } else if e.TimerFires? {
      if e.timer in s.m.world.armed {
        FireIsClose(s.m, e.timer);
        CloseKeepsLedger(s.m, s.phase, l, s.m.world.armed[e.timer]);
      }
    } else if e.ShutDown? {
      ShutdownKeepsLedger(s.m, s.phase, l, e.order);
    } else if e.CloseUnregister? && e.id in s.phase && s.phase[e.id].Leaving? && !s.phase[e.id].isPub {
      assert EntryInv(Get(s.sessTopic, e.id), Get(s.sessIsPub, e.id), Get(s.phase, e.id), s.m.topics.Keys);
      LeavingKeepsLedger(s, l, e.id);
    } else {
      OtherStepsKeepEntries(owned, s, e);
      SameEntriesSameLedger(s, Step(owned, s, e), l);
    }
  }

  lemma {:induction false} EveryRunKeepsLedger(owned: Owned, s: Sys, l: Ledger, es: seq<Event>)
    requires Sessions.Inv(owned, s) && LedgerFits(s, l)
    ensures LedgerFits(Run(owned, s, es), LedgerOf(owned, s, l, es))
    decreases |es|
  {
    if es != [] {
      StepKeepsLedger(owned, s, l, es[0]);
      StepKeepsManager(owned, s, es[0]);
      StepKeepsLink(owned, s, es[0]);
      EveryRunKeepsLedger(owned, Step(owned, s, es[0]), Note(s, l, es[0]), es[1..]);
    }
  }

  lemma EveryReachableLedger(owned: Owned, cfg: Config, es: seq<Event>)
    ensures LedgerFits(Run(owned, Start(cfg), es), LedgerOf(owned, Start(cfg), NEW_LEDGER, es))
  {
    StartInv(owned, cfg);
    EveryRunKeepsLedger(owned, Start(cfg), NEW_LEDGER, es);
  }

  /**
   After any events a topic has an entry under an id exactly if a session of that id plays it and joined it after it
   closed or it never closed, or if one left it behind. While the topic is open, whoever plays it has an entry. The
   gauge is the number of entries exactly if no play ever met an entry of its own id.
   */
  lemma EntriesAreThoseListed(owned: Owned, cfg: Config, es: seq<Event>, name: string, id: string)
    ensures
      var s := Run(owned, Start(cfg), es);
      var l := LedgerOf(owned, Start(cfg), NEW_LEDGER, es);
      && (HasEntry(s.m.topics, name, id) <==> Listed(s.phase, l, name, id))
      && (Subscribes(s.phase, id) == Some(name) ==>
            name in s.m.topics && (!s.m.topics[name].closed ==> HasEntry(s.m.topics, name, id)))
      && (s.m.world.activeSubscribers == Total(s.m.topics) <==> !l.overwrote)
  {
    EveryReachableState(owned, cfg, es);
    EveryReachableLedger(owned, cfg, es);
  }

  // ---------- Quiescence ----------

  lemma {:induction false} NoSubscribersTotalZero(topics: Topics)
    requires forall n :: n in topics ==> topics[n].subscribers == map[]
    ensures Total(topics) == 0
  {
    if topics != map[] {
      var n :| n in topics;
      TotalWithout(topics, n);
      NoSubscribersTotalZero(topics - {n});
    }
  }

  lemma TotalZeroIff(topics: Topics)
    ensures Total(topics) == 0 <==> forall n :: n in topics ==> topics[n].subscribers == map[]
  {
    if forall n :: n in topics ==> topics[n].subscribers == map[] {
      NoSubscribersTotalZero(topics);
    } else {
      var n :| n in topics && topics[n].subscribers != map[];
      TotalWithout(topics, n);
    }
  }

  lemma NothingPublished(topics: Topics, phase: Phases, open: set<nat>, next: nat)
    requires PublisherInv(topics, phase) && StreamInv(topics, phase, open, next) && phase == map[]
    ensures forall n :: n in topics ==> topics[n].publisher.None? && topics[n].stream.None?
    ensures Published(topics) == {} && open == {}
  {
    assert forall id :: Publishes(phase, id).None?;
  }

  lemma MapsEmpty(sessTopic: map<string, string>, sessIsPub: map<string, bool>, names: set<string>)
    requires MapsInv(sessTopic, sessIsPub, map[], names)
    ensures sessTopic == map[] && sessIsPub == map[]
  {
    forall id
      ensures id !in sessTopic && id !in sessIsPub
    {
      assert EntryInv(Get(sessTopic, id), Get(sessIsPub, id), Get<Phase>(map[], id), names);
    }
  }

  lemma NoEntriesIff(topics: Topics, orphaned: set<nat>, l: Ledger)
    requires LedgerInv(topics, map[], orphaned, l)
    ensures (forall n :: n in topics ==> topics[n].subscribers == map[]) <==> l.abandoned == {}
  {
    if l.abandoned != {} {
      var e :| e in l.abandoned;
      assert Listed(map[], l, e.topic, e.id);
      assert HasEntry(topics, e.topic, e.id);
    }
    forall n | n in topics && topics[n].subscribers != map[]
      ensures l.abandoned != {}
    {
      var id :| id in topics[n].subscribers;
      assert HasEntry(topics, n, id);
      assert Listed(map[], l, n, id);
    }
  }

  /**
   Once every opened session has closed: both maps are empty, no topic has a publisher or a stream, no stream is
   open, and publisher counter and gauge are zero. No subscriber is left exactly if nothing is left behind: every
   topic that a session played and moved away from has closed since, or was played again under the same id. And the
   subscriber gauge is zero exactly if, besides, no play ever met an entry of its own id.
   */
  lemma Quiescence(owned: Owned, cfg: Config, es: seq<Event>)
    requires Run(owned, Start(cfg), es).phase == map[]
    ensures
      var s := Run(owned, Start(cfg), es);
      && s.sessTopic == map[] && s.sessIsPub == map[]
      && (forall n :: n in s.m.topics ==> s.m.topics[n].publisher.None? && s.m.topics[n].stream.None?)
      && s.m.world.openStreams == {}
      && s.m.publisherCount == 0 == s.m.world.activePublishers
    ensures
      var s := Run(owned, Start(cfg), es);
      var l := LedgerOf(owned, Start(cfg), NEW_LEDGER, es);
      && ((forall n :: n in s.m.topics ==> s.m.topics[n].subscribers == map[]) <==> l.abandoned == {})
      && (s.m.world.activeSubscribers == 0 <==> l.abandoned == {} && !l.overwrote)
  {
    EveryReachableState(owned, cfg, es);
    EveryReachableLedger(owned, cfg, es);
    var s := Run(owned, Start(cfg), es);
    MapsEmpty(s.sessTopic, s.sessIsPub, s.m.topics.Keys);
    NothingPublished(s.m.topics, s.phase, s.m.world.openStreams, s.nextStream);
    NoEntriesIff(s.m.topics, s.m.world.orphaned, LedgerOf(owned, Start(cfg), NEW_LEDGER, es));
    TotalZeroIff(s.m.topics);
  }

  lemma {:induction false} ShutdownAbandonsNobody(l: Ledger, m: Registry.State, phase: Phases, order: seq<string>)
    requires l.abandoned == {} && !l.overwrote
    ensures AfterShutdown(l, m, phase, order).abandoned == {} && !AfterShutdown(l, m, phase, order).overwrote
  {
    if order != [] {
      ShutdownAbandonsNobody(l, m, phase, order[..|order| - 1]);
    }
  }

  lemma {:induction false} OnceLeavesNothing(owned: Owned, s: Sys, l: Ledger, es: seq<Event>)
    requires l.abandoned == {} && !l.overwrote
    requires forall k :: 0 <= k < |es| && es[k].PlayRegister? ==>
               var phase := Run(owned, s, es[..k]).phase;
               es[k].id in phase ==> !phase[es[k].id].Playing?
    ensures LedgerOf(owned, s, l, es).abandoned == {} && !LedgerOf(owned, s, l, es).overwrote
    decreases |es|
  {
    if es != [] {
      var s', rest := Step(owned, s, es[0]), es[1..];
      assert es[..0] == [] && Run(owned, s, es[..0]) == s;
      if es[0].ShutDown? {
        ShutdownAbandonsNobody(l, s.m, s.phase, es[0].order);
      }
      forall k | 0 <= k < |rest| && rest[k].PlayRegister?
        ensures
          var phase := Run(owned, s', rest[..k]).phase;
          rest[k].id in phase ==> !phase[rest[k].id].Playing?
      {
        assert es[k + 1] == rest[k] && es[..k + 1][0] == es[0] && es[..k + 1][1..] == rest[..k];
      }
      OnceLeavesNothing(owned, s', Note(s, l, es[0]), rest);
    }
  }

  /** When no session plays while it plays already, everything is zero once all have closed, the gauge included. */
  lemma QuiescenceWhenPlayedOnce(owned: Owned, cfg: Config, es: seq<Event>)
    requires Run(owned, Start(cfg), es).phase == map[]
    requires forall k :: 0 <= k < |es| && es[k].PlayRegister? ==>
               var phase := Run(owned, Start(cfg), es[..k]).phase;
               es[k].id in phase ==> !phase[es[k].id].Playing?
    ensures
      var s := Run(owned, Start(cfg), es);
      && s.m.world.activeSubscribers == 0 == s.m.world.activePublishers == s.m.publisherCount
      && forall n :: n in s.m.topics ==> s.m.topics[n].subscribers == map[]
  {
    OnceLeavesNothing(owned, Start(cfg), NEW_LEDGER, es);
    Quiescence(owned, cfg, es);
  }

  // ---------- What goes wrong when a session plays twice ----------

  /** The session plays again, and closes. */
  function PlayAgainAndClose(id: string, path: string): seq<Event> {
    [PlayRegister(id, path), PlayStore(id)] + [CloseLookup(id), CloseUnregister(id)]
  }

  lemma {:induction false} RunOfBoth(owned: Owned, s: Sys, es: seq<Event>, es': seq<Event>)
    ensures Run(owned, s, es + es') == Run(owned, Run(owned, s, es), es')
    decreases |es|
  {
    if es == [] {
      assert es + es' == es';
    } else {
      assert (es + es')[1..] == es[1..] + es';
      RunOfBoth(owned, Step(owned, s, es[0]), es[1..], es');
    }
  }

  lemma PlayAgain(owned: Owned, s: Sys, id: string, path: string)
    requires id in s.phase && s.phase[id].Playing? && Accepted(s, id, path) && TrimSlash(path) != ""
    ensures
      var name := TrimSlash(path);
      var played := Play(s, id, path);
      Run(owned, s, PlayAgainAndClose(id, path))
      == Unregister(Lookup(Store(played, id, name, false), id), id, name, false)
  {
    var name := TrimSlash(path);
    RunOfBoth(owned, s, [PlayRegister(id, path), PlayStore(id)], [CloseLookup(id), CloseUnregister(id)]);
    PlayInOneGo(owned, s, id, path);
    CloseInOneGo(owned, Store(Play(s, id, path), id, name, false), id);
  }

  /** Playing a second topic and closing leaves the entry in the first one, and the gauge where it was. */
  lemma SecondTopicLeavesEntry(owned: Owned, s: Sys, id: string, path: string)
    requires id in s.phase && s.phase[id].Playing? && Accepted(s, id, path)
    requires TrimSlash(path) != "" && TrimSlash(path) != s.phase[id].topic
    requires HasEntry(s.m.topics, s.phase[id].topic, id)
    ensures
      var n := s.phase[id].topic;
      var s' := Run(owned, s, PlayAgainAndClose(id, path));
      && id !in s'.phase && HasEntry(s'.m.topics, n, id) && s'.m.topics[n] == s.m.topics[n]
      && s'.m.world.activeSubscribers == s.m.world.activeSubscribers
  {
    PlayAgain(owned, s, id, path);
    var name := TrimSlash(path);
    var played := Lookup(Store(Play(s, id, path), id, name, false), id);
    UnregisterSubscriberFields(played.m, name, id);
  }

  lemma RegisterAndUnregisterAgain(m: Registry.State, name: string, sub: Session)
    requires HasEntry(m.topics, name, sub.id) && RegisterSubscriber(m, name, sub).Ok?
    ensures
      var m' := UnregisterSubscriber(RegisterSubscriber(m, name, sub).value, name, sub.id);
      && m'.topics == m.topics[name := m.topics[name].(subscribers := m.topics[name].subscribers - {sub.id})]
      && m'.world.activeSubscribers == m.world.activeSubscribers
  {
    var subs := m.topics[name].subscribers;
    RegisterSubscriberFields(m, name, sub);
    UnregisterSubscriberFields(RegisterSubscriber(m, name, sub).value, name, sub.id);
    assert subs[sub.id := sub] - {sub.id} == subs - {sub.id};
  }

  lemma TotalWithOneLess(topics: Topics, name: string, id: string)
    requires HasEntry(topics, name, id)
    ensures Total(topics[name := topics[name].(subscribers := topics[name].subscribers - {id})]) == Total(topics) - 1
  {
    MapSizeAfterRemove(topics[name].subscribers, id);
    TotalUpdate(topics, name, topics[name].(subscribers := topics[name].subscribers - {id}));
  }

  /** Playing the same topic again and closing takes one entry away, and leaves the gauge where it was. */
  lemma SameTopicLeaksGauge(owned: Owned, s: Sys, id: string, path: string)
    requires id in s.phase && s.phase[id].Playing? && Accepted(s, id, path)
    requires TrimSlash(path) != "" && TrimSlash(path) == s.phase[id].topic
    requires HasEntry(s.m.topics, s.phase[id].topic, id)
    ensures
      var n := s.phase[id].topic;
      var s' := Run(owned, s, PlayAgainAndClose(id, path));
      && id !in s'.phase
      && s'.m.topics == s.m.topics[n := s.m.topics[n].(subscribers := s.m.topics[n].subscribers - {id})]
      && Total(s'.m.topics) == Total(s.m.topics) - 1
      && s'.m.world.activeSubscribers == s.m.world.activeSubscribers
  {
    PlayAgain(owned, s, id, path);
    RegisterAndUnregisterAgain(s.m, TrimSlash(path), Session(id, s.nextSerial));
    TotalWithOneLess(s.m.topics, TrimSlash(path), id);
  }

  function Announcing(id: string, name: string): seq<Event> {
    [Open(id)] + [AnnounceRegister(id, name), AnnounceStream(id), AnnounceStore(id)]
  }

  predicate AddsTopic(s: Sys, s': Sys, id: string, name: string) {
    && s'.phase == s.phase[id := Publishing(name)] && s'.m.cfg == s.m.cfg
    && s'.m.topics.Keys == s.m.topics.Keys + {name}
    && (forall n :: n in s.m.topics ==> s'.m.topics[n] == s.m.topics[n])
    && s'.m.topics[name].subscribers == map[] && !s'.m.topics[name].closed
    && s'.m.world.activeSubscribers == s.m.world.activeSubscribers
  }

  lemma AnnounceAddsTopic(owned: Owned, s: Sys, id: string, name: string)
    requires ValidName(name) && owned(name) && name !in s.m.topics && s.m.cfg.maxPublishers <= 0
    ensures
      var announced := AnnounceNamed(s, id, name);
      && announced.phase == s.phase[id := Registered(name)]
      && AddsTopic(s, Store(Sessions.AttachStream(announced, id, name), id, name, true), id, name)
  {
    RegisterPublisherFields(s.m, name, Session(id, s.nextSerial));
  }

  lemma AnnouncingPublishes(owned: Owned, s: Sys, id: string, name: string)
    requires id !in s.phase && ValidName(name) && owned(name) && name !in s.m.topics && s.m.cfg.maxPublishers <= 0
    ensures AddsTopic(s, Run(owned, s, Announcing(id, name)), id, name)
  {
    assert NameChar(name[0]);
    var s1 := Step(owned, s, Open(id));
    RunFrom(owned, s, Open(id), [AnnounceRegister(id, name), AnnounceStream(id), AnnounceStore(id)], s1);
    AnnounceInOneGo(owned, s1, id, name);
    AnnounceAddsTopic(owned, s1, id, name);
  }

  function Joining(id: string, name: string): seq<Event> {
    [Open(id)] + [PlayRegister(id, name), PlayStore(id)]
  }

  lemma JoiningSubscribes(owned: Owned, s: Sys, id: string, name: string)
    requires id !in s.phase && ValidName(name) && name in s.m.topics && id !in s.m.topics[name].subscribers
    requires |s.m.topics[name].subscribers| < s.m.cfg.maxSubscribersPerTopic
    ensures
      var s' := Run(owned, s, Joining(id, name));
      && s'.phase == s.phase[id := Playing(name)] && s'.m.cfg == s.m.cfg
      && s'.m.topics.Keys == s.m.topics.Keys
      && (forall n :: n in s.m.topics && n != name ==> s'.m.topics[n] == s.m.topics[n])
      && s'.m.topics[name].closed == s.m.topics[name].closed
      && HasEntry(s'.m.topics, name, id)
      && |s'.m.topics[name].subscribers| == |s.m.topics[name].subscribers| + 1
      && s'.m.world.activeSubscribers == s.m.world.activeSubscribers + 1
  {
    assert NameChar(name[0]);
    var s1 := Step(owned, s, Open(id));
    RunFrom(owned, s, Open(id), [PlayRegister(id, name), PlayStore(id)], s1);
    PlayInOneGo(owned, s1, id, name);
    MapSizeAfterInsert(s.m.topics[name].subscribers, id, Session(id, s.nextSerial));
  }

  const ALL_OWNED: Owned := _ => true

  const SMALL := Config(0, 10, 1)

  lemma TwoTopics(s0: Sys, s1: Sys, s2: Sys)
    requires s0.phase == map[] && s0.m.topics == map[] && s0.m.world.activeSubscribers == 0
    requires AddsTopic(s0, s1, "p", "t") && AddsTopic(s1, s2, "q", "u")
    ensures s2.phase.Keys == {"p", "q"} && s2.m.topics.Keys == {"t", "u"} && s2.m.cfg == s0.m.cfg
    ensures forall n :: n in s2.m.topics ==> s2.m.topics[n].subscribers == map[] && !s2.m.topics[n].closed
    ensures s2.m.world.activeSubscribers == 0
  {
  }

  lemma TwoPublish()
    ensures
      var s := Run(ALL_OWNED, Start(SMALL), Announcing("p", "t") + Announcing("q", "u"));
      && s.phase.Keys == {"p", "q"} && s.m.topics.Keys == {"t", "u"} && s.m.cfg == SMALL
      && (forall n :: n in s.m.topics ==> s.m.topics[n].subscribers == map[] && !s.m.topics[n].closed)
      && s.m.world.activeSubscribers == 0
  {
    var s0 := Start(SMALL);
    AnnouncingPublishes(ALL_OWNED, s0, "p", "t");
    var s1 := Run(ALL_OWNED, s0, Announcing("p", "t"));
    assert s1.m.topics.Keys == {"t"} && s1.phase.Keys == {"p"};
    AnnouncingPublishes(ALL_OWNED, s1, "q", "u");
    RunOfBoth(ALL_OWNED, s0, Announcing("p", "t"), Announcing("q", "u"));
    TwoTopics(s0, s1, Run(ALL_OWNED, s1, Announcing("q", "u")));
  }

  /** From a state where t and u are published and nobody is called s. */
  lemma JoinThenMove(s: Sys)
    requires "s" !in s.phase && s.m.topics.Keys == {"t", "u"} && s.m.cfg == SMALL
    requires forall n :: n in s.m.topics ==> s.m.topics[n].subscribers == map[]
    ensures
      var s' := Run(ALL_OWNED, s, Joining("s", "t") + PlayAgainAndClose("s", "u"));
      && "s" !in s'.phase && HasEntry(s'.m.topics, "t", "s") && s'.m.topics["t"].closed == s.m.topics["t"].closed
      && s'.m.world.activeSubscribers == s.m.world.activeSubscribers + 1
  {
    JoiningSubscribes(ALL_OWNED, s, "s", "t");
    RunOfBoth(ALL_OWNED, s, Joining("s", "t"), PlayAgainAndClose("s", "u"));
    SecondTopicLeavesEntry(ALL_OWNED, Run(ALL_OWNED, s, Joining("s", "t")), "s", "u");
  }

  /** A run after which a session that is gone still has an entry in an open topic, and the gauge counts it. */
  lemma PlayingTwoTopicsLeavesEntry()
    ensures
      var es := Announcing("p", "t") + Announcing("q", "u") + (Joining("s", "t") + PlayAgainAndClose("s", "u"));
      var s := Run(ALL_OWNED, Start(SMALL), es);
      && "s" !in s.phase && HasEntry(s.m.topics, "t", "s") && !s.m.topics["t"].closed
      && s.m.world.activeSubscribers == 1
  {
    var publish := Announcing("p", "t") + Announcing("q", "u");
    TwoPublish();
    JoinThenMove(Run(ALL_OWNED, Start(SMALL), publish));
    RunOfBoth(ALL_OWNED, Start(SMALL), publish, Joining("s", "t") + PlayAgainAndClose("s", "u"));
  }

  /** A run after which no subscriber is left but the gauge shows one. */
  lemma PlayingOneTopicTwiceLeaksGauge()
    ensures
      var es := Announcing("p", "t") + Joining("s", "t") + PlayAgainAndClose("s", "t");
      var s := Run(ALL_OWNED, Start(SMALL), es);
      && "s" !in s.phase && Total(s.m.topics) == 0 && s.m.world.activeSubscribers == 1
  {
    var s0 := Start(SMALL);
    AnnouncingPublishes(ALL_OWNED, s0, "p", "t");
    var s1 := Run(ALL_OWNED, s0, Announcing("p", "t"));
    JoiningSubscribes(ALL_OWNED, s1, "s", "t");
    RunOfBoth(ALL_OWNED, s0, Announcing("p", "t"), Joining("s", "t"));
    var s2 := Run(ALL_OWNED, s1, Joining("s", "t"));
    SameTopicLeaksGauge(ALL_OWNED, s2, "s", "t");
    RunOfBoth(ALL_OWNED, s0, Announcing("p", "t") + Joining("s", "t"), PlayAgainAndClose("s", "t"));
    assert s2.m.topics.Keys == {"t"};
    TotalWithout(s2.m.topics, "t");
    assert s2.m.topics - {"t"} == map[];
  }

}
