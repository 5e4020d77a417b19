/**
 The objects of pkg/topic/topic.go and pkg/rtspsrv/server.go, updating their fields in place. Every method is
 proved to compute the function on values that Registry.dfy, Sessions.dfy or DropOldest.dfy gives for it.
 */
module Relay {

  import opened Option
  import opened Text
  import Cluster
  import opened Channel
  import DropOldest
  import Registry
  import Sessions

  type Session = Registry.Session
  type World = Registry.World

  datatype InboundPacket = InboundPacket(track: int, raw: string)

  /** What the process-wide libraries hold for the topics: gauges, contexts, streams and timers. */
  class Runtime {
    var world: World

    constructor ()
      ensures world == Registry.World(0, 0, {}, {}, map[], 0, multiset{}, map[], {})
    {
      world := Registry.World(0, 0, {}, {}, map[], 0, multiset{}, map[], {});
    }

    method Cancel(serial: nat)
      modifies this
      ensures world == old(world).(cancelled := old(world).cancelled + {serial})
    {
      world := world.(cancelled := world.cancelled + {serial});
    }

    method AddActiveSubscribers(d: int)
      modifies this
      ensures world == old(world).(activeSubscribers := old(world).activeSubscribers + d)
    {
      world := world.(activeSubscribers := world.activeSubscribers + d);
    }

    method AddActivePublishers(d: int)
      modifies this
      ensures world == old(world).(activePublishers := old(world).activePublishers + d)
    {
      world := world.(activePublishers := world.activePublishers + d);
    }

    method RecordPlace(serial: nat, place: Registry.Place)
      modifies this
      ensures world == old(world).(places := old(world).places[serial := place])
    {
      world := world.(places := world.places[serial := place]);
    }

    method CloseInbound(topic: string)
      modifies this
      ensures world == old(world).(channelCloses := old(world).channelCloses + multiset{topic})
    {
      world := world.(channelCloses := world.channelCloses + multiset{topic});
    }

    method OpenStream(stream: nat)
      modifies this
      ensures world == old(world).(openStreams := old(world).openStreams + {stream})
    {
      world := world.(openStreams := world.openStreams + {stream});
    }

    method CloseStream(stream: nat)
      modifies this
      ensures world == old(world).(openStreams := old(world).openStreams - {stream})
    {
      world := world.(openStreams := world.openStreams - {stream});
    }

    method StopTimer(timer: nat)
      modifies this
      ensures world == Registry.Stopped(old(world), Some(timer))
    {
      world := world.(armed := world.armed - {timer});
    }

    method AfterFunc(topic: string) returns (timer: nat)
      modifies this
      ensures timer == old(world).nextTimer
      ensures world == old(world).(armed := old(world).armed[timer := topic], nextTimer := timer + 1)
    {
      timer := world.nextTimer;
      world := world.(armed := world.armed[timer := topic], nextTimer := timer + 1);
    }
  }

  // ---------- Subscribers ----------

  class SubscriberSession {
    const id: string
    const serial: nat
    const queue: Channel<InboundPacket>

    function Key(): Session {
      Registry.Session(id, serial)
    }

    constructor (id: string, serial: nat, queueSize: nat)
      ensures this.id == id && this.serial == serial
      ensures fresh(queue) && fresh(queue.data) && queue.Valid() && queue.cap == queueSize && queue.contents == []
    {
      this.id, this.serial := id, serial;
      queue := new Channel(queueSize);
    }

    /** One whole offer: the newest packets stay; false exactly when the queue cannot hold any. */
    method Enqueue(pkt: InboundPacket) returns (sent: bool)
      requires queue.Valid()
      modifies queue, queue.data
      ensures queue.Valid()
      ensures queue.contents == DropOldest.Offer(old(queue.contents), queue.cap, pkt)
      ensures sent == (queue.cap > 0)
    {
      sent := queue.TrySend(pkt);
      if sent {
        return;
      }
      // Full: make room by giving up what has waited longest.
      var _ := queue.TryReceive();
      sent := queue.TrySend(pkt);
    }

    method Dequeue() returns (pkt: Option<InboundPacket>)
      requires queue.Valid()
      modifies queue
      ensures queue.Valid()
      ensures pkt == if old(queue.contents) == [] then None else Some(old(queue.contents)[0])
      ensures queue.contents == if old(queue.contents) == [] then [] else old(queue.contents)[1..]
    {
      pkt := queue.TryReceive();
    }
  }

  // ---------- Topics ----------

  class Topic {
    const name: string
    var publisher: Option<Session>
    var stream: Option<nat>
    var subscribers: map<string, SubscriberSession>
    const inbound: Channel<InboundPacket>
    var closed: bool
    var graceTimer: Option<nat>

    ghost var keys: map<string, Session>       // who the subscribers are
    ghost var joined: set<SubscriberSession>   // who ever was one

    ghost predicate Valid()
      reads this`subscribers, this`keys, this`joined
    {
      && keys.Keys == subscribers.Keys
      && forall id :: id in subscribers ==>
           keys[id] == subscribers[id].Key() && keys[id].id == id && subscribers[id] in joined
    }

    ghost function Abs(): Registry.TopicState
      reads this
    {
      Registry.TopicState(publisher, stream, keys, closed, graceTimer)
    }

    lemma SizeOfKeys()
      requires Valid()
      ensures |keys| == |subscribers|
    {
      assert |keys| == |keys.Keys| == |subscribers.Keys| == |subscribers|;
    }

    constructor (name: string, queueSize: nat)
      ensures Valid() && this.name == name && Abs() == Registry.NEW_TOPIC
      ensures fresh(inbound) && fresh(inbound.data) && inbound.Valid() && inbound.cap == queueSize
      ensures subscribers == map[] && joined == {} && inbound.contents == []
    {
      this.name := name;
      publisher, stream, subscribers, keys, joined, closed, graceTimer := None, None, map[], map[], {}, false, None;
      inbound := new Channel(queueSize);
    }

    method SetPublisher(rt: Runtime, p: Session)
      requires Valid()
      modifies this`publisher, this`graceTimer, rt
      ensures Valid()
      ensures rt.world == Registry.SetPublisher(old(rt.world), old(Abs()), p).0
      ensures Abs() == Registry.SetPublisher(old(rt.world), old(Abs()), p).1
    {
      publisher := Some(p);
      if graceTimer.Some? {
        rt.StopTimer(graceTimer.value);
        graceTimer := None;
      }
    }

    method SetStream(st: nat)
      requires Valid()
      modifies this`stream
      ensures Valid() && Abs() == old(Abs()).(stream := Some(st))
    {
      stream := Some(st);
    }

    method RemovePublisher(rt: Runtime)
      requires Valid()
      modifies this`publisher, this`stream, this`graceTimer, rt
      ensures Valid()
      ensures rt.world == Registry.RemovePublisher(old(rt.world), name, old(Abs())).0
      ensures Abs() == Registry.RemovePublisher(old(rt.world), name, old(Abs())).1
    {
      if publisher.None? {
        return;
      }
      rt.Cancel(publisher.value.serial);
      publisher := None;
      if stream.Some? {
        rt.CloseStream(stream.value);
        stream := None;
      }
      var timer := rt.AfterFunc(name);
      graceTimer := Some(timer);
    }

    /** The old entry under the same id is lost; the world records that. */
    method AddSubscriber(rt: Runtime, s: SubscriberSession)
      requires Valid()
      modifies this`subscribers, this`keys, this`joined, rt
      ensures Valid()
      ensures rt.world == Registry.AddSubscriber(old(rt.world), old(Abs()), s.Key()).0
      ensures Abs() == Registry.AddSubscriber(old(rt.world), old(Abs()), s.Key()).1
      ensures subscribers == old(subscribers)[s.id := s] && joined == old(joined) + {s}
    {
      if s.id in subscribers {
        rt.world := rt.world.(orphaned := rt.world.orphaned + {subscribers[s.id].serial});
      }
      subscribers, keys, joined := subscribers[s.id := s], keys[s.id := s.Key()], joined + {s};
    }

    method RemoveSubscriber(rt: Runtime, id: string)
      requires Valid()
      modifies this`subscribers, this`keys, rt
      ensures Valid()
      ensures rt.world == Registry.RemoveSubscriber(old(rt.world), old(Abs()), id).0
      ensures Abs() == Registry.RemoveSubscriber(old(rt.world), old(Abs()), id).1
      ensures subscribers == old(subscribers) - {id}
    {
      if id in subscribers {
        rt.Cancel(subscribers[id].serial);
        subscribers, keys := subscribers - {id}, keys - {id};
      }
    }

    method CancelSubscribers(rt: Runtime)
      requires Valid()
      modifies rt
      ensures rt.world == old(rt.world).(cancelled := old(rt.world).cancelled + Registry.SerialsOf(keys))
    {
      var todo := subscribers.Keys;
      while todo != {}
        invariant todo <= subscribers.Keys
        invariant rt.world == old(rt.world).(cancelled := rt.world.cancelled)
        invariant rt.world.cancelled
                  == old(rt.world).cancelled + set id | id in keys && id !in todo :: keys[id].serial
        decreases todo
      {
        var id :| id in todo;
        rt.Cancel(subscribers[id].serial);
        todo := todo - {id};
      }
      assert Registry.SerialsOf(keys) == set id | id in keys && id !in todo :: keys[id].serial;
    }

    method CancelEveryone(rt: Runtime)
      requires Valid()
      modifies rt
      ensures rt.world == old(rt.world).(cancelled := old(rt.world).cancelled + Registry.ClosedOut(old(Abs())))
    {
      ghost var before := rt.world.cancelled;
      ghost var pub: set<nat> := {};
      if publisher.Some? {
        rt.Cancel(publisher.value.serial);
        pub := {publisher.value.serial};
      }
      CancelSubscribers(rt);
      Registry.UnionIsAssociative(before, pub, Registry.SerialsOf(keys));
    }

    method TakeOffGauge(rt: Runtime)
      requires Valid()
      modifies rt
      ensures rt.world == old(rt.world).(activeSubscribers := old(rt.world).activeSubscribers - |keys|)
    {
      var removed := |subscribers|;
      SizeOfKeys();
      if removed > 0 {
        rt.AddActiveSubscribers(-removed);
      }
    }

    method CloseOpen(rt: Runtime)
      requires Valid() && !closed
      modifies this`closed, this`subscribers, this`keys, rt
      ensures Valid() && Abs() == Registry.Closing(old(Abs()))
      ensures
        var w := old(rt.world);
        rt.world == w.(cancelled := w.cancelled + Registry.ClosedOut(old(Abs())),
                       activeSubscribers := w.activeSubscribers - |old(keys)|,
                       channelCloses := w.channelCloses + multiset{name})
    {
      closed := true;
      CancelEveryone(rt);
      TakeOffGauge(rt);
      rt.CloseInbound(name);
      subscribers, keys := map[], map[];
    }

    method Close(rt: Runtime)
      requires Valid()
      modifies this`closed, this`subscribers, this`keys, rt
      ensures Valid()
      ensures rt.world == Registry.CloseTopic(old(rt.world), name, old(Abs())).0
      ensures Abs() == Registry.CloseTopic(old(rt.world), name, old(Abs())).1
    {
      if closed {
        return;
      }
      Registry.CloseTopicFields(rt.world, name, Abs());
      CloseOpen(rt);
    }

    // ----- Packets -----

    /** All queues are in order and no two share memory. */
    ghost predicate Wired()
      reads this, inbound, inbound.data
      reads set id | id in subscribers :: subscribers[id].queue
      reads set id | id in subscribers :: subscribers[id].queue.data
    {
      && inbound.Valid()
      && (forall id :: id in subscribers ==>
            && subscribers[id].queue.Valid()
            && subscribers[id].queue != inbound && subscribers[id].queue.data != inbound.data)
      && (forall a, b :: a in subscribers && b in subscribers && a != b ==>
            subscribers[a].queue != subscribers[b].queue && subscribers[a].queue.data != subscribers[b].queue.data)
    }

    /** PublishPacket, once the topic is found. */
    method Publish(pkt: InboundPacket) returns (sent: bool)
      requires Wired()
      modifies inbound, inbound.data
      ensures Wired()
      ensures sent == (!closed && inbound.cap > 0)
      ensures inbound.contents == if closed then old(inbound.contents)
                                  else DropOldest.Offer(old(inbound.contents), inbound.cap, pkt)
    {
      if closed {
        return false;
      }
      sent := inbound.TrySend(pkt);
      if !sent {
        var _ := inbound.TryReceive();
        sent := inbound.TrySend(pkt);
      }
    }

    /** One subscriber's queue takes one whole offer; no other queue changes. */
    method OfferTo(id: string, pkt: InboundPacket)
      requires Wired() && id in subscribers
      modifies subscribers[id].queue, subscribers[id].queue.data
      ensures Wired()
      ensures subscribers[id].queue.contents
              == DropOldest.Offer(old(subscribers[id].queue.contents), subscribers[id].queue.cap, pkt)
      ensures forall other :: other in subscribers && other != id ==>
                subscribers[other].queue.contents == old(subscribers[other].queue.contents)
      ensures inbound.contents == old(inbound.contents)
    {
      var _ := subscribers[id].Enqueue(pkt);
    }

    /** Fanning one packet out, in whatever order the map gives its entries: each queue takes one whole offer. */
    method FanOut(pkt: InboundPacket)
      requires Wired()
      modifies set id | id in subscribers :: subscribers[id].queue
      modifies set id | id in subscribers :: subscribers[id].queue.data
      ensures Wired()
      ensures forall id :: id in subscribers ==>
                subscribers[id].queue.contents
                == DropOldest.Offer(old(subscribers[id].queue.contents), subscribers[id].queue.cap, pkt)
      ensures inbound.contents == old(inbound.contents)
    {
      hide Wired;
      var todo := subscribers.Keys;
      while todo != {}
        invariant todo <= subscribers.Keys && Wired() && inbound.contents == old(inbound.contents)
        invariant forall id :: id in subscribers ==>
                    var q := subscribers[id].queue;
                    q.contents == if id in todo then old(q.contents) else DropOldest.Offer(old(q.contents), q.cap, pkt)
        decreases todo
      {
        var id :| id in todo;
        OfferTo(id, pkt);
        todo := todo - {id};
      }
    }

    method NextPacket() returns (pkt: Option<InboundPacket>)
      requires Wired()
      modifies inbound
      ensures Wired()
      ensures pkt == if old(inbound.contents) == [] then None else Some(old(inbound.contents)[0])
      ensures inbound.contents == if old(inbound.contents) == [] then [] else old(inbound.contents)[1..]
      ensures forall id :: id in subscribers ==>
                subscribers[id].queue.contents == old(subscribers[id].queue.contents)
    {
      pkt := inbound.TryReceive();
    }

    /** The dispatcher's loop until nothing is queued: every queue takes one whole offer after the other. */
    method DispatchAll()
      requires Wired()
      modifies inbound
      modifies set id | id in subscribers :: subscribers[id].queue
      modifies set id | id in subscribers :: subscribers[id].queue.data
      ensures Wired() && inbound.contents == []
      ensures forall id :: id in subscribers ==>
                var q := subscribers[id].queue;
                q.contents == DropOldest.OfferAll(old(q.contents), q.cap, old(inbound.contents))
    {
      hide Wired;
      ghost var all := inbound.contents;
      ghost var done: nat := 0;
      assert all[..0] == [];
      while true
        invariant Wired() && done <= |all| && inbound.contents == all[done..]
        invariant forall id :: id in subscribers ==>
                    var q := subscribers[id].queue;
                    q.contents == DropOldest.OfferAll(old(q.contents), q.cap, all[..done])
        decreases |all| - done
      {
        var pkt := NextPacket();
        if pkt.None? {
          break;
        }
        FanOut(pkt.value);
        assert all[..done + 1] == all[..done] + [pkt.value];
        done := done + 1;
      }
      assert all[..done] == all;
    }

    /** In other words, every subscriber is left the newest packets that fit. */
    method Dispatch()
      requires Wired()
      modifies inbound
      modifies set id | id in subscribers :: subscribers[id].queue
      modifies set id | id in subscribers :: subscribers[id].queue.data
      ensures Wired() && inbound.contents == []
      ensures forall id :: id in subscribers ==>
                var q := subscribers[id].queue;
                q.contents == DropOldest.LastN(old(q.contents) + old(inbound.contents), q.cap)
    {
      assert forall id :: id in subscribers ==>
          var q := subscribers[id].queue;
          |q.contents| <= q.cap;
      DispatchAll();
      forall id | id in subscribers
        ensures
          var q := subscribers[id].queue;
          q.contents == DropOldest.LastN(old(q.contents) + old(inbound.contents), q.cap)
      {
        var q := subscribers[id].queue;
        DropOldest.OffersKeepTheNewest(old(q.contents), q.cap, old(inbound.contents));
      }
    }
  }

  // ---------- Manager ----------

  lemma OverwritingForgets<K, V>(m: map<K, V>, k: K, u: V, v: V)
    ensures m[k := u][k := v] == m[k := v]
  {
  }

  ghost predicate Separate(c: Channel<InboundPacket>, d: Channel<InboundPacket>) {
    c != d && c.data != d.data
  }

  /** Every topic and every subscriber has a queue of its own. */
  ghost predicate Apart(owned: set<Topic>, members: set<SubscriberSession>) {
    && (forall t, u :: t in owned && u in owned && t != u ==> Separate(t.inbound, u.inbound))
    && (forall m, n :: m in members && n in members && m != n ==> Separate(m.queue, n.queue))
    && (forall t, m :: t in owned && m in members ==> Separate(t.inbound, m.queue))
  }

  class Manager {
    const cfg: Registry.Config
    const rt: Runtime
    var topics: map<string, Topic>
    var publisherCount: int
    ghost var states: map<string, Registry.TopicState>   // what the topics hold
    ghost var owned: set<Topic>                          // the topics ever made
    ghost var members: set<SubscriberSession>            // the subscribers ever accepted
    ghost var queues: set<Channel<InboundPacket>>        // the queues of both
    ghost var cells: set<array<InboundPacket>>           // and where these keep their packets

    /** A topic is stored under its own name, so no two entries are the same object. */
    ghost predicate Valid()
      reads this`topics, this`states, this`owned, this`members, owned
    {
      && states.Keys == topics.Keys
      && (forall n :: n in topics ==> topics[n] in owned && Knows(n, topics[n], states[n]))
    }

    /** The topic of that name, what it holds, that its subscribers are known, and how many packets it can queue. */
    ghost predicate Knows(n: string, t: Topic, state: Registry.TopicState)
      reads this`members, t
    {
      && t.name == n && t.Valid() && t.Abs() == state && t.joined <= members
      && t.inbound.cap == cfg.publisherQueueSize
    }

    /** The queues of all topics and subscribers are in order, and no two share memory. */
    ghost predicate WiredAll()
      reads this`owned, this`members, this`queues, this`cells, queues, cells
    {
      && Apart(owned, members)
      && (forall t :: t in owned ==> InUse(t.inbound))
      && (forall m :: m in members ==> InUse(m.queue))
    }

    /** Queues come into use only when they are made. */
    twostate predicate OnlyNewQueues()
      reads this
    {
      && old(queues) <= queues && (forall c :: c in queues && c !in old(queues) ==> fresh(c))
      && old(cells) <= cells && (forall a :: a in cells && a !in old(cells) ==> fresh(a))
    }

    ghost predicate InUse(c: Channel<InboundPacket>)
      reads this`queues, this`cells, queues, cells
    {
      c in queues && c.data in cells && c.Valid()
    }

    ghost function Abs(): Registry.State
      reads this`publisherCount, this`states, rt
    {
      Registry.State(cfg, states, publisherCount, rt.world)
    }

    constructor (cfg: Registry.Config)
      ensures Valid() && WiredAll() && fresh(rt) && topics == map[] && owned == {} && members == {}
      ensures queues == {} && cells == {}
      ensures Abs() == Registry.Init(cfg)
    {
      this.cfg, topics, publisherCount, states, owned, members := cfg, map[], 0, map[], {}, {};
      queues, cells := {}, {};
      rt := new Runtime();
    }

    /** A queue that shares nothing with those in use. */
    ghost predicate IsNew(c: Channel<InboundPacket>)
      reads this`owned, this`members
    {
      && (forall t :: t in owned ==> Separate(t.inbound, c))
      && (forall m :: m in members ==> Separate(m.queue, c))
    }

    ghost method AdoptTopic(t: Topic)
      modifies this`owned, this`queues, this`cells
      ensures owned == old(owned) + {t}
      ensures queues == old(queues) + {t.inbound} && cells == old(cells) + {t.inbound.data}
      ensures WiredAll() || !old(WiredAll() && IsNew(t.inbound) && t.inbound.Valid())
    {
      ghost var wired, fits := WiredAll(), IsNew(t.inbound) && t.inbound.Valid();
      owned, queues, cells := owned + {t}, queues + {t.inbound}, cells + {t.inbound.data};
      if wired && fits {
        assert Apart(owned, members);
        StaysInUse();
      }
    }

    ghost method AdoptMember(m: SubscriberSession)
      modifies this`members, this`queues, this`cells
      ensures members == old(members) + {m}
      ensures queues == old(queues) + {m.queue} && cells == old(cells) + {m.queue.data}
      ensures WiredAll() || !old(WiredAll() && HasOwnQueue(m))
      ensures Valid() || !old(Valid())
    {
      hide Valid, Knows;
      ghost var wired, fits := WiredAll(), HasOwnQueue(m);
      members, queues, cells := members + {m}, queues + {m.queue}, cells + {m.queue.data};
      if wired && fits {
        assert Apart(owned, members);
        StaysInUse();
      }
      if old(Valid()) {
        MoreMembers();
      }
    }

    twostate lemma MoreMembers()
      requires old(Valid()) && topics == old(topics) && states == old(states) && owned == old(owned)
      requires old(members) <= members && forall t :: t in owned ==> unchanged(t)
      ensures Valid()
    {
      forall n | n in topics
        ensures Knows(n, topics[n], states[n])
      {
        assert old(Knows(n, topics[n], states[n]));
      }
    }

    twostate lemma StaysInUse()
      requires old(WiredAll()) && old(queues) <= queues && old(cells) <= cells
      requires (forall c :: c in old(queues) ==> unchanged(c)) && (forall a :: a in old(cells) ==> unchanged(a))
      ensures forall t :: t in old(owned) ==> InUse(t.inbound)
      ensures forall m :: m in old(members) ==> InUse(m.queue)
    {
      forall t | t in old(owned)
        ensures InUse(t.inbound)
      {
        assert old(InUse(t.inbound));
      }
      forall m | m in old(members)
        ensures InUse(m.queue)
      {
        assert old(InUse(m.queue));
      }
    }

    /** Queues that nobody touches stay in order. */
    twostate lemma StillWired()
      requires owned == old(owned) && members == old(members) && queues == old(queues) && cells == old(cells)
      requires (forall c :: c in queues ==> unchanged(c)) && (forall a :: a in cells ==> unchanged(a))
      ensures WiredAll() == old(WiredAll())
    {
      assert forall c :: c in queues && c.data in cells ==> c.Valid() == old(c.Valid());
    }

    /** What the manager does not own may change freely. */
    twostate lemma StillValid()
      requires old(Valid()) && unchanged(this) && forall t :: t in owned ==> unchanged(t)
      ensures Valid()
    {
    }

    lemma TopicIsWired(name: string)
      requires Valid() && WiredAll() && name in topics
      ensures topics[name].Wired()
    {
      var t := topics[name];
      forall a, b | a in t.subscribers && b in t.subscribers && a != b
        ensures Separate(t.subscribers[a].queue, t.subscribers[b].queue)
      {
        assert t.keys[a].id != t.keys[b].id;
      }
    }

    /** Changing one topic, or adding it, and noting its new state keeps the manager in order. */
    twostate lemma ValidAfter(name: string)
      requires old(Valid()) && name in topics && topics[name] in owned
      requires topics == old(topics)[name := topics[name]] && old(owned) <= owned && old(members) <= members
      requires forall t :: t in old(owned) && t != topics[name] ==> unchanged(t)
      requires states == old(states)[name := topics[name].Abs()] && Knows(name, topics[name], states[name])
      ensures Valid()
    {
      forall n | n in topics && n != name
        ensures topics[n] in owned && Knows(n, topics[n], states[n])
      {
        assert old(Knows(n, topics[n], states[n]));
        assert topics[n] != topics[name];
      }
    }

    method CreateTopic(name: string)
      requires Valid() && name !in topics
      modifies this`topics, this`states, this`owned, this`queues, this`cells
      ensures Valid() && name in topics && fresh(topics[name])
      ensures topics == old(topics)[name := topics[name]] && owned == old(owned) + {topics[name]}
      ensures states == old(states)[name := Registry.NEW_TOPIC]
      ensures topics[name].inbound.contents == []
      ensures (WiredAll() || !old(WiredAll())) && OnlyNewQueues()
    {
      hide Valid, WiredAll;
      var t := new Topic(name, cfg.publisherQueueSize);
      StillWired();
      AdoptTopic(t);
      label adopted:
      topics, states := topics[name := t], states[name := t.Abs()];
      ValidAfter(name);
      StillWired@adopted();
    }

    method SetPublisherOf(t: Topic, pub: Session)
      requires t.Valid()
      modifies rt, t`publisher, t`graceTimer
      ensures t.Valid()
      ensures
        var (w, t') := Registry.SetPublisher(old(rt.world), old(t.Abs()), pub);
        && rt.world == Registry.CountPublisher(w, pub.serial, Registry.AsPublisher(t.name))
        && t.Abs() == t'
    {
      t.SetPublisher(rt, pub);
      rt.AddActivePublishers(1);
      rt.RecordPlace(pub.serial, Registry.AsPublisher(t.name));
    }

    method AdmitTo(name: string, pub: Session)
      requires Valid() && name in topics
      modifies this`states, rt, topics[name]
      ensures Valid()
      ensures
        var (w, t) := Registry.SetPublisher(old(rt.world), old(states)[name], pub);
        && rt.world == Registry.CountPublisher(w, pub.serial, Registry.AsPublisher(name))
        && states == old(states)[name := t]
      ensures WiredAll() == old(WiredAll())
    {
      SetPublisherOf(topics[name], pub);
      states := states[name := topics[name].Abs()];
      ValidAfter(name);
      StillWired();
    }

    method FindOrCreateTopic(name: string)
      requires Valid()
      modifies this`topics, this`states, this`owned, this`queues, this`cells
      ensures Valid() && (WiredAll() || !old(WiredAll())) && OnlyNewQueues() && name in topics
      ensures old(owned) <= owned && fresh(owned - old(owned))
      ensures states == if name in old(states) then old(states) else old(states)[name := Registry.NEW_TOPIC]
      ensures name !in old(topics) ==> topics[name].inbound.contents == []
    {
      if name !in topics {
        CreateTopic(name);
      }
    }

    /** The topic is created first if there is none of that name. */
    method Admit(name: string, pub: Session)
      requires Valid()
      modifies this`topics, this`states, this`owned, this`queues, this`cells, rt, owned
      ensures Valid() && (WiredAll() || !old(WiredAll())) && OnlyNewQueues()
      ensures old(owned) <= owned && fresh(owned - old(owned))
      ensures
        var t0 := if name in old(states) then old(states)[name] else Registry.NEW_TOPIC;
        var (w, t) := Registry.SetPublisher(old(rt.world), t0, pub);
        && rt.world == Registry.CountPublisher(w, pub.serial, Registry.AsPublisher(name))
        && states == old(states)[name := t]
      ensures name !in old(topics) ==> name in topics && topics[name].inbound.contents == []
    {
      hide Valid, WiredAll;
      ghost var t0 := if name in states then states[name] else Registry.NEW_TOPIC;
      FindOrCreateTopic(name);
      assert states[name] == t0;
      AdmitTo(name, pub);
      OverwritingForgets(old(states), name, t0, topics[name].Abs());
    }

    method RegisterPublisher(name: string, pub: Session) returns (err: Option<Registry.Error>)
      requires Valid()
      modifies this, rt, owned
      ensures Valid() && (WiredAll() || !old(WiredAll())) && OnlyNewQueues()
      ensures old(owned) <= owned && fresh(owned - old(owned)) && members == old(members)
      ensures
        var r := Registry.RegisterPublisher(old(Abs()), name, pub);
        Abs() == Registry.After(old(Abs()), r) && err == Registry.ErrorOf(r)
      ensures err.None? && name !in old(topics) ==> name in topics && topics[name].inbound.contents == []
    {
      hide Valid, WiredAll;
      Registry.RegisterPublisherFields(Abs(), name, pub);
      err := PublisherRefusal(name);
      if err.None? {
        Admit(name, pub);
        label admitted:
        publisherCount := publisherCount + 1;
        StillWired@admitted();
      }
    }

    method PublisherRefusal(name: string) returns (err: Option<Registry.Error>)
      requires Valid()
      ensures err == if cfg.maxPublishers > 0 && publisherCount >= cfg.maxPublishers then Some(Registry.MaxPublishers)
                     else if name in states && states[name].publisher.Some? then Some(Registry.TopicHasPublisher)
                     else None
    {
      if cfg.maxPublishers > 0 && publisherCount >= cfg.maxPublishers {
        return Some(Registry.MaxPublishers);
      }
      return if name in topics && topics[name].publisher.Some? then Some(Registry.TopicHasPublisher) else None;
    }

    method SetTopicStream(name: string, st: nat)
      requires Valid()
      modifies this`states, owned
      ensures Valid() && Abs() == Registry.SetTopicStream(old(Abs()), name, st)
    {
      if name in topics {
        topics[name].SetStream(st);
        states := states[name := topics[name].Abs()];
        ValidAfter(name);
      }
    }

    method GetTopicStream(name: string) returns (st: Option<nat>)
      requires Valid()
      ensures st == Sessions.StreamOf(Abs(), name)
    {
      st := if name in topics then topics[name].stream else None;
    }

    method UnregisterPublisher(name: string)
      requires Valid()
      modifies this`publisherCount, this`states, rt, owned
      ensures Valid() && Abs() == Registry.UnregisterPublisher(old(Abs()), name)
    {
      hide Registry.RemovePublisher, Registry.UncountPublisher;
      if name in topics {
        Registry.UnregisterPublisherFields(Abs(), name);
        RemovePublisherOf(topics[name]);
        if publisherCount > 0 {
          publisherCount := publisherCount - 1;
        }
        states := states[name := topics[name].Abs()];
        ValidAfter(name);
      }
    }

    method RemovePublisherOf(t: Topic)
      requires t.Valid()
      modifies rt, t`publisher, t`stream, t`graceTimer
      ensures t.Valid()
      ensures
        var (w, t') := Registry.RemovePublisher(old(rt.world), t.name, old(t.Abs()));
        rt.world == Registry.UncountPublisher(w) && t.Abs() == t'
    {
      t.RemovePublisher(rt);
      rt.AddActivePublishers(-1);
    }

    ghost predicate HasOwnQueue(sub: SubscriberSession)
      reads this`owned, this`members, sub.queue, sub.queue.data
    {
      (sub in members || IsNew(sub.queue)) && sub.queue.Valid()
    }

    method RegisterSubscriber(name: string, sub: SubscriberSession) returns (err: Option<Registry.Error>)
      requires Valid()
      modifies this`states, this`members, this`queues, this`cells, rt, owned
      ensures Valid() && (WiredAll() || !old(WiredAll() && HasOwnQueue(sub)))
      ensures old(queues) <= queues <= old(queues) + {sub.queue} && old(cells) <= cells <= old(cells) + {sub.queue.data}
      ensures
        var r := Registry.RegisterSubscriber(old(Abs()), name, sub.Key());
        Abs() == Registry.After(old(Abs()), r) && err == Registry.ErrorOf(r)
      ensures err.None? ==> name in topics && topics[name].subscribers == old(topics[name].subscribers)[sub.id := sub]
    {
      hide Valid, WiredAll;
      err := SubscriberRefusal(name);
      if err.None? {
        Registry.RegisterSubscriberFields(Abs(), name, sub.Key());
        Enlist(name, sub);
      }
    }

    method SubscriberRefusal(name: string) returns (err: Option<Registry.Error>)
      requires Valid()
      ensures err.None? ==> name in topics && topics[name] in owned
      ensures err == if name !in states then Some(Registry.NoActivePublisher)
                     else if |states[name].subscribers| >= cfg.maxSubscribersPerTopic
                     then Some(Registry.TopicMaxSubscribers)
                     else None
    {
      if name !in topics {
        return Some(Registry.NoActivePublisher);
      }
      topics[name].SizeOfKeys();
      if |topics[name].subscribers| >= cfg.maxSubscribersPerTopic {
        return Some(Registry.TopicMaxSubscribers);
      }
      return None;
    }

    method Enlist(name: string, sub: SubscriberSession)
      requires Valid() && name in topics
      modifies this`states, this`members, this`queues, this`cells, rt
      modifies topics[name]
      ensures Valid() && (WiredAll() || !old(WiredAll() && HasOwnQueue(sub)))
      ensures
        var (w, t) := Registry.AddSubscriber(old(rt.world), old(states)[name], sub.Key());
        && rt.world == Registry.CountSubscriber(w, sub.serial, Registry.AsSubscriber(name, sub.id))
        && states == old(states)[name := t]
      ensures queues == old(queues) + {sub.queue} && cells == old(cells) + {sub.queue.data}
      ensures topics[name].subscribers == old(topics[name].subscribers)[sub.id := sub]
    {
      hide Valid, WiredAll;
      AdoptMember(sub);
      assert rt.world == old(rt.world) && states == old(states);
      AddEntry(name, sub);
    }

    method AddEntry(name: string, sub: SubscriberSession)
      requires Valid() && name in topics && sub in members
      modifies this`states, rt, topics[name]
      ensures Valid()
      ensures
        var (w, t) := Registry.AddSubscriber(old(rt.world), old(states)[name], sub.Key());
        && rt.world == Registry.CountSubscriber(w, sub.serial, Registry.AsSubscriber(name, sub.id))
        && states == old(states)[name := t]
      ensures WiredAll() == old(WiredAll())
      ensures topics[name].subscribers == old(topics[name].subscribers)[sub.id := sub]
    {
      hide WiredAll, Registry.AddSubscriber, Registry.CountSubscriber;
      AddSubscriberTo(topics[name], sub);
      states := states[name := topics[name].Abs()];
      ValidAfter(name);
      StillWired();
    }

    method AddSubscriberTo(t: Topic, sub: SubscriberSession)
      requires t.Valid()
      modifies rt, t`subscribers, t`keys, t`joined
      ensures t.Valid()
      ensures
        var (w, t') := Registry.AddSubscriber(old(rt.world), old(t.Abs()), sub.Key());
        && rt.world == Registry.CountSubscriber(w, sub.serial, Registry.AsSubscriber(t.name, sub.id))
        && t.Abs() == t'
      ensures t.joined == old(t.joined) + {sub} && t.subscribers == old(t.subscribers)[sub.id := sub]
    {
      t.AddSubscriber(rt, sub);
      rt.AddActiveSubscribers(1);
      rt.RecordPlace(sub.serial, Registry.AsSubscriber(t.name, sub.id));
    }

    method UnregisterSubscriber(name: string, id: string)
      requires Valid()
      modifies this`states, rt, owned
      ensures Valid() && Abs() == Registry.UnregisterSubscriber(old(Abs()), name, id)
    {
      if name in topics {
        Registry.UnregisterSubscriberFields(Abs(), name, id);
        RemoveSubscriberFrom(topics[name], id);
        states := states[name := topics[name].Abs()];
        ValidAfter(name);
      }
    }

    method RemoveSubscriberFrom(t: Topic, id: string)
      requires t.Valid()
      modifies rt, t`subscribers, t`keys
      ensures t.Valid()
      ensures
        var (w, t') := Registry.RemoveSubscriber(old(rt.world), old(t.Abs()), id);
        && rt.world == (if id in old(t.keys) then Registry.UncountSubscriber(w) else w)
        && t.Abs() == t'
    {
      hide Registry.RemoveSubscriber;
      Registry.OneSubscriberLess(rt.world, t.Abs(), id);
      var prev := |t.subscribers|;
      t.SizeOfKeys();
      t.RemoveSubscriber(rt, id);
      t.SizeOfKeys();
      if |t.subscribers| < prev {
        rt.AddActiveSubscribers(-1);
      }
    }

    /** The callback of a grace timer that is still armed. */
    method TimerFires(timer: nat)
      requires Valid()
      modifies this`states, rt, owned
      ensures Valid() && Abs() == Registry.Fire(old(Abs()), timer)
    {
      if timer in rt.world.armed {
        var name := rt.world.armed[timer];
        rt.StopTimer(timer);
        CloseByName(name);
      }
    }

    method CloseByName(name: string)
      requires Valid()
      modifies this`states, rt, owned
      ensures Valid() && Abs() == Registry.Close(old(Abs()), name)
    {
      hide Registry.CloseTopic;
      if name in topics {
        topics[name].Close(rt);
        states := states[name := topics[name].Abs()];
        ValidAfter(name);
      }
    }

    /** Every topic is closed once, in the order the map gives them. */
    method Shutdown() returns (ghost order: seq<string>)
      requires Valid()
      modifies this`states, rt, owned
      ensures Valid() && Abs() == Registry.Shutdown(old(Abs()), order)
      ensures forall n :: n in order <==> n in topics
    {
      hide Valid, Registry.Close;
      order := [];
      var todo := topics.Keys;
      while todo != {}
        invariant Valid() && todo <= topics.Keys
        invariant Abs() == Registry.Shutdown(old(Abs()), order)
        invariant forall n :: n in order <==> n in topics && n !in todo
        decreases todo
      {
        var n :| n in todo;
        CloseByName(n);
        assert (order + [n])[..|order|] == order;
        order := order + [n];
        todo := todo - {n};
      }
    }

    /** False if the topic is missing or closed, and otherwise only if its queue cannot hold anything. */
    method PublishPacket(name: string, pkt: InboundPacket) returns (sent: bool)
      requires Valid() && WiredAll()
      modifies if name in topics then {topics[name].inbound} else {}
      modifies if name in topics then {topics[name].inbound.data} else {}
      ensures WiredAll()
      ensures sent == (name in topics && !topics[name].closed && cfg.publisherQueueSize > 0)
      ensures name in topics ==>
                var t := topics[name];
                t.inbound.contents == if t.closed then old(t.inbound.contents)
                                      else DropOldest.Offer(old(t.inbound.contents), cfg.publisherQueueSize, pkt)
    {
      if name !in topics {
        return false;
      }
      TopicIsWired(name);
      sent := topics[name].Publish(pkt);
    }

    /** The topic's dispatcher, until nothing is queued: every subscriber is left the newest packets that fit. */
    method DispatchTopic(t: Topic)
      requires Valid() && WiredAll() && t.name in topics && topics[t.name] == t
      modifies t.inbound
      modifies set id | id in t.subscribers :: t.subscribers[id].queue
      modifies set id | id in t.subscribers :: t.subscribers[id].queue.data
      ensures WiredAll() && t.inbound.contents == []
      ensures forall id :: id in t.subscribers ==>
                t.subscribers[id].queue.contents
                == DropOldest.LastN(old(t.subscribers[id].queue.contents) + old(t.inbound.contents),
                                    t.subscribers[id].queue.cap)
    {
      hide WiredAll, Topic.Wired;
      TopicIsWired(t.name);
      OthersAreSeparate(t);
      t.Dispatch();
      WiredElsewhere(t.name);
    }

    lemma OthersAreSeparate(t: Topic)
      requires Valid() && WiredAll() && t.name in topics && topics[t.name] == t
      ensures forall u :: u in owned && u != t ==>
                && Separate(u.inbound, t.inbound)
                && forall id :: id in t.subscribers ==> Separate(u.inbound, t.subscribers[id].queue)
      ensures forall m :: m in members && m !in t.subscribers.Values ==>
                && Separate(m.queue, t.inbound)
                && forall id :: id in t.subscribers ==> Separate(m.queue, t.subscribers[id].queue)
    {
      assert Knows(t.name, t, states[t.name]);
    }

    /** One topic's queues may change as long as they stay in order. */
    twostate lemma WiredElsewhere(name: string)
      requires old(WiredAll()) && unchanged(this) && name in topics && unchanged(topics[name]) && topics[name].Wired()
      requires forall t :: t in owned && t != topics[name] ==> unchanged(t.inbound) && unchanged(t.inbound.data)
      requires forall m :: m in members && m !in topics[name].subscribers.Values ==>
                 unchanged(m.queue) && unchanged(m.queue.data)
      ensures WiredAll()
    {
      forall m | m in members
        ensures InUse(m.queue)
      {
        assert old(InUse(m.queue));
      }
      forall t | t in owned
        ensures InUse(t.inbound)
      {
        assert old(InUse(t.inbound));
      }
    }
  }

  // ---------- Session handler ----------

  datatype Status = OK | BadRequest | NotFound | UnsupportedTransport | ServiceUnavailable

  class ServerHandler {
    const mgr: Manager
    const cluster: Cluster.Cluster?
    const subscriberQSz: nat := 256
    var sessTopic: map<string, string>
    var sessIsPub: map<string, bool>
    var nextSerial: nat
    var nextStream: nat
    ghost var phase: map<string, Sessions.Phase>

    ghost predicate Valid()
      reads mgr, mgr.owned
    {
      mgr.Valid()
    }

    ghost predicate ClusterValid()
      reads cluster
    {
      cluster != null ==> cluster.Valid()
    }

    ghost function Abs(): Sessions.Sys
      reads this, mgr, mgr.rt
    {
      Sessions.Sys(mgr.Abs(), sessTopic, sessIsPub, phase, nextSerial, nextStream)
    }

    twostate predicate SameSessions()
      reads this
    {
      && sessTopic == old(sessTopic) && sessIsPub == old(sessIsPub) && phase == old(phase)
      && nextSerial == old(nextSerial) && nextStream == old(nextStream)
    }

    /** The ownership test of OnAnnounce and OnSetup. */
    ghost function Owned(): Sessions.Owned
      reads cluster
    {
      if cluster == null then topic => true
      else
        var (hash, nodes, drained, self) := (cluster.hash, cluster.nodes, cluster.Drained(), cluster.self);
        topic => Cluster.OwnerOf(hash, nodes, drained, topic) == self
    }

    constructor (mgr: Manager, cluster: Cluster.Cluster?)
      requires mgr.Valid()
      ensures Valid() && this.mgr == mgr && this.cluster == cluster
      ensures Abs() == Sessions.Sys(mgr.Abs(), map[], map[], map[], 0, 0)
      ensures mgr.Abs() == Registry.Init(mgr.cfg) ==> Abs() == Sessions.Start(mgr.cfg)
    {
      this.mgr, this.cluster := mgr, cluster;
      sessTopic, sessIsPub, nextSerial, nextStream, phase := map[], map[], 0, 0, map[];
    }

    method IsLocal(topic: string) returns (local: bool)
      requires ClusterValid()
      ensures local == Owned()(topic)
      ensures local <==>
                cluster == null
                || Cluster.IsOwner(cluster.hash, cluster.nodes, cluster.Drained(), topic, cluster.self)
    {
      local := true;
      if cluster != null {
        var owner := cluster.Owner(topic);
        local := cluster.IsSelf(owner);
        OwnedIsOwnership(topic);
      }
    }

    /** A node owns a topic if it is the topic's owner, in a cluster, and else always. */
    lemma OwnedIsOwnership(topic: string)
      requires ClusterValid()
      ensures Owned()(topic) <==>
                cluster == null
                || Cluster.IsOwner(cluster.hash, cluster.nodes, cluster.Drained(), topic, cluster.self)
    {
      if cluster != null {
        var owner := Cluster.OwnerOf(cluster.hash, cluster.nodes, cluster.Drained(), topic);
        Cluster.OwnerIsFirstBestLiveNode(cluster.hash, cluster.nodes, cluster.Drained(), topic);
        if Cluster.IsOwner(cluster.hash, cluster.nodes, cluster.Drained(), topic, cluster.self) {
          Cluster.OwnerIsUnique(cluster.hash, cluster.nodes, cluster.Drained(), topic, owner, cluster.self);
        }
      }
    }

    /** The library has opened a session. */
    method OnSessionOpen(id: string)
      requires Valid()
      modifies this`phase
      ensures Valid() && Abs() == Sessions.Step(Owned(), old(Abs()), Sessions.Open(id))
    {
      if id !in phase {
        phase := phase[id := Sessions.Opened];
      }
    }

    method AddPublisher(id: string, topic: string)
      returns (err: Option<Registry.Error>, ghost r: Result<Registry.State, Registry.Error>)
      requires Valid()
      modifies mgr, mgr.rt, mgr.owned
      ensures Valid() && old(mgr.owned) <= mgr.owned && fresh(mgr.owned - old(mgr.owned)) && SameSessions()
      ensures r == Registry.RegisterPublisher(old(mgr.Abs()), topic, Registry.Session(id, nextSerial))
      ensures mgr.Abs() == Registry.After(old(mgr.Abs()), r) && err == Registry.ErrorOf(r)
      ensures (mgr.WiredAll() || !old(mgr.WiredAll())) && mgr.OnlyNewQueues()
    {
      hide Manager.Valid, Manager.WiredAll;
      r := Registry.RegisterPublisher(mgr.Abs(), topic, Registry.Session(id, nextSerial));
      err := mgr.RegisterPublisher(topic, Registry.Session(id, nextSerial));
    }

    method RegisterAnnounced(id: string, topic: string)
      returns (status: Status, ghost r: Result<Registry.State, Registry.Error>)
      requires Valid() && id in phase && phase[id].Opened?
      modifies this`nextSerial, this`phase, mgr, mgr.rt, mgr.owned
      ensures Valid() && old(mgr.owned) <= mgr.owned && fresh(mgr.owned - old(mgr.owned))
      ensures r == Registry.RegisterPublisher(old(mgr.Abs()), topic, Registry.Session(id, old(nextSerial)))
      ensures Abs() == Sessions.AnnouncedWith(old(Abs()), id, topic, r)
      ensures status == if r.Ok? then OK else BadRequest
      ensures (mgr.WiredAll() || !old(mgr.WiredAll())) && mgr.OnlyNewQueues()
    {
      hide Manager.Valid, Manager.WiredAll;
      var err;
      err, r := AddPublisher(id, topic);
      assert Abs() == old(Abs()).(m := Registry.After(old(mgr.Abs()), r));
      Advance(id, if err.None? then Some(Sessions.Registered(topic)) else None);
      status := if err.None? then OK else BadRequest;
    }

    method AttachAnnounced(id: string, topic: string)
      requires Valid() && id in phase
      modifies this`nextStream, this`phase, mgr`states, mgr.rt, mgr.owned
      ensures Valid() && Abs() == Sessions.AttachStream(old(Abs()), id, topic)
      ensures mgr.WiredAll() == old(mgr.WiredAll())
    {
      var st := nextStream;
      nextStream := nextStream + 1;
      mgr.rt.OpenStream(st);
      mgr.StillValid();
      mgr.SetTopicStream(topic, st);
      label attached:
      phase := phase[id := Sessions.Streaming(topic)];
      mgr.StillValid@attached();
      mgr.StillWired();
    }

    method StoreEntry(id: string, topic: string, isPub: bool)
      requires Valid() && id in phase
      modifies this`sessTopic, this`sessIsPub, this`phase
      ensures Valid() && Abs() == Sessions.Store(old(Abs()), id, topic, isPub)
      ensures mgr.WiredAll() == old(mgr.WiredAll())
    {
      sessTopic := sessTopic[id := topic];
      sessIsPub := sessIsPub[id := isPub];
      phase := phase[id := if isPub then Sessions.Publishing(topic) else Sessions.Playing(topic)];
      mgr.StillValid();
      mgr.StillWired();
    }

    /** The checks of OnAnnounce in their order, and the registration. */
    method TryAnnounce(id: string, path: string) returns (status: Status)
      requires Valid() && ClusterValid() && id in phase && phase[id].Opened?
      modifies this`nextSerial, this`phase, mgr, mgr.rt, mgr.owned
      ensures Valid() && old(mgr.owned) <= mgr.owned && fresh(mgr.owned - old(mgr.owned))
      ensures Abs() == old(Sessions.Announce(Owned(), Abs(), id, path))
      ensures id in phase && phase[id] == if status == OK then Sessions.Registered(TrimSlash(path)) else Sessions.Opened
      ensures
        var topic := TrimSlash(path);
        status == if !old(Owned())(topic) then ServiceUnavailable
                  else if Sessions.ValidName(topic) && Sessions.Admits(old(mgr.Abs()), topic) then OK
                  else BadRequest
      ensures (mgr.WiredAll() || !old(mgr.WiredAll())) && mgr.OnlyNewQueues()
    {
      hide Manager.Valid, Manager.WiredAll;
      var topic := TrimSlash(path);
      var local := IsLocal(topic);
      if !local {
        status := ServiceUnavailable;
      } else if !Sessions.ValidName(topic) {
        status := BadRequest;
      } else {
        ghost var r;
        status, r := RegisterAnnounced(id, topic);
      }
    }

    method FinishAnnounce(id: string, topic: string)
      requires Valid() && id in phase
      modifies this`nextStream, this`sessTopic, this`sessIsPub, this`phase, mgr`states, mgr.rt, mgr.owned
      ensures Valid() && id in phase && phase[id] == Sessions.Publishing(topic)
      ensures Abs() == old(Sessions.Store(Sessions.AttachStream(Abs(), id, topic), id, topic, true))
      ensures mgr.WiredAll() == old(mgr.WiredAll())
    {
      hide Manager.Valid, Manager.WiredAll;
      AttachAnnounced(id, topic);
      StoreEntry(id, topic, true);
    }

    method OnAnnounce(id: string, path: string) returns (status: Status)
      requires Valid() && ClusterValid() && id in phase && phase[id].Opened?
      modifies this, mgr, mgr.rt, mgr.owned
      ensures Valid() && old(mgr.owned) <= mgr.owned && fresh(mgr.owned - old(mgr.owned))
      ensures Abs() == old(Sessions.Run(Owned(), Abs(), [Sessions.AnnounceRegister(id, path),
                                                         Sessions.AnnounceStream(id), Sessions.AnnounceStore(id)]))
      ensures id in phase && (status == OK <==> phase[id] == Sessions.Publishing(TrimSlash(path)))
      ensures
        var topic := TrimSlash(path);
        status == if !old(Owned())(topic) then ServiceUnavailable
                  else if Sessions.ValidName(topic) && Sessions.Admits(old(mgr.Abs()), topic) then OK
                  else BadRequest
      ensures (mgr.WiredAll() || !old(mgr.WiredAll())) && mgr.OnlyNewQueues()
    {
      hide Manager.Valid, Manager.WiredAll;
      Sessions.AnnounceInOneGo(Owned(), Abs(), id, path);
      status := TryAnnounce(id, path);
      if status == OK {
        FinishAnnounce(id, TrimSlash(path));
      }
    }

    /** A subscriber session with an empty queue of its own. */
    method NewSubscriber(id: string, serial: nat) returns (sub: SubscriberSession)
      requires Valid()
      ensures Valid() && mgr.WiredAll() == old(mgr.WiredAll()) && mgr.Abs() == old(mgr.Abs())
      ensures sub.Key() == Registry.Session(id, serial) && mgr.HasOwnQueue(sub)
      ensures fresh(sub.queue) && fresh(sub.queue.data) && sub.queue.cap == 256 && sub.queue.contents == []
    {
      sub := new SubscriberSession(id, serial, subscriberQSz);
      mgr.StillValid();
      mgr.StillWired();
    }

    method Subscribe(id: string, serial: nat, topic: string)
      returns (err: Option<Registry.Error>, ghost r: Result<Registry.State, Registry.Error>)
      requires Valid()
      modifies mgr`states, mgr`members, mgr`queues, mgr`cells, mgr.rt, mgr.owned
      ensures Valid() && SameSessions()
      ensures r == Registry.RegisterSubscriber(old(mgr.Abs()), topic, Registry.Session(id, serial))
      ensures mgr.Abs() == Registry.After(old(mgr.Abs()), r) && err == Registry.ErrorOf(r)
      ensures (mgr.WiredAll() || !old(mgr.WiredAll())) && mgr.OnlyNewQueues()
      ensures err.None? ==>
                && topic in mgr.topics && id in mgr.topics[topic].subscribers
                && var q := mgr.topics[topic].subscribers[id].queue;
                fresh(q) && q.cap == 256 && q.contents == []
    {
      hide Manager.Valid, Manager.WiredAll, Registry.RegisterSubscriber;
      r := Registry.RegisterSubscriber(mgr.Abs(), topic, Registry.Session(id, serial));
      var sub := NewSubscriber(id, serial);
      err := mgr.RegisterSubscriber(topic, sub);
      forall c | c in mgr.queues && c !in old(mgr.queues)
        ensures fresh(c)
      {
        assert c == sub.queue;
      }
      forall a | a in mgr.cells && a !in old(mgr.cells)
        ensures fresh(a)
      {
        assert a == sub.queue.data;
      }
    }

    /** The session takes the next serial and, if it was accepted, goes on to phase p. */
    method Advance(id: string, ghost p: Option<Sessions.Phase>)
      requires Valid()
      modifies this`nextSerial, this`phase
      ensures Valid() && Abs() == Sessions.Advanced(old(Abs()), id, p)
      ensures mgr.WiredAll() == old(mgr.WiredAll())
    {
      nextSerial := nextSerial + 1;
      if p.Some? {
        phase := phase[id := p.value];
      }
      mgr.StillValid();
      mgr.StillWired();
    }

    method RegisterPlaying(id: string, topic: string)
      returns (status: Status, ghost r: Result<Registry.State, Registry.Error>)
      requires Valid() && id in phase && (phase[id].Opened? || phase[id].Playing?)
      modifies this`nextSerial, this`phase, mgr`states, mgr`members, mgr`queues, mgr`cells, mgr.rt, mgr.owned
      ensures Valid()
      ensures r == Registry.RegisterSubscriber(old(mgr.Abs()), topic, Registry.Session(id, old(nextSerial)))
      ensures Abs() == Sessions.PlayedWith(old(Abs()), id, topic, r)
      ensures status == if r.Ok? then OK else ServiceUnavailable
      ensures
        status == if && topic in old(mgr.states)
                     && |old(mgr.states)[topic].subscribers| < mgr.cfg.maxSubscribersPerTopic
                  then OK else ServiceUnavailable
      ensures (mgr.WiredAll() || !old(mgr.WiredAll())) && mgr.OnlyNewQueues()
      ensures status == OK ==>
                && topic in mgr.topics && id in mgr.topics[topic].subscribers
                && var q := mgr.topics[topic].subscribers[id].queue;
                fresh(q) && q.cap == 256 && q.contents == []
    {
      hide Manager.Valid, Manager.WiredAll;
      var err;
      err, r := Subscribe(id, nextSerial, topic);
      assert Abs() == old(Abs()).(m := Registry.After(old(mgr.Abs()), r));
      Advance(id, if err.None? then Some(Sessions.Joined(topic)) else None);
      status := if err.None? then OK else ServiceUnavailable;
    }

    method OnPlay(id: string, path: string) returns (status: Status)
      requires Valid() && id in phase && (phase[id].Opened? || phase[id].Playing?)
      modifies this, mgr`states, mgr`members, mgr`queues, mgr`cells, mgr.rt, mgr.owned
      ensures Valid()
      ensures Abs() == old(Sessions.Run(Owned(), Abs(), [Sessions.PlayRegister(id, path), Sessions.PlayStore(id)]))
      ensures id in phase && (status == OK ==> phase[id] == Sessions.Playing(TrimSlash(path)))
      ensures
        var topic := TrimSlash(path);
        status == if topic in old(mgr.states) && |old(mgr.states)[topic].subscribers| < mgr.cfg.maxSubscribersPerTopic
                  then OK else ServiceUnavailable
      ensures (mgr.WiredAll() || !old(mgr.WiredAll())) && mgr.OnlyNewQueues()
      // An accepted subscriber starts with an empty queue of the handler's size.
      ensures
        var topic := TrimSlash(path);
        status == OK ==>
          && topic in mgr.topics && id in mgr.topics[topic].subscribers
          && var q := mgr.topics[topic].subscribers[id].queue;
          fresh(q) && q.cap == 256 && q.contents == []
    {
      hide Registry.RegisterSubscriber;
      hide Manager.Valid, Manager.WiredAll;
      Sessions.PlayInOneGo(Owned(), Abs(), id, path);
      var topic := TrimSlash(path);
      ghost var r;
      status, r := RegisterPlaying(id, topic);
      if status == OK {
        StoreEntry(id, topic, false);
      }
    }

    /** Read and clear the session's entries; a session without entries reads "" and false. */
    method TakeEntry(id: string) returns (topic: string, isPub: bool)
      requires Valid() && id in phase
      modifies this`sessTopic, this`sessIsPub, this`phase
      ensures Valid() && Abs() == Sessions.Lookup(old(Abs()), id)
      ensures topic == "" ==> id !in phase
      ensures topic != "" ==> id in phase && phase[id] == Sessions.Leaving(topic, isPub)
    {
      topic := if id in sessTopic then sessTopic[id] else "";
      isPub := if id in sessIsPub then sessIsPub[id] else false;
      sessTopic := sessTopic - {id};
      sessIsPub := sessIsPub - {id};
      phase := if topic == "" then phase - {id} else phase[id := Sessions.Leaving(topic, isPub)];
      mgr.StillValid();
    }

    method UnregisterEntry(id: string, topic: string, isPub: bool)
      requires Valid()
      modifies this`phase, mgr`publisherCount, mgr`states, mgr.rt, mgr.owned
      ensures Valid() && id !in phase
      ensures Abs() == Sessions.Unregister(old(Abs()), id, topic, isPub)
    {
      if isPub {
        mgr.UnregisterPublisher(topic);
      } else {
        mgr.UnregisterSubscriber(topic, id);
      }
      label unregistered:
      phase := phase - {id};
      mgr.StillValid@unregistered();
    }

    method OnSessionClose(id: string)
      requires Valid() && id in phase
      requires phase[id].Opened? || phase[id].Publishing? || phase[id].Playing?
      modifies this, mgr`publisherCount, mgr`states, mgr.rt, mgr.owned
      ensures Valid() && id !in phase
      ensures Abs() == old(Sessions.Run(Owned(), Abs(), [Sessions.CloseLookup(id), Sessions.CloseUnregister(id)]))
    {
      hide Manager.Valid, Manager.WiredAll;
      Sessions.CloseInOneGo(Owned(), Abs(), id);
      var topic, isPub := TakeEntry(id);
      if topic == "" {
        return;
      }
      UnregisterEntry(id, topic, isPub);
    }

    method OnSetup(path: string, udp: bool) returns (status: Status)
      requires Valid() && ClusterValid()
      ensures
        var topic := TrimSlash(path);
        status == if !Owned()(topic) then (if udp then UnsupportedTransport else ServiceUnavailable)
                  else if topic in mgr.states && mgr.states[topic].stream.Some? then OK else NotFound
    {
      var topic := TrimSlash(path);
      var local := IsLocal(topic);
      if !local {
        return if udp then UnsupportedTransport else ServiceUnavailable;
      }
      var st := mgr.GetTopicStream(topic);
      return if st.Some? then OK else NotFound;
    }

    /** A packet goes to the session's topic while that has a stream, and then takes one whole offer. */
    method OnPacketRTP(id: string, pkt: InboundPacket) returns (queued: bool)
      requires Valid() && mgr.WiredAll()
      modifies if id in sessTopic && sessTopic[id] in mgr.topics then {mgr.topics[sessTopic[id]].inbound} else {}
      modifies if id in sessTopic && sessTopic[id] in mgr.topics then {mgr.topics[sessTopic[id]].inbound.data} else {}
      ensures
        var target := Sessions.PacketTarget(old(Abs()), id);
        && mgr.WiredAll() && (queued ==> target.Some?)
        && (target.Some? ==>
              var t := mgr.topics[target.value];
              && queued == (!t.closed && mgr.cfg.publisherQueueSize > 0)
              && t.inbound.contents == if t.closed then old(t.inbound.contents)
                                       else DropOldest.Offer(old(t.inbound.contents), mgr.cfg.publisherQueueSize, pkt))
    {
      var topic := if id in sessTopic then sessTopic[id] else "";
      if topic == "" {
        return false;
      }
      var st := mgr.GetTopicStream(topic);
      if st.None? {
        return false;
      }
      queued := mgr.PublishPacket(topic, pkt);
    }
  }

}
