/**
 A cluster of nodes, each running the handler and manager of Sessions.dfy with the ownership test of
 pkg/rtspsrv/server.go, while member lists and drain flags stay as they are.
 */
module Federation {

  import opened Cluster
  import opened Routing
  import Registry
  import Sessions

  /** The test that OnAnnounce makes on node `at`. */
  function OwnedAt(hash: Hash, fabric: Fabric, at: string): Sessions.Owned
    requires at in fabric
  {
    topic => ServedHere(OwnerAt(hash, fabric, at, topic), at)
  }

  datatype Event = Event(node: string, local: Sessions.Event)

  type States = map<string, Sessions.Sys>

  function Start(fabric: Fabric, cfg: Registry.Config): States {
    map n | n in fabric :: Sessions.Start(cfg)
  }

  function Step(hash: Hash, fabric: Fabric, states: States, e: Event): States {
    if e.node in fabric && e.node in states then
      states[e.node := Sessions.Step(OwnedAt(hash, fabric, e.node), states[e.node], e.local)]
    else states
  }

  function Run(hash: Hash, fabric: Fabric, states: States, es: seq<Event>): States
    decreases |es|
  {
    if es == [] then states else Run(hash, fabric, Step(hash, fabric, states, es[0]), es[1..])
  }

  /** The events of one node, in order. */
  function LocalEvents(es: seq<Event>, node: string): seq<Sessions.Event>
    decreases |es|
  {
    if es == [] then []
    else if es[0].node == node then [es[0].local] + LocalEvents(es[1..], node)
    else LocalEvents(es[1..], node)
  }

  lemma StepElsewhere(hash: Hash, fabric: Fabric, states: States, es: seq<Event>, node: string)
    requires node in states && es != [] && es[0].node != node
    ensures node in Step(hash, fabric, states, es[0]) && Step(hash, fabric, states, es[0])[node] == states[node]
    ensures LocalEvents(es, node) == LocalEvents(es[1..], node)
  {
  }

  /** Nodes do not disturb each other: each runs its own events as if it were alone. */
  lemma {:induction false} NodeRunsAlone(hash: Hash, fabric: Fabric, states: States, es: seq<Event>, node: string)
    requires node in fabric && node in states
    ensures node in Run(hash, fabric, states, es)
    ensures Run(hash, fabric, states, es)[node]
            == Sessions.Run(OwnedAt(hash, fabric, node), states[node], LocalEvents(es, node))
    decreases |es|
  {
    if es != [] {
      var states' := Step(hash, fabric, states, es[0]);
      assert Run(hash, fabric, states, es) == Run(hash, fabric, states', es[1..]);
      NodeRunsAlone(hash, fabric, states', es[1..], node);
      var rest := LocalEvents(es[1..], node);
      if es[0].node == node {
        Sessions.RunFrom(OwnedAt(hash, fabric, node), states[node], es[0].local, rest, states'[node]);
        assert LocalEvents(es, node) == [es[0].local] + rest;
      } else {
        StepElsewhere(hash, fabric, states, es, node);
      }
    }
  }

  predicate HasPublisher(states: States, node: string, topic: string) {
    node in states && topic in states[node].m.topics && states[node].m.topics[topic].publisher.Some?
  }

  /** A node publishes only what it owns itself, after any events anywhere in the cluster. */
  lemma PublishersSitAtTheirOwner(hash: Hash, fabric: Fabric, cfg: Registry.Config, es: seq<Event>,
                                  node: string, topic: string)
    requires node in fabric
    requires HasPublisher(Run(hash, fabric, Start(fabric, cfg), es), node, topic)
    ensures OwnerAt(hash, fabric, node, topic) == node
  {
    NodeRunsAlone(hash, fabric, Start(fabric, cfg), es, node);
    Sessions.TopicsAreOwned(OwnedAt(hash, fabric, node), cfg, LocalEvents(es, node), topic);
  }

  /** The same local events, all on one node. */
  function Events(node: string, locals: seq<Sessions.Event>): seq<Event> {
    seq(|locals|, i requires 0 <= i < |locals| => Event(node, locals[i]))
  }

  lemma {:induction false} LocalEventsOf(node: string, locals: seq<Sessions.Event>)
    ensures LocalEvents(Events(node, locals), node) == locals
  {
    if locals != [] {
      LocalEventsOf(node, locals[1..]);
      assert Events(node, locals)[1..] == Events(node, locals[1..]);
    }
  }

  /**
   The converse: a topic that may have a publisher gets one on the node where its announce arrives, exactly if that
   node works itself out to be the owner.
   */
  lemma {:induction false} AnnouncedAtTheOwner(hash: Hash, fabric: Fabric, states: States, node: string, id: string,
                                               topic: string)
    requires node in fabric && node in states
    requires id in states[node].phase && states[node].phase[id].Opened?
    requires Sessions.ValidName(topic) && Sessions.Admits(states[node].m, topic)
    ensures
      var announce := [Event(node, Sessions.AnnounceRegister(id, "/" + topic)),
                       Event(node, Sessions.AnnounceStream(id)), Event(node, Sessions.AnnounceStore(id))];
      HasPublisher(Run(hash, fabric, states, announce), node, topic) <==> OwnerAt(hash, fabric, node, topic) == node
  {
    var a, b, c := Sessions.AnnounceRegister(id, "/" + topic), Sessions.AnnounceStream(id), Sessions.AnnounceStore(id);
    var announce := [Event(node, a), Event(node, b), Event(node, c)];
    LocalEventsOf(node, [a, b, c]);
    assert Events(node, [a, b, c]) == announce;
    NodeRunsAlone(hash, fabric, states, announce, node);
    Sessions.AnnouncePublishesIff(OwnedAt(hash, fabric, node), states[node], id, "/" + topic, topic);
  }

  lemma {:induction false} RunKeepsNodes(hash: Hash, fabric: Fabric, states: States, es: seq<Event>)
    requires states.Keys == fabric.Keys
    ensures Run(hash, fabric, states, es).Keys == fabric.Keys
    decreases |es|
  {
    if es != [] {
      RunKeepsNodes(hash, fabric, Step(hash, fabric, states, es[0]), es[1..]);
    }
  }

  /**
   Where all nodes work out the same owner for a topic, it has a publisher on at most one node of the whole
   cluster, and that node is the owner.
   */
  lemma OnePublisherInTheCluster(hash: Hash, fabric: Fabric, cfg: Registry.Config, es: seq<Event>,
                                 topic: string, owner: string, node: string)
    requires CommonOwner(hash, fabric, topic, owner)
    requires HasPublisher(Run(hash, fabric, Start(fabric, cfg), es), node, topic)
    ensures node == owner
  {
    RunKeepsNodes(hash, fabric, Start(fabric, cfg), es);
    PublishersSitAtTheirOwner(hash, fabric, cfg, es, node, topic);
  }

  /** With one member list and one drain set, two nodes never publish the same topic, ties or not. */
  lemma SharedListGivesOnePublisher(hash: Hash, fabric: Fabric, view: View, cfg: Registry.Config, es: seq<Event>,
                                    topic: string, a: string, b: string)
    requires forall n :: n in fabric ==> fabric[n] == view
    requires HasPublisher(Run(hash, fabric, Start(fabric, cfg), es), a, topic)
    requires HasPublisher(Run(hash, fabric, Start(fabric, cfg), es), b, topic)
    ensures a == b == OwnerOf(hash, view.nodes, view.drained, topic)
  {
    RunKeepsNodes(hash, fabric, Start(fabric, cfg), es);
    PublishersSitAtTheirOwner(hash, fabric, cfg, es, a, topic);
    PublishersSitAtTheirOwner(hash, fabric, cfg, es, b, topic);
  }

  /**
   The same when the lists differ in order and repetitions only, and no two live members tie at the top; the one
   node that publishes is the one that all nodes work out as the owner.
   */
  lemma AgreedListsGiveOnePublisher(hash: Hash, fabric: Fabric, members: set<string>, drained: set<string>,
                                    cfg: Registry.Config, es: seq<Event>, topic: string, a: string, b: string)
    requires "" !in members && Agreed(fabric, members, drained) && UniqueTop(hash, members, drained, topic)
    requires HasPublisher(Run(hash, fabric, Start(fabric, cfg), es), a, topic)
    requires HasPublisher(Run(hash, fabric, Start(fabric, cfg), es), b, topic)
    ensures a == b && forall at :: at in fabric ==> OwnerAt(hash, fabric, at, topic) == a
  {
    RunKeepsNodes(hash, fabric, Start(fabric, cfg), es);
    PublishersSitAtTheirOwner(hash, fabric, cfg, es, a, topic);
    PublishersSitAtTheirOwner(hash, fabric, cfg, es, b, topic);
    assert "" !in Names(fabric[a].nodes);
    forall at | at in fabric
      ensures OwnerAt(hash, fabric, at, topic) == a
    {
      SameNamesSameOwner(hash, fabric[a].nodes, fabric[at].nodes, drained, topic);
    }
  }

}
