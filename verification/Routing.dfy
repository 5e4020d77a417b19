/**
 Where a client connection ends (pkg/rtspsrv/proxy_listener.go): the listener reads the first request
 line, asks the cluster for the topic's owner, and keeps the connection or forwards it to the owner,
 whose own listener then does the same.
 */
module Routing {

  import opened Option
  import opened Text
  import opened Cluster
  import opened Peek

  /** url.Parse, reduced to the path of a URL that parses. */
  type UrlPath = string -> Option<string>

  // ---------- The topic of a request ----------

  function FirstLine(b: string): string {
    TrimSpace(match LineEnd(b, 0) case Some(e) => b[..e - 1] case None => b)
  }

  /**
   The topic named by the request line. The source splits the line into at most three pieces; the
   second of them is the second piece of the full split.
   */
  function TopicOf(urlPath: UrlPath, b: string): string {
    var parts := Split(FirstLine(b), ' ');
    var path :=
      if |parts| < 2 then ""
      else if "rtsp://" <= parts[1] then
        match urlPath(parts[1]) case Some(p) => p case None => ""
      else parts[1];
    TrimSlash(path)
  }

  const VERSION := "RTSP/1.0"

  /** A request line without its line end. */
  function RequestLine(verb: string, uri: string): string {
    verb + " " + (uri + " " + VERSION)
  }

  predicate Word(s: string) {
    s != "" && forall c :: c in s ==> !IsSpace(c)
  }

  lemma RequestIsOneLine(verb: string, uri: string)
    requires Word(verb) && Word(uri)
    ensures '\n' !in RequestLine(verb, uri) + "\r"
  {
    assert '\n' !in verb && '\n' !in uri && '\n' !in VERSION;
  }

  /** The first newline ends the first line. */
  lemma FirstNewline(line: string, rest: string)
    requires '\n' !in line
    ensures LineEnd(line + "\n" + rest, 0) == Some(|line| + 1)
    ensures (line + "\n" + rest)[..|line|] == line
  {
    var b := line + "\n" + rest;
    assert b[|line|] == '\n' && forall i :: 0 <= i < |line| ==> b[i] == line[i] && line[i] in line;
  }

  lemma TrimCarriageReturn(line: string)
    requires line != "" && !IsSpace(line[0]) && !IsSpace(line[|line| - 1])
    ensures TrimSpace(line + "\r") == line
  {
    assert (line + "\r")[..|line|] == line;
  }

  lemma FirstLineOfRequest(verb: string, uri: string, rest: string)
    requires Word(verb) && Word(uri)
    ensures FirstLine(RequestLine(verb, uri) + "\r" + "\n" + rest) == RequestLine(verb, uri)
  {
    var line := RequestLine(verb, uri);
    RequestIsOneLine(verb, uri);
    FirstNewline(line + "\r", rest);
    assert verb[0] in verb && line[0] == verb[0];
    assert line[|line| - 1] == VERSION[|VERSION| - 1];
    TrimCarriageReturn(line);
  }

  lemma FirstPiece(p: string, sep: string, rest: string)
    requires sep == " " && ' ' !in p
    ensures Split(p + sep + rest, ' ') == [p] + Split(rest, ' ')
  {
    SplitPrefix(p, ' ', rest);
    assert p + sep + rest == p + [' '] + rest;
  }

  lemma PiecesOfLine(verb: string, uri: string, version: string)
    requires ' ' !in verb && ' ' !in uri
    ensures Split(verb + " " + (uri + " " + version), ' ') == [verb, uri] + Split(version, ' ')
  {
    FirstPiece(uri, " ", version);
    FirstPiece(verb, " ", uri + " " + version);
    assert [verb] + ([uri] + Split(version, ' ')) == [verb, uri] + Split(version, ' ');
  }

  lemma PiecesOfRequest(verb: string, uri: string)
    requires Word(verb) && Word(uri)
    ensures Split(RequestLine(verb, uri), ' ') == [verb, uri] + Split(VERSION, ' ')
  {
    PiecesOfLine(verb, uri, VERSION);
  }

  /** A request for a topic, in either form of its URI, is routed by that topic's name. */
  lemma RequestNamesItsTopic(urlPath: UrlPath, verb: string, uri: string, rest: string)
    requires Word(verb) && Word(uri)
    ensures
      var path := if "rtsp://" <= uri then urlPath(uri) else Some(uri);
      TopicOf(urlPath, RequestLine(verb, uri) + "\r" + "\n" + rest) == if path.Some? then TrimSlash(path.value) else ""
  {
    FirstLineOfRequest(verb, uri, rest);
    PiecesOfRequest(verb, uri);
  }

  /** A request for "/name" is routed by the name, whatever follows its first line. */
  lemma RequestForSlashName(urlPath: UrlPath, verb: string, name: string, rest: string)
    requires verb != "" && forall c :: c in verb + name ==> !IsSpace(c)
    ensures TopicOf(urlPath, verb + " " + ("/" + name + " RTSP/1.0") + "\r\n" + rest) == name
  {
    var uri := "/" + name;
    assert Word(verb) && Word(uri) && uri[0] != 'r';
    assert "/" + name + " RTSP/1.0" == uri + " " + VERSION;
    var line := RequestLine(verb, uri);
    assert line + "\r" + "\n" + rest == line + "\r\n" + rest;
    RequestNamesItsTopic(urlPath, verb, uri, rest);
    TrimSlashFindsName(name);
  }

  /** Only the first line counts: up to the first newline, or all there is without one, and without blanks around. */
  lemma FirstLineIsTrimmed(line: string, rest: string)
    requires '\n' !in line
    ensures FirstLine(line + "\n" + rest) == TrimSpace(line) == FirstLine(line)
  {
    FirstNewline(line, rest);
    assert forall i :: 0 <= i < |line| ==> line[i] in line;
  }

  /** Whatever the first line is: its second word names the topic, and without a second word there is none. */
  lemma SecondWordNamesTopic(urlPath: UrlPath, b: string, word: string, uri: string, more: string)
    requires ' ' !in word && ' ' !in uri
    ensures FirstLine(b) == word ==> TopicOf(urlPath, b) == ""
    ensures FirstLine(b) in {word + " " + uri, word + " " + (uri + " " + more)} ==>
              TopicOf(urlPath, b)
              == if !("rtsp://" <= uri) then TrimSlash(uri)
                 else match urlPath(uri) case Some(p) => TrimSlash(p) case None => ""
  {
    SplitPrefix(word, ' ', "");
    SplitPrefix(uri, ' ', "");
    FirstPiece(word, " ", uri);
    PiecesOfLine(word, uri, more);
    assert [word] + [uri] == [word, uri];
  }

  // ---------- One node's decision ----------

  datatype Route = Keep | Forward(node: string)

  function Decide(owner: string, self: string): Route {
    if owner == "" || owner == self then Keep else Forward(owner)
  }

  class ProxyListener {
    const cluster: Cluster?
    const urlPath: UrlPath

    constructor (cluster: Cluster?, urlPath: UrlPath)
      ensures this.cluster == cluster && this.urlPath == urlPath
    {
      this.cluster, this.urlPath := cluster, urlPath;
    }

    ghost function OwnerHere(topic: string): string
      reads this, cluster
    {
      if cluster == null then ""
      else OwnerOf(cluster.hash, cluster.nodes, cluster.Drained(), topic)
    }

    /**
     One round of the accept loop. A kept connection gives the local server the stream as Delivered;
     a forwarded one gives the owner the same: first the bytes in `sent`, then the rest of the connection.
     */
    method Accept(conn: Conn) returns (route: Route, kept: BufferedConn?, sent: string)
      requires cluster != null ==> cluster.Valid()
      requires conn.Valid() && conn.taken == 0
      modifies conn
      ensures
        var b := conn.early[..PeekFrom(conn.early, 0)];
        route == if b == "" || cluster == null then Keep
                 else Decide(OwnerHere(TopicOf(urlPath, b)), cluster.self)
      ensures cluster != null ==>
                forall fabric ::
                  cluster.self in fabric && fabric[cluster.self] == View(cluster.nodes, cluster.Drained()) ==>
                  route == RouteOf(cluster.hash, fabric, urlPath, cluster.self,
                                   Arrival(conn.early, conn.late, conn.chunk))
      ensures route.Keep? ==> kept != null && fresh(kept) && kept.Valid() && sent == ""
                              && kept.Rest() == Delivered(conn.early, conn.late, conn.chunk)
      ensures route.Forward? ==> kept == null && conn.Valid()
                                 && sent + conn.Rest() == Delivered(conn.early, conn.late, conn.chunk)
    {
      var b := PeekHeader(conn);
      kept, sent := null, "";
      if b == "" {
        kept := new BufferedConn(conn, b);
        return Keep, kept, sent;
      }
      var topic := TopicOf(urlPath, b);
      var owner := "";
      if cluster != null {
        owner := cluster.Owner(topic);
      }
      if owner == "" || cluster == null || cluster.IsSelf(owner) {
        kept := new BufferedConn(conn, b);
        return Keep, kept, sent;
      }
      return Forward(owner), null, b;
    }
  }

  /** A node keeps what it owns and what nobody owns, and sends everything else to the owner. */
  lemma KeptOrSentToOwner(hash: Hash, nodes: seq<string>, drained: set<string>, topic: string,
                          self: string, owner: string)
    requires "" !in nodes && IsOwner(hash, nodes, drained, topic, owner)
    ensures Decide(OwnerOf(hash, nodes, drained, topic), self)
            == if owner == self || Names(nodes) <= drained then Keep else Forward(owner)
  {
    OwnerIsFirstBestLiveNode(hash, nodes, drained, topic);
    OwnerIsUnique(hash, nodes, drained, topic, owner, OwnerOf(hash, nodes, drained, topic));
    NoOwnerIffAllDrain(hash, nodes, drained, topic);
  }

  // ---------- The whole cluster ----------

  /** What one node knows: its list of members and which of them drain. The node's name is its key. */
  datatype View = View(nodes: seq<string>, drained: set<string>)

  type Fabric = map<string, View>

  function OwnerAt(hash: Hash, fabric: Fabric, at: string, topic: string): string
    requires at in fabric
  {
    OwnerOf(hash, fabric[at].nodes, fabric[at].drained, topic)
  }

  function RouteAt(hash: Hash, fabric: Fabric, at: string, topic: string): Route
    requires at in fabric
  {
    Decide(OwnerAt(hash, fabric, at, topic), at)
  }

  /** Every listed member is a node of the fabric, under a non-empty name. */
  ghost predicate Closed(fabric: Fabric) {
    forall at :: at in fabric ==> "" !in fabric[at].nodes && Names(fabric[at].nodes) <= fabric.Keys
  }

  /** All nodes name the same members, in any order and as often as they like, and see the same ones draining. */
  ghost predicate Agreed(fabric: Fabric, members: set<string>, drained: set<string>) {
    forall at :: at in fabric ==> Names(fabric[at].nodes) == members && fabric[at].drained == drained
  }

  /** The owner that every member works out, when no two live members tie at the top. */
  ghost predicate CommonOwner(hash: Hash, fabric: Fabric, topic: string, owner: string) {
    && (owner == "" || owner in fabric)
    && forall at :: at in fabric ==> OwnerAt(hash, fabric, at, topic) == owner
  }

  ghost predicate Forwards(hash: Hash, fabric: Fabric, topic: string, trip: seq<string>, i: nat)
    requires i + 1 < |trip| && trip[i] in fabric
  {
    RouteAt(hash, fabric, trip[i], topic) == Forward(trip[i + 1])
  }

  /** The nodes a connection visits, one accept after the other. */
  ghost predicate IsTrip(hash: Hash, fabric: Fabric, topic: string, trip: seq<string>) {
    && trip != []
    && (forall i :: 0 <= i < |trip| ==> trip[i] in fabric)
    && (forall i :: 0 <= i < |trip| - 1 ==> Forwards(hash, fabric, topic, trip, i))
  }

  ghost predicate Arrived(hash: Hash, fabric: Fabric, topic: string, trip: seq<string>) {
    IsTrip(hash, fabric, topic, trip) && RouteAt(hash, fabric, trip[|trip| - 1], topic) == Keep
  }

  lemma AgreementGivesCommonOwner(hash: Hash, fabric: Fabric, members: set<string>, drained: set<string>,
                                  topic: string, at: string)
    requires Closed(fabric) && Agreed(fabric, members, drained) && at in fabric
    requires UniqueTop(hash, members, drained, topic)
    ensures CommonOwner(hash, fabric, topic, OwnerAt(hash, fabric, at, topic))
  {
    NoOwnerIffAllDrain(hash, fabric[at].nodes, drained, topic);
    forall a | a in fabric
      ensures OwnerAt(hash, fabric, a, topic) == OwnerAt(hash, fabric, at, topic)
    {
      SameNamesSameOwner(hash, fabric[a].nodes, fabric[at].nodes, drained, topic);
    }
  }

  lemma TripsUnderCommonOwner(hash: Hash, fabric: Fabric, topic: string, owner: string, trip: seq<string>)
    requires CommonOwner(hash, fabric, topic, owner)
    requires IsTrip(hash, fabric, topic, trip)
    ensures |trip| <= 2
    ensures |trip| == 2 ==> Arrived(hash, fabric, topic, trip)
    ensures Arrived(hash, fabric, topic, trip) ==> trip[|trip| - 1] == if owner == "" then trip[0] else owner
  {
    if |trip| >= 2 {
      assert Forwards(hash, fabric, topic, trip, 0);
      assert RouteAt(hash, fabric, trip[1], topic) == Keep;
      assert |trip| > 2 ==> Forwards(hash, fabric, topic, trip, 1);
    }
  }

  /** A connection is forwarded at most once, and from wherever it starts it ends at the owner. */
  lemma AtMostOneHop(hash: Hash, fabric: Fabric, members: set<string>, drained: set<string>, topic: string,
                     trip: seq<string>)
    requires Closed(fabric) && Agreed(fabric, members, drained)
    requires UniqueTop(hash, members, drained, topic)
    requires IsTrip(hash, fabric, topic, trip)
    ensures |trip| <= 2
    ensures |trip| == 2 ==> Arrived(hash, fabric, topic, trip)
    ensures Arrived(hash, fabric, topic, trip) ==>
              forall at :: at in fabric ==>
                trip[|trip| - 1] == if members <= drained then trip[0] else OwnerAt(hash, fabric, at, topic)
  {
    var start := trip[0];
    AgreementGivesCommonOwner(hash, fabric, members, drained, topic, start);
    NoOwnerIffAllDrain(hash, fabric[start].nodes, drained, topic);
    TripsUnderCommonOwner(hash, fabric, topic, OwnerAt(hash, fabric, start, topic), trip);
  }

  lemma TripExistsUnderCommonOwner(hash: Hash, fabric: Fabric, topic: string, owner: string, start: string)
    returns (trip: seq<string>)
    requires CommonOwner(hash, fabric, topic, owner) && start in fabric
    ensures trip != [] && trip[0] == start && Arrived(hash, fabric, topic, trip)
  {
    trip := if owner == "" || owner == start then [start] else [start, owner];
  }

  /** From every node some trip does arrive. */
  lemma EveryConnectionArrives(hash: Hash, fabric: Fabric, members: set<string>, drained: set<string>, topic: string,
                               start: string)
    requires Closed(fabric) && Agreed(fabric, members, drained) && start in fabric
    requires UniqueTop(hash, members, drained, topic)
    ensures exists trip :: trip != [] && trip[0] == start && Arrived(hash, fabric, topic, trip)
  {
    AgreementGivesCommonOwner(hash, fabric, members, drained, topic, start);
    var trip := TripExistsUnderCommonOwner(hash, fabric, topic, OwnerAt(hash, fabric, start, topic), start);
  }

  /** The same in the words of the hash: no two members score the same for the topic. */
  lemma DistinctScoresRouteOnce(hash: Hash, fabric: Fabric, members: set<string>, drained: set<string>, topic: string,
                                start: string)
    requires Closed(fabric) && Agreed(fabric, members, drained) && start in fabric
    requires DistinctScores(hash, members, topic)
    ensures forall trip :: IsTrip(hash, fabric, topic, trip) ==> |trip| <= 2
    ensures exists trip :: trip != [] && trip[0] == start && Arrived(hash, fabric, topic, trip)
  {
    DistinctScoresGiveUniqueTop(hash, members, drained, topic);
    forall trip | IsTrip(hash, fabric, topic, trip)
      ensures |trip| <= 2
    {
      AtMostOneHop(hash, fabric, members, drained, topic, trip);
    }
    EveryConnectionArrives(hash, fabric, members, drained, topic, start);
  }

  // ---------- The bytes on the way ----------

  /** What one node's listener gets of a connection: bytes before and after the deadline, and how they are cut. */
  datatype Arrival = Arrival(early: string, late: string, chunk: Chunks)

  function Peeked(a: Arrival): string {
    a.early[..PeekFrom(a.early, 0)]
  }

  /** Accept's decision from the bytes alone. */
  function RouteOf(hash: Hash, fabric: Fabric, urlPath: UrlPath, at: string, a: Arrival): Route
    requires at in fabric
  {
    if Peeked(a) == "" then Keep else RouteAt(hash, fabric, at, TopicOf(urlPath, Peeked(a)))
  }

  /** A node that forwards sends the next one what Accept delivers; the network cuts it anew. */
  ghost predicate PassesOn(a: Arrival, next: Arrival) {
    next.early + next.late == Delivered(a.early, a.late, a.chunk)
  }

  ghost predicate IsHop(hash: Hash, fabric: Fabric, urlPath: UrlPath, trip: seq<string>, arrivals: seq<Arrival>, i: nat)
    requires i + 1 < |trip| == |arrivals| && trip[i] in fabric
  {
    && RouteOf(hash, fabric, urlPath, trip[i], arrivals[i]) == Forward(trip[i + 1])
    && PassesOn(arrivals[i], arrivals[i + 1])
  }

  ghost predicate IsJourney(hash: Hash, fabric: Fabric, urlPath: UrlPath, trip: seq<string>, arrivals: seq<Arrival>) {
    && |trip| == |arrivals| > 0
    && (forall i :: 0 <= i < |trip| ==> trip[i] in fabric)
    && (forall i :: 0 <= i < |trip| - 1 ==> IsHop(hash, fabric, urlPath, trip, arrivals, i))
  }

  /** Whatever was peeked begins with the whole first line, which alone decides on the topic. */
  lemma PeekedHasFirstLine(s: string)
    ensures
      var b := s[..PeekFrom(s, 0)];
      if LineEnd(s, 0).None? then b == "" else LineEnd(b, 0) == LineEnd(s, 0) && LineEnd(s, 0).value <= |b|
  {
    if LineEnd(s, 0).Some? {
      var e := LineEnd(s, 0).value;
      var b := s[..PeekFrom(s, 0)];
      assert b[e - 1] == '\n' && forall i :: 0 <= i < e - 1 ==> b[i] == s[i];
    }
  }

  lemma SameFirstLineSameTopic(urlPath: UrlPath, b: string, b': string, e: nat)
    requires LineEnd(b, 0) == Some(e) == LineEnd(b', 0) && b[..e] == b'[..e]
    ensures TopicOf(urlPath, b) == TopicOf(urlPath, b')
  {
    assert b[..e - 1] == b[..e][..e - 1] == b'[..e - 1];
  }

  /** The next node reads the same topic from the bytes passed on to it, or it gets no whole line in time. */
  lemma NextNodeReadsSameTopic(urlPath: UrlPath, a: Arrival, next: Arrival)
    requires PassesOn(a, next) && Peeked(a) != ""
    ensures Peeked(next) == "" || TopicOf(urlPath, Peeked(next)) == TopicOf(urlPath, Peeked(a))
  {
    PeekedHasFirstLine(a.early);
    PeekedHasFirstLine(next.early);
    if Peeked(next) != "" {
      var e := LineEnd(a.early, 0).value;
      FirstLinePassedOn(Peeked(a), Delivered(a.early, a.late, a.chunk), next.early, next.late);
      assert Peeked(next)[..e] == next.early[..e] && Peeked(a)[..e] == a.early[..e];
      SameFirstLineSameTopic(urlPath, Peeked(a), Peeked(next), e);
    }
  }

  lemma FirstLinePassedOn(b: string, stream: string, early: string, late: string)
    requires b <= stream == early + late && LineEnd(b, 0).Some? && LineEnd(early, 0).Some?
    ensures LineEnd(early, 0) == LineEnd(b, 0) && early[..LineEnd(b, 0).value] == b[..LineEnd(b, 0).value]
  {
    var e, e' := LineEnd(b, 0).value, LineEnd(early, 0).value;
    assert forall i :: 0 <= i < |b| ==> stream[i] == b[i];
    assert forall i :: 0 <= i < |early| ==> stream[i] == early[i];
    assert b[e - 1] == '\n' && early[e' - 1] == '\n';
  }

  predicate HandsOn(read: seq<Option<string>>, j: nat)
    requires j + 1 < |read|
  {
    read[j].Some? && (read[j + 1].None? || read[j + 1] == read[j])
  }

  /** What is read once and handed on is the same for everybody who reads anything. */
  lemma {:induction false} HandedOn(read: seq<Option<string>>, i: nat)
    requires i < |read| && read[i].Some?
    requires forall j :: 0 <= j < i ==> HandsOn(read, j)
    ensures read[i] == read[0]
  {
    if i > 0 {
      assert HandsOn(read, i - 1);
      HandedOn(read, i - 1);
    }
  }

  function TopicRead(urlPath: UrlPath, a: Arrival): Option<string> {
    if Peeked(a) == "" then None else Some(TopicOf(urlPath, Peeked(a)))
  }

  function TopicsRead(urlPath: UrlPath, arrivals: seq<Arrival>): (read: seq<Option<string>>)
    ensures |read| == |arrivals| && forall i :: 0 <= i < |read| ==> read[i] == TopicRead(urlPath, arrivals[i])
  {
    seq(|arrivals|, i requires 0 <= i < |arrivals| => TopicRead(urlPath, arrivals[i]))
  }

  lemma HopHandsOn(hash: Hash, fabric: Fabric, urlPath: UrlPath, trip: seq<string>, arrivals: seq<Arrival>, i: nat)
    requires i + 1 < |trip| == |arrivals| && trip[i] in fabric && IsHop(hash, fabric, urlPath, trip, arrivals, i)
    ensures HandsOn(TopicsRead(urlPath, arrivals), i)
  {
    NextNodeReadsSameTopic(urlPath, arrivals[i], arrivals[i + 1]);
  }

  lemma EveryNodeReadsSameTopic(hash: Hash, fabric: Fabric, urlPath: UrlPath, trip: seq<string>,
                                arrivals: seq<Arrival>, i: nat)
    requires IsJourney(hash, fabric, urlPath, trip, arrivals) && i < |trip|
    requires TopicRead(urlPath, arrivals[i]).Some?
    ensures TopicRead(urlPath, arrivals[i]) == TopicRead(urlPath, arrivals[0])
  {
    forall j | 0 <= j < i
      ensures HandsOn(TopicsRead(urlPath, arrivals), j)
    {
      HopHandsOn(hash, fabric, urlPath, trip, arrivals, j);
    }
    HandedOn(TopicsRead(urlPath, arrivals), i);
  }

  /** However the bytes are cut on the way, the journey is a trip for the topic that its first node read. */
  lemma JourneyIsTrip(hash: Hash, fabric: Fabric, urlPath: UrlPath, trip: seq<string>, arrivals: seq<Arrival>)
    requires IsJourney(hash, fabric, urlPath, trip, arrivals)
    ensures IsTrip(hash, fabric, TopicOf(urlPath, Peeked(arrivals[0])), trip)
  {
    var topic := TopicOf(urlPath, Peeked(arrivals[0]));
    forall i | 0 <= i < |trip| - 1
      ensures Forwards(hash, fabric, topic, trip, i)
    {
      assert IsHop(hash, fabric, urlPath, trip, arrivals, i);
      EveryNodeReadsSameTopic(hash, fabric, urlPath, trip, arrivals, i);
    }
  }

  /**
   Under agreement a connection is forwarded at most once, however its bytes are cut on the way, and the node that
   keeps it owns the topic of its request line, unless nobody does or that node got no whole line in time.
   */
  lemma JourneyEndsAtOwner(hash: Hash, fabric: Fabric, members: set<string>, drained: set<string>, urlPath: UrlPath,
                           trip: seq<string>, arrivals: seq<Arrival>)
    requires IsJourney(hash, fabric, urlPath, trip, arrivals)
    requires Closed(fabric) && Agreed(fabric, members, drained)
    requires UniqueTop(hash, members, drained, TopicOf(urlPath, Peeked(arrivals[0])))
    ensures |trip| <= 2
    ensures |trip| == 2 ==> RouteOf(hash, fabric, urlPath, trip[1], arrivals[1]) == Keep
    ensures
      var last := |trip| - 1;
      RouteOf(hash, fabric, urlPath, trip[last], arrivals[last]) == Keep && Peeked(arrivals[last]) != "" ==>
        forall at :: at in fabric ==>
          trip[last] == if members <= drained then trip[0]
                        else OwnerAt(hash, fabric, at, TopicOf(urlPath, Peeked(arrivals[0])))
  {
    var last := |trip| - 1;
    JourneyIsTrip(hash, fabric, urlPath, trip, arrivals);
    AtMostOneHop(hash, fabric, members, drained, TopicOf(urlPath, Peeked(arrivals[0])), trip);
    if Peeked(arrivals[last]) != "" {
      EveryNodeReadsSameTopic(hash, fabric, urlPath, trip, arrivals, last);
    }
  }

  /** The test OnAnnounce and OnSetup make before serving a topic. */
  predicate ServedHere(owner: string, self: string) {
    owner == self
  }

  /** A connection that the listener keeps is refused for ownership exactly when nobody owns the topic. */
  lemma KeptIsServedUnlessAllDrain(hash: Hash, fabric: Fabric, topic: string, at: string)
    requires Closed(fabric) && at in fabric && at != ""
    requires RouteAt(hash, fabric, at, topic) == Keep
    ensures ServedHere(OwnerAt(hash, fabric, at, topic), at)
            <==> !(Names(fabric[at].nodes) <= fabric[at].drained)
  {
    NoOwnerIffAllDrain(hash, fabric[at].nodes, fabric[at].drained, topic);
  }

  const ALL_TIED: Hash := _ => 0

  const TWO_ORDERS: Fabric := map["a" := View(["b", "a"], {}), "b" := View(["a", "b"], {})]

  /** Why ties matter: two nodes that list each other first pass a tied topic to and fro without end. */
  lemma {:induction false} TiedTopicIsPassedForever(n: nat)
    ensures Closed(TWO_ORDERS)
    ensures exists trip :: |trip| == n + 1 && IsTrip(ALL_TIED, TWO_ORDERS, "t", trip)
  {
    assert Names(["b", "a"]) == {"a", "b"} == Names(["a", "b"]);
    var trip := TiedTrip(n);
  }

  lemma FirstOfTiedPair(x: string, y: string)
    requires x != "" && y != ""
    ensures OwnerOf(ALL_TIED, [x, y], {}, "t") == x
  {
    assert Wins(ALL_TIED, [x, y], {}, "t", 0);
    assert x in Names([x, y]);
    OwnerIsFirstBestLiveNode(ALL_TIED, [x, y], {}, "t");
    OwnerIsUnique(ALL_TIED, [x, y], {}, "t", x, OwnerOf(ALL_TIED, [x, y], {}, "t"));
  }

  lemma {:induction false} TiedTrip(n: nat) returns (trip: seq<string>)
    ensures |trip| == n + 1 && trip[0] == (if n % 2 == 0 then "a" else "b")
    ensures IsTrip(ALL_TIED, TWO_ORDERS, "t", trip)
  {
    FirstOfTiedPair("b", "a");
    FirstOfTiedPair("a", "b");
    if n == 0 {
      trip := ["a"];
    } else {
      var rest := TiedTrip(n - 1);
      trip := [if n % 2 == 0 then "a" else "b"] + rest;
      assert forall i :: 1 <= i < n ==> Forwards(ALL_TIED, TWO_ORDERS, "t", rest, i - 1)
                                        == Forwards(ALL_TIED, TWO_ORDERS, "t", trip, i);
    }
  }

}
