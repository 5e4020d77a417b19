/**
 The static cluster of pkg/cluster/cluster.go: a list of node names, this node's own name, and a
 flag per node that takes it out of owner selection. Owners are chosen by rendezvous hashing.

 The 64-bit hash is a parameter; nothing below depends on which function it is.
 */
module Cluster {

  import opened Option
  import opened Text

  newtype Score = x: int | 0 <= x < 0x1_0000_0000_0000_0000

  type Hash = string -> Score

  function ScoreOf(hash: Hash, node: string, topic: string): Score {
    hash(node + "|" + topic)
  }

  ghost function Names(nodes: seq<string>): set<string> {
    set n | n in nodes
  }

  /** The owner of a topic, folded over the list from the left. */
  function OwnerOf(hash: Hash, nodes: seq<string>, drained: set<string>, topic: string): (owner: string) {
    if nodes == [] then ""
    else
      var best := OwnerOf(hash, nodes[..|nodes| - 1], drained, topic);
      var n := nodes[|nodes| - 1];
      if n in drained then best
      else if best == "" || ScoreOf(hash, n, topic) > ScoreOf(hash, best, topic) then n
      else best
  }

  /** Position i holds the first of the best-scoring nodes that are not draining. */
  ghost predicate Wins(hash: Hash, nodes: seq<string>, drained: set<string>, topic: string, i: int) {
    && 0 <= i < |nodes|
    && nodes[i] !in drained
    && (forall j :: 0 <= j < |nodes| && nodes[j] !in drained ==>
          hash(nodes[j] + "|" + topic) <= hash(nodes[i] + "|" + topic))
    && (forall j :: 0 <= j < i && nodes[j] !in drained ==>
          hash(nodes[j] + "|" + topic) < hash(nodes[i] + "|" + topic))
  }

  /** What the owner is, without saying how it is found. */
  ghost predicate IsOwner(hash: Hash, nodes: seq<string>, drained: set<string>, topic: string, owner: string) {
    if Names(nodes) <= drained then owner == ""
    else exists i :: Wins(hash, nodes, drained, topic, i) && owner == nodes[i]
  }

  lemma {:induction false} OwnerIsFirstBestLiveNode(hash: Hash, nodes: seq<string>, drained: set<string>, topic: string)
    requires "" !in nodes
    ensures IsOwner(hash, nodes, drained, topic, OwnerOf(hash, nodes, drained, topic))
  {
    if nodes != [] {
      var init, n := nodes[..|nodes| - 1], nodes[|nodes| - 1];
      OwnerIsFirstBestLiveNode(hash, init, drained, topic);
      assert nodes == init + [n];
      assert Names(nodes) == Names(init) + {n};
      var owner := OwnerOf(hash, nodes, drained, topic);
      if Names(nodes) <= drained {
      } else if Names(init) <= drained {
        assert Wins(hash, nodes, drained, topic, |nodes| - 1);
      } else {
        var i :| Wins(hash, init, drained, topic, i) && OwnerOf(hash, init, drained, topic) == init[i];
        assert nodes[i] == init[i];
        if owner == init[i] && (n in drained || ScoreOf(hash, n, topic) <= ScoreOf(hash, init[i], topic)) {
          assert Wins(hash, nodes, drained, topic, i);
        } else {
          assert Wins(hash, nodes, drained, topic, |nodes| - 1);
        }
      }
    }
  }

  lemma OwnerIsUnique(hash: Hash, nodes: seq<string>, drained: set<string>, topic: string, a: string, b: string)
    requires IsOwner(hash, nodes, drained, topic, a) && IsOwner(hash, nodes, drained, topic, b)
    ensures a == b
  {
    if !(Names(nodes) <= drained) {
      var i :| Wins(hash, nodes, drained, topic, i) && a == nodes[i];
      var j :| Wins(hash, nodes, drained, topic, j) && b == nodes[j];
      assert i == j;
    }
  }

  /** No owner exactly when every member drains. */
  lemma NoOwnerIffAllDrain(hash: Hash, nodes: seq<string>, drained: set<string>, topic: string)
    requires "" !in nodes
    ensures OwnerOf(hash, nodes, drained, topic) == "" <==> Names(nodes) <= drained
    ensures OwnerOf(hash, nodes, drained, topic) != "" ==>
              OwnerOf(hash, nodes, drained, topic) in Names(nodes) - drained
  {
    OwnerIsFirstBestLiveNode(hash, nodes, drained, topic);
  }

  /** The hash of node and topic together decides: a live member is not the owner if another scores higher. */
  lemma HigherHashWins(hash: Hash, nodes: seq<string>, drained: set<string>, topic: string, a: string, b: string)
    requires "" !in nodes && b in nodes && b !in drained
    requires hash(a + "|" + topic) < hash(b + "|" + topic)
    ensures OwnerOf(hash, nodes, drained, topic) != a
  {
    OwnerIsFirstBestLiveNode(hash, nodes, drained, topic);
    NoOwnerIffAllDrain(hash, nodes, drained, topic);
    assert b in Names(nodes);
  }

  // ---------- Minimal disruption ----------

  /** Draining more nodes moves only the topics whose owner is among them. */
  lemma DrainingOthersKeepsOwner(hash: Hash, nodes: seq<string>, d: set<string>, d': set<string>, topic: string)
    requires "" !in nodes && d <= d'
    requires OwnerOf(hash, nodes, d, topic) !in d'
    ensures OwnerOf(hash, nodes, d', topic) == OwnerOf(hash, nodes, d, topic)
  {
    var owner := OwnerOf(hash, nodes, d, topic);
    OwnerIsFirstBestLiveNode(hash, nodes, d, topic);
    OwnerIsFirstBestLiveNode(hash, nodes, d', topic);
    if !(Names(nodes) <= d) {
      var i :| Wins(hash, nodes, d, topic, i) && owner == nodes[i];
      assert Wins(hash, nodes, d', topic, i);
      assert owner in Names(nodes);
    }
    OwnerIsUnique(hash, nodes, d', topic, owner, OwnerOf(hash, nodes, d', topic));
  }

  /** Bringing a node back moves topics only to that node. */
  lemma UndrainingMovesOnlyToNode(hash: Hash, nodes: seq<string>, d: set<string>, node: string, topic: string)
    requires "" !in nodes
    ensures OwnerOf(hash, nodes, d - {node}, topic) in {node, OwnerOf(hash, nodes, d, topic)}
  {
    var after := OwnerOf(hash, nodes, d - {node}, topic);
    if after != node {
      NoOwnerIffAllDrain(hash, nodes, d - {node}, topic);
      if after in d {
        assert after == "";
        assert Names(nodes) <= d;
        NoOwnerIffAllDrain(hash, nodes, d, topic);
      } else {
        DrainingOthersKeepsOwner(hash, nodes, d - {node}, d, topic);
      }
    }
  }

  function Inserted(nodes: seq<string>, k: nat, node: string): seq<string>
    requires k <= |nodes|
  {
    nodes[..k] + [node] + nodes[k..]
  }

  /** Inserting a node anywhere in the list moves topics only to that node, ties included. */
  lemma InsertingMovesOnlyToNode(hash: Hash, nodes: seq<string>, k: nat, node: string, d: set<string>, topic: string)
    requires "" !in nodes && node != "" && k <= |nodes|
    ensures OwnerOf(hash, Inserted(nodes, k, node), d, topic) in {node, OwnerOf(hash, nodes, d, topic)}
  {
    var more := Inserted(nodes, k, node);
    OwnerIsFirstBestLiveNode(hash, more, d, topic);
    var owner := OwnerOf(hash, more, d, topic);
    if owner != node {
      OwnerSurvivesRemoval(hash, nodes, k, node, d, topic);
      OwnerIsFirstBestLiveNode(hash, nodes, d, topic);
      OwnerIsUnique(hash, nodes, d, topic, owner, OwnerOf(hash, nodes, d, topic));
    }
  }

  /** Where position j of a list goes when something is inserted at k. */
  function Shifted(k: nat, j: int): int {
    if j < k then j else j + 1
  }

  lemma InsertedAt(nodes: seq<string>, k: nat, node: string, j: nat)
    requires k <= |nodes| && j < |nodes|
    ensures Inserted(nodes, k, node)[Shifted(k, j)] == nodes[j]
  {
  }

  /** The winner among more nodes, unless it is the inserted one, wins without that one. */
  lemma WinnerWithout(hash: Hash, nodes: seq<string>, k: nat, node: string, d: set<string>, topic: string, i: nat)
    requires k <= |nodes| && i < |nodes|
    requires Wins(hash, Inserted(nodes, k, node), d, topic, Shifted(k, i))
    ensures Wins(hash, nodes, d, topic, i)
  {
    forall j: nat | j < |nodes|
      ensures Inserted(nodes, k, node)[Shifted(k, j)] == nodes[j]
    {
      InsertedAt(nodes, k, node, j);
    }
  }

  lemma WinnerIsOwner(hash: Hash, nodes: seq<string>, d: set<string>, topic: string, i: nat)
    requires i < |nodes| && Wins(hash, nodes, d, topic, i)
    ensures IsOwner(hash, nodes, d, topic, nodes[i])
  {
    assert nodes[i] in Names(nodes) && nodes[i] !in d;
  }

  lemma WinnerSurvivesRemoval(hash: Hash, nodes: seq<string>, k: nat, node: string, d: set<string>, topic: string,
                              i: nat)
    requires k <= |nodes| && i <= |nodes| && i != k && Wins(hash, Inserted(nodes, k, node), d, topic, i)
    ensures IsOwner(hash, nodes, d, topic, Inserted(nodes, k, node)[i])
  {
    var i' := if i < k then i else i - 1;
    InsertedAt(nodes, k, node, i');
    WinnerWithout(hash, nodes, k, node, d, topic, i');
    WinnerIsOwner(hash, nodes, d, topic, i');
  }

  lemma AllDrainWithout(nodes: seq<string>, k: nat, node: string, d: set<string>)
    requires k <= |nodes| && Names(Inserted(nodes, k, node)) <= d
    ensures Names(nodes) <= d
  {
    forall n | n in nodes
      ensures n in d
    {
      assert n in Names(Inserted(nodes, k, node));
    }
  }

  /** An owner other than the inserted node is the owner without it. */
  lemma OwnerSurvivesRemoval(hash: Hash, nodes: seq<string>, k: nat, node: string, d: set<string>, topic: string)
    requires k <= |nodes| && "" !in nodes && node != ""
    requires OwnerOf(hash, Inserted(nodes, k, node), d, topic) != node
    ensures IsOwner(hash, nodes, d, topic, OwnerOf(hash, Inserted(nodes, k, node), d, topic))
  {
    var more := Inserted(nodes, k, node);
    var owner := OwnerOf(hash, more, d, topic);
    OwnerIsFirstBestLiveNode(hash, more, d, topic);
    if Names(more) <= d {
      AllDrainWithout(nodes, k, node, d);
    } else {
      var i :| Wins(hash, more, d, topic, i) && owner == more[i];
      WinnerSurvivesRemoval(hash, nodes, k, node, d, topic, i);
    }
  }

  // ---------- Agreement between nodes ----------

  /** Among the live nodes the best score belongs to one name only. */
  ghost predicate UniqueTop(hash: Hash, names: set<string>, drained: set<string>, topic: string) {
    forall a, b :: a in names - drained && b in names - drained && a != b
      && (forall c :: c in names - drained ==> ScoreOf(hash, c, topic) <= ScoreOf(hash, a, topic))
      ==> ScoreOf(hash, b, topic) < ScoreOf(hash, a, topic)
  }

  ghost predicate DistinctScores(hash: Hash, names: set<string>, topic: string) {
    forall a, b :: a in names && b in names && a != b ==> ScoreOf(hash, a, topic) != ScoreOf(hash, b, topic)
  }

  lemma DistinctScoresGiveUniqueTop(hash: Hash, names: set<string>, drained: set<string>, topic: string)
    requires DistinctScores(hash, names, topic)
    ensures UniqueTop(hash, names, drained, topic)
  {
  }

  ghost predicate IsBest(hash: Hash, live: set<string>, topic: string, a: string) {
    a in live && forall c :: c in live ==> ScoreOf(hash, c, topic) <= ScoreOf(hash, a, topic)
  }

  /** In terms of names: the owner, where there is one, has the best score of the live nodes. */
  lemma OwnerIsBest(hash: Hash, nodes: seq<string>, drained: set<string>, topic: string)
    requires "" !in nodes && !(Names(nodes) <= drained)
    ensures IsBest(hash, Names(nodes) - drained, topic, OwnerOf(hash, nodes, drained, topic))
  {
    OwnerIsFirstBestLiveNode(hash, nodes, drained, topic);
    var i :| Wins(hash, nodes, drained, topic, i) && OwnerOf(hash, nodes, drained, topic) == nodes[i];
    forall c | c in Names(nodes) - drained
      ensures ScoreOf(hash, c, topic) <= ScoreOf(hash, nodes[i], topic)
    {
      var k :| 0 <= k < |nodes| && nodes[k] == c;
    }
  }

  /** Lists of the same names, in any order and with repetitions, name the same owner. */
  lemma SameNamesSameOwner(hash: Hash, nodes: seq<string>, nodes': seq<string>, drained: set<string>, topic: string)
    requires "" !in nodes && Names(nodes) == Names(nodes')
    requires UniqueTop(hash, Names(nodes), drained, topic)
    ensures OwnerOf(hash, nodes, drained, topic) == OwnerOf(hash, nodes', drained, topic)
  {
    assert "" !in Names(nodes');
    NoOwnerIffAllDrain(hash, nodes, drained, topic);
    NoOwnerIffAllDrain(hash, nodes', drained, topic);
    if !(Names(nodes) <= drained) {
      OwnerIsBest(hash, nodes, drained, topic);
      OwnerIsBest(hash, nodes', drained, topic);
    }
  }

  /** Every way of listing the same names gives the same owner. */
  ghost predicate OrderIndependent(hash: Hash, nodes: seq<string>, drained: set<string>, topic: string) {
    forall nodes' :: Names(nodes') == Names(nodes) ==>
      OwnerOf(hash, nodes', drained, topic) == OwnerOf(hash, nodes, drained, topic)
  }

  lemma TiedNodeWinsWhenFirst(hash: Hash, nodes: seq<string>, drained: set<string>, topic: string, a: string)
    requires "" !in nodes && a in Names(nodes) - drained
    requires forall c :: c in Names(nodes) - drained ==> ScoreOf(hash, c, topic) <= ScoreOf(hash, a, topic)
    ensures OwnerOf(hash, [a] + nodes, drained, topic) == a
  {
    var front := [a] + nodes;
    assert Names(front) == Names(nodes);
    assert front[0] == a && a in Names(front);
    forall j | 0 <= j < |front| && front[j] !in drained
      ensures hash(front[j] + "|" + topic) <= hash(a + "|" + topic)
    {
      assert front[j] in Names(front);
      assert ScoreOf(hash, front[j], topic) <= ScoreOf(hash, a, topic);
    }
    assert Wins(hash, front, drained, topic, 0);
    OwnerIsFirstBestLiveNode(hash, front, drained, topic);
    OwnerIsUnique(hash, front, drained, topic, a, OwnerOf(hash, front, drained, topic));
  }

  /** Nodes that list the same members differently agree exactly when the best live score is not tied. */
  lemma AgreementIffNoTie(hash: Hash, nodes: seq<string>, drained: set<string>, topic: string)
    requires "" !in nodes
    ensures OrderIndependent(hash, nodes, drained, topic) <==> UniqueTop(hash, Names(nodes), drained, topic)
  {
    if UniqueTop(hash, Names(nodes), drained, topic) {
      forall nodes' | Names(nodes') == Names(nodes)
        ensures OwnerOf(hash, nodes', drained, topic) == OwnerOf(hash, nodes, drained, topic)
      {
        SameNamesSameOwner(hash, nodes, nodes', drained, topic);
      }
    } else {
      var live := Names(nodes) - drained;
      var a, b :| a in live && b in live && a != b
        && (forall c :: c in live ==> ScoreOf(hash, c, topic) <= ScoreOf(hash, a, topic))
        && !(ScoreOf(hash, b, topic) < ScoreOf(hash, a, topic));
      TiedNodeWinsWhenFirst(hash, nodes, drained, topic, a);
      TiedNodeWinsWhenFirst(hash, nodes, drained, topic, b);
      assert Names([a] + nodes) == Names(nodes) == Names([b] + nodes);
    }
  }

  // ---------- Node lists as text ----------

  /** The members named by a comma-separated list: trimmed, blanks dropped, order and repeats kept. */
  function Members(parts: seq<string>): (nodes: seq<string>) {
    if parts == [] then []
    else
      var before := Members(parts[..|parts| - 1]);
      var p := TrimSpace(parts[|parts| - 1]);
      if p == "" then before else before + [p]
  }

  /** A name that survives being written in a list. */
  predicate ProperName(n: string) {
    n != "" && ',' !in n && !IsSpace(n[0]) && !IsSpace(n[|n| - 1])
  }

  lemma {:induction false} MembersAreProperNames(parts: seq<string>)
    requires forall p :: p in parts ==> ',' !in p
    ensures forall n :: n in Members(parts) ==> ProperName(n)
  {
    if parts != [] {
      MembersAreProperNames(parts[..|parts| - 1]);
    }
  }

  predicate IsTrimmedPart(parts: seq<string>, n: string) {
    exists p :: p in parts && TrimSpace(p) == n
  }

  lemma TrimmedPartsOfMore(before: seq<string>, last: string, n: string)
    ensures IsTrimmedPart(before + [last], n) <==> IsTrimmedPart(before, n) || TrimSpace(last) == n
  {
    assert last in before + [last];
    assert forall p :: p in before ==> p in before + [last];
  }

  /** The members are what is left of the parts after trimming, blanks aside. */
  lemma {:induction false} MembersAreTrimmedParts(parts: seq<string>, n: string)
    ensures n in Members(parts) <==> n != "" && IsTrimmedPart(parts, n)
  {
    if parts != [] {
      var before, last := parts[..|parts| - 1], parts[|parts| - 1];
      MembersAreTrimmedParts(before, n);
      TrimmedPartsOfMore(before, last, n);
      assert parts == before + [last];
    }
  }

  lemma {:induction false} MembersOfProperNames(names: seq<string>)
    requires forall n :: n in names ==> ProperName(n)
    ensures Members(names) == names
  {
    if names != [] {
      MembersOfProperNames(names[..|names| - 1]);
      assert names[..|names| - 1] + [names[|names| - 1]] == names;
      assert ProperName(names[|names| - 1]);
    }
  }

  /** Writing a list of proper names and reading it back gives the list. */
  lemma NodeListRoundTrip(names: seq<string>)
    requires names != [] && forall n :: n in names ==> ProperName(n)
    ensures Members(Split(Join(names, ','), ',')) == names
  {
    SplitInvertsJoin(names, ',');
    MembersOfProperNames(names);
  }

  // ---------- The cluster object ----------

  /** The flags after SetDraining(node, d); a name that is not a member is ignored. */
  function Flagged(draining: map<string, bool>, members: set<string>, node: string, d: bool): map<string, bool> {
    if node in members then draining[node := d] else draining
  }

  function DrainedIn(draining: map<string, bool>): set<string> {
    set n | n in draining && draining[n]
  }

  /** Draining a node and bringing it back leaves every owner as it was, unless it drained before. */
  lemma DrainThenUndrainRestores(hash: Hash, nodes: seq<string>, draining: map<string, bool>, node: string,
                                 topic: string)
    requires "" !in nodes
    ensures
      var drained := Flagged(draining, Names(nodes), node, true);
      var back := Flagged(drained, Names(nodes), node, false);
      && OwnerOf(hash, nodes, DrainedIn(back), topic) in {node, OwnerOf(hash, nodes, DrainedIn(draining), topic)}
      && (node !in DrainedIn(draining) || node !in nodes ==>
            OwnerOf(hash, nodes, DrainedIn(back), topic) == OwnerOf(hash, nodes, DrainedIn(draining), topic))
      && (node in nodes ==> OwnerOf(hash, nodes, DrainedIn(drained), topic) != node)
  {
    var drained := Flagged(draining, Names(nodes), node, true);
    var back := Flagged(drained, Names(nodes), node, false);
    if node in nodes {
      assert DrainedIn(back) == DrainedIn(draining) - {node};
      assert node !in DrainedIn(draining) ==> DrainedIn(back) == DrainedIn(draining);
    } else {
      assert back == draining;
    }
    UndrainingMovesOnlyToNode(hash, nodes, DrainedIn(draining), node, topic);
    NoOwnerIffAllDrain(hash, nodes, DrainedIn(drained), topic);
  }

  class Cluster {
    const hash: Hash
    var nodes: seq<string>
    var nodeSet: set<string>
    var self: string
    var draining: map<string, bool>

    ghost predicate Valid()
      reads this
    {
      && nodes != []
      && "" !in nodes
      && nodeSet == Names(nodes)
      && self != ""
      && draining.Keys <= nodeSet
    }

    ghost function Drained(): set<string>
      reads this
    {
      DrainedIn(draining)
    }

    constructor Empty(hash: Hash)
      ensures this.hash == hash && nodes == [] && nodeSet == {} && self == "" && draining == map[]
    {
      this.hash := hash;
      nodes, nodeSet, self, draining := [], {}, "", map[];
    }

    method Add(p: string)
      requires nodeSet == Names(nodes)
      modifies this`nodes, this`nodeSet
      ensures nodes == old(nodes) + [p] && nodeSet == Names(nodes)
    {
      nodes := nodes + [p];
      nodeSet := nodeSet + {p};
    }

    /** Fails exactly when the list names nobody; an empty self means the first member. */
    static method NewFromCSV(hash: Hash, nodeList: string, self: string) returns (r: Result<Cluster, string>)
      ensures
        var members := if nodeList == "" then [] else Members(Split(nodeList, ','));
        if members == [] then r.Err?
        else
          && r.Ok? && fresh(r.value) && r.value.Valid() && r.value.hash == hash
          && r.value.nodes == members
          && r.value.self == (if self == "" then members[0] else self)
          && r.value.Drained() == {}
    {
      var c := new Cluster.Empty(hash);
      if nodeList == "" {
        return Err("empty cluster nodes");
      }
      var parts := Split(nodeList, ',');
      for i := 0 to |parts|
        invariant c.hash == hash && c.draining == map[]
        invariant c.nodes == Members(parts[..i])
        invariant "" !in c.nodes && c.nodeSet == Names(c.nodes)
      {
        var p := TrimSpace(parts[i]);
        assert parts[..i + 1][..i] == parts[..i];
        if p == "" {
          continue;
        }
        c.Add(p);
      }
      assert parts[..|parts|] == parts;
      if |c.nodes| == 0 {
        return Err("no valid cluster nodes");
      }
      c.self := if self == "" then c.nodes[0] else self;
      return Ok(c);
    }

    method Owner(topic: string) returns (best: string)
      requires Valid()
      ensures best == OwnerOf(hash, nodes, Drained(), topic)
      ensures IsOwner(hash, nodes, Drained(), topic, best)
      ensures forall n :: n in nodes && n !in Drained() ==>
                best in nodes && best !in Drained() && hash(n + "|" + topic) <= hash(best + "|" + topic)
    {
      best := "";
      var bestScore: Score := 0;
      for i := 0 to |nodes|
        invariant best == OwnerOf(hash, nodes[..i], Drained(), topic)
        invariant best != "" ==> bestScore == ScoreOf(hash, best, topic)
      {
        var n := nodes[i];
        assert nodes[..i + 1][..i] == nodes[..i];
        if n in draining && draining[n] {
          continue;
        }
        var key := n + "|" + topic;
        var score := hash(key);
        if best == "" || score > bestScore {
          best := n;
          bestScore := score;
        }
      }
      assert nodes[..|nodes|] == nodes;
      OwnerIsFirstBestLiveNode(hash, nodes, Drained(), topic);
    }

    predicate IsSelf(node: string)
      reads this
    {
      node == self
    }

    method SetDraining(node: string, d: bool)
      requires Valid()
      modifies this`draining
      ensures Valid()
      ensures draining == Flagged(old(draining), Names(nodes), node, d)
      ensures Drained() == if node !in nodes then old(Drained())
                           else if d then old(Drained()) + {node} else old(Drained()) - {node}
    {
      if node in nodeSet {
        draining := draining[node := d];
      }
    }

    predicate IsDraining(node: string)
      reads this
      ensures IsDraining(node) <==> node in Drained()
    {
      if node in draining then draining[node] else false
    }
  }

}
