/** The canvas's graph state: the node and edge lists, the shared id counter,
    the query input fields, and the answers scheduled but not yet produced.
    `getNextId`, `addQueryNode` and the deferred part of `simulateAnswer`
    are methods that update this state; the timer of `simulateAnswer` is a
    FIFO queue of pending answers and a `Complete` step that runs the
    oldest one. */
module MindMapCanvas {
  import opened Wrappers
  import opened Text
  import opened Graph
  import opened AnswerNode

  /** An answer scheduled by `simulateAnswer(queryId, queryText)`. */
  datatype Pending = Pending(queryId: string, queryText: string)

  const ResponsePrefix: string := "This is a simulated response to: \""

  /** The four placeholder bullets of a simulated answer. */
  function SimulatedBullets(queryText: string): (bullets: seq<string>)
    ensures |bullets| == 4
    ensures |bullets[0]| == |ResponsePrefix| + |queryText| + 1
    ensures bullets[0][|ResponsePrefix|..|ResponsePrefix| + |queryText|] == queryText
  {
    [ ResponsePrefix + queryText + "\"",
      "In the full implementation, this would be an LLM response",
      "Each bullet can be expanded, sourced, or queried further",
      "The context is maintained per branch using RAG" ]
  }

  /** The node `addQueryNode` creates. */
  function NewQueryNode(id: string, position: Pos, text: string): (n: Node)
    ensures n.id == id && n.nodeType == Query && n.position == position
    ensures n.data.nodeLabel == Some(text) && n.data.bullets.None? && n.data.callbacks == {}
    ensures !IsBlank(text) ==> ShapeOk(n)
  {
    Node(id, Query, position, NodeData(Some(text), None, None, {}))
  }

  /** The node the deferred answer creates below its query, with the three
      callbacks in its data. */
  function NewAnswerNode(id: string, query: Node, queryText: string): (n: Node)
    ensures n.id == id && n.nodeType == Answer && ShapeOk(n)
    ensures n.position == Pos(query.position.x - 20, query.position.y + 150)
    ensures n.data.bullets == Some(SimulatedBullets(queryText)) && n.data.callbacks == AllActions
  {
    Node(id, Answer, Pos(query.position.x - 20, query.position.y + 150),
         NodeData(None, Some(SimulatedBullets(queryText)), None, AllActions))
  }

  /** The edge `e-<queryId>-<answerId>` from a query to its answer. */
  function AnswerEdge(queryId: string, answerId: string): (e: Edge)
    ensures e.source == queryId && e.target == answerId
    ensures |e.id| == |queryId| + |answerId| + 3
  {
    Edge("e-" + queryId + "-" + answerId, queryId, answerId)
  }

  /** An answer edge's id reads back as `e-`, the query id, a `-` and the
      answer id. */
  lemma AnswerEdgeIdParts(queryId: string, answerId: string)
    ensures var id := AnswerEdge(queryId, answerId).id;
      && id[..2] == "e-" && id[2..|queryId| + 2] == queryId
      && id[|queryId| + 2] == '-' && id[|queryId| + 3..] == answerId
  {
  }

  /** The seeded answer's four bullets. */
  const SeedBullets: seq<string> := [
    "Greenhouse gas emissions are the main driver of rising global temperatures",
    "Sea level rise threatens coastal communities and biodiversity",
    "International agreements like Paris Accord aim to limit temperature increases",
    "Low-lying cities face frequent flooding and infrastructure loss"]

  /** The seeded query and its answer. */
  const InitialNodes: seq<Node> := [
    Node("query-1", Query, Pos(250, 50), NodeData(Some("What is Climate Change?"), None, None, {})),
    Node("answer-1", Answer, Pos(200, 180), NodeData(None, Some(SeedBullets), None, {}))
  ]

  /** The seeded edge's literal id, which is not in the generated
      `e-<source>-<target>` form. */
  const SeedEdgeId: string := "e-query1-answer1"

  const InitialEdges: seq<Edge> := [Edge(SeedEdgeId, "query-1", "answer-1")]

  /** `id` was produced by `getNextId(prefix)` at a counter value below
      `bound`. */
  ghost predicate IssuedBefore(id: string, prefix: string, bound: nat) {
    '-' !in prefix && IssuedBelow(id, prefix, bound)
  }

  /** `id` is `IdOf(prefix, k)` for some `k < bound`. */
  ghost predicate IssuedBelow(id: string, prefix: string, bound: nat) {
    bound > 0 && (id == IdOf(prefix, bound - 1) || IssuedBelow(id, prefix, bound - 1))
  }

  /** The counter value an id issued below `bound` was produced at. */
  lemma {:induction false} IssuedAt(id: string, prefix: string, bound: nat) returns (k: nat)
    requires IssuedBelow(id, prefix, bound)
    ensures k < bound && id == IdOf(prefix, k)
  {
    if id == IdOf(prefix, bound - 1) {
      k := bound - 1;
    } else {
      k := IssuedAt(id, prefix, bound - 1);
    }
  }

  /** An id issued before the counter reached `c` is not the id issued at
      `c`, whatever the two prefixes. */
  lemma FreshIdIsNew(id: string, p: string, q: string, c: nat)
    requires IssuedBefore(id, p, c) && '-' !in q
    ensures id != IdOf(q, c)
  {
    var k := IssuedAt(id, p, c);
    if id == IdOf(q, c) {
      IdOfInjective(p, k, q, c);
    }
  }

  /** No counter value at 2 or above gives one of the seeded ids. */
  lemma GeneratedIdsAvoidSeeds(prefix: string, n: nat)
    requires '-' !in prefix && n >= 2
    ensures IdOf(prefix, n) != "query-1" && IdOf(prefix, n) != "answer-1"
  {
    ParseIdOf(prefix, n);
    ParseIdOf("query", 1);
    ParseIdOf("answer", 1);
    assert IdOf("query", 1) == "query-1" && IdOf("answer", 1) == "answer-1";
  }

  /** In the id of an edge from a generated query id, the first `-` after
      `e-query-` is the one that ends the query id. */
  lemma EdgeIdQueryEnd(n: nat, answerId: string)
    ensures forall i :: 7 < i < |IdOf("query", n)| + 2 ==> AnswerEdge(IdOf("query", n), answerId).id[i] != '-'
  {
    var q := IdOf("query", n);
    var id := AnswerEdge(q, answerId).id;
    AnswerEdgeIdParts(q, answerId);
    forall i | 7 < i < |q| + 2 ensures id[i] != '-' {
      assert id[i] == q[i - 2] == q[6..][i - 8];
    }
  }

  /** Two answer edges between generated ids have the same id only when
      they join the same query number to the same answer number. */
  lemma AnswerEdgeIdInjective(n1: nat, m1: nat, n2: nat, m2: nat)
    requires AnswerEdge(IdOf("query", n1), IdOf("answer", m1)).id ==
             AnswerEdge(IdOf("query", n2), IdOf("answer", m2)).id
    ensures n1 == n2 && m1 == m2
  {
    var q1, q2 := IdOf("query", n1), IdOf("query", n2);
    var a1, a2 := IdOf("answer", m1), IdOf("answer", m2);
    var id := AnswerEdge(q1, a1).id;
    AnswerEdgeIdParts(q1, a1);
    AnswerEdgeIdParts(q2, a2);
    EdgeIdQueryEnd(n1, a1);
    EdgeIdQueryEnd(n2, a2);
    assert |q1| == |q2| by {
      assert id[|q1| + 2] == '-' && id[|q2| + 2] == '-';
    }
    assert q1 == id[2..|q1| + 2] == q2;
    IdOfInjective("query", n1, "query", n2);
    assert a1 == id[|q1| + 3..] == a2;
    IdOfInjective("answer", m1, "answer", m2);
  }

  /** No edge generated from a query id has the seeded edge's id: its
      eighth character is the `-` after `query`, where the seeded id has
      `1`. */
  lemma GeneratedEdgeNotSeed(n: nat, answerId: string)
    ensures AnswerEdge(IdOf("query", n), answerId).id != SeedEdgeId
  {
    var q := IdOf("query", n);
    AnswerEdgeIdParts(q, answerId);
    assert AnswerEdge(q, answerId).id[7] == q[5] == '-';
    assert SeedEdgeId[7] == '1';
  }

  /** After `nodesWithHandlers`, a click on any bullet of any answer node
      reaches the canvas's callback for every action, with that node's id,
      the index and the bullet. */
  lemma HandlersReachEveryAnswerBullet(nodes: seq<Node>, i: nat, action: Action, k: int)
    requires i < |nodes| && nodes[i].nodeType == Answer
    requires 0 <= k < |DeriveBullets(nodes[i].data)|
    ensures Forward(WithHandlers(nodes)[i].data, nodes[i].id, action, k) ==
      Some(Invocation(action, nodes[i].id, k, Some(DeriveBullets(nodes[i].data)[k])))
  {
    var shown := WithHandlers(nodes)[i].data;
    assert DeriveBullets(shown) == DeriveBullets(nodes[i].data) by {
      assert shown.bullets == nodes[i].data.bullets && shown.nodeLabel == nodes[i].data.nodeLabel;
    }
  }

  /** A query node has non-blank text; an answer node has bullets. */
  predicate ShapeOk(n: Node) {
    && (n.nodeType == Query ==> n.data.nodeLabel.Some? && !IsBlank(n.data.nodeLabel.value))
    && (n.nodeType == Answer ==> n.data.bullets.Some? && |n.data.bullets.value| > 0)
  }

  /** Node ids are unique and were issued, with the node type's prefix,
      before the counter reached `c`. */
  ghost predicate NodesOk(nodes: seq<Node>, c: nat) {
    && DistinctIds(nodes)
    && forall i :: 0 <= i < |nodes| ==>
         IssuedBefore(nodes[i].id, TypeName(nodes[i].nodeType), c) && ShapeOk(nodes[i])
  }

  /** Scheduled answers are for distinct query ids issued before `c`, with
      non-blank text. */
  ghost predicate PendingOk(pending: seq<Pending>, c: nat) {
    && (forall k :: 0 <= k < |pending| ==>
          IssuedBefore(pending[k].queryId, "query", c) && !IsBlank(pending[k].queryText))
    && (forall k, l :: 0 <= k < l < |pending| ==> pending[k].queryId != pending[l].queryId)
  }

  /** Every edge goes from a query id to an answer id issued before `c`; no
      two edges share a source or a target. */
  ghost predicate EdgesOk(edges: seq<Edge>, c: nat) {
    && (forall j :: 0 <= j < |edges| ==>
          IssuedBefore(edges[j].source, "query", c) && IssuedBefore(edges[j].target, "answer", c))
    && (forall j, l :: 0 <= j < l < |edges| ==>
          edges[j].source != edges[l].source && edges[j].target != edges[l].target)
  }

  /** The edge's id is the seeded edge's or is built from its two ends. */
  predicate IdFromEnds(e: Edge) {
    e.id == SeedEdgeId || e == AnswerEdge(e.source, e.target)
  }

  /** Every edge id is the seeded one or built from the edge's ends, and no
      two edges share an id. */
  ghost predicate EdgeIdsOk(edges: seq<Edge>) {
    && (forall j :: 0 <= j < |edges| ==> IdFromEnds(edges[j]))
    && (forall j, l :: 0 <= j < l < |edges| ==> edges[j].id != edges[l].id)
  }

  /** A query still waiting for its answer has no answer edge yet. */
  ghost predicate NotYetAnswered(pending: seq<Pending>, edges: seq<Edge>) {
    forall k, j :: 0 <= k < |pending| && 0 <= j < |edges| ==> pending[k].queryId != edges[j].source
  }

  /** When both ends of an edge are on the canvas, the source comes first. */
  ghost predicate SourcesPrecedeTargets(nodes: seq<Node>, edges: seq<Edge>) {
    forall j, a, b ::
      (0 <= j < |edges| && 0 <= a < |nodes| && 0 <= b < |nodes| &&
       edges[j].source == nodes[a].id && edges[j].target == nodes[b].id) ==> a < b
  }

  /** The canvas's state invariant: unique ids issued by the counter,
      well-formed query and answer nodes, one answer at most per query
      (each query is scheduled once and leaves the queue when answered),
      in-degree and out-degree at most one, distinct edge ids, answers
      after their queries. */
  ghost predicate GraphOk(nodes: seq<Node>, edges: seq<Edge>, c: nat, pending: seq<Pending>) {
    && c >= 2
    && NodesOk(nodes, c)
    && PendingOk(pending, c)
    && EdgesOk(edges, c)
    && EdgeIdsOk(edges)
    && NotYetAnswered(pending, edges)
    && SourcesPrecedeTargets(nodes, edges)
  }

  /** A canvas of one query, one answer and the edge between them, with no
      answer scheduled, satisfies the invariant. */
  lemma SeedGraphOk(q: Node, a: Node, e: Edge, c: nat)
    requires c >= 2 && ShapeOk(q) && ShapeOk(a) && q.id != a.id
    requires q.nodeType == Query && a.nodeType == Answer
    requires IssuedBefore(q.id, "query", c) && IssuedBefore(a.id, "answer", c)
    requires e == AnswerEdge(q.id, a.id) || (e.id == SeedEdgeId && e.source == q.id && e.target == a.id)
    ensures GraphOk([q, a], [e], c, [])
  {
  }

  /** The seeded ids read as issued at counter value 1. */
  lemma SeedIdsIssued()
    ensures IssuedBefore("query-1", "query", 2) && IssuedBefore("answer-1", "answer", 2)
  {
    assert Decimal(1) == "1";
    assert IdOf("query", 1) == "query-1" && IdOf("answer", 1) == "answer-1";
  }

  /** The seeded state satisfies the invariant. */
  lemma InitialGraphOk()
    ensures GraphOk(InitialNodes, InitialEdges, 2, [])
  {
    SeedIdsIssued();
    var q, a, e := InitialNodes[0], InitialNodes[1], InitialEdges[0];
    assert !IsBlank(q.data.nodeLabel.value) by {
      assert !IsWhitespace(q.data.nodeLabel.value[0]);
    }
    assert q.id != a.id by {
      assert q.id[0] != a.id[0];
    }
    SeedGraphOk(q, a, e, 2);
    assert InitialNodes == [q, a] && InitialEdges == [e];
  }

  lemma {:induction false} NodesAppend(nodes: seq<Node>, n: Node, c: nat)
    requires NodesOk(nodes, c) && ShapeOk(n)
    requires n.id == IdOf(TypeName(n.nodeType), c)
    ensures NodesOk(nodes + [n], c + 1)
  {
    TypeNamesHaveNoDash(n.nodeType);
    ParseIdOf(TypeName(n.nodeType), c);
    forall i | 0 <= i < |nodes| ensures nodes[i].id != n.id {
      FreshIdIsNew(nodes[i].id, TypeName(nodes[i].nodeType), TypeName(n.nodeType), c);
    }
    var r := nodes + [n];
    assert forall i :: 0 <= i < |nodes| ==> r[i] == nodes[i];
  }

  lemma {:induction false} PrecedeAppendNode(nodes: seq<Node>, edges: seq<Edge>, n: Node)
    requires SourcesPrecedeTargets(nodes, edges)
    requires forall j :: 0 <= j < |edges| ==> edges[j].source != n.id && edges[j].target != n.id
    ensures SourcesPrecedeTargets(nodes + [n], edges)
  {
    var r := nodes + [n];
    assert forall i :: 0 <= i < |nodes| ==> r[i] == nodes[i];
  }

  /** The state `addQueryNode` produces (one query node and one scheduled
      answer more, under the next id) satisfies the invariant. */
  lemma AddQueryKeepsGraphOk(nodes: seq<Node>, edges: seq<Edge>, c: nat, pending: seq<Pending>, position: Pos, text: string)
    requires GraphOk(nodes, edges, c, pending) && !IsBlank(text)
    ensures
      var id := IdOf("query", c);
      GraphOk(nodes + [NewQueryNode(id, position, text)], edges, c + 1, pending + [Pending(id, text)])
  {
    var id := IdOf("query", c);
    ParseIdOf("query", c);
    NodesAppend(nodes, NewQueryNode(id, position, text), c);
    forall j | 0 <= j < |edges| ensures edges[j].source != id && edges[j].target != id {
      FreshIdIsNew(edges[j].source, "query", "query", c);
      FreshIdIsNew(edges[j].target, "answer", "query", c);
    }
    PrecedeAppendNode(nodes, edges, NewQueryNode(id, position, text));
    var ps := pending + [Pending(id, text)];
    forall k | 0 <= k < |pending| ensures pending[k].queryId != id {
      FreshIdIsNew(pending[k].queryId, "query", "query", c);
    }
    assert forall k :: 0 <= k < |pending| ==> ps[k] == pending[k];
  }

  /** The node list after the deferred answer for `p` runs with answer id
      `answerId`: one answer node more if the query is on the canvas, the
      same list otherwise. This is the updater function the deferred answer
      passes to `setNodes`. */
  function CompletedNodes(nodes: seq<Node>, p: Pending, answerId: string): (r: seq<Node>)
  {
    match FindIndex(nodes, p.queryId)
    case None => nodes
    case Some(k) => nodes + [NewAnswerNode(answerId, nodes[k], p.queryText)]
  }

  /** What completing an answer changes in the node list: nothing when the
      query is gone; otherwise exactly one answer node at the end, placed
      20 to the left of and 150 below its query, with four bullets the
      first of which quotes the query text, and the three callbacks. */
  lemma CompletedNodesShape(nodes: seq<Node>, p: Pending, answerId: string)
    ensures (forall i :: 0 <= i < |nodes| ==> nodes[i].id != p.queryId) ==>
      CompletedNodes(nodes, p, answerId) == nodes
    ensures forall i :: 0 <= i < |nodes| && nodes[i].id == p.queryId ==>
      var r := CompletedNodes(nodes, p, answerId);
      var q := nodes[FindIndex(nodes, p.queryId).value];
      && |r| == |nodes| + 1 && r[..|nodes|] == nodes
      && r[|nodes|].id == answerId && r[|nodes|].nodeType == Answer
      && r[|nodes|].position == Pos(q.position.x - 20, q.position.y + 150)
      && r[|nodes|].data.bullets.Some? && |r[|nodes|].data.bullets.value| == 4
      && r[|nodes|].data.bullets.value[0][|ResponsePrefix|..|ResponsePrefix| + |p.queryText|] == p.queryText
      && r[|nodes|].data.callbacks == AllActions
  {
  }

  lemma {:induction false} CompleteNodesOk(nodes: seq<Node>, c: nat, p: Pending)
    requires NodesOk(nodes, c)
    ensures NodesOk(CompletedNodes(nodes, p, IdOf("answer", c)), c + 1)
  {
    var answerId := IdOf("answer", c);
    match FindIndex(nodes, p.queryId)
    case None =>
      forall i | 0 <= i < |nodes| ensures IssuedBefore(nodes[i].id, TypeName(nodes[i].nodeType), c + 1) {
      }
    case Some(k) =>
      NodesAppend(nodes, NewAnswerNode(answerId, nodes[k], p.queryText), c);
  }

  lemma PrecedeAppendEdge(nodes: seq<Node>, edges: seq<Edge>, e: Edge)
    requires SourcesPrecedeTargets(nodes, edges)
    requires forall a, b ::
      (0 <= a < |nodes| && 0 <= b < |nodes| && e.source == nodes[a].id && e.target == nodes[b].id) ==> a < b
    ensures SourcesPrecedeTargets(nodes, edges + [e])
  {
    var es := edges + [e];
    assert forall j :: 0 <= j < |edges| ==> es[j] == edges[j];
  }

  lemma CompletePrecede(nodes: seq<Node>, edges: seq<Edge>, c: nat, p: Pending)
    requires NodesOk(nodes, c) && EdgesOk(edges, c) && SourcesPrecedeTargets(nodes, edges)
    requires IssuedBefore(p.queryId, "query", c)
    ensures
      var answerId := IdOf("answer", c);
      SourcesPrecedeTargets(CompletedNodes(nodes, p, answerId), edges + [AnswerEdge(p.queryId, answerId)])
  {
    var answerId := IdOf("answer", c);
    var e := AnswerEdge(p.queryId, answerId);
    forall i | 0 <= i < |nodes| ensures nodes[i].id != answerId {
      FreshIdIsNew(nodes[i].id, TypeName(nodes[i].nodeType), "answer", c);
    }
    match FindIndex(nodes, p.queryId)
    case None =>
      PrecedeAppendEdge(nodes, edges, e);
    case Some(k) =>
      var n := NewAnswerNode(answerId, nodes[k], p.queryText);
      forall j | 0 <= j < |edges| ensures edges[j].source != n.id && edges[j].target != n.id {
        FreshIdIsNew(edges[j].source, "query", "answer", c);
        FreshIdIsNew(edges[j].target, "answer", "answer", c);
      }
      PrecedeAppendNode(nodes, edges, n);
      FreshIdIsNew(p.queryId, "query", "answer", c);
      var ns := nodes + [n];
      assert forall i :: 0 <= i < |nodes| ==> ns[i] == nodes[i];
      PrecedeAppendEdge(ns, edges, e);
  }

  lemma CompleteEdgesOk(edges: seq<Edge>, c: nat, pending: seq<Pending>)
    requires EdgesOk(edges, c) && PendingOk(pending, c) && NotYetAnswered(pending, edges) && pending != []
    ensures
      var es := edges + [AnswerEdge(pending[0].queryId, IdOf("answer", c))];
      EdgesOk(es, c + 1) && NotYetAnswered(pending[1..], es)
  {
    var answerId := IdOf("answer", c);
    ParseIdOf("answer", c);
    var e := AnswerEdge(pending[0].queryId, answerId);
    var es := edges + [e];
    forall j | 0 <= j < |edges| ensures edges[j].target != answerId {
      FreshIdIsNew(edges[j].target, "answer", "answer", c);
    }
    assert forall j :: 0 <= j < |edges| ==> es[j] == edges[j];
    assert forall k :: 0 <= k < |pending| - 1 ==> pending[1..][k] == pending[k + 1];
  }

  /** The generated id of the new edge is not the id of any earlier edge. */
  lemma CompleteEdgeIdsOk(edges: seq<Edge>, c: nat, queryId: string)
    requires EdgesOk(edges, c) && EdgeIdsOk(edges) && IssuedBefore(queryId, "query", c)
    ensures EdgeIdsOk(edges + [AnswerEdge(queryId, IdOf("answer", c))])
  {
    var e := AnswerEdge(queryId, IdOf("answer", c));
    var n := IssuedAt(queryId, "query", c);
    GeneratedEdgeNotSeed(n, IdOf("answer", c));
    forall j | 0 <= j < |edges| ensures edges[j].id != e.id {
      if edges[j].id != SeedEdgeId {
        var n1 := IssuedAt(edges[j].source, "query", c);
        var m1 := IssuedAt(edges[j].target, "answer", c);
        if edges[j].id == e.id {
          AnswerEdgeIdInjective(n1, m1, n, c);
        }
      }
    }
    var es := edges + [e];
    assert forall j :: 0 <= j < |edges| ==> es[j] == edges[j];
  }

  lemma CompletePendingOk(c: nat, pending: seq<Pending>)
    requires PendingOk(pending, c) && pending != []
    ensures PendingOk(pending[1..], c + 1)
  {
    assert forall k :: 0 <= k < |pending| - 1 ==> pending[1..][k] == pending[k + 1];
  }

  /** The state after the oldest scheduled answer completes (queue head
      removed, counter advanced, nodes as `CompletedNodes`, one edge more)
      satisfies the invariant. */
  lemma CompleteKeepsGraphOk(nodes: seq<Node>, edges: seq<Edge>, c: nat, pending: seq<Pending>)
    requires GraphOk(nodes, edges, c, pending) && pending != []
    ensures
      var p := pending[0];
      var answerId := IdOf("answer", c);
      GraphOk(CompletedNodes(nodes, p, answerId), edges + [AnswerEdge(p.queryId, answerId)], c + 1, pending[1..])
  {
    CompleteNodesOk(nodes, c, pending[0]);
    CompletePrecede(nodes, edges, c, pending[0]);
    CompleteEdgesOk(edges, c, pending);
    CompleteEdgeIdsOk(edges, c, pending[0].queryId);
    CompletePendingOk(c, pending);
  }

  /** The node list without its element at index `k`, the others in
      order. */
  function RemoveAt(nodes: seq<Node>, k: nat): (r: seq<Node>)
    requires k < |nodes|
    ensures |r| == |nodes| - 1
    ensures forall i :: 0 <= i < |r| ==> r[i] == nodes[if i < k then i else i + 1]
  {
    nodes[..k] + nodes[k + 1..]
  }

  /** With unique ids, dropping the node at index `k` leaves no node with
      its id. */
  lemma RemovedIdGone(nodes: seq<Node>, k: nat)
    requires DistinctIds(nodes) && k < |nodes|
    ensures forall i :: 0 <= i < |RemoveAt(nodes, k)| ==> RemoveAt(nodes, k)[i].id != nodes[k].id
  {
  }

  /** Dropping the node just appended gives back the list before it. */
  lemma RemoveAppended(nodes: seq<Node>, n: Node)
    ensures RemoveAt(nodes + [n], |nodes|) == nodes
  {
    assert (nodes + [n])[..|nodes|] == nodes;
  }

  /** Dropping the node at index `k` keeps the invariant. */
  lemma RemoveKeepsGraphOk(nodes: seq<Node>, edges: seq<Edge>, c: nat, pending: seq<Pending>, k: nat)
    requires GraphOk(nodes, edges, c, pending) && k < |nodes|
    ensures GraphOk(RemoveAt(nodes, k), edges, c, pending)
  {
  }

  class MindMap {
    var nodes: seq<Node>
    var edges: seq<Edge>
    var counter: nat
    var showQueryInput: bool
    var newQueryText: string
    var pending: seq<Pending>

    /** The state invariant, `GraphOk` of the fields. */
    ghost predicate Valid()
      reads this
    {
      GraphOk(nodes, edges, counter, pending)
    }

    /** The initial state: the two seeded nodes and their edge, the counter
        at 2, the input closed and empty, nothing scheduled. */
    constructor ()
      ensures Valid()
      ensures nodes == InitialNodes && edges == InitialEdges && counter == 2
      ensures !showQueryInput && newQueryText == "" && pending == []
    {
      nodes := InitialNodes;
      edges := InitialEdges;
      counter := 2;
      showQueryInput := false;
      newQueryText := "";
      pending := [];
      InitialGraphOk();
    }

    /** `getNextId(prefix)`: the id `prefix-counter`, and the counter
        advanced by one. */
    method GetNextId(prefix: string) returns (id: string)
      modifies this`counter
      ensures id == IdOf(prefix, old(counter)) && counter == old(counter) + 1
      ensures old(Valid()) ==> Valid()
    {
      id := prefix + "-" + Decimal(counter);
      counter := counter + 1;
    }

    /** The "+ New Query" button. */
    method OpenQueryInput()
      requires Valid()
      modifies this`showQueryInput
      ensures Valid() && showQueryInput
    {
      showQueryInput := true;
    }

    /** Typing in the query box. */
    method EditQueryText(text: string)
      requires Valid()
      modifies this`newQueryText
      ensures Valid() && newQueryText == text
    {
      newQueryText := text;
    }

    /** The Cancel button: closes and clears the input. */
    method CancelQueryInput()
      requires Valid()
      modifies this`showQueryInput, this`newQueryText
      ensures Valid() && !showQueryInput && newQueryText == ""
    {
      showQueryInput := false;
      newQueryText := "";
    }

    /** `addQueryNode`, with the random root position passed in. On blank
        input nothing changes. Otherwise one query node labelled with the
        text (untrimmed) is appended under a fresh id, the input is cleared
        and closed, and an answer for that node is scheduled. */
    method AddQueryNode(position: Pos)
      requires Valid()
      modifies this
      ensures Valid()
      ensures IsBlank(old(newQueryText)) ==>
        && nodes == old(nodes) && edges == old(edges) && counter == old(counter)
        && pending == old(pending) && newQueryText == old(newQueryText)
        && showQueryInput == old(showQueryInput)
      ensures !IsBlank(old(newQueryText)) ==>
        var id := IdOf("query", old(counter));
        && nodes == old(nodes) + [NewQueryNode(id, position, old(newQueryText))]
        && edges == old(edges) && counter == old(counter) + 1
        && newQueryText == "" && !showQueryInput
        && pending == old(pending) + [Pending(id, old(newQueryText))]
    {
      TrimEmptyIffBlank(newQueryText);
      if Trim(newQueryText) == [] {
        return;
      }
      AddQueryKeepsGraphOk(nodes, edges, counter, pending, position, newQueryText);
      var id := GetNextId("query");
      var text := newQueryText;
      nodes := nodes + [NewQueryNode(id, position, text)];
      newQueryText := "";
      showQueryInput := false;
      pending := pending + [Pending(id, text)];
    }

    /** The deferred body of `simulateAnswer` for the oldest scheduled
        answer: a fresh answer id is taken; if the query node is still on
        the canvas an answer node is appended below it, and otherwise the
        node list is left alone; the edge from the query to the answer id
        is appended either way. */
    method Complete()
      requires Valid() && pending != []
      modifies this
      ensures Valid()
      ensures
        var p := old(pending)[0];
        var answerId := IdOf("answer", old(counter));
        && pending == old(pending)[1..] && counter == old(counter) + 1
        && edges == old(edges) + [AnswerEdge(p.queryId, answerId)]
        && nodes == CompletedNodes(old(nodes), p, answerId)
        && newQueryText == old(newQueryText) && showQueryInput == old(showQueryInput)
    {
      CompleteKeepsGraphOk(nodes, edges, counter, pending);
      // the timer fires: its entry leaves the queue, then its callback runs
      var p := pending[0];
      pending := pending[1..];
      var answerId := GetNextId("answer");
      // the functional updater handed to `setNodes`
      nodes, edges := CompletedNodes(nodes, p, answerId), edges + [AnswerEdge(p.queryId, answerId)];
    }

    /** A node deleted from the canvas by the flow library (its
        `onNodesChange` remove change): the node with that id, if any, is
        dropped and the rest keep their order. Edges and scheduled answers
        are left as they are. */
    method RemoveNode(id: string)
      requires Valid()
      modifies this`nodes
      ensures Valid()
      ensures match FindIndex(old(nodes), id)
        case None => nodes == old(nodes)
        case Some(k) => nodes == RemoveAt(old(nodes), k)
      ensures forall i :: 0 <= i < |nodes| ==> nodes[i].id != id
    {
      match FindIndex(nodes, id)
      case None =>
      case Some(k) =>
        RemoveKeepsGraphOk(nodes, edges, counter, pending, k);
        RemovedIdGone(nodes, k);
        nodes := RemoveAt(nodes, k);
    }
  }

  /** The ids the scenarios below are given, spelled out. */
  lemma ScenarioIds()
    ensures IdOf("query", 2) == "query-2" && IdOf("answer", 3) == "answer-3"
    ensures forall i :: 0 <= i < |InitialNodes| ==>
      InitialNodes[i].id != "query-2" && InitialNodes[i].id != "answer-3"
  {
    assert Decimal(2) == "2" && Decimal(3) == "3";
    GeneratedIdsAvoidSeeds("query", 2);
    GeneratedIdsAvoidSeeds("answer", 3);
  }

  /** A user asks "What is Climate Change?" on the seeded canvas: the query
      becomes `query-2`, the third node, and its answer is scheduled. */
  method AskOnSeededCanvas() returns (m: MindMap)
    ensures fresh(m) && m.Valid()
    ensures |m.nodes| == 3 && m.nodes[2] == NewQueryNode("query-2", Pos(300, 120), "What is Climate Change?")
    ensures FindIndex(m.nodes, "query-2") == Some(2)
    ensures m.edges == InitialEdges && m.counter == 3
    ensures m.pending == [Pending("query-2", "What is Climate Change?")]
    ensures !m.showQueryInput && m.newQueryText == ""
  {
    m := new MindMap();
    m.OpenQueryInput();
    m.EditQueryText("What is Climate Change?");
    assert !IsBlank(m.newQueryText) by {
      assert !IsWhitespace(m.newQueryText[0]);
    }
    m.AddQueryNode(Pos(300, 120));
    ScenarioIds();
    FindAppended(InitialNodes, m.nodes[2]);
  }

  /** Once the answer to that query completes, `answer-3` sits 20 to the
      left of and 150 below it, linked by `e-query-2-answer-3`, and nothing
      is left scheduled. */
  method AskAndAnswer() returns (m: MindMap)
    ensures fresh(m) && m.Valid()
    ensures |m.nodes| == 4 && m.nodes[3].id == "answer-3" && m.nodes[3].position == Pos(280, 270)
    ensures m.edges == InitialEdges + [AnswerEdge("query-2", "answer-3")]
    ensures m.pending == [] && m.counter == 4
  {
    m := AskOnSeededCanvas();
    ghost var asked := m.nodes;
    ghost var p := m.pending[0];
    m.Complete();
    ScenarioIds();
    assert m.nodes == asked + [NewAnswerNode("answer-3", asked[2], p.queryText)] by {
      assert m.nodes == CompletedNodes(asked, p, "answer-3");
    }
    assert m.nodes[3].position == Pos(280, 270);
    assert m.edges[1] == AnswerEdge("query-2", "answer-3");
    assert m.pending == [];
  }

  /** A user asks "Why?" and the query node is deleted from the canvas
      before its answer runs: the canvas is back to its seeded nodes and
      edge, but the answer for `query-2` is still scheduled. */
  method AskThenRemove() returns (m: MindMap)
    ensures fresh(m) && m.Valid()
    ensures m.nodes == InitialNodes && m.edges == InitialEdges && m.counter == 3
    ensures m.pending == [Pending("query-2", "Why?")]
  {
    m := new MindMap();
    m.OpenQueryInput();
    m.EditQueryText("Why?");
    assert !IsBlank(m.newQueryText) by {
      assert !IsWhitespace(m.newQueryText[0]);
    }
    m.AddQueryNode(Pos(100, 50));
    ScenarioIds();
    FindAppended(InitialNodes, m.nodes[2]);
    m.RemoveNode("query-2");
    RemoveAppended(InitialNodes, NewQueryNode("query-2", Pos(100, 50), "Why?"));
  }

  /** When that answer completes, no answer node appears, but the edge to
      the answer id is still added, with neither end on the canvas. */
  method AnswerAfterQueryRemoved() returns (m: MindMap)
    ensures fresh(m) && m.Valid()
    ensures m.nodes == InitialNodes && m.pending == []
    ensures m.edges == InitialEdges + [AnswerEdge("query-2", "answer-3")]
    ensures forall i :: 0 <= i < |m.nodes| ==> m.nodes[i].id != "query-2" && m.nodes[i].id != "answer-3"
  {
    m := AskThenRemove();
    m.Complete();
    ScenarioIds();
  }
}
