/** The records the canvas keeps: ReactFlow nodes and edges, with the
    `data` payload the three node components read, node ids of the form
    `<prefix>-<counter>`, the `find` lookup and the `nodesWithHandlers`
    projection that hands the bullet callbacks to answer nodes. */
module Graph {
  import opened Wrappers
  import opened Text

  /** The registered node types `query`, `answer` and `sources`. */
  datatype NodeType = Query | Answer | Sources

  /** The three bullet callbacks `onExpand`, `onSources`, `onCustomQuery`. */
  datatype Action = OnExpand | OnSources | OnCustomQuery

  const AllActions: set<Action> := {OnExpand, OnSources, OnCustomQuery}

  /** Canvas coordinates (integers here; see README). */
  datatype Pos = Pos(x: int, y: int)

  /** One search result shown by a sources node. */
  datatype Source = Source(url: string, title: Option<string>)

  /** A node's `data` object (`nodeLabel` is its `label` property). Each
      property may be missing; `bullets` is `Some` exactly when the property
      is an array, and `callbacks` holds the callbacks that are present. */
  datatype NodeData = NodeData(
    nodeLabel: Option<string>,
    bullets: Option<seq<string>>,
    sources: Option<seq<Source>>,
    callbacks: set<Action>)

  datatype Node = Node(id: string, nodeType: NodeType, position: Pos, data: NodeData)

  /** A directed edge; animation and stroke style are presentation. */
  datatype Edge = Edge(id: string, source: string, target: string)

  /** The prefix of each node type's ids. The canvas calls `getNextId`
      with `query` and `answer`; it never creates a sources node, and
      `sources` is this model's own prefix for that type. */
  function TypeName(t: NodeType): (r: string)
    ensures |r| > 0 && '-' !in r
  {
    match t
    case Query => "query"
    case Answer => "answer"
    case Sources => "sources"
  }

  /** The id template `${prefix}-${counter}`. */
  function IdOf(prefix: string, n: nat): (id: string)
    ensures |id| > |prefix| + 1 && id[..|prefix|] == prefix && id[|prefix|] == '-'
    ensures id[|prefix| + 1..] == Decimal(n) && AllDigits(id[|prefix| + 1..])
  {
    prefix + "-" + Decimal(n)
  }

  /** Reads an id back as its prefix and counter value: the prefix is what
      precedes the first `-`, and what follows must be decimal digits. */
  function ParseId(id: string): (r: Option<(string, nat)>)
    ensures r.Some? ==> '-' !in r.value.0
  {
    match IndexOf(id, '-')
    case None => None
    case Some(k) =>
      var digits := id[k + 1..];
      if digits != [] && AllDigits(digits) then Some((id[..k], ParseDecimal(digits))) else None
  }

  /** No node type's prefix contains a `-`. */
  lemma TypeNamesHaveNoDash(t: NodeType)
    ensures '-' !in TypeName(t)
  {
  }

  /** Parsing a generated id recovers the prefix and the counter value it
      was built from. */
  lemma ParseIdOf(prefix: string, n: nat)
    requires '-' !in prefix
    ensures ParseId(IdOf(prefix, n)) == Some((prefix, n))
  {
    var id := IdOf(prefix, n);
    assert id == prefix + ['-'] + Decimal(n);
    IndexOfAfter(prefix, '-', Decimal(n));
    assert id[..|prefix|] == prefix;
    assert id[|prefix| + 1..] == Decimal(n);
    DecimalRoundTrip(n);
  }

  /** Two generated ids are equal only if prefix and counter value are. */
  lemma IdOfInjective(p1: string, n1: nat, p2: string, n2: nat)
    requires '-' !in p1 && '-' !in p2
    requires IdOf(p1, n1) == IdOf(p2, n2)
    ensures p1 == p2 && n1 == n2
  {
    ParseIdOf(p1, n1);
    ParseIdOf(p2, n2);
  }

  /** The position of the first node with the given id: what
      `nds.find((n) => n.id === id)` returns, by index. */
  function FindIndex(nodes: seq<Node>, id: string): (r: Option<nat>)
    ensures r.Some? ==> r.value < |nodes| && nodes[r.value].id == id
    ensures r.Some? ==> forall j :: 0 <= j < r.value ==> nodes[j].id != id
    ensures r.None? <==> forall j :: 0 <= j < |nodes| ==> nodes[j].id != id
  {
    if nodes == [] then None
    else if nodes[0].id == id then Some(0)
    else
      match FindIndex(nodes[1..], id)
      case None => None
      case Some(k) => Some(k + 1)
  }

  /** A node appended under an id no earlier node has is found at the end. */
  lemma {:induction false} FindAppended(nodes: seq<Node>, n: Node)
    requires forall i :: 0 <= i < |nodes| ==> nodes[i].id != n.id
    ensures FindIndex(nodes + [n], n.id) == Some(|nodes|)
  {
    if nodes != [] {
      FindAppended(nodes[1..], n);
      assert (nodes + [n])[1..] == nodes[1..] + [n];
    }
  }

  /** No two nodes share an id. */
  ghost predicate DistinctIds(nodes: seq<Node>) {
    forall i, j :: 0 <= i < j < |nodes| ==> nodes[i].id != nodes[j].id
  }

  /** One element of `nodesWithHandlers`: an answer node with its `data`
      spread and the three callbacks set; any other node as it is. */
  function WithHandler(n: Node): (r: Node)
    ensures r.id == n.id && r.nodeType == n.nodeType && r.position == n.position
    ensures r.data.nodeLabel == n.data.nodeLabel && r.data.bullets == n.data.bullets
    ensures r.data.sources == n.data.sources
    ensures n.nodeType != Answer ==> r == n
    ensures n.nodeType == Answer ==> r.data.callbacks == AllActions
  {
    if n.nodeType == Answer then n.(data := n.data.(callbacks := AllActions)) else n
  }

  /** `nodes.map(...)` in `nodesWithHandlers`. */
  function WithHandlers(nodes: seq<Node>): (r: seq<Node>)
    ensures |r| == |nodes|
    ensures forall i :: 0 <= i < |nodes| ==> r[i] == WithHandler(nodes[i])
  {
    if nodes == [] then [] else [WithHandler(nodes[0])] + WithHandlers(nodes[1..])
  }

  /** The projection keeps length, order and every id. */
  lemma WithHandlersKeepsIds(nodes: seq<Node>)
    ensures |WithHandlers(nodes)| == |nodes|
    ensures forall i :: 0 <= i < |nodes| ==> WithHandlers(nodes)[i].id == nodes[i].id
    ensures DistinctIds(nodes) ==> DistinctIds(WithHandlers(nodes))
  {
  }

  /** Applying the projection twice is applying it once. */
  lemma {:induction false} WithHandlersIdempotent(nodes: seq<Node>)
    ensures WithHandlers(WithHandlers(nodes)) == WithHandlers(nodes)
  {
    if nodes != [] {
      WithHandlersIdempotent(nodes[1..]);
      assert WithHandlers(nodes)[1..] == WithHandlers(nodes[1..]);
    }
  }

  /** Nodes whose answer nodes already hold all three callbacks, as the
      answer nodes the canvas creates do, pass the projection unchanged. */
  lemma {:induction false} WithHandlersKeepsHandled(nodes: seq<Node>)
    requires forall i :: 0 <= i < |nodes| && nodes[i].nodeType == Answer ==> nodes[i].data.callbacks == AllActions
    ensures WithHandlers(nodes) == nodes
  {
    if nodes != [] {
      WithHandlersKeepsHandled(nodes[1..]);
      assert nodes == [nodes[0]] + nodes[1..];
    }
  }
}
