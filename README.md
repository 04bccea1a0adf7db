# MindMapper canvas model

MindMapper is a visual canvas for talking to a language model. The user asks a
question as a **query node**. The answer comes back as an **answer node** of
bullet points placed below the query and linked to it by an edge. Each bullet
offers three actions: expand, look up sources, and ask a custom follow-up.
Search results are shown in **sources nodes**.

This project models the logic behind that canvas in Dafny:

- `MindMapCanvas` (mind_map_canvas.dfy) covers the canvas's graph state.
  - It is a class `MindMap` with these fields: the node list, the edge list, the shared id counter, the query-input fields, and a queue of answers scheduled but not yet produced.
  - Its methods are `GetNextId`, `AddQueryNode`, `Complete` and `RemoveNode`, plus the input setters.
    - `Complete` is the deferred body of `simulateAnswer`.
    - `RemoveNode` is a node deletion by the flow library.
  - `GraphOk` is the invariant every method keeps (`GetNextId` keeps it whenever it held before the call):
    - unique ids, each issued by the counter with the node type's prefix;
    - well-formed query and answer nodes;
    - at most one answer edge per query;
    - distinct edge ids, each either the seeded edge's literal id or `e-<source>-<target>`;
    - a query comes before its answer in the node list.
  - Client methods replay scenarios from start to finish: `AskOnSeededCanvas`, `AskAndAnswer`, `AskThenRemove` and `AnswerAfterQueryRemoved`.
- `Graph` (graph.dfy) holds the node, edge and `data` records. It also has:
  - the `prefix-counter` id scheme and its parser;
  - the `find` lookup;
  - the `nodesWithHandlers` projection.
- `AnswerNode` (answer_node.dfy) covers two things:
  - which bullets an answer node shows;
  - how a bullet's action reaches the canvas callback.
- `SourcesNode` (sources_node.dfy) covers what a sources node lists, or the placeholder it shows when there are no sources.
- `Text` (text.dfy) models the JavaScript string operations these rely on:
  - `trim`;
  - `split` on a character;
  - the blank-line filter;
  - decimal rendering of the counter.

  It also defines `Join`. The canvas never joins strings; `Join` is a reference definition against which `Split` is proved to be an exact inverse.
- `Wrappers` (wrappers.dfy) holds `Option`, which stands for a missing property or `undefined`.

JavaScript's `||` treats the empty string as missing, and the model follows that:

- `label || ''`, `title || url` and `label || 'Sources will appear here'` fall back on `Some("")` as they do on `None`.
- `bullets[i]` outside the list is `None`. The callback is still called, as in the code.

## Model

| member | source | states |
|---|---|---|
| Text.TrimStart | frontend/src/components/MindMapCanvas.jsx:87 | the result is a suffix that starts with a non-whitespace character (or is empty), and everything dropped is whitespace |
| Text.TrimEnd | frontend/src/components/MindMapCanvas.jsx:87 | the result is a prefix that ends with a non-whitespace character (or is empty), and everything dropped is whitespace |
| Text.IsWhitespace | frontend/src/components/MindMapCanvas.jsx:87 | the characters `trim` strips: ECMAScript's WhiteSpace and LineTerminator code points |
| Text.Trim | frontend/src/components/MindMapCanvas.jsx:87 | `s.trim()` is no longer than `s` and, unless empty, starts and ends with a non-whitespace character |
| Text.TrimEmptyIffBlank | frontend/src/components/MindMapCanvas.jsx:87 | `s.trim()` is empty exactly when every character of `s` is JavaScript whitespace |
| Text.IndexOf | frontend/src/components/MindMapCanvas.jsx:80 | a found index holds the character, with no earlier occurrence; not found means the character does not occur |
| Text.Split | frontend/src/components/AnswerNode.jsx:16 | `split` always yields at least one segment |
| Text.SegmentsHaveNoSeparator | frontend/src/components/AnswerNode.jsx:16 | no segment of `split('\n')` contains a line break |
| Text.JoinSplit | frontend/src/components/AnswerNode.jsx:16 | joining the segments with the separator gives the original string back |
| Text.SplitConcat | frontend/src/components/AnswerNode.jsx:16 | splitting `a + sep + t` gives the segments of `a` followed by those of `t` |
| Text.SplitJoin | frontend/src/components/AnswerNode.jsx:16 | splitting a join of separator-free segments gives the segments back |
| Text.NonBlank | frontend/src/components/AnswerNode.jsx:16 | the filter keeps only segments with a non-whitespace character, each one taken from the input, and never more than the input has |
| Text.KeepLine | frontend/src/components/AnswerNode.jsx:16 | the filter test `line.trim()` is truthy exactly for non-blank lines |
| Text.NonBlankAppend | frontend/src/components/AnswerNode.jsx:16 | the filter distributes over concatenation, so kept lines stay in input order |
| Text.NonBlankKeeps | frontend/src/components/AnswerNode.jsx:16 | no non-blank segment is dropped |
| Text.NonBlankIdentity | frontend/src/components/AnswerNode.jsx:16 | a list without blank segments passes the filter unchanged |
| Text.Decimal | frontend/src/components/MindMapCanvas.jsx:80 | the counter renders as a non-empty string of decimal digits |
| Text.DecimalRoundTrip | frontend/src/components/MindMapCanvas.jsx:80 | reading the rendered counter back gives the counter |
| Graph.TypeName | frontend/src/components/MindMapCanvas.jsx:90-108 | the node types' id prefixes are non-empty and contain no `-`: `query` and `answer`, the two the canvas passes to `getNextId` (lines 90 and 108), and `sources`, this model's own prefix for a node type the canvas never creates |
| Graph.IdOf | frontend/src/components/MindMapCanvas.jsx:80 | the id `${prefix}-${counter}` is the prefix, a `-`, then the counter's decimal digits |
| Graph.ParseId | frontend/src/components/MindMapCanvas.jsx:80 | a parsed id's prefix contains no `-` |
| Graph.TypeNamesHaveNoDash | frontend/src/components/MindMapCanvas.jsx:90-108 | no node type's prefix contains a `-`: neither `query` nor `answer`, passed to `getNextId` at lines 90 and 108, nor the model's own `sources` |
| Graph.ParseIdOf | frontend/src/components/MindMapCanvas.jsx:80 | the id `${prefix}-${counter}` parses back to its prefix and counter |
| Graph.IdOfInjective | frontend/src/components/MindMapCanvas.jsx:79-83 | two generated ids are equal only when prefix and counter are |
| Graph.FindIndex | frontend/src/components/MindMapCanvas.jsx:112 | `find` yields the first node with the id, or none exactly when no node has it |
| Graph.FindAppended | frontend/src/components/MindMapCanvas.jsx:112 | a node appended under a new id is found at the end of the list |
| Graph.WithHandler | frontend/src/components/MindMapCanvas.jsx:171-184 | an answer node keeps id, type, position, label, bullets and sources, and gains all three callbacks; any other node is returned unchanged |
| Graph.WithHandlers | frontend/src/components/MindMapCanvas.jsx:171-184 | the projection keeps the length and maps each node by `WithHandler` at the same index |
| Graph.WithHandlersKeepsIds | frontend/src/components/MindMapCanvas.jsx:171-184 | the projection keeps length, order and ids, so unique ids stay unique |
| Graph.WithHandlersIdempotent | frontend/src/components/MindMapCanvas.jsx:171-184 | the projection's output is a fixed point of it: projecting twice gives what projecting once does |
| Graph.WithHandlersKeepsHandled | frontend/src/components/MindMapCanvas.jsx:171-184 | when every answer node already holds all three callbacks, as the answer nodes `simulateAnswer` creates do (lines 129-131), the projection returns the node list unchanged |
| AnswerNode.LabelOrEmpty | frontend/src/components/AnswerNode.jsx:16 | the label is read as it is when present and as the empty string when missing |
| AnswerNode.LabelLines | frontend/src/components/AnswerNode.jsx:16 | every bullet taken from a label is non-blank and contains no line break |
| AnswerNode.DeriveBullets | frontend/src/components/AnswerNode.jsx:14-16 | an array in `data.bullets` is used as it is; otherwise the bullets are the non-blank lines of the label (missing reads as empty) |
| AnswerNode.BulletsAreNonBlankLines | frontend/src/components/AnswerNode.jsx:16 | without a bullets array, a string is a bullet exactly when it is a non-blank line of the label, with no line break |
| AnswerNode.MissingLabelNoBullets | frontend/src/components/AnswerNode.jsx:16 | with no bullets array and a missing or empty label, there are no bullets |
| AnswerNode.LabelLinesConcat | frontend/src/components/AnswerNode.jsx:16 | the bullets of `a + '\n' + b` are those of `a` followed by those of `b`, so line order is kept |
| AnswerNode.LabelRoundTrip | frontend/src/components/AnswerNode.jsx:16 | when no line of the label is blank, joining the bullets with line breaks gives the label back |
| AnswerNode.BulletAt | frontend/src/components/AnswerNode.jsx:20 | `bullets[i]` is defined exactly for indices inside the list, and is then the bullet at `i` |
| AnswerNode.Forward | frontend/src/components/AnswerNode.jsx:18-34 | an action does nothing exactly when its callback is absent |
| AnswerNode.ForwardAddressesBullet | frontend/src/components/AnswerNode.jsx:18-34 | for a bullet at index `i`, the callback receives the node id, `i` and that bullet; any text a callback receives is the bullet at the index passed with it |
| AnswerNode.SourcesOfSecondBullet | frontend/src/components/AnswerNode.jsx:24-28 | for bullets `["a","b","c"]` and index 1, the sources callback receives `"b"` |
| SourcesNode.SourcesOf | frontend/src/components/SourcesNode.jsx:9 | a missing `sources` reads as the empty list; a present one is used as it is |
| SourcesNode.DisplayText | frontend/src/components/SourcesNode.jsx:29 | the title when it is present and non-empty, the url otherwise, so the text is empty only when the url is |
| SourcesNode.Entries | frontend/src/components/SourcesNode.jsx:19-31 | one entry per source, in order; the entry at `i` is numbered `first + i`, shows the title, or the url when the title is missing or empty, and links to the url |
| SourcesNode.EntriesAppend | frontend/src/components/SourcesNode.jsx:19-31 | listing two parts lists the first, then the second numbered on from where the first ended |
| SourcesNode.Render | frontend/src/components/SourcesNode.jsx:19-35 | a listing appears exactly when there are sources, numbered from 1 with the title, or the url when the title is missing or empty, and the url; otherwise a non-empty label is shown, or `Sources will appear here` |
| SourcesNode.NoResultsShowPlaceholder | frontend/src/components/SourcesNode.jsx:33-35 | a missing or empty result list shows the placeholder |
| MindMapCanvas.NewQueryNode | frontend/src/components/MindMapCanvas.jsx:89-94 | the new query node has the given id and position, type `query` and the input text as its label; with non-blank text it is well formed |
| MindMapCanvas.NewAnswerNode | frontend/src/components/MindMapCanvas.jsx:115-133 | the answer node has the given id, type `answer`, position (x-20, y+150) from its query, the simulated bullets and the three callbacks; it is well formed |
| MindMapCanvas.AnswerEdge | frontend/src/components/MindMapCanvas.jsx:141-147 | the edge runs from the query id to the answer id, and its id is three characters longer than the two ids together |
| MindMapCanvas.AnswerEdgeIdParts | frontend/src/components/MindMapCanvas.jsx:142 | the edge id reads as `e-`, then the query id, a `-`, then the answer id |
| MindMapCanvas.EdgeIdQueryEnd | frontend/src/components/MindMapCanvas.jsx:142 | in the id of an edge from a generated query id, no `-` follows `e-query-` until the one that ends the query id |
| MindMapCanvas.AnswerEdgeIdInjective | frontend/src/components/MindMapCanvas.jsx:142 | two edges from `query-<n>` to `answer-<m>` have the same id only when both `n` and `m` are equal |
| MindMapCanvas.GeneratedEdgeNotSeed | frontend/src/components/MindMapCanvas.jsx:49-57 | no edge id generated from a query id equals the seeded edge's id `e-query1-answer1` |
| MindMapCanvas.SimulatedBullets | frontend/src/components/MindMapCanvas.jsx:123-128 | a simulated answer has exactly four bullets, and the first quotes the query text |
| MindMapCanvas.IssuedAt | frontend/src/components/MindMapCanvas.jsx:79-83 | an id issued below a counter value was issued at some counter value below it |
| MindMapCanvas.FreshIdIsNew | frontend/src/components/MindMapCanvas.jsx:79-83 | an id issued before the counter reached `c` differs from the id issued at `c`, whatever the prefixes |
| MindMapCanvas.GeneratedIdsAvoidSeeds | frontend/src/components/MindMapCanvas.jsx:27-47 | no counter value from 2 up gives `query-1` or `answer-1` |
| MindMapCanvas.HandlersReachEveryAnswerBullet | frontend/src/components/MindMapCanvas.jsx:171-184 | after the projection, each action on each bullet of each answer node reaches its callback with that node's id, the index and the bullet |
| MindMapCanvas.InitialNodes | frontend/src/components/MindMapCanvas.jsx:27-47 | the seeded query `query-1` at (250, 50) and answer `answer-1` at (200, 180) with its four bullets |
| MindMapCanvas.InitialEdges | frontend/src/components/MindMapCanvas.jsx:49-57 | the seeded edge `e-query1-answer1` from `query-1` to `answer-1` |
| MindMapCanvas.SeedGraphOk | frontend/src/components/MindMapCanvas.jsx:27-57 | one issued query, one issued answer and the edge between them, with the seeded id or the generated one, satisfy the invariant |
| MindMapCanvas.SeedIdsIssued | frontend/src/components/MindMapCanvas.jsx:29-35 | the seeded ids read as issued at counter 1, below the initial counter 2 |
| MindMapCanvas.InitialGraphOk | frontend/src/components/MindMapCanvas.jsx:27-70 | the seeded nodes, the seeded edge and counter 2 satisfy the invariant |
| MindMapCanvas.NodesAppend | frontend/src/components/MindMapCanvas.jsx:96 | appending a well-formed node under the id issued at `c` keeps ids unique and issued below `c + 1` |
| MindMapCanvas.AddQueryKeepsGraphOk | frontend/src/components/MindMapCanvas.jsx:86-103 | one new query node and its scheduled answer, under the next id, keep the invariant |
| MindMapCanvas.CompletedNodesShape | frontend/src/components/MindMapCanvas.jsx:111-136 | for `CompletedNodes`, the updater handed to `setNodes`: if the query is gone the node list is unchanged; otherwise exactly one answer node is appended after the unchanged list, with the answer id, placed at (x-20, y+150) from its query, with four bullets quoting the query text and the three callbacks |
| MindMapCanvas.CompleteNodesOk | frontend/src/components/MindMapCanvas.jsx:111-136 | completing keeps node ids unique and issued |
| MindMapCanvas.CompletePrecede | frontend/src/components/MindMapCanvas.jsx:111-148 | after completion, a query still comes before its answer |
| MindMapCanvas.CompleteEdgesOk | frontend/src/components/MindMapCanvas.jsx:139-148 | the new edge runs from a query id to a fresh answer id; no two edges share a source or a target; queries still waiting have no edge |
| MindMapCanvas.CompleteEdgeIdsOk | frontend/src/components/MindMapCanvas.jsx:139-148 | the appended edge's generated id differs from every earlier edge id, seeded or generated, so edge ids stay unique |
| MindMapCanvas.CompletePendingOk | frontend/src/components/MindMapCanvas.jsx:106-107 | dropping the completed entry keeps the queue well formed |
| MindMapCanvas.CompleteKeepsGraphOk | frontend/src/components/MindMapCanvas.jsx:106-150 | the state after the oldest scheduled answer completes satisfies the invariant |
| MindMapCanvas.RemoveAt | frontend/src/components/MindMapCanvas.jsx:191 | removal drops exactly one node and keeps the others in order |
| MindMapCanvas.RemovedIdGone | frontend/src/components/MindMapCanvas.jsx:191 | with unique ids, no node with the removed id remains |
| MindMapCanvas.RemoveKeepsGraphOk | frontend/src/components/MindMapCanvas.jsx:191 | removing a node keeps the invariant (edges may now dangle) |
| MindMapCanvas.MindMap.constructor | frontend/src/components/MindMapCanvas.jsx:27-70 | the canvas starts with the two seeded nodes and their edge, counter 2, the input closed and empty, nothing scheduled, and the invariant holding |
| MindMapCanvas.MindMap.GetNextId | frontend/src/components/MindMapCanvas.jsx:79-83 | returns `prefix-counter` and raises the counter by exactly one; the invariant, if it held, still holds |
| MindMapCanvas.MindMap.OpenQueryInput | frontend/src/components/MindMapCanvas.jsx:258 | opens the query input |
| MindMapCanvas.MindMap.EditQueryText | frontend/src/components/MindMapCanvas.jsx:226 | the input text becomes what was typed |
| MindMapCanvas.MindMap.CancelQueryInput | frontend/src/components/MindMapCanvas.jsx:246-249 | closes and clears the input |
| MindMapCanvas.MindMap.AddQueryNode | frontend/src/components/MindMapCanvas.jsx:86-103 | on blank text nothing changes. Otherwise: one query node labelled with the untrimmed text is appended under `query-<counter>`; earlier nodes, and all edges, stay as they were; the counter rises by one; the input is cleared and closed; one answer is scheduled for that id. The invariant is kept |
| MindMapCanvas.MindMap.Complete | frontend/src/components/MindMapCanvas.jsx:106-150 | the oldest scheduled answer leaves the queue and takes `answer-<counter>`; the nodes become `CompletedNodes`; the edge `e-<queryId>-<answerId>` is appended whether or not the query is still there; the input is untouched; the invariant is kept |
| MindMapCanvas.MindMap.RemoveNode | frontend/src/components/MindMapCanvas.jsx:191 | the node with the id, if any, is dropped and the rest keep their order; no node with that id remains; edges and the queue are untouched; the invariant is kept |
| MindMapCanvas.AskOnSeededCanvas | frontend/src/components/MindMapCanvas.jsx:86-103 | asking "What is Climate Change?" on the seeded canvas adds `query-2` as the third node and schedules its answer |
| MindMapCanvas.AskAndAnswer | frontend/src/components/MindMapCanvas.jsx:106-150 | once that answer completes, `answer-3` is the fourth node, at (280, 270), the edge `query-2` to `answer-3` follows the seeded edge, and nothing is left scheduled |
| MindMapCanvas.AskThenRemove | frontend/src/components/MindMapCanvas.jsx:86-103 | asking "Why?" and then deleting its node leaves the seeded nodes and edge, counter 3, and the answer for `query-2` still scheduled |
| MindMapCanvas.AnswerAfterQueryRemoved | frontend/src/components/MindMapCanvas.jsx:112-148 | that answer then adds no node, but the edge `query-2` to `answer-3` is appended although neither end is on the canvas |

## Left out

- Rendering is not modelled: JSX, ReactFlow's `Handle`, `Background`, `Controls`, the `MiniMap` colours, panels and CSS. The answer node's `hoveredBullet` state is UI only. `QueryNode.jsx` only renders its label and is not part of this model.
- `onConnect` and `onEdgesChange` are left out. They delegate to the flow library's `addEdge` and change handlers, and that code is not part of this model.
- `onNodesChange` is modelled only as the removal of one node by id (`RemoveNode`).
- Root positions come from `Math.random()` and are floating point in the source. The model takes the position as a parameter, and coordinates are integers.
- The 500 ms `setTimeout` in `simulateAnswer` becomes a FIFO queue of pending answers plus a `Complete` step. Timers of equal delay fire in scheduling order. Timing and interleaving with user input beyond that order are not modelled.
- The canvas's `handleExpand`, `handleSources` and `handleCustomQuery` are logging stubs that do not change the graph. They are modelled only as the set of callbacks an answer node holds, and callbacks are identified by their action.
- MindMapCanvas.MindMap.GetNextId: the model reads and increments the counter directly. React's render closures are not modelled.
- MindMapCanvas.MindMap.Complete: the answer id is taken from the counter at completion time. In the source, `simulateAnswer` uses the `getNextId` captured in the render that scheduled it. `addQueryNode` and `simulateAnswer` come from the same render, so that closure always sees the counter value the query took: the answer to `query-N` is always `answer-N`, and its edge is always `e-query-N-answer-N`. The model gives the answer the counter value at completion instead. So in `AskAndAnswer` and `AnswerAfterQueryRemoved`, the model's `answer-3` and `e-query-2-answer-3` are `answer-2` and `e-query-2-answer-2` in the source. Ids stay distinct in the source only because the prefixes differ.
- The id counter is an unbounded natural number. In the source `nodeIdCounter` is a JavaScript number, an IEEE double. Once it reaches 2^53, `prev + 1` no longer changes it and generated ids repeat. Id uniqueness (`FreshIdIsNew`, `IdOfInjective`, `NodesOk`) is therefore proved for an unbounded counter and holds for the source only below 2^53.
- The seeded edge id `e-query1-answer1` does not follow the generated `e-<queryId>-<answerId>` form. It is kept as literal initial data.
- Edges are meant to join two nodes on the canvas. The code does not guarantee this: `Complete` appends the answer edge even when the query has been removed. The model follows the code, and `AnswerAfterQueryRemoved` shows the resulting dangling edge. The invariant therefore only requires that a query precede its answer when both are present.
