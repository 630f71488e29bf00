# Traveling-Salesman search core, modelled in Dafny

The program reads a table of road distances between US states. Each row gives a source
state, a distance and a target state. From that table it builds an undirected graph of
`StateNode`s keyed by numeric id. It then runs a parallel branch-and-bound search for the
shortest walk from Washington ("WA") to Maine ("ME") that visits every state at least once.

The model covers four parts:

- **Loading the graph** (`StateGraph`, `graph.dfy`):
  - state names are interned to ids;
  - every row adds a connection in each direction;
  - a row with a missing field fails the load;
  - the start and the goal states are looked up by name.
- **One worker step** (`Search`, `search.dfy`):
  - the visits of each neighbour of the path's last state are counted;
  - targets already visited more than twice are dropped;
  - the rest are sorted stably, most visited first, then longest connection first;
  - children that are not strictly shorter than the best length found so far are pruned;
  - a path that reaches the goal is accepted if it covers every state.
- **The acquisition thread** (`Acquisition`, `acquisition.dfy`): the shared best length
  starts at the largest `u32` and only ever goes down.
- **`Option` and `Result`** (`Wrappers`, `wrappers.dfy`).

Ids have a closed form. Let `Slots(edges)` be the names of the loaded rows in field order:
source 0, target 0, source 1, target 1, and so on. A state's id is the position of its
first occurrence in that list. This follows from how the loader counts (`src/main.rs:78-90`).
The block passed to `or_insert` is evaluated whether or not the name is already in the
table, so the counter goes up by two on every row, whether or not the names are new. So ids are unique but not dense.
`IdsSkipValues` shows a two-row table whose ids are {0, 1, 3}.

Notes on what the code does, which the model follows:

- The comparator in `src/main.rs:222-235` compares `count_b` with `count_a`, then
  `b.distance` with `a.distance`. So the **most** visited target comes first, and among
  equals the longest connection comes first. The comment above it speaks of trying unvisited
  states first. That only holds because the worker pops paths from the end of its queue.
  The model states the order the comparator produces.
- The retain keeps targets seen at most twice. So a child path may hold a state three times.
- The variable named `california` holds the node named "WA". The model calls it the start.

## Model

| member | source | states |
|---|---|---|
| StateGraph.LoadStates | src/main.rs:54-120 | The load fails exactly when some row lacks a field. The error names the first missing field of the first such row. On success the graph is `GraphOf` of the rows' edges. |
| StateGraph.ReadRecord | src/main.rs:66-76 | Fields are read in order: source, distance, target. The first absent one is the error. An unparsable distance becomes 0. |
| StateGraph.AddRecord | src/main.rs:78-116 | The counter goes up by exactly 2 per row. The name table and node map stay those built from the rows so far, with the new row included. |
| StateGraph.LoadStep | src/main.rs:78-116 | A looked-up id is the interned one if the name is known, and the counter value otherwise. After one row, the name table and the node map are the old ones with the two ids and the two opposite connections added. |
| StateGraph.LookedUpIds | src/main.rs:78-90 | The ids `or_insert` returns for a row's source and target are their first-occurrence positions in `Slots`. |
| StateGraph.NewSourceId | src/main.rs:78-83 | The source keeps its old id if already named. Otherwise it gets 2 × the number of earlier rows. |
| StateGraph.NewTargetId | src/main.rs:85-90 | The target keeps its old id if already named. It gets the source's id if equal to the source. Otherwise it gets 2 × the number of earlier rows + 1. |
| StateGraph.IdFixedAtFirstOccurrence | src/main.rs:78-90 | Once a name has an id, later rows never change it. |
| StateGraph.NameTableAppend | src/main.rs:78-90 | A row adds to the name table only the names not yet in it, each with its new id. |
| StateGraph.GraphClosedForm | src/main.rs:95-116 | The node keys are exactly the interned ids. Node k holds the name first seen at slot k, id k, and the connections of the rows that mention it, in row order. |
| StateGraph.NodesAreKeyedByTheirIds | src/main.rs:54-120 | Each node's `id` equals its key. Every loaded name has a node. Different names get different ids. |
| StateGraph.IdsSkipValues | src/main.rs:78-90 | Ids are not dense: rows WA–OR then OR–ID give the keys {0, 1, 3}. |
| StateGraph.TwoConnectionsPerRecord | src/main.rs:95-116 | Every key is below 2 × the number of rows. The connection lists together hold exactly two entries per row. |
| StateGraph.ConnectionsStayInGraph | src/main.rs:95-116 | Every connection's target is a key of the loaded graph. |
| StateGraph.GetStartAndEnd | src/main.rs:122-148 | Succeeds exactly when nodes named "WA" and "ME" exist, and returns such nodes. When "WA" is absent the error is about the start; otherwise it is about the end. |
| Search.GetEnd | src/main.rs:37-39 | The end of a non-empty path (`get_end`, and the same indexing at line 193) is one of its states: the last one. |
| Search.GetCount | src/main.rs:203-213 | The loop's count equals the number of occurrences of the state in the path. It is at most the path length, and it is zero exactly when the state is absent. |
| Search.RetainKeepsTheRarelySeen | src/main.rs:218-220 | A connection survives the retain exactly when its target was seen at most twice. Each survivor keeps its multiplicity. |
| Search.FilterConcat | src/main.rs:218-220 | The retain keeps the relative order of the kept connections. |
| Search.FilterPositions | src/main.rs:218-220 | Any two kept elements come from positions of the input in the same order. |
| Search.Compare | src/main.rs:222-235 | Less (a sorts first) exactly when a's target has more visits, or equal visits and a longer distance. Equal exactly on equal visits and distance. Greater otherwise. |
| Search.SortPermutes | src/main.rs:222-235 | The sort is a permutation of the retained connections. |
| Search.SortSorts | src/main.rs:222-235 | No connection is strictly `Before` one that precedes it after the sort. |
| Search.SortIsStable | src/main.rs:222-235 | Connections the comparator calls Equal keep their original relative order, as `sort_by` promises. |
| Search.PushChildren | src/main.rs:242-258 | The loop pushes exactly the children of the connections whose extended length is below the best, in the sorted order. |
| Search.ChildrenAreShorterExtensions | src/main.rs:242-258 | Each child is the path plus one connection's target, with length increased by its distance and below the best. Every such connection yields a child. |
| Search.ChildrenInOrder | src/main.rs:242-258 | Built from a comparator-sorted connection list, no child comes before one whose connection the comparator ranks strictly first. |
| Search.ChildrenKeepConnectionOrder | src/main.rs:242-258 | For any two children, the earlier one comes from a connection at an earlier position in the list, so ties keep the list's order. |
| Search.ExpansionChildren | src/main.rs:215-258 | Each child extends the path by a neighbour of its end. That target was visited at most twice before and at most three times after. The child is strictly shorter than the best. |
| Search.ExpansionComplete | src/main.rs:215-258 | A neighbour yields a child exactly when it was visited at most twice and its extended length is below the best. |
| Search.ExpansionOrdered | src/main.rs:222-258 | No child comes before one whose connection the comparator ranks strictly first: more visited targets first, then longer connections. |
| Search.PrecheckImplied | src/main.rs:267 | A path that covers every state is at least as long as the number of states, so the length precheck never rejects a good path. |
| Search.CoversAll | src/main.rs:267-277 | The result is true exactly when every state id of the graph occurs in the path. |
| Search.WorkerStep | src/main.rs:192-285 | A path not ending at the goal is expanded into exactly `Expansion`. A path ending at the goal is accepted exactly when it covers every state, and is discarded otherwise. |
| Acquisition.RunningMin | src/main.rs:303-310 | The best after a run of solutions is at most the start and at most every solution's length. It equals the start or one of those lengths. |
| Acquisition.BestNeverIncreases | src/main.rs:303-310 | Receiving more solutions never raises the best length. |
| Acquisition.SharedBest.constructor | src/main.rs:172 | The shared best starts at 0xFFFFFFFF. |
| Acquisition.SharedBest.Offer | src/main.rs:305-309 | The best becomes the offered length exactly when that length is strictly smaller. Otherwise it is unchanged. |
| Acquisition.Acquire | src/main.rs:303-310 | After the loop, the best is `RunningMin` of the earlier best over the solutions in arrival order. |

## Left out

- Reading the CSV file and `str::parse`: `records` stands for what the csv reader's
  `records()` yields (`src/main.rs:63-66`), each row as its present fields plus the parsed
  distance (`None` when it does not parse). The reader's I/O and format errors are not
  modelled. Under the csv crate's defaults the header row is skipped and a row whose field
  count differs from the header's is rejected by the reader itself. So the three
  missing-field errors of `src/main.rs:67-76` arise only when the header has fewer than
  three fields; in every other case a short row surfaces as the reader's error, which the
  model reports as `MissingField`.
- The threads, the `Mutex`es, the channel, `num_cpus`, `thread::scope` and `sleep` are not
  modelled. A worker step is a function of the graph, the path, the goal id and the best
  length read under the lock. Solutions reach `Acquire` as a sequence in arrival order.
- The worker's queue handoff (`src/main.rs:186-189`, `261-264`) is not modelled. It takes
  the whole shared queue, keeps only its last path and drops the rest. The model yields one
  step's pushed children; which queued paths are ever explored is out of scope.
- `main`'s set-up of the first path (`src/main.rs:150-172`): only the initial best length
  is modelled (`SharedBest.constructor`).
- `Display for Path`, every `println!`, and the `load_csv` test, which prints the loaded
  names.
- Fixed-width integers: ids, distances and lengths are `nat`. The `u32` wrap-around of
  `path.length + dest.distance` and of the id counter is not modelled.
- `HashMap` iteration order: `GetStartAndEnd` and `CoversAll` scan the keys by choice
  (`:|`). Any order gives the same result, so nothing is lost.
- `Search.GetEnd` and `Search.WorkerStep`: the program panics on an empty path or on an end
  id that is not a key. The model requires a non-empty path whose end is in the graph.
- StateGraph.GetStartAndEnd: the program panics through `expect` when "WA" or "ME" is
  missing. The model returns that as a `LookupError` instead.
- The printed listing of sorted connections (`src/main.rs:237-240`) has no effect on state.
