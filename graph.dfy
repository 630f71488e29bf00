/** The state graph: what `load_states` builds from the edge records of the CSV file,
    and the lookup of the start ("WA") and end ("ME") states done by `get_start_and_end`. */
module StateGraph {
  import opened Wrappers

  /** One adjacency entry: the edge's distance and the id of the node at its far end. */
  datatype Connection = Connection(distance: nat, target: nat)

  /** A state: its name, its id and its adjacency list in insertion order. */
  datatype StateNode = StateNode(name: string, id: nat, connections: seq<Connection>)

  /** The map from id to state that `load_states` returns. */
  type Graph = map<nat, StateNode>

  /** A CSV record: its fields, and what `str::parse` makes of its second field (the
      distance) when there is one. */
  datatype Record = Record(fields: seq<string>, parsedDistance: Option<nat>)

  /** A record whose three fields are present, with its distance parsed. */
  datatype Edge = Edge(source: string, distance: nat, target: string)

  datatype LoadError = MissingSource | MissingDistance | MissingTarget

  predicate Complete(record: Record) {
    |record.fields| >= 3
  }

  /** The error reported for a record of `fieldCount` fields: its first absent field. */
  function MissingField(fieldCount: nat): LoadError
    requires fieldCount < 3
  {
    if fieldCount == 0 then MissingSource
    else if fieldCount == 1 then MissingDistance
    else MissingTarget
  }

  /** The edge a complete record stands for; a distance that does not parse counts as 0. */
  function ToEdge(record: Record): Edge
    requires Complete(record)
  {
    Edge(record.fields[0], record.parsedDistance.UnwrapOr(0), record.fields[2])
  }

  function EdgesOf(records: seq<Record>): (edges: seq<Edge>)
    requires forall i | 0 <= i < |records| :: Complete(records[i])
    ensures |edges| == |records|
    ensures forall i | 0 <= i < |records| :: edges[i] == ToEdge(records[i])
  {
    seq(|records|, i requires 0 <= i < |records| => ToEdge(records[i]))
  }

  /* ---------------------------------------------------------------------------------------
     Id allocation.  The loader looks up the source name and then the target name of every
     record, and bumps its id counter on each lookup whether or not the name is new (the
     argument of `or_insert` is evaluated eagerly).  So the lookup of position k in the
     sequence below happens with counter value k, and a name's id is the position of its
     first lookup.
     --------------------------------------------------------------------------------------- */

  /** The names in the order the loader looks them up: source, then target, record by record. */
  function Slots(edges: seq<Edge>): (names: seq<string>)
    ensures |names| == 2 * |edges|
  {
    if edges == [] then []
    else
      var last := edges[|edges| - 1];
      Slots(edges[..|edges| - 1]) + [last.source, last.target]
  }

  /** The position of the first occurrence of `x` in `s`, or `|s|` if there is none. */
  function FirstIndex<T(==)>(s: seq<T>, x: T): (k: nat)
    ensures k <= |s| && x !in s[..k]
    ensures x in s ==> k < |s| && s[k] == x
  {
    if s == [] then 0
    else if s[0] == x then 0
    else
      var k' := FirstIndex(s[1..], x);
      assert s[..1 + k'] == [s[0]] + s[1..][..k'];
      1 + k'
  }

  /** The id the loader gives `name`. */
  function IdOf(edges: seq<Edge>, name: string): nat
    requires name in Slots(edges)
  {
    FirstIndex(Slots(edges), name)
  }

  /** The positions of `s` that hold the first occurrence of their element. */
  function FirstPositions<T(==)>(s: seq<T>): (ks: set<nat>)
    ensures forall k | k in ks :: k < |s|
  {
    set k | 0 <= k < |s| && s[k] !in s[..k]
  }

  /** The ids in use: the positions at which a name is looked up for the first time. */
  function Ids(edges: seq<Edge>): (ids: set<nat>)
    ensures forall k | k in ids :: k < 2 * |edges|
  {
    FirstPositions(Slots(edges))
  }

  /** The loader's name table (`state_name_map`) after `edges`. */
  function NameTable(edges: seq<Edge>): map<string, nat>
  {
    FirstIndexTable(Slots(edges))
  }

  /** Every element of `s` mapped to the position of its first occurrence. */
  function FirstIndexTable<T(==)>(s: seq<T>): map<T, nat>
  {
    map x | x in s :: FirstIndex(s, x)
  }

  /** The adjacency list of node `id` after `edges`: every record adds one entry to its
      target's list pointing at its source, then one to its source's list pointing at its
      target. */
  function Conns(edges: seq<Edge>, id: nat): seq<Connection>
  {
    if edges == [] then []
    else
      var last := edges[|edges| - 1];
      var s := IdOf(edges, last.source);
      var t := IdOf(edges, last.target);
      Conns(edges[..|edges| - 1], id)
        + (if t == id then [Connection(last.distance, s)] else [])
        + (if s == id then [Connection(last.distance, t)] else [])
  }

  /** The graph `load_states` returns for `edges`: each record attaches a connection to
      its target's node, then one to its source's node. */
  function GraphOf(edges: seq<Edge>): Graph
  {
    if edges == [] then map[]
    else
      var last := edges[|edges| - 1];
      var s := IdOf(edges, last.source);
      var t := IdOf(edges, last.target);
      Attach(Attach(GraphOf(edges[..|edges| - 1]), t, last.target, Connection(last.distance, s)),
             s, last.source, Connection(last.distance, t))
  }

  /** `map.entry(id).or_insert(StateNode { name, id, connections: [] }).connections.push(c)` */
  function Attach(g: Graph, id: nat, name: string, c: Connection): Graph
  {
    var node := if id in g then g[id] else StateNode(name, id, []);
    g[id := node.(connections := node.connections + [c])]
  }

  /** `load_states` over the records of the CSV file. */
  method LoadStates(records: seq<Record>) returns (r: Result<Graph, LoadError>)
    ensures r.Failure? <==> exists i | 0 <= i < |records| :: !Complete(records[i])
    ensures r.Failure? ==>
      exists i | 0 <= i < |records| ::
        && !Complete(records[i])
        && (forall j | 0 <= j < i :: Complete(records[j]))
        && r.error == MissingField(|records[i].fields|)
    ensures r.Success? ==> r.value == GraphOf(EdgesOf(records))
  {
    var nodes: Graph := map[];
    var names: map<string, nat> := map[];
    var next := 0;
    ghost var edges: seq<Edge> := [];
    for i := 0 to |records|
      invariant |edges| == i
      invariant forall j | 0 <= j < i :: Complete(records[j])
      invariant forall j | 0 <= j < i :: edges[j] == ToEdge(records[j])
      invariant next == 2 * i
      invariant Loaded(edges, names, nodes)
    {
      var fields := ReadRecord(records[i]);
      if fields.Failure? {
        return Failure(fields.error);
      }
      var Edge(source, distance, target) := fields.value;
      ghost var x := fields.value;
      names, nodes, next := AddRecord(names, nodes, next, source, distance, target, edges);
      assert Complete(records[i]) && x == ToEdge(records[i]);
      edges := edges + [x];
    }
    assert edges == EdgesOf(records);
    assert nodes == GraphOf(edges);
    return Success(nodes);
  }

  /** The field accesses for one record: the source, then the distance (parsed, or 0 when
      it does not parse), then the target; the first absent field is the error. */
  method ReadRecord(record: Record) returns (r: Result<Edge, LoadError>)
    ensures r.Success? <==> Complete(record)
    ensures r.Success? ==> r.value == ToEdge(record)
    ensures r.Failure? ==> r.error == MissingField(|record.fields|)
  {
    if |record.fields| < 1 {
      return Failure(MissingSource);
    }
    var source := record.fields[0];
    if |record.fields| < 2 {
      return Failure(MissingDistance);
    }
    var distance := record.parsedDistance.UnwrapOr(0);
    if |record.fields| < 3 {
      return Failure(MissingTarget);
    }
    var target := record.fields[2];
    return Success(Edge(source, distance, target));
  }

  /** The loader's name table and node map are those built from `edges`. */
  ghost predicate Loaded(edges: seq<Edge>, names: map<string, nat>, nodes: Graph) {
    names == NameTable(edges) && nodes == GraphOf(edges)
  }

  /** The body of the loader's loop for one complete record: intern the source name, then
      the target name (the counter advancing on each lookup, new name or not), then attach a
      connection to the target's node and one to the source's node. */
  method AddRecord(names: map<string, nat>, nodes: Graph, next: nat,
                   source: string, distance: nat, target: string, ghost edges: seq<Edge>)
    returns (names': map<string, nat>, nodes': Graph, next': nat)
    requires next == 2 * |edges| && Loaded(edges, names, nodes)
    ensures next' == next + 2
    ensures Loaded(edges + [Edge(source, distance, target)], names', nodes')
  {
    next' := next;
    // `entry(name).or_insert(index)` evaluates `index` and so bumps the counter every time.
    var index := next';
    next' := next' + 1;
    var sourceId := if source in names then names[source] else index;
    names' := names[source := sourceId];
    index := next';
    next' := next' + 1;
    var targetId := if target in names' then names'[target] else index;
    names' := names'[target := targetId];

    nodes' := Attach(nodes, targetId, target, Connection(distance, sourceId));
    nodes' := Attach(nodes', sourceId, source, Connection(distance, targetId));
    LoadStep(edges, Edge(source, distance, target), names, nodes, sourceId, targetId);
  }

  /** One record's step of the loader keeps its name table and node map equal to those
      of the records read so far. */
  lemma {:induction false} LoadStep(edges: seq<Edge>, x: Edge, names: map<string, nat>, nodes: Graph, sourceId: nat, targetId: nat)
    requires names == NameTable(edges) && nodes == GraphOf(edges)
    requires sourceId == if x.source in names then names[x.source] else 2 * |edges|
    requires targetId ==
      var names' := names[x.source := sourceId];
      if x.target in names' then names'[x.target] else 2 * |edges| + 1
    ensures NameTable(edges + [x]) == names[x.source := sourceId][x.target := targetId]
    ensures GraphOf(edges + [x]) ==
      Attach(Attach(nodes, targetId, x.target, Connection(x.distance, sourceId)),
             sourceId, x.source, Connection(x.distance, targetId))
  {
    LookedUpIds(edges, x, names, sourceId, targetId);
    NameTableAppend(edges, x);
    assert (edges + [x])[..|edges|] == edges;
  }

  /** The ids the loader looks up for one more record are the closed-form ids. */
  lemma {:induction false} LookedUpIds(edges: seq<Edge>, x: Edge, names: map<string, nat>, sourceId: nat, targetId: nat)
    requires names == NameTable(edges)
    requires sourceId == if x.source in names then names[x.source] else 2 * |edges|
    requires targetId ==
      var names' := names[x.source := sourceId];
      if x.target in names' then names'[x.target] else 2 * |edges| + 1
    ensures x.source in Slots(edges + [x]) && sourceId == IdOf(edges + [x], x.source)
    ensures x.target in Slots(edges + [x]) && targetId == IdOf(edges + [x], x.target)
  {
    NewSourceId(edges, x);
    NewTargetId(edges, x);
  }

  /* ----------------------------- lemmas about ids ----------------------------- */

  lemma {:induction false} FirstIndexUnique<T>(s: seq<T>, x: T, k: nat)
    requires k < |s| && s[k] == x && x !in s[..k]
    ensures FirstIndex(s, x) == k
  {
  }

  lemma {:induction false} SlotsPrefix(edges: seq<Edge>, m: nat)
    requires m <= |edges|
    ensures Slots(edges[..m]) == Slots(edges)[..2 * m]
  {
    if m < |edges| {
      var p := edges[..|edges| - 1];
      assert p[..m] == edges[..m];
      SlotsPrefix(p, m);
    } else {
      assert edges[..m] == edges;
    }
  }

  lemma {:induction false} FirstIndexOfPrefix<T>(s: seq<T>, m: nat, x: T)
    requires m <= |s| && x in s[..m]
    ensures x in s && FirstIndex(s[..m], x) == FirstIndex(s, x)
  {
    var k := FirstIndex(s[..m], x);
    assert s[..m][..k] == s[..k];
    FirstIndexUnique(s, x, k);
  }

  /** A name's id is fixed when the name is first seen: later records do not change it. */
  lemma {:induction false} IdFixedAtFirstOccurrence(edges: seq<Edge>, m: nat, name: string)
    requires m <= |edges| && name in Slots(edges[..m])
    ensures name in Slots(edges)
    ensures IdOf(edges[..m], name) == IdOf(edges, name)
  {
    SlotsPrefix(edges, m);
    FirstIndexOfPrefix(Slots(edges), 2 * m, name);
  }

  lemma {:induction false} SlotsAppend(p: seq<Edge>, x: Edge)
    ensures Slots(p + [x]) == Slots(p) + [x.source, x.target]
  {
    assert (p + [x])[..|p|] == p;
  }

  lemma {:induction false} KeepsOldId(p: seq<Edge>, x: Edge, name: string)
    requires name in Slots(p)
    ensures name in Slots(p + [x]) && IdOf(p + [x], name) == IdOf(p, name)
  {
    assert (p + [x])[..|p|] == p;
    IdFixedAtFirstOccurrence(p + [x], |p|, name);
  }

  lemma {:induction false} FirstIndexOfNewPair<T>(s: seq<T>, a: T, b: T)
    ensures a !in s ==> FirstIndex(s + [a, b], a) == |s|
    ensures b !in s && b != a ==> FirstIndex(s + [a, b], b) == |s| + 1
  {
    var s' := s + [a, b];
    assert s'[..|s|] == s;
    assert s'[..|s| + 1] == s + [a];
    if a !in s {
      FirstIndexUnique(s', a, |s|);
    }
    if b !in s && b != a {
      FirstIndexUnique(s', b, |s| + 1);
    }
  }

  lemma {:induction false} FreshSourceId(p: seq<Edge>, x: Edge)
    requires x.source !in Slots(p)
    ensures x.source in Slots(p + [x]) && IdOf(p + [x], x.source) == 2 * |p|
  {
    SlotsAppend(p, x);
    FirstIndexOfNewPair(Slots(p), x.source, x.target);
  }

  lemma {:induction false} FreshTargetId(p: seq<Edge>, x: Edge)
    requires x.target !in Slots(p) && x.target != x.source
    ensures x.target in Slots(p + [x]) && IdOf(p + [x], x.target) == 2 * |p| + 1
  {
    SlotsAppend(p, x);
    FirstIndexOfNewPair(Slots(p), x.source, x.target);
  }

  /** The id one more record gives its source: a new name gets the counter value 2n, a
      name seen before keeps its id. */
  lemma {:induction false} NewSourceId(p: seq<Edge>, x: Edge)
    ensures x.source in Slots(p + [x])
    ensures IdOf(p + [x], x.source) ==
      if x.source in Slots(p) then IdOf(p, x.source) else 2 * |p|
  {
    if x.source in Slots(p) {
      KeepsOldId(p, x, x.source);
    } else {
      FreshSourceId(p, x);
    }
  }

  /** The id one more record gives its target: a new name gets the counter value 2n + 1,
      or 2n when it is also the record's source; a name seen before keeps its id. */
  lemma {:induction false} NewTargetId(p: seq<Edge>, x: Edge)
    ensures x.target in Slots(p + [x])
    ensures IdOf(p + [x], x.target) ==
      if x.target in Slots(p) then IdOf(p, x.target)
      else if x.target == x.source then 2 * |p|
      else 2 * |p| + 1
  {
    if x.target in Slots(p) {
      KeepsOldId(p, x, x.target);
    } else if x.target == x.source {
      FreshSourceId(p, x);
    } else {
      FreshTargetId(p, x);
    }
  }

  lemma {:induction false} FirstPositionsOfNewPair<T>(s: seq<T>, a: T, b: T)
    ensures FirstPositions(s + [a, b]) ==
      FirstPositions(s) + {FirstIndex(s + [a, b], a), FirstIndex(s + [a, b], b)}
  {
    var s' := s + [a, b];
    NewPairIndices(s, a, b);
    forall k: nat
      ensures k in FirstPositions(s') <==>
        k in FirstPositions(s) || k == FirstIndex(s', a) || k == FirstIndex(s', b)
    {
      FirstPositionOfNewPair(s, a, b, k);
    }
  }

  /** Where the first occurrences of `a` and `b` lie once they are appended to `s`. */
  lemma {:induction false} NewPairIndices<T>(s: seq<T>, a: T, b: T)
    ensures var ia := FirstIndex(s + [a, b], a);
      if a in s then ia in FirstPositions(s) else ia == |s|
    ensures var ib := FirstIndex(s + [a, b], b);
      if b in s then ib in FirstPositions(s)
      else if b == a then ib == |s|
      else ib == |s| + 1
  {
    var s' := s + [a, b];
    FirstIndexOfNewPair(s, a, b);
    FirstPositionsAreFirstIndices(s);
    assert s'[..|s|] == s;
    if a in s {
      FirstIndexOfPrefix(s', |s|, a);
    }
    if b in s {
      FirstIndexOfPrefix(s', |s|, b);
    }
  }

  lemma {:induction false} FirstPositionOfNewPair<T>(s: seq<T>, a: T, b: T, k: nat)
    requires var ia := FirstIndex(s + [a, b], a);
      if a in s then ia in FirstPositions(s) else ia == |s|
    requires var ib := FirstIndex(s + [a, b], b);
      if b in s then ib in FirstPositions(s)
      else if b == a then ib == |s|
      else ib == |s| + 1
    ensures k in FirstPositions(s + [a, b]) <==>
      k in FirstPositions(s) || k == FirstIndex(s + [a, b], a) || k == FirstIndex(s + [a, b], b)
  {
    var s' := s + [a, b];
    if k < |s| {
      assert s'[k] == s[k];
      assert s'[..k] == s[..k];
    } else if k == |s| {
      assert s'[..k] == s;
    } else if k == |s| + 1 {
      assert s'[..k] == s + [a];
    }
  }

  /** One more record adds the ids of its source and target to the ids in use. */
  lemma {:induction false} IdsAppend(p: seq<Edge>, x: Edge)
    ensures x.source in Slots(p + [x]) && x.target in Slots(p + [x])
    ensures Ids(p + [x]) == Ids(p) + {IdOf(p + [x], x.source), IdOf(p + [x], x.target)}
  {
    SlotsAppend(p, x);
    FirstPositionsOfNewPair(Slots(p), x.source, x.target);
  }

  lemma {:induction false} FirstIndexTableOfNewPair<T>(s: seq<T>, a: T, b: T)
    ensures FirstIndexTable(s + [a, b]) ==
      FirstIndexTable(s)[a := FirstIndex(s + [a, b], a)][b := FirstIndex(s + [a, b], b)]
  {
    var s' := s + [a, b];
    assert s'[..|s|] == s;
    forall x | x in s
      ensures FirstIndex(s', x) == FirstIndex(s, x)
    {
      FirstIndexOfPrefix(s', |s|, x);
    }
  }

  /** One more record enters its source and then its target in the name table. */
  lemma {:induction false} NameTableAppend(p: seq<Edge>, x: Edge)
    ensures x.source in Slots(p + [x]) && x.target in Slots(p + [x])
    ensures NameTable(p + [x]) ==
      NameTable(p)[x.source := IdOf(p + [x], x.source)][x.target := IdOf(p + [x], x.target)]
  {
    SlotsAppend(p, x);
    FirstIndexTableOfNewPair(Slots(p), x.source, x.target);
  }

  /* ---------------------------- lemmas about nodes ---------------------------- */

  /** Only a node that exists has connections. */
  lemma {:induction false} ConnsOnlyAtIds(edges: seq<Edge>, k: nat)
    requires k !in Ids(edges)
    ensures Conns(edges, k) == []
  {
    if edges != [] {
      var p, x := edges[..|edges| - 1], edges[|edges| - 1];
      assert edges == p + [x];
      IdsAppend(p, x);
      ConnsOnlyAtIds(p, k);
    }
  }

  lemma {:induction false} ConnsAppend(p: seq<Edge>, x: Edge, k: nat)
    ensures x.source in Slots(p + [x]) && x.target in Slots(p + [x])
    ensures
      var s, t := IdOf(p + [x], x.source), IdOf(p + [x], x.target);
      Conns(p + [x], k) == Conns(p, k)
        + (if t == k then [Connection(x.distance, s)] else [])
        + (if s == k then [Connection(x.distance, t)] else [])
  {
    SlotsAppend(p, x);
    assert (p + [x])[..|p|] == p;
  }

  /** The graph in closed form: its ids are the positions of first lookups, the node with
      id k carries the name looked up at position k, and its adjacency list is `Conns`. */
  lemma {:induction false} GraphClosedForm(edges: seq<Edge>)
    ensures GraphOf(edges).Keys == Ids(edges)
    ensures forall k | k in GraphOf(edges) ::
      GraphOf(edges)[k] == StateNode(Slots(edges)[k], k, Conns(edges, k))
  {
    if edges != [] {
      var p, x := edges[..|edges| - 1], edges[|edges| - 1];
      assert edges == p + [x];
      GraphClosedForm(p);
      IdsAppend(p, x);
      forall k | k in GraphOf(edges)
        ensures GraphOf(edges)[k] == StateNode(Slots(edges)[k], k, Conns(edges, k))
      {
        NodeAfterAppend(p, x, k);
      }
    }
  }

  lemma {:induction false} NodeAfterAppend(p: seq<Edge>, x: Edge, k: nat)
    requires GraphOf(p).Keys == Ids(p)
    requires k in GraphOf(p) ==> GraphOf(p)[k] == StateNode(Slots(p)[k], k, Conns(p, k))
    requires k in GraphOf(p + [x])
    ensures GraphOf(p + [x])[k] == StateNode(Slots(p + [x])[k], k, Conns(p + [x], k))
  {
    var e := p + [x];
    assert e[..|p|] == p;
    SlotsAppend(p, x);
    ConnsAppend(p, x, k);
    var s, t := IdOf(e, x.source), IdOf(e, x.target);
    var g := GraphOf(p);
    AttachTwice(g, t, x.target, Connection(x.distance, s), s, x.source, Connection(x.distance, t), k);
    if k in g {
      assert Slots(e)[k] == Slots(p)[k];
    } else {
      ConnsOnlyAtIds(p, k);
    }
  }

  /** The node `k` after attaching `c1` to node `id1` and then `c2` to node `id2`. */
  lemma {:induction false} AttachTwice(g: Graph, id1: nat, name1: string, c1: Connection,
                    id2: nat, name2: string, c2: Connection, k: nat)
    requires k in g || k == id1 || k == id2
    ensures
      var node := if k in g then g[k]
                  else if k == id1 then StateNode(name1, id1, [])
                  else StateNode(name2, id2, []);
      Attach(Attach(g, id1, name1, c1), id2, name2, c2)[k] ==
        node.(connections := node.connections
                + (if k == id1 then [c1] else [])
                + (if k == id2 then [c2] else []))
  {
  }

  /** Every node is stored under its own id, and its name is the one name with that id;
      distinct names get distinct ids, every id is below the final counter value 2n. */
  lemma {:induction false} NodesAreKeyedByTheirIds(edges: seq<Edge>)
    ensures forall k | k in GraphOf(edges) ::
      && GraphOf(edges)[k].id == k
      && k < 2 * |edges|
      && GraphOf(edges)[k].name in Slots(edges)
      && IdOf(edges, GraphOf(edges)[k].name) == k
    ensures forall n | n in Slots(edges) ::
      IdOf(edges, n) in GraphOf(edges) && GraphOf(edges)[IdOf(edges, n)].name == n
    ensures forall a, b | a in Slots(edges) && b in Slots(edges) && a != b ::
      IdOf(edges, a) != IdOf(edges, b)
  {
    GraphClosedForm(edges);
    FirstPositionsAreFirstIndices(Slots(edges));
  }

  lemma {:induction false} FirstPositionsAreFirstIndices<T>(s: seq<T>)
    ensures forall k | k in FirstPositions(s) :: s[k] in s && FirstIndex(s, s[k]) == k
    ensures forall x | x in s :: FirstIndex(s, x) in FirstPositions(s)
  {
    forall k | k in FirstPositions(s)
      ensures s[k] in s && FirstIndex(s, s[k]) == k
    {
      FirstIndexUnique(s, s[k], k);
    }
  }

  /** The ids need not be dense: two records over three states give the ids 0, 1 and 3. */
  lemma {:induction false} IdsSkipValues()
    ensures GraphOf([Edge("WA", 5, "OR"), Edge("OR", 3, "ID")]).Keys == {0, 1, 3}
  {
    var e0, e1 := Edge("WA", 5, "OR"), Edge("OR", 3, "ID");
    var e := [e0, e1];
    assert Ids([e0]) == {0, 1} && Slots([e0]) == ["WA", "OR"] by {
      assert [] + [e0] == [e0];
      IdsAppend([], e0);
      SlotsAppend([], e0);
      NewSourceId([], e0);
      NewTargetId([], e0);
    }
    assert Ids(e) == {0, 1, 3} by {
      assert [e0] + [e1] == e;
      IdsAppend([e0], e1);
      NewSourceId([e0], e1);
      NewTargetId([e0], e1);
    }
    GraphClosedForm(e);
  }

  /** The sum of the adjacency-list lengths of the nodes with ids below `bound`. */
  function ConnectionTotal(g: Graph, bound: nat): nat
  {
    if bound == 0 then 0
    else ConnectionTotal(g, bound - 1) + (if bound - 1 in g then |g[bound - 1].connections| else 0)
  }

  lemma {:induction false} AttachAddsOne(g: Graph, id: nat, name: string, c: Connection, bound: nat)
    requires id < bound
    ensures ConnectionTotal(Attach(g, id, name, c), bound) == ConnectionTotal(g, bound) + 1
  {
    if id < bound - 1 {
      AttachAddsOne(g, id, name, c, bound - 1);
    } else {
      AttachLeavesBelow(g, id, name, c, bound - 1);
    }
  }

  lemma {:induction false} AttachLeavesBelow(g: Graph, id: nat, name: string, c: Connection, bound: nat)
    requires bound <= id
    ensures ConnectionTotal(Attach(g, id, name, c), bound) == ConnectionTotal(g, bound)
  {
    if bound > 0 {
      AttachLeavesBelow(g, id, name, c, bound - 1);
    }
  }

  lemma {:induction false} TotalStopsAtLastKey(g: Graph, bound: nat, bound': nat)
    requires bound <= bound'
    requires forall k | k in g :: k < bound
    ensures ConnectionTotal(g, bound') == ConnectionTotal(g, bound)
  {
    if bound < bound' {
      TotalStopsAtLastKey(g, bound, bound' - 1);
    }
  }

  /** Every record adds two connections, so after n records the graph holds 2n of them. */
  lemma {:induction false} TwoConnectionsPerRecord(edges: seq<Edge>)
    ensures forall k | k in GraphOf(edges) :: k < 2 * |edges|
    ensures ConnectionTotal(GraphOf(edges), 2 * |edges|) == 2 * |edges|
  {
    if edges == [] {
      assert GraphOf(edges) == map[];
    } else {
      var p, x := edges[..|edges| - 1], edges[|edges| - 1];
      assert edges == p + [x];
      var n := 2 * |edges|;
      SlotsAppend(p, x);
      var s, t := IdOf(edges, x.source), IdOf(edges, x.target);
      var g := GraphOf(p);
      var g1 := Attach(g, t, x.target, Connection(x.distance, s));
      TwoConnectionsPerRecord(p);
      TotalStopsAtLastKey(g, 2 * |p|, n);
      AttachAddsOne(g, t, x.target, Connection(x.distance, s), n);
      AttachAddsOne(g1, s, x.source, Connection(x.distance, t), n);
    }
  }

  /** Every connection leads to a node of the graph. */
  predicate Closed(g: Graph) {
    forall k, c | k in g && c in g[k].connections :: c.target in g
  }

  lemma {:induction false} ConnectionsStayInGraph(edges: seq<Edge>)
    ensures Closed(GraphOf(edges))
  {
    if edges != [] {
      var p, x := edges[..|edges| - 1], edges[|edges| - 1];
      assert edges == p + [x];
      SlotsAppend(p, x);
      ConnectionsStayInGraph(p);
    }
  }

  /* ------------------------------ start and end ------------------------------ */

  const START_NAME: string := "WA"
  const END_NAME: string := "ME"

  datatype LookupError = MissingStart | MissingEnd

  predicate HasState(g: Graph, name: string) {
    exists k | k in g :: g[k].name == name
  }

  /** `get_start_and_end`: scans the states in the map's (unspecified) order for the ones
      named "WA" and "ME"; a missing start is reported before a missing end. */
  method GetStartAndEnd(g: Graph) returns (r: Result<(StateNode, StateNode), LookupError>)
    ensures r.Success? <==> HasState(g, START_NAME) && HasState(g, END_NAME)
    ensures r.Failure? ==> (r.error == MissingStart <==> !HasState(g, START_NAME))
    ensures r.Success? ==>
      && r.value.0 in g.Values && r.value.0.name == START_NAME
      && r.value.1 in g.Values && r.value.1.name == END_NAME
  {
    var start: Option<StateNode> := None;
    var end: Option<StateNode> := None;
    var unvisited := g.Keys;
    while unvisited != {}
      invariant unvisited <= g.Keys
      invariant start.Some? ==> start.value in g.Values && start.value.name == START_NAME
      invariant end.Some? ==> end.value in g.Values && end.value.name == END_NAME
      invariant start.None? ==> forall k | k in g && k !in unvisited :: g[k].name != START_NAME
      invariant end.None? ==> forall k | k in g && k !in unvisited :: g[k].name != END_NAME
      decreases unvisited
    {
      var k :| k in unvisited;
      var state := g[k];
      unvisited := unvisited - {k};
      if state.name == START_NAME {
        start := Some(state);
        if end.Some? {
          break;
        }
      }
      if state.name == END_NAME {
        end := Some(state);
        if start.Some? {
          break;
        }
      }
    }
    if start.None? {
      return Failure(MissingStart);
    }
    if end.None? {
      return Failure(MissingEnd);
    }
    return Success((start.value, end.value));
  }
}
