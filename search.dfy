// One expansion step of the worker threads: count how often each neighbour already occurs
// in the walk, drop neighbours seen more than twice, stable-sort the rest by that count and
// then by distance (both descending), and emit every child shorter than the best length so
// far; a walk that already ends at the goal is judged instead of expanded.

module Search {
  import opened StateGraph

  /** A walk through the graph and the sum of the distances along it. */
  datatype Path = Path(states: seq<nat>, length: nat)

  /** The last state of a walk (the source indexes `len() - 1`, so an empty walk panics). */
  function GetEnd(path: Path): (end: nat)
    requires |path.states| > 0
    ensures end in path.states
  {
    path.states[|path.states| - 1]
  }

  /* ---------------------------------- counting ---------------------------------- */

  /** How many times `x` occurs in `states`. */
  function Count(states: seq<nat>, x: nat): nat
  {
    multiset(states)[x]
  }

  /** `get_count`: a loop that counts the occurrences of `x`. */
  method GetCount(states: seq<nat>, x: nat) returns (count: nat)
    ensures count == Count(states, x)
    ensures count <= |states|
    ensures count == 0 <==> x !in states
  {
    count := 0;
    for i := 0 to |states|
      invariant count == multiset(states[..i])[x]
    {
      if states[i] == x {
        count := count + 1;
      }
      assert states[..i + 1] == states[..i] + [states[i]];
    }
    assert states[..|states|] == states;
  }

  /* ------------------------------ order-keeping filter ------------------------------ */

  /** The elements of `s` that satisfy `keep`, in their original order (`Vec::retain`). */
  function Filter<T(!new)>(s: seq<T>, keep: T -> bool): (r: seq<T>)
    ensures |r| <= |s|
    ensures forall x :: x in r <==> x in s && keep(x)
  {
    if s == [] then []
    else (if keep(s[0]) then [s[0]] else []) + Filter(s[1..], keep)
  }

  /** Filtering keeps the order of the elements: a filtered concatenation is the
      concatenation of the filtered parts. */
  lemma {:induction false} FilterConcat<T(!new)>(a: seq<T>, b: seq<T>, keep: T -> bool)
    ensures Filter(a + b, keep) == Filter(a, keep) + Filter(b, keep)
  {
    if a == [] {
      assert a + b == b;
    } else {
      assert (a + b)[1..] == a[1..] + b;
      FilterConcat(a[1..], b, keep);
    }
  }

  /** Filtering never invents elements and keeps every element it accepts as often as
      it occurs. */
  lemma {:induction false} FilterMultiset<T(!new)>(s: seq<T>, keep: T -> bool)
    ensures forall x :: multiset(Filter(s, keep))[x] == if keep(x) then multiset(s)[x] else 0
  {
    if s != [] {
      FilterMultiset(s[1..], keep);
      assert s == [s[0]] + s[1..];
    }
  }

  /** The positions in `s` of the `i`th and `j`th kept elements: kept elements keep their
      relative order. */
  lemma {:induction false} FilterPositions<T(!new)>(s: seq<T>, keep: T -> bool, i: nat, j: nat)
    returns (p: nat, q: nat)
    requires i < j < |Filter(s, keep)|
    ensures p < q < |s| && Filter(s, keep)[i] == s[p] && Filter(s, keep)[j] == s[q]
  {
    var rest := Filter(s[1..], keep);
    if keep(s[0]) {
      assert Filter(s, keep) == [s[0]] + rest;
      if i == 0 {
        assert rest[j - 1] in s[1..];
        var k :| 0 <= k < |s| - 1 && s[1..][k] == rest[j - 1];
        p, q := 0, k + 1;
      } else {
        var p', q' := FilterPositions(s[1..], keep, i - 1, j - 1);
        p, q := p' + 1, q' + 1;
      }
    } else {
      assert Filter(s, keep) == rest;
      var p', q' := FilterPositions(s[1..], keep, i, j);
      p, q := p' + 1, q' + 1;
    }
  }

  /* ---------------------------------- retain ---------------------------------- */

  /** Whether a connection's target occurs at most twice in `states`. */
  function SeenAtMostTwice(states: seq<nat>): Connection -> bool
  {
    (c: Connection) => Count(states, c.target) <= 2
  }

  /** The connections the worker keeps for expansion, in adjacency-list order. */
  function Retain(states: seq<nat>, cs: seq<Connection>): seq<Connection>
  {
    Filter(cs, SeenAtMostTwice(states))
  }

  /** A connection is kept iff it is one of `cs` whose target occurs at most twice. */
  lemma {:induction false} RetainKeepsTheRarelySeen(states: seq<nat>, cs: seq<Connection>)
    ensures forall c :: c in Retain(states, cs) <==> c in cs && Count(states, c.target) <= 2
    ensures forall c :: multiset(Retain(states, cs))[c] ==
                        if Count(states, c.target) <= 2 then multiset(cs)[c] else 0
  {
    FilterMultiset(cs, SeenAtMostTwice(states));
  }

  /* ----------------------------------- sort ----------------------------------- */

  datatype Ordering = Less | Equal | Greater

  function Cmp(a: nat, b: nat): (o: Ordering)
    ensures o == Less <==> a < b
    ensures o == Equal <==> a == b
  {
    if a < b then Less else if a == b then Equal else Greater
  }

  /** The comparator given to `sort_by`: more often visited targets first, and among
      targets visited equally often the longer connection first. */
  function Compare(states: seq<nat>, a: Connection, b: Connection): (o: Ordering)
    ensures o == Less <==>
      || Count(states, a.target) > Count(states, b.target)
      || (Count(states, a.target) == Count(states, b.target) && a.distance > b.distance)
    ensures o == Equal <==> SameRank(states, a, b)
    ensures o == Greater <==>
      || Count(states, a.target) < Count(states, b.target)
      || (Count(states, a.target) == Count(states, b.target) && a.distance < b.distance)
  {
    var freq := Cmp(Count(states, b.target), Count(states, a.target));
    if freq != Equal then freq else Cmp(b.distance, a.distance)
  }

  /** Whether two connections compare equal: same visit count and same distance. */
  predicate SameRank(states: seq<nat>, a: Connection, b: Connection)
  {
    Count(states, a.target) == Count(states, b.target) && a.distance == b.distance
  }

  /** Whether `a` must come strictly before `b` in the sorted list. */
  predicate Before(states: seq<nat>, a: Connection, b: Connection)
  {
    Compare(states, a, b) == Less
  }

  /** No later element must come strictly before an earlier one. */
  predicate Sorted(states: seq<nat>, s: seq<Connection>)
  {
    forall i, j | 0 <= i < j < |s| :: !Before(states, s[j], s[i])
  }

  /** The connections that compare equal to `r`. */
  function Peer(states: seq<nat>, r: Connection): Connection -> bool
  {
    (c: Connection) => SameRank(states, c, r)
  }

  /** Places `c` in the sorted list `s` ahead of every element it does not come after. */
  function Insert(states: seq<nat>, s: seq<Connection>, c: Connection): seq<Connection>
  {
    if s == [] || !Before(states, s[0], c) then [c] + s
    else [s[0]] + Insert(states, s[1..], c)
  }

  /** `sort_by` with the comparator above; a stable sort, written as an insertion sort. */
  function SortByVisits(states: seq<nat>, cs: seq<Connection>): seq<Connection>
  {
    if cs == [] then [] else Insert(states, SortByVisits(states, cs[1..]), cs[0])
  }

  lemma {:induction false} InsertPermutes(states: seq<nat>, s: seq<Connection>, c: Connection)
    ensures multiset(Insert(states, s, c)) == multiset(s) + multiset{c}
  {
    if s != [] && Before(states, s[0], c) {
      InsertPermutes(states, s[1..], c);
      assert s == [s[0]] + s[1..];
    }
  }

  lemma {:induction false} InsertSorted(states: seq<nat>, s: seq<Connection>, c: Connection)
    requires Sorted(states, s)
    ensures Sorted(states, Insert(states, s, c))
  {
    var r := Insert(states, s, c);
    if s == [] || !Before(states, s[0], c) {
      forall i, j | 0 <= i < j < |r|
        ensures !Before(states, r[j], r[i])
      {
        if i == 0 {
          assert r[j] == s[j - 1];
          assert !Before(states, s[j - 1], s[0]);
        } else {
          assert r[i] == s[i - 1] && r[j] == s[j - 1];
        }
      }
    } else {
      var t := Insert(states, s[1..], c);
      assert Sorted(states, s[1..]) by {
        forall i, j | 0 <= i < j < |s[1..]|
          ensures !Before(states, s[1..][j], s[1..][i])
        {
          assert s[1..][i] == s[i + 1] && s[1..][j] == s[j + 1];
        }
      }
      InsertSorted(states, s[1..], c);
      InsertPermutes(states, s[1..], c);
      assert r == [s[0]] + t;
      forall j | 0 <= j < |t|
        ensures !Before(states, t[j], s[0])
      {
        assert t[j] in multiset(t);
        if t[j] != c {
          assert t[j] in s[1..];
          var k :| 0 <= k < |s[1..]| && s[1..][k] == t[j];
          assert s[k + 1] == t[j];
        }
      }
    }
  }

  /** Stability of one insertion: `c` lands after every element of its own rank. */
  lemma {:induction false} InsertKeepsPeerOrder(states: seq<nat>, s: seq<Connection>, c: Connection, r: Connection)
    ensures Filter(Insert(states, s, c), Peer(states, r)) ==
      Filter([c], Peer(states, r)) + Filter(s, Peer(states, r))
  {
    var keep := Peer(states, r);
    if s == [] || !Before(states, s[0], c) {
      FilterConcat([c], s, keep);
    } else {
      InsertKeepsPeerOrder(states, s[1..], c, r);
      FilterConcat([s[0]], Insert(states, s[1..], c), keep);
      FilterConcat([s[0]], s[1..], keep);
      assert [s[0]] + s[1..] == s;
      if keep(c) {
        assert !keep(s[0]);
      }
    }
  }

  /** The sorted list is a rearrangement of the input. */
  lemma {:induction false} SortPermutes(states: seq<nat>, cs: seq<Connection>)
    ensures multiset(SortByVisits(states, cs)) == multiset(cs)
  {
    if cs != [] {
      SortPermutes(states, cs[1..]);
      InsertPermutes(states, SortByVisits(states, cs[1..]), cs[0]);
      assert cs == [cs[0]] + cs[1..];
    }
  }

  /** The sorted list is ordered by visit count, then distance, both descending. */
  lemma {:induction false} SortSorts(states: seq<nat>, cs: seq<Connection>)
    ensures Sorted(states, SortByVisits(states, cs))
  {
    if cs != [] {
      SortSorts(states, cs[1..]);
      InsertSorted(states, SortByVisits(states, cs[1..]), cs[0]);
    }
  }

  /** The sort is stable: connections that compare equal keep their relative order. */
  lemma {:induction false} SortIsStable(states: seq<nat>, cs: seq<Connection>, r: Connection)
    ensures Filter(SortByVisits(states, cs), Peer(states, r)) == Filter(cs, Peer(states, r))
  {
    if cs != [] {
      SortIsStable(states, cs[1..], r);
      InsertKeepsPeerOrder(states, SortByVisits(states, cs[1..]), cs[0], r);
      FilterConcat([cs[0]], cs[1..], Peer(states, r));
      assert cs == [cs[0]] + cs[1..];
    }
  }

  /** A filtered sorted list is still sorted. */
  lemma {:induction false} FilterKeepsSorted(states: seq<nat>, s: seq<Connection>, keep: Connection -> bool)
    requires Sorted(states, s)
    ensures Sorted(states, Filter(s, keep))
  {
    if s != [] {
      assert Sorted(states, s[1..]) by {
        forall i, j | 0 <= i < j < |s[1..]|
          ensures !Before(states, s[1..][j], s[1..][i])
        {
          assert s[1..][i] == s[i + 1] && s[1..][j] == s[j + 1];
        }
      }
      FilterKeepsSorted(states, s[1..], keep);
      var f, rest := Filter(s, keep), Filter(s[1..], keep);
      if keep(s[0]) {
        assert f == [s[0]] + rest;
        forall j | 0 <= j < |rest|
          ensures !Before(states, rest[j], s[0])
        {
          assert rest[j] in s[1..];
          var k :| 0 <= k < |s[1..]| && s[1..][k] == rest[j];
          assert s[k + 1] == rest[j];
        }
      } else {
        assert f == rest;
      }
    }
  }

  /* ---------------------------------- children ---------------------------------- */

  /** The walk extended along `c`. */
  function Child(path: Path, c: Connection): Path
  {
    Path(path.states + [c.target], path.length + c.distance)
  }

  /** Whether `Step` can recover a connection from `child`: it is non-empty and no shorter
      than `path`. It does not check that `path` is a prefix of `child`. */
  predicate HasStep(path: Path, child: Path)
  {
    |child.states| > 0 && path.length <= child.length
  }

  /** The connection a child of `path` was extended along. */
  function Step(path: Path, child: Path): (c: Connection)
    requires HasStep(path, child)
    ensures child == Child(path, c) <==> child.states == path.states + [c.target]
  {
    Connection(child.length - path.length, GetEnd(child))
  }

  /** Whether extending `path` along a connection stays below the best length. */
  function ShorterThan(path: Path, best: nat): Connection -> bool
  {
    (c: Connection) => path.length + c.distance < best
  }

  /** The children pushed for the connections `cs`, in their order: one per connection
      whose extended length is below `best`. */
  function Children(path: Path, cs: seq<Connection>, best: nat): (children: seq<Path>)
    ensures |children| <= |cs|
  {
    var kept := Filter(cs, ShorterThan(path, best));
    seq(|kept|, i requires 0 <= i < |kept| => Child(path, kept[i]))
  }

  /** The children keep the order of the connections they come from. */
  lemma {:induction false} ChildrenConcat(path: Path, a: seq<Connection>, b: seq<Connection>, best: nat)
    ensures Children(path, a + b, best) == Children(path, a, best) + Children(path, b, best)
  {
    FilterConcat(a, b, ShorterThan(path, best));
  }

  /** Each child is `path` extended by one connection of `cs` and shorter than `best`,
      the connection is recovered from the child, and every such extension is a child. */
  lemma {:induction false} ChildrenAreShorterExtensions(path: Path, cs: seq<Connection>, best: nat)
    ensures forall child | child in Children(path, cs, best) ::
      && HasStep(path, child)
      && Step(path, child) in cs
      && child == Child(path, Step(path, child))
      && child.length < best
    ensures forall c | c in cs && path.length + c.distance < best :: Child(path, c) in Children(path, cs, best)
  {
    var kept := Filter(cs, ShorterThan(path, best));
    var children := Children(path, cs, best);
    forall child | child in children
      ensures HasStep(path, child) && Step(path, child) in cs && child == Child(path, Step(path, child))
      ensures child.length < best
    {
      var i :| 0 <= i < |children| && children[i] == child;
      assert Step(path, child) == kept[i] && kept[i] in kept;
    }
    forall c | c in cs && path.length + c.distance < best
      ensures Child(path, c) in children
    {
      assert c in kept;
      var k :| 0 <= k < |kept| && kept[k] == c;
      assert children[k] == Child(path, c);
    }
  }

  /** Children built from a sorted list come out in that order. */
  lemma {:induction false} ChildrenInOrder(path: Path, cs: seq<Connection>, best: nat)
    requires Sorted(path.states, cs)
    ensures forall i, j | 0 <= i < j < |Children(path, cs, best)| ::
      var children := Children(path, cs, best);
      HasStep(path, children[i]) && HasStep(path, children[j]) &&
      !Before(path.states, Step(path, children[j]), Step(path, children[i]))
  {
    var kept := Filter(cs, ShorterThan(path, best));
    FilterKeepsSorted(path.states, cs, ShorterThan(path, best));
    var children := Children(path, cs, best);
    forall i | 0 <= i < |children|
      ensures HasStep(path, children[i]) && Step(path, children[i]) == kept[i]
    {
    }
  }

  /** The children are pushed in the order of the connections they come from: the `i`th
      and `j`th children come from connections at positions `p < q` of `cs`. */
  lemma {:induction false} ChildrenKeepConnectionOrder(path: Path, cs: seq<Connection>, best: nat, i: nat, j: nat)
    returns (p: nat, q: nat)
    requires i < j < |Children(path, cs, best)|
    ensures p < q < |cs|
    ensures Children(path, cs, best)[i] == Child(path, cs[p])
    ensures Children(path, cs, best)[j] == Child(path, cs[q])
  {
    p, q := FilterPositions(cs, ShorterThan(path, best), i, j);
  }

  /* ---------------------------------- expansion ---------------------------------- */

  /** The children the worker queues for a walk that has not reached the goal: the
      neighbours of its last state seen at most twice, sorted, each extension kept if it
      is shorter than `best`. */
  function Expansion(g: Graph, path: Path, best: nat): seq<Path>
    requires |path.states| > 0 && GetEnd(path) in g
  {
    var states := path.states;
    Children(path, SortByVisits(states, Retain(states, g[GetEnd(path)].connections)), best)
  }

  /** Sorting neither adds nor loses a connection. */
  lemma {:induction false} SortKeepsMembers(states: seq<nat>, cs: seq<Connection>)
    ensures forall c :: c in SortByVisits(states, cs) <==> c in cs
  {
    SortPermutes(states, cs);
    forall c ensures c in SortByVisits(states, cs) <==> c in cs {
      assert c in SortByVisits(states, cs) <==> c in multiset(SortByVisits(states, cs));
      assert c in cs <==> c in multiset(cs);
    }
  }

  /** The expansion considers exactly the neighbours seen at most twice. */
  lemma {:induction false} ExpansionCandidates(g: Graph, path: Path)
    requires |path.states| > 0 && GetEnd(path) in g
    ensures forall c :: c in SortByVisits(path.states, Retain(path.states, g[GetEnd(path)].connections)) <==>
      c in g[GetEnd(path)].connections && Count(path.states, c.target) <= 2
  {
    RetainKeepsTheRarelySeen(path.states, g[GetEnd(path)].connections);
    SortKeepsMembers(path.states, Retain(path.states, g[GetEnd(path)].connections));
  }

  /** Each child appends one neighbour of the last state, seen at most twice before and so
      at most three times in the child, and is shorter than `best`. */
  lemma {:induction false} ExpansionChildren(g: Graph, path: Path, best: nat)
    requires |path.states| > 0 && GetEnd(path) in g
    ensures forall child | child in Expansion(g, path, best) ::
      && HasStep(path, child)
      && var c := Step(path, child);
      && c in g[GetEnd(path)].connections
      && child.states == path.states + [c.target]
      && child.length == path.length + c.distance < best
      && Count(path.states, c.target) <= 2
      && Count(child.states, c.target) <= 3
  {
    var states := path.states;
    var sorted := SortByVisits(states, Retain(states, g[GetEnd(path)].connections));
    ExpansionCandidates(g, path);
    ChildrenAreShorterExtensions(path, sorted, best);
    forall child | child in Expansion(g, path, best)
      ensures Count(child.states, GetEnd(child)) == Count(states, GetEnd(child)) + 1
    {
      assert child.states == states + [GetEnd(child)];
    }
  }

  /** A neighbour of the last state gives a child iff it was seen at most twice and the
      extension is shorter than `best`. */
  lemma {:induction false} ExpansionComplete(g: Graph, path: Path, best: nat)
    requires |path.states| > 0 && GetEnd(path) in g
    ensures forall c | c in g[GetEnd(path)].connections ::
      Count(path.states, c.target) <= 2 && path.length + c.distance < best <==>
      Child(path, c) in Expansion(g, path, best)
  {
    var states := path.states;
    var sorted := SortByVisits(states, Retain(states, g[GetEnd(path)].connections));
    ExpansionCandidates(g, path);
    ChildrenAreShorterExtensions(path, sorted, best);
    forall c | Child(path, c) in Expansion(g, path, best)
      ensures Step(path, Child(path, c)) == c
    {
    }
  }

  /** The children come out in the comparator's order: more often visited targets first,
      then longer connections. */
  lemma {:induction false} ExpansionOrdered(g: Graph, path: Path, best: nat)
    requires |path.states| > 0 && GetEnd(path) in g
    ensures forall i, j | 0 <= i < j < |Expansion(g, path, best)| ::
      var children := Expansion(g, path, best);
      HasStep(path, children[i]) && HasStep(path, children[j]) &&
      !Before(path.states, Step(path, children[j]), Step(path, children[i]))
  {
    var states := path.states;
    SortSorts(states, Retain(states, g[GetEnd(path)].connections));
    ChildrenInOrder(path, SortByVisits(states, Retain(states, g[GetEnd(path)].connections)), best);
  }

  /* --------------------------------- goal check --------------------------------- */

  /** Whether every state of the graph occurs in the walk. */
  predicate Covers(g: Graph, states: seq<nat>)
  {
    forall id | id in g :: id in states
  }

  /** The length precheck never rejects a covering walk: the keys are distinct, so a walk
      that contains all of them is at least as long as the graph is large. */
  lemma {:induction false} PrecheckImplied(g: Graph, states: seq<nat>)
    requires Covers(g, states)
    ensures |states| >= |g|
  {
    DistinctAtMostLength(states);
    SubsetNoLarger(g.Keys, Distinct(states));
    assert |g| == |g.Keys|;
  }

  /** The distinct states of a walk. */
  function Distinct(s: seq<nat>): set<nat>
  {
    set x | x in s
  }

  lemma {:induction false} DistinctAtMostLength(s: seq<nat>)
    ensures |Distinct(s)| <= |s|
  {
    if s != [] {
      var rest := Distinct(s[1..]);
      DistinctAtMostLength(s[1..]);
      if s[0] in rest {
        assert Distinct(s) == rest;
      } else {
        assert Distinct(s) == rest + {s[0]};
      }
    }
  }

  lemma {:induction false} SubsetNoLarger<T>(a: set<T>, b: set<T>)
    requires a <= b
    ensures |a| <= |b|
  {
    var d := b - a;
    assert b == a + d && a * d == {};
  }

  /** The goal check: the length precheck, then a scan of the graph's keys in some order
      (hash-map order) that stops at the first key missing from the walk. */
  method CoversAll(g: Graph, states: seq<nat>) returns (good: bool)
    ensures good <==> Covers(g, states)
  {
    good := false;
    if |states| >= |g| {
      good := true;
      var unseen := g.Keys;
      while unseen != {}
        invariant unseen <= g.Keys
        invariant forall id | id in g.Keys - unseen :: id in states
        decreases |unseen|
      {
        var id :| id in unseen;
        if id !in states {
          good := false;
          break;
        }
        unseen := unseen - {id};
      }
    } else if Covers(g, states) {
      PrecheckImplied(g, states);
      assert false;
    }
  }

  /* --------------------------------- worker step --------------------------------- */

  /** What a worker does with a walk: queue its children, or, at the goal, send it on as a
      solution or drop it. */
  datatype Verdict = Expanded(children: seq<Path>) | Accepted | Discarded

  /** The loop that pushes one child per sorted connection whose extension is shorter than
      the best length. */
  method PushChildren(path: Path, connections: seq<Connection>, best: nat) returns (newSearches: seq<Path>)
    ensures newSearches == Children(path, connections, best)
  {
    newSearches := [];
    for i := 0 to |connections|
      invariant newSearches == Children(path, connections[..i], best)
    {
      var dest := connections[i];
      var length := path.length + dest.distance;
      if length < best {
        newSearches := newSearches + [Path(path.states + [dest.target], length)];
      }
      ChildrenConcat(path, connections[..i], [dest], best);
      assert connections[..i + 1] == connections[..i] + [dest];
    }
    assert connections[..|connections|] == connections;
  }

  /** One iteration of a worker on the walk it took from the queue. */
  method WorkerStep(g: Graph, path: Path, goal: nat, best: nat) returns (v: Verdict)
    requires |path.states| > 0 && GetEnd(path) in g
    ensures v.Expanded? <==> GetEnd(path) != goal
    ensures v.Expanded? ==> v.children == Expansion(g, path, best)
    ensures v.Accepted? <==> GetEnd(path) == goal && Covers(g, path.states)
  {
    var states := path.states;
    var endIndex := GetEnd(path);
    var end := g[endIndex];
    if endIndex != goal {
      var connections := Retain(states, end.connections);
      connections := SortByVisits(states, connections);
      var newSearches := PushChildren(path, connections, best);
      v := Expanded(newSearches);
    } else {
      var good := CoversAll(g, states);
      v := if good then Accepted else Discarded;
    }
  }
}
