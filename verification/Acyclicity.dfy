/**
The two acyclicity checks of the validators: Kahn's algorithm with counters and a
queue (validate_completion_authority.py), and peeling off layers of nodes without
dependencies (validate_part1_closure.py).
*/
module Acyclicity {
  import opened Common
  import opened Sorting

  /** `child` depends on `parent`. */
  datatype Edge = Edge(child: string, parent: string)

  datatype Row = Row(id: string, dependencies: seq<string>)

  datatype Verdict =
    | Accepted
    | CBV006_UNKNOWN_REQUIREMENT_DEPENDENCY
    | KEY_ERROR
    | CBV007_REQUIREMENT_CYCLE(blocked: seq<string>)
    | CB5V018_GRAPH_SLICE_SET
    | CB5V019_UNKNOWN_DEPENDENCY
    | CB5V020_DEPENDENCY_CYCLE(blocked: seq<string>)
    | CB5V021_GRAPH_MANIFEST_DRIFT

  /** A closed walk along dependencies; a self-dependency is one. */
  predicate IsCycle(edges: set<Edge>, p: seq<string>)
  {
    && |p| >= 2 && p[0] == p[|p| - 1]
    && forall i :: 0 <= i < |p| - 1 ==> Edge(p[i], p[i + 1]) in edges
  }

  ghost predicate Cyclic(edges: set<Edge>) { exists p :: IsCycle(edges, p) }

  ghost predicate DependsOnMember(edges: set<Edge>, nodes: set<string>, x: string)
  {
    exists y :: y in nodes && Edge(x, y) in edges
  }

  /** Every member depends on a member. */
  ghost predicate Knotted(edges: set<Edge>, nodes: set<string>)
  {
    forall x {:trigger DependsOnMember(edges, nodes, x)} :: x in nodes ==> DependsOnMember(edges, nodes, x)
  }

  /** The ids that no order of removal can ever reach. */
  ghost predicate Blocked(edges: set<Edge>, nodes: set<string>)
  {
    Knotted(edges, nodes) && forall c: set<string> :: Knotted(edges, c) ==> c <= nodes
  }

  /** A report lists the blocked ids in order, each once. */
  ghost predicate ListsBlocked(report: seq<string>, edges: set<Edge>)
  {
    Lists(report, Elements(report)) && Blocked(edges, Elements(report))
  }

  ghost function Following(edges: set<Edge>, nodes: set<string>, x: string): string
    requires Knotted(edges, nodes) && x in nodes
    ensures Following(edges, nodes, x) in nodes && Edge(x, Following(edges, nodes, x)) in edges
  {
    assert DependsOnMember(edges, nodes, x);
    var y :| y in nodes && Edge(x, y) in edges; y
  }

  ghost function Walk(edges: set<Edge>, nodes: set<string>, x: string, n: nat): (p: seq<string>)
    requires Knotted(edges, nodes) && x in nodes
    ensures |p| == n + 1 && forall i :: 0 <= i <= n ==> p[i] in nodes
    ensures forall i :: 0 <= i < n ==> Edge(p[i], p[i + 1]) in edges
  {
    if n == 0 then [x]
    else
      var p := Walk(edges, nodes, x, n - 1);
      p + [Following(edges, nodes, p[n - 1])]
  }

  lemma SubsetSize<T>(a: set<T>, b: set<T>)
    requires a <= b
    ensures |a| <= |b| && (|a| == |b| ==> a == b)
  {
    assert b == a + (b - a);
  }

  lemma Pigeonhole(s: seq<string>, nodes: set<string>)
    requires |s| > |nodes| && forall i :: 0 <= i < |s| ==> s[i] in nodes
    ensures exists i, j :: 0 <= i < j < |s| && s[i] == s[j]
  {
    if Distinct(s) {
      DistinctMultiset(s);
      assert |s| == |multiset(s)| == |multiset(Elements(s))| == |Elements(s)|;
      SubsetSize(Elements(s), nodes);
    }
  }

  lemma LoopIsCycle(edges: set<Edge>, p: seq<string>, i: nat, j: nat)
    requires i < j < |p| && p[i] == p[j]
    requires forall k :: 0 <= k < |p| - 1 ==> Edge(p[k], p[k + 1]) in edges
    ensures IsCycle(edges, p[i..j + 1])
  {
    var q := p[i..j + 1];
    forall k | 0 <= k < |q| - 1 ensures Edge(q[k], q[k + 1]) in edges {
      assert q[k] == p[i + k] && q[k + 1] == p[i + k + 1];
    }
  }

  lemma KnotHasCycle(edges: set<Edge>, nodes: set<string>)
    requires Knotted(edges, nodes) && nodes != {}
    ensures Cyclic(edges)
  {
    var x :| x in nodes;
    var p := Walk(edges, nodes, x, |nodes|);
    Pigeonhole(p, nodes);
    var i, j :| 0 <= i < j < |p| && p[i] == p[j];
    LoopIsCycle(edges, p, i, j);
  }

  lemma CycleIsKnot(edges: set<Edge>, p: seq<string>)
    requires IsCycle(edges, p)
    ensures Knotted(edges, Elements(p)) && Elements(p) != {}
  {
    assert p[0] in Elements(p);
    forall x | x in Elements(p) ensures DependsOnMember(edges, Elements(p), x) {
      var k :| 0 <= k < |p| && p[k] == x;
      var next := if k < |p| - 1 then p[k + 1] else p[1];
      assert next in Elements(p) && Edge(x, next) in edges;
    }
  }

  /** What remains blocked is empty exactly when there is no cycle. */
  lemma BlockedMeansCyclic(edges: set<Edge>, nodes: set<string>)
    requires Blocked(edges, nodes)
    ensures nodes != {} <==> Cyclic(edges)
  {
    if nodes != {} { KnotHasCycle(edges, nodes); }
    if Cyclic(edges) {
      var p :| IsCycle(edges, p);
      CycleIsKnot(edges, p);
    }
  }

  /** The blocked ids are determined by the edges. */
  lemma BlockedUnique(edges: set<Edge>, a: set<string>, b: set<string>)
    requires Blocked(edges, a) && Blocked(edges, b)
    ensures a == b
  {
  }

  function RowEdges(id: string, dependencies: seq<string>): seq<Edge>
  {
    if dependencies == [] then []
    else RowEdges(id, dependencies[..|dependencies| - 1]) + [Edge(id, dependencies[|dependencies| - 1])]
  }

  /** The dependencies of all rows, in reading order. */
  function EdgesOf(rows: seq<Row>): seq<Edge>
  {
    if rows == [] then []
    else EdgesOf(rows[..|rows| - 1]) + RowEdges(rows[|rows| - 1].id, rows[|rows| - 1].dependencies)
  }

  function EdgeSet(edges: seq<Edge>): set<Edge> { set e | e in edges }

  /** The first edge that does not join two known ids decides the error. */
  function Fault(edges: seq<Edge>, ids: set<string>): Option<Verdict>
  {
    if edges == [] then None
    else
      var before := Fault(edges[..|edges| - 1], ids);
      var last := edges[|edges| - 1];
      if before.Some? then before
      else if last.parent !in ids then Some(CBV006_UNKNOWN_REQUIREMENT_DEPENDENCY)
      else if last.child !in ids then Some(KEY_ERROR)
      else None
  }

  /** How many dependencies of `child` are on ids outside `done`. */
  function Open(edges: seq<Edge>, child: string, done: set<string>): nat
  {
    if edges == [] then 0
    else
      var last := edges[|edges| - 1];
      Open(edges[..|edges| - 1], child, done) + (if last.child == child && last.parent !in done then 1 else 0)
  }

  function ChildrenOf(edges: seq<Edge>, parent: string): seq<string>
  {
    if edges == [] then []
    else
      var last := edges[|edges| - 1];
      ChildrenOf(edges[..|edges| - 1], parent) + (if last.parent == parent then [last.child] else [])
  }

  lemma {:induction false} OpenDrops(edges: seq<Edge>, child: string, parent: string, done: set<string>)
    requires parent !in done
    ensures Open(edges, child, done) ==
              Open(edges, child, done + {parent}) + multiset(ChildrenOf(edges, parent))[child]
  {
    if edges != [] { OpenDrops(edges[..|edges| - 1], child, parent, done); }
  }

  lemma {:induction false} OpenZero(edges: seq<Edge>, child: string, done: set<string>)
    ensures Open(edges, child, done) == 0 <==> forall e :: e in edges && e.child == child ==> e.parent in done
  {
    if edges != [] {
      OpenZero(edges[..|edges| - 1], child, done);
      assert edges == edges[..|edges| - 1] + [edges[|edges| - 1]];
    }
  }

  lemma {:induction false} FaultMeans(edges: seq<Edge>, ids: set<string>)
    ensures Fault(edges, ids) == None <==> forall e :: e in edges ==> e.parent in ids && e.child in ids
  {
    if edges != [] {
      FaultMeans(edges[..|edges| - 1], ids);
      assert edges == edges[..|edges| - 1] + [edges[|edges| - 1]];
    }
  }

  lemma {:induction false} FaultStays(edges: seq<Edge>, more: seq<Edge>, ids: set<string>)
    requires Fault(edges, ids).Some?
    ensures Fault(edges + more, ids) == Fault(edges, ids)
  {
    if more == [] {
      assert edges + more == edges;
    } else {
      FaultStays(edges, more[..|more| - 1], ids);
      assert (edges + more)[..|edges + more| - 1] == edges + more[..|more| - 1];
    }
  }

  lemma {:induction false} EdgesExtend(rows: seq<Row>, n: nat)
    requires n <= |rows|
    ensures EdgesOf(rows[..n]) <= EdgesOf(rows)
    decreases |rows| - n
  {
    if n == |rows| {
      assert rows[..n] == rows;
    } else {
      EdgesExtend(rows, n + 1);
      assert rows[..n + 1][..n] == rows[..n];
    }
  }

  lemma {:induction false} RowEdgesExtend(id: string, dependencies: seq<string>, n: nat)
    requires n <= |dependencies|
    ensures RowEdges(id, dependencies[..n]) <= RowEdges(id, dependencies)
    decreases |dependencies| - n
  {
    if n == |dependencies| {
      assert dependencies[..n] == dependencies;
    } else {
      RowEdgesExtend(id, dependencies, n + 1);
      assert dependencies[..n + 1][..n] == dependencies[..n];
    }
  }

  /** A fault in what was read so far is the fault of the whole. */
  lemma FaultSoFar(rows: seq<Row>, i: nat, j: nat, ids: set<string>)
    requires i < |rows| && j <= |rows[i].dependencies|
    requires Fault(EdgesOf(rows[..i]) + RowEdges(rows[i].id, rows[i].dependencies[..j]), ids).Some?
    ensures Fault(EdgesOf(rows), ids) ==
              Fault(EdgesOf(rows[..i]) + RowEdges(rows[i].id, rows[i].dependencies[..j]), ids)
  {
    var some := EdgesOf(rows[..i]) + RowEdges(rows[i].id, rows[i].dependencies[..j]);
    RowEdgesExtend(rows[i].id, rows[i].dependencies, j);
    assert rows[..i + 1][..i] == rows[..i];
    assert some <= EdgesOf(rows[..i + 1]);
    EdgesExtend(rows, i + 1);
    assert EdgesOf(rows) == some + EdgesOf(rows)[|some|..];
    FaultStays(some, EdgesOf(rows)[|some|..], ids);
  }

  function Get(m: map<string, seq<string>>, k: string): seq<string> { if k in m then m[k] else [] }

  /** The counters and successor lists of the edges read. */
  ghost predicate Tabulated(edges: seq<Edge>, ids: set<string>, incoming: map<string, nat>,
                            outgoing: map<string, seq<string>>)
  {
    && Fault(edges, ids) == None
    && incoming.Keys == ids && (forall x :: x in ids ==> incoming[x] == Open(edges, x, {}))
    && (forall x :: Get(outgoing, x) == ChildrenOf(edges, x))
  }

  lemma TabulateOne(edges: seq<Edge>, ids: set<string>, incoming: map<string, nat>,
                    outgoing: map<string, seq<string>>, e: Edge)
    requires Tabulated(edges, ids, incoming, outgoing)
    ensures e.parent !in ids ==> Fault(edges + [e], ids) == Some(CBV006_UNKNOWN_REQUIREMENT_DEPENDENCY)
    ensures e.parent in ids && e.child !in ids ==> Fault(edges + [e], ids) == Some(KEY_ERROR)
    ensures e.parent in ids && e.child in ids ==>
              Tabulated(edges + [e], ids, incoming[e.child := incoming[e.child] + 1],
                        outgoing[e.parent := Get(outgoing, e.parent) + [e.child]])
  {
    assert (edges + [e])[..|edges|] == edges;
    if e.parent in ids && e.child in ids {
      var counted := incoming[e.child := incoming[e.child] + 1];
      assert Fault(edges + [e], ids) == None;
      assert counted.Keys == ids;
      forall x | x in ids ensures counted[x] == Open(edges + [e], x, {}) {}
      var listed := outgoing[e.parent := Get(outgoing, e.parent) + [e.child]];
      forall x ensures Get(listed, x) == ChildrenOf(edges + [e], x) {
        assert Get(outgoing, x) == ChildrenOf(edges, x);
      }
    }
  }

  /** The inner loop over the dependencies of one row. */
  method TabulateRow(ghost read: seq<Edge>, row: Row, ids: set<string>, counted: map<string, nat>,
                     listed: map<string, seq<string>>)
    returns (fault: Option<Verdict>, incoming: map<string, nat>, outgoing: map<string, seq<string>>, ghost j: nat)
    requires Tabulated(read, ids, counted, listed)
    ensures j <= |row.dependencies| && fault == Fault(read + RowEdges(row.id, row.dependencies[..j]), ids)
    ensures fault == None ==>
              j == |row.dependencies| && Tabulated(read + RowEdges(row.id, row.dependencies), ids, incoming, outgoing)
  {
    incoming, outgoing, j := counted, listed, 0;
    var k := 0;
    assert read + RowEdges(row.id, row.dependencies[..0]) == read;
    while k < |row.dependencies|
      invariant 0 <= k <= |row.dependencies|
      invariant Tabulated(read + RowEdges(row.id, row.dependencies[..k]), ids, incoming, outgoing)
    {
      var d := row.dependencies[k];
      ghost var before := read + RowEdges(row.id, row.dependencies[..k]);
      assert row.dependencies[..k + 1][..k] == row.dependencies[..k];
      assert before + [Edge(row.id, d)] == read + RowEdges(row.id, row.dependencies[..k + 1]);
      TabulateOne(before, ids, incoming, outgoing, Edge(row.id, d));
      if d !in ids {
        return Some(CBV006_UNKNOWN_REQUIREMENT_DEPENDENCY), incoming, outgoing, k + 1;
      }
      outgoing := outgoing[d := Get(outgoing, d) + [row.id]];
      if row.id !in ids {
        return Some(KEY_ERROR), incoming, outgoing, k + 1;
      }
      incoming := incoming[row.id := incoming[row.id] + 1];
      k := k + 1;
    }
    assert row.dependencies[..k] == row.dependencies;
    fault, j := None, k;
  }

  method Tabulate(rows: seq<Row>, ids: set<string>)
    returns (fault: Option<Verdict>, incoming: map<string, nat>, outgoing: map<string, seq<string>>)
    ensures fault == Fault(EdgesOf(rows), ids)
    ensures fault == None ==> Tabulated(EdgesOf(rows), ids, incoming, outgoing)
  {
    incoming, outgoing := map x | x in ids :: 0, map[];
    var i := 0;
    while i < |rows|
      invariant 0 <= i <= |rows|
      invariant Tabulated(EdgesOf(rows[..i]), ids, incoming, outgoing)
    {
      ghost var j;
      assert rows[..i + 1][..i] == rows[..i];
      fault, incoming, outgoing, j := TabulateRow(EdgesOf(rows[..i]), rows[i], ids, incoming, outgoing);
      if fault.Some? {
        FaultSoFar(rows, i, j, ids);
        return;
      }
      i := i + 1;
    }
    assert rows[..i] == rows;
    fault := None;
  }

  /** Ids without open dependencies that were not visited yet. */
  ghost predicate Waiting(queue: seq<string>, incoming: map<string, nat>, visited: set<string>)
  {
    Distinct(queue) && forall x :: x in queue <==> x in incoming && x !in visited && incoming[x] == 0
  }

  /** Visited ids depend on visited ids only, so no knot was touched. */
  ghost predicate Clear(edges: set<Edge>, visited: set<string>)
  {
    forall c: set<string> :: Knotted(edges, c) ==> c !! visited
  }

  lemma ClearGrows(edges: set<Edge>, visited: set<string>, more: set<string>)
    requires Clear(edges, visited)
    requires forall x, y :: x in more && Edge(x, y) in edges ==> y in visited
    ensures Clear(edges, visited + more)
  {
    forall c: set<string> | Knotted(edges, c) ensures c !! visited + more {
      assert c !! visited;
      assert forall x :: x in c ==> DependsOnMember(edges, c, x);
    }
  }

  /** `_validate_dag`'s inner loop: one dependency fewer for each child of a visited id. */
  method Release(ghost edges: seq<Edge>, ids: set<string>, found: map<string, nat>, waiting: seq<string>,
                 children: seq<string>, ghost visited: set<string>)
    returns (incoming: map<string, nat>, queue: seq<string>)
    requires found.Keys == ids && (forall c :: c in children ==> c in ids && c !in visited)
    requires forall x :: x in ids ==> found[x] == Open(edges, x, visited) + multiset(children)[x]
    requires Waiting(waiting, found, visited)
    ensures incoming.Keys == ids && forall x :: x in ids ==> incoming[x] == Open(edges, x, visited)
    ensures Waiting(queue, incoming, visited)
  {
    incoming, queue := found, waiting;
    var k := 0;
    while k < |children|
      invariant 0 <= k <= |children|
      invariant incoming.Keys == ids
      invariant forall x :: x in ids ==> incoming[x] == Open(edges, x, visited) + multiset(children[k..])[x]
      invariant Waiting(queue, incoming, visited)
    {
      var child := children[k];
      assert children[k..] == [child] + children[k + 1..];
      assert child in children;
      assert incoming[child] > 0 && child !in queue;
      incoming := incoming[child := incoming[child] - 1];
      if incoming[child] == 0 {
        queue := queue + [child];
      }
      k := k + 1;
    }
  }

  /** Where the queue loop stands: `done` was visited, `queue` is waiting. */
  ghost predicate Visiting(edges: seq<Edge>, ids: set<string>, incoming: map<string, nat>, queue: seq<string>,
                           done: set<string>)
  {
    && done <= ids && incoming.Keys == ids && (forall x :: x in ids ==> incoming[x] == Open(edges, x, done))
    && (forall x :: x in done ==> Open(edges, x, done) == 0)
    && Waiting(queue, incoming, done)
    && Clear(EdgeSet(edges), done)
  }

  /** Take the first waiting id and release its children. */
  method Visit(ghost edges: seq<Edge>, ids: set<string>, found: map<string, nat>, outgoing: map<string, seq<string>>,
               waiting: seq<string>, ghost done: set<string>)
    returns (incoming: map<string, nat>, queue: seq<string>)
    requires Fault(edges, ids) == None && forall x :: Get(outgoing, x) == ChildrenOf(edges, x)
    requires waiting != [] && Visiting(edges, ids, found, waiting, done)
    ensures waiting[0] in ids - done && Visiting(edges, ids, incoming, queue, done + {waiting[0]})
  {
    var item := waiting[0];
    assert item in waiting;
    var children := SortBy(Get(outgoing, item), Chars);
    ChildrenFacts(edges, ids, item, done, children);
    WaitingNext(waiting, found, done);
    incoming, queue := Release(edges, ids, found, waiting[1..], children, done + {item});
    OpenZero(edges, item, done);
    ClearGrows(EdgeSet(edges), done, {item});
  }

  /** `_validate_dag`. */
  method ValidateDag(rows: seq<Row>, ids: set<string>) returns (v: Verdict)
    ensures match Fault(EdgesOf(rows), ids)
            case Some(fault) => v == fault
            case None =>
              && (v == Accepted <==> !Cyclic(EdgeSet(EdgesOf(rows))))
              && (v == Accepted || v.CBV007_REQUIREMENT_CYCLE?)
              && (v.CBV007_REQUIREMENT_CYCLE? ==> ListsBlocked(v.blocked, EdgeSet(EdgesOf(rows))))
  {
    var fault, incoming, outgoing := Tabulate(rows, ids);
    if fault.Some? {
      return fault.value;
    }
    ghost var edges := EdgesOf(rows);
    var ready := set x | x in incoming && incoming[x] == 0;
    var queue := SortedOf(ready);
    assert forall x :: x in queue <==> x in Elements(queue);
    var visited := 0;
    ghost var done: set<string> := {};
    while queue != []
      invariant Visiting(edges, ids, incoming, queue, done)
      invariant visited == |done|
      decreases ids - done
    {
      ghost var item := queue[0];
      incoming, queue := Visit(edges, ids, incoming, outgoing, queue, done);
      done := done + {item};
      visited := visited + 1;
    }
    StuckIsBlocked(edges, ids, incoming, done);
    SubsetSize(done, ids);
    if visited != |ids| {
      var left := set x | x in incoming && incoming[x] != 0;
      BlockedMeansCyclic(EdgeSet(edges), left);
      var blocked := SortedOf(left);
      return CBV007_REQUIREMENT_CYCLE(blocked);
    }
    assert ids - done == {};
    BlockedMeansCyclic(EdgeSet(edges), {});
    v := Accepted;
  }

  lemma WaitingNext(queue: seq<string>, incoming: map<string, nat>, done: set<string>)
    requires queue != [] && Waiting(queue, incoming, done)
    ensures Waiting(queue[1..], incoming, done + {queue[0]})
  {
    assert queue == [queue[0]] + queue[1..];
    assert forall i :: 0 <= i < |queue[1..]| ==> queue[1..][i] == queue[i + 1];
    assert queue[0] !in queue[1..];
  }

  /** The children of an id without open dependencies, and how visiting it lowers the counts. */
  lemma ChildrenFacts(edges: seq<Edge>, ids: set<string>, item: string, done: set<string>, children: seq<string>)
    requires Fault(edges, ids) == None && item !in done && Open(edges, item, done) == 0
    requires children == SortBy(ChildrenOf(edges, item), Chars)
    requires forall x :: x in done ==> Open(edges, x, done) == 0
    ensures forall c :: c in children ==> c in ids && c !in done + {item}
    ensures forall x :: Open(edges, x, done) == Open(edges, x, done + {item}) + multiset(children)[x]
  {
    SortFacts(ChildrenOf(edges, item), Chars);
    forall x ensures Open(edges, x, done) == Open(edges, x, done + {item}) + multiset(children)[x] {
      OpenDrops(edges, x, item, done);
    }
    FaultMeans(edges, ids);
    forall c | c in children ensures c in ids && c !in done + {item} {
      ChildIsEdge(edges, item, c);
      OpenZero(edges, c, done);
    }
  }

  lemma {:induction false} ChildIsEdge(edges: seq<Edge>, parent: string, child: string)
    requires child in ChildrenOf(edges, parent)
    ensures Edge(child, parent) in edges
  {
    var last := edges[|edges| - 1];
    assert edges == edges[..|edges| - 1] + [last];
    if child in ChildrenOf(edges[..|edges| - 1], parent) {
      ChildIsEdge(edges[..|edges| - 1], parent, child);
    }
  }

  lemma StuckIsBlocked(edges: seq<Edge>, ids: set<string>, incoming: map<string, nat>, done: set<string>)
    requires Fault(edges, ids) == None && Visiting(edges, ids, incoming, [], done)
    ensures (set x | x in incoming && incoming[x] != 0) == ids - done
    ensures Blocked(EdgeSet(edges), ids - done)
  {
    FaultMeans(edges, ids);
    forall x | x in ids - done
      ensures incoming[x] != 0 && DependsOnMember(EdgeSet(edges), ids - done, x)
    {
      assert x !in [];
      OpenZero(edges, x, done);
      var e :| e in edges && e.child == x && e.parent !in done;
      assert e == Edge(x, e.parent);
    }
    forall c: set<string> | Knotted(EdgeSet(edges), c) ensures c <= ids - done {
      forall x | x in c ensures x in ids {
        assert DependsOnMember(EdgeSet(edges), c, x);
      }
      assert c !! done;
    }
  }

  type Graph = map<string, set<string>>

  /** A dictionary by id: a later row replaces an earlier one. */
  function GraphOf(rows: seq<Row>): Graph
  {
    if rows == [] then map[]
    else
      var last := rows[|rows| - 1];
      GraphOf(rows[..|rows| - 1])[last.id := Elements(last.dependencies)]
  }

  function Ids(rows: seq<Row>): seq<string> { seq(|rows|, i requires 0 <= i < |rows| => rows[i].id) }

  ghost function GraphEdges(graph: Graph): set<Edge>
  {
    set n, d | n in graph && d in graph[n] :: Edge(n, d)
  }

  predicate Closed(graph: Graph) { forall n :: n in graph ==> graph[n] <= graph.Keys }

  method Dictionary(rows: seq<Row>) returns (graph: Graph)
    ensures graph == GraphOf(rows)
  {
    graph := map[];
    var i := 0;
    while i < |rows|
      invariant 0 <= i <= |rows|
      invariant graph == GraphOf(rows[..i])
    {
      assert rows[..i + 1][..i] == rows[..i];
      graph := graph[rows[i].id := Elements(rows[i].dependencies)];
      i := i + 1;
    }
    assert rows[..i] == rows;
  }

  /** What is left of the graph after the nodes of `gone` were removed. */
  ghost predicate Rest(graph: Graph, gone: set<string>, remaining: Graph)
  {
    && gone <= graph.Keys && remaining.Keys == graph.Keys - gone
    && forall n :: n in remaining ==> remaining[n] == graph[n] - gone
  }

  lemma PeelStep(graph: Graph, gone: set<string>, remaining: Graph, ready: set<string>)
    requires Rest(graph, gone, remaining) && Clear(GraphEdges(graph), gone)
    requires ready == set n | n in remaining && remaining[n] == {}
    ensures Rest(graph, gone + ready, map n | n in remaining && n !in ready :: remaining[n] - ready)
    ensures Clear(GraphEdges(graph), gone + ready)
  {
    forall x, y | x in ready && Edge(x, y) in GraphEdges(graph) ensures y in gone {
      assert y !in remaining[x] && y in graph[x];
    }
    ClearGrows(GraphEdges(graph), gone, ready);
  }

  lemma NothingReady(graph: Graph, gone: set<string>, remaining: Graph)
    requires Closed(graph) && Rest(graph, gone, remaining) && Clear(GraphEdges(graph), gone)
    requires forall n :: n in remaining ==> remaining[n] != {}
    ensures Blocked(GraphEdges(graph), remaining.Keys)
  {
    forall x | x in remaining.Keys ensures DependsOnMember(GraphEdges(graph), remaining.Keys, x) {
      var y :| y in remaining[x];
      assert y in graph[x] && y in graph.Keys;
      assert Edge(x, y) in GraphEdges(graph);
    }
    forall c: set<string> | Knotted(GraphEdges(graph), c) ensures c <= remaining.Keys {
      forall x | x in c ensures x in graph {
        assert DependsOnMember(GraphEdges(graph), c, x);
      }
      assert c !! gone;
    }
  }

  /** The layer-peeling loop: it ends, and fails exactly on a cycle. */
  method Peel(graph: Graph) returns (v: Verdict)
    requires Closed(graph)
    ensures v == Accepted || v.CB5V020_DEPENDENCY_CYCLE?
    ensures v == Accepted <==> !Cyclic(GraphEdges(graph))
    ensures v.CB5V020_DEPENDENCY_CYCLE? ==> ListsBlocked(v.blocked, GraphEdges(graph))
  {
    var remaining := graph;
    ghost var gone: set<string> := {};
    while remaining != map[]
      invariant Rest(graph, gone, remaining) && Clear(GraphEdges(graph), gone)
      decreases remaining.Keys
    {
      var ready := set n | n in remaining && remaining[n] == {};
      if ready == {} {
        assert forall n :: n in remaining ==> n !in ready;
        NothingReady(graph, gone, remaining);
        BlockedMeansCyclic(GraphEdges(graph), remaining.Keys);
        var blocked := SortedOf(remaining.Keys);
        return CB5V020_DEPENDENCY_CYCLE(blocked);
      }
      PeelStep(graph, gone, remaining, ready);
      var n :| n in ready;
      remaining := map n | n in remaining && n !in ready :: remaining[n] - ready;
      gone := gone + ready;
      assert n !in remaining;
    }
    NothingReady(graph, gone, remaining);
    BlockedMeansCyclic(GraphEdges(graph), {});
    v := Accepted;
  }

  /** `validate_graph`: accepts exactly closed, acyclic graphs that the slices restate. */
  method ValidateGraph(slices: seq<Row>, nodes: seq<Row>) returns (v: Verdict)
    ensures v == Accepted <==>
              && Distinct(Ids(slices)) && GraphOf(slices) == GraphOf(nodes)
              && Closed(GraphOf(nodes)) && !Cyclic(GraphEdges(GraphOf(nodes)))
    ensures v == CB5V018_GRAPH_SLICE_SET <==> Elements(Ids(slices)) != GraphOf(nodes).Keys || !Distinct(Ids(slices))
    ensures v == CB5V019_UNKNOWN_DEPENDENCY ==> !Closed(GraphOf(nodes))
    ensures v.CB5V020_DEPENDENCY_CYCLE? ==>
              Closed(GraphOf(nodes)) && ListsBlocked(v.blocked, GraphEdges(GraphOf(nodes))) && v.blocked != []
    ensures v == CB5V021_GRAPH_MANIFEST_DRIFT ==> GraphOf(slices) != GraphOf(nodes)
    ensures !v.CBV007_REQUIREMENT_CYCLE? && !v.KEY_ERROR? && !v.CBV006_UNKNOWN_REQUIREMENT_DEPENDENCY?
  {
    var graph := Dictionary(nodes);
    KeysAreIds(slices);
    if Elements(Ids(slices)) != graph.Keys || !Distinct(Ids(slices)) {
      return CB5V018_GRAPH_SLICE_SET;
    }
    if exists n :: n in graph && !(graph[n] <= graph.Keys) {
      return CB5V019_UNKNOWN_DEPENDENCY;
    }
    v := Peel(graph);
    if v != Accepted {
      BlockedMeansCyclic(GraphEdges(graph), Elements(v.blocked));
      return;
    }
    var lookup := Dictionary(slices);
    if exists n :: n in graph && lookup[n] != graph[n] {
      return CB5V021_GRAPH_MANIFEST_DRIFT;
    }
    assert lookup == graph;
  }

  lemma {:induction false} KeysAreIds(rows: seq<Row>)
    ensures GraphOf(rows).Keys == Elements(Ids(rows))
  {
    if rows != [] {
      KeysAreIds(rows[..|rows| - 1]);
      var front := rows[..|rows| - 1];
      assert Ids(rows) == Ids(front) + [rows[|rows| - 1].id];
    }
  }

  lemma {:induction false} RowEdgesAre(id: string, dependencies: seq<string>)
    ensures forall e :: e in RowEdges(id, dependencies) <==> e.child == id && e.parent in dependencies
  {
    if dependencies != [] {
      var front := dependencies[..|dependencies| - 1];
      RowEdgesAre(id, front);
      assert dependencies == front + [dependencies[|dependencies| - 1]];
    }
  }

  lemma {:induction false} EdgesAre(rows: seq<Row>)
    requires Distinct(Ids(rows))
    ensures forall e :: e in EdgesOf(rows) <==> e.child in GraphOf(rows) && e.parent in GraphOf(rows)[e.child]
  {
    if rows != [] {
      var front, last := rows[..|rows| - 1], rows[|rows| - 1];
      assert Ids(rows) == Ids(front) + [last.id];
      forall i, j | 0 <= i < j < |front| ensures Ids(front)[i] != Ids(front)[j] {
        assert Ids(rows)[i] != Ids(rows)[j];
      }
      EdgesAre(front);
      KeysAreIds(front);
      forall i | 0 <= i < |front| ensures Ids(front)[i] != last.id {
        assert Ids(rows)[i] != Ids(rows)[|front|];
      }
      RowEdgesAre(last.id, last.dependencies);
      forall e ensures e in EdgesOf(rows) <==> e.child in GraphOf(rows) && e.parent in GraphOf(rows)[e.child] {
        assert e in EdgesOf(front) <==> e.child in GraphOf(front) && e.parent in GraphOf(front)[e.child];
      }
    }
  }

  /**
  On rows with distinct ids the two checks judge the same graph: they find it closed
  together, they find a cycle together, and then they report the same ids.
  */
  lemma ChecksAgree(rows: seq<Row>, kahn: seq<string>, peel: seq<string>)
    requires Distinct(Ids(rows))
    ensures Fault(EdgesOf(rows), Elements(Ids(rows))) == None <==> Closed(GraphOf(rows))
    ensures EdgeSet(EdgesOf(rows)) == GraphEdges(GraphOf(rows))
    ensures ListsBlocked(kahn, EdgeSet(EdgesOf(rows))) && ListsBlocked(peel, GraphEdges(GraphOf(rows))) ==> kahn == peel
  {
    EdgesAre(rows);
    KeysAreIds(rows);
    FaultMeans(EdgesOf(rows), Elements(Ids(rows)));
    if Fault(EdgesOf(rows), Elements(Ids(rows))) == None {
      forall n, d | n in GraphOf(rows) && d in GraphOf(rows)[n] ensures d in GraphOf(rows) {
        assert Edge(n, d) in EdgesOf(rows);
      }
    }
    assert EdgeSet(EdgesOf(rows)) == GraphEdges(GraphOf(rows)) by {
      forall e ensures e in EdgeSet(EdgesOf(rows)) <==> e in GraphEdges(GraphOf(rows)) {
        assert e == Edge(e.child, e.parent);
      }
    }
    if ListsBlocked(kahn, EdgeSet(EdgesOf(rows))) && ListsBlocked(peel, GraphEdges(GraphOf(rows))) {
      BlockedUnique(GraphEdges(GraphOf(rows)), Elements(kahn), Elements(peel));
      ListsUnique(kahn, peel, Elements(kahn));
    }
  }
}
