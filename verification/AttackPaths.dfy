/** Reachability and bounded enumeration of attack routes over one graph. */
module AttackPaths {
  import opened Ids
  import opened Graphs
  import RiskScore

  const MAX_GRAPH_NODES := 2500
  const MAX_GRAPH_EDGES := 20_000
  const MAX_PATHS_PER_TARGET := 25
  const MAX_PATHS := 500
  const MAX_PATH_DEPTH := 32
  const MAX_PATH_WORK := 100_000

  // ---------------------------------------------------------------- breadth-first parents

  function Adjacent(g: Graph, n: Id): (r: seq<Id>)
    ensures forall m :: m in r <==> m in g.nodes && (n, m) in g.edges
  {
    Sorted(Successors(g, n))
  }

  /** Every recorded node but the root has a recorded parent one step closer to the internet. */
  ghost predicate ParentTree(g: Graph, parent: map<Id, Id>, dist: map<Id, nat>) {
    && parent.Keys == dist.Keys
    && parent.Keys <= g.nodes.Keys
    && INTERNET_ID in parent
    && dist[INTERNET_ID] == 0
    && forall v :: v in parent && v != INTERNET_ID ==>
      parent[v] in parent && (parent[v], v) in g.edges && dist[v] == dist[parent[v]] + 1
  }

  /** All successors of the given nodes are recorded, at most one level further out. */
  ghost predicate Expanded(g: Graph, dist: map<Id, nat>, done: set<Id>) {
    forall u, w :: u in done && u in dist && (u, w) in g.edges ==> w in dist && dist[w] <= dist[u] + 1
  }

  ghost predicate BfsTree(g: Graph, parent: map<Id, Id>, dist: map<Id, nat>) {
    ParentTree(g, parent, dist) && Expanded(g, dist, parent.Keys)
  }

  /** The queue holds the recorded, unfinished nodes, nearest first, spanning two levels. */
  ghost predicate Frontier(queue: seq<Id>, dist: map<Id, nat>, done: set<Id>, level: nat) {
    && (forall x :: x in queue ==> x in dist && x !in done && level <= dist[x] <= level + 1)
    && (forall x :: x in dist ==> x in done || x in queue)
    && (forall x :: x in done ==> x in dist && dist[x] <= level)
    && (forall i, j :: 0 <= i < j < |queue| ==> queue[i] != queue[j] && dist[queue[i]] <= dist[queue[j]])
  }

  /** Nothing recorded is forgotten or moved. */
  ghost predicate Extends(dist: map<Id, nat>, more: map<Id, nat>) {
    forall v :: v in dist ==> v in more && more[v] == dist[v]
  }

  lemma DiscoverInTree(g: Graph, parent: map<Id, Id>, dist: map<Id, nat>, current: Id, neighbor: Id)
    requires ParentTree(g, parent, dist) && current in dist
    requires neighbor !in parent && neighbor in g.nodes && (current, neighbor) in g.edges
    ensures ParentTree(g, parent[neighbor := current], dist[neighbor := dist[current] + 1])
  {
  }

  /** Recording a new neighbour of a finished-level node keeps the tree and the frontier. */
  lemma Discover(g: Graph, parent: map<Id, Id>, dist: map<Id, nat>, queue: seq<Id>,
                 done: set<Id>, current: Id, neighbor: Id)
    requires ParentTree(g, parent, dist) && current in done && current in dist
    requires Frontier(queue, dist, done, dist[current])
    requires neighbor !in parent && neighbor in g.nodes && (current, neighbor) in g.edges
    ensures ParentTree(g, parent[neighbor := current], dist[neighbor := dist[current] + 1])
    ensures Frontier(queue + [neighbor], dist[neighbor := dist[current] + 1], done, dist[current])
    ensures Extends(dist, dist[neighbor := dist[current] + 1])
  {
    DiscoverInTree(g, parent, dist, current, neighbor);
    assert neighbor !in dist;
    hide ParentTree;
    var q, d := queue + [neighbor], dist[neighbor := dist[current] + 1];
    forall i, j | 0 <= i < j < |q| ensures q[i] != q[j] && d[q[i]] <= d[q[j]] {
      assert q[i] == queue[i] && queue[i] in queue;
      if j < |queue| { assert queue[j] in queue; }
    }
  }

  /** Taking the nearest unfinished node off the queue finishes no farther level early. */
  lemma Dequeue(queue: seq<Id>, dist: map<Id, nat>, done: set<Id>, level: nat)
    requires queue != [] && Frontier(queue, dist, done, level)
    ensures Frontier(queue[1..], dist, done + {queue[0]}, dist[queue[0]])
  {
    forall x | x in queue[1..] ensures x in dist && x != queue[0] && dist[queue[0]] <= dist[x] <= dist[queue[0]] + 1 {
      assert x in queue;
      var i :| 0 <= i < |queue| - 1 && queue[1..][i] == x;
      assert queue[i + 1] == x;
    }
    forall x | x in dist ensures x in done + {queue[0]} || x in queue[1..] {
      if x in queue && x != queue[0] {
        var i :| 0 <= i < |queue| && queue[i] == x;
        assert queue[1..][i - 1] == x;
      }
    }
  }

  ghost predicate Recorded(nodes: seq<Id>, dist: map<Id, nat>) {
    forall m :: m in nodes ==> m in dist
  }

  lemma RecordedStep(adjacent: seq<Id>, k: nat, dist: map<Id, nat>, more: map<Id, nat>)
    requires k < |adjacent| && Recorded(adjacent[..k], dist) && Extends(dist, more) && adjacent[k] in more
    ensures Recorded(adjacent[..k + 1], more)
  {
    assert adjacent[..k + 1] == adjacent[..k] + [adjacent[k]];
  }

  ghost predicate SuccessorsRecorded(g: Graph, dist: map<Id, nat>, u: Id, level: nat) {
    forall w :: (u, w) in g.edges ==> w in dist && dist[w] <= level + 1
  }

  lemma RecordedSuccessors(g: Graph, dist: map<Id, nat>, queue: seq<Id>, done: set<Id>, u: Id, level: nat,
                           adjacent: seq<Id>)
    requires WellFormed(g) && Frontier(queue, dist, done, level) && Recorded(adjacent, dist)
    requires forall m :: m in adjacent <==> m in g.nodes && (u, m) in g.edges
    ensures SuccessorsRecorded(g, dist, u, level)
  {
    forall w | (u, w) in g.edges ensures w in dist && dist[w] <= level + 1 {
      assert w in adjacent;
    }
  }

  lemma ExpandedStep(g: Graph, dist: map<Id, nat>, more: map<Id, nat>, done: set<Id>, current: Id)
    requires Expanded(g, dist, done) && done <= dist.Keys && Extends(dist, more)
    requires current in more && SuccessorsRecorded(g, more, current, more[current])
    ensures Expanded(g, more, done + {current})
  {
  }

  /** Records one successor of the current node, unless it is known already. */
  method Visit(g: Graph, known: map<Id, Id>, ghost near: map<Id, nat>, waiting: seq<Id>, ghost done: set<Id>,
               current: Id, neighbor: Id)
      returns (parent: map<Id, Id>, ghost dist: map<Id, nat>, queue: seq<Id>)
    requires ParentTree(g, known, near) && current in done && current in near
    requires Frontier(waiting, near, done, near[current])
    requires neighbor in g.nodes && (current, neighbor) in g.edges
    ensures ParentTree(g, parent, dist) && Frontier(queue, dist, done, near[current])
    ensures Extends(near, dist) && neighbor in dist
  {
    parent, dist, queue := known, near, waiting;
    if neighbor !in parent {
      Discover(g, known, near, waiting, done, current, neighbor);
      parent := parent[neighbor := current];
      dist := dist[neighbor := near[current] + 1];
      queue := queue + [neighbor];
    }
  }

  /** Visits the successors of the current node in order. */
  method Expand(g: Graph, known: map<Id, Id>, ghost near: map<Id, nat>, waiting: seq<Id>, ghost done: set<Id>,
                current: Id, adjacent: seq<Id>)
      returns (parent: map<Id, Id>, ghost dist: map<Id, nat>, queue: seq<Id>)
    requires WellFormed(g) && ParentTree(g, known, near) && current in done && current in near
    requires Frontier(waiting, near, done, near[current])
    requires forall m :: m in adjacent <==> m in g.nodes && (current, m) in g.edges
    ensures ParentTree(g, parent, dist) && Extends(near, dist)
    ensures Frontier(queue, dist, done, near[current])
    ensures SuccessorsRecorded(g, dist, current, near[current])
  {
    parent, dist, queue := known, near, waiting;
    for k := 0 to |adjacent|
      invariant ParentTree(g, parent, dist) && Extends(near, dist)
      invariant Frontier(queue, dist, done, near[current])
      invariant Recorded(adjacent[..k], dist)
    {
      ghost var earlier := dist;
      assert adjacent[k] in adjacent;
      parent, dist, queue := Visit(g, parent, dist, queue, done, current, adjacent[k]);
      RecordedStep(adjacent, k, earlier, dist);
    }
    assert adjacent[..|adjacent|] == adjacent;
    RecordedSuccessors(g, dist, queue, done, current, near[current], adjacent);
  }

  method BfsParents(g: Graph) returns (parent: map<Id, Id>, ghost dist: map<Id, nat>)
    requires WellFormed(g) && INTERNET_ID in g.nodes
    ensures BfsTree(g, parent, dist)
    ensures forall n :: n in parent <==> Reaches(g, n)
  {
    parent := map[INTERNET_ID := INTERNET_ID];
    dist := map[INTERNET_ID := 0];
    var queue := [INTERNET_ID];
    ghost var done: set<Id>, level: nat := {}, 0;
    while queue != []
      invariant ParentTree(g, parent, dist)
      invariant done <= parent.Keys && Expanded(g, dist, done)
      invariant Frontier(queue, dist, done, level)
      decreases g.nodes.Keys - done
    {
      var current := queue[0];
      Dequeue(queue, dist, done, level);
      level := dist[current];
      ghost var near := dist;
      parent, dist, queue := Expand(g, parent, dist, queue[1..], done + {current}, current, Adjacent(g, current));
      ExpandedStep(g, near, dist, done, current);
      done := done + {current};
    }
    ParentsAreReachable(g, parent, dist);
  }

  /** No walk is shorter than the recorded distance, and every walk's end is recorded. */
  lemma {:induction false} DistanceIsLeast(g: Graph, parent: map<Id, Id>, dist: map<Id, nat>, p: seq<Id>, target: Id)
    requires BfsTree(g, parent, dist)
    requires WalkTo(g, p, target)
    ensures target in dist && dist[target] <= |p| - 1
    decreases |p|
  {
    if |p| == 1 {
    } else {
      var q := p[..|p| - 1];
      var last := q[|q| - 1];
      assert forall i :: 0 <= i < |q| - 1 ==> (q[i], q[i + 1]) == (p[i], p[i + 1]);
      DistanceIsLeast(g, parent, dist, q, last);
      assert (p[|p| - 2], p[|p| - 1]) in g.edges;
    }
  }

  /** Following parents back to the root spells a walk of exactly the recorded length. */
  lemma {:induction false} RecordedMeansReached(g: Graph, parent: map<Id, Id>, dist: map<Id, nat>, target: Id)
    requires BfsTree(g, parent, dist) && target in parent
    ensures Reaches(g, target)
    decreases dist[target]
  {
    if target == INTERNET_ID {
      assert WalkTo(g, [INTERNET_ID], target);
    } else {
      RecordedMeansReached(g, parent, dist, parent[target]);
      var p :| WalkTo(g, p, parent[target]);
      assert WalkTo(g, p + [target], target);
    }
  }

  /** The parent map records the internet together with all of its descendants. */
  lemma ParentsAreReachable(g: Graph, parent: map<Id, Id>, dist: map<Id, nat>)
    requires BfsTree(g, parent, dist)
    ensures forall n :: n in parent <==> Reaches(g, n)
    ensures AreDescendants(g, parent.Keys - {INTERNET_ID})
  {
    forall n ensures n in parent <==> Reaches(g, n) {
      if n in parent { RecordedMeansReached(g, parent, dist, n); }
      if Reaches(g, n) {
        var p :| WalkTo(g, p, n);
        DistanceIsLeast(g, parent, dist, p, n);
      }
    }
  }

  // ---------------------------------------------------------------- attack paths

  datatype Path = Path(nodes: seq<Id>, edges: seq<Edge>, severity: Risk, reachesSensitive: bool)

  function PathEdges(g: Graph, nodes: seq<Id>): seq<Edge>
    requires Walk(g, nodes)
  {
    seq(|nodes| - 1, i requires 0 <= i < |nodes| - 1 => g.edges[(nodes[i], nodes[i + 1])])
  }

  function WorstRisk(edges: seq<Edge>): Risk {
    if edges == [] then NONE else
      var rest := WorstRisk(edges[1..]);
      if edges[0].risk.Rank() >= rest.Rank() then edges[0].risk else rest
  }

  predicate TouchesSensitive(g: Graph, nodes: seq<Id>) {
    exists n :: n in nodes && n in g.nodes && g.nodes[n].kind == SENSITIVE_DATA
  }

  function BuildAttackPath(g: Graph, nodes: seq<Id>): Path
    requires Walk(g, nodes)
  {
    var edges := PathEdges(g, nodes);
    var sensitive := TouchesSensitive(g, nodes);
    Path(nodes, edges, if sensitive then CRITICAL else WorstRisk(edges), sensitive)
  }

  /** The path list has an entry with exactly these nodes. */
  predicate Lists(paths: seq<Path>, nodes: seq<Id>) {
    exists i :: 0 <= i < |paths| && paths[i].nodes == nodes
  }

  /** No two entries of the list visit the same nodes. */
  predicate Distinct(paths: seq<Path>) {
    forall i, j :: 0 <= i < j < |paths| ==> paths[i].nodes != paths[j].nodes
  }

  /** A listed path is a route to its target within the depth budget, with the graph's own edges. */
  predicate SoundPath(g: Graph, p: Path, target: Id) {
    Route(g, p.nodes, target) && |p.nodes| - 1 <= MAX_PATH_DEPTH && p == BuildAttackPath(g, p.nodes)
  }

  /** A chain of parents from the target towards the internet. */
  ghost predicate Chain(g: Graph, parent: map<Id, Id>, dist: map<Id, nat>, back: seq<Id>, target: Id) {
    && back != [] && back[0] == target && target in dist
    && (forall i :: 0 <= i < |back| ==> back[i] in parent && back[i] in dist && dist[back[i]] == dist[target] - i)
    && (forall i :: 0 <= i < |back| - 1 ==> (back[i + 1], back[i]) in g.edges)
  }

  lemma ChainGrows(g: Graph, parent: map<Id, Id>, dist: map<Id, nat>, back: seq<Id>, target: Id)
    requires BfsTree(g, parent, dist) && Chain(g, parent, dist, back, target) && back[|back| - 1] != INTERNET_ID
    ensures Chain(g, parent, dist, back + [parent[back[|back| - 1]]], target)
  {
  }

  function Reverse(back: seq<Id>): (r: seq<Id>)
    ensures |r| == |back|
  {
    seq(|back|, i requires 0 <= i < |back| => back[|back| - 1 - i])
  }

  /** Read from the internet outwards, a complete chain is a route. */
  lemma ChainIsRoute(g: Graph, parent: map<Id, Id>, dist: map<Id, nat>, back: seq<Id>, target: Id)
    requires BfsTree(g, parent, dist) && Chain(g, parent, dist, back, target) && back[|back| - 1] == INTERNET_ID
    ensures Route(g, Reverse(back), target) && |back| == dist[target] + 1
  {
    var r := Reverse(back);
    forall i, j | 0 <= i < j < |r| ensures r[i] != r[j] {
      assert dist[r[i]] < dist[r[j]];
    }
  }

  /** Walks the parents back from the target; fails exactly when the target lies beyond the depth budget. */
  method Witness(g: Graph, parent: map<Id, Id>, ghost dist: map<Id, nat>, target: Id)
      returns (shortest: seq<Id>, found: bool)
    requires BfsTree(g, parent, dist) && target in parent
    ensures found <==> dist[target] <= MAX_PATH_DEPTH
    ensures found ==> Route(g, shortest, target) && |shortest| == dist[target] + 1
  {
    shortest := [target];
    while shortest[|shortest| - 1] != INTERNET_ID && |shortest| <= MAX_PATH_DEPTH
      invariant 1 <= |shortest| <= MAX_PATH_DEPTH + 1 && Chain(g, parent, dist, shortest, target)
    {
      ChainGrows(g, parent, dist, shortest, target);
      shortest := shortest + [parent[shortest[|shortest| - 1]]];
    }
    found := shortest[|shortest| - 1] == INTERNET_ID;
    if found {
      ChainIsRoute(g, parent, dist, shortest, target);
      shortest := Reverse(shortest);
    }
  }

  // ---------------------------------------------------------------- depth-first enumeration

  /** One level of the search stack: a node and its successors not taken yet. */
  datatype Frame = Frame(node: Id, rest: seq<Id>)

  /** A route not explored yet: it follows the stack up to depth d, then leaves by an untaken successor. */
  ghost predicate AheadAt(stack: seq<Frame>, p: seq<Id>, d: nat) {
    && 1 <= d <= |stack| && d < |p|
    && (forall i :: 0 <= i < d ==> p[i] == stack[i].node)
    && p[d] in stack[d - 1].rest
  }

  ghost predicate Ahead(stack: seq<Frame>, p: seq<Id>) {
    exists d: nat :: AheadAt(stack, p, d)
  }

  /** Every route to the target was emitted or is still ahead of the search. */
  ghost predicate Covered(g: Graph, target: Id, emitted: set<seq<Id>>, stack: seq<Frame>) {
    forall p :: Route(g, p, target) ==> p in emitted || Ahead(stack, p)
  }

  lemma StartCovers(g: Graph, target: Id, emitted: set<seq<Id>>)
    requires WellFormed(g) && target != INTERNET_ID
    ensures Covered(g, target, emitted, [Frame(INTERNET_ID, Adjacent(g, INTERNET_ID))])
  {
    var stack := [Frame(INTERNET_ID, Adjacent(g, INTERNET_ID))];
    forall p | Route(g, p, target) ensures Ahead(stack, p) {
      assert (p[0], p[1]) in g.edges;
      assert AheadAt(stack, p, 1);
    }
  }

  /** Backtracking out of an exhausted node loses no route. */
  lemma PopCovers(g: Graph, target: Id, emitted: set<seq<Id>>, stack: seq<Frame>)
    requires stack != [] && Covered(g, target, emitted, stack)
    requires stack[|stack| - 1].rest == []
    ensures Covered(g, target, emitted, stack[..|stack| - 1])
  {
    forall p | Route(g, p, target) && p !in emitted ensures Ahead(stack[..|stack| - 1], p) {
      var d: nat :| AheadAt(stack, p, d);
      assert AheadAt(stack[..|stack| - 1], p, d);
    }
  }

  /** The stack after its top frame took one successor. */
  function Advance(stack: seq<Frame>): seq<Frame>
    requires stack != [] && stack[|stack| - 1].rest != []
  {
    var top := stack[|stack| - 1];
    stack[..|stack| - 1] + [Frame(top.node, top.rest[1..])]
  }

  /** Taking a successor drops only the routes that leave the stack through it. */
  lemma AdvanceKeeps(stack: seq<Frame>, p: seq<Id>)
    requires stack != [] && stack[|stack| - 1].rest != [] && Ahead(stack, p)
    ensures Ahead(Advance(stack), p) || (AheadAt(stack, p, |stack|) && p[|stack|] == stack[|stack| - 1].rest[0])
  {
    var d: nat :| AheadAt(stack, p, d);
    var rest := stack[d - 1].rest;
    assert d == |stack| ==> rest == [rest[0]] + rest[1..];
    if d < |stack| || p[d] != rest[0] {
      assert AheadAt(Advance(stack), p, d);
    }
  }

  ghost predicate OnStack(route: seq<Id>, stack: seq<Frame>) {
    |route| == |stack| && forall i :: 0 <= i < |stack| ==> stack[i].node == route[i]
  }

  /** Skipping a node already on the route loses nothing: no route repeats a node. */
  lemma SkipCovers(g: Graph, target: Id, emitted: set<seq<Id>>, stack: seq<Frame>, route: seq<Id>)
    requires stack != [] && Covered(g, target, emitted, stack) && OnStack(route, stack)
    requires stack[|stack| - 1].rest != [] && stack[|stack| - 1].rest[0] in route
    ensures Covered(g, target, emitted, Advance(stack))
  {
    forall p | Route(g, p, target) && p !in emitted ensures Ahead(Advance(stack), p) {
      AdvanceKeeps(stack, p);
    }
  }

  /** Emitting the route through the target accounts for every route leaving by it. */
  lemma EmitCovers(g: Graph, target: Id, emitted: set<seq<Id>>, stack: seq<Frame>, route: seq<Id>)
    requires stack != [] && Covered(g, target, emitted, stack) && OnStack(route, stack)
    requires stack[|stack| - 1].rest != [] && stack[|stack| - 1].rest[0] == target
    ensures Covered(g, target, emitted + {route + [target]}, Advance(stack))
  {
    forall p | Route(g, p, target) && p !in emitted + {route + [target]} ensures Ahead(Advance(stack), p) {
      AdvanceKeeps(stack, p);
      if AheadAt(stack, p, |stack|) && p[|stack|] == target {
        assert |p| == |stack| + 1;
        assert p == route + [target];
      }
    }
  }

  /** A route that leaves the stack through a fresh node is ahead once that node is on the stack. */
  lemma Descend(g: Graph, stack: seq<Frame>, neighbor: Id, p: seq<Id>)
    requires WellFormed(g) && Walk(g, p) && |stack| + 1 < |p| && p[|stack|] == neighbor
    requires forall i :: 0 <= i < |stack| ==> p[i] == stack[i].node
    ensures Ahead(stack + [Frame(neighbor, Adjacent(g, neighbor))], p)
  {
    var n := |stack|;
    assert (p[n], p[n + 1]) in g.edges;
    assert AheadAt(stack + [Frame(neighbor, Adjacent(g, neighbor))], p, n + 1);
  }

  /** Descending into a fresh node keeps every route that goes through it ahead. */
  lemma PushCovers(g: Graph, target: Id, emitted: set<seq<Id>>, stack: seq<Frame>)
    requires WellFormed(g) && stack != [] && Covered(g, target, emitted, stack)
    requires stack[|stack| - 1].rest != [] && stack[|stack| - 1].rest[0] != target
    ensures var neighbor := stack[|stack| - 1].rest[0];
            Covered(g, target, emitted, Advance(stack) + [Frame(neighbor, Adjacent(g, neighbor))])
  {
    var neighbor := stack[|stack| - 1].rest[0];
    var next := Advance(stack) + [Frame(neighbor, Adjacent(g, neighbor))];
    forall p | Route(g, p, target) && p !in emitted ensures Ahead(next, p) {
      AdvanceKeeps(stack, p);
      if Ahead(Advance(stack), p) {
        var d: nat :| AheadAt(Advance(stack), p, d);
        assert AheadAt(next, p, d);
      } else {
        Descend(g, Advance(stack), neighbor, p);
      }
    }
  }

  /** What the search maintains: the route is a simple walk from the internet that has not met the target. */
  ghost predicate Searching(g: Graph, target: Id, stack: seq<Frame>, route: seq<Id>) {
    && OnStack(route, stack)
    && |route| <= MAX_PATH_DEPTH
    && (route != [] ==> Walk(g, route) && route[0] == INTERNET_ID)
    && Simple(route) && target !in route
    && forall i, m :: 0 <= i < |stack| && m in stack[i].rest ==> (stack[i].node, m) in g.edges
  }

  /** The search met a node further out than the depth budget on its way to the target. */
  ghost predicate TooDeep(g: Graph, target: Id) {
    exists p :: Walk(g, p) && Simple(p) && p[0] == INTERNET_ID && target !in p && |p| == 33
  }

  ghost predicate BudgetReached(g: Graph, target: Id, found: nat, total: nat, work: nat) {
    work >= MAX_PATH_WORK || total >= MAX_PATHS || found >= MAX_PATHS_PER_TARGET || TooDeep(g, target)
  }

  ghost predicate SoundList(g: Graph, found: seq<Path>, target: Id) {
    Distinct(found) && forall i :: 0 <= i < |found| ==> SoundPath(g, found[i], target)
  }

  /** Extending the search route by a fresh successor gives a longer simple walk. */
  lemma Extend(g: Graph, target: Id, stack: seq<Frame>, route: seq<Id>, neighbor: Id)
    requires Searching(g, target, stack, route) && stack != []
    requires neighbor in stack[|stack| - 1].rest && neighbor !in route
    ensures Walk(g, route + [neighbor]) && Simple(route + [neighbor])
  {
    assert (stack[|stack| - 1].node, neighbor) in g.edges;
  }

  /** The emitted set mirrors the listed paths, one for one. */
  ghost predicate Tally(found: seq<Path>, emitted: set<seq<Id>>) {
    (forall k :: k in emitted <==> Lists(found, k)) && |emitted| == |found|
  }

  ghost predicate Marks(visited: set<Id>, route: seq<Id>) {
    forall n :: n in visited <==> n in route
  }

  lemma PopSearches(g: Graph, target: Id, stack: seq<Frame>, route: seq<Id>, visited: set<Id>)
    requires Searching(g, target, stack, route) && stack != [] && Marks(visited, route)
    ensures Searching(g, target, stack[..|stack| - 1], route[..|route| - 1])
    ensures Marks(visited - {route[|route| - 1]}, route[..|route| - 1])
  {
    var shorter := route[..|route| - 1];
    assert route == shorter + [route[|route| - 1]];
    forall i | 0 <= i < |shorter| - 1 ensures (shorter[i], shorter[i + 1]) in g.edges {
      assert shorter[i] == route[i] && shorter[i + 1] == route[i + 1];
    }
    assert route[|route| - 1] !in shorter;
  }

  lemma AdvanceSearches(g: Graph, target: Id, stack: seq<Frame>, route: seq<Id>)
    requires Searching(g, target, stack, route) && stack != [] && stack[|stack| - 1].rest != []
    ensures Searching(g, target, Advance(stack), route)
  {
    forall i, m | 0 <= i < |stack| && m in Advance(stack)[i].rest ensures (Advance(stack)[i].node, m) in g.edges {
      assert m in stack[i].rest;
    }
  }

  lemma PushSearches(g: Graph, target: Id, stack: seq<Frame>, route: seq<Id>, neighbor: Id)
    requires Searching(g, target, stack, route) && stack != [] && |route| < MAX_PATH_DEPTH
    requires Walk(g, route + [neighbor]) && Simple(route + [neighbor]) && neighbor != target
    ensures Searching(g, target, stack + [Frame(neighbor, Adjacent(g, neighbor))], route + [neighbor])
  {
    var next := stack + [Frame(neighbor, Adjacent(g, neighbor))];
    forall i, m | 0 <= i < |next| && m in next[i].rest ensures (next[i].node, m) in g.edges {
      if i < |stack| { assert m in stack[i].rest; }
    }
  }

  lemma EmitSounds(g: Graph, found: seq<Path>, emitted: set<seq<Id>>, target: Id, key: seq<Id>)
    requires Tally(found, emitted) && key !in emitted
    requires SoundList(g, found, target) && Route(g, key, target) && |key| - 1 <= MAX_PATH_DEPTH
    ensures SoundList(g, found + [BuildAttackPath(g, key)], target)
    ensures Tally(found + [BuildAttackPath(g, key)], emitted + {key})
  {
    var more := found + [BuildAttackPath(g, key)];
    forall k ensures Lists(more, k) <==> Lists(found, k) || k == key {
      if Lists(found, k) {
        var i :| 0 <= i < |found| && found[i].nodes == k;
        assert more[i].nodes == k;
      }
      assert more[|found|].nodes == key;
    }
  }

  /** Adds a route to the list unless it was emitted before. */
  method Emit(g: Graph, target: Id, found: seq<Path>, emitted: set<seq<Id>>, key: seq<Id>)
      returns (more: seq<Path>, keys: set<seq<Id>>)
    requires found != [] && SoundList(g, found, target) && Tally(found, emitted)
    requires Route(g, key, target) && |key| - 1 <= MAX_PATH_DEPTH
    ensures SoundList(g, more, target) && Tally(more, keys)
    ensures keys == emitted + {key}
    ensures |found| <= |more| <= |found| + 1 && more[0] == found[0]
  {
    more, keys := found, emitted;
    if key !in emitted {
      EmitSounds(g, found, emitted, target, key);
      keys := emitted + {key};
      more := found + [BuildAttackPath(g, key)];
    }
  }

  /**
   * Lists the routes to one target depth first, after its shortest one, within the four budgets.
   * `already` and `spent` are the paths and work the earlier targets used up.
   */
  method Enumerate(g: Graph, target: Id, shortest: seq<Id>, already: nat, spent: nat)
      returns (found: seq<Path>, work: nat, truncated: bool)
    requires WellFormed(g) && target != INTERNET_ID
    requires Route(g, shortest, target) && |shortest| - 1 <= MAX_PATH_DEPTH
    requires already < MAX_PATHS && spent < MAX_PATH_WORK
    ensures SoundList(g, found, target)
    ensures found != [] && found[0].nodes == shortest
    ensures |found| <= MAX_PATHS_PER_TARGET && already + |found| <= MAX_PATHS && spent <= work <= MAX_PATH_WORK
    ensures !truncated ==> forall p :: Route(g, p, target) ==> Lists(found, p)
    ensures truncated ==> BudgetReached(g, target, |found|, already + |found|, work)
  {
    hide TooDeep, SoundList, Tally, Covered, Route, SoundPath, Lists;
    found, work, truncated := [FirstPath(g, shortest, target)], spent, false;
    var emitted := {shortest};
    var stack := [Frame(INTERNET_ID, Adjacent(g, INTERNET_ID))];
    var route, visited := [INTERNET_ID], {INTERNET_ID};
    StartCovers(g, target, emitted);
    while stack != []
      invariant Searching(g, target, stack, route) && Marks(visited, route)
      invariant 1 <= |found| < MAX_PATHS_PER_TARGET && already + |found| <= MAX_PATHS
      invariant SoundList(g, found, target) && found[0].nodes == shortest
      invariant Tally(found, emitted)
      invariant spent <= work <= MAX_PATH_WORK
      invariant truncated || Covered(g, target, emitted, stack)
      invariant truncated ==> BudgetReached(g, target, |found|, already + |found|, work)
      decreases MAX_PATH_WORK - work
    {
      if work >= MAX_PATH_WORK || already + |found| >= MAX_PATHS {
        truncated := true;
        break;
      }
      var top := stack[|stack| - 1];
      work := work + 1;
      if top.rest == [] {
        if !truncated { PopCovers(g, target, emitted, stack); }
        PopSearches(g, target, stack, route, visited);
        stack := stack[..|stack| - 1];
        visited := visited - {route[|route| - 1]};
        route := route[..|route| - 1];
        continue;
      }
      var neighbor := top.rest[0];
      AdvanceSearches(g, target, stack, route);
      if neighbor in visited {
        if !truncated { SkipCovers(g, target, emitted, stack, route); }
        stack := Advance(stack);
        continue;
      }
      Extend(g, target, stack, route, neighbor);
      if neighbor == target {
        if !truncated { EmitCovers(g, target, emitted, stack, route); }
        stack := Advance(stack);
        found, emitted := Emit(g, target, found, emitted, route + [target]);
        if |emitted| >= MAX_PATHS_PER_TARGET {
          truncated := true;
          break;
        }
      } else if |route| >= MAX_PATH_DEPTH {
        TooDeepHere(g, target, stack, route, neighbor);
        stack := Advance(stack);
        truncated := true;
      } else {
        if !truncated { PushCovers(g, target, emitted, stack); }
        PushSearches(g, target, Advance(stack), route, neighbor);
        stack := Advance(stack) + [Frame(neighbor, Adjacent(g, neighbor))];
        route := route + [neighbor];
        visited := visited + {neighbor};
      }
    }
    if !truncated { NothingLeft(g, target, found, emitted); }
  }

  /** The path of a route. */
  function FirstPath(g: Graph, route: seq<Id>, target: Id): (p: Path)
    requires Route(g, route, target) && |route| - 1 <= MAX_PATH_DEPTH
    ensures p.nodes == route && SoundList(g, [p], target) && Tally([p], {route})
  {
    OneIsTallied(BuildAttackPath(g, route));
    BuildAttackPath(g, route)
  }

  lemma OneIsTallied(p: Path)
    ensures Tally([p], {p.nodes})
  {
    assert [p][0] == p;
  }

  lemma TooDeepHere(g: Graph, target: Id, stack: seq<Frame>, route: seq<Id>, neighbor: Id)
    requires Searching(g, target, stack, route) && |route| == MAX_PATH_DEPTH && neighbor != target
    requires Walk(g, route + [neighbor]) && Simple(route + [neighbor])
    ensures TooDeep(g, target)
  {
    assert target !in route + [neighbor];
  }

  lemma NothingLeft(g: Graph, target: Id, found: seq<Path>, emitted: set<seq<Id>>)
    requires Covered(g, target, emitted, []) && Tally(found, emitted)
    ensures forall p :: Route(g, p, target) ==> Lists(found, p)
  {
  }

  // ---------------------------------------------------------------- the whole analysis

  datatype Analysis = Analysis(
    graph: Graph,
    reachable: set<Id>,
    exposed: set<Id>,
    sensitive: set<Id>,
    reachableSensitive: set<Id>,
    attackPaths: seq<Path>,
    riskLevel: Risk,
    score: int,
    breakdown: seq<RiskScore.Deduction>,
    diagnostics: seq<Diagnostic>,
    truncated: bool,
    work: nat)
  {
    predicate Complete() {
      !truncated && forall d :: d in diagnostics ==> !d.blocksAnalysis
    }

    predicate HasCriticalPath() {
      exists p :: p in attackPaths && p.reachesSensitive
    }

    function Facts(): RiskScore.Facts {
      RiskScore.Facts(graph, exposed, reachableSensitive, HasCriticalPath())
    }
  }

  datatype Outcome = InputLimitError | Analyzed(result: Analysis)

  const PATHS_TRUNCATED := Diagnostic("PATHS_TRUNCATED", true)

  function OfKind(g: Graph, s: set<Id>, kinds: set<NodeType>): set<Id> {
    set n | n in s && n in g.nodes && g.nodes[n].kind in kinds
  }

  const RESOURCE_TYPES: set<NodeType> := {EC2, IAM_ROLE, S3_BUCKET}

  function SensitiveResources(g: Graph): set<Id> {
    set n | n in g.nodes && g.nodes[n].sensitive && g.nodes[n].kind != SENSITIVE_DATA
  }

  /** Sensitive-data markers the internet reaches or, when there is none, the instances it reaches. */
  function Targets(g: Graph, reachable: set<Id>): set<Id> {
    var markers := OfKind(g, reachable, {SENSITIVE_DATA});
    if markers != {} then markers else OfKind(g, OfKind(g, reachable, RESOURCE_TYPES), {EC2})
  }

  function WorstSeverity(paths: seq<Path>): Risk {
    if paths == [] then NONE else
      var rest := WorstSeverity(paths[1..]);
      if paths[0].severity.Rank() >= rest.Rank() then paths[0].severity else rest
  }

  function RiskLevel(critical: bool, reachableSensitive: set<Id>, paths: seq<Path>, exposed: set<Id>): Risk {
    if critical || reachableSensitive != {} then CRITICAL
    else if paths != [] then
      if WorstSeverity(paths).Rank() >= HIGH.Rank() then HIGH else MEDIUM
    else if exposed != {} then MEDIUM
    else LOW
  }

  function Last(p: Path): Id {
    if p.nodes == [] then INTERNET_ID else p.nodes[|p.nodes| - 1]
  }

  /** How many listed paths end at the target. */
  function CountTo(paths: seq<Path>, target: Id): nat {
    if paths == [] then 0
    else CountTo(paths[..|paths| - 1], target) + if Last(paths[|paths| - 1]) == target then 1 else 0
  }

  /** The list holds a path to the target no longer than any walk there. */
  ghost predicate ShortestListed(g: Graph, paths: seq<Path>, target: Id) {
    exists i :: 0 <= i < |paths| && Last(paths[i]) == target
      && forall q :: WalkTo(g, q, target) ==> |paths[i].nodes| <= |q|
  }

  /** Every walk to the target is longer than the depth budget. */
  ghost predicate BeyondDepth(g: Graph, target: Id) {
    forall q :: WalkTo(g, q, target) ==> |q| > 33
  }

  /** The only reasons for the truncation flag. */
  ghost predicate Truncates(g: Graph, targets: set<Id>, paths: seq<Path>, work: nat) {
    || work >= MAX_PATH_WORK
    || |paths| >= MAX_PATHS
    || exists t :: t in targets && (CountTo(paths, t) >= MAX_PATHS_PER_TARGET || TooDeep(g, t) || BeyondDepth(g, t))
  }

  /** Sound, distinct and within the output budgets. */
  ghost predicate Listed(g: Graph, targets: set<Id>, paths: seq<Path>) {
    && (forall i :: 0 <= i < |paths| ==> Last(paths[i]) in targets && SoundPath(g, paths[i], Last(paths[i])))
    && Distinct(paths)
    && |paths| <= MAX_PATHS
    && forall t :: CountTo(paths, t) <= MAX_PATHS_PER_TARGET
  }

  /** Every route to every target is listed, and for each target a shortest one. */
  ghost predicate Exhausted(g: Graph, targets: set<Id>, paths: seq<Path>) {
    && (forall t, p :: t in targets && Route(g, p, t) ==> Lists(paths, p))
    && forall t :: t in targets ==> ShortestListed(g, paths, t)
  }

  ghost predicate Enumerated(g: Graph, targets: set<Id>, paths: seq<Path>, work: nat, truncated: bool) {
    && Listed(g, targets, paths)
    && work <= MAX_PATH_WORK
    && if truncated then Truncates(g, targets, paths, work) else Exhausted(g, targets, paths)
  }

  /** Exposure and paths are those of the graph. */
  ghost predicate Explored(g: Graph, r: Analysis) {
    && r.graph == g
    && AreDescendants(g, r.reachable)
    && r.exposed == OfKind(g, r.reachable, RESOURCE_TYPES)
    && r.reachableSensitive == SensitiveResources(g) * r.reachable
    && Enumerated(g, Targets(g, r.reachable), r.attackPaths, r.work, r.truncated)
  }

  /** What `Analyze` promises about its result. */
  ghost predicate IsAnalysis(g: Graph, r: Analysis) {
    && Explored(g, r)
    && r.sensitive == (if INTERNET_ID in g.nodes then SensitiveResources(g) else {})
    && r.diagnostics == g.diagnostics + (if r.truncated then [PATHS_TRUNCATED] else [])
    && r.score == (if INTERNET_ID in g.nodes then RiskScore.Score(r.Facts()) else 100)
    && r.riskLevel == RiskLevel(r.HasCriticalPath(), r.reachableSensitive, r.attackPaths, r.exposed)
  }

  lemma {:induction false} CountToIsAdditive(a: seq<Path>, b: seq<Path>, target: Id)
    ensures CountTo(a + b, target) == CountTo(a, target) + CountTo(b, target)
    decreases |b|
  {
    if b == [] {
      assert a + b == a;
    } else {
      assert (a + b)[..|a + b| - 1] == a + b[..|b| - 1];
      CountToIsAdditive(a, b[..|b| - 1], target);
    }
  }

  lemma {:induction false} CountToSame(b: seq<Path>, end: Id, target: Id)
    requires forall i :: 0 <= i < |b| ==> Last(b[i]) == end
    ensures CountTo(b, target) == if end == target then |b| else 0
    decreases |b|
  {
    if b != [] { CountToSame(b[..|b| - 1], end, target); }
  }

  lemma {:induction false} CountToNone(b: seq<Path>, target: Id)
    requires forall i :: 0 <= i < |b| ==> Last(b[i]) != target
    ensures CountTo(b, target) == 0
    decreases |b|
  {
    if b != [] { CountToNone(b[..|b| - 1], target); }
  }

  /** Counts once one more target's paths are appended. */
  lemma CountsStep(paths: seq<Path>, found: seq<Path>, target: Id)
    requires forall i :: 0 <= i < |paths| ==> Last(paths[i]) != target
    requires forall i :: 0 <= i < |found| ==> Last(found[i]) == target
    ensures CountTo(paths + found, target) == |found|
    ensures forall t :: t != target ==> CountTo(paths + found, t) == CountTo(paths, t)
  {
    forall t ensures CountTo(paths + found, t) == CountTo(paths, t) + if t == target then |found| else 0 {
      CountToIsAdditive(paths, found, t);
      CountToSame(found, target, t);
    }
    CountToNone(paths, target);
  }

  lemma ListsMore(paths: seq<Path>, found: seq<Path>, p: seq<Id>)
    requires Lists(paths, p) || Lists(found, p)
    ensures Lists(paths + found, p)
  {
    if Lists(paths, p) {
      var i :| 0 <= i < |paths| && paths[i].nodes == p;
      assert (paths + found)[i].nodes == p;
    } else {
      var i :| 0 <= i < |found| && found[i].nodes == p;
      assert (paths + found)[|paths| + i].nodes == p;
    }
  }

  lemma ShortestMore(g: Graph, paths: seq<Path>, found: seq<Path>, t: Id)
    requires ShortestListed(g, paths, t)
    ensures ShortestListed(g, paths + found, t)
  {
    var i :| 0 <= i < |paths| && Last(paths[i]) == t && forall q :: WalkTo(g, q, t) ==> |paths[i].nodes| <= |q|;
    assert (paths + found)[i] == paths[i];
  }

  lemma TruncatesMore(g: Graph, targets: set<Id>, target: Id, paths: seq<Path>, spent: nat, found: seq<Path>, work: nat)
    requires target !in targets && spent <= work && Truncates(g, targets, paths, spent)
    requires forall t :: t != target ==> CountTo(paths + found, t) == CountTo(paths, t)
    ensures Truncates(g, targets + {target}, paths + found, work)
  {
    if spent < MAX_PATH_WORK && |paths| < MAX_PATHS {
      var t :| t in targets && (CountTo(paths, t) >= MAX_PATHS_PER_TARGET || TooDeep(g, t) || BeyondDepth(g, t));
      assert t in targets + {target} && CountTo(paths + found, t) == CountTo(paths, t);
    }
  }

  lemma AppendListed(g: Graph, targets: set<Id>, target: Id, paths: seq<Path>, found: seq<Path>)
    requires target !in targets && Listed(g, targets, paths) && SoundList(g, found, target)
    requires |found| <= MAX_PATHS_PER_TARGET && |paths| + |found| <= MAX_PATHS
    ensures Listed(g, targets + {target}, paths + found)
    ensures CountTo(paths + found, target) == |found|
    ensures forall t :: t != target ==> CountTo(paths + found, t) == CountTo(paths, t)
  {
    var all := paths + found;
    CountsStep(paths, found, target);
    forall i, j | 0 <= i < j < |all| ensures all[i].nodes != all[j].nodes {
      if i < |paths| <= j { assert Last(all[i]) != Last(all[j]); }
    }
  }

  lemma AppendExhausted(g: Graph, targets: set<Id>, target: Id, paths: seq<Path>, found: seq<Path>)
    requires Exhausted(g, targets, paths) && SoundList(g, found, target) && found != []
    requires forall p :: Route(g, p, target) ==> Lists(found, p)
    requires forall q :: WalkTo(g, q, target) ==> |found[0].nodes| <= |q|
    ensures Exhausted(g, targets + {target}, paths + found)
  {
    var all := paths + found;
    forall t, p | t in targets + {target} && Route(g, p, t) ensures Lists(all, p) { ListsMore(paths, found, p); }
    forall t | t in targets + {target} ensures ShortestListed(g, all, t) {
      if t in targets { ShortestMore(g, paths, found, t); } else { assert all[|paths|] == found[0]; }
    }
  }

  /** Appending one more target's enumeration keeps everything promised for the targets so far. */
  lemma AppendTarget(g: Graph, targets: set<Id>, target: Id, paths: seq<Path>, spent: nat, before: bool,
                     found: seq<Path>, work: nat, truncated: bool)
    requires target !in targets && spent <= work <= MAX_PATH_WORK
    requires Enumerated(g, targets, paths, spent, before)
    requires SoundList(g, found, target) && found != []
    requires forall q :: WalkTo(g, q, target) ==> |found[0].nodes| <= |q|
    requires |found| <= MAX_PATHS_PER_TARGET && |paths| + |found| <= MAX_PATHS
    requires !truncated ==> forall p :: Route(g, p, target) ==> Lists(found, p)
    requires truncated ==> BudgetReached(g, target, |found|, |paths| + |found|, work)
    ensures Enumerated(g, targets + {target}, paths + found, work, before || truncated)
  {
    AppendListed(g, targets, target, paths, found);
    if before {
      TruncatesMore(g, targets, target, paths, spent, found, work);
    } else if truncated {
      assert target in targets + {target} && CountTo(paths + found, target) == |found|;
    } else {
      AppendExhausted(g, targets, target, paths, found);
    }
  }

  lemma SkipFarTarget(g: Graph, targets: set<Id>, target: Id, paths: seq<Path>, work: nat, before: bool)
    requires Enumerated(g, targets, paths, work, before) && BeyondDepth(g, target)
    ensures Enumerated(g, targets + {target}, paths, work, true)
  {
    assert target in targets + {target};
    SkipTarget(g, targets, targets + {target}, paths, work, before);
  }

  lemma SkipTheRest(g: Graph, targets: set<Id>, all: set<Id>, paths: seq<Path>, work: nat, before: bool)
    requires Enumerated(g, targets, paths, work, before) && targets <= all
    requires |paths| >= MAX_PATHS || work >= MAX_PATH_WORK
    ensures Enumerated(g, all, paths, work, true)
  {
    SkipTarget(g, targets, all, paths, work, before);
  }

  lemma NoneIsShorter(g: Graph, parent: map<Id, Id>, dist: map<Id, nat>, target: Id)
    requires BfsTree(g, parent, dist) && target in parent
    ensures target in dist && (dist[target] > MAX_PATH_DEPTH ==> BeyondDepth(g, target))
    ensures forall q :: WalkTo(g, q, target) ==> dist[target] <= |q| - 1
  {
    forall q | WalkTo(g, q, target) ensures dist[target] <= |q| - 1 {
      DistanceIsLeast(g, parent, dist, q, target);
    }
  }

  lemma NothingListed(g: Graph)
    ensures Enumerated(g, {}, [], 0, false)
  {
  }

  /** A target left out only sets the flag. */
  lemma SkipTarget(g: Graph, targets: set<Id>, more: set<Id>, paths: seq<Path>, work: nat, before: bool)
    requires Enumerated(g, targets, paths, work, before) && targets <= more
    requires Truncates(g, more, paths, work)
    ensures Enumerated(g, more, paths, work, true)
  {
  }

  method AttackPathsTo(g: Graph, targets: seq<Id>, ghost all: set<Id>, parent: map<Id, Id>, ghost dist: map<Id, nat>)
      returns (paths: seq<Path>, work: nat, truncated: bool)
    requires WellFormed(g) && BfsTree(g, parent, dist)
    requires forall t :: t in targets ==> t in parent && t != INTERNET_ID
    requires forall i, j :: 0 <= i < j < |targets| ==> targets[i] != targets[j]
    requires forall t :: t in all <==> t in targets
    ensures Enumerated(g, all, paths, work, truncated)
  {
    hide Listed, Exhausted, SoundList, SoundPath, Route, BudgetReached, CountTo, BeyondDepth, TooDeep, BfsTree;
    hide Enumerated;
    paths, work, truncated := [], 0, false;
    ghost var handled: set<Id> := {};
    NothingListed(g);
    for k := 0 to |targets|
      invariant forall t :: t in handled <==> t in targets[..k]
      invariant Enumerated(g, handled, paths, work, truncated)
    {
      var target := targets[k];
      ghost var next := handled + {target};
      assert target in targets && target !in targets[..k];
      var shortest, near := Witness(g, parent, dist, target);
      NoneIsShorter(g, parent, dist, target);
      if !near {
        SkipFarTarget(g, handled, target, paths, work, truncated);
        truncated := true;
      } else if |paths| >= MAX_PATHS || work >= MAX_PATH_WORK {
        SkipTheRest(g, handled, all, paths, work, truncated);
        truncated := true;
        return;
      } else {
        var found, w, cut := Enumerate(g, target, shortest, |paths|, work);
        AppendTarget(g, handled, target, paths, work, truncated, found, w, cut);
        paths, work, truncated := paths + found, w, truncated || cut;
      }
      handled := next;
    }
    assert handled == all;
  }

  /** Assembles the result: diagnostics, risk level and score. */
  method Conclude(g: Graph, reachable: set<Id>, paths: seq<Path>, work: nat, truncated: bool) returns (r: Analysis)
    requires INTERNET_ID in g.nodes && AreDescendants(g, reachable)
    requires Enumerated(g, Targets(g, reachable), paths, work, truncated)
    ensures IsAnalysis(g, r)
  {
    var exposed := OfKind(g, reachable, RESOURCE_TYPES);
    var sensitive := SensitiveResources(g);
    var diagnostics := g.diagnostics + if truncated then [PATHS_TRUNCATED] else [];
    var critical := exists p :: p in paths && p.reachesSensitive;
    var facts := RiskScore.Facts(g, exposed, sensitive * reachable, critical);
    var score, breakdown := RiskScore.ScoreAnalysis(facts);
    r := Analysis(g, reachable, exposed, sensitive, sensitive * reachable, paths,
                  RiskLevel(critical, sensitive * reachable, paths, exposed), score, breakdown,
                  diagnostics, truncated, work);
    assert r.HasCriticalPath() == critical && r.Facts() == facts;
  }

  /** What the internet reaches, and the routes to the targets among it. */
  method Explore(g: Graph) returns (reachable: set<Id>, paths: seq<Path>, work: nat, truncated: bool)
    requires WellFormed(g) && INTERNET_ID in g.nodes
    ensures AreDescendants(g, reachable)
    ensures Enumerated(g, Targets(g, reachable), paths, work, truncated)
  {
    var parent, dist := BfsParents(g);
    reachable := parent.Keys - {INTERNET_ID};
    var targets := Sorted(Targets(g, reachable));
    paths, work, truncated := AttackPathsTo(g, targets, Targets(g, reachable), parent, dist);
  }

  method Analyze(g: Graph) returns (o: Outcome)
    requires WellFormed(g)
    ensures o.InputLimitError? <==> |g.nodes| > 2500 || |g.edges| > 20_000
    ensures o.Analyzed? ==> IsAnalysis(g, o.result)
  {
    if |g.nodes| > MAX_GRAPH_NODES || |g.edges| > MAX_GRAPH_EDGES {
      return InputLimitError;
    }
    if INTERNET_ID !in g.nodes {
      NothingReachable(g);
      return Analyzed(NothingFound(g));
    }
    var reachable, paths, work, truncated := Explore(g);
    var result := Conclude(g, reachable, paths, work, truncated);
    o := Analyzed(result);
  }

  lemma FirstStep(g: Graph, p: seq<Id>)
    requires WellFormed(g) && Walk(g, p) && |p| > 1
    ensures p[0] in g.nodes
  {
    assert (p[0], p[1]) in g.edges;
  }

  function NothingFound(g: Graph): Analysis {
    Analysis(g, {}, {}, {}, {}, [], LOW, 100, [], g.diagnostics, false, 0)
  }

  lemma NothingReachable(g: Graph)
    requires WellFormed(g) && INTERNET_ID !in g.nodes
    ensures AreDescendants(g, {}) && IsAnalysis(g, NothingFound(g))
  {
    forall n | Reaches(g, n) ensures n == INTERNET_ID {
      var p :| WalkTo(g, p, n);
      if |p| > 1 { FirstStep(g, p); }
    }
    hide RiskScore.Score;
  }

  // ---------------------------------------------------------------- what the result says of the graph

  /** The worst risk on a list of edges: one edge has it, and none has a worse. */
  lemma {:induction false} WorstRiskMeans(edges: seq<Edge>)
    ensures forall e :: e in edges ==> e.risk.Rank() <= WorstRisk(edges).Rank()
    ensures if edges == [] then WorstRisk(edges) == NONE else exists e :: e in edges && e.risk == WorstRisk(edges)
  {
    if edges != [] {
      WorstRiskMeans(edges[1..]);
      assert edges == [edges[0]] + edges[1..];
      if |edges| > 1 && WorstRisk(edges) != edges[0].risk {
        var e :| e in edges[1..] && e.risk == WorstRisk(edges[1..]);
        assert e in edges;
      }
    }
  }

  /** A path carries the graph's edges; its severity is critical at a marker, and its edges' worst risk otherwise. */
  lemma PathMeans(g: Graph, p: Path, target: Id)
    requires SoundPath(g, p, target)
    ensures |p.edges| == |p.nodes| - 1
    ensures forall i :: 0 <= i < |p.edges| ==> p.edges[i] == g.edges[(p.nodes[i], p.nodes[i + 1])]
    ensures p.reachesSensitive <==> VisitsMarker(g, p.nodes)
    ensures VisitsMarker(g, p.nodes) ==> p.severity == CRITICAL
    ensures !VisitsMarker(g, p.nodes) && |p.nodes| > 1 ==>
              && (exists i :: 0 <= i < |p.edges| && p.edges[i].risk == p.severity)
              && forall i :: 0 <= i < |p.edges| ==> p.edges[i].risk.Rank() <= p.severity.Rank()
    ensures p.severity in {HIGH, CRITICAL} <==> VisitsMarker(g, p.nodes) || RunsHighRisk(g, p.nodes)
  {
    hide SoundPath, TouchesSensitive, VisitsMarker, RunsHighRisk, WorstRisk;
    SoundIsBuilt(g, p, target);
    WorstRiskMeans(p.edges);
    SameMarkers(g, p.nodes);
    HighRiskIsListed(g, p.nodes);
  }

  lemma SoundIsBuilt(g: Graph, p: Path, target: Id)
    requires SoundPath(g, p, target)
    ensures Walk(g, p.nodes) && p.edges == PathEdges(g, p.nodes)
    ensures p.reachesSensitive == TouchesSensitive(g, p.nodes)
    ensures p.severity == if p.reachesSensitive then CRITICAL else WorstRisk(p.edges)
  {
  }

  lemma HighRiskIsListed(g: Graph, nodes: seq<Id>)
    requires Walk(g, nodes)
    ensures RunsHighRisk(g, nodes) <==> exists e :: e in PathEdges(g, nodes) && e.risk in {HIGH, CRITICAL}
  {
    var edges := PathEdges(g, nodes);
    if i :| 0 <= i < |nodes| - 1 && g.edges[(nodes[i], nodes[i + 1])].risk in {HIGH, CRITICAL} {
      assert edges[i] in edges;
    }
    if e :| e in edges && e.risk in {HIGH, CRITICAL} {
      var i :| 0 <= i < |edges| && edges[i] == e;
      assert (nodes[i], nodes[i + 1]) in g.edges;
    }
  }

  lemma SameMarkers(g: Graph, p: seq<Id>)
    ensures TouchesSensitive(g, p) <==> VisitsMarker(g, p)
  {
    if n :| n in p && n in g.nodes && g.nodes[n].kind == SENSITIVE_DATA {
      var i :| 0 <= i < |p| && p[i] == n;
    }
  }

  lemma {:induction false} WorstSeverityMeans(paths: seq<Path>)
    ensures WorstSeverity(paths).Rank() >= HIGH.Rank() <==> exists p :: p in paths && p.severity in {HIGH, CRITICAL}
  {
    if paths != [] {
      WorstSeverityMeans(paths[1..]);
      assert paths == [paths[0]] + paths[1..];
      if p :| p in paths[1..] && p.severity in {HIGH, CRITICAL} {
        assert p in paths;
      }
      if p :| p in paths && p.severity in {HIGH, CRITICAL} {
        assert p == paths[0] || p in paths[1..];
      }
    }
  }

  /** The listed routes of an analysis, each with what the graph says of it. */
  lemma ListedMeans(g: Graph, r: Analysis, p: Path)
    requires Explored(g, r) && p in r.attackPaths
    ensures SoundPath(g, p, Last(p))
    ensures p.reachesSensitive <==> VisitsMarker(g, p.nodes)
    ensures p.severity in {HIGH, CRITICAL} <==> VisitsMarker(g, p.nodes) || RunsHighRisk(g, p.nodes)
  {
    var i :| 0 <= i < |r.attackPaths| && r.attackPaths[i] == p;
    PathMeans(g, p, Last(p));
  }

  /** What is worst about the graph: reachable sensitive data, or a listed route that visits a marker. */
  ghost predicate CriticalFor(g: Graph, r: Analysis) {
    (exists n :: SensitiveReached(g, n)) || exists p :: p in r.attackPaths && VisitsMarker(g, p.nodes)
  }

  /**
   * The risk level, for the graph and the listed routes: CRITICAL, HIGH, MEDIUM and LOW each hold exactly when their
   * reason does and no worse one.
   */
  lemma RiskLevelMeans(g: Graph, r: Analysis)
    requires IsAnalysis(g, r)
    ensures r.riskLevel == CRITICAL <==> CriticalFor(g, r)
    ensures r.riskLevel == HIGH <==> !CriticalFor(g, r) && exists p :: p in r.attackPaths && RunsHighRisk(g, p.nodes)
    ensures r.riskLevel == MEDIUM <==>
              && !CriticalFor(g, r) && (forall p :: p in r.attackPaths ==> !RunsHighRisk(g, p.nodes))
              && (r.attackPaths != [] || exists n :: Exposed(g, n))
    ensures r.riskLevel == LOW <==> !CriticalFor(g, r) && r.attackPaths == [] && forall n :: !Exposed(g, n)
  {
    hide Explored, Exposed, SensitiveReached, RunsHighRisk, VisitsMarker, WorstSeverity, RiskScore.Score;
    forall p | p in r.attackPaths
      ensures p.reachesSensitive <==> VisitsMarker(g, p.nodes)
      ensures p.severity in {HIGH, CRITICAL} <==> VisitsMarker(g, p.nodes) || RunsHighRisk(g, p.nodes)
    {
      ListedMeans(g, r, p);
    }
    WorstSeverityMeans(r.attackPaths);
    SetsMean(g, r);
  }

  /** The sets of an analysis are about walks of the graph. */
  lemma SetsMean(g: Graph, r: Analysis)
    requires Explored(g, r)
    ensures forall n :: n in r.exposed <==> Exposed(g, n)
    ensures forall n :: n in r.reachableSensitive <==> SensitiveReached(g, n)
  {
    hide Enumerated;
  }

  /** The score of an analysis, from the graph's edges, its walks and the listed routes. */
  lemma AnalysisScoreMeans(g: Graph, r: Analysis, ports: set<Link>, buckets: set<Link>, grants: set<Link>,
                           instances: set<Id>)
    requires IsAnalysis(g, r) && INTERNET_ID in g.nodes
    requires forall e :: e in ports <==> RiskScore.OpensAdminPort(g, e)
    requires forall e :: e in buckets <==> RiskScore.OpensBucket(g, e)
    requires forall e :: e in grants <==> RiskScore.GrantsBroadly(g, e)
    requires forall n :: n in instances <==> Exposed(g, n) && g.nodes[n].kind == EC2
    ensures var left := 100 - RiskScore.AtMost(20 * |ports|, 40) - RiskScore.AtMost(20 * |buckets|, 40)
                            - RiskScore.AtMost(15 * |instances|, 30) - RiskScore.AtMost(10 * |grants|, 20)
                            - (if exists n :: SensitiveReached(g, n) then 25 else 0)
                            - (if CriticalFor(g, r) then 20 else 0);
      r.score == if left < 0 then 0 else left
  {
    hide RiskScore.Score, RiskScore.AtMost, RiskScore.OpensAdminPort, RiskScore.OpensBucket, RiskScore.GrantsBroadly;
    hide Enumerated, RiskLevel, SensitiveReached, VisitsMarker;
    SetsMean(g, r);
    forall p | p in r.attackPaths ensures p.reachesSensitive <==> VisitsMarker(g, p.nodes) {
      ListedMeans(g, r, p);
    }
    RiskScore.ScoreMeans(r.Facts(), ports, buckets, grants, instances);
    assert r.reachableSensitive != {} <==> exists n :: SensitiveReached(g, n);
    assert r.HasCriticalPath() <==> exists p :: p in r.attackPaths && VisitsMarker(g, p.nodes);
  }

  /** An analysis is complete exactly when nothing was cut short and no finding of the graph blocks analysis. */
  lemma CompleteMeans(g: Graph, r: Analysis)
    requires IsAnalysis(g, r)
    ensures r.Complete() <==> !r.truncated && forall d :: d in g.diagnostics ==> !d.blocksAnalysis
    ensures r.truncated <==> r.diagnostics != g.diagnostics
    ensures r.truncated ==> exists d :: d in r.diagnostics && d.blocksAnalysis
  {
    hide Explored, RiskScore.Score, RiskLevel;
    assert r.truncated ==> |r.diagnostics| == |g.diagnostics| + 1 && r.diagnostics[|g.diagnostics|] == PATHS_TRUNCATED;
  }

  /** The budgets in numbers, and the only reasons for cutting an enumeration short. */
  lemma BudgetsMean(g: Graph, r: Analysis)
    requires Explored(g, r)
    ensures |r.attackPaths| <= 500 && r.work <= 100_000 && forall t :: CountTo(r.attackPaths, t) <= 25
    ensures forall p :: p in r.attackPaths ==> |p.nodes| <= 33
    ensures r.truncated ==>
              || r.work == 100_000 || |r.attackPaths| == 500
              || exists t :: CountTo(r.attackPaths, t) == 25 || TooDeep(g, t) || BeyondDepth(g, t)
  {
    forall p | p in r.attackPaths ensures |p.nodes| <= 33 {
      ListedMeans(g, r, p);
    }
    hide TooDeep, BeyondDepth, SoundPath, CountTo;
    if r.truncated && r.work < MAX_PATH_WORK && |r.attackPaths| < MAX_PATHS {
      var t :| t in Targets(g, r.reachable)
               && (CountTo(r.attackPaths, t) >= MAX_PATHS_PER_TARGET || TooDeep(g, t) || BeyondDepth(g, t));
      assert CountTo(r.attackPaths, t) <= MAX_PATHS_PER_TARGET;
    }
  }
}
