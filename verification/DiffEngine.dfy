/** Before/after comparison of two analyses. */
module DiffEngine {
  import opened Ids
  import opened Graphs
  import opened AttackPaths

  datatype Verdict = REGRESSION | IMPROVED | UNCHANGED | INCOMPLETE

  datatype GraphDiff = GraphDiff(
    before: Analysis,
    after: Analysis,
    newNodes: set<Id>,
    removedNodes: set<Id>,
    newEdges: set<Link>,
    removedEdges: set<Link>,
    newlyExposed: set<Id>,
    noLongerExposed: set<Id>,
    newlyReachableSensitive: set<Id>,
    noLongerReachableSensitive: set<Id>,
    newAttackPaths: set<Path>,
    removedAttackPaths: set<Path>)
  {
    predicate Complete() {
      before.Complete() && after.Complete()
    }

    function NewCriticalPaths(): set<Path> { set p | p in newAttackPaths && p.reachesSensitive }
    function RemovedCriticalPaths(): set<Path> { set p | p in removedAttackPaths && p.reachesSensitive }

    function ScoreDelta(): int {
      after.score - before.score
    }

    /** Sensitive data first, then coverage, then paths, exposure and score. */
    function Verdict(): Verdict {
      if newlyReachableSensitive != {} || NewCriticalPaths() != {} then REGRESSION
      else if !Complete() then INCOMPLETE
      else if noLongerReachableSensitive != {} || RemovedCriticalPaths() != {} then IMPROVED
      else if after.score < before.score || newAttackPaths != {} || newlyExposed != {} then REGRESSION
      else if after.score > before.score || removedAttackPaths != {} || noLongerExposed != {} then IMPROVED
      else UNCHANGED
    }
  }

  function Key(p: Path): string {
    Join(p.nodes)
  }

  /** The dictionary of a path list by key; a later path with the same key replaces an earlier one. */
  function ByKey(paths: seq<Path>): map<string, Path> {
    if paths == [] then map[]
    else ByKey(paths[..|paths| - 1])[Key(paths[|paths| - 1]) := paths[|paths| - 1]]
  }

  /** Every edge of the path is an edge of the graph. */
  predicate ContainsPath(g: Graph, nodes: seq<Id>) {
    forall i :: 0 <= i < |nodes| - 1 ==> (nodes[i], nodes[i + 1]) in g.edges
  }

  /** Paths of `here` whose key is unknown to `there` and which `there`'s graph does not contain. */
  function OnlyIn(here: Analysis, there: Analysis): set<Path> {
    var mine, theirs := ByKey(here.attackPaths), ByKey(there.attackPaths);
    set k | k in mine && k !in theirs && !ContainsPath(there.graph, mine[k].nodes) :: mine[k]
  }

  function Compare(before: Analysis, after: Analysis): GraphDiff {
    GraphDiff(
      before, after,
      after.graph.nodes.Keys - before.graph.nodes.Keys,
      before.graph.nodes.Keys - after.graph.nodes.Keys,
      after.graph.edges.Keys - before.graph.edges.Keys,
      before.graph.edges.Keys - after.graph.edges.Keys,
      after.exposed - before.exposed,
      before.exposed - after.exposed,
      after.reachableSensitive - before.reachableSensitive,
      before.reachableSensitive - after.reachableSensitive,
      OnlyIn(after, before),
      OnlyIn(before, after))
  }

  /** No two paths among the two lists share a key unless they visit the same nodes. */
  ghost predicate KeysIdentify(a: seq<Path>, b: seq<Path>) {
    forall p, q :: (p in a || p in b) && (q in a || q in b) && Key(p) == Key(q) ==> p.nodes == q.nodes
  }

  /** Unbroken ids make keys identify paths. */
  lemma UnbrokenIdsIdentify(a: Analysis, b: Analysis)
    requires WellFormed(a.graph) && WellFormed(b.graph) && Explored(a.graph, a) && Explored(b.graph, b)
    requires forall id :: id in a.graph.nodes || id in b.graph.nodes ==> Unbroken(id)
    ensures KeysIdentify(a.attackPaths, b.attackPaths)
  {
    forall p, q | (p in a.attackPaths || p in b.attackPaths) && (q in a.attackPaths || q in b.attackPaths)
        && Key(p) == Key(q)
      ensures p.nodes == q.nodes
    {
      PathNodesKnown(if p in a.attackPaths then a else b, p);
      PathNodesKnown(if q in a.attackPaths then a else b, q);
      JoinIsInjective(p.nodes, q.nodes);
    }
  }

  /** A listed path starts at the internet and only visits nodes of its graph. */
  lemma PathNodesKnown(a: Analysis, p: Path)
    requires WellFormed(a.graph) && Explored(a.graph, a) && p in a.attackPaths
    ensures Walk(a.graph, p.nodes) && p.nodes[0] == INTERNET_ID && |p.nodes| > 1
    ensures forall n :: n in p.nodes ==> n in a.graph.nodes
  {
    var i :| 0 <= i < |a.attackPaths| && a.attackPaths[i] == p;
    assert SoundPath(a.graph, p, Last(p)) && Last(p) in Targets(a.graph, a.reachable);
    forall k | 0 <= k < |p.nodes| ensures p.nodes[k] in a.graph.nodes {
      if k == 0 {
        assert (p.nodes[0], p.nodes[1]) in a.graph.edges;
      } else {
        assert (p.nodes[k - 1], p.nodes[k]) in a.graph.edges;
      }
    }
  }

  lemma {:induction false} ByKeyHolds(paths: seq<Path>)
    ensures forall k :: k in ByKey(paths) ==> ByKey(paths)[k] in paths && Key(ByKey(paths)[k]) == k
    ensures forall p :: p in paths ==> Key(p) in ByKey(paths)
  {
    if paths != [] {
      var last, rest := paths[|paths| - 1], paths[..|paths| - 1];
      ByKeyHolds(rest);
      assert paths == rest + [last];
    }
  }

  /** Two entries of one analysis with equal nodes are one entry. */
  lemma SameNodesSamePath(a: Analysis, p: Path, q: Path)
    requires Explored(a.graph, a) && p in a.attackPaths && q in a.attackPaths && p.nodes == q.nodes
    ensures p == q
  {
    var i :| 0 <= i < |a.attackPaths| && a.attackPaths[i] == p;
    var j :| 0 <= j < |a.attackPaths| && a.attackPaths[j] == q;
    assert i == j;
  }

  /** When keys identify paths, a path whose key is known to an analysis lies in that analysis' graph. */
  lemma TakenKeyIsContained(here: Analysis, there: Analysis, p: Path)
    requires WellFormed(there.graph) && Explored(there.graph, there)
    requires KeysIdentify(here.attackPaths, there.attackPaths)
    requires p in here.attackPaths && Key(p) in ByKey(there.attackPaths)
    ensures ContainsPath(there.graph, p.nodes)
  {
    ByKeyHolds(there.attackPaths);
    PathNodesKnown(there, ByKey(there.attackPaths)[Key(p)]);
  }

  lemma MissingPathIsReported(here: Analysis, there: Analysis, p: Path)
    requires WellFormed(there.graph)
    requires Explored(here.graph, here) && Explored(there.graph, there)
    requires KeysIdentify(here.attackPaths, there.attackPaths)
    requires p in here.attackPaths && !ContainsPath(there.graph, p.nodes)
    ensures p in OnlyIn(here, there)
  {
    var k := Key(p);
    ByKeyHolds(here.attackPaths);
    SameNodesSamePath(here, p, ByKey(here.attackPaths)[k]);
    if k in ByKey(there.attackPaths) { TakenKeyIsContained(here, there, p); }
  }

  /**
   * With identifying keys, the difference is exactly the paths the other graph lacks an edge of.
   * The other side's own enumeration, truncated or not, plays no part.
   */
  lemma OnlyInExactly(here: Analysis, there: Analysis)
    requires WellFormed(there.graph)
    requires Explored(here.graph, here) && Explored(there.graph, there)
    requires KeysIdentify(here.attackPaths, there.attackPaths)
    ensures OnlyIn(here, there) == set p | p in here.attackPaths && !ContainsPath(there.graph, p.nodes)
  {
    ByKeyHolds(here.attackPaths);
    forall p | p in here.attackPaths && !ContainsPath(there.graph, p.nodes) ensures p in OnlyIn(here, there) {
      MissingPathIsReported(here, there, p);
    }
  }

  /** Two analyses of one BEFORE graph, however they were truncated, report the same new paths. */
  lemma NewPathsIgnoreBeforeEnumeration(b: Analysis, c: Analysis, after: Analysis)
    requires b.graph == c.graph && WellFormed(b.graph)
    requires Explored(b.graph, b) && Explored(c.graph, c) && Explored(after.graph, after)
    requires KeysIdentify(after.attackPaths, b.attackPaths) && KeysIdentify(after.attackPaths, c.attackPaths)
    ensures Compare(b, after).newAttackPaths == Compare(c, after).newAttackPaths
  {
    OnlyInExactly(after, b);
    OnlyInExactly(after, c);
  }

  /** Every reported new path uses an edge that BEFORE does not have, whatever the keys. */
  lemma NewPathHasNewEdge(before: Analysis, after: Analysis, p: Path)
    requires Explored(after.graph, after) && p in Compare(before, after).newAttackPaths
    ensures p in after.attackPaths
    ensures exists i :: 0 <= i < |p.nodes| - 1 && (p.nodes[i], p.nodes[i + 1]) in Compare(before, after).newEdges
  {
    ByKeyHolds(after.attackPaths);
    var k :| 0 <= k < |after.attackPaths| && after.attackPaths[k] == p;
    assert SoundPath(after.graph, p, Last(p));
    var i :| 0 <= i < |p.nodes| - 1 && (p.nodes[i], p.nodes[i + 1]) !in before.graph.edges;
  }

  /** A path AFTER has and BEFORE's graph lacks goes unreported exactly when its key is taken. */
  lemma HiddenExactlyByKey(before: Analysis, after: Analysis, p: Path)
    requires p in after.attackPaths && !ContainsPath(before.graph, p.nodes)
    ensures p !in Compare(before, after).newAttackPaths <==>
            || (exists q :: q in before.attackPaths && Key(q) == Key(p))
            || (Key(p) in ByKey(after.attackPaths) && ByKey(after.attackPaths)[Key(p)] != p)
  {
    ByKeyHolds(after.attackPaths);
    ByKeyHolds(before.attackPaths);
    if p in OnlyIn(after, before) {
      var k :| k in ByKey(after.attackPaths) && k !in ByKey(before.attackPaths) && ByKey(after.attackPaths)[k] == p;
    } else {
      var k := Key(p);
      if ByKey(after.attackPaths)[k] == p {
        assert k in ByKey(before.attackPaths);
        assert ByKey(before.attackPaths)[k] in before.attackPaths;
      }
    }
  }

  // ---------------------------------------------------------------- what the comparison says of the graphs

  /** The second graph lets the internet reach a sensitive resource that the first does not. */
  ghost predicate NewSensitiveReach(before: Graph, after: Graph) {
    exists n :: SensitiveReached(after, n) && !SensitiveReached(before, n)
  }

  ghost predicate NewExposure(before: Graph, after: Graph) {
    exists n :: Exposed(after, n) && !Exposed(before, n)
  }

  /** The analysis lists a route that is no walk of the other graph. */
  ghost predicate ListsBeyond(a: Analysis, other: Graph) {
    exists p :: p in a.attackPaths && !Walk(other, p.nodes)
  }

  /** Such a route visits a sensitive-data marker. */
  ghost predicate ListsCriticalBeyond(a: Analysis, other: Graph) {
    exists p :: p in a.attackPaths && !Walk(other, p.nodes) && VisitsMarker(a.graph, p.nodes)
  }

  lemma BeyondMeans(here: Analysis, there: Analysis)
    requires WellFormed(there.graph)
    requires Explored(here.graph, here) && Explored(there.graph, there)
    requires KeysIdentify(here.attackPaths, there.attackPaths)
    ensures forall p :: p in OnlyIn(here, there) <==> p in here.attackPaths && !Walk(there.graph, p.nodes)
    ensures OnlyIn(here, there) != {} <==> ListsBeyond(here, there.graph)
    ensures (exists p :: p in OnlyIn(here, there) && p.reachesSensitive) <==> ListsCriticalBeyond(here, there.graph)
  {
    OnlyInExactly(here, there);
    forall p | p in here.attackPaths
      ensures p.reachesSensitive <==> VisitsMarker(here.graph, p.nodes)
      ensures p.nodes != []
    {
      ListedMeans(here.graph, here, p);
    }
    hide Explored, KeysIdentify, VisitsMarker;
    if ListsBeyond(here, there.graph) {
      var p :| p in here.attackPaths && !Walk(there.graph, p.nodes);
      assert p in OnlyIn(here, there);
    }
    if ListsCriticalBeyond(here, there.graph) {
      var p :| p in here.attackPaths && !Walk(there.graph, p.nodes) && VisitsMarker(here.graph, p.nodes);
      assert p in OnlyIn(here, there);
    }
  }

  /** Every list of the comparison, for the two graphs and the listed routes. */
  lemma CompareMeans(before: Analysis, after: Analysis)
    requires WellFormed(before.graph) && WellFormed(after.graph)
    requires Explored(before.graph, before) && Explored(after.graph, after)
    requires KeysIdentify(after.attackPaths, before.attackPaths)
    ensures var d, g, h := Compare(before, after), before.graph, after.graph;
      && d.before == before && d.after == after
      && (forall n :: n in d.newNodes <==> n in h.nodes && n !in g.nodes)
      && (forall n :: n in d.removedNodes <==> n in g.nodes && n !in h.nodes)
      && (forall e :: e in d.newEdges <==> e in h.edges && e !in g.edges)
      && (forall e :: e in d.removedEdges <==> e in g.edges && e !in h.edges)
      && (forall n :: n in d.newlyExposed <==> Exposed(h, n) && !Exposed(g, n))
      && (forall n :: n in d.noLongerExposed <==> Exposed(g, n) && !Exposed(h, n))
      && (forall n :: n in d.newlyReachableSensitive <==> SensitiveReached(h, n) && !SensitiveReached(g, n))
      && (forall n :: n in d.noLongerReachableSensitive <==> SensitiveReached(g, n) && !SensitiveReached(h, n))
      && (forall p :: p in d.newAttackPaths <==> p in after.attackPaths && !Walk(g, p.nodes))
      && (forall p :: p in d.removedAttackPaths <==> p in before.attackPaths && !Walk(h, p.nodes))
  {
    SetsMean(before.graph, before);
    SetsMean(after.graph, after);
    BeyondMeans(after, before);
    BeyondMeans(before, after);
    hide Explored, KeysIdentify, OnlyIn, Exposed, SensitiveReached, Walk;
  }

  /** The comparison found something worse for sensitive data. */
  ghost predicate DataWorse(before: Analysis, after: Analysis) {
    NewSensitiveReach(before.graph, after.graph) || ListsCriticalBeyond(after, before.graph)
  }

  /** The comparison found something worse that does not touch sensitive data. */
  ghost predicate OtherwiseWorse(before: Analysis, after: Analysis) {
    after.score < before.score || ListsBeyond(after, before.graph) || NewExposure(before.graph, after.graph)
  }

  /** The difference sets are empty exactly when nothing of their kind changed. */
  lemma ChangesMean(before: Analysis, after: Analysis)
    requires WellFormed(before.graph)
    requires Explored(before.graph, before) && Explored(after.graph, after)
    requires KeysIdentify(after.attackPaths, before.attackPaths)
    ensures var d := Compare(before, after);
      && (d.newlyReachableSensitive != {} <==> NewSensitiveReach(before.graph, after.graph))
      && (d.newlyExposed != {} <==> NewExposure(before.graph, after.graph))
      && (d.newAttackPaths != {} <==> ListsBeyond(after, before.graph))
      && (d.NewCriticalPaths() != {} <==> ListsCriticalBeyond(after, before.graph))
  {
    SetsMean(before.graph, before);
    SetsMean(after.graph, after);
    BeyondMeans(after, before);
    hide Explored, KeysIdentify, OnlyIn, Exposed, SensitiveReached, ListsBeyond, ListsCriticalBeyond;
    var d := Compare(before, after);
    if n :| SensitiveReached(after.graph, n) && !SensitiveReached(before.graph, n) {
      assert n in d.newlyReachableSensitive;
    }
    if n :| Exposed(after.graph, n) && !Exposed(before.graph, n) {
      assert n in d.newlyExposed;
    }
    if p :| p in d.newAttackPaths && p.reachesSensitive {
      assert p in d.NewCriticalPaths();
    }
  }

  /** The same comparison the other way round. */
  lemma ReverseChanges(before: Analysis, after: Analysis)
    ensures var d, e := Compare(before, after), Compare(after, before);
      && d.noLongerReachableSensitive == e.newlyReachableSensitive && d.noLongerExposed == e.newlyExposed
      && d.removedAttackPaths == e.newAttackPaths && d.RemovedCriticalPaths() == e.NewCriticalPaths()
      && d.Complete() == e.Complete()
  {
  }

  /**
   * Each verdict, for the two graphs and the listed routes: sensitive data first, then coverage, then everything else,
   * and a loss outweighs a gain.
   */
  lemma VerdictMeans(before: Analysis, after: Analysis)
    requires WellFormed(before.graph) && WellFormed(after.graph)
    requires Explored(before.graph, before) && Explored(after.graph, after)
    requires KeysIdentify(after.attackPaths, before.attackPaths)
    ensures var v, complete := Compare(before, after).Verdict(), before.Complete() && after.Complete();
      && (v == REGRESSION <==>
            || DataWorse(before, after)
            || (complete && !DataWorse(after, before) && OtherwiseWorse(before, after)))
      && (v == INCOMPLETE <==> !DataWorse(before, after) && !complete)
      && (v == IMPROVED <==>
            && !DataWorse(before, after) && complete
            && (DataWorse(after, before) || (!OtherwiseWorse(before, after) && OtherwiseWorse(after, before))))
      && (v == UNCHANGED <==>
            && complete && !DataWorse(before, after) && !DataWorse(after, before)
            && !OtherwiseWorse(before, after) && !OtherwiseWorse(after, before))
  {
    hide Explored, KeysIdentify, Compare, NewSensitiveReach, NewExposure, ListsBeyond, ListsCriticalBeyond;
    hide Analysis.Complete, GraphDiff.NewCriticalPaths, GraphDiff.RemovedCriticalPaths;
    KeysIdentifyEither(after.attackPaths, before.attackPaths);
    ChangesMean(before, after);
    ChangesMean(after, before);
    ReverseChanges(before, after);
    CompareKeepsSides(before, after);
  }

  lemma KeysIdentifyEither(a: seq<Path>, b: seq<Path>)
    requires KeysIdentify(a, b)
    ensures KeysIdentify(b, a)
  {
  }

  lemma CompareKeepsSides(before: Analysis, after: Analysis)
    ensures Compare(before, after).before == before && Compare(before, after).after == after
    ensures Compare(before, after).ScoreDelta() == after.score - before.score
  {
  }

  /** Undoing an improvement is a regression, and undoing no change is none. */
  lemma VerdictsReverse(before: Analysis, after: Analysis)
    requires WellFormed(before.graph) && WellFormed(after.graph)
    requires Explored(before.graph, before) && Explored(after.graph, after)
    requires KeysIdentify(after.attackPaths, before.attackPaths)
    ensures Compare(before, after).Verdict() == IMPROVED ==> Compare(after, before).Verdict() == REGRESSION
    ensures Compare(before, after).Verdict() == UNCHANGED <==> Compare(after, before).Verdict() == UNCHANGED
  {
    hide Explored, KeysIdentify, DataWorse, OtherwiseWorse, Compare, GraphDiff.Verdict;
    KeysIdentifyEither(after.attackPaths, before.attackPaths);
    VerdictMeans(before, after);
    VerdictMeans(after, before);
  }
}
